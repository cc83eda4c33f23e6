/** Stable sorting by a total preorder: what Python's sorted and Go's sort.SliceStable compute. */
module Sorting {

  ghost predicate Total<T(!new)>(le: (T, T) -> bool) {
    && (forall a, b :: le(a, b) || le(b, a))
    && (forall a, b, c :: le(a, b) && le(b, c) ==> le(a, c))
  }

  ghost predicate SortedBy<T>(s: seq<T>, le: (T, T) -> bool) {
    forall i, j | 0 <= i < j < |s| :: le(s[i], s[j])
  }

  /** Elements that compare equal are equal. */
  ghost predicate Distinguishes<T>(s: seq<T>, le: (T, T) -> bool) {
    forall i, j | 0 <= i < |s| && 0 <= j < |s| :: le(s[i], s[j]) && le(s[j], s[i]) ==> s[i] == s[j]
  }

  /** x goes after everything not greater than it. */
  function Insert<T>(s: seq<T>, x: T, le: (T, T) -> bool): (r: seq<T>)
    ensures |r| == |s| + 1
  {
    if s == [] || le(s[|s| - 1], x) then s + [x] else Insert(s[..|s| - 1], x, le) + [s[|s| - 1]]
  }

  function Sort<T>(s: seq<T>, le: (T, T) -> bool): (r: seq<T>)
    ensures |r| == |s|
  {
    if s == [] then [] else Insert(Sort(s[..|s| - 1], le), s[|s| - 1], le)
  }

  lemma {:induction false} Snoc<T>(s: seq<T>)
    requires s != []
    ensures s == s[..|s| - 1] + [s[|s| - 1]]
    ensures multiset(s) == multiset(s[..|s| - 1]) + multiset{s[|s| - 1]}
  {
    assert s == s[..|s| - 1] + [s[|s| - 1]];
  }

  lemma {:induction false} InsertPermutes<T>(s: seq<T>, x: T, le: (T, T) -> bool)
    ensures multiset(Insert(s, x, le)) == multiset(s) + multiset{x}
    decreases |s|
  {
    if s != [] && !le(s[|s| - 1], x) {
      InsertPermutes(s[..|s| - 1], x, le);
      Snoc(s);
    }
  }

  lemma {:induction false} SortPermutes<T>(s: seq<T>, le: (T, T) -> bool)
    ensures multiset(Sort(s, le)) == multiset(s)
    decreases |s|
  {
    if s != [] {
      SortPermutes(s[..|s| - 1], le);
      InsertPermutes(Sort(s[..|s| - 1], le), s[|s| - 1], le);
      Snoc(s);
    }
  }

  lemma {:induction false} SameElements<T>(s: seq<T>, t: seq<T>, x: T)
    requires multiset(s) == multiset(t) && x in s
    ensures x in t
  {
    assert x in multiset(s);
  }

  lemma {:induction false} InsertSorts<T(!new)>(s: seq<T>, x: T, le: (T, T) -> bool)
    requires Total(le) && SortedBy(s, le)
    ensures SortedBy(Insert(s, x, le), le)
    decreases |s|
  {
    if s != [] && !le(s[|s| - 1], x) {
      var front, last := s[..|s| - 1], s[|s| - 1];
      InsertSorts(front, x, le);
      var r := Insert(front, x, le);
      InsertPermutes(front, x, le);
      assert multiset(front + [x]) == multiset(r);
      forall i | 0 <= i < |r| ensures le(r[i], last) {
        SameElements(r, front + [x], r[i]);
        assert le(x, last);
      }
    }
  }

  lemma {:induction false} SortSorts<T(!new)>(s: seq<T>, le: (T, T) -> bool)
    requires Total(le)
    ensures SortedBy(Sort(s, le), le)
    decreases |s|
  {
    if s != [] {
      SortSorts(s[..|s| - 1], le);
      InsertSorts(Sort(s[..|s| - 1], le), s[|s| - 1], le);
    }
  }

  /** Stability's corollary: a sequence already in order is left as it is. */
  lemma {:induction false} SortedIsFixed<T>(s: seq<T>, le: (T, T) -> bool)
    requires SortedBy(s, le)
    ensures Sort(s, le) == s
    decreases |s|
  {
    if s != [] {
      SortedIsFixed(s[..|s| - 1], le);
      Snoc(s);
      assert |s| > 1 ==> le(s[|s| - 2], s[|s| - 1]);
    }
  }

  lemma {:induction false} LastIsGreatest<T(!new)>(s: seq<T>, t: seq<T>, le: (T, T) -> bool)
    requires Total(le) && SortedBy(s, le) && multiset(s) == multiset(t) && s != [] && t != []
    ensures le(t[|t| - 1], s[|s| - 1]) && t[|t| - 1] in s
  {
    SameElements(t, s, t[|t| - 1]);
    assert le(s[|s| - 1], s[|s| - 1]);
  }

  /** When no two elements tie, a sorted arrangement of a multiset is unique. */
  lemma {:induction false} SortedUnique<T(!new)>(s: seq<T>, t: seq<T>, le: (T, T) -> bool)
    requires Total(le) && SortedBy(s, le) && SortedBy(t, le)
    requires multiset(s) == multiset(t) && Distinguishes(s, le)
    ensures s == t
    decreases |s|
  {
    assert |multiset(s)| == |s| && |multiset(t)| == |t|;
    if s != [] {
      var n := |s| - 1;
      LastIsGreatest(s, t, le);
      LastIsGreatest(t, s, le);
      Snoc(s);
      Snoc(t);
      assert multiset(s[..n]) == multiset(s) - multiset{s[n]};
      SortedUnique(s[..n], t[..n], le);
    }
  }

  /** Sorting forgets the order the elements came in. */
  lemma {:induction false} SortIsCanonical<T(!new)>(s: seq<T>, t: seq<T>, le: (T, T) -> bool)
    requires Total(le) && multiset(s) == multiset(t) && Distinguishes(s, le)
    ensures Sort(s, le) == Sort(t, le)
  {
    var u, v := Sort(s, le), Sort(t, le);
    SortPermutes(s, le);
    SortPermutes(t, le);
    SortSorts(s, le);
    SortSorts(t, le);
    forall i, j | 0 <= i < |u| && 0 <= j < |u| && le(u[i], u[j]) && le(u[j], u[i]) ensures u[i] == u[j] {
      SameElements(u, s, u[i]);
      SameElements(u, s, u[j]);
    }
    SortedUnique(u, v, le);
  }

  ghost predicate NoDuplicates<T>(s: seq<T>) {
    forall i, j | 0 <= i < j < |s| :: s[i] != s[j]
  }

  lemma {:induction false} CountsAreOne<T(!new)>(s: seq<T>)
    ensures NoDuplicates(s) <==> forall x | x in s :: multiset(s)[x] == 1
    decreases |s|
  {
    if s != [] {
      var front, last := s[..|s| - 1], s[|s| - 1];
      Snoc(s);
      CountsAreOne(front);
      if NoDuplicates(s) {
        assert NoDuplicates(front) && last !in front;
      } else if NoDuplicates(front) {
        assert last in multiset(front);
        assert last in s && multiset(s)[last] > 1;
      } else {
        var x :| x in front && multiset(front)[x] != 1;
        assert x in s && x in multiset(front);
      }
    }
  }

  lemma {:induction false} SortKeepsDistinct<T(!new)>(s: seq<T>, le: (T, T) -> bool)
    requires NoDuplicates(s)
    ensures NoDuplicates(Sort(s, le)) && forall x :: x in Sort(s, le) <==> x in s
  {
    SortPermutes(s, le);
    forall x ensures x in Sort(s, le) <==> x in s {
      assert x in Sort(s, le) <==> x in multiset(Sort(s, le));
    }
    CountsAreOne(s);
    CountsAreOne(Sort(s, le));
  }
}
