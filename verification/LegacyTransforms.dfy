/** The stream quirks of the legacy core: what Q9 deletes, what Q10 cuts and what Q11 suppresses. */
module LegacyTransforms {
  import opened Options
  import opened DayCount
  import opened Sorting
  import opened Extracts
  import opened LegacyStream

  // ---------------------------------------------------------------- Q10

  /** Truncation keeps the sign and loses less than one yen. */
  lemma {:induction false} TruncatedIs(h: int)
    ensures var t := Truncated(h);
            if h >= 0 then 0 <= 100 * t <= h < 100 * t + 100 else 100 * t - 100 < h <= 100 * t <= 0
  {
  }

  /** Q10 touches the amounts of yen rows that carry hundredths, and nothing else. */
  lemma {:induction false} YenAreTruncated(ts: seq<Txn>, i: nat)
    requires i < |ts|
    ensures var t, r := ts[i], Truncating(ts)[i];
            && r.(amount := t.amount) == t
            && (t.currency != "JPY" || t.trueHundredths == None ==> r == t)
            && (t.currency == "JPY" && t.trueHundredths.Some? ==>
                  var h := t.trueHundredths.value;
                  if h >= 0 then 0 <= 100 * r.amount <= h < 100 * r.amount + 100 else 100 * r.amount - 100 < h <= 100 * r.amount <= 0)
  {
    if ts[i].trueHundredths.Some? {
      TruncatedIs(ts[i].trueHundredths.value);
    }
  }

  // ---------------------------------------------------------------- Q11

  /** The same payment again, at most the window later. */
  ghost predicate Repeats(k: Txn, t: Txn, seconds: int) {
    && t.accountId == k.accountId && t.amount == k.amount && t.counterparty == k.counterparty
    && k.postedAt <= t.postedAt <= k.postedAt + seconds * 1_000_000
  }

  /** What is kept repeats nothing kept before it; what is dropped repeats something kept. */
  lemma {:induction false} RepeatsAreDropped(q: Quirks, ts: seq<Txn>)
    ensures var kept := Suppressing(q, ts);
            && (forall i, j | 0 <= i < j < |kept| :: !Repeats(kept[i], kept[j], q.windowSeconds))
            && (forall t | t in kept :: t in ts)
            && (forall t | t in ts && t !in kept :: exists i :: 0 <= i < |kept| && Repeats(kept[i], t, q.windowSeconds))
    decreases |ts|
  {
    if ts != [] {
      var front, last := ts[..|ts| - 1], ts[|ts| - 1];
      Snoc(ts);
      RepeatsAreDropped(q, front);
      var was, kept := Suppressing(q, front), Suppressing(q, ts);
      assert forall i | 0 <= i < |was| :: Repeats(was[i], last, q.windowSeconds) <==> Suppresses(q, was[i], last);
      forall t | t in ts && t !in kept ensures exists i :: 0 <= i < |kept| && Repeats(kept[i], t, q.windowSeconds) {
        if t in front {
          assert t !in was;
          var i :| 0 <= i < |was| && Repeats(was[i], t, q.windowSeconds);
          assert kept[i] == was[i];
        }
      }
    }
  }

  // ---------------------------------------------------------------- Q9

  ghost predicate ReversedIn(ts: seq<Txn>, id: string) {
    exists r :: r in ts && r.kind == "reversal" && r.counterparty != "" && r.counterparty == id
  }

  /** A reversal that names something takes every reversal out, and every transaction that is named. */
  lemma {:induction false} ReversalsDelete(ts: seq<Txn>, t: Txn)
    ensures t in Deleting(ts) <==>
            t in ts && ((forall r | r in ts && r.kind == "reversal" :: r.counterparty == "") || (t.kind != "reversal" && !ReversedIn(ts, t.txnId)))
  {
    assert forall i | 0 <= i < |ts| :: ts[i] in ts;
    var keep := (t: Txn) => t.kind != "reversal" && forall i | 0 <= i < |ts| :: !Reverses(ts[i], t.txnId);
    SelectHas(ts, keep);
  }

  /** The total of an account in a currency. */
  function TotalOf(ts: seq<Txn>, a: string, c: string): int {
    if ts == [] then 0 else
      var t := ts[|ts| - 1];
      TotalOf(ts[..|ts| - 1], a, c) + if t.accountId == a && t.currency == c then t.amount else 0
  }

  /** Ids differ; each reversal undoes a transaction of its own, on the same account in the same currency. */
  ghost predicate Undoing(ts: seq<Txn>) {
    && (forall i, j | 0 <= i < j < |ts| :: ts[i].txnId != ts[j].txnId)
    && (forall r | r in ts && r.kind == "reversal" :: r.counterparty != "" && exists o :: o in ts && Undoes(r, o))
    && (forall i, j | 0 <= i < j < |ts| && ts[i].kind == "reversal" && ts[j].kind == "reversal" :: ts[i].counterparty != ts[j].counterparty)
  }

  ghost predicate Undoes(r: Txn, o: Txn) {
    o.kind != "reversal" && o.txnId == r.counterparty && o.accountId == r.accountId && o.currency == r.currency && o.amount == 0 - r.amount
  }

  function Not(p: Txn -> bool): Txn -> bool {
    (t: Txn) => !p(t)
  }

  lemma {:induction false} SelectSnoc(ts: seq<Txn>, p: Txn -> bool)
    requires ts != []
    ensures var n := |ts| - 1; Select(ts, p) == if p(ts[n]) then Select(ts[..n], p) + [ts[n]] else Select(ts[..n], p)
  {
  }

  lemma {:induction false} TotalSplit(ts: seq<Txn>, p: Txn -> bool, a: string, c: string)
    ensures TotalOf(ts, a, c) == TotalOf(Select(ts, p), a, c) + TotalOf(Select(ts, Not(p)), a, c)
    decreases |ts|
  {
    if ts != [] {
      var n := |ts| - 1;
      TotalSplit(ts[..n], p, a, c);
      SelectSnoc(ts, p);
      SelectSnoc(ts, Not(p));
      TotalSnoc(if p(ts[n]) then Select(ts[..n], p) else Select(ts[..n], Not(p)), ts[n], a, c);
    }
  }

  lemma {:induction false} TotalSnoc(ts: seq<Txn>, t: Txn, a: string, c: string)
    ensures TotalOf(ts + [t], a, c) == TotalOf(ts, a, c) + if t.accountId == a && t.currency == c then t.amount else 0
  {
    assert (ts + [t])[..|ts|] == ts;
  }

  lemma {:induction false} TotalWithout(ts: seq<Txn>, i: nat, a: string, c: string)
    requires i < |ts|
    ensures TotalOf(ts, a, c) == TotalOf(ts[..i] + ts[i + 1..], a, c) + if ts[i].accountId == a && ts[i].currency == c then ts[i].amount else 0
    decreases |ts|
  {
    var n := |ts| - 1;
    if i == n {
      assert ts[..i] + ts[i + 1..] == ts[..n];
    } else {
      TotalWithout(ts[..n], i, a, c);
      assert ts[..n][..i] + ts[..n][i + 1..] == (ts[..i] + ts[i + 1..])[..n - 1];
    }
  }

  /** Every reversal has its original in the other list, every original its reversal, and none twice. */
  ghost predicate Matched(rs: seq<Txn>, os: seq<Txn>) {
    Differ(rs, Party()) && Differ(os, Id()) && EachUndoes(rs, os) && EachNamed(rs, os)
  }

  ghost predicate EachUndoes(rs: seq<Txn>, os: seq<Txn>) {
    forall r | r in rs :: exists o :: o in os && Undoes(r, o)
  }

  ghost predicate EachNamed(rs: seq<Txn>, os: seq<Txn>) {
    forall o | o in os :: exists r :: r in rs && r.counterparty == o.txnId
  }

  function Party(): Txn -> string {
    (t: Txn) => t.counterparty
  }

  function Id(): Txn -> string {
    (t: Txn) => t.txnId
  }

  ghost predicate Differ(ts: seq<Txn>, key: Txn -> string) {
    forall i, j | 0 <= i < j < |ts| :: key(ts[i]) != key(ts[j])
  }

  lemma {:induction false} Without(ts: seq<Txn>, j: nat, key: Txn -> string)
    requires Differ(ts, key) && j < |ts|
    ensures var rest := ts[..j] + ts[j + 1..];
            Differ(rest, key) && forall t :: t in rest <==> t in ts && key(t) != key(ts[j])
  {
    var rest := ts[..j] + ts[j + 1..];
    assert forall k | 0 <= k < |rest| :: rest[k] == ts[if k < j then k else k + 1];
    forall t ensures t in rest <==> t in ts && key(t) != key(ts[j]) {
      if t in ts && key(t) != key(ts[j]) {
        var i :| 0 <= i < |ts| && ts[i] == t;
        assert rest[if i < j then i else i - 1] == t;
      }
    }
  }

  lemma {:induction false} UndoneLess(rs: seq<Txn>, front: seq<Txn>, r0: Txn, os: seq<Txn>, rest: seq<Txn>, o0: Txn)
    requires EachUndoes(rs, os) && Undoes(r0, o0)
    requires forall r :: r in front <==> r in rs && r.counterparty != r0.counterparty
    requires forall o :: o in rest <==> o in os && o.txnId != o0.txnId
    ensures EachUndoes(front, rest)
  {
    forall r | r in front ensures exists o :: o in rest && Undoes(r, o) {
      var o :| o in os && Undoes(r, o);
      assert o in rest;
    }
  }

  lemma {:induction false} NamedLess(rs: seq<Txn>, front: seq<Txn>, r0: Txn, os: seq<Txn>, rest: seq<Txn>, o0: Txn)
    requires EachNamed(rs, os) && Undoes(r0, o0)
    requires forall r :: r in front <==> r in rs && r.counterparty != r0.counterparty
    requires forall o :: o in rest <==> o in os && o.txnId != o0.txnId
    ensures EachNamed(front, rest)
  {
    forall o | o in rest ensures exists r :: r in front && r.counterparty == o.txnId {
      var r :| r in rs && r.counterparty == o.txnId;
      assert r in front;
    }
  }

  lemma {:induction false} MatchedLess(rs: seq<Txn>, os: seq<Txn>, j: nat)
    requires Matched(rs, os) && rs != [] && j < |os| && Undoes(rs[|rs| - 1], os[j])
    ensures Matched(rs[..|rs| - 1], os[..j] + os[j + 1..])
  {
    var n := |rs| - 1;
    var front, rest := rs[..n], os[..j] + os[j + 1..];
    Without(os, j, Id());
    Without(rs, n, Party());
    assert rs[..n] + rs[n + 1..] == front;
    UndoneLess(rs, front, rs[n], os, rest, os[j]);
    NamedLess(rs, front, rs[n], os, rest, os[j]);
  }

  lemma {:induction false} LastUndone(rs: seq<Txn>, os: seq<Txn>) returns (j: nat)
    requires EachUndoes(rs, os) && rs != []
    ensures j < |os| && Undoes(rs[|rs| - 1], os[j])
  {
    assert rs[|rs| - 1] in rs;
    var o :| o in os && Undoes(rs[|rs| - 1], o);
    j :| 0 <= j < |os| && os[j] == o;
  }

  lemma {:induction false} NamedBySome(rs: seq<Txn>, os: seq<Txn>)
    requires EachNamed(rs, os) && os != []
    ensures rs != []
  {
    assert os[0] in os;
    var r :| r in rs && r.counterparty == os[0].txnId;
  }

  lemma {:induction false} MatchedCancel(rs: seq<Txn>, os: seq<Txn>, a: string, c: string)
    requires Matched(rs, os)
    ensures TotalOf(rs, a, c) + TotalOf(os, a, c) == 0
    decreases |rs|
  {
    if rs == [] {
      if os != [] {
        NamedBySome(rs, os);
      }
    } else {
      var j := LastUndone(rs, os);
      MatchedLess(rs, os, j);
      MatchedCancel(rs[..|rs| - 1], os[..j] + os[j + 1..], a, c);
      TotalWithout(os, j, a, c);
    }
  }

  lemma {:induction false} SelectedDiffer(ts: seq<Txn>, p: Txn -> bool, key: Txn -> string)
    requires forall i, j | 0 <= i < j < |ts| && p(ts[i]) && p(ts[j]) :: key(ts[i]) != key(ts[j])
    ensures Differ(Select(ts, p), key)
    decreases |ts|
  {
    if ts != [] {
      var n := |ts| - 1;
      SelectedDiffer(ts[..n], p, key);
      SelectHas(ts[..n], p);
      var s := Select(ts[..n], p);
      forall i | 0 <= i < |s| && p(ts[n]) ensures key(s[i]) != key(ts[n]) {
        assert s[i] in s;
        var k :| 0 <= k < |ts[..n]| && ts[..n][k] == s[i];
        assert ts[k] == s[i];
      }
    }
  }

  function IsReversal(): Txn -> bool {
    (t: Txn) => t.kind == "reversal"
  }

  ghost function IsReversed(ts: seq<Txn>): Txn -> bool {
    (t: Txn) => t.kind != "reversal" && ReversedIn(ts, t.txnId)
  }

  ghost function Staying(ts: seq<Txn>): Txn -> bool {
    (t: Txn) => t.kind != "reversal" && !ReversedIn(ts, t.txnId)
  }

  lemma {:induction false} SelectTwice(ts: seq<Txn>, p: Txn -> bool, q: Txn -> bool, r: Txn -> bool)
    requires forall t: Txn :: r(t) <==> p(t) && q(t)
    ensures Select(Select(ts, p), q) == Select(ts, r)
    decreases |ts|
  {
    if ts != [] {
      var n := |ts| - 1;
      SelectTwice(ts[..n], p, q, r);
      var s := Select(ts[..n], p);
      assert (s + [ts[n]])[..|s|] == s && s + [] == s;
      var once := Select(s, q);
      assert once + [] == once;
    }
  }

  lemma {:induction false} SelectSame(ts: seq<Txn>, p: Txn -> bool, q: Txn -> bool)
    requires forall t | t in ts :: p(t) == q(t)
    ensures Select(ts, p) == Select(ts, q)
    decreases |ts|
  {
    if ts != [] {
      Snoc(ts);
      SelectSame(ts[..|ts| - 1], p, q);
    }
  }

  lemma {:induction false} ReversalsMatch(ts: seq<Txn>)
    requires Undoing(ts)
    ensures Matched(Select(ts, IsReversal()), Select(ts, IsReversed(ts)))
  {
    var rs, os := Select(ts, IsReversal()), Select(ts, IsReversed(ts));
    SelectedDiffer(ts, IsReversal(), Party());
    SelectedDiffer(ts, IsReversed(ts), Id());
    SelectHas(ts, IsReversal());
    SelectHas(ts, IsReversed(ts));
    forall r | r in rs ensures exists o :: o in os && Undoes(r, o) {
      var o :| o in ts && Undoes(r, o);
      assert ReversedIn(ts, o.txnId);
      assert IsReversed(ts)(o);
    }
    forall o | o in os ensures exists r :: r in rs && r.counterparty == o.txnId {
      assert IsReversed(ts)(o);
      var r :| r in ts && r.kind == "reversal" && r.counterparty != "" && r.counterparty == o.txnId;
      assert IsReversal()(r);
    }
  }

  lemma {:induction false} NoneReversed(ts: seq<Txn>, t: Txn)
    requires forall r | r in ts :: r.kind != "reversal"
    ensures t in ts ==> Staying(ts)(t)
  {
    assert !ReversedIn(ts, t.txnId);
  }

  lemma {:induction false} ReversedByIndex(ts: seq<Txn>, id: string)
    ensures ReversedIn(ts, id) <==> exists i :: 0 <= i < |ts| && Reverses(ts[i], id)
  {
    if ReversedIn(ts, id) {
      var r :| r in ts && r.kind == "reversal" && r.counterparty != "" && r.counterparty == id;
      var i :| 0 <= i < |ts| && ts[i] == r;
      assert Reverses(ts[i], id);
    }
    assert forall i | 0 <= i < |ts| :: ts[i] in ts;
  }

  lemma {:induction false} DeletingKeeps(ts: seq<Txn>)
    requires Undoing(ts)
    ensures Deleting(ts) == Select(ts, Staying(ts))
  {
    if forall i | 0 <= i < |ts| :: ts[i].kind == "reversal" ==> ts[i].counterparty == "" {
      forall t | t in ts ensures Staying(ts)(t) {
        NoReversals(ts);
        NoneReversed(ts, t);
      }
      SelectAll(ts, Staying(ts));
    } else {
      var del := (t: Txn) => t.kind != "reversal" && forall i | 0 <= i < |ts| :: !Reverses(ts[i], t.txnId);
      forall t | t in ts ensures Staying(ts)(t) == del(t) {
        ReversedByIndex(ts, t.txnId);
      }
      SelectSame(ts, del, Staying(ts));
    }
  }

  lemma {:induction false} NoReversals(ts: seq<Txn>)
    requires Undoing(ts) && forall i | 0 <= i < |ts| :: ts[i].kind == "reversal" ==> ts[i].counterparty == ""
    ensures forall r | r in ts :: r.kind != "reversal"
  {
    forall r | r in ts ensures r.kind != "reversal" {
      var i :| 0 <= i < |ts| && ts[i] == r;
    }
  }

  lemma {:induction false} SelectAll(ts: seq<Txn>, p: Txn -> bool)
    requires forall t | t in ts :: p(t)
    ensures Select(ts, p) == ts
    decreases |ts|
  {
    if ts != [] {
      Snoc(ts);
      SelectAll(ts[..|ts| - 1], p);
    }
  }

  /** Q9 is invisible to totals: when reversals undo transactions of their own, deleting both leaves every account's total
      in every currency as it was. */
  lemma {:induction false} TotalsSurvive(ts: seq<Txn>, a: string, c: string)
    requires Undoing(ts)
    ensures TotalOf(Deleting(ts), a, c) == TotalOf(ts, a, c)
  {
    var rev, red := IsReversal(), IsReversed(ts);
    TotalSplit(ts, rev, a, c);
    var rest := Select(ts, Not(rev));
    TotalSplit(rest, red, a, c);
    SelectTwice(ts, Not(rev), red, red);
    SelectTwice(ts, Not(rev), Not(red), Staying(ts));
    DeletingKeeps(ts);
    ReversalsMatch(ts);
    MatchedCancel(Select(ts, rev), Select(ts, red), a, c);
  }

  // ---------------------------------------------------------------- the three together

  /** A row as Q10 leaves it. */
  predicate CutOf(q10: bool, t: Txn, r: Txn) {
    && r.(amount := t.amount) == t
    && match t.trueHundredths
       case Some(h) =>
         if !q10 || t.currency != "JPY" then r == t
         else if h >= 0 then 0 <= 100 * r.amount <= h < 100 * r.amount + 100
         else 100 * r.amount - 100 < h <= 100 * r.amount <= 0
       case None => r == t
  }

  /** What Q11 keeps: in time order, with no repeats, and of the rest only what repeats something kept. */
  ghost predicate Distilled(rows: seq<Txn>, kept: seq<Txn>, seconds: int) {
    && (forall i, j | 0 <= i < j < |kept| :: kept[i].postedAt <= kept[j].postedAt && !Repeats(kept[i], kept[j], seconds))
    && (forall t | t in kept :: t in rows)
    && (forall t | t in rows && t !in kept :: exists i :: 0 <= i < |kept| && Repeats(kept[i], t, seconds))
  }

  ghost predicate Spared(rows: seq<Txn>, t: Txn) {
    (forall r | r in rows && r.kind == "reversal" :: r.counterparty == "") || (t.kind != "reversal" && !ReversedIn(rows, t.txnId))
  }

  lemma {:induction false} KeptInOrder(q: Quirks, ts: seq<Txn>)
    requires SortedBy(ts, RowLe)
    ensures forall i, j | 0 <= i < j < |Suppressing(q, ts)| :: Suppressing(q, ts)[i].postedAt <= Suppressing(q, ts)[j].postedAt
    decreases |ts|
  {
    if ts != [] {
      var n := |ts| - 1;
      KeptInOrder(q, ts[..n]);
      RepeatsAreDropped(q, ts[..n]);
      forall k | k in Suppressing(q, ts[..n]) ensures k.postedAt <= ts[n].postedAt {
        assert k in ts[..n];
        var i :| 0 <= i < n && ts[i] == k;
        assert RowLe(ts[i], ts[n]);
      }
    }
  }

  lemma {:induction false} SortedHas(rows: seq<Txn>, t: Txn)
    ensures t in Sort(rows, RowLe) <==> t in rows
  {
    SortPermutes(rows, RowLe);
    if t in rows {
      SameElements(rows, Sort(rows, RowLe), t);
    }
    if t in Sort(rows, RowLe) {
      SameElements(Sort(rows, RowLe), rows, t);
    }
  }

  lemma {:induction false} SortedDistills(q: Quirks, rows: seq<Txn>)
    ensures Distilled(rows, Suppressing(q, Sort(rows, RowLe)), q.windowSeconds)
  {
    var s := Sort(rows, RowLe);
    RowLeTotal();
    SortSorts(rows, RowLe);
    KeptInOrder(q, s);
    forall t ensures t in s <==> t in rows {
      SortedHas(rows, t);
    }
    Distils(q, rows, s);
  }

  lemma {:induction false} Distils(q: Quirks, rows: seq<Txn>, s: seq<Txn>)
    requires forall t :: t in s <==> t in rows
    requires var kept := Suppressing(q, s); forall i, j | 0 <= i < j < |kept| :: kept[i].postedAt <= kept[j].postedAt
    ensures Distilled(rows, Suppressing(q, s), q.windowSeconds)
  {
    RepeatsAreDropped(q, s);
  }

  /** A day's stream under any setting: Q10 cuts first, Q11 judges repeats by the amounts so cut, and Q9 deletes by what is
      left; a quirk that is off changes nothing. */
  lemma {:induction false} QuirksInTurn(q: Quirks, ts: seq<Txn>) returns (cut: seq<Txn>, kept: seq<Txn>)
    ensures |cut| == |ts| && forall i | 0 <= i < |ts| :: CutOf(q.q10, ts[i], cut[i])
    ensures if q.q11 then Distilled(cut, kept, q.windowSeconds) else kept == cut
    ensures if q.q9 then forall t :: t in Transform(q, ts) <==> t in kept && Spared(kept, t) else Transform(q, ts) == kept
  {
    cut := if q.q10 then Truncating(ts) else ts;
    kept := if q.q11 then Suppressing(q, Sort(cut, RowLe)) else cut;
    forall i | 0 <= i < |ts| ensures CutOf(q.q10, ts[i], cut[i]) {
      if q.q10 {
        YenAreTruncated(ts, i);
      }
    }
    SortedDistills(q, cut);
    forall t ensures t in Deleting(kept) <==> t in kept && Spared(kept, t) {
      ReversalsDelete(kept, t);
    }
  }
}
