/** Exactly when a chaos run keeps its quorum: in terms of what happened, of the schedule's times, and of failed starts. */
module ChaosQuorum {
  import opened Sorting
  import opened Chaos

  // ---------------------------------------------------------------- what happened

  predicate Effective(r: Record, b: string) {
    !r.failed && r.event.broker == b
  }

  predicate Kills(r: Record) {
    !r.failed && r.event.action.Kill?
  }

  /** At most one broker is really down after every executed prefix. */
  ghost predicate QuorumKept(rs: seq<Record>) {
    forall n: nat, a, b | n <= |rs| && ReallyDown(rs, n, a) && ReallyDown(rs, n, b) :: a == b
  }

  /** Some effective action other than a kill names the broker killed at i, before j. */
  ghost predicate Relieved(rs: seq<Record>, i: nat, j: nat)
    requires i <= j <= |rs| && i < |rs|
  {
    exists s :: i < s < j && Effective(rs[s], rs[i].event.broker) && !rs[s].event.action.Kill?
  }

  /** Between effective kills of two brokers the first is relieved. */
  ghost predicate Spaced(rs: seq<Record>) {
    forall i, j | 0 <= i < j < |rs| && Kills(rs[i]) && Kills(rs[j]) && rs[i].event.broker != rs[j].event.broker :: Relieved(rs, i, j)
  }

  lemma {:induction false} DownSince(rs: seq<Record>, n: nat, b: string) returns (i: nat)
    requires n <= |rs| && ReallyDown(rs, n, b)
    ensures i < n && Kills(rs[i]) && rs[i].event.broker == b && forall s | i < s < n :: !Effective(rs[s], b)
    decreases n
  {
    if Effective(rs[n - 1], b) {
      i := n - 1;
    } else {
      i := DownSince(rs, n - 1, b);
    }
  }

  lemma {:induction false} StaysDown(rs: seq<Record>, i: nat, n: nat)
    requires i < n <= |rs| && Kills(rs[i]) && !Relieved(rs, i, n)
    ensures ReallyDown(rs, n, rs[i].event.broker)
    decreases n
  {
    if i < n - 1 {
      assert !Relieved(rs, i, n - 1);
      StaysDown(rs, i, n - 1);
    }
  }

  /** Quorum is kept if and only if effective kills are spaced. */
  lemma {:induction false} QuorumExactly(rs: seq<Record>)
    ensures QuorumKept(rs) <==> Spaced(rs)
  {
    if QuorumKept(rs) {
      forall i, j | 0 <= i < j < |rs| && Kills(rs[i]) && Kills(rs[j]) && rs[i].event.broker != rs[j].event.broker ensures Relieved(rs, i, j) {
        if !Relieved(rs, i, j) {
          assert !Relieved(rs, i, j + 1);
          StaysDown(rs, i, j + 1);
          assert ReallyDown(rs, j + 1, rs[j].event.broker);
        }
      }
    }
    if Spaced(rs) {
      forall n: nat, a, b | n <= |rs| && ReallyDown(rs, n, a) && ReallyDown(rs, n, b) ensures a == b {
        var i := DownSince(rs, n, a);
        var j := DownSince(rs, n, b);
      }
    }
  }

  // ---------------------------------------------------------------- by the schedule's own times

  /** Event i happens before event j: earlier, or written first at the same instant. */
  predicate Before(es: seq<Event>, i: int, j: int)
    requires 0 <= i < |es| && 0 <= j < |es|
  {
    es[i].at < es[j].at || (es[i].at == es[j].at && i < j)
  }

  /** Of any two kills of different brokers, the earlier is followed by a start of its broker before the later. */
  ghost predicate SpacedInTime(es: seq<Event>) {
    forall i, j | 0 <= i < |es| && 0 <= j < |es| && es[i].action.Kill? && es[j].action.Kill? && es[i].broker != es[j].broker && Before(es, i, j) ::
      exists s :: 0 <= s < |es| && es[s].broker == es[i].broker && es[s].action.Start? && Before(es, i, s) && Before(es, s, j)
  }

  function At(es: seq<Event>, i: int): int {
    if 0 <= i < |es| then es[i].at else 0
  }

  function ByTime(es: seq<Event>): (int, int) -> bool {
    (i: int, j: int) => At(es, i) < At(es, j) || (At(es, i) == At(es, j) && i <= j)
  }

  function Indices(n: nat): (r: seq<int>)
    ensures |r| == n && forall k | 0 <= k < n :: r[k] == k
  {
    seq(n, (k: nat) => k)
  }

  /** The events in the order of a list of indices. */
  function Pick(es: seq<Event>, t: seq<int>): (r: seq<Event>)
    requires forall k | 0 <= k < |t| :: 0 <= t[k] < |es|
    ensures |r| == |t| && forall k | 0 <= k < |t| :: r[k] == es[t[k]]
  {
    seq(|t|, k requires 0 <= k < |t| => es[t[k]])
  }

  lemma {:induction false} PickInsert(es: seq<Event>, t: seq<int>, n: int)
    requires 0 <= n < |es| && forall k | 0 <= k < |t| :: 0 <= t[k] < n
    ensures var r := Insert(t, n, ByTime(es));
            (forall k | 0 <= k < |r| :: 0 <= r[k] <= n) && Pick(es, r) == Insert(Pick(es, t), es[n], Earlier)
    decreases |t|
  {
    if t != [] {
      var front, last := t[..|t| - 1], t[|t| - 1];
      assert Pick(es, t)[..|t| - 1] == Pick(es, front);
      assert ByTime(es)(last, n) <==> Earlier(es[last], es[n]);
      if !ByTime(es)(last, n) {
        PickInsert(es, front, n);
      }
    }
  }

  /** The stable time order, as indices. */
  lemma {:induction false} PickSort(es: seq<Event>, n: nat)
    requires n <= |es|
    ensures var r := Sort(Indices(n), ByTime(es));
            (forall k | 0 <= k < |r| :: 0 <= r[k] < n) && Pick(es, r) == Sort(es[..n], Earlier)
    decreases n
  {
    if n > 0 {
      PickSort(es, n - 1);
      assert Indices(n)[..n - 1] == Indices(n - 1) && es[..n][..n - 1] == es[..n - 1];
      PickInsert(es, Sort(Indices(n - 1), ByTime(es)), n - 1);
    }
  }

  function Order(es: seq<Event>): seq<int> {
    Sort(Indices(|es|), ByTime(es))
  }

  lemma {:induction false} OrderIs(es: seq<Event>)
    ensures |Order(es)| == |es| && (forall k | 0 <= k < |es| :: 0 <= Order(es)[k] < |es|) && Pick(es, Order(es)) == Sort(es, Earlier)
    ensures forall i | 0 <= i < |es| :: i in Order(es)
    ensures forall u, v | 0 <= u < |es| && 0 <= v < |es| :: u < v <==> Before(es, Order(es)[u], Order(es)[v])
  {
    var t := Order(es);
    PickSort(es, |es|);
    assert es[..|es|] == es;
    SortKeepsDistinct(Indices(|es|), ByTime(es));
    forall i | 0 <= i < |es| ensures i in t {
      assert Indices(|es|)[i] == i;
    }
    SortSorts(Indices(|es|), ByTime(es));
    forall u, v | 0 <= u < |es| && 0 <= v < |es| ensures u < v <==> Before(es, t[u], t[v]) {
      if u < v {
        assert ByTime(es)(t[u], t[v]) && t[u] != t[v];
      }
      if v < u {
        assert ByTime(es)(t[v], t[u]) && t[u] != t[v];
      }
    }
  }

  lemma {:induction false} PositionOf(es: seq<Event>, i: int) returns (k: nat)
    requires 0 <= i < |es|
    ensures k < |es| && |Order(es)| == |es| && Order(es)[k] == i
  {
    OrderIs(es);
    assert i in Order(es);
    k :| 0 <= k < |Order(es)| && Order(es)[k] == i;
  }

  /** A run of a sequence in which every action succeeds. */
  function Flawless(es: seq<Event>): (r: seq<Record>)
    ensures |r| == |es| && forall i | 0 <= i < |es| :: r[i] == Record(es[i], false)
  {
    seq(|es|, i requires 0 <= i < |es| => Record(es[i], false))
  }

  /** For any schedule of kills and starts, in whatever order it is written: a flawless run keeps quorum if and only if the
      kills are spaced by their times. */
  lemma {:induction false} TimesDecide(es: seq<Event>)
    requires forall i | 0 <= i < |es| :: !es[i].action.Unknown?
    ensures QuorumKept(Flawless(Sort(es, Earlier))) <==> SpacedInTime(es)
  {
    var t, s := Order(es), Sort(es, Earlier);
    OrderIs(es);
    QuorumExactly(Flawless(s));
    if SpacedInTime(es) {
      SpacedAsRun(es);
    }
    if Spaced(Flawless(s)) {
      SpacedAsWritten(es);
    }
  }

  lemma {:induction false} SpacedAsRun(es: seq<Event>)
    requires SpacedInTime(es)
    ensures Spaced(Flawless(Sort(es, Earlier)))
  {
    var t := Order(es);
    OrderIs(es);
    var rs := Flawless(Sort(es, Earlier));
    forall i, j | 0 <= i < j < |rs| && Kills(rs[i]) && Kills(rs[j]) && rs[i].event.broker != rs[j].event.broker ensures Relieved(rs, i, j) {
      assert Before(es, t[i], t[j]);
      var x :| 0 <= x < |es| && es[x].broker == es[t[i]].broker && es[x].action.Start? && Before(es, t[i], x) && Before(es, x, t[j]);
      var k := PositionOf(es, x);
      assert i < k < j && Effective(rs[k], rs[i].event.broker);
    }
  }

  lemma {:induction false} SpacedAsWritten(es: seq<Event>)
    requires Spaced(Flawless(Sort(es, Earlier))) && forall i | 0 <= i < |es| :: !es[i].action.Unknown?
    ensures SpacedInTime(es)
  {
    var t := Order(es);
    OrderIs(es);
    var rs := Flawless(Sort(es, Earlier));
    forall i, j | 0 <= i < |es| && 0 <= j < |es| && es[i].action.Kill? && es[j].action.Kill? && es[i].broker != es[j].broker && Before(es, i, j)
      ensures exists s :: 0 <= s < |es| && es[s].broker == es[i].broker && es[s].action.Start? && Before(es, i, s) && Before(es, s, j)
    {
      var u := PositionOf(es, i);
      var v := PositionOf(es, j);
      assert Relieved(rs, u, v);
      var k :| u < k < v && Effective(rs[k], rs[u].event.broker) && !rs[k].event.action.Kill?;
      assert Before(es, i, t[k]) && Before(es, t[k], j);
    }
  }

  // ---------------------------------------------------------------- failed starts

  /** In a sound schedule the event after a kill starts the same broker. */
  lemma {:induction false} StartFollowsKill(es: seq<Event>, i: nat)
    requires Safe(es, |es|) && i + 1 < |es| && es[i].action.Kill?
    ensures es[i + 1].action.Start? && es[i + 1].broker == es[i].broker
  {
    assert Sensible(es, i + 1) && AtMostOneDown(es, i + 1) && AtMostOneDown(es, i + 2);
    assert IsDown(es, i + 1, es[i].broker);
    if es[i + 1].action.Kill? {
      assert es[i + 1].broker != es[i].broker;
      assert IsDown(es, i + 2, es[i].broker) && IsDown(es, i + 2, es[i + 1].broker);
    }
  }

  /** The start at n failed after its kill worked, and another broker is killed before a start of the first works. */
  ghost predicate HarmfulFailure(rs: seq<Record>, n: nat)
    requires 0 < n < |rs|
  {
    && rs[n].failed && Kills(rs[n - 1])
    && exists j :: n < j < |rs| && Kills(rs[j]) && rs[j].event.broker != rs[n - 1].event.broker && !Relieved(rs, n - 1, j)
  }

  ghost predicate Runs(rs: seq<Record>, es: seq<Event>) {
    |rs| <= |es| && forall i | 0 <= i < |rs| :: rs[i].event == es[i]
  }

  /** Any run of a sound, time-ordered schedule, whatever fails, keeps quorum if and only if no failed start is harmful. */
  lemma {:induction false} FailuresDecide(es: seq<Event>, rs: seq<Record>)
    requires Sound(es) && SortedBy(es, Earlier) && Runs(rs, Sort(es, Earlier))
    ensures QuorumKept(rs) <==> forall n: nat | 0 < n < |rs| :: !HarmfulFailure(rs, n)
  {
    SortedIsFixed(es, Earlier);
    QuorumExactly(rs);
    if forall n: nat | 0 < n < |rs| :: !HarmfulFailure(rs, n) {
      forall i, j | 0 <= i < j < |rs| && Kills(rs[i]) && Kills(rs[j]) && rs[i].event.broker != rs[j].event.broker ensures Relieved(rs, i, j) {
        StartFollowsKill(es, i);
        if rs[i + 1].failed {
          assert !HarmfulFailure(rs, i + 1);
        } else {
          assert Effective(rs[i + 1], rs[i].event.broker);
        }
      }
    }
  }
}
