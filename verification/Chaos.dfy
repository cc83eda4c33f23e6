/** internal/harness/chaos: broker kill schedules -- validated, scaled, and run in time order. */
module Chaos {
  import opened Sorting

  datatype Action = Kill | Start | Unknown(name: string)
  datatype Event = Event(at: int, broker: string, action: Action)

  datatype Verdict = Accepted | Empty | KilledTwice | StartedUp | UnknownAction | QuorumLost | NeverRestarted

  // ---------------------------------------------------------------- what a schedule does

  /** A broker is down after n events when the last of them that names it was a kill. */
  predicate IsDown(es: seq<Event>, n: nat, b: string)
    requires n <= |es|
  {
    n > 0 && if es[n - 1].broker == b then es[n - 1].action.Kill? else IsDown(es, n - 1, b)
  }

  /** The n-th event kills a broker that is up or starts one that is down. */
  predicate Sensible(es: seq<Event>, n: nat)
    requires n < |es|
  {
    match es[n].action
    case Kill => !IsDown(es, n, es[n].broker)
    case Start => IsDown(es, n, es[n].broker)
    case Unknown(_) => false
  }

  ghost predicate AtMostOneDown(es: seq<Event>, n: nat)
    requires n <= |es|
  {
    forall a, b | IsDown(es, n, a) && IsDown(es, n, b) :: a == b
  }

  ghost predicate Safe(es: seq<Event>, n: nat)
    requires n <= |es|
  {
    (forall k | 0 <= k < n :: Sensible(es, k)) && forall k | 0 <= k <= n :: AtMostOneDown(es, k)
  }

  /** Every step makes sense, quorum holds throughout, and every broker is back at the end. */
  ghost predicate Sound(es: seq<Event>) {
    es != [] && Safe(es, |es|) && forall b :: !IsDown(es, |es|, b)
  }

  /** The brokers whose flag is set, at most one of them while the schedule is safe. */
  ghost predicate Tracks(down: seq<string>, es: seq<Event>, n: nat)
    requires n <= |es|
  {
    |down| <= 1 && forall b :: IsDown(es, n, b) <==> b in down
  }

  lemma {:induction false} OnlyOne(down: seq<string>, es: seq<Event>, n: nat)
    requires n <= |es| && Tracks(down, es, n)
    ensures AtMostOneDown(es, n)
  {
    forall x, y | IsDown(es, n, x) && IsDown(es, n, y) ensures x == y {
      assert x in down && y in down;
    }
  }

  /** Validate accepts exactly the sound schedules -- sound in the order given, whatever the times. */
  method Validate(es: seq<Event>) returns (v: Verdict)
    ensures v == Accepted <==> Sound(es)
    ensures v == Empty <==> es == []
    ensures v == NeverRestarted ==> Safe(es, |es|)
  {
    if es == [] {
      return Empty;
    }
    var down: seq<string> := [];
    for i := 0 to |es|
      invariant Tracks(down, es, i) && Safe(es, i)
    {
      var b := es[i].broker;
      ghost var before := down;
      if es[i].action.Kill? {
        if b in down {
          assert !Sensible(es, i);
          return KilledTwice;
        }
        if |down| == 1 {
          assert IsDown(es, i + 1, b) && IsDown(es, i + 1, down[0]);
          assert !AtMostOneDown(es, i + 1);
          return QuorumLost;
        }
        down := [b];
      } else if es[i].action.Start? {
        if b !in down {
          assert !Sensible(es, i);
          return StartedUp;
        }
        assert down == [b];
        down := [];
      } else {
        assert !Sensible(es, i);
        return UnknownAction;
      }
      assert Sensible(es, i);
      forall x ensures IsDown(es, i + 1, x) <==> x in down {
        assert IsDown(es, i, x) <==> x in before;
      }
      OnlyOne(down, es, i + 1);
    }
    if down != [] {
      assert IsDown(es, |es|, down[0]);
      return NeverRestarted;
    }
    return Accepted;
  }

  // ---------------------------------------------------------------- scaling

  const SPAN: int := 240_000_000_000

  /** at * d / SPAN truncated toward zero: the float factor taken as a rational. */
  function ScaledAt(at: int, d: int): int {
    if at >= 0 then at * d / SPAN else 0 - (0 - at) * d / SPAN
  }

  function Scaled(es: seq<Event>, d: int): (r: seq<Event>)
    ensures |r| == |es|
    ensures forall i | 0 <= i < |es| :: r[i].broker == es[i].broker && r[i].action == es[i].action
  {
    seq(|es|, i requires 0 <= i < |es| => if d <= 0 then es[i] else es[i].(at := ScaledAt(es[i].at, d)))
  }

  method Scale(es: seq<Event>, d: int) returns (out: seq<Event>)
    ensures out == Scaled(es, d)
  {
    if d <= 0 || es == [] {
      return es;
    }
    out := [];
    for i := 0 to |es|
      invariant |out| == i && forall k | 0 <= k < i :: out[k] == es[k].(at := ScaledAt(es[k].at, d))
    {
      out := out + [es[i].(at := ScaledAt(es[i].at, d))];
    }
  }

  predicate Earlier(a: Event, b: Event) {
    a.at <= b.at
  }

  /** An event keeps its place in the run to within a nanosecond, on its side of the start; an unscaled run is left alone. */
  lemma {:induction false} EventsKeepTheirPlace(es: seq<Event>, d: int, i: nat)
    requires i < |es|
    ensures var x, y := es[i].at, Scaled(es, d)[i].at;
            if d <= 0 then y == x
            else if x >= 0 then 0 <= y * 240_000_000_000 <= x * d < (y + 1) * 240_000_000_000
            else (y - 1) * 240_000_000_000 < x * d <= y * 240_000_000_000 <= 0
    ensures d == 240_000_000_000 ==> Scaled(es, d)[i] == es[i]
  {
    if d > 0 {
      PlaceKept(es[i].at, d);
    }
  }

  lemma {:induction false} PlaceKept(x: int, d: int)
    requires d > 0
    ensures var y := ScaledAt(x, d);
            if x >= 0 then 0 <= y * SPAN <= x * d < (y + 1) * SPAN else (y - 1) * SPAN < x * d <= y * SPAN <= 0
    ensures d == SPAN ==> ScaledAt(x, d) == x
  {
    var size := if x >= 0 then x else 0 - x;
    ProductGrows(0, size, d);
    Quotient(size * d);
    assert x < 0 ==> x * d == 0 - size * d;
  }

  lemma {:induction false} Quotient(p: nat)
    ensures 0 <= p / SPAN * SPAN <= p < (p / SPAN + 1) * SPAN
  {
  }

  lemma {:induction false} ProductGrows(x: int, y: int, d: int)
    requires 0 <= x <= y && d > 0
    ensures 0 <= x * d <= y * d
  {
  }

  lemma {:induction false} ScaledAtIsMonotone(x: int, y: int, d: int)
    requires x <= y && d > 0
    ensures ScaledAt(x, d) <= ScaledAt(y, d)
  {
    if x >= 0 {
      ProductGrows(x, y, d);
    } else if y < 0 {
      ProductGrows(0 - y, 0 - x, d);
    } else {
      ProductGrows(0, y, d);
      ProductGrows(0, 0 - x, d);
    }
  }

  lemma {:induction false} ScaledIsDown(es: seq<Event>, d: int, n: nat, b: string)
    requires n <= |es|
    ensures IsDown(Scaled(es, d), n, b) == IsDown(es, n, b)
    decreases n
  {
    if n > 0 {
      ScaledIsDown(es, d, n - 1, b);
    }
  }

  /** Scaling keeps a sound schedule sound and a time-ordered one ordered, so the run's stable sort leaves it as it is. */
  lemma {:induction false} ScalingKeepsTheShape(es: seq<Event>, d: int)
    ensures Sound(Scaled(es, d)) <==> Sound(es)
    ensures SortedBy(es, Earlier) ==> SortedBy(Scaled(es, d), Earlier) && Sort(Scaled(es, d), Earlier) == Scaled(es, d)
  {
    var r := Scaled(es, d);
    forall n: nat, b | n <= |es| ensures IsDown(r, n, b) == IsDown(es, n, b) {
      ScaledIsDown(es, d, n, b);
    }
    SameShape(es, r);
    SameShape(r, es);
    if SortedBy(es, Earlier) {
      forall i, j | 0 <= i < j < |r| ensures Earlier(r[i], r[j]) {
        assert Earlier(es[i], es[j]);
        if d > 0 {
          ScaledAtIsMonotone(es[i].at, es[j].at, d);
        }
      }
      SortedIsFixed(r, Earlier);
    }
  }

  lemma {:induction false} SameShape(es: seq<Event>, fs: seq<Event>)
    requires |es| == |fs| && forall i | 0 <= i < |es| :: es[i].broker == fs[i].broker && es[i].action == fs[i].action
    requires forall n: nat, b | n <= |es| :: IsDown(es, n, b) == IsDown(fs, n, b)
    ensures Sound(es) ==> Sound(fs)
  {
    if Sound(es) {
      forall k | 0 <= k < |fs| ensures Sensible(fs, k) {
        assert Sensible(es, k);
      }
      forall k | 0 <= k <= |fs| ensures AtMostOneDown(fs, k) {
        assert AtMostOneDown(es, k);
      }
    }
  }

  // ---------------------------------------------------------------- running

  datatype Record = Record(event: Event, failed: bool)

  /** A broker is really down after n actions when the last of them that named it and succeeded was a kill. */
  predicate ReallyDown(rs: seq<Record>, n: nat, b: string)
    requires n <= |rs|
  {
    n > 0 && if rs[n - 1].event.broker == b && !rs[n - 1].failed then rs[n - 1].event.action.Kill? else ReallyDown(rs, n - 1, b)
  }

  /** Run: the stable time order, every action attempted, interrupted after at most `reach` of them. */
  method Run(schedule: seq<Event>, fails: nat -> bool, reach: nat) returns (out: seq<Record>)
    ensures |out| == if reach < |schedule| then reach else |schedule|
    ensures forall i | 0 <= i < |out| :: out[i].event == Sort(schedule, Earlier)[i] && (out[i].failed <==> fails(i) || out[i].event.action.Unknown?)
  {
    var ordered := Sort(schedule, Earlier);
    out := [];
    for i := 0 to |ordered|
      invariant |out| == i <= reach
      invariant forall k | 0 <= k < i :: out[k].event == ordered[k] && (out[k].failed <==> fails(k) || out[k].event.action.Unknown?)
    {
      if i == reach {
        return;
      }
      var failed := if ordered[i].action.Unknown? then true else fails(i);
      out := out + [Record(ordered[i], failed)];
    }
  }

  /** The records are a run of the schedule in its own order, in which kills may fail but starts do not. */
  ghost predicate Follows(rs: seq<Record>, es: seq<Event>) {
    |rs| <= |es| && forall i | 0 <= i < |rs| :: rs[i].event == es[i] && (es[i].action.Start? ==> !rs[i].failed)
  }

  lemma {:induction false} DownOnlyIfPlanned(rs: seq<Record>, es: seq<Event>, n: nat, b: string)
    requires Follows(rs, es) && n <= |rs| && Safe(es, |es|) && ReallyDown(rs, n, b)
    ensures IsDown(es, n, b)
    decreases n
  {
    assert Sensible(es, n - 1);
    if rs[n - 1].event.broker != b || rs[n - 1].failed {
      DownOnlyIfPlanned(rs, es, n - 1, b);
    }
  }

  /** A sound, time-ordered schedule, scaled to any length and run to any point: at most one broker is ever really down
      and none at the end, provided no start fails; failed kills do no harm. */
  lemma {:induction false} QuorumIsKept(schedule: seq<Event>, d: int, rs: seq<Record>, n: nat)
    requires Sound(schedule) && SortedBy(schedule, Earlier)
    requires Follows(rs, Sort(Scaled(schedule, d), Earlier)) && n <= |rs|
    ensures forall a, b | ReallyDown(rs, n, a) && ReallyDown(rs, n, b) :: a == b
    ensures n == |schedule| ==> forall b :: !ReallyDown(rs, n, b)
  {
    ScalingKeepsTheShape(schedule, d);
    var es := Scaled(schedule, d);
    assert AtMostOneDown(es, n);
    forall b | ReallyDown(rs, n, b) ensures IsDown(es, n, b) {
      DownOnlyIfPlanned(rs, es, n, b);
    }
  }

  // ---------------------------------------------------------------- where the claims stop

  const UNORDERED: seq<Event> := [Event(0, "a", Kill), Event(10, "a", Start), Event(5, "b", Kill), Event(15, "b", Start)]

  /** Validation reads the order written, the run the order of time: a schedule can pass and still take two brokers down. */
  lemma {:induction false} ValidatedButUnordered()
    ensures Sound(UNORDERED)
    ensures var s := Sort(UNORDERED, Earlier); IsDown(s, 2, "a") && IsDown(s, 2, "b")
  {
    var es := UNORDERED;
    forall b ensures IsDown(es, 0, b) == false && IsDown(es, 1, b) == (b == "a") && !IsDown(es, 2, b)
                     && IsDown(es, 3, b) == (b == "b") && !IsDown(es, 4, b) {
      assert !IsDown(es, 0, b);
      assert IsDown(es, 1, b) == (b == "a");
      assert !IsDown(es, 2, b);
      assert IsDown(es, 3, b) == (b == "b");
    }
    forall k | 0 <= k <= 4 ensures AtMostOneDown(es, k) {
      assert k == 0 || k == 1 || k == 2 || k == 3 || k == 4;
    }
    forall k | 0 <= k < 4 ensures Sensible(es, k) {
      assert k == 0 || k == 1 || k == 2 || k == 3;
    }
    var a, b, c, d := es[0], es[1], es[2], es[3];
    assert es[..3] == [a, b, c] && [a, b, c][..2] == [a, b] && [a, b][..1] == [a] && [a][..0] == [];
    assert Sort([a], Earlier) == [a];
    assert Sort([a, b], Earlier) == [a, b];
    assert Insert([a, b], c, Earlier) == [a, c, b];
    assert Sort([a, b, c], Earlier) == [a, c, b];
    assert Sort(es, Earlier) == [a, c, b, d];
  }

  /** A start that fails leaves its broker down for the next kill to join. */
  lemma {:induction false} FailedStartLosesQuorum(es: seq<Event>)
    requires es == [Event(0, "a", Kill), Event(1, "a", Start), Event(2, "b", Kill), Event(3, "b", Start)]
    ensures Sound(es) && SortedBy(es, Earlier)
    ensures var rs := [Record(es[0], false), Record(es[1], true), Record(es[2], false)];
            ReallyDown(rs, 3, "a") && ReallyDown(rs, 3, "b")
  {
    forall b ensures !IsDown(es, 0, b) && IsDown(es, 1, b) == (b == "a") && !IsDown(es, 2, b)
                     && IsDown(es, 3, b) == (b == "b") && !IsDown(es, 4, b) {
      assert !IsDown(es, 0, b);
      assert IsDown(es, 1, b) == (b == "a");
      assert !IsDown(es, 2, b);
      assert IsDown(es, 3, b) == (b == "b");
    }
    forall k | 0 <= k <= 4 ensures AtMostOneDown(es, k) {
      assert k == 0 || k == 1 || k == 2 || k == 3 || k == 4;
    }
    forall k | 0 <= k < 4 ensures Sensible(es, k) {
      assert k == 0 || k == 1 || k == 2 || k == 3;
    }
    var rs := [Record(es[0], false), Record(es[1], true), Record(es[2], false)];
    assert ReallyDown(rs, 1, "a");
    assert ReallyDown(rs, 2, "a");
  }
}
