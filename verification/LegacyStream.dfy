/** legacy_sim.generator over legacy_sim.quirks: the daily transaction stream of the legacy core, with carried records. */
module LegacyStream {
  import opened Sorting
  import opened Extracts
  import opened DayCount
  import Classify
  import opened BusinessDays

  /** Which quirks are on, with the parameters of Q4 and Q11. */
  datatype Quirks = Quirks(q1: bool, q2: bool, q3: bool, q4: bool, q5: bool, q6: bool, q7: bool, q8: bool, q9: bool, q10: bool,
                           q11: bool, q12: bool, openedBefore: int, windowSeconds: int)

  // ---------------------------------------------------------------- stream quirks

  function Select(ts: seq<Txn>, p: Txn -> bool): seq<Txn> {
    if ts == [] then [] else Select(ts[..|ts| - 1], p) + if p(ts[|ts| - 1]) then [ts[|ts| - 1]] else []
  }

  lemma {:induction false} SelectHas(ts: seq<Txn>, p: Txn -> bool)
    ensures forall t :: t in Select(ts, p) <==> t in ts && p(t)
    decreases |ts|
  {
    if ts != [] {
      Snoc(ts);
      SelectHas(ts[..|ts| - 1], p);
    }
  }

  /** Toward zero. */
  function Truncated(hundredths: int): int {
    if hundredths < 0 then 0 - (0 - hundredths) / 100 else hundredths / 100
  }

  /** Q10: against the documented half-even yen the legacy amount is equal or short by exactly one, never over, and the
      reconciler labels the difference round:1. */
  lemma {:induction false} TruncationIsRoundOne(hundredths: int, fees: set<nat>)
    requires 1 !in fees
    ensures var t, r := Truncated(hundredths), RoundHalfEven(hundredths, 100);
            t == r || (Abs(r) == Abs(t) + 1 && Classify.ClassifyMatched(t, r, fees) == (Classify.ModelDifference, Classify.Round1))
  {
    Classify.ScanOrder(Truncated(hundredths), RoundHalfEven(hundredths, 100));
  }

  function Truncating(ts: seq<Txn>): (r: seq<Txn>)
    ensures |r| == |ts|
  {
    seq(|ts|, i requires 0 <= i < |ts| =>
      if ts[i].currency == "JPY" && ts[i].trueHundredths.Some? then ts[i].(amount := Truncated(ts[i].trueHundredths.value)) else ts[i])
  }

  predicate Suppresses(q: Quirks, k: Txn, t: Txn) {
    && k.accountId == t.accountId && k.amount == t.amount && k.counterparty == t.counterparty
    && 0 <= t.postedAt - k.postedAt <= q.windowSeconds * 1_000_000
  }

  function Suppressing(q: Quirks, ts: seq<Txn>): seq<Txn> {
    if ts == [] then [] else
      var kept, t := Suppressing(q, ts[..|ts| - 1]), ts[|ts| - 1];
      if exists i | 0 <= i < |kept| :: Suppresses(q, kept[i], t) then kept else kept + [t]
  }

  predicate Reverses(r: Txn, id: string) {
    r.kind == "reversal" && r.counterparty != "" && r.counterparty == id
  }

  function Deleting(ts: seq<Txn>): seq<Txn> {
    if forall i | 0 <= i < |ts| :: ts[i].kind == "reversal" ==> ts[i].counterparty == "" then ts
    else Select(ts, (t: Txn) => t.kind != "reversal" && forall i | 0 <= i < |ts| :: !Reverses(ts[i], t.txnId))
  }

  /** transform_transactions: Q10, then Q11, then Q9. */
  function Transform(q: Quirks, ts: seq<Txn>): seq<Txn> {
    var a := if q.q10 then Truncating(ts) else ts;
    var b := if q.q11 then Suppressing(q, Sort(a, RowLe)) else a;
    if q.q9 then Deleting(b) else b
  }

  function Transforming(q: Quirks): seq<Txn> -> seq<Txn> {
    (ts: seq<Txn>) => Transform(q, ts)
  }

  predicate StreamQuirksOff(q: Quirks) {
    !q.q9 && !q.q10 && !q.q11
  }

  // ---------------------------------------------------------------- one day

  function On(d: int): Txn -> bool {
    (t: Txn) => t.businessDate == d
  }

  function After(d: int): Txn -> bool {
    (t: Txn) => t.businessDate > d
  }

  function Before(d: int): Txn -> bool {
    (t: Txn) => t.businessDate < d
  }

  /** What lands today and what is carried, out of the day's transactions and those carried into it. */
  function Landing(f: seq<Txn> -> seq<Txn>, d: int, raw: seq<Txn>): seq<Txn> {
    Select(f(raw), On(d))
  }

  function Carrying(f: seq<Txn> -> seq<Txn>, d: int, raw: seq<Txn>): seq<Txn> {
    Sort(Select(f(raw), After(d)), RowLe)
  }

  lemma {:induction false} SelectNone(ts: seq<Txn>, p: Txn -> bool)
    requires forall t | t in ts :: !p(t)
    ensures Select(ts, p) == []
    decreases |ts|
  {
    if ts != [] {
      Snoc(ts);
      SelectNone(ts[..|ts| - 1], p);
    }
  }

  lemma {:induction false} ThreeWays(ts: seq<Txn>, d: int)
    ensures multiset(ts) == multiset(Select(ts, On(d))) + multiset(Select(ts, After(d))) + multiset(Select(ts, Before(d)))
    decreases |ts|
  {
    if ts != [] {
      Snoc(ts);
      ThreeWays(ts[..|ts| - 1], d);
    }
  }

  ghost predicate Identity(f: seq<Txn> -> seq<Txn>) {
    forall ts :: f(ts) == ts
  }

  /** When the stream is not transformed a day loses exactly the records dated before it. */
  lemma {:induction false} DayConserves(f: seq<Txn> -> seq<Txn>, d: int, raw: seq<Txn>)
    requires Identity(f)
    ensures multiset(raw) == multiset(Landing(f, d, raw)) + multiset(Carrying(f, d, raw)) + multiset(Select(raw, Before(d)))
  {
    ThreeWays(raw, d);
    SortPermutes(Select(raw, After(d)), RowLe);
  }

  // ---------------------------------------------------------------- windows

  /** Transactions stamped on day d, dated by the legacy rule. */
  ghost predicate Stamped(q: Quirks, d: int, ts: seq<Txn>) {
    forall i | 0 <= i < |ts| ::
      DayOf(ts[i].postedAt) == d && ts[i].businessDate == LegacyDateFor(q.q2, q.q5, ts[i].postedAt) && !IsCharge(ts[i])
  }

  predicate IsCharge(t: Txn) {
    t.kind == "interest" || t.kind == "fee"
  }

  /** The transfers of each open day of [start, end], and what is carried out of it. */
  function Stream(f: seq<Txn> -> seq<Txn>, open: int -> bool, start: int, end: int, generate: int -> seq<Txn>, carried: seq<Txn>): (r: (seq<seq<Txn>>, seq<Txn>))
    decreases end - start
  {
    if end < start then ([], carried) else
      var (out, c) := Stream(f, open, start, end - 1, generate, carried);
      if !open(end) then (out, c) else
        var raw := generate(end) + c;
        (out + [Landing(f, end, raw)], Carrying(f, end, raw))
  }

  function Flatten(days: seq<seq<Txn>>): seq<Txn> {
    if days == [] then [] else Flatten(days[..|days| - 1]) + days[|days| - 1]
  }

  /** Everything generated on the open days of [start, end]. */
  function Generated(open: int -> bool, start: int, end: int, generate: int -> seq<Txn>): seq<Txn>
    decreases end - start
  {
    if end < start then [] else
      Generated(open, start, end - 1, generate) + if open(end) then generate(end) else []
  }

  ghost predicate AllDated(ts: seq<Txn>, d: int) {
    forall i | 0 <= i < |ts| :: ts[i].businessDate == d
  }

  ghost predicate DatedEither(ts: seq<Txn>, d: int, next: int) {
    forall i | 0 <= i < |ts| :: ts[i].businessDate == d || ts[i].businessDate == next
  }

  lemma {:induction false} DayLands(f: seq<Txn> -> seq<Txn>, d: int, next: int, fresh_: seq<Txn>, carried: seq<Txn>)
    requires Identity(f) && d < next && DatedEither(fresh_, d, next) && AllDated(carried, d)
    ensures var raw := fresh_ + carried;
            && multiset(raw) == multiset(Landing(f, d, raw)) + multiset(Carrying(f, d, raw))
            && AllDated(Landing(f, d, raw), d) && AllDated(Carrying(f, d, raw), next)
  {
    var raw := fresh_ + carried;
    assert forall t | t in raw :: t.businessDate == d || t.businessDate == next;
    NothingLate(f, d, raw);
    SelectedDated(raw, On(d), d);
    SelectedDated(raw, After(d), next);
    SortKeepsDated(Select(raw, After(d)), next);
  }

  lemma {:induction false} NothingLate(f: seq<Txn> -> seq<Txn>, d: int, raw: seq<Txn>)
    requires Identity(f) && forall t | t in raw :: t.businessDate >= d
    ensures multiset(raw) == multiset(Landing(f, d, raw)) + multiset(Carrying(f, d, raw))
  {
    DayConserves(f, d, raw);
    SelectNone(raw, Before(d));
  }

  lemma {:induction false} SelectedDated(ts: seq<Txn>, p: Txn -> bool, d: int)
    requires forall t | t in ts && p(t) :: t.businessDate == d
    ensures AllDated(Select(ts, p), d)
  {
    var r := Select(ts, p);
    SelectHas(ts, p);
    forall i | 0 <= i < |r| ensures r[i].businessDate == d {
      assert r[i] in r;
    }
  }

  lemma {:induction false} SortKeepsDated(ts: seq<Txn>, d: int)
    requires AllDated(ts, d)
    ensures AllDated(Sort(ts, RowLe), d)
  {
    var r := Sort(ts, RowLe);
    SortPermutes(ts, RowLe);
    forall i | 0 <= i < |r| ensures r[i].businessDate == d {
      SameElements(r, ts, r[i]);
    }
  }

  /** What a window keeps: everything made or brought in is emitted once, on its own date, or still carried. */
  ghost predicate Kept(made: seq<Txn>, into: seq<Txn>, out: seq<seq<Txn>>, days: seq<int>, carried: seq<Txn>, next: int) {
    && multiset(made) + multiset(into) == multiset(Flatten(out)) + multiset(carried)
    && |out| == |days| && (forall i | 0 <= i < |out| :: AllDated(out[i], days[i]))
    && AllDated(carried, next)
  }

  lemma {:induction false} KeptExtends(made: seq<Txn>, fresh_: seq<Txn>, into: seq<Txn>, out: seq<seq<Txn>>, landing: seq<Txn>,
                                       days: seq<int>, d: int, carried: seq<Txn>, carrying: seq<Txn>, next: int)
    requires Kept(made, into, out, days, carried, d)
    requires multiset(fresh_ + carried) == multiset(landing) + multiset(carrying) && AllDated(landing, d) && AllDated(carrying, next)
    ensures Kept(made + fresh_, into, out + [landing], days + [d], carrying, next)
  {
    assert (out + [landing])[..|out|] == out;
    assert Flatten(out + [landing]) == Flatten(out) + landing;
    var m, n, i, f := multiset(made), multiset(fresh_), multiset(into), multiset(Flatten(out));
    assert (m + n) + i == (m + i) + n;
    assert (f + multiset(carried)) + n == f + multiset(fresh_ + carried);
    assert f + (multiset(landing) + multiset(carrying)) == multiset(Flatten(out) + landing) + multiset(carrying);
  }

  /** The days a core walks: next(n) is the first open day on or after n. */
  ghost predicate Walks(open: int -> bool, next: int -> int, start: int, end: int) {
    forall n | start <= n <= end :: WalksAt(open, next, n)
  }

  ghost predicate WalksAt(open: int -> bool, next: int -> int, n: int) {
    n < next(n + 1) && next(n) == if open(n) then n else next(n + 1)
  }

  lemma {:induction false} KeptByDay(f: seq<Txn> -> seq<Txn>, d: int, next: int, fresh_: seq<Txn>, made: seq<Txn>, into: seq<Txn>,
                                     out: seq<seq<Txn>>, days: seq<int>, carried: seq<Txn>)
    requires Identity(f) && d < next && DatedEither(fresh_, d, next) && Kept(made, into, out, days, carried, d)
    ensures var raw := fresh_ + carried;
            Kept(made + fresh_, into, out + [Landing(f, d, raw)], days + [d], Carrying(f, d, raw), next)
  {
    DayLands(f, d, next, fresh_, carried);
    KeptExtends(made, fresh_, into, out, Landing(f, d, fresh_ + carried), days, d, carried, Carrying(f, d, fresh_ + carried), next);
  }

  /** Every open day's transactions belong to it or to the next open day. */
  ghost predicate DatesItself(open: int -> bool, next: int -> int, start: int, end: int, generate: int -> seq<Txn>) {
    forall d | start <= d <= end && open(d) :: DatedEither(generate(d), d, next(d + 1))
  }

  lemma {:induction false} StreamKeeps(f: seq<Txn> -> seq<Txn>, open: int -> bool, next: int -> int, start: int, end: int,
                                       generate: int -> seq<Txn>, carried: seq<Txn>)
    requires Identity(f) && AllDated(carried, next(start)) && start <= end + 1 && Walks(open, next, start, end)
    requires DatesItself(open, next, start, end, generate)
    ensures var r := Stream(f, open, start, end, generate, carried);
            Kept(Generated(open, start, end, generate), carried, r.0, OpenDays(open, start, end), r.1, next(end + 1))
    decreases end - start
  {
    if start <= end {
      StreamKeeps(f, open, next, start, end - 1, generate, carried);
      var r := Stream(f, open, start, end - 1, generate, carried);
      var made, days := Generated(open, start, end - 1, generate), OpenDays(open, start, end - 1);
      assert WalksAt(open, next, end);
      if open(end) {
        KeptByDay(f, end, next(end + 1), generate(end), made, carried, r.0, days, r.1);
      } else {
        assert made + [] == made && days + [] == days;
      }
    }
  }

  /** The legacy core's run days. */
  function RunDayFrom(q: Quirks): int -> int {
    (n: int) => OnOrAfter(q.q5, n)
  }

  lemma {:induction false} CoreWalks(q: Quirks, start: int, end: int)
    ensures Walks(Open(q.q5), RunDayFrom(q), start, end)
  {
    forall n | start <= n <= end ensures WalksAt(Open(q.q5), RunDayFrom(q), n) {
      OnOrAfterStep(q.q5, n);
    }
  }

  /** A transaction stamped on a run day belongs to it or to the next run day. */
  lemma {:induction false} StampedLands(q: Quirks, d: int, ts: seq<Txn>)
    requires Open(q.q5)(d) && Stamped(q, d, ts)
    ensures DatedEither(ts, d, RunDayFrom(q)(d + 1))
  {
    OnOrAfterIs(q.q5, d, d);
    forall i | 0 <= i < |ts| ensures ts[i].businessDate == d || ts[i].businessDate == RunDayFrom(q)(d + 1) {
      DatesAreLeast(q.q2, q.q5, ts[i].postedAt);
    }
  }

  /** Every run day's transactions are stamped on it. */
  ghost predicate StampsItself(q: Quirks, start: int, end: int, generate: int -> seq<Txn>) {
    forall d | start <= d <= end && Open(q.q5)(d) :: Stamped(q, d, generate(d))
  }

  lemma {:induction false} StampsAreDates(q: Quirks, start: int, end: int, generate: int -> seq<Txn>)
    requires StampsItself(q, start, end, generate)
    ensures DatesItself(Open(q.q5), RunDayFrom(q), start, end, generate)
  {
    forall d | start <= d <= end && Open(q.q5)(d) ensures DatedEither(generate(d), d, RunDayFrom(q)(d + 1)) {
      StampedLands(q, d, generate(d));
    }
  }

  /** Exactly once: over any window, with Q9, Q10 and Q11 off and every other quirk free, the transactions generated and
      those carried in are, as a multiset, the ones emitted and the ones carried out; each is emitted on its own business
      date, and what is carried out is dated the next run day. */
  lemma {:induction false} EmittedExactlyOnce(q: Quirks, start: int, end: int, generate: int -> seq<Txn>, carried: seq<Txn>)
    requires StreamQuirksOff(q) && AllDated(carried, RunDayFrom(q)(start)) && start <= end + 1 && StampsItself(q, start, end, generate)
    ensures var r := Stream(Transforming(q), Open(q.q5), start, end, generate, carried);
            Kept(Generated(Open(q.q5), start, end, generate), carried, r.0, OpenDays(Open(q.q5), start, end), r.1, RunDayFrom(q)(end + 1))
  {
    assert Identity(Transforming(q));
    CoreWalks(q, start, end);
    StampsAreDates(q, start, end, generate);
    StreamKeeps(Transforming(q), Open(q.q5), RunDayFrom(q), start, end, generate, carried);
  }
}
