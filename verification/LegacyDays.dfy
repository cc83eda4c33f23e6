/** Which fees a window of the legacy core charges, and what its holds leave of the balances it reports. */
module LegacyDays {
  import opened Options
  import opened Dates
  import opened DateText
  import opened Extracts
  import opened Calendar
  import opened BusinessDays
  import opened LegacyStream
  import opened LegacyCore
  import opened LegacyInterest

  // ---------------------------------------------------------------- holds

  lemma {:induction false} OpenConcat(x: seq<Hold>, y: seq<Hold>, a: string, at: int)
    ensures OpenHolds(x + y, a, at) == OpenHolds(x, a, at) + OpenHolds(y, a, at)
    decreases |y|
  {
    if y == [] {
      assert x + y == x;
    } else {
      var n := |y| - 1;
      assert (x + y)[..|x + y| - 1] == x + y[..n];
      OpenConcat(x, y[..n], a, at);
    }
  }

  lemma {:induction false} OneMoreHold(accounts: seq<Account>, placed: int, expires: int, a: string, at: int)
    requires accounts != []
    ensures var n := |accounts| - 1;
            OpenHolds(HoldsFor(accounts, placed, expires), a, at)
            == OpenHolds(HoldsFor(accounts[..n], placed, expires), a, at) + if accounts[n].id == a && placed <= at < expires then 25_000 else 0
  {
    var n := |accounts| - 1;
    assert HoldsFor(accounts, placed, expires)[..n] == HoldsFor(accounts[..n], placed, expires);
  }

  lemma {:induction false} NoHoldFor(accounts: seq<Account>, placed: int, expires: int, a: string, at: int)
    requires forall i | 0 <= i < |accounts| :: accounts[i].id != a
    ensures OpenHolds(HoldsFor(accounts, placed, expires), a, at) == 0
    decreases |accounts|
  {
    if accounts != [] {
      OneMoreHold(accounts, placed, expires, a, at);
      NoHoldFor(accounts[..|accounts| - 1], placed, expires, a, at);
    }
  }

  /** A day's holds are one of 25000 on each account. */
  lemma {:induction false} OneHoldEach(accounts: seq<Account>, placed: int, expires: int, i: nat, at: int)
    requires DistinctIds(accounts) && i < |accounts|
    ensures OpenHolds(HoldsFor(accounts, placed, expires), accounts[i].id, at) == if placed <= at < expires then 25_000 else 0
    decreases |accounts|
  {
    var n := |accounts| - 1;
    OneMoreHold(accounts, placed, expires, accounts[i].id, at);
    if i == n {
      NoHoldFor(accounts[..n], placed, expires, accounts[i].id, at);
    } else {
      OneHoldEach(accounts[..n], placed, expires, i, at);
    }
  }

  /** A hold placed on day d is open at the cut-off of day on. */
  predicate Standing(r: Rules, d: int, on: int) {
    d * DAY_MICROS + 18 * HOUR_MICROS <= on * DAY_MICROS + CUT_OFF < r.holdExpiry(d * DAY_MICROS + 18 * HOUR_MICROS)
  }

  /** The days of a history before its k-th whose holds stand on a day. */
  function StandingDays(r: Rules, h: seq<Entry>, k: nat, on: int): nat
    requires k <= |h|
  {
    if k == 0 then 0 else StandingDays(r, h, k - 1, on) + if Standing(r, h[k - 1].date, on) then 1 else 0
  }

  predicate HoldsMove(r: Rules, accounts: seq<Account>, e: Entry) {
    e.after.holds == HeldAfter(r, accounts, e.before.holds, e.date)
  }

  ghost predicate AllHoldsMove(r: Rules, accounts: seq<Account>, h: seq<Entry>) {
    forall k {:trigger HoldsMove(r, accounts, h[k])} | 0 <= k < |h| :: HoldsMove(r, accounts, h[k])
  }

  lemma {:induction false} DayHolds(r: Rules, accounts: seq<Account>, e: Entry, i: nat, on: int)
    requires DistinctIds(accounts) && i < |accounts| && HoldsMove(r, accounts, e)
    ensures OpenHolds(e.after.holds, accounts[i].id, on * DAY_MICROS + CUT_OFF)
            == OpenHolds(e.before.holds, accounts[i].id, on * DAY_MICROS + CUT_OFF) + if Standing(r, e.date, on) then 25_000 else 0
  {
    var placed, at := e.date * DAY_MICROS + 18 * HOUR_MICROS, on * DAY_MICROS + CUT_OFF;
    OpenConcat(e.before.holds, HoldsFor(accounts, placed, r.holdExpiry(placed)), accounts[i].id, at);
    OneHoldEach(accounts, placed, r.holdExpiry(placed), i, at);
  }

  lemma {:induction false} HoldsAdd(r: Rules, accounts: seq<Account>, h: seq<Entry>, b: Books, i: nat, k: nat, on: int)
    requires DistinctIds(accounts) && i < |accounts| && Linked(h, b) && AllHoldsMove(r, accounts, h) && k <= |h|
    ensures OpenHolds(Prior(h, b, k).holds, accounts[i].id, on * DAY_MICROS + CUT_OFF)
            == OpenHolds(b.holds, accounts[i].id, on * DAY_MICROS + CUT_OFF) + 25_000 * StandingDays(r, h, k, on)
    decreases k
  {
    if k > 0 {
      HoldsAdd(r, accounts, h, b, i, k - 1, on);
      assert h[k - 1].before == Prior(h, b, k - 1) && HoldsMove(r, accounts, h[k - 1]);
      DayHolds(r, accounts, h[k - 1], i, on);
    }
  }

  /** Placed at 18:00, a hold stands at the next three cut-offs, or with Q8 the next two. */
  lemma {:induction false} StandsFor(q: Quirks, d: int, on: int)
    ensures Standing(RulesOf(q), d, on) <==> 1 <= on - d <= if q.q8 then 2 else 3
  {
    ExpiryIs(q, d * DAY_MICROS + 18 * HOUR_MICROS);
    assert DayOf(d * DAY_MICROS + 18 * HOUR_MICROS) == d;
  }

  lemma {:induction false} ExpiryIs(q: Quirks, at: int)
    ensures RulesOf(q).holdExpiry(at) == HoldExpiry(q, at)
  {
  }

  /** The reported days before the k-th that are at most n days before a date. */
  function DaysBefore(out: seq<DayResult>, k: nat, on: int, n: nat): nat
    requires k <= |out|
  {
    if k == 0 then 0 else DaysBefore(out, k - 1, on, n) + if 1 <= on - out[k - 1].date <= n then 1 else 0
  }

  lemma {:induction false} StandingAreRecent(q: Quirks, h: seq<Entry>, out: seq<DayResult>, accounts: seq<Account>, k: nat, on: int)
    requires Follows(out, h, accounts) && k <= |h|
    ensures StandingDays(RulesOf(q), h, k, on) == DaysBefore(out, k, on, if q.q8 then 2 else 3)
    decreases k
  {
    if k > 0 {
      StandingAreRecent(q, h, out, accounts, k - 1, on);
      StandsFor(q, h[k - 1].date, on);
      assert Reports(out[k - 1], h[k - 1], accounts);
    }
  }

  // ---------------------------------------------------------------- fees

  function FeeTo(a: string): Txn -> bool {
    (t: Txn) => t.accountId == a && t.kind == "fee"
  }

  lemma {:induction false} NoFeeInInterest(r: Rules, accounts: seq<Account>, sums: map<string, int>, month: (int, int), dated: Day, a: string)
    ensures Select(InterestOnAll(r, accounts, sums, month, dated).0, FeeTo(a)) == []
    decreases |accounts|
  {
    if accounts != [] {
      var n := |accounts| - 1;
      NoFeeInInterest(r, accounts[..n], sums, month, dated, a);
      var (ts, s) := InterestOnAll(r, accounts[..n], sums, month, dated);
      var one := InterestOn(r, accounts[n], s, month, dated);
      SelectNone(one, FeeTo(a));
      SelectConcat(ts, one, FeeTo(a));
    }
  }

  /** The fees charged to an account that had `ledger` before them, and what they leave of it. */
  ghost predicate FeeOf(r: Rules, a: Account, fees: seq<Txn>, ledger: int, after: int, held: int, d: Day) {
    var fee := r.fee(a, ledger, held);
    && after == ledger - fee
    && if fee == 0 then fees == [] else |fees| == 1 && fees[0].amount == 0 - fee && fees[0].accountId == a.id && fees[0].businessDate == d
  }

  lemma {:induction false} OneFee(r: Rules, a: Account, ledger: map<string, int>, holds: seq<Hold>, d: Day, at: int)
    ensures var one := FeeOn(r, a, ledger, holds, d, at);
            && Select(one, FeeTo(a.id)) == one
            && FeeOf(r, a, one, Get(ledger, a.id), Get(Applied(ledger, one), a.id), OpenHolds(holds, a.id, at), d)
  {
    var one := FeeOn(r, a, ledger, holds, d, at);
    if one != [] {
      assert one[..0] == [] && one == [one[0]];
    }
  }

  lemma {:induction false} OtherFee(r: Rules, a: Account, ledger: map<string, int>, holds: seq<Hold>, d: Day, at: int, other: string)
    requires other != a.id
    ensures var one := FeeOn(r, a, ledger, holds, d, at);
            Select(one, FeeTo(other)) == [] && Get(Applied(ledger, one), other) == Get(ledger, other)
  {
    var one := FeeOn(r, a, ledger, holds, d, at);
    SelectNone(one, FeeTo(other));
    if one != [] {
      assert one[..0] == [] && one == [one[0]];
    }
  }

  /** What the last account in turn adds to another's fees. */
  lemma {:induction false} FeesPast(r: Rules, accounts: seq<Account>, ledger: map<string, int>, holds: seq<Hold>, d: Day, at: int, a: string)
    requires accounts != [] && accounts[|accounts| - 1].id != a
    ensures var all, less := FeesOnAll(r, accounts, ledger, holds, d, at), FeesOnAll(r, accounts[..|accounts| - 1], ledger, holds, d, at);
            Select(all.0, FeeTo(a)) == Select(less.0, FeeTo(a)) && Get(all.1, a) == Get(less.1, a)
  {
    var n := |accounts| - 1;
    var less := FeesOnAll(r, accounts[..n], ledger, holds, d, at);
    OtherFee(r, accounts[n], less.1, holds, d, at, a);
    SelectConcat(less.0, FeeOn(r, accounts[n], less.1, holds, d, at), FeeTo(a));
  }

  lemma {:induction false} NoFeesFor(r: Rules, accounts: seq<Account>, ledger: map<string, int>, holds: seq<Hold>, d: Day, at: int, a: string)
    requires forall i | 0 <= i < |accounts| :: accounts[i].id != a
    ensures Select(FeesOnAll(r, accounts, ledger, holds, d, at).0, FeeTo(a)) == [] && Get(FeesOnAll(r, accounts, ledger, holds, d, at).1, a) == Get(ledger, a)
    decreases |accounts|
  {
    if accounts != [] {
      NoFeesFor(r, accounts[..|accounts| - 1], ledger, holds, d, at, a);
      FeesPast(r, accounts, ledger, holds, d, at, a);
    }
  }

  lemma {:induction false} LastFee(r: Rules, accounts: seq<Account>, ledger: map<string, int>, holds: seq<Hold>, d: Day, at: int)
    requires DistinctIds(accounts) && accounts != []
    ensures var a, all := accounts[|accounts| - 1], FeesOnAll(r, accounts, ledger, holds, d, at);
            FeeOf(r, a, Select(all.0, FeeTo(a.id)), Get(ledger, a.id), Get(all.1, a.id), OpenHolds(holds, a.id, at), d)
  {
    var n := |accounts| - 1;
    var a, less := accounts[n], FeesOnAll(r, accounts[..n], ledger, holds, d, at);
    NoFeesFor(r, accounts[..n], ledger, holds, d, at, a.id);
    OneFee(r, a, less.1, holds, d, at);
    SelectConcat(less.0, FeeOn(r, a, less.1, holds, d, at), FeeTo(a.id));
  }

  /** Each account is charged on its own ledger, whatever the accounts before it were charged. */
  lemma {:induction false} FeeAt(r: Rules, accounts: seq<Account>, ledger: map<string, int>, holds: seq<Hold>, d: Day, at: int, i: nat)
    requires DistinctIds(accounts) && i < |accounts|
    ensures var a, all := accounts[i], FeesOnAll(r, accounts, ledger, holds, d, at);
            FeeOf(r, a, Select(all.0, FeeTo(a.id)), Get(ledger, a.id), Get(all.1, a.id), OpenHolds(holds, a.id, at), d)
    decreases |accounts|
  {
    if i == |accounts| - 1 {
      LastFee(r, accounts, ledger, holds, d, at);
    } else {
      FeeAt(r, accounts[..|accounts| - 1], ledger, holds, d, at, i);
      FeesPast(r, accounts, ledger, holds, d, at, accounts[i].id);
    }
  }

  lemma {:induction false} FeesLeave(r: Rules, accounts: seq<Account>, ledger: map<string, int>, holds: seq<Hold>, d: Day, at: int)
    ensures FeesOnAll(r, accounts, ledger, holds, d, at).1 == Applied(ledger, FeesOnAll(r, accounts, ledger, holds, d, at).0)
    decreases |accounts|
  {
    if accounts != [] {
      var n := |accounts| - 1;
      FeesLeave(r, accounts[..n], ledger, holds, d, at);
      var (ts, l) := FeesOnAll(r, accounts[..n], ledger, holds, d, at);
      AppliedConcat(ledger, ts, FeeOn(r, accounts[n], l, holds, d, at));
    }
  }

  /** A day's charges hold the account's fee at a month's end and no fee on any other day; `after` is what the fee left. */
  ghost predicate FeeShown(r: Rules, a: Account, charges: seq<Txn>, d: Day, after: int, held: int) {
    if r.endsMonth(d) then exists before: int :: FeeOf(r, a, Select(charges, FeeTo(a.id)), before, after, held, d)
    else Select(charges, FeeTo(a.id)) == []
  }

  lemma {:induction false} ChargesShow(r: Rules, accounts: seq<Account>, ledger: map<string, int>, sums: map<string, int>, last: Option<(int, int)>,
                                       holds: seq<Hold>, d: Day, at: int, i: nat)
    requires DistinctIds(accounts) && i < |accounts|
    ensures var charges := ChargesDue(r, accounts, ledger, sums, last, holds, d, at);
            FeeShown(r, accounts[i], charges, d, Get(Applied(ledger, charges), accounts[i].id), OpenHolds(holds, accounts[i].id, at))
  {
    var interest, a := InterestDue(r, accounts, sums, last, d).0, accounts[i];
    var l := Applied(ledger, interest);
    var fees := FeesDue(r, accounts, l, holds, d, at);
    if Accrues(r, last, d) {
      NoFeeInInterest(r, accounts, sums, r.accruedMonth(d), r.interestDate(d), a.id);
    }
    SelectConcat(interest, fees, FeeTo(a.id));
    AppliedConcat(ledger, interest, fees);
    assert [] + Select(fees, FeeTo(a.id)) == Select(fees, FeeTo(a.id));
    if r.endsMonth(d) {
      FeeAt(r, accounts, l, holds, d, at, i);
      FeesLeave(r, accounts, l, holds, d, at);
      assert FeeOf(r, a, Select(interest + fees, FeeTo(a.id)), Get(l, a.id), Get(Applied(ledger, interest + fees), a.id), OpenHolds(holds, a.id, at), d);
    }
  }

  // ---------------------------------------------------------------- windows

  /** What a day of a history does to holds and charges of fees to an account. */
  ghost predicate DayShows(r: Rules, accounts: seq<Account>, i: nat, e: Entry)
    requires i < |accounts|
  {
    && HoldsMove(r, accounts, e)
    && FeeShown(r, accounts[i], e.charges, e.date, Get(e.after.ledger, accounts[i].id), OpenHolds(e.after.holds, accounts[i].id, e.date * DAY_MICROS + CUT_OFF))
  }

  ghost predicate AllShow(r: Rules, accounts: seq<Account>, i: nat, h: seq<Entry>)
    requires i < |accounts|
  {
    forall k {:trigger DayShows(r, accounts, i, h[k])} | 0 <= k < |h| :: DayShows(r, accounts, i, h[k])
  }

  lemma {:induction false} EntryShows(r: Rules, accounts: seq<Account>, b: Books, d: Day, generated: seq<Txn>, i: nat)
    requires DistinctIds(accounts) && i < |accounts|
    ensures DayShows(r, accounts, i, DayEntry(r, accounts, b, d, generated))
  {
    var landed := DayLanded(r, b, d, generated);
    var ledger, holds := Applied(b.ledger, landed), HeldAfter(r, accounts, b.holds, d);
    ChargesShow(r, accounts, ledger, b.sums, b.last, holds, d, d * DAY_MICROS + CUT_OFF, i);
    AppliedConcat(b.ledger, landed, DayCharges(r, accounts, b, d, generated));
  }

  lemma {:induction false} HistoryShows(r: Rules, accounts: seq<Account>, start: Day, end: int, generate: int -> seq<Txn>, b: Books, i: nat)
    requires end <= YearStart(MAX_YEAR + 1) && DistinctIds(accounts) && i < |accounts|
    ensures AllShow(r, accounts, i, History(r, accounts, start, end, generate, b))
    decreases end - start
  {
    if start <= end {
      HistoryShows(r, accounts, start, end - 1, generate, b, i);
      HistoryNext(r, accounts, start, end, generate, b);
      NextShows(r, accounts, History(r, accounts, start, end - 1, generate, b), b, end, generate(end), i);
    }
  }

  lemma {:induction false} NextShows(r: Rules, accounts: seq<Account>, h: seq<Entry>, b: Books, d: Day, generated: seq<Txn>, i: nat)
    requires DistinctIds(accounts) && i < |accounts| && AllShow(r, accounts, i, h)
    ensures AllShow(r, accounts, i, Next(r, accounts, h, b, d, generated))
  {
    if r.isOpen(d) {
      EntryShows(r, accounts, Closing(h, b), d, generated, i);
      ShownNext(r, accounts, i, h, DayEntry(r, accounts, Closing(h, b), d, generated));
    }
  }

  lemma {:induction false} ShownNext(r: Rules, accounts: seq<Account>, i: nat, h: seq<Entry>, e: Entry)
    requires i < |accounts| && AllShow(r, accounts, i, h) && DayShows(r, accounts, i, e)
    ensures AllShow(r, accounts, i, h + [e])
  {
    var next := h + [e];
    forall k | 0 <= k < |next| ensures DayShows(r, accounts, i, next[k]) {
      assert k < |h| ==> next[k] == h[k];
    }
  }

  /** A window of a core without holds: what is available of an account is its ledger less 25000 for each day the core was
      open of the three before, or with Q8 of the two before. */
  lemma {:induction false} WindowAvailable(q: Quirks, accounts: seq<Account>, start: Day, end: Day, generate: int -> seq<Txn>, b: Books, out: seq<DayResult>,
                                           i: nat, k: nat)
    requires DistinctIds(accounts) && i < |accounts| && b.holds == [] && k < |out|
    requires Follows(out, History(RulesOf(q), accounts, start, end, generate, b), accounts)
    ensures i < |out[k].balances|
    ensures out[k].balances[i].available == out[k].balances[i].ledger - 25_000 * DaysBefore(out, k, out[k].date, if q.q8 then 2 else 3)
  {
    HistoryIsAccounted(RulesOf(q), accounts, start, end, generate, b, i);
    HistoryShows(RulesOf(q), accounts, start, end, generate, b, i);
    AvailableIs(q, accounts, History(RulesOf(q), accounts, start, end, generate, b), b, out, i, k);
  }

  lemma {:induction false} AvailableIs(q: Quirks, accounts: seq<Account>, h: seq<Entry>, b: Books, out: seq<DayResult>, i: nat, k: nat)
    requires DistinctIds(accounts) && i < |accounts| && b.holds == [] && k < |out|
    requires Follows(out, h, accounts) && Linked(h, b) && AllShow(RulesOf(q), accounts, i, h)
    ensures i < |out[k].balances|
    ensures out[k].balances[i].available == out[k].balances[i].ledger - 25_000 * DaysBefore(out, k, out[k].date, if q.q8 then 2 else 3)
  {
    AvailableLess(RulesOf(q), accounts, h, b, out, i, k);
    StandingAreRecent(q, h, out, accounts, k + 1, out[k].date);
  }

  lemma {:induction false} AvailableLess(r: Rules, accounts: seq<Account>, h: seq<Entry>, b: Books, out: seq<DayResult>, i: nat, k: nat)
    requires DistinctIds(accounts) && i < |accounts| && b.holds == [] && k < |out|
    requires Follows(out, h, accounts) && Linked(h, b) && AllShow(r, accounts, i, h)
    ensures i < |out[k].balances|
    ensures out[k].balances[i].available == out[k].balances[i].ledger - 25_000 * StandingDays(r, h, k + 1, out[k].date)
  {
    assert Reports(out[k], h[k], accounts);
    OnlyHoldsMove(r, accounts, i, h);
    HoldsAdd(r, accounts, h, b, i, k + 1, h[k].date);
  }

  lemma {:induction false} OnlyHoldsMove(r: Rules, accounts: seq<Account>, i: nat, h: seq<Entry>)
    requires i < |accounts| && AllShow(r, accounts, i, h)
    ensures AllHoldsMove(r, accounts, h)
  {
    forall k | 0 <= k < |h| ensures HoldsMove(r, accounts, h[k]) {
      assert DayShows(r, accounts, i, h[k]);
    }
  }

  /** A window's fees: none but at a month's end, and there one to each account that owes one, by its ledger before the fee
      and what the open holds leave of it; the reported ledger is that ledger less the fee. */
  lemma {:induction false} WindowFees(r: Rules, accounts: seq<Account>, start: Day, end: Day, generate: int -> seq<Txn>, b: Books, out: seq<DayResult>, i: nat, k: nat)
    requires DistinctIds(accounts) && i < |accounts| && k < |out|
    requires Follows(out, History(r, accounts, start, end, generate, b), accounts)
    ensures i < |out[k].balances|
    ensures var e, p := History(r, accounts, start, end, generate, b)[k], out[k].balances[i];
            out[k].transactions == e.landed + e.charges && FeeShown(r, accounts[i], e.charges, out[k].date, p.ledger, p.ledger - p.available)
  {
    var h := History(r, accounts, start, end, generate, b);
    HistoryShows(r, accounts, start, end, generate, b, i);
    assert DayShows(r, accounts, i, h[k]) && Reports(out[k], h[k], accounts);
  }
}
