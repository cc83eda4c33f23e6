/** What each quirk of the legacy core changes, against the documented rules and the ledger's own implementation of them. */
module LegacyQuirks {
  import opened Options
  import opened Dates
  import opened DateText
  import opened Text
  import opened Sorting
  import opened Extracts
  import opened DayCount
  import opened Money
  import opened BusinessDays
  import opened Calendar
  import opened LegacyStream
  import opened LegacyCore
  import Classify
  import EodCharges
  import EodGuarantees
  import LedgerHolds = Holds

  function Documented(q: Quirks): Quirks {
    q.(q1 := false, q2 := false, q3 := false, q4 := false, q5 := false, q6 := false, q7 := false, q8 := false, q9 := false, q10 := false,
       q11 := false, q12 := false)
  }

  // ---------------------------------------------------------------- Q8: holds

  /** The documented expiry is the ledger's: 72 hours, three whole days. */
  lemma {:induction false} DocumentedHold(q: Quirks, placedAt: int)
    requires !q.q8
    ensures RulesOf(q).holdExpiry(placedAt) == placedAt + LedgerHolds.HOLD_HOURS * 3_600_000_000 == placedAt + 3 * DAY_MICROS
  {
  }

  /** Q8 never keeps a hold longer, and lets it go earlier exactly from midnight of the third day to the hour it was placed. */
  lemma {:induction false} EarlyRelease(q: Quirks, placedAt: int, at: int)
    requires q.q8 && placedAt <= at
    ensures var early, late := RulesOf(q).holdExpiry(placedAt), RulesOf(Documented(q)).holdExpiry(placedAt);
            && (at < early ==> at < late)
            && (at < late && !(at < early) <==> DayOf(placedAt) + 3 <= DayOf(at) && at < placedAt + 3 * DAY_MICROS)
  {
    assert DAY_MICROS * DayOf(placedAt) <= placedAt && DAY_MICROS * DayOf(at) <= at < DAY_MICROS * (DayOf(at) + 1);
  }

  /** So a hold placed at 18:00 is missing from the legacy position at the cut-off three days on, and from that one only. */
  lemma {:induction false} EarlyReleaseShows(q: Quirks, d: int, k: nat)
    requires q.q8
    ensures var placed, seen := d * DAY_MICROS + 18 * HOUR_MICROS, (d + k) * DAY_MICROS + CUT_OFF;
            placed <= seen ==> ((seen < RulesOf(q).holdExpiry(placed)) != (seen < RulesOf(Documented(q)).holdExpiry(placed)) <==> k == 3)
  {
    var placed := d * DAY_MICROS + 18 * HOUR_MICROS;
    assert DayOf(placed) == d;
  }

  /** The ledger's row for a hold of the legacy core, in seconds. */
  function LedgerHold(h: LegacyCore.Hold): LedgerHolds.Hold {
    LedgerHolds.Hold(h.accountId, h.amount, h.placedAt, h.expiresAt, None)
  }

  function LedgerHoldsOf(hs: seq<LegacyCore.Hold>): (r: seq<LedgerHolds.Hold>)
    ensures |r| == |hs| && forall i | 0 <= i < |hs| :: r[i] == LedgerHold(hs[i])
  {
    seq(|hs|, i requires 0 <= i < |hs| => LedgerHold(hs[i]))
  }

  /** Over holds already placed both programs total the same ones. */
  lemma {:induction false} HoldTotalsAgree(hs: seq<LegacyCore.Hold>, a: string, at: int)
    requires forall i | 0 <= i < |hs| :: hs[i].placedAt <= at
    ensures OpenHolds(hs, a, at) == LedgerHolds.Pending(LedgerHoldsOf(hs), a, at)
    decreases |hs|
  {
    if hs != [] {
      var n := |hs| - 1;
      HoldTotalsAgree(hs[..n], a, at);
      assert LedgerHoldsOf(hs)[..n] == LedgerHoldsOf(hs[..n]);
    }
  }

  /** A hold not placed yet counts for nothing. */
  lemma {:induction false} NotPlacedYet(hs: seq<LegacyCore.Hold>, h: LegacyCore.Hold, a: string, at: int)
    requires at < h.placedAt
    ensures OpenHolds(hs + [h], a, at) == OpenHolds(hs, a, at)
  {
    assert (hs + [h])[..|hs|] == hs;
  }

  // ---------------------------------------------------------------- Q1, Q4, Q7: fees

  /** The account's terms as the ledger's catalogue states them. */
  ghost predicate SameTerms(a: LegacyCore.Account, p: EodCharges.Product) {
    && a.monthlyFee == p.monthlyFee && a.minBalance == p.minBalance && a.minBalanceFee == p.minBalanceFee
    && Money.Fits(p.monthlyFee + p.minBalanceFee)
  }

  /** With Q1, Q4 and Q7 off the legacy fee is the ledger's, besides a shared service fee of 250. */
  lemma {:induction false} DocumentedFee(q: Quirks, a: LegacyCore.Account, p: EodCharges.Product, ledger: int, held: int)
    requires !q.q1 && !q.q4 && !q.q7 && SameTerms(a, p)
    ensures RulesOf(q).fee(a, ledger, held) == EodCharges.FeeOf(p, ledger - held) + if a.suspense then 0 else 250
  {
  }

  /** What each fee quirk changes: Q1 the shared fee by one unit; Q4 the monthly fee of an account opened before the date;
      Q7 the minimum-balance fee when holds take the available balance below the minimum and the ledger is not. */
  lemma {:induction false} FeeQuirks(q: Quirks, a: LegacyCore.Account, ledger: int, held: int)
    requires held >= 0
    ensures RulesOf(q).fee(a, ledger, held) == RulesOf(Documented(q)).fee(a, ledger, held)
                                       + (if q.q1 && !a.suspense then 1 else 0)
                                       - (if q.q4 && a.openedOn < q.openedBefore then a.monthlyFee else 0)
                                       - (if q.q7 && a.minBalanceFee > 0 && ledger - held < a.minBalance <= ledger then a.minBalanceFee else 0)
  {
  }

  /** The ledger's fee, threshold and all: the monthly fee, and the minimum-balance fee exactly below the minimum. */
  lemma {:induction false} FeeThreshold(p: EodCharges.Product, available: int)
    requires Money.Fits(p.monthlyFee + p.minBalanceFee)
    ensures EodCharges.FeeOf(p, available) - p.monthlyFee == if available <= p.minBalance - 1 && p.minBalanceFee >= 1 then p.minBalanceFee else 0
  {
  }

  // ---------------------------------------------------------------- Q1, Q3, Q6: interest

  /** With Q1, Q3 and Q6 off the legacy interest is what the ledger's int64 code computes, while the product stays in range. */
  lemma {:induction false} DocumentedInterest(q: Quirks, a: LegacyCore.Account, rate: Int64, year: int, total: Int64)
    requires !q.q1 && !q.q3 && !q.q6 && a.rateBp == rate && MIN64 < total * rate <= MAX64
    ensures RulesOf(q).interest(a, year, total) == InterestCode(total, rate, Denominator(year, BasisFor(year)))
  {
    var den := Denominator(year, BasisFor(year));
    if rate == 0 || total == 0 {
      assert total * rate == 0;
      assert RoundHalfEven(0, BASIS_POINTS * den) == 0 by {
        assert 0 / (BASIS_POINTS * den) == 0 && 0 % (BASIS_POINTS * den) == 0;
      }
    } else {
      assert Wrap(total * rate) == total * rate;
      DenominatorIsSmall(BASIS_POINTS * den);
      GoRoundedExactly(total * rate, BASIS_POINTS * den, true);
    }
  }

  lemma {:induction false} DenominatorIsSmall(d: int)
    requires 0 < d <= 3_660_000
    ensures forall x: Int64 | x != MIN64 :: Sound(x, d, true)
  {
    forall x: Int64 | x != MIN64 ensures Sound(x, d, true) {
      assert Abs(x) % d < d;
    }
  }

  lemma {:induction false} RateIs(q: Quirks, a: LegacyCore.Account, year: int, total: int)
    ensures RulesOf(q).interest(a, year, total) == Interest(q, a, year, total)
  {
  }

  lemma {:induction false} QuirksOnInterest(q: Quirks, a: LegacyCore.Account, year: int, total: int, fees: set<nat>)
    requires !q.q1 && Interest(Documented(q), a, year, total) >= 1082
    requires Abs(Interest(q, a, year, total) - Interest(Documented(q), a, year, total)) !in fees
    ensures InterestLabelled(q.q3 && a.onQ3Product, q.q6, year, Interest(q, a, year, total), Interest(Documented(q), a, year, total), fees)
  {
    Classify.QuirkIsNamed(year, q.q3 && a.onQ3Product, q.q6, total * a.rateBp, fees);
  }

  ghost predicate InterestLabelled(q3: bool, q6: bool, year: int, l: int, s: int, fees: set<nat>) {
    var leap := year % 4 == 0 && (year % 100 != 0 || year % 400 == 0);
    if q3 then Classify.ClassifyMatched(l, s, fees) == (Classify.ModelDifference, Classify.BasisRule(if leap then 366 else 365, 360))
    else if q6 && leap then Classify.ClassifyMatched(l, s, fees) == (Classify.ModelDifference, Classify.BasisRule(366, 365))
    else l == s
  }

  /** From the thresholds on, Q3 and Q6 on the legacy core's own interest get the label of their denominators, and with
      neither there is nothing to label. */
  lemma {:induction false} InterestQuirks(q: Quirks, a: LegacyCore.Account, year: int, total: int, fees: set<nat>)
    requires !q.q1 && RulesOf(Documented(q)).interest(a, year, total) >= 1082
    requires Abs(RulesOf(q).interest(a, year, total) - RulesOf(Documented(q)).interest(a, year, total)) !in fees
    ensures InterestLabelled(q.q3 && a.onQ3Product, q.q6, year, RulesOf(q).interest(a, year, total), RulesOf(Documented(q)).interest(a, year, total), fees)
  {
    RateIs(q, a, year, total);
    RateIs(Documented(q), a, year, total);
    QuirksOnInterest(q, a, year, total, fees);
  }

  /** Q1 alone is at most one unit, labelled round:1. */
  lemma {:induction false} InterestRounding(q: Quirks, a: LegacyCore.Account, year: int, total: int, fees: set<nat>)
    requires q.q1 && !q.q3 && !q.q6 && 1 !in fees
    ensures var l, s := RulesOf(q).interest(a, year, total), RulesOf(Documented(q)).interest(a, year, total);
            l == s || Classify.ClassifyMatched(l, s, fees) == (Classify.ModelDifference, Classify.Round1)
  {
    Classify.RoundingQuirkIsNamed(total * a.rateBp, BASIS_POINTS * Denominator(year, BasisFor(year)), fees);
  }

  // ---------------------------------------------------------------- charges as transactions

  /** Stamped and valued on its date, so many microseconds in. */
  ghost predicate InTime(t: Txn, a: LegacyCore.Account, dated: Day, micros: int) {
    && t.valueDate == t.businessDate == dated && DayOf(t.postedAt) == dated && TimeOf(t.postedAt) == micros && t.currency == a.currency
    && (IsBusinessDay(false, dated) ==> BusinessDateFor(t.postedAt) == dated)
  }

  lemma {:induction false} StampedAt(t: Txn, a: LegacyCore.Account, dated: Day, micros: int)
    requires 0 <= micros < CUT_OFF && t.postedAt == dated * DAY_MICROS + micros && t.valueDate == t.businessDate == dated && t.currency == a.currency
    ensures InTime(t, a, dated, micros)
  {
    assert (dated * DAY_MICROS + micros) % DAY_MICROS == micros;
  }

  /** A charge is stamped and valued on its date, before the cut-off, so the date rule leaves a business day's there. */
  lemma {:induction false} InterestIsInTime(r: Rules, a: LegacyCore.Account, sums: map<string, int>, month: (int, int), dated: Day, t: Txn)
    requires t in InterestOn(r, a, sums, month, dated)
    ensures InTime(t, a, dated, 16 * HOUR_MICROS) && t.kind == "interest" && t.counterparty == "INTEREST"
  {
    StampedAt(t, a, dated, 16 * HOUR_MICROS);
  }

  lemma {:induction false} FeesAreInTime(r: Rules, a: LegacyCore.Account, ledger: map<string, int>, holds: seq<LegacyCore.Hold>, dated: Day, at: int, t: Txn)
    requires t in FeeOn(r, a, ledger, holds, dated, at)
    ensures InTime(t, a, dated, 16 * HOUR_MICROS + 30 * 60_000_000) && t.kind == "fee" && t.counterparty == "FEE"
  {
    StampedAt(t, a, dated, 16 * HOUR_MICROS + 30 * 60_000_000);
  }

  /** Charges of different kinds, accounts or periods have different ids. */
  lemma {:induction false} ChargeIdsDiffer(k: string, a: string, m: int, l: string, b: string, n: int)
    requires '/' !in k && '/' !in a && '/' !in l && '/' !in b
    ensures DetId(k, a, m) == DetId(l, b, n) <==> k == l && a == b && m == n
  {
    IntTextFree(m, '/');
    IntTextFree(n, '/');
    JoinThree(k, a, IntText(m));
    JoinThree(l, b, IntText(n));
    EodGuarantees.JoinedKeys(k, a, IntText(m), l, b, IntText(n));
    IntRoundTrip(m);
    IntRoundTrip(n);
  }

  lemma {:induction false} JoinThree(a: string, b: string, c: string)
    ensures Join([a, b, c], '/') == a + "/" + b + "/" + c
  {
    assert [a, b, c][1..] == [b, c] && [b, c][1..] == [c];
    assert Join([b, c], '/') == b + ['/'] + c;
  }

  /** So interest has one id for an account and a month, a fee one for an account and a day, and they never share one. */
  lemma {:induction false} InterestIdsDiffer(r: Rules, a: LegacyCore.Account, s: map<string, int>, m: (int, int), d: Day,
                                             b: LegacyCore.Account, u: map<string, int>, n: (int, int), e: Day, x: Txn, y: Txn)
    requires '/' !in a.id && '/' !in b.id && 1 <= m.1 <= 12 && 1 <= n.1 <= 12
    requires x in InterestOn(r, a, s, m, d) && y in InterestOn(r, b, u, n, e)
    ensures x.txnId == y.txnId <==> a.id == b.id && m == n
  {
    ChargeIdsDiffer("interest", a.id, m.0 * 12 + m.1, "interest", b.id, n.0 * 12 + n.1);
  }

  lemma {:induction false} FeeIdsDiffer(r: Rules, a: LegacyCore.Account, l: map<string, int>, hs: seq<LegacyCore.Hold>, d: Day, at: int,
                                        b: LegacyCore.Account, k: map<string, int>, gs: seq<LegacyCore.Hold>, e: Day, on: int, x: Txn, y: Txn)
    requires '/' !in a.id && '/' !in b.id && x in FeeOn(r, a, l, hs, d, at) && y in FeeOn(r, b, k, gs, e, on)
    ensures x.txnId == y.txnId <==> a.id == b.id && d == e
  {
    ChargeIdsDiffer("fee", a.id, d, "fee", b.id, e);
  }

  lemma {:induction false} FeeIsNoInterest(r: Rules, a: LegacyCore.Account, l: map<string, int>, hs: seq<LegacyCore.Hold>, d: Day, at: int,
                                           b: LegacyCore.Account, u: map<string, int>, n: (int, int), e: Day, x: Txn, y: Txn)
    requires '/' !in a.id && '/' !in b.id && x in FeeOn(r, a, l, hs, d, at) && y in InterestOn(r, b, u, n, e)
    ensures x.txnId != y.txnId
  {
    ChargeIdsDiffer("fee", a.id, d, "interest", b.id, n.0 * 12 + n.1);
    assert "fee" != "interest" by {
      assert |"fee"| != |"interest"|;
    }
  }

  // ---------------------------------------------------------------- Q12, month ends and trigger days

  lemma {:induction false} LeastOpen(f: int, d: int)
    ensures d == OnOrAfter(false, f) <==> f <= d && IsBusinessDay(false, d) && forall k | f <= k < d :: !IsBusinessDay(false, k)
  {
    assert forall k :: Open(false)(k) == IsBusinessDay(false, k);
    if f <= d && IsBusinessDay(false, d) && forall k | f <= k < d :: !IsBusinessDay(false, k) {
      OnOrAfterIs(false, f, d);
    }
  }

  lemma {:induction false} TriggerRule(q: Quirks, d: Day)
    ensures RulesOf(q).triggersInterest(d) <==> d == OnOrAfter(false, CalendarFirst(d))
  {
  }

  /** Interest triggers on the first business day of a month: a business day with none before it in the month. */
  lemma {:induction false} TriggersAreFirst(q: Quirks, d: Day)
    ensures RulesOf(q).triggersInterest(d) <==>
            IsBusinessDay(false, d) && forall k | CalendarFirst(d) <= k < d :: !IsBusinessDay(false, k)
  {
    TriggerRule(q, d);
    FirstIsBefore(d);
    LeastOpen(CalendarFirst(d), d);
  }

  lemma {:induction false} FirstIsBefore(d: Day)
    ensures CalendarFirst(d) == d - Civil(d).day + 1 <= d
  {
    OrdinalOfCivil(d);
  }

  lemma {:induction false} EndRule(q: Quirks, d: int)
    ensures RulesOf(q).endsMonth(d) <==> EndsMonth(d)
  {
  }

  lemma {:induction false} CivilAt(n: int, c: Date)
    requires Valid(c) && Ordinal(c) == n
    ensures Civil(n) == c
  {
    CivilOfOrdinal(c);
  }

  lemma {:induction false} LastDay(n: int, c: Date)
    requires Valid(c) && Ordinal(c) == n
    ensures EndsMonth(n) <==> NextDate(c).month != c.month
  {
    NextOrdinal(c);
    TurnsAt(n, c, NextDate(c));
  }

  lemma {:induction false} TurnsAt(n: int, c: Date, next: Date)
    requires Valid(c) && Ordinal(c) == n && Valid(next) && Ordinal(next) == n + 1
    ensures EndsMonth(n) <==> next.month != c.month
  {
    CivilAt(n, c);
    CivilAt(n + 1, next);
  }

  /** A month ends on the day whose number is the month's length. */
  lemma {:induction false} MonthEnds(q: Quirks, n: int, c: Date)
    requires Valid(c) && Ordinal(c) == n
    ensures RulesOf(q).endsMonth(n) <==> c.day == DaysInMonth(c.year, c.month)
  {
    EndRule(q, n);
    LastDay(n, c);
  }

  function NextDate(c: Date): Date {
    if c.day < DaysInMonth(c.year, c.month) then Date(c.year, c.month, c.day + 1)
    else if c.month < 12 then Date(c.year, c.month + 1, 1)
    else Date(c.year + 1, 1, 1)
  }

  lemma {:induction false} YearTurns(c: Date)
    requires Valid(c) && c.month == 12 && c.day == 31
    ensures Ordinal(Date(c.year + 1, 1, 1)) == Ordinal(c) + 1
  {
    MonthsFillTheYear(c.year);
    YearLength(c.year);
  }

  lemma {:induction false} MonthTurns(c: Date)
    requires Valid(c) && c.month < 12 && c.day == DaysInMonth(c.year, c.month)
    ensures Ordinal(Date(c.year, c.month + 1, 1)) == Ordinal(c) + 1
  {
  }

  lemma {:induction false} NextOrdinal(c: Date)
    requires Valid(c)
    ensures Valid(NextDate(c)) && Ordinal(NextDate(c)) == Ordinal(c) + 1
  {
    if c.day == DaysInMonth(c.year, c.month) {
      if c.month < 12 {
        MonthTurns(c);
      } else {
        YearTurns(c);
      }
    }
  }

  /** Q12 moves the interest date exactly when the calendar first is no business day, and then to the day that triggered. */
  lemma {:induction false} InterestDates(q: Quirks, d: Day)
    requires RulesOf(q).triggersInterest(d)
    ensures !q.q12 ==> RulesOf(q).interestDate(d) == CalendarFirst(d)
    ensures q.q12 ==> RulesOf(q).interestDate(d) == d && (d == CalendarFirst(d) <==> IsBusinessDay(false, CalendarFirst(d)))
  {
    TriggersAreFirst(q, d);
    FirstIsBefore(d);
  }
}
