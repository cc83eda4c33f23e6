/** When end of day charges, over which month, and under which keys: the schedule and the terms on civil dates. */
module EodDates {
  import opened Options
  import opened Dates
  import opened DateText
  import opened Text
  import opened Calendar
  import opened BusinessDays
  import opened Money
  import LegacyStream
  import LegacyCore
  import LegacyQuirks
  import LegacyInterest
  import Eod
  import EodGuarantees
  import EodCharges

  /** Interest triggers on a business day with none before it in its month, and is dated that month's first. */
  lemma {:induction false} TriggerDays(d: Day)
    ensures var first := d - Civil(d).day + 1;
            && Eod.Documented().first(d) == first
            && (Eod.Documented().triggers(d) <==> IsBusinessDay(false, d) && forall k | first <= k < d :: !IsBusinessDay(false, k))
  {
    LegacyQuirks.FirstIsBefore(d);
    TriggerIs(d);
    LegacyQuirks.LeastOpen(CalendarFirst(d), d);
  }

  lemma {:induction false} TriggerIs(d: Day)
    ensures Eod.Documented().first(d) == CalendarFirst(d)
    ensures Eod.Documented().triggers(d) <==> d == OnOrAfter(false, CalendarFirst(d))
  {
  }

  /** Both programs trigger on the same days, whatever the quirks. */
  lemma {:induction false} BothTrigger(q: LegacyStream.Quirks, d: Day)
    ensures Eod.Documented().triggers(d) <==> LegacyCore.RulesOf(q).triggersInterest(d)
  {
    TriggerIs(d);
    LegacyQuirks.TriggerRule(q, d);
  }

  lemma {:induction false} EndIs(d: Day)
    ensures Eod.Documented().monthEnd(d) <==> LegacyCore.EndsMonth(d)
  {
  }

  /** Fees fall on the day whose number is its month's length. */
  lemma {:induction false} MonthEndDays(d: Day, c: Date)
    requires Valid(c) && Ordinal(c) == d
    ensures Eod.Documented().monthEnd(d) <==> c.day == DaysInMonth(c.year, c.month)
  {
    EndIs(d);
    LegacyQuirks.LastDay(d, c);
  }

  /** A charge is valued and stamped on its date, at 16:00, which the documented cut-off leaves there on a business day. */
  lemma {:induction false} ChargesAreInTime(kind: string, key: string, a: Eod.Account, x: Int64, d: Day)
    ensures var q := Eod.ChargeRequest(kind, key, a, x, d);
            && q.key.principal == "eod" && q.body.businessDate == q.body.valueDate == d
            && DayOf(q.body.postedAt) == d && TimeOf(q.body.postedAt) == 16 * 3_600_000_000
            && (IsBusinessDay(false, d) ==> BusinessDateFor(q.body.postedAt) == d)
  {
    StampedAt(d, 16 * 3_600_000_000);
  }

  lemma {:induction false} StampedAt(d: Day, micros: int)
    requires 0 <= micros < CUT_OFF
    ensures DayOf(d * DAY_MICROS + micros) == d && TimeOf(d * DAY_MICROS + micros) == micros
    ensures IsBusinessDay(false, d) ==> BusinessDateFor(d * DAY_MICROS + micros) == d
  {
    assert (d * DAY_MICROS + micros) % DAY_MICROS == micros;
  }

  // ---------------------------------------------------------------- keys

  lemma {:induction false} DayBefore(f: Day)
    ensures 0 <= Civil(f - 1).year <= MAX_YEAR
  {
    Eod.YearBefore(f);
    assert YearStart(MIN_YEAR) == 0;
    if f > 1 {
      YearOfDay(f - 1);
    } else {
      CivilOfOrdinal(Date(0, 12, 31));
    }
  }

  lemma {:induction false} JoinedFields(y: string, m: string)
    requires |y| == 4 && |m| == 2
    ensures var t := y + "-" + m; |t| == 7 && t[..4] == y && t[4] == '-' && t[5..] == m
  {
  }

  /** The month in an interest key is YYYY-MM of the month before. */
  lemma {:induction false} MonthTextReads(f: Day)
    ensures var t := Eod.MonthText(f);
            && |t| == 7 && t[4] == '-' && Digits(t[..4]) && Digits(t[5..])
            && NatValue(t[..4]) == Civil(f - 1).year && NatValue(t[5..]) == Civil(f - 1).month
  {
    DayBefore(f);
    FieldReads(Civil(f - 1).year, 4);
    FieldReads(Civil(f - 1).month, 2);
    JoinedFields(Field(Civil(f - 1).year, 4), Field(Civil(f - 1).month, 2));
  }

  lemma {:induction false} FirstsAre(f: Day)
    requires Civil(f).day == 1
    ensures f == FirstOfMonth(Civil(f).year, Civil(f).month)
  {
    OrdinalOfCivil(f);
    assert Civil(f) == Date(Civil(f).year, Civil(f).month, 1);
  }

  lemma {:induction false} AfterTheMonthBefore(f: int, y: int, m: int)
    requires 1 <= m <= 12 && f == FirstOfMonth(y, m)
    ensures LegacyInterest.FirstAfter(LegacyCore.MonthOfDay(f - 1)) == f
  {
    LegacyInterest.FirstIsAfter(y, m);
  }

  lemma {:induction false} MonthNames(f: Day)
    requires Civil(f).day == 1
    ensures LegacyInterest.FirstAfter(LegacyCore.MonthOfDay(f - 1)) == f
  {
    FirstsAre(f);
    AfterTheMonthBefore(f, Civil(f).year, Civil(f).month);
  }

  /** Different calendar firsts have different months. */
  lemma {:induction false} MonthTextsDiffer(f: Day, g: Day)
    requires Civil(f).day == Civil(g).day == 1
    ensures Eod.MonthText(f) == Eod.MonthText(g) <==> f == g
  {
    MonthTextReads(f);
    MonthTextReads(g);
    MonthNames(f);
    MonthNames(g);
  }

  /** Two charges share a key only if they are of one kind, on one account, for one month or one day. */
  lemma {:induction false} KeysNameCharges(a: string, b: string, d: Day, e: Day)
    requires '/' !in a && '/' !in b
    ensures Civil(d).day == Civil(e).day == 1 ==> (Eod.Documented().interestKey(a, d) == Eod.Documented().interestKey(b, e) <==> a == b && d == e)
    ensures Eod.Documented().feeKey(a, d) == Eod.Documented().feeKey(b, e) <==> a == b && d == e
    ensures Eod.Documented().interestKey(a, d) != Eod.Documented().feeKey(b, e)
  {
    EodGuarantees.KeysAreDistinct(a, b, d, e);
    if Civil(d).day == Civil(e).day == 1 {
      MonthTextsDiffer(d, e);
    }
  }

  // ---------------------------------------------------------------- terms

  lemma {:induction false} TermsShow(products: map<string, EodCharges.Product>, f: Day)
    ensures EodCharges.Documented(products).products == products
    ensures EodCharges.Documented(products).monthStart(f) == EodCharges.MonthStartBefore(f)
    ensures EodCharges.Documented(products).denominator(f) == EodCharges.DenominatorBefore(f)
  {
  }

  lemma {:induction false} MonthOfLast(f: Day, last: Date)
    requires Civil(f - 1) == last
    ensures EodCharges.MonthStartBefore(f) == FirstOfMonth(last.year, last.month)
    ensures EodCharges.DenominatorBefore(f) == EodCharges.DenominatorOf(last.year)
  {
  }

  lemma {:induction false} DenominatorIs(y: int)
    ensures EodCharges.DenominatorOf(y) == if y % 4 == 0 && (y % 100 != 0 || y % 400 == 0) then 366 else 365
  {
  }

  lemma {:induction false} MonthSpan(last: Date)
    requires Valid(last) && last.day == DaysInMonth(last.year, last.month)
    ensures Ordinal(last) + 1 == FirstOfMonth(last.year, last.month) + DaysInMonth(last.year, last.month)
  {
  }

  lemma {:induction false} LastBeforeIn(y: int, m: int)
    requires 1 <= m <= 12
    ensures var last := LegacyInterest.LastBefore(y, m);
            && (last.year, last.month) == (if m == 1 then (y - 1, 12) else (y, m - 1)) && last.day == DaysInMonth(last.year, last.month)
  {
  }

  /** Interest posted on the first of a month is for the days of the month before, over that month's year. */
  lemma {:induction false} TermsAre(products: map<string, EodCharges.Product>, y: int, m: int, f: Day)
    requires 1 <= m <= 12 && f == FirstOfMonth(y, m)
    ensures var (py, pm) := if m == 1 then (y - 1, 12) else (y, m - 1);
            && EodCharges.Documented(products).monthStart(f) == FirstOfMonth(py, pm) == f - DaysInMonth(py, pm)
            && EodCharges.Documented(products).denominator(f) == (if py % 4 == 0 && (py % 100 != 0 || py % 400 == 0) then 366 else 365)
            && EodCharges.Documented(products).products == products
  {
    LegacyInterest.LastBeforeIs(y, m);
    LastBeforeIn(y, m);
    TermsOf(products, f, LegacyInterest.LastBefore(y, m));
  }

  lemma {:induction false} TermsOf(products: map<string, EodCharges.Product>, f: Day, last: Date)
    requires Valid(last) && Ordinal(last) == f - 1 && last.day == DaysInMonth(last.year, last.month)
    ensures EodCharges.Documented(products).products == products
    ensures EodCharges.Documented(products).monthStart(f) == FirstOfMonth(last.year, last.month) == f - DaysInMonth(last.year, last.month)
    ensures EodCharges.Documented(products).denominator(f)
            == (if last.year % 4 == 0 && (last.year % 100 != 0 || last.year % 400 == 0) then 366 else 365)
  {
    CivilOfOrdinal(last);
    TermsShow(products, f);
    MonthOfLast(f, last);
    DenominatorIs(last.year);
    MonthSpan(last);
  }
}
