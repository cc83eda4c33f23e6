/** Walking the calendar: next and previous business days, the cut-off rule, and the legacy core's version of both. */
module BusinessDays {
  import opened Dates
  import opened DateText
  import opened Calendar

  // ---------------------------------------------------------------- searches

  /** The least open day of n .. n + gap. */
  function LeastFrom(n: int, gap: nat, open: int -> bool): (r: int)
    requires exists k | n <= k <= n + gap :: open(k)
    ensures n <= r <= n + gap && open(r) && forall k | n <= k < r :: !open(k)
    decreases gap
  {
    if open(n) then n else LeastFrom(n + 1, gap - 1, open)
  }

  /** The greatest open day of n - gap .. n. */
  function GreatestUpto(n: int, gap: nat, open: int -> bool): (r: int)
    requires exists k | n - gap <= k <= n :: open(k)
    ensures n - gap <= r <= n && open(r) && forall k | r < k <= n :: !open(k)
    decreases gap
  {
    if open(n) then n else GreatestUpto(n - 1, gap - 1, open)
  }

  function Open(q5: bool): int -> bool {
    (n: int) => IsBusinessDay(q5, n)
  }

  lemma {:induction false} Opens(q5: bool, n: int)
    ensures exists k | n < k <= n + HORIZON :: Open(q5)(k)
  {
    var d := SomeDayIsOpen(n);
    assert Open(q5)(d);
  }

  /** The least business day on or after n. */
  function OnOrAfter(q5: bool, n: int): int {
    Opens(q5, n - 1);
    LeastFrom(n, HORIZON - 1, Open(q5))
  }

  function NextBusinessDay(q5: bool, n: int): int {
    OnOrAfter(q5, n + 1)
  }

  function PrevBusinessDay(q5: bool, n: int): int {
    Opens(q5, n - HORIZON - 1);
    GreatestUpto(n - 1, HORIZON - 1, Open(q5))
  }

  lemma {:induction false} OnOrAfterIs(q5: bool, n: int, r: int)
    requires n <= r && Open(q5)(r) && forall k | n <= k < r :: !Open(q5)(k)
    ensures OnOrAfter(q5, n) == r
  {
    var least := OnOrAfter(q5, n);
    assert least <= r by {
      assert r < least ==> !Open(q5)(r);
    }
  }

  lemma {:induction false} PrevIs(q5: bool, n: int, r: int)
    requires r < n && Open(q5)(r) && forall k | r < k < n :: !Open(q5)(k)
    ensures PrevBusinessDay(q5, n) == r
  {
    var greatest := PrevBusinessDay(q5, n);
    assert r <= greatest by {
      assert greatest < r ==> !Open(q5)(r);
    }
  }

  /** NextBusinessDay is the least later business day, within 39 days; PrevBusinessDay mirrors it. */
  lemma {:induction false} NextAndPrevAre(q5: bool, n: int)
    ensures var r := NextBusinessDay(q5, n);
            n < r <= n + HORIZON && IsBusinessDay(q5, r) && forall k | n < k < r :: !IsBusinessDay(q5, k)
    ensures var r := PrevBusinessDay(q5, n);
            n - HORIZON <= r < n && IsBusinessDay(q5, r) && forall k | r < k < n :: !IsBusinessDay(q5, k)
  {
    var r, p := NextBusinessDay(q5, n), PrevBusinessDay(q5, n);
    assert Open(q5)(r) && Open(q5)(p);
    forall k | n < k < r ensures !IsBusinessDay(q5, k) {
      assert !Open(q5)(k);
    }
    forall k | p < k < n ensures !IsBusinessDay(q5, k) {
      assert !Open(q5)(k);
    }
  }

  /** On business days the two are inverse. */
  lemma {:induction false} NextAndPrevAreInverse(q5: bool, n: int)
    requires IsBusinessDay(q5, n)
    ensures NextBusinessDay(q5, PrevBusinessDay(q5, n)) == n && PrevBusinessDay(q5, NextBusinessDay(q5, n)) == n
  {
    assert Open(q5)(n);
    OnOrAfterIs(q5, PrevBusinessDay(q5, n) + 1, n);
    PrevIs(q5, NextBusinessDay(q5, n), n);
  }

  /** The calendar first of a date's month: the documented interest date. */
  function CalendarFirst(d: Day): Day {
    YearOfDay(d);
    OrdinalInRange(Date(Civil(d).year, Civil(d).month, 1));
    FirstOfMonth(Civil(d).year, Civil(d).month)
  }

  // ---------------------------------------------------------------- the cut-off

  /** 17:00:00.000 in microseconds. */
  const CUT_OFF: int := 61_200_000_000
  /** Q2 fires one millisecond early. */
  const EARLY_CUT_OFF: int := 61_199_999_000

  function DayOf(at: int): int {
    at / DAY_MICROS
  }

  function TimeOf(at: int): (t: int)
    ensures 0 <= t < DAY_MICROS
  {
    at % DAY_MICROS
  }

  /** The documented rule: at or after the cut-off, or on a closed day, roll forward. */
  function BusinessDateFor(at: int): int {
    if TimeOf(at) >= CUT_OFF then NextBusinessDay(false, DayOf(at))
    else if !IsBusinessDay(false, DayOf(at)) then NextBusinessDay(false, DayOf(at))
    else DayOf(at)
  }

  /** The first day an instant may belong to. */
  function Due(q2: bool, at: int): int {
    if TimeOf(at) >= (if q2 then EARLY_CUT_OFF else CUT_OFF) then DayOf(at) + 1 else DayOf(at)
  }

  /** Quirks.business_date_for. */
  function LegacyDateFor(q2: bool, q5: bool, at: int): int {
    var rolled := TimeOf(at) >= (if q2 then EARLY_CUT_OFF else CUT_OFF);
    if !rolled && IsBusinessDay(q5, DayOf(at)) then DayOf(at)
    else OnOrAfter(q5, if rolled then DayOf(at) + 1 else DayOf(at))
  }

  /** Both rules choose the least business day on or after the due day. */
  lemma {:induction false} DatesAreLeast(q2: bool, q5: bool, at: int)
    ensures BusinessDateFor(at) == OnOrAfter(false, Due(false, at))
    ensures LegacyDateFor(q2, q5, at) == OnOrAfter(q5, Due(q2, at))
  {
    var d := DayOf(at);
    assert forall q :: Open(q)(d) == IsBusinessDay(q, d);
    if IsBusinessDay(false, d) {
      OnOrAfterIs(false, d, d);
    } else {
      OnOrAfterIs(false, d, OnOrAfter(false, d + 1));
    }
    if IsBusinessDay(q5, d) {
      OnOrAfterIs(q5, d, d);
    }
  }

  /** With Q2 and Q5 off the legacy rule is the documented one, for every instant. */
  lemma {:induction false} QuirksOffAgree(at: int)
    ensures LegacyDateFor(false, false, at) == BusinessDateFor(at)
  {
    DatesAreLeast(false, false, at);
  }

  lemma {:induction false} DueIsMonotone(q2: bool, x: int, y: int)
    requires x <= y
    ensures Due(q2, x) <= Due(q2, y)
  {
    assert x == DAY_MICROS * DayOf(x) + TimeOf(x) && y == DAY_MICROS * DayOf(y) + TimeOf(y);
  }

  lemma {:induction false} OnOrAfterIsMonotone(q5: bool, m: int, n: int)
    requires m <= n
    ensures OnOrAfter(q5, m) <= OnOrAfter(q5, n)
  {
    var r, s := OnOrAfter(q5, m), OnOrAfter(q5, n);
    assert Open(q5)(s);
    assert s < r ==> !Open(q5)(s);
  }

  /** Business-date assignment never runs backwards, under any setting of the quirks. */
  lemma {:induction false} AssignmentIsMonotone(q2: bool, q5: bool, x: int, y: int)
    requires x <= y
    ensures BusinessDateFor(x) <= BusinessDateFor(y)
    ensures LegacyDateFor(q2, q5, x) <= LegacyDateFor(q2, q5, y)
  {
    DatesAreLeast(q2, q5, x);
    DatesAreLeast(q2, q5, y);
    DueIsMonotone(false, x, y);
    DueIsMonotone(q2, x, y);
    OnOrAfterIsMonotone(false, Due(false, x), Due(false, y));
    OnOrAfterIsMonotone(q5, Due(q2, x), Due(q2, y));
  }

  /** Q2 alone moves exactly the instants of the last millisecond before the cut-off of a business day. */
  lemma {:induction false} EarlyCutOffMoves(at: int)
    ensures LegacyDateFor(true, false, at) != BusinessDateFor(at)
       <==> EARLY_CUT_OFF <= TimeOf(at) < CUT_OFF && IsBusinessDay(false, DayOf(at))
  {
    DatesAreLeast(true, false, at);
    var d := DayOf(at);
    assert Open(false)(d) == IsBusinessDay(false, d);
    if EARLY_CUT_OFF <= TimeOf(at) < CUT_OFF {
      if IsBusinessDay(false, d) {
        OnOrAfterIs(false, d, d);
      } else {
        OnOrAfterIs(false, d, OnOrAfter(false, d + 1));
      }
    }
  }

  /** Q5 alone moves exactly the instants that would roll past a Columbus Day on which they could have landed. */
  lemma {:induction false} ColumbusDayMoves(at: int)
    ensures LegacyDateFor(false, true, at) != BusinessDateFor(at)
       <==> exists c | Due(false, at) <= c < BusinessDateFor(at) :: IsColumbusDay(c) && Weekday(c) < 5
  {
    DatesAreLeast(false, true, at);
    var n, r, b := Due(false, at), LegacyDateFor(false, true, at), BusinessDateFor(at);
    assert Open(true)(r) && Open(false)(b) && Open(true)(b);
    forall c | n <= c < b ensures IsColumbusDay(c) && Weekday(c) < 5 <==> Open(true)(c) {
      assert !Open(false)(c);
    }
    if r != b {
      assert b < r ==> !Open(true)(b);
      assert n <= r < b && IsColumbusDay(r) && Weekday(r) < 5;
    }
    if c :| n <= c < b && IsColumbusDay(c) && Weekday(c) < 5 {
      assert Open(true)(c);
    }
  }

  // ---------------------------------------------------------------- the calendar object

  /** USFederal with its per-year cache. */
  class USFederal {
    var cache: map<int, map<int, string>>

    ghost predicate Valid()
      reads this
    {
      forall y | y in cache :: cache[y] == Table(y)
    }

    constructor ()
      ensures Valid()
    {
      cache := map[];
    }

    method Holidays(y: int) returns (t: map<int, string>)
      requires Valid()
      modifies this
      ensures Valid() && t == Table(y)
    {
      if y in cache {
        return cache[y];
      }
      t := HolidaysIn(y);
      cache := cache[y := t];
    }

    method IsOpen(d: int) returns (open: bool)
      requires Valid()
      modifies this
      ensures Valid() && open == IsBusinessDay(false, d)
    {
      if Weekday(d) >= 5 {
        return false;
      }
      var t := Holidays(YearOf(d));
      return d !in t;
    }

    /** The unbounded walk forward ends at the next business day. */
    method Next(d: int) returns (n: int)
      requires Valid()
      modifies this
      ensures Valid() && n == NextBusinessDay(false, d)
    {
      NextAndPrevAre(false, d);
      n := d + 1;
      var open := IsOpen(n);
      while !open
        invariant Valid() && open == IsBusinessDay(false, n)
        invariant d < n <= NextBusinessDay(false, d)
        decreases NextBusinessDay(false, d) - n
      {
        n := n + 1;
        open := IsOpen(n);
      }
    }

    method Prev(d: int) returns (p: int)
      requires Valid()
      modifies this
      ensures Valid() && p == PrevBusinessDay(false, d)
    {
      NextAndPrevAre(false, d);
      p := d - 1;
      var open := IsOpen(p);
      while !open
        invariant Valid() && open == IsBusinessDay(false, p)
        invariant PrevBusinessDay(false, d) <= p < d
        decreases p - PrevBusinessDay(false, d)
      {
        p := p - 1;
        open := IsOpen(p);
      }
    }

    method FirstBusinessDayOfMonth(y: int, m: int) returns (d: int)
      requires Valid() && 1 <= m <= 12
      modifies this
      ensures Valid() && d == OnOrAfter(false, FirstOfMonth(y, m))
    {
      d := FirstOfMonth(y, m);
      var open := IsOpen(d);
      OnOrAfterStep(false, d);
      if !open {
        d := Next(d);
      }
    }

    method DateFor(at: int) returns (d: int)
      requires Valid()
      modifies this
      ensures Valid() && d == BusinessDateFor(at)
    {
      d := DayOf(at);
      if TimeOf(at) >= CUT_OFF {
        d := Next(d);
        return;
      }
      var open := IsOpen(d);
      if !open {
        d := Next(d);
      }
    }

    /** Every business day of [from, until], once each and in order. */
    method Between(from: int, until: int) returns (out: seq<int>)
      requires Valid()
      modifies this
      ensures Valid() && out == OpenDays(Open(false), from, until)
    {
      out := [];
      var d := from;
      while d <= until
        invariant Valid() && (from <= d <= until + 1 || d == from)
        invariant out == OpenDays(Open(false), from, d - 1)
        decreases until - d
      {
        var open := IsOpen(d);
        assert open == Open(false)(d);
        if open {
          out := out + [d];
        }
        d := d + 1;
      }
    }
  }

  lemma {:induction false} OnOrAfterStep(q5: bool, d: int)
    ensures OnOrAfter(q5, d) == if IsBusinessDay(q5, d) then d else NextBusinessDay(q5, d)
  {
    assert Open(q5)(d) == IsBusinessDay(q5, d);
    if Open(q5)(d) {
      OnOrAfterIs(q5, d, d);
    } else {
      var r := OnOrAfter(q5, d + 1);
      assert forall k | d <= k < r :: k == d || !Open(q5)(k);
      OnOrAfterIs(q5, d, r);
    }
  }

  /** The open days of [from, until]. */
  function OpenDays(open: int -> bool, from: int, until: int): seq<int>
    decreases until - from
  {
    if until < from then [] else OpenDays(open, from, until - 1) + if open(until) then [until] else []
  }

  ghost predicate Increasing(r: seq<int>) {
    forall i, j | 0 <= i < j < |r| :: r[i] < r[j]
  }

  lemma {:induction false} OpenDaysHave(open: int -> bool, from: int, until: int, d: int)
    ensures d in OpenDays(open, from, until) <==> from <= d <= until && open(d)
    decreases until - from
  {
    if from <= until {
      OpenDaysHave(open, from, until - 1, d);
    }
  }

  lemma {:induction false} OpenDaysIncrease(open: int -> bool, from: int, until: int)
    ensures Increasing(OpenDays(open, from, until))
    decreases until - from
  {
    if from <= until {
      OpenDaysIncrease(open, from, until - 1);
      var front := OpenDays(open, from, until - 1);
      forall i | 0 <= i < |front| ensures front[i] < until {
        OpenDaysHave(open, from, until - 1, front[i]);
      }
    }
  }

  lemma {:induction false} NothingBetween(r: seq<int>, i: nat, k: int)
    requires Increasing(r) && 0 < i < |r| && r[i - 1] < k < r[i]
    ensures k !in r
  {
    assert forall j | 0 <= j < i - 1 :: r[j] < r[i - 1];
    assert forall j | i < j < |r| :: r[i] < r[j];
  }

  /** BusinessDaysBetween lists exactly the business days of the range, increasing, each the next business day of the
      one before it. */
  lemma {:induction false} BusinessDaysBetweenAre(q5: bool, from: int, until: int)
    ensures var r := OpenDays(Open(q5), from, until);
            && (forall d :: d in r <==> from <= d <= until && IsBusinessDay(q5, d))
            && Increasing(r)
            && (forall i | 0 < i < |r| :: r[i] == NextBusinessDay(q5, r[i - 1]))
  {
    var r := OpenDays(Open(q5), from, until);
    OpenDaysIncrease(Open(q5), from, until);
    forall d ensures d in r <==> from <= d <= until && Open(q5)(d) {
      OpenDaysHave(Open(q5), from, until, d);
    }
    assert forall d :: Open(q5)(d) <==> IsBusinessDay(q5, d);
    forall i | 0 < i < |r| ensures r[i] == NextBusinessDay(q5, r[i - 1]) {
      assert r[i] in r && r[i - 1] in r;
      forall k | r[i - 1] < k < r[i] ensures !Open(q5)(k) {
        NothingBetween(r, i, k);
      }
      OnOrAfterIs(q5, r[i - 1] + 1, r[i]);
    }
  }

  // ---------------------------------------------------------------- the table's blind spot

  lemma {:induction false} DatesStayBeforeYearEnd(y: int, i: nat)
    requires i < |RULES|
    ensures DateOf(y, RULES[i]) < YearStart(y + 1)
  {
    var r := RULES[i];
    YearLength(y);
    MonthsFillTheYear(y);
    if r.month < 12 {
      MonthsIncrease(y, r.month, 12);
    }
    if r.Nth? {
      NthWeekdayIs(y, r.month, r.weekday, r.nth);
    }
  }

  lemma {:induction false} TableHolds(y: int, n: nat, i: nat)
    requires i < n <= |RULES|
    ensures DateOf(y, RULES[i]) in TableOf(y, n)
    decreases n
  {
    if i < n - 1 {
      TableHolds(y, n - 1, i);
    }
  }

  /** When 1 January is a Saturday its observed date, 31 December, is stored in the wrong year's table: the lookup misses
      it and that Friday is a business day. */
  lemma {:induction false} ObservedNewYearIsOpen(y: int)
    requires Weekday(YearStart(y + 1) + 1) == 5
    ensures var eve := YearStart(y + 1);
            eve in Table(y + 1) && YearOf(eve) == y && IsBusinessDay(false, eve)
  {
    var eve := YearStart(y + 1);
    YearLength(y);
    YearOfIs(eve, y);
    assert DateOf(y + 1, RULES[0]) == eve;
    TableHolds(y + 1, |RULES|, 0);
    if eve in Table(y) {
      TableIsClosed(y, |RULES|, eve);
      var i :| 0 <= i < 11 && Closed(y)[i] == eve;
      DatesStayBeforeYearEnd(y, i);
    }
  }

  lemma {:induction false} DatesStayAfterYearStart(y: int, i: nat)
    requires i < |RULES|
    ensures DateOf(y, RULES[i]) > YearStart(y) || (i == 0 && DateOf(y, RULES[i]) == YearStart(y))
    ensures i == 0 ==> (DateOf(y, RULES[i]) == YearStart(y) <==> Weekday(YearStart(y) + 1) == 5)
  {
    var r := RULES[i];
    if r.month > 1 {
      MonthsIncrease(y, 1, r.month);
    }
    if r.Nth? {
      NthWeekdayIs(y, r.month, r.weekday, r.nth);
    }
    if i == 0 {
      assert Ordinal(Date(y, 1, 1)) == YearStart(y) + 1;
    }
  }

  lemma {:induction false} HolidayInItsYear(y: int, i: nat)
    requires i < |RULES| && YearStart(y) < DateOf(y, RULES[i]) <= YearStart(y + 1)
    ensures IsHoliday(DateOf(y, RULES[i]))
  {
    LookupInYear(y, DateOf(y, RULES[i]));
    TableHolds(y, |RULES|, i);
  }

  /** Of all the observed holidays of all years, the lookup misses exactly the New Year's Days that fall on a Saturday. */
  lemma {:induction false} ObservedHolidaysAreClosed(y: int, i: nat)
    requires i < |RULES|
    ensures IsHoliday(DateOf(y, RULES[i])) <==> !(i == 0 && Weekday(YearStart(y) + 1) == 5)
  {
    DatesStayAfterYearStart(y, i);
    DatesStayBeforeYearEnd(y, i);
    if DateOf(y, RULES[i]) > YearStart(y) {
      HolidayInItsYear(y, i);
    } else {
      ObservedNewYearIsOpen(y - 1);
      OpenIsNoHoliday(YearStart(y));
    }
  }

  lemma {:induction false} LookupInYear(y: int, d: int)
    requires YearStart(y) < d <= YearStart(y + 1)
    ensures IsHoliday(d) <==> d in Table(y)
  {
    YearOfIs(d, y);
  }

  lemma {:induction false} OpenIsNoHoliday(d: int)
    requires IsBusinessDay(false, d)
    ensures !IsHoliday(d)
  {
  }
}
