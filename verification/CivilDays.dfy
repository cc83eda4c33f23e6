/** Weekdays and holidays by civil date: Zeller's congruence, and the federal holidays as months and days. */
module CivilDays {
  import opened Dates
  import opened Calendar
  import opened BusinessDays

  // ---------------------------------------------------------------- weekdays

  /** Zeller's congruence, Monday as 0: January and February count as months 13 and 14 of the year before. */
  function Zeller(y: int, m: int, d: int): int {
    var yy, mm := if m <= 2 then y - 1 else y, if m <= 2 then m + 12 else m;
    (d + 13 * (mm + 1) / 5 + yy + yy / 4 - yy / 100 + yy / 400 + 5) % 7
  }

  /** Days before the first of a month of a common year. */
  function Before(m: int): int
    requires 1 <= m <= 12
  {
    [0, 31, 59, 90, 120, 151, 181, 212, 243, 273, 304, 334][m - 1]
  }

  lemma {:induction false} MonthStartIs(y: int, m: int)
    requires 1 <= m <= 12
    ensures MonthStart(y, m) == Before(m) + if m > 2 && IsLeapYear(y) then 1 else 0
    decreases m
  {
    if m > 1 {
      MonthStartIs(y, m - 1);
    }
  }

  /** The leap days up to and including a year. */
  function Leaps(y: int): int {
    y / 4 - y / 100 + y / 400
  }

  lemma {:induction false} YearStartIs(y: int)
    ensures YearStart(y) == 365 * (y - 1) + Leaps(y - 1)
    ensures Leaps(y) == Leaps(y - 1) + if IsLeapYear(y) then 1 else 0
  {
    YearLength(y);
    assert YearStart(y + 1) == 365 * y + Leaps(y);
  }

  lemma {:induction false} MonthTerm(m: int)
    requires 3 <= m <= 12
    ensures (13 * (m + 1) / 5 + 5 - (Before(m) - 2)) % 7 == 0
  {
  }

  lemma {:induction false} SevenDivides(x: int, k: int)
    ensures (x + 7 * k) % 7 == x % 7
  {
  }

  /** The weekday of every civil date is Zeller's. */
  lemma {:induction false} WeekdayIsZeller(date: Date)
    requires Valid(date)
    ensures Weekday(Ordinal(date)) == Zeller(date.year, date.month, date.day)
  {
    var y, m, d := date.year, date.month, date.day;
    MonthStartIs(y, m);
    YearStartIs(y);
    if m <= 2 {
      var yy := y - 1;
      assert 13 * (m + 13) / 5 == if m == 1 then 36 else 39;
      assert Ordinal(date) - 1 == 365 * yy + Leaps(yy) + Before(m) + d - 1;
      SevenDivides(yy + Leaps(yy) + Before(m) + d - 1, 52 * yy);
      SevenDivides(yy + Leaps(yy) + Before(m) + d - 1, if m == 1 then 6 else 2);
    } else {
      MonthTerm(m);
      var k := (13 * (m + 1) / 5 + 5 - (Before(m) - 2)) / 7;
      assert 13 * (m + 1) / 5 + 5 == Before(m) - 2 + 7 * k;
      var x := y + Leaps(y) + Before(m) + d - 2;
      assert Ordinal(date) - 1 == x + 7 * (52 * (y - 1));
      SevenDivides(x, 52 * (y - 1));
      SevenDivides(x, k);
    }
  }

  // ---------------------------------------------------------------- holidays

  /** A fixed holiday as observed: itself on a weekday, the Friday before a Saturday, the Monday after a Sunday. */
  predicate ObservedOn(m: int, d: int, w: int, month: int, day: int) {
    m == month && ((d == day && w <= 4) || (d == day - 1 && w == 4) || (d == day + 1 && w == 0))
  }

  /** The federal holidays, on a date of weekday w. */
  predicate FederalHoliday(m: int, d: int, w: int) {
    || ObservedOn(m, d, w, 1, 1)
    || (m == 1 && w == 0 && 15 <= d <= 21)     // Martin Luther King Jr. Day
    || (m == 2 && w == 0 && 15 <= d <= 21)     // Washington's Birthday
    || (m == 5 && w == 0 && 25 <= d <= 31)     // Memorial Day
    || ObservedOn(m, d, w, 6, 19)
    || ObservedOn(m, d, w, 7, 4)
    || (m == 9 && w == 0 && 1 <= d <= 7)       // Labor Day
    || ColumbusDay(m, d, w)
    || ObservedOn(m, d, w, 11, 11)
    || (m == 11 && w == 3 && 22 <= d <= 28)    // Thanksgiving
    || ObservedOn(m, d, w, 12, 25)
  }

  predicate ColumbusDay(m: int, d: int, w: int) {
    m == 10 && w == 0 && 8 <= d <= 14
  }

  lemma {:induction false} SameDay(a: Date, b: Date)
    requires Valid(a) && Valid(b)
    ensures Ordinal(a) == Ordinal(b) <==> a == b
  {
    CivilOfOrdinal(a);
    CivilOfOrdinal(b);
  }

  lemma {:induction false} ObservedCases(f: int, n: int)
    ensures Observed(f) == n <==> (n == f && Weekday(n) <= 4) || (n == f - 1 && Weekday(n) == 4) || (n == f + 1 && Weekday(n) == 0)
  {
  }

  lemma {:induction false} Neighbours(y: int, month: int, day: int)
    requires 1 <= month <= 12 && 1 <= day <= 27
    ensures Ordinal(Date(y, month, day + 1)) == Ordinal(Date(y, month, day)) + 1
  {
  }

  lemma {:induction false} FixedIs(y: int, month: int, day: int, date: Date)
    requires 1 <= month <= 12 && 2 <= day <= 27 && Valid(date) && date.year == y
    ensures Observed(Ordinal(Date(y, month, day))) == Ordinal(date) <==> ObservedOn(date.month, date.day, Weekday(Ordinal(date)), month, day)
  {
    ObservedCases(Ordinal(Date(y, month, day)), Ordinal(date));
    Neighbours(y, month, day);
    Neighbours(y, month, day - 1);
    SameDay(Date(y, month, day), date);
    SameDay(Date(y, month, day - 1), date);
    SameDay(Date(y, month, day + 1), date);
  }

  lemma {:induction false} NewYearIs(y: int, date: Date)
    requires Valid(date) && date.year == y
    ensures Observed(Ordinal(Date(y, 1, 1))) == Ordinal(date) <==> ObservedOn(date.month, date.day, Weekday(Ordinal(date)), 1, 1)
  {
    ObservedCases(Ordinal(Date(y, 1, 1)), Ordinal(date));
    InsideTheYear(date);
    FirstDay(y);
    Neighbours(y, 1, 1);
    SameDay(Date(y, 1, 1), date);
    SameDay(Date(y, 1, 2), date);
  }

  lemma {:induction false} FirstDay(y: int)
    ensures Ordinal(Date(y, 1, 1)) == YearStart(y) + 1
  {
  }

  /** The nth weekday of a month lies in its nth seven days, and is the only such weekday there. */
  lemma {:induction false} NthIs(y: int, month: int, nth: int, wd: int, date: Date)
    requires 1 <= month <= 12 && 1 <= nth <= 4 && 0 <= wd < 7 && Valid(date) && date.year == y
    ensures NthWeekday(y, month, wd, nth) == Ordinal(date)
            <==> date.month == month && Weekday(Ordinal(date)) == wd && 7 * (nth - 1) < date.day <= 7 * nth
  {
    var f := FirstOfMonth(y, month);
    var k := (wd - Weekday(f)) % 7;
    var day := 1 + 7 * (nth - 1) + k;
    assert Ordinal(Date(y, month, day)) == NthWeekday(y, month, wd, nth);
    SameDay(Date(y, month, day), date);
    NthWeekdayIs(y, month, wd, nth);
    if date.month == month && Weekday(Ordinal(date)) == wd && 7 * (nth - 1) < date.day <= 7 * nth {
      assert Ordinal(date) - Ordinal(Date(y, month, day)) == date.day - day;
      OneInSeven(Ordinal(date), Ordinal(Date(y, month, day)));
    }
  }

  lemma {:induction false} OneInSeven(a: int, b: int)
    requires Weekday(a) == Weekday(b) && -7 < a - b < 7
    ensures a == b
  {
  }

  lemma {:induction false} LastMondayOfMay(y: int, date: Date)
    requires Valid(date) && date.year == y
    ensures NthWeekday(y, 5, 0, -1) == Ordinal(date) <==> date.month == 5 && Weekday(Ordinal(date)) == 0 && 25 <= date.day <= 31
  {
    var k := Weekday(LastOfMonth(y, 5)) % 7;
    var day := 31 - k;
    assert Ordinal(Date(y, 5, day)) == NthWeekday(y, 5, 0, -1);
    SameDay(Date(y, 5, day), date);
    NthWeekdayIs(y, 5, 0, -1);
    if date.month == 5 && Weekday(Ordinal(date)) == 0 && 25 <= date.day <= 31 {
      assert Ordinal(date) - Ordinal(Date(y, 5, day)) == date.day - day;
      OneInSeven(Ordinal(date), Ordinal(Date(y, 5, day)));
    }
  }

  /** A rule closes a date exactly when the date is that holiday. */
  predicate Named(i: nat, m: int, d: int, w: int)
    requires i < 11
  {
    match i
    case 0 => ObservedOn(m, d, w, 1, 1)
    case 1 => m == 1 && w == 0 && 15 <= d <= 21
    case 2 => m == 2 && w == 0 && 15 <= d <= 21
    case 3 => m == 5 && w == 0 && 25 <= d <= 31
    case 4 => ObservedOn(m, d, w, 6, 19)
    case 5 => ObservedOn(m, d, w, 7, 4)
    case 6 => m == 9 && w == 0 && 1 <= d <= 7
    case 7 => ColumbusDay(m, d, w)
    case 8 => ObservedOn(m, d, w, 11, 11)
    case 9 => m == 11 && w == 3 && 22 <= d <= 28
    case _ => ObservedOn(m, d, w, 12, 25)
  }

  lemma {:induction false} RuleIs(y: int, i: nat, date: Date)
    requires i < 11 && Valid(date) && date.year == y
    ensures DateOf(y, RULES[i]) == Ordinal(date) <==> Named(i, date.month, date.day, Weekday(Ordinal(date)))
  {
    match i
    case 0 => NewYearIs(y, date);
    case 1 => NthIs(y, 1, 3, 0, date);
    case 2 => NthIs(y, 2, 3, 0, date);
    case 3 => LastMondayOfMay(y, date);
    case 4 => FixedIs(y, 6, 19, date);
    case 5 => FixedIs(y, 7, 4, date);
    case 6 => NthIs(y, 9, 1, 0, date);
    case 7 => NthIs(y, 10, 2, 0, date);
    case 8 => FixedIs(y, 11, 11, date);
    case 9 => NthIs(y, 11, 4, 3, date);
    case _ => FixedIs(y, 12, 25, date);
  }

  lemma {:induction false} SomeRule(m: int, d: int, w: int)
    ensures FederalHoliday(m, d, w) <==> exists i: nat | i < 11 :: Named(i, m, d, w)
  {
    assert Named(0, m, d, w) || Named(1, m, d, w) || Named(2, m, d, w) || Named(3, m, d, w) || Named(4, m, d, w) || Named(5, m, d, w)
           || Named(6, m, d, w) || Named(7, m, d, w) || Named(8, m, d, w) || Named(9, m, d, w) || Named(10, m, d, w)
           <==> FederalHoliday(m, d, w);
  }

  lemma {:induction false} InItsTable(date: Date)
    requires Valid(date)
    ensures IsHoliday(Ordinal(date)) <==> Ordinal(date) in Table(date.year)
    ensures YearOf(Ordinal(date)) == date.year
  {
    InsideTheYear(date);
    YearOfIs(Ordinal(date), date.year);
  }

  /** Every civil date of every year: the lookup says holiday exactly on the federal holidays as observed, the New Year's
      Day observed in the old year aside. */
  lemma {:induction false} HolidaysAreFederal(date: Date)
    requires Valid(date)
    ensures IsHoliday(Ordinal(date)) <==> FederalHoliday(date.month, date.day, Zeller(date.year, date.month, date.day))
  {
    var y, n, w := date.year, Ordinal(date), Zeller(date.year, date.month, date.day);
    WeekdayIsZeller(date);
    InItsTable(date);
    SomeRule(date.month, date.day, w);
    if n in Table(y) {
      TableIsClosed(y, |RULES|, n);
      var i :| 0 <= i < 11 && Closed(y)[i] == n;
      RuleIs(y, i, date);
    }
    if i: nat :| i < 11 && Named(i, date.month, date.day, w) {
      RuleIs(y, i, date);
      TableHolds(y, |RULES|, i);
    }
  }

  /** The name in the table is that of the last rule on the date. */
  lemma {:induction false} NameOf(y: int, k: nat, n: int) returns (i: nat)
    requires k <= |RULES| && n in TableOf(y, k)
    ensures i < k && DateOf(y, RULES[i]) == n && TableOf(y, k)[n] == RULES[i].name && forall j | i < j < k :: DateOf(y, RULES[j]) != n
    decreases k
  {
    if DateOf(y, RULES[k - 1]) == n {
      i := k - 1;
    } else {
      i := NameOf(y, k - 1, n);
    }
  }

  /** Only one rule bears the name that Q5 looks for. */
  lemma {:induction false} ColumbusIsFederal(date: Date)
    requires Valid(date)
    ensures IsColumbusDay(Ordinal(date)) <==> ColumbusDay(date.month, date.day, Zeller(date.year, date.month, date.day))
  {
    var y, n := date.year, Ordinal(date);
    WeekdayIsZeller(date);
    InItsTable(date);
    RuleIs(y, 7, date);
    if n in Table(y) {
      var i := NameOf(y, |RULES|, n);
      RuleIs(y, i, date);
      assert RULES[i].name == "Columbus Day" <==> i == 7;
      RuleIs(y, 8, date);
      RuleIs(y, 9, date);
      RuleIs(y, 10, date);
    } else if ColumbusDay(date.month, date.day, Zeller(date.year, date.month, date.day)) {
      TableHolds(y, |RULES|, 7);
    }
  }

  /** A business day is a Monday to Friday that is no federal holiday -- or, with Q5, the Columbus Day the legacy core misses. */
  lemma {:induction false} BusinessDaysByDate(q5: bool, date: Date)
    requires Valid(date)
    ensures var w := Zeller(date.year, date.month, date.day);
            IsBusinessDay(q5, Ordinal(date))
            <==> w <= 4 && (!FederalHoliday(date.month, date.day, w) || (q5 && ColumbusDay(date.month, date.day, w)))
  {
    WeekdayIsZeller(date);
    HolidaysAreFederal(date);
    ColumbusIsFederal(date);
  }
}
