/** internal/bizdate (calendar.go, holidays.go) and its Python twin: business days, the cut-off, and the legacy variant. */
module Calendar {
  import opened Dates
  import opened Sorting

  // ---------------------------------------------------------------- holiday rules

  /** Monday is 0. */
  function Weekday(n: int): (w: int)
    ensures 0 <= w < 7
  {
    (n - 1) % 7
  }

  datatype Rule =
    | Fixed(name: string, month: int, day: int)
    | Nth(name: string, month: int, nth: int, weekday: int)

  const RULES: seq<Rule> := [
    Fixed("New Year's Day", 1, 1), Nth("Martin Luther King Jr. Day", 1, 3, 0), Nth("Washington's Birthday", 2, 3, 0),
    Nth("Memorial Day", 5, -1, 0), Fixed("Juneteenth", 6, 19), Fixed("Independence Day", 7, 4), Nth("Labor Day", 9, 1, 0),
    Nth("Columbus Day", 10, 2, 0), Fixed("Veterans Day", 11, 11), Nth("Thanksgiving", 11, 4, 3), Fixed("Christmas Day", 12, 25)]

  predicate RuleOk(r: Rule) {
    1 <= r.month <= 12 && match r
                          case Fixed(_, _, day) => 1 <= day <= 28
                          case Nth(_, _, nth, wd) => (nth == -1 || 1 <= nth <= 4) && 0 <= wd < 7
  }

  /** Saturday falls back to Friday, Sunday moves forward to Monday. */
  function Observed(n: int): (r: int)
    ensures Weekday(r) < 5 && -1 <= r - n <= 1
  {
    if Weekday(n) == 5 then n - 1 else if Weekday(n) == 6 then n + 1 else n
  }

  function FirstOfMonth(y: int, m: int): int
    requires 1 <= m <= 12
  {
    Ordinal(Date(y, m, 1))
  }

  function LastOfMonth(y: int, m: int): int
    requires 1 <= m <= 12
  {
    FirstOfMonth(y, m) + DaysInMonth(y, m) - 1
  }

  /** The nth given weekday of a month; -1 is the last one. */
  function NthWeekday(y: int, m: int, wd: int, nth: int): int
    requires 1 <= m <= 12
  {
    if nth == -1 then LastOfMonth(y, m) - (Weekday(LastOfMonth(y, m)) - wd) % 7
    else FirstOfMonth(y, m) + (wd - Weekday(FirstOfMonth(y, m))) % 7 + 7 * (nth - 1)
  }

  /** It is the day it says it is: the right weekday, in the nth (or last) seven days of the month. */
  lemma {:induction false} NthWeekdayIs(y: int, m: int, wd: int, nth: int)
    requires 1 <= m <= 12 && 0 <= wd < 7
    ensures Weekday(NthWeekday(y, m, wd, nth)) == wd
    ensures nth != -1 ==> FirstOfMonth(y, m) + 7 * (nth - 1) <= NthWeekday(y, m, wd, nth) < FirstOfMonth(y, m) + 7 * nth
    ensures nth == -1 ==> LastOfMonth(y, m) - 7 < NthWeekday(y, m, wd, nth) <= LastOfMonth(y, m) == Ordinal(Date(y, m, DaysInMonth(y, m)))
  {
    var f, l := FirstOfMonth(y, m), LastOfMonth(y, m);
    ShiftForward(f, wd, nth - 1);
    ShiftBack(l, wd);
  }

  lemma {:induction false} ShiftForward(f: int, wd: int, k: int)
    requires 0 <= wd < 7
    ensures Weekday(f + (wd - Weekday(f)) % 7 + 7 * k) == wd
  {
  }

  lemma {:induction false} ShiftBack(l: int, wd: int)
    requires 0 <= wd < 7
    ensures Weekday(l - (Weekday(l) - wd) % 7) == wd
  {
  }

  method WalkForward(start: int, wd: int) returns (d: int)
    requires 0 <= wd < 7
    ensures d == start + (wd - Weekday(start)) % 7
  {
    d := start;
    while Weekday(d) != wd
      invariant start <= d && d + (wd - Weekday(d)) % 7 == start + (wd - Weekday(start)) % 7
      decreases (wd - Weekday(d)) % 7
    {
      OneStep(d, wd);
      d := d + 1;
    }
  }

  method WalkBack(start: int, wd: int) returns (d: int)
    requires 0 <= wd < 7
    ensures d == start - (Weekday(start) - wd) % 7
  {
    d := start;
    while Weekday(d) != wd
      invariant d <= start && d - (Weekday(d) - wd) % 7 == start - (Weekday(start) - wd) % 7
      decreases (Weekday(d) - wd) % 7
    {
      OneStep(d, wd);
      d := d - 1;
    }
  }

  lemma {:induction false} OneStep(d: int, wd: int)
    requires 0 <= wd < 7 && Weekday(d) != wd
    ensures (wd - Weekday(d + 1)) % 7 == (wd - Weekday(d)) % 7 - 1
    ensures (Weekday(d - 1) - wd) % 7 == (Weekday(d) - wd) % 7 - 1
  {
    NextWeekday(d);
    NextWeekday(d - 1);
    Residue(wd - Weekday(d));
    Residue(wd - Weekday(d + 1));
    Residue(Weekday(d) - wd);
    Residue(Weekday(d - 1) - wd);
  }

  lemma {:induction false} NextWeekday(d: int)
    ensures Weekday(d + 1) == if Weekday(d) == 6 then 0 else Weekday(d) + 1
  {
  }

  lemma {:induction false} Residue(a: int)
    requires -7 < a < 7
    ensures a % 7 == if a < 0 then a + 7 else a
  {
  }

  /** nthWeekday as the source walks it. */
  method FindNthWeekday(y: int, m: int, wd: int, nth: int) returns (d: int)
    requires 1 <= m <= 12 && 0 <= wd < 7
    ensures d == NthWeekday(y, m, wd, nth)
  {
    if nth == -1 {
      d := WalkBack(LastOfMonth(y, m), wd);
    } else {
      d := WalkForward(FirstOfMonth(y, m), wd);
      d := d + 7 * (nth - 1);
    }
  }

  function DateOf(y: int, r: Rule): int
    requires RuleOk(r)
  {
    match r
    case Fixed(_, m, day) => Observed(Ordinal(Date(y, m, day)))
    case Nth(_, m, nth, wd) => NthWeekday(y, m, wd, nth)
  }

  /** The table after the first n rules; a later rule overwrites an earlier one on the same date. */
  function TableOf(y: int, n: nat): map<int, string>
    requires n <= |RULES|
  {
    if n == 0 then map[] else TableOf(y, n - 1)[DateOf(y, RULES[n - 1]) := RULES[n - 1].name]
  }

  /** holidaysIn: the observed dates of year y's holidays, some of which may fall in a neighbouring year. */
  function Table(y: int): map<int, string> {
    TableOf(y, |RULES|)
  }

  method HolidaysIn(y: int) returns (t: map<int, string>)
    ensures t == Table(y)
  {
    t := map[];
    for i := 0 to |RULES|
      invariant t == TableOf(y, i)
    {
      t := t[DateOf(y, RULES[i]) := RULES[i].name];
    }
  }

  // ---------------------------------------------------------------- business days

  /** The lookup is by the date's own year. */
  predicate IsHoliday(n: int) {
    n in Table(YearOf(n))
  }

  predicate IsColumbusDay(n: int) {
    IsHoliday(n) && Table(YearOf(n))[n] == "Columbus Day"
  }

  /** A business day: documented, or with Q5 as the legacy core sees it. */
  predicate IsBusinessDay(q5: bool, n: int) {
    Weekday(n) < 5 && (!IsHoliday(n) || (q5 && IsColumbusDay(n)))
  }

  /** The days a year's table can close. */
  function Closed(y: int): (r: seq<int>)
    ensures |r| == 11 && forall i | 0 <= i < 11 :: r[i] == DateOf(y, RULES[i])
  {
    seq(11, i requires 0 <= i < 11 => DateOf(y, RULES[i]))
  }

  lemma {:induction false} TableIsClosed(y: int, n: nat, d: int)
    requires n <= |RULES| && d in TableOf(y, n)
    ensures d in Closed(y)
    decreases n
  {
    if d == DateOf(y, RULES[n - 1]) {
      assert Closed(y)[n - 1] == d;
    } else {
      TableIsClosed(y, n - 1, d);
    }
  }

  lemma {:induction false} Pigeonhole(pigeons: seq<int>, holes: seq<int>)
    requires NoDuplicates(pigeons) && forall p | p in pigeons :: p in holes
    ensures |pigeons| <= |holes|
    decreases |pigeons|
  {
    if pigeons != [] {
      var front, last := pigeons[..|pigeons| - 1], pigeons[|pigeons| - 1];
      assert last in pigeons;
      var i :| 0 <= i < |holes| && holes[i] == last;
      var rest := holes[..i] + holes[i + 1..];
      forall p | p in front ensures p in rest {
        var k :| 0 <= k < |front| && front[k] == p;
        assert pigeons[k] == p && p in pigeons;
        var j :| 0 <= j < |holes| && holes[j] == p;
        assert j != i;
        assert rest[if j < i then j else j - 1] == p;
      }
      Pigeonhole(front, rest);
    }
  }

  /** The k-th weekday of five full weeks starting on a Monday. */
  function WeekdayAt(monday: int, k: nat): int {
    monday + 7 * (k / 5) + k % 5
  }

  const HORIZON := 39

  /** A weekday that is not open is in one of two tables. */
  lemma {:induction false} ClosedWeekday(n: int, d: int)
    requires n < d <= n + HORIZON && Weekday(d) < 5 && !IsBusinessDay(false, d)
    ensures d in Closed(YearOf(n + 1)) + Closed(YearOf(n + 1) + 1)
  {
    TwoYears(n, d);
    TableIsClosed(YearOf(d), |RULES|, d);
  }

  function FiveWeeks(monday: int): (r: seq<int>)
    ensures |r| == 25 && forall k | 0 <= k < 25 :: r[k] == WeekdayAt(monday, k)
  {
    seq(25, k requires 0 <= k < 25 => WeekdayAt(monday, k))
  }

  lemma {:induction false} FiveWeeksDiffer(monday: int)
    ensures NoDuplicates(FiveWeeks(monday))
  {
    var days := FiveWeeks(monday);
    forall i, j | 0 <= i < j < 25 ensures days[i] != days[j] {
      assert i / 5 < j / 5 || (i / 5 == j / 5 && i % 5 < j % 5);
    }
  }

  lemma {:induction false} NotAllClosed(n: int, monday: int)
    requires n < monday <= n + 7 && Weekday(monday) == 0
    ensures exists k | 0 <= k < 25 :: IsBusinessDay(false, WeekdayAt(monday, k))
  {
    var days := FiveWeeks(monday);
    var holes := Closed(YearOf(n + 1)) + Closed(YearOf(n + 1) + 1);
    FiveWeeksDiffer(monday);
    if forall k | 0 <= k < 25 :: days[k] in holes {
      Pigeonhole(days, holes);
      assert false;
    }
    var k :| 0 <= k < 25 && days[k] !in holes;
    WeekdayAtIs(monday, k);
    if !IsBusinessDay(false, days[k]) {
      ClosedWeekday(n, days[k]);
    }
  }

  /** Of any 39 consecutive days at least 25 are weekdays and two years' tables close at most 22, so one is open. */
  lemma {:induction false} SomeDayIsOpen(n: int) returns (d: int)
    ensures n < d <= n + HORIZON && IsBusinessDay(false, d)
  {
    var monday := n + 1 + (0 - Weekday(n + 1)) % 7;
    ShiftForward(n + 1, 0, 0);
    NotAllClosed(n, monday);
    var k :| 0 <= k < 25 && IsBusinessDay(false, WeekdayAt(monday, k));
    WeekdayAtIs(monday, k);
    d := WeekdayAt(monday, k);
  }

  lemma {:induction false} WeekdayAtIs(monday: int, k: nat)
    requires Weekday(monday) == 0 && k < 25
    ensures Weekday(WeekdayAt(monday, k)) < 5 && monday <= WeekdayAt(monday, k) <= monday + 32
  {
  }

  lemma {:induction false} TwoYears(n: int, d: int)
    requires n < d <= n + HORIZON
    ensures YearOf(d) == YearOf(n + 1) || YearOf(d) == YearOf(n + 1) + 1
  {
    var y := YearOf(n + 1);
    YearOfHolds(n + 1);
    YearsIncrease(y + 1, y + 2);
    if d <= YearStart(y + 1) {
      YearOfIs(d, y);
    } else {
      YearOfIs(d, y + 1);
    }
  }
}
