/** Civil dates and day numbers.  A day is its proleptic Gregorian ordinal (0001-01-01 is day 1), the number
    Python's date.toordinal gives; both programs work in one civil zone. */
module Dates {

  datatype Date = Date(year: int, month: int, day: int)

  /** The years a Python date can hold. */
  const MIN_YEAR := 1
  const MAX_YEAR := 9999

  predicate IsLeapYear(y: int) {
    (y % 4 == 0 && y % 100 != 0) || y % 400 == 0
  }

  /** Days before 1 January of year y. */
  function YearStart(y: int): int {
    365 * (y - 1) + (y - 1) / 4 - (y - 1) / 100 + (y - 1) / 400
  }

  function DaysInYear(y: int): int {
    if IsLeapYear(y) then 366 else 365
  }

  function DaysInMonth(y: int, m: int): (r: int)
    ensures 28 <= r <= 31
  {
    if m == 2 then (if IsLeapYear(y) then 29 else 28)
    else if m == 4 || m == 6 || m == 9 || m == 11 then 30
    else 31
  }

  /** Days before the first of month m in year y. */
  function MonthStart(y: int, m: nat): int {
    if m <= 1 then 0 else MonthStart(y, m - 1) + DaysInMonth(y, m - 1)
  }

  predicate Valid(d: Date) {
    1 <= d.month <= 12 && 1 <= d.day <= DaysInMonth(d.year, d.month)
  }

  function Ordinal(d: Date): int
    requires Valid(d)
  {
    YearStart(d.year) + MonthStart(d.year, d.month) + d.day
  }

  lemma {:induction false} NextQuotient(k: int, m: int)
    requires m == 4 || m == 100 || m == 400
    ensures (k + 1) / m == k / m + if (k + 1) % m == 0 then 1 else 0
  {
    if m == 4 {
      assert (k + 1) / 4 == k / 4 + if (k + 1) % 4 == 0 then 1 else 0;
    } else if m == 100 {
      assert (k + 1) / 100 == k / 100 + if (k + 1) % 100 == 0 then 1 else 0;
    }
  }

  lemma {:induction false} YearLength(y: int)
    ensures YearStart(y + 1) == YearStart(y) + DaysInYear(y)
  {
    NextQuotient(y - 1, 4);
    NextQuotient(y - 1, 100);
    NextQuotient(y - 1, 400);
    Multiples(25 * (y / 100), 4 * (y / 400));
  }

  lemma {:induction false} Multiples(s: int, t: int)
    ensures (4 * s) % 4 == 0 && (100 * t) % 100 == 0
  {
  }

  lemma {:induction false} YearsIncrease(x: int, y: int)
    requires x < y
    ensures YearStart(x) + 365 <= YearStart(y)
    decreases y - x
  {
    YearLength(y - 1);
    if x < y - 1 {
      YearsIncrease(x, y - 1);
    }
  }

  /** The year holding day n: an estimate from the 400-year cycle, off by at most one. */
  function YearOf(n: int): int {
    var y := (n - 1) * 400 / 146097 + 1;
    if n <= YearStart(y) then y - 1 else if n > YearStart(y + 1) then y + 1 else y
  }

  lemma {:induction false} YearBounds(y: int)
    ensures 146097 * (y - 1) - 700 < 400 * YearStart(y) <= 146097 * (y - 1) + 396
  {
    var a, b, c := (y - 1) / 4, (y - 1) / 100, (y - 1) / 400;
    assert 4 * a <= y - 1 <= 4 * a + 3;
    assert 100 * b <= y - 1 <= 100 * b + 99;
    assert 400 * c <= y - 1 <= 400 * c + 399;
    assert YearStart(y) == 365 * (y - 1) + a - b + c;
  }

  lemma {:induction false} YearOfHolds(n: int)
    ensures YearStart(YearOf(n)) < n <= YearStart(YearOf(n) + 1)
  {
    var y := (n - 1) * 400 / 146097 + 1;
    assert 146097 * (y - 1) <= 400 * (n - 1) < 146097 * y;
    YearBounds(y - 1);
    YearBounds(y);
    YearBounds(y + 1);
    YearBounds(y + 2);
  }

  lemma {:induction false} YearOfIs(n: int, y: int)
    requires YearStart(y) < n <= YearStart(y + 1)
    ensures YearOf(n) == y
  {
    YearOfHolds(n);
    var z := YearOf(n);
    if z < y {
      YearsIncrease(z, y);
      YearsIncrease(z + 1, y + 1);
    }
    if y < z {
      YearsIncrease(y, z);
      YearsIncrease(y + 1, z + 1);
    }
  }

  lemma {:induction false} YearIsNotNegative(n: int)
    requires n >= 0
    ensures YearOf(n) >= 0
  {
    assert YearStart(0) == -366;
  }

  /** The days a Python date can hold. */
  type Day = n: int | YearStart(MIN_YEAR) < n <= YearStart(MAX_YEAR + 1) witness 1

  lemma {:induction false} YearOfDay(n: Day)
    ensures MIN_YEAR <= YearOf(n) <= MAX_YEAR
  {
    YearOfHolds(n);
    var y := YearOf(n);
    if y < MIN_YEAR && y + 1 < MIN_YEAR {
      YearsIncrease(y + 1, MIN_YEAR);
    }
    if MAX_YEAR < y && MAX_YEAR + 1 < y {
      YearsIncrease(MAX_YEAR + 1, y);
    }
  }

  // ---------------------------------------------------------------- months

  /** The month of year y holding its k-th day, searched from month m. */
  function MonthOf(y: int, m: nat, k: int): (r: nat)
    requires 1 <= m <= 12 && MonthStart(y, m) < k <= DaysInYear(y)
    ensures m <= r <= 12 && MonthStart(y, r) < k <= MonthStart(y, r) + DaysInMonth(y, r)
    decreases 12 - m
  {
    if k <= MonthStart(y, m) + DaysInMonth(y, m) then m else
      MonthsFillTheYear(y);
      MonthOf(y, m + 1, k)
  }

  lemma {:induction false} MonthsFillTheYear(y: int)
    ensures MonthStart(y, 12) + 31 == DaysInYear(y)
  {
    assert MonthStart(y, 2) == 31;
    assert MonthStart(y, 3) == 31 + DaysInMonth(y, 2);
    assert MonthStart(y, 5) == MonthStart(y, 3) + 61;
    assert MonthStart(y, 7) == MonthStart(y, 5) + 61;
    assert MonthStart(y, 9) == MonthStart(y, 7) + 62;
    assert MonthStart(y, 11) == MonthStart(y, 9) + 61;
  }

  lemma {:induction false} MonthsIncrease(y: int, m: nat, n: nat)
    requires 1 <= m < n <= 13
    ensures MonthStart(y, m) + DaysInMonth(y, m) <= MonthStart(y, n)
    decreases n
  {
    if m < n - 1 {
      MonthsIncrease(y, m, n - 1);
    }
  }

  lemma {:induction false} InsideTheYear(d: Date)
    requires Valid(d)
    ensures YearStart(d.year) < Ordinal(d) <= YearStart(d.year + 1)
  {
    MonthsFillTheYear(d.year);
    YearLength(d.year);
    if d.month < 12 {
      MonthsIncrease(d.year, d.month, 12);
    }
    if 1 < d.month {
      MonthsIncrease(d.year, 1, d.month);
    }
  }

  function DayOfYear(n: int): (k: int)
    ensures 1 <= k <= DaysInYear(YearOf(n))
  {
    YearOfHolds(n);
    YearLength(YearOf(n));
    n - YearStart(YearOf(n))
  }

  /** The civil date of a day number. */
  function Civil(n: int): (d: Date)
    ensures Valid(d)
  {
    var y := YearOf(n);
    var m := MonthOf(y, 1, DayOfYear(n));
    Date(y, m, DayOfYear(n) - MonthStart(y, m))
  }

  lemma {:induction false} OrdinalOfCivil(n: int)
    ensures Ordinal(Civil(n)) == n
  {
  }

  lemma {:induction false} MonthOfIs(y: int, m: nat, k: int)
    requires 1 <= m <= 12 && 0 < k <= DaysInYear(y) && MonthStart(y, m) < k <= MonthStart(y, m) + DaysInMonth(y, m)
    ensures MonthOf(y, 1, k) == m
  {
    var r := MonthOf(y, 1, k);
    if r < m {
      MonthsIncrease(y, r, m);
    }
    if m < r {
      MonthsIncrease(y, m, r);
    }
  }

  lemma {:induction false} CivilOfOrdinal(d: Date)
    requires Valid(d)
    ensures Civil(Ordinal(d)) == d
  {
    var n := Ordinal(d);
    InsideTheYear(d);
    YearOfIs(n, d.year);
    MonthOfIs(d.year, d.month, DayOfYear(n));
  }
}
