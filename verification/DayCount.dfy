/** internal/bizdate day counts and rounding, with their Python mirror in legacy_sim.calendar. */
module DayCount {
  import opened Dates
  import opened Money

  function Abs(x: int): nat {
    if x < 0 then -x else x
  }

  // ---------------------------------------------------------------- what rounding means (den > 0)

  ghost function Off(num: int, den: int, q: int): int {
    num - q * den
  }

  /** q is a nearest integer to num/den. */
  ghost predicate Nearest(num: int, den: int, q: int) {
    -den <= 2 * Off(num, den, q) <= den
  }

  /** roundTiesToEven: nearest, and even when halfway. */
  ghost predicate TiesToEven(num: int, den: int, q: int) {
    Nearest(num, den, q) && (2 * Abs(Off(num, den, q)) == den ==> q % 2 == 0)
  }

  /** roundTiesToAway: nearest, and on the far side of num from zero when halfway. */
  ghost predicate TiesToAway(num: int, den: int, q: int) {
    && Nearest(num, den, q)
    && (2 * Off(num, den, q) == den ==> num < 0)
    && (2 * Off(num, den, q) == -den ==> num > 0)
  }

  lemma {:induction false} Scaled(k: int, den: int)
    requires den > 0
    ensures k >= 2 ==> k * den >= 2 * den
    ensures k <= -2 ==> k * den <= -2 * den
  {
    if k >= 2 {
      assert (k - 2) * den >= 0;
    } else if k <= -2 {
      assert (-2 - k) * den >= 0;
    }
  }

  /** Two nearest integers are equal or are the two neighbours of an exact half. */
  lemma {:induction false} NearestDiffer(num: int, den: int, p: int, q: int)
    requires den > 0 && Nearest(num, den, p) && Nearest(num, den, q) && p < q
    ensures q == p + 1 && 2 * Off(num, den, p) == den && 2 * Off(num, den, q) == -den
  {
    assert Off(num, den, p) - Off(num, den, q) == (q - p) * den;
    Scaled(q - p, den);
  }

  /** Each rule names at most one integer, so it is a specification and not just a bound. */
  lemma {:induction false} RoundingIsUnique(num: int, den: int, p: int, q: int)
    requires den > 0
    ensures TiesToEven(num, den, p) && TiesToEven(num, den, q) ==> p == q
    ensures TiesToAway(num, den, p) && TiesToAway(num, den, q) ==> p == q
  {
    if Nearest(num, den, p) && Nearest(num, den, q) {
      if p < q {
        NearestDiffer(num, den, p, q);
      } else if q < p {
        NearestDiffer(num, den, q, p);
      }
    }
  }

  // ---------------------------------------------------------------- the unbounded (Python) functions

  function EvenMagnitude(n: nat, d: nat): nat
    requires d > 0
  {
    var t, r := n / d, n % d;
    if 2 * r > d || (2 * r == d && t % 2 != 0) then t + 1 else t
  }

  function UpMagnitude(n: nat, d: nat): nat
    requires d > 0
  {
    if 2 * (n % d) >= d then n / d + 1 else n / d
  }

  function RoundHalfEven(num: int, den: int): int
    requires den != 0
  {
    var n, d := if den < 0 then -num else num, if den < 0 then -den else den;
    if n < 0 then 0 - EvenMagnitude(-n, d) else EvenMagnitude(n, d)
  }

  function RoundHalfUp(num: int, den: int): int
    requires den != 0
  {
    var n, d := if den < 0 then -num else num, if den < 0 then -den else den;
    if n < 0 then 0 - UpMagnitude(-n, d) else UpMagnitude(n, d)
  }

  lemma {:induction false} DivMod(n: nat, d: nat)
    requires d > 0
    ensures Off(n, d, n / d) == n % d && Off(n, d, n / d + 1) == n % d - d
  {
    assert (n / d + 1) * d == n / d * d + d;
  }

  lemma {:induction false} OffNegates(num: int, den: int, q: int)
    ensures Off(-num, den, -q) == -Off(num, den, q)
  {
    assert (-q) * den == -(q * den);
  }

  lemma {:induction false} EvenMagnitudeIs(n: int, d: int)
    requires n >= 0 && d > 0
    ensures TiesToEven(n, d, EvenMagnitude(n, d)) && TiesToEven(-n, d, 0 - EvenMagnitude(n, d))
  {
    DivMod(n, d);
    OffNegates(n, d, EvenMagnitude(n, d));
  }

  lemma {:induction false} UpMagnitudeIs(n: int, d: int)
    requires n >= 0 && d > 0
    ensures TiesToAway(n, d, UpMagnitude(n, d)) && TiesToAway(-n, d, 0 - UpMagnitude(n, d))
  {
    DivMod(n, d);
    OffNegates(n, d, UpMagnitude(n, d));
  }

  /** The integer code computes roundTiesToEven for every numerator and every non-zero denominator. */
  lemma {:induction false} RoundHalfEvenIsTiesToEven(num: int, den: int)
    requires den != 0
    ensures if den > 0 then TiesToEven(num, den, RoundHalfEven(num, den)) else TiesToEven(-num, -den, RoundHalfEven(num, den))
  {
    var n, d := if den < 0 then -num else num, if den < 0 then -den else den;
    EvenMagnitudeIs(Abs(n), d);
  }

  /** ... and roundTiesToAway. */
  lemma {:induction false} RoundHalfUpIsTiesToAway(num: int, den: int)
    requires den != 0
    ensures if den > 0 then TiesToAway(num, den, RoundHalfUp(num, den)) else TiesToAway(-num, -den, RoundHalfUp(num, den))
  {
    var n, d := if den < 0 then -num else num, if den < 0 then -den else den;
    UpMagnitudeIs(Abs(n), d);
  }

  /** The two rules differ exactly on ties whose lower quotient is even, and then by one unit away from zero. */
  lemma {:induction false} HalfUpVersusHalfEven(num: int, den: int)
    requires den != 0
    ensures var e, u := RoundHalfEven(num, den), RoundHalfUp(num, den);
            var n, d := Abs(num), Abs(den);
            && Abs(u - e) <= 1 && Abs(u) >= Abs(e)
            && (u != e <==> 2 * (n % d) == d && (n / d) % 2 == 0)
  {
  }

  // ---------------------------------------------------------------- the Go functions, on int64

  /** Go's / truncates toward zero and its % takes the dividend's sign. */
  function GoDiv(n: int, d: int): int
    requires d != 0
  {
    if (n < 0) == (d < 0) then Abs(n) / Abs(d) else -(Abs(n) / Abs(d))
  }

  function GoMod(n: int, d: int): int
    requires d != 0
  {
    if n < 0 then -(Abs(n) % Abs(d)) else Abs(n) % Abs(d)
  }

  /** The doubled remainder, the one intermediate that can wrap between magnitudes, fits. */
  predicate RemainderFits(num: int, den: int)
    requires den != 0
  {
    Fits(2 * (Abs(num) % Abs(den)))
  }

  lemma {:induction false} QuotientFits(n: int, d: int)
    requires 0 <= n <= MAX64 && 0 < d <= MAX64
    ensures 0 <= n / d <= MAX64 && 0 <= n % d < d
    ensures 2 * (n % d) >= d ==> n / d + 1 <= MAX64
  {
    assert n == n / d * d + n % d;
    assert n / d * (d - 1) >= 0;
    assert n / d * (d - 1) == n / d * d - n / d;
  }

  function Magnitude(n: nat, d: nat, even: bool): nat
    requires d > 0
  {
    if even then EvenMagnitude(n, d) else UpMagnitude(n, d)
  }

  /** The tail of the code, once num and den are magnitudes: quotient, remainder, adjustment. */
  function Adjust(num: int, den: int, even: bool): Int64
    requires den != 0
  {
    var q, double := Wrap(GoDiv(num, den)), Wrap(2 * GoMod(num, den));
    if double > den || (double == den && (!even || GoMod(q, 2) != 0)) then Wrap(q + 1) else q
  }

  lemma {:induction false} AdjustIsMagnitude(n: int, d: int, even: bool)
    requires 0 <= n <= MAX64 && 0 < d <= MAX64 && Fits(2 * (n % d))
    ensures Adjust(n, d, even) == Magnitude(n, d, even) <= MAX64
  {
    QuotientFits(n, d);
  }

  lemma {:induction false} AdjustFallsShort(n: int, d: int, even: bool)
    requires 0 <= n <= MAX64 && 0 < d <= MAX64 && !Fits(2 * (n % d))
    ensures Adjust(n, d, even) == n / d <= MAX64
  {
    QuotientFits(n, d);
    var r := 2 * (n % d);
    assert r < TWO64;
    assert Wrap(r) == r - TWO64;
  }

  lemma {:induction false} ProductAtLeast(q: int, d: int)
    requires q >= 1 && d >= 2
    ensures q * d >= 2 * q && q * d >= d
  {
    assert q * (d - 2) >= 0 && q * (d - 2) == q * d - 2 * q;
    assert (q - 1) * d >= 0 && (q - 1) * d == q * d - d;
  }

  lemma {:induction false} HalfAtMost(n: int, d: int)
    requires 2 <= d <= n
    ensures 0 <= 2 * (n / d) <= n && 0 <= 2 * (n % d) < n
  {
    var q, r := n / d, n % d;
    assert n == q * d + r;
    if q >= 1 {
      ProductAtLeast(q, d);
    }
  }

  lemma {:induction false} AdjustOfMin(d: int, even: bool)
    requires 2 <= d <= MAX64
    ensures Adjust(MIN64, d, even) == 0 - (0 - MIN64) / d
  {
    var n := 0 - MIN64;
    HalfAtMost(n, d);
    assert GoDiv(MIN64, d) == 0 - n / d && GoMod(MIN64, d) == 0 - n % d;
    assert Wrap(2 * GoMod(MIN64, d)) == 0 - 2 * (n % d);
  }

  /** Both signs taken off: magnitudes, and whether the result is negative. */
  function SignsOff(num0: int, den0: int): (int, int, bool) {
    var (num, den) := if den0 < 0 then (Wrap(-num0), Wrap(-den0)) else (num0, den0);
    (if num < 0 then Wrap(-num) else num, den, num < 0)
  }

  lemma {:induction false} SignsOffAre(num0: Int64, den0: Int64)
    requires den0 != 0 && num0 != MIN64 && den0 != MIN64
    ensures SignsOff(num0, den0) == (Abs(num0), Abs(den0), num0 != 0 && (num0 < 0) != (den0 < 0))
    ensures 0 <= Abs(num0) <= MAX64 && 0 < Abs(den0) <= MAX64
  {
    NegationFits(num0);
    NegationFits(den0);
    NegationFits(Wrap(0 - num0));
  }

  /** The rounded magnitude is right exactly when the doubled remainder fits. */
  lemma {:induction false} AdjustExactly(n: int, d: int, even: bool)
    requires 0 <= n <= MAX64 && 0 < d <= MAX64
    ensures 0 <= Adjust(n, d, even) <= MAX64 && (Adjust(n, d, even) == Magnitude(n, d, even) <==> Fits(2 * (n % d)))
  {
    if Fits(2 * (n % d)) {
      AdjustIsMagnitude(n, d, even);
    } else {
      AdjustFallsShort(n, d, even);
      WideRemainderRoundsUp(n, d, even);
    }
  }

  function Rounded(num: int, den: int, even: bool): int
    requires den != 0
  {
    if even then RoundHalfEven(num, den) else RoundHalfUp(num, den)
  }

  lemma {:induction false} RoundBySign(num: int, den: int, even: bool)
    requires den != 0
    ensures Rounded(num, den, even)
            == if (num < 0) != (den < 0) then 0 - Magnitude(Abs(num), Abs(den), even) else Magnitude(Abs(num), Abs(den), even)
  {
    if num == 0 {
      assert 0 / Abs(den) == 0 && 0 % Abs(den) == 0;
    }
  }

  /** A doubled remainder beyond int64 is beyond the denominator: the true quotient is the next one up. */
  lemma {:induction false} WideRemainderRoundsUp(n: nat, d: nat, even: bool)
    requires 0 < d <= MAX64 && !Fits(2 * (n % d))
    ensures Magnitude(n, d, even) == n / d + 1
  {
  }

  /** The int64 code as a whole: signs off, adjust, sign back on. */
  function GoRounded(num0: Int64, den0: Int64, even: bool): Int64
    requires den0 != 0
  {
    var (n, d, neg) := SignsOff(num0, den0);
    NegationIsNeverZero(den0);
    var q: int := Adjust(n, d, even);
    if neg then Wrap(-q) else q
  }

  lemma {:induction false} GoRoundedAwayFromMin(num0: Int64, den0: Int64, even: bool)
    requires den0 != 0 && num0 != MIN64 && den0 != MIN64
    ensures GoRounded(num0, den0, even) == Rounded(num0, den0, even) <==> RemainderFits(num0, den0)
  {
    SignsOffAre(num0, den0);
    AdjustExactly(Abs(num0), Abs(den0), even);
    RoundBySign(num0, den0, even);
    ZeroHasNoSign(Abs(num0), Abs(den0), even);
  }

  /** Over all of int64: the code meets its rule exactly on the sound inputs. */
  lemma {:induction false} GoRoundedExactly(num0: Int64, den0: Int64, even: bool)
    requires den0 != 0
    ensures GoRounded(num0, den0, even) == Rounded(num0, den0, even) <==> Sound(num0, den0, even)
  {
    if den0 == MIN64 {
      GoRoundedByMin(num0, even);
      SoundOverMin(num0, even);
    } else if num0 != MIN64 {
      GoRoundedAwayFromMin(num0, den0, even);
    } else {
      SoundOfMin(den0, even);
      if Abs(den0) == 1 {
        GoRoundedOfMinByOne(den0, even);
      } else {
        GoRoundedOfMin(den0, even);
      }
    }
  }

  const TWO62: int := 0x4000_0000_0000_0000

  lemma {:induction false} MinNegates()
    ensures Wrap(0 - MIN64) == MIN64
  {
    assert (0 - MIN64 - MIN64) % TWO64 == 0;
  }

  /** MinInt64 keeps its sign through the first negation and loses it in the last. */
  lemma {:induction false} SignsOffMin(den0: Int64)
    requires den0 != 0 && den0 != MIN64
    ensures SignsOff(MIN64, den0) == (MIN64, Abs(den0), true) && 0 < Abs(den0) <= MAX64
  {
    MinNegates();
    NegationFits(den0);
  }

  lemma {:induction false} GoRoundedOfMin(den0: Int64, even: bool)
    requires den0 != MIN64 && Abs(den0) >= 2
    ensures GoRounded(MIN64, den0, even) == (0 - MIN64) / Abs(den0)
  {
    SignsOffMin(den0);
    HalfAtMost(0 - MIN64, Abs(den0));
    AdjustOfMin(Abs(den0), even);
  }

  lemma {:induction false} GoRoundedOfMinByOne(den0: Int64, even: bool)
    requires Abs(den0) == 1
    ensures GoRounded(MIN64, den0, even) == MIN64
  {
    SignsOffMin(den0);
    assert GoDiv(MIN64, 1) == MIN64 && GoMod(MIN64, 1) == 0;
    MinNegates();
  }

  /** What the code makes of a MinInt64 denominator: one away from zero, except where the doubled remainder is MinInt64. */
  function OverMin(num0: int, even: bool): int {
    if num0 == MIN64 then -2 else
      var q := if even && Abs(num0) == TWO62 then 0 else 1;
      if num0 > 0 then 0 - q else q
  }

  lemma {:induction false} AdjustByMin(n: int, even: bool)
    requires 0 <= n <= MAX64
    ensures Adjust(n, MIN64, even) == if even && n == TWO62 then 0 else 1
  {
    assert n / (0 - MIN64) == 0 && n % (0 - MIN64) == n;
    assert GoDiv(n, MIN64) == 0 && GoMod(n, MIN64) == n;
    assert Wrap(2 * n) == MIN64 <==> n == TWO62;
  }

  lemma {:induction false} GoRoundedByMin(num0: Int64, even: bool)
    ensures GoRounded(num0, MIN64, even) == OverMin(num0, even)
  {
    MinNegates();
    if num0 == MIN64 {
      assert GoDiv(MIN64, MIN64) == 1 && GoMod(MIN64, MIN64) == 0;
      assert SignsOff(MIN64, MIN64) == (MIN64, MIN64, true) && Adjust(MIN64, MIN64, even) == 2;
    } else {
      NegationFits(num0);
      NegationFits(Wrap(0 - num0));
      assert SignsOff(num0, MIN64) == (Abs(num0), MIN64, num0 > 0);
      AdjustByMin(Abs(num0), even);
    }
  }

  predicate RoundsUp(n: nat, d: nat, even: bool)
    requires d > 0
  {
    2 * (n % d) > d || (2 * (n % d) == d && (!even || (n / d) % 2 != 0))
  }

  /** The inputs on which the int64 code meets the rule. */
  predicate Sound(num0: Int64, den0: Int64, even: bool)
    requires den0 != 0
  {
    if den0 == MIN64 then num0 != MIN64 && Abs(num0) >= TWO62
    else if num0 == MIN64 then den0 == 1 || (den0 <= -2 && !RoundsUp(0 - MIN64, Abs(den0), even))
    else RemainderFits(num0, den0)
  }

  lemma {:induction false} SoundOverMin(num0: Int64, even: bool)
    ensures OverMin(num0, even) == Rounded(num0, MIN64, even) <==> Sound(num0, MIN64, even)
  {
    RoundBySign(num0, MIN64, even);
    var m := Abs(num0);
    if num0 == MIN64 {
      assert m / m == 1 && m % m == 0;
    } else {
      assert Fits(num0) && m < 0 - MIN64;
      assert m / (0 - MIN64) == 0 && m % (0 - MIN64) == m;
    }
  }

  lemma {:induction false} SoundOfMin(den0: Int64, even: bool)
    requires den0 != 0 && den0 != MIN64
    ensures (if Abs(den0) == 1 then MIN64 else (0 - MIN64) / Abs(den0)) == Rounded(MIN64, den0, even) <==> Sound(MIN64, den0, even)
  {
    var d := Abs(den0);
    RoundBySign(MIN64, den0, even);
    if d == 1 {
      assert (0 - MIN64) / 1 == 0 - MIN64 && (0 - MIN64) % 1 == 0;
    } else {
      assert Magnitude(0 - MIN64, d, even) == (0 - MIN64) / d + if RoundsUp(0 - MIN64, d, even) then 1 else 0;
      assert Fits(den0) && d <= 0 - MIN64;
      QuotientIsPositive(0 - MIN64, d);
    }
  }

  lemma {:induction false} QuotientIsPositive(n: int, d: int)
    requires 0 < d <= n
    ensures n / d >= 1
  {
  }

  lemma {:induction false} ZeroHasNoSign(n: int, d: int, even: bool)
    requires 0 <= n && 0 < d
    ensures n == 0 ==> Magnitude(n, d, even) == 0 && Adjust(n, d, even) == 0
  {
    if n == 0 {
      assert 0 / d == 0 && 0 % d == 0;
    }
  }

  method GoAdjust(num: int, den: int, even: bool) returns (q: int)
    requires den != 0
    ensures q == Adjust(num, den, even)
  {
    q := Wrap(GoDiv(num, den));
    var double := Wrap(2 * GoMod(num, den));
    if double > den {
      q := Wrap(q + 1);
    } else if double == den && (!even || GoMod(q, 2) != 0) {
      q := Wrap(q + 1);
    }
  }

  /** The statements that take the signs off. */
  method GoSigns(num0: Int64, den0: Int64) returns (num: int, den: int, neg: bool)
    requires den0 != 0
    ensures (num, den, neg) == SignsOff(num0, den0) && den != 0
  {
    num, den := num0, den0;
    NegationIsNeverZero(den0);
    if den < 0 {
      num, den := Wrap(-num), Wrap(-den);
    }
    neg := num < 0;
    if neg {
      num := Wrap(-num);
    }
  }

  /** RoundHalfEven on int64 is the mathematical one exactly on the sound inputs: off MinInt64 those whose doubled remainder
      does not wrap, over MinInt64 those of at least half its size, and of MinInt64 itself only 1 and the negative
      denominators that leave less than a half. */
  method GoRoundHalfEven(num0: Int64, den0: Int64) returns (res: int)
    requires den0 != 0
    ensures res == RoundHalfEven(num0, den0) <==> Sound(num0, den0, true)
    ensures res == GoRounded(num0, den0, true)
    ensures num0 == MIN64 && den0 != MIN64 ==> res == if Abs(den0) == 1 then MIN64 else (0 - MIN64) / Abs(den0)
    ensures den0 == MIN64 ==> res == OverMin(num0, true)
  {
    var num, den, neg := GoSigns(num0, den0);
    var q: int := GoAdjust(num, den, true);
    res := if neg then Wrap(-q) else q;
    GoRoundedCases(num0, den0, true, res);
  }

  method GoRoundHalfUp(num0: Int64, den0: Int64) returns (res: int)
    requires den0 != 0
    ensures res == RoundHalfUp(num0, den0) <==> Sound(num0, den0, false)
    ensures num0 == MIN64 && den0 != MIN64 ==> res == if Abs(den0) == 1 then MIN64 else (0 - MIN64) / Abs(den0)
    ensures den0 == MIN64 ==> res == OverMin(num0, false)
  {
    var num, den, neg := GoSigns(num0, den0);
    var q: int := GoAdjust(num, den, false);
    res := if neg then Wrap(-q) else q;
    GoRoundedCases(num0, den0, false, res);
  }

  lemma {:induction false} GoRoundedCases(num0: Int64, den0: Int64, even: bool, res: int)
    requires den0 != 0 && res == GoRounded(num0, den0, even)
    ensures res == Rounded(num0, den0, even) <==> Sound(num0, den0, even)
    ensures num0 == MIN64 && den0 != MIN64 ==> res == if Abs(den0) == 1 then MIN64 else (0 - MIN64) / Abs(den0)
    ensures den0 == MIN64 ==> res == OverMin(num0, even)
  {
    GoRoundedExactly(num0, den0, even);
    if den0 == MIN64 {
      GoRoundedByMin(num0, even);
    } else if num0 == MIN64 {
      if Abs(den0) == 1 {
        GoRoundedOfMinByOne(den0, even);
      } else {
        GoRoundedOfMin(den0, even);
      }
    }
  }

  // ---------------------------------------------------------------- bases

  datatype Basis = ACT365 | ACTACT | ACT360

  function BasisFor(y: int): Basis {
    if IsLeapYear(y) then ACTACT else ACT365
  }

  /** The denominator of DayCountFraction for a period starting in year y. */
  function Denominator(y: int, b: Basis): int {
    match b
    case ACT365 => 365
    case ACTACT => if IsLeapYear(y) then 366 else 365
    case ACT360 => 360
  }

  /** Quirks.interest_basis: Q3 moves one product to ACT/360, Q6 stays on ACT/365 through a leap year. */
  function LegacyBasis(y: int, q3: bool, q6: bool): Basis {
    if q3 then ACT360 else if q6 && IsLeapYear(y) then ACT365 else BasisFor(y)
  }

  const BASIS_POINTS: int := 10000

  /** Two integers that round to one quotient lie within a denominator of each other. */
  lemma {:induction false} SameRoundingIsNear(x: int, y: int, d: int)
    requires d > 0 && RoundHalfEven(x, d) == RoundHalfEven(y, d)
    ensures Abs(x - y) <= d
  {
    RoundHalfEvenIsTiesToEven(x, d);
    RoundHalfEvenIsTiesToEven(y, d);
  }

  /** 2^63 cancels in the wrap and the lost sign: the one product outside int64 whose interest can still come out right. */
  predicate LuckyWrap(product: int, d: int)
    requires d > 0
  {
    product == 0 - MIN64 && RoundHalfEven(product, d) == product / d
  }

  /** What the int64 code makes of a sum, a rate and a denominator. */
  function InterestCode(sum: Int64, rateBp: Int64, den: int): Int64
    requires 0 < den <= 366
  {
    if rateBp == 0 || sum == 0 then 0 else GoRounded(Wrap(sum * rateBp), BASIS_POINTS * den, true)
  }

  /** InterestFor: the balances are summed first and rounded once; the result is right exactly when the product stays in
      int64 short of MinInt64, one product aside. */
  method InterestFor(sum: Int64, rateBp: Int64, den: int) returns (r: int)
    requires 0 < den <= 366
    ensures r == RoundHalfEven(sum * rateBp, BASIS_POINTS * den) <==>
            MIN64 < sum * rateBp <= MAX64 || LuckyWrap(sum * rateBp, BASIS_POINTS * den)
    ensures r == InterestCode(sum, rateBp, den)
  {
    if rateBp == 0 || sum == 0 {
      return 0;
    }
    r := GoRoundHalfEven(Wrap(sum * rateBp), BASIS_POINTS * den);
    WrappedInterest(sum * rateBp, BASIS_POINTS * den, r);
  }

  lemma {:induction false} WrappedInterest(product: int, d: int, r: int)
    requires 2 <= d <= 3_660_000
    requires Wrap(product) != MIN64 ==> r == RoundHalfEven(Wrap(product), d)
    requires Wrap(product) == MIN64 ==> r == (0 - MIN64) / d
    ensures r == RoundHalfEven(product, d) <==> MIN64 < product <= MAX64 || LuckyWrap(product, d)
  {
    var w := Wrap(product);
    WrapMoves(product);
    if w != MIN64 {
      if r == RoundHalfEven(product, d) {
        SameRoundingIsNear(w, product, d);
      }
    } else if product != 0 - MIN64 {
      RoundHalfEvenIsTiesToEven(product, d);
      FarFromQuotient(product, d);
    }
  }

  /** Wrapping leaves a value of int64 alone and moves any other by at least 2^64. */
  lemma {:induction false} WrapMoves(x: int)
    ensures Fits(x) ==> Wrap(x) == x
    ensures !Fits(x) ==> Abs(x - Wrap(x)) >= TWO64
    ensures Wrap(x) == MIN64 && x != MIN64 && x != 0 - MIN64 ==> Abs(x - (0 - MIN64)) >= TWO64
  {
    var k := (x - MIN64) / TWO64;
    assert x - MIN64 == TWO64 * k + (x - MIN64) % TWO64;
    assert x - Wrap(x) == TWO64 * k;
  }

  /** floor(2^63 / d) is nearest to no product that far away. */
  lemma {:induction false} FarFromQuotient(product: int, d: int)
    requires 2 <= d <= 3_660_000 && (product == MIN64 || Abs(product - (0 - MIN64)) >= TWO64)
    ensures !Nearest(product, d, (0 - MIN64) / d)
  {
    var q := (0 - MIN64) / d;
    assert 0 - MIN64 == q * d + (0 - MIN64) % d;
  }
}
