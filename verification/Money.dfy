/** internal/money: integer minor units over wrapping 64-bit arithmetic. */
module Money {

  const MIN64: int := -0x8000_0000_0000_0000
  const MAX64: int := 0x7FFF_FFFF_FFFF_FFFF
  const TWO64: int := 0x1_0000_0000_0000_0000

  predicate Fits(x: int) {
    MIN64 <= x <= MAX64
  }

  type Int64 = x: int | Fits(x) witness 0

  /** Two's-complement reduction, which is what Go does to every int64 result. */
  function Wrap(x: int): (r: Int64)
    ensures Fits(x) ==> r == x
  {
    (x - MIN64) % TWO64 + MIN64
  }

  lemma {:induction false} NegationIsNeverZero(x: int)
    requires Fits(x) && x != 0
    ensures Wrap(-x) != 0
  {
    if x == MIN64 {
      assert (-x - MIN64) % TWO64 == 0;
    }
  }

  lemma {:induction false} NegationFits(x: Int64)
    requires x != MIN64
    ensures Wrap(0 - x) == 0 - x && Wrap(0 - x) != MIN64
  {
    assert Fits(x);
    assert MIN64 == -0x8000_0000_0000_0000 && MAX64 == 0x7FFF_FFFF_FFFF_FFFF;
  }

  datatype MoneyError = UnknownCurrency | CurrencyMismatch | Overflow | Unrepresentable | NoAmounts

  datatype Result<+T> = Ok(value: T) | Err(error: MoneyError)

  datatype Amount = Amount(minor: Int64, currency: string, scale: nat)

  /** The compile-time registry: minor-unit exponents are stated here and nowhere else. */
  const REGISTRY: map<string, nat> := map["USD" := 2, "EUR" := 2, "JPY" := 0]

  predicate Known(c: string) {
    c in REGISTRY
  }

  function ScaleOf(c: string): nat
    requires Known(c)
  {
    REGISTRY[c]
  }

  /** An amount as New builds it. */
  predicate Built(a: Amount) {
    Known(a.currency) && a.scale == ScaleOf(a.currency) && a.minor != MIN64
  }

  function New(minor: Int64, c: string): (r: Result<Amount>)
    ensures r.Ok? <==> Known(c) && minor != MIN64
    ensures r.Ok? ==> Built(r.value) && r.value.minor == minor && r.value.currency == c
  {
    if !Known(c) then Err(UnknownCurrency)
    else if minor == MIN64 then Err(Unrepresentable)
    else Ok(Amount(minor, c, ScaleOf(c)))
  }

  /** The sign test on the wrapped sum, exactly as the code performs it. */
  function Add(a: Amount, b: Amount): Result<Amount> {
    if a.currency != b.currency then Err(CurrencyMismatch)
    else
      var sum := Wrap(a.minor + b.minor);
      if (a.minor > 0 && b.minor > 0 && sum <= 0) || (a.minor < 0 && b.minor < 0 && sum >= 0)
      then Err(Overflow)
      else Ok(Amount(sum, a.currency, a.scale))
  }

  function Neg(a: Amount): Amount {
    a.(minor := Wrap(0 - a.minor))
  }

  /** The wrapped sign test is a complete overflow test: Add is exact or it reports, never both, never neither. */
  lemma {:induction false} AddIsExactOrReports(a: Amount, b: Amount)
    requires a.currency == b.currency
    ensures Add(a, b).Ok? <==> Fits(a.minor + b.minor)
    ensures Add(a, b).Ok? ==> Add(a, b).value.minor == a.minor + b.minor
    ensures Add(a, b).Err? ==> Add(a, b).error == Overflow
  {
    var s := a.minor + b.minor;
    if s > MAX64 {
      assert (s - MIN64) % TWO64 == s - MIN64 - TWO64;
    } else if s < MIN64 {
      assert (s - MIN64) % TWO64 == s - MIN64 + TWO64;
    }
  }

  /** Neg is arithmetic negation exactly off MinInt64; New never builds MinInt64, but Add can. */
  lemma {:induction false} NegIsExact(a: Amount)
    ensures Neg(a).minor == 0 - a.minor <==> a.minor != MIN64
    ensures Built(a) ==> Built(Neg(a)) && Neg(Neg(a)) == a
  {
    if a.minor == MIN64 {
      assert (0 - a.minor - MIN64) % TWO64 == 0;
    }
  }

  lemma {:induction false} AddLeavesTheDomainOfNeg()
    ensures
      var a := Amount(MIN64 + 1, "USD", 2);
      var b := Amount(-1, "USD", 2);
      Built(a) && Built(b) && Add(a, b).Ok? && Neg(Add(a, b).value).minor == Add(a, b).value.minor == MIN64
  {
    var a, b := Amount(MIN64 + 1, "USD", 2), Amount(-1, "USD", 2);
    AddIsExactOrReports(a, b);
    assert (-MIN64 - MIN64) % TWO64 == 0;
  }

  /** The true sum over unbounded integers. */
  ghost function Total(xs: seq<Amount>): int {
    if xs == [] then 0 else Total(xs[..|xs| - 1]) + xs[|xs| - 1].minor
  }

  /** Every running total stays inside int64. */
  ghost predicate PrefixesFit(xs: seq<Amount>) {
    forall k | 0 <= k <= |xs| :: Fits(Total(xs[..k]))
  }

  ghost predicate OneCurrency(xs: seq<Amount>) {
    forall i, j | 0 <= i < j < |xs| :: xs[i].currency == xs[j].currency
  }

  /** The left-to-right fold of Sum: succeeds exactly when one currency is present and no prefix overflows. */
  method Sum(xs: seq<Amount>) returns (r: Result<Amount>)
    ensures r.Ok? <==> xs != [] && OneCurrency(xs) && PrefixesFit(xs)
    ensures r.Ok? ==> r.value.minor == Total(xs) && r.value.currency == xs[0].currency
  {
    if xs == [] {
      return Err(NoAmounts);
    }
    var acc := xs[0];
    assert xs[..1] == [xs[0]] && xs[..0] == [];
    assert Total(xs[..1]) == xs[0].minor;
    for n := 1 to |xs|
      invariant acc.minor == Total(xs[..n]) && acc.currency == xs[0].currency
      invariant OneCurrency(xs[..n])
      invariant forall k | 0 <= k <= n :: Fits(Total(xs[..k]))
    {
      assert xs[..n + 1][..n] == xs[..n];
      assert Total(xs[..n + 1]) == Total(xs[..n]) + xs[n].minor;
      if acc.currency == xs[n].currency {
        AddIsExactOrReports(acc, xs[n]);
      }
      var next := Add(acc, xs[n]);
      if next.Err? {
        assert acc.currency != xs[n].currency ==> xs[0].currency != xs[n].currency;
        return next;
      }
      acc := next.value;
    }
    assert xs[..|xs|] == xs;
    return Ok(acc);
  }
}
