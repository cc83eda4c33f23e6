/** reconcile.classify: integer predicates that name why two matched amounts differ. */
module Classify {
  import opened Dates
  import opened DayCount

  datatype Classification = Timing | ModelDifference | Defect
  datatype Signature = Fee(amount: nat) | Round1 | Scale100 | BasisRule(shadowDen: int, legacyDen: int) | Unexplained(delta: int)

  predicate Rounding(legacy: int, shadow: int) {
    Abs(legacy - shadow) <= 1 && legacy != shadow
  }

  predicate BasisFits(legacyDen: int, shadowDen: int, legacy: int, shadow: int) {
    && legacy != 0 && shadow != 0 && legacy != shadow
    && (legacy > 0) == (shadow > 0)
    && Abs(legacy * legacyDen - shadow * shadowDen) <= legacyDen + shadowDen
  }

  predicate Scale(legacy: int, shadow: int) {
    legacy != 0 && shadow != 0 && (Abs(legacy) * 100 == Abs(shadow) || Abs(shadow) * 100 == Abs(legacy))
  }

  /** MODEL_RULES in order, as signatures. */
  const MODEL_RULES: seq<Signature> := [Round1, Scale100, BasisRule(366, 360), BasisRule(365, 360), BasisRule(366, 365)]

  predicate Fits(rule: Signature, legacy: int, shadow: int) {
    match rule
    case Round1 => Rounding(legacy, shadow)
    case Scale100 => Scale(legacy, shadow)
    case BasisRule(s, l) => BasisFits(l, s, legacy, shadow)
    case _ => false
  }

  /** explain: the first rule that fits. */
  function FirstFit(rules: seq<Signature>, legacy: int, shadow: int): (r: seq<Signature>)
    ensures |r| <= 1
    decreases |rules|
  {
    if rules == [] then []
    else if Fits(rules[0], legacy, shadow) then [rules[0]]
    else FirstFit(rules[1..], legacy, shadow)
  }

  function ClassifyMatched(legacy: int, shadow: int, fees: set<nat>): (Classification, Signature) {
    var delta := Abs(legacy - shadow);
    if delta in fees then (ModelDifference, Fee(delta))
    else
      var rule := FirstFit(MODEL_RULES, legacy, shadow);
      if rule != [] then (ModelDifference, rule[0]) else (Defect, Unexplained(legacy - shadow))
  }

  /** The scan written out: which rule wins is decided by the ones before it. */
  lemma {:induction false} ScanOrder(legacy: int, shadow: int)
    ensures FirstFit(MODEL_RULES, legacy, shadow) ==
              if Rounding(legacy, shadow) then [Round1]
              else if Scale(legacy, shadow) then [Scale100]
              else if BasisFits(360, 366, legacy, shadow) then [BasisRule(366, 360)]
              else if BasisFits(360, 365, legacy, shadow) then [BasisRule(365, 360)]
              else if BasisFits(365, 366, legacy, shadow) then [BasisRule(366, 365)]
              else []
  {
    assert MODEL_RULES[1..] == [Scale100, BasisRule(366, 360), BasisRule(365, 360), BasisRule(366, 365)];
    assert MODEL_RULES[1..][1..] == [BasisRule(366, 360), BasisRule(365, 360), BasisRule(366, 365)];
    assert MODEL_RULES[1..][1..][1..] == [BasisRule(365, 360), BasisRule(366, 365)];
    assert MODEL_RULES[1..][1..][1..][1..] == [BasisRule(366, 365)];
    assert MODEL_RULES[1..][1..][1..][1..][1..] == [];
  }

  // ---------------------------------------------------------------- basis recovery

  /** Both sides rounded the same product to nearest, each over its own denominator. */
  ghost predicate SameProduct(product: int, legacyDen: int, shadowDen: int, legacy: int, shadow: int) {
    Nearest(product, BASIS_POINTS * legacyDen, legacy) && Nearest(product, BASIS_POINTS * shadowDen, shadow)
  }

  /** Rounding moves each cross product by at most half its denominator, so the two agree within half the tolerance. */
  lemma {:induction false} CrossProductsAgree(product: int, a: int, b: int, legacy: int, shadow: int)
    requires a > 0 && b > 0 && SameProduct(product, a, b, legacy, shadow)
    ensures 2 * Abs(legacy * a - shadow * b) <= a + b
  {
    var x, y := legacy * a, shadow * b;
    assert legacy * (BASIS_POINTS * a) == BASIS_POINTS * x && shadow * (BASIS_POINTS * b) == BASIS_POINTS * y;
  }

  /** The smallest shadow interest from which each pair of bases is always recovered. */
  function Threshold(shadowDen: int, legacyDen: int): int {
    if legacyDen == 365 then 731 else if shadowDen == 366 then 121 else 1082
  }

  predicate Distinguishable(shadowDen: int, legacyDen: int) {
    (shadowDen == 366 || shadowDen == 365) && (legacyDen == 360 || legacyDen == 365) && legacyDen < shadowDen
  }

  lemma {:induction false} Names366Over360(legacy: int, shadow: int)
    requires 2 * Abs(legacy * 360 - shadow * 366) <= 726 && shadow >= 121
    ensures FirstFit(MODEL_RULES, legacy, shadow) == [BasisRule(366, 360)]
  {
    ScanOrder(legacy, shadow);
  }

  lemma {:induction false} Names365Over360(legacy: int, shadow: int)
    requires 2 * Abs(legacy * 360 - shadow * 365) <= 725 && shadow >= 1082
    ensures FirstFit(MODEL_RULES, legacy, shadow) == [BasisRule(365, 360)]
  {
    ScanOrder(legacy, shadow);
  }

  lemma {:induction false} Names366Over365(legacy: int, shadow: int)
    requires 2 * Abs(legacy * 365 - shadow * 366) <= 731 && shadow >= 731
    ensures FirstFit(MODEL_RULES, legacy, shadow) == [BasisRule(366, 365)]
  {
    ScanOrder(legacy, shadow);
  }

  /** Basis recovery: for every balance sum times rate, whichever nearest rounding each side used, the classifier
      names exactly the two denominators, once the shadow interest reaches the threshold and the delta is no fee. */
  lemma {:induction false} BasisRecovered(product: int, shadowDen: int, legacyDen: int, legacy: int, shadow: int, fees: set<nat>)
    requires Distinguishable(shadowDen, legacyDen) && SameProduct(product, legacyDen, shadowDen, legacy, shadow)
    requires shadow >= Threshold(shadowDen, legacyDen) && Abs(legacy - shadow) !in fees
    ensures ClassifyMatched(legacy, shadow, fees) == (ModelDifference, BasisRule(shadowDen, legacyDen))
  {
    CrossProductsAgree(product, legacyDen, shadowDen, legacy, shadow);
    if shadowDen == 366 && legacyDen == 360 {
      Names366Over360(legacy, shadow);
    } else if shadowDen == 365 {
      Names365Over360(legacy, shadow);
    } else {
      Names366Over365(legacy, shadow);
    }
  }

  /** One unit below each threshold there is an interest the classifier mislabels, so none can be lowered. */
  lemma {:induction false} ThresholdsAreSharp()
    ensures SameProduct(437370000, 360, 366, 121, 120) && ClassifyMatched(121, 120, {}).1 == Round1
    ensures SameProduct(3947400001, 360, 365, 1097, 1081) && ClassifyMatched(1097, 1081, {}).1 == BasisRule(366, 360)
    ensures SameProduct(2669970000, 365, 366, 731, 730) && ClassifyMatched(731, 730, {}).1 == Round1
  {
    ScanOrder(121, 120);
    ScanOrder(1097, 1081);
    ScanOrder(731, 730);
  }

  /** Seen end to end: the legacy core's quirk decides its denominator, the shadow follows the documented basis, and
      the label names the quirk's effect -- Q3 in either kind of year, Q6 in a leap year -- while with neither the two agree. */
  lemma {:induction false} QuirkIsNamed(year: int, q3: bool, q6: bool, product: int, fees: set<nat>)
    requires var s := RoundHalfEven(product, BASIS_POINTS * Denominator(year, BasisFor(year)));
             s >= 1082 && Abs(RoundHalfEven(product, BASIS_POINTS * Denominator(year, LegacyBasis(year, q3, q6))) - s) !in fees
    ensures var ld, sd := Denominator(year, LegacyBasis(year, q3, q6)), Denominator(year, BasisFor(year));
            var l, s := RoundHalfEven(product, BASIS_POINTS * ld), RoundHalfEven(product, BASIS_POINTS * sd);
            if q3 || (q6 && IsLeapYear(year)) then ClassifyMatched(l, s, fees) == (ModelDifference, BasisRule(sd, ld))
            else l == s
  {
    var ld, sd := Denominator(year, LegacyBasis(year, q3, q6)), Denominator(year, BasisFor(year));
    RoundHalfEvenIsTiesToEven(product, BASIS_POINTS * ld);
    RoundHalfEvenIsTiesToEven(product, BASIS_POINTS * sd);
    if q3 || (q6 && IsLeapYear(year)) {
      BasisRecovered(product, sd, ld, RoundHalfEven(product, BASIS_POINTS * ld), RoundHalfEven(product, BASIS_POINTS * sd), fees);
    }
  }

  /** Q1: half-up against half-even is either no break or exactly round:1. */
  lemma {:induction false} RoundingQuirkIsNamed(num: int, den: int, fees: set<nat>)
    requires den != 0 && 1 !in fees
    ensures var u, e := RoundHalfUp(num, den), RoundHalfEven(num, den);
            u == e || ClassifyMatched(u, e, fees) == (ModelDifference, Round1)
  {
    HalfUpVersusHalfEven(num, den);
    ScanOrder(RoundHalfUp(num, den), RoundHalfEven(num, den));
  }

  // ---------------------------------------------------------------- the labels, in numbers

  /** Each label by what it says of the two amounts: a fee is the size of the delta, rounding one unit, scale a factor of a
      hundred either way and under either sign, and what is unexplained is the signed delta. */
  lemma {:induction false} LabelsAre(legacy: int, shadow: int, fees: set<nat>)
    ensures var (c, sig) := ClassifyMatched(legacy, shadow, fees);
            var size := if legacy < shadow then shadow - legacy else legacy - shadow;
            && (size in fees ==> (c, sig) == (ModelDifference, Fee(size)))
            && (size !in fees ==>
                  && !sig.Fee?
                  && (sig == Round1 <==> size == 1)
                  && (sig == Scale100 <==> legacy != 0 && shadow != 0
                                           && (legacy == 100 * shadow || legacy == -100 * shadow || shadow == 100 * legacy || shadow == -100 * legacy))
                  && (sig.Unexplained? ==> sig.delta == legacy - shadow)
                  && c == if sig.Unexplained? then Defect else ModelDifference)
  {
    ScanOrder(legacy, shadow);
  }

  /** A pair of bases fits exactly when some amount before rounding lies within a unit of both, over their denominators, and
      the two differ with one sign. */
  lemma {:induction false} BasisFitsExactly(legacyDen: nat, shadowDen: nat, legacy: int, shadow: int)
    ensures BasisFits(legacyDen, shadowDen, legacy, shadow) <==>
            && legacy != shadow && ((legacy > 0 && shadow > 0) || (legacy < 0 && shadow < 0))
            && exists x :: WithinOne(x, legacy, legacyDen) && WithinOne(x, shadow, shadowDen)
  {
    var l, s := legacy * legacyDen, shadow * shadowDen;
    if BasisFits(legacyDen, shadowDen, legacy, shadow) {
      var x := if l - s > shadowDen then s + shadowDen else if s - l > shadowDen then s - shadowDen else l;
      assert WithinOne(x, legacy, legacyDen) && WithinOne(x, shadow, shadowDen);
    }
  }

  /** x over den is at most one away from the amount. */
  ghost predicate WithinOne(x: int, amount: int, den: nat) {
    amount * den - den <= x <= amount * den + den
  }

  /** Which pairs of bases are tried, and in which order after rounding and scale. */
  lemma {:induction false} BasesTried(legacy: int, shadow: int, fees: set<nat>)
    requires Abs(legacy - shadow) !in fees && ClassifyMatched(legacy, shadow, fees).1.BasisRule?
    ensures var sig := ClassifyMatched(legacy, shadow, fees).1;
            && (sig == BasisRule(366, 360) || sig == BasisRule(365, 360) || sig == BasisRule(366, 365))
            && BasisFits(sig.legacyDen, sig.shadowDen, legacy, shadow)
            && (sig == BasisRule(365, 360) ==> !BasisFits(360, 366, legacy, shadow))
            && (sig == BasisRule(366, 365) ==> !BasisFits(360, 366, legacy, shadow) && !BasisFits(360, 365, legacy, shadow))
  {
    ScanOrder(legacy, shadow);
  }
}
