/** The ladder and the rounding together choose the best text for the column:
    as many decimals as fit, and the nearest number that can be written so. */
module OptimalLaws {
  import opened Decimal
  import opened Rounding
  import opened ByteFormat
  import opened FormatLaws
  import opened ThresholdLaws

  /** `u` printed with `d` decimals stays within the four columns. */
  predicate Fits(tie: TieRule, u: real, d: nat)
    requires 0.0 <= u
  {
    |Fixed(Round(tie, d, Places(u, d)), d)| <= 4
  }

  lemma FitsMantissa(m: nat, d: nat)
    requires d <= 2
    ensures |Fixed(m, d)| <= 4 <==> if d == 0 then m <= 9999 else m <= 999
  {
    var n := if d == 0 then 4 else 3;
    Powers();
    assert Pow10(5) == 10 * Pow10(4);
    DigitCount(m, d + 1, n);
    DigitCount(m, d + 1, n + 1);
  }

  /** Which precisions fit, from the literals outward; a tie at a literal lets one
      more decimal fit if it is rounded down. */
  lemma WhatFits(tie: TieRule, u: real)
    requires 1.0 <= u < 1024.0
    ensures Fits(tie, u, 0)
    ensures Fits(tie, u, 1) <==> u < 99.95 || (u == 99.95 && !tie(1, 999))
    ensures Fits(tie, u, 2) <==> u < 9.995 || (u == 9.995 && !tie(2, 999))
  {
    PlacesValues(u);
    FitsMantissa(Round(tie, 0, u), 0);
    FitsMantissa(Round(tie, 1, u * 10.0), 1);
    FitsMantissa(Round(tie, 2, u * 100.0), 2);
  }

  /** Of the precisions 0, 1 and 2 exactly those up to `shown` fit. */
  predicate BestPrecision(tie: TieRule, u: real, shown: nat)
    requires 0.0 <= u
  {
    && (Fits(tie, u, 0) <==> 0 <= shown)
    && (Fits(tie, u, 1) <==> 1 <= shown)
    && (Fits(tie, u, 2) <==> 2 <= shown)
  }

  lemma LadderAt(tie: TieRule, unit: nat, u: real)
    requires 1.0 <= u < 1024.0 && unit > 0
    ensures BestPrecision(tie, u, Ladder(CUTOFFS, unit, u).decimals)
      <==> !(u == 9.995 && !tie(2, 999)) && !(u == 99.95 && !tie(1, 999))
  {
    WhatFits(tie, u);
  }

  /** The literals are the right ones: the ladder shows as many decimals as the
      four columns hold, except exactly at a literal whose tie is rounded down. */
  lemma LadderIsOptimal(tie: TieRule, x: real)
    requires InTable(x) && UnitOf(x) > 0
    ensures 1.0 <= InUnit(x) < 1024.0
    ensures BestPrecision(tie, InUnit(x), Display(CUTOFFS, tie, x).numeral.decimals)
      <==> !(InUnit(x) == 9.995 && !tie(2, 999)) && !(InUnit(x) == 99.95 && !tie(1, 999))
  {
    ReduceRange(x);
    LadderAt(tie, UnitOf(x), InUnit(x));
  }

  /** Whole counts never meet the exceptions. */
  lemma WholeCountsOptimal(tie: TieRule, n: nat)
    requires 1024 <= n < COUNT_END
    ensures var u := InUnit(n as real);
      0.0 <= u && BestPrecision(tie, u, Display(CUTOFFS, tie, n as real).numeral.decimals)
  {
    OnGrid(n, UnitOf(n as real));
    LadderIsOptimal(tie, n as real);
  }

  function Distance(a: real, b: real): real {
    if a <= b then b - a else a - b
  }

  lemma NearestAt(tie: TieRule, unit: nat, u: real, b: Numeral)
    requires 0.0 <= u < 1024.0 && (unit > 0 ==> 1.0 <= u)
    requires b.decimals <= AmountAt(CUTOFFS, tie, unit, u).numeral.decimals
    ensures Distance(NumeralValue(AmountAt(CUTOFFS, tie, unit, u).numeral), u) <= Distance(NumeralValue(b), u)
  {
    var a := AmountAt(CUTOFFS, tie, unit, u).numeral;
    ShapeAt(tie, unit, u);
    NumeralValues(a);
    NumeralValues(b);
    var c := if a.decimals == b.decimals then b.mantissa
             else if a.decimals == b.decimals + 1 then 10 * b.mantissa else 100 * b.mantissa;
    var v := if a.decimals == 0 then u else if a.decimals == 1 then u * 10.0 else u * 100.0;
    assert Nearest(a.mantissa, v);
    assert c < a.mantissa || c == a.mantissa || c > a.mantissa;
  }

  lemma EnlargeDistance(p: real, q: real, r: real, k: nat)
    requires Distance(p, r) <= Distance(q, r)
    ensures Distance(Enlarge(p, k), Enlarge(r, k)) <= Distance(Enlarge(q, k), Enlarge(r, k))
  {
    EnlargeDifference(p, r, k);
    EnlargeDifference(r, p, k);
    EnlargeDifference(q, r, k);
    EnlargeDifference(r, q, k);
    EnlargeMonotone(0.0, Distance(p, r), k);
    EnlargeMonotone(0.0, Distance(q, r), k);
    EnlargeMonotone(Distance(p, r), Distance(q, r), k);
    EnlargeDifference(0.0, 0.0, k);
  }

  /** No number written in the same unit with at most as many decimals is closer
      to the count than the one the text denotes. */
  lemma NothingCloser(tie: TieRule, x: real, isSpeed: bool, b: Amount)
    requires InTable(x)
    ensures var r := ReadText(Text(tie, x, isSpeed));
      r.Some? && Denoted(Text(tie, x, isSpeed)).Some? &&
      (b.unit == r.value.0.unit && b.numeral.decimals <= r.value.0.numeral.decimals ==>
        Distance(Denoted(Text(tie, x, isSpeed)).value, x) <= Distance(Value(b), x))
  {
    var a := Display(CUTOFFS, tie, x);
    TextReadsBack(tie, x, isSpeed);
    ReduceRange(x);
    if b.unit == a.unit && b.numeral.decimals <= a.numeral.decimals {
      NearestAt(tie, a.unit, InUnit(x), b.numeral);
      EnlargeDistance(NumeralValue(a.numeral), NumeralValue(b.numeral), InUnit(x), a.unit);
      ReduceEnlarge(x, a.unit);
    }
  }
}
