/** What the columns of the byte formatter guarantee, for every count the
    tables cover and every tie rule. */
module FormatLaws {
  import opened Decimal
  import opened Rounding
  import opened ByteFormat

  // ----- Arithmetic of the tables

  lemma Enlargements(n: real)
    ensures Enlarge(n, 0) == n && Enlarge(n, 1) == n * KILO && Enlarge(n, 2) == n * MEGA
    ensures Enlarge(n, 3) == n * GIGA && Enlarge(n, 4) == n * TABLE_END
  {
    assert Enlarge(n, 4) == Enlarge(n, 3) * 1024.0 && Enlarge(n, 2) == Enlarge(n, 1) * 1024.0;
  }

  lemma Powers()
    ensures Pow10(0) == 1 && Pow10(1) == 10 && Pow10(2) == 100 && Pow10(3) == 1000 && Pow10(4) == 10000
  {
    assert Pow10(4) == 10 * Pow10(3) && Pow10(3) == 10 * Pow10(2);
  }

  /** One multiplication by the table entry is the repeated division. */
  lemma TableScaling(x: real, k: nat)
    requires k < 4
    ensures x * CONVERSION[k] == Reduce(x, k)
  {
    Reductions(x);
    if k == 0 {} else if k == 1 {} else if k == 2 {} else {}
  }

  /** Dividing `k` times and multiplying back loses nothing. */
  lemma {:induction false} ReduceEnlarge(x: real, k: nat)
    ensures Enlarge(Reduce(x, k), k) == x
  {
    if k > 0 {
      ReduceEnlarge(x, k - 1);
      EnlargeDivides(Reduce(x, k - 1), k);
    }
  }

  lemma {:induction false} EnlargeDivides(n: real, k: nat)
    requires k > 0
    ensures Enlarge(n / 1024.0, k) == Enlarge(n, k - 1)
  {
    if k > 1 {
      EnlargeDivides(n, k - 1);
    }
  }

  lemma {:induction false} EnlargeShift(n: real, k: nat)
    ensures Enlarge(n * 1024.0, k) == Enlarge(n, k + 1)
  {
    if k > 0 {
      EnlargeShift(n, k - 1);
    }
  }

  lemma {:induction false} EnlargeMonotone(m: real, n: real, k: nat)
    requires m <= n
    ensures Enlarge(m, k) <= Enlarge(n, k)
  {
    if k > 0 {
      EnlargeMonotone(m, n, k - 1);
    }
  }

  lemma {:induction false} EnlargeDifference(m: real, n: real, k: nat)
    ensures Enlarge(m - n, k) == Enlarge(m, k) - Enlarge(n, k)
  {
    if k > 0 {
      EnlargeDifference(m, n, k - 1);
    }
  }

  lemma {:induction false} EnlargeReduce(n: real, k: nat)
    ensures Reduce(Enlarge(n, k), k) == n
  {
    if k > 0 {
      EnlargeReduce(n, k - 1);
      ReduceMultiplies(Enlarge(n, k - 1), k);
    }
  }

  lemma {:induction false} ReduceMultiplies(x: real, k: nat)
    requires k > 0
    ensures Reduce(x * 1024.0, k) == Reduce(x, k - 1)
  {
    if k > 1 {
      ReduceMultiplies(x, k - 1);
    }
  }

  /** The unit is canonical: `1024^k <= x < 1024^(k+1)`, cut off at both ends. */
  lemma UnitIsCanonical(x: real, k: nat)
    requires 0.0 <= x && k <= 4
    ensures UnitOf(x) == k
      <==> (k == 0 || UnitSize(k) <= x) && (k == 4 || x < UnitSize(k + 1))
  {
    Enlargements(1.0);
  }

  /** The tables have an entry for the unit exactly below 1024^4. */
  lemma TablesSuffice(x: real)
    requires 0.0 <= x
    ensures UnitOf(x) < |CONVERSION| <==> x < UnitSize(4)
    ensures |CONVERSION| == |LABEL_TOTAL| == |LABEL_SPEED|
  {
    Enlargements(1.0);
  }

  // ----- The shape of one text

  /** Everything the ladder decides about `u` units: precision, range of the
      mantissa, and how far rounding moved it. */
  ghost predicate Shown(u: real, a: Amount) {
    var d, m := a.numeral.decimals, a.numeral.mantissa;
    && (a.unit == 0 ==> d == 0 && 0 <= m <= 1024 && Nearest(m, u))
    && (a.unit > 0 && u < 9.995 ==> d == 2 && 100 <= m <= 999 && Nearest(m, u * 100.0))
    && (a.unit > 0 && 9.995 <= u < 99.95 ==> d == 1 && 100 <= m <= 999 && Nearest(m, u * 10.0))
    && (a.unit > 0 && 99.95 <= u ==> d == 0 && 100 <= m <= 1024 && Nearest(m, u))
  }

  lemma PlacesValues(u: real)
    ensures Places(u, 0) == u && Places(u, 1) == u * 10.0 && Places(u, 2) == u * 100.0
  {
    assert Places(u, 2) == Places(u * 10.0, 1);
  }

  lemma ShapeAt(tie: TieRule, unit: nat, u: real)
    requires 0.0 <= u < 1024.0 && (unit > 0 ==> 1.0 <= u)
    ensures Shown(u, AmountAt(CUTOFFS, tie, unit, u))
  {
    PlacesValues(u);
  }

  lemma DisplayShape(tie: TieRule, x: real)
    requires InTable(x)
    ensures Shown(InUnit(x), Display(CUTOFFS, tie, x))
  {
    ReduceRange(x);
    ShapeAt(tie, UnitOf(x), InUnit(x));
  }

  lemma NumeralValues(n: Numeral)
    requires n.decimals < 3
    ensures NumeralValue(n) == if n.decimals == 0 then n.mantissa as real
                               else if n.decimals == 1 then n.mantissa as real / 10.0
                               else n.mantissa as real / 100.0
  {
    assert Shift(n.mantissa as real, 2) == Shift(n.mantissa as real, 1) / 10.0;
  }

  // ----- The text and what it denotes

  lemma LabelReads(k: nat, isSpeed: bool)
    requires k < 4
    ensures ReadLabel(Label(k, isSpeed)) == Some((k, isSpeed))
    ensures |Label(k, isSpeed)| == (if k == 0 then 1 else 2) + (if isSpeed then 2 else 0)
    ensures !IsDigit(Label(k, isSpeed)[0]) && Label(k, isSpeed)[0] != '.'
  {
    if isSpeed {
      var s := LABEL_SPEED[k];
      assert s[|s| - 2..] == "/S";
      assert s[..|s| - 2] == LABEL_TOTAL[k];
    }
  }

  lemma TextWithReadsBack(cut: Cutoffs, tie: TieRule, x: real, isSpeed: bool)
    requires InTable(x)
    ensures ReadText(TextWith(cut, tie, x, isSpeed)) == Some((Display(cut, tie, x), isSpeed))
  {
    var a := Display(cut, tie, x);
    var f := Ladder(cut, a.unit, InUnit(x));
    LabelReads(a.unit, isSpeed);
    PrintReadBack(TextWith(cut, tie, x, isSpeed), f.width, a.numeral.mantissa, a.numeral.decimals, Label(a.unit, isSpeed));
  }

  /** A reader recovers from the text exactly the amount that was shown. */
  lemma TextReadsBack(tie: TieRule, x: real, isSpeed: bool)
    requires InTable(x)
    ensures ReadText(Text(tie, x, isSpeed)) == Some((Display(CUTOFFS, tie, x), isSpeed))
    ensures Denoted(Text(tie, x, isSpeed)) == Some(Value(Display(CUTOFFS, tie, x)))
  {
    TextWithReadsBack(CUTOFFS, tie, x, isSpeed);
  }

  /** Constant column width: 6 characters for a total, 8 for a rate. */
  lemma ColumnWidth(tie: TieRule, x: real, isSpeed: bool)
    requires InTable(x)
    ensures |Text(tie, x, isSpeed)| == if isSpeed then 8 else 6
  {
    DisplayShape(tie, x);
    Powers();
    var a := Display(CUTOFFS, tie, x);
    var m, d := a.numeral.mantissa, a.numeral.decimals;
    LabelReads(a.unit, isSpeed);
    var n := if d > 0 then 3 else if m < 10 then 1 else if m < 100 then 2 else if m < 1000 then 3 else 4;
    PrintedWidth(if a.unit == 0 then 5 else 4, m, d, n);
  }

  // ----- Order

  /** The displayed amount stays inside its unit, the upper end included. */
  lemma DisplayInUnit(tie: TieRule, x: real)
    requires InTable(x)
    ensures var k := UnitOf(x);
      (k > 0 ==> UnitSize(k) <= Value(Display(CUTOFFS, tie, x))) &&
      0.0 <= Value(Display(CUTOFFS, tie, x)) <= UnitSize(k + 1)
  {
    var n := NumeralValue(Display(CUTOFFS, tie, x).numeral);
    ReduceRange(x);
    DisplayShape(tie, x);
    NumeralValues(Display(CUTOFFS, tie, x).numeral);
    Enlargements(1.0);
    Enlargements(n);
  }

  lemma {:induction false} ReduceMonotone(x: real, y: real, k: nat)
    requires x <= y
    ensures Reduce(x, k) <= Reduce(y, k)
  {
    if k > 0 {
      ReduceMonotone(x, y, k - 1);
    }
  }

  lemma LadderFalls(unit: nat, u: real, v: real)
    requires u <= v
    ensures Ladder(CUTOFFS, unit, v).decimals <= Ladder(CUTOFFS, unit, u).decimals
  {
  }

  lemma {:induction false} PlacesOrder(d: nat, u: real, v: real)
    requires u <= v
    ensures Places(u, d) <= Places(v, d)
    decreases d
  {
    if d > 0 {
      PlacesOrder(d - 1, u * 10.0, v * 10.0);
    }
  }

  lemma OrderAt(tie: TieRule, unit: nat, u: real, v: real)
    requires 0.0 <= u <= v < 1024.0 && (unit > 0 ==> 1.0 <= u)
    ensures NumeralValue(AmountAt(CUTOFFS, tie, unit, u).numeral)
         <= NumeralValue(AmountAt(CUTOFFS, tie, unit, v).numeral)
  {
    var a, b := AmountAt(CUTOFFS, tie, unit, u), AmountAt(CUTOFFS, tie, unit, v);
    var d := a.numeral.decimals;
    LadderFalls(unit, u, v);
    ShapeAt(tie, unit, u);
    ShapeAt(tie, unit, v);
    NumeralValues(a.numeral);
    NumeralValues(b.numeral);
    if d == b.numeral.decimals {
      PlacesOrder(d, u, v);
      RoundMonotone(tie, d, Places(u, d), Places(v, d));
    }
  }

  lemma UnitsOrdered(j: nat, k: nat)
    requires j <= k <= 4
    ensures UnitSize(j) <= UnitSize(k)
  {
    Enlargements(1.0);
  }

  lemma DisplayMonotone(tie: TieRule, x: real, y: real)
    requires InTable(x) && InTable(y) && x <= y
    ensures Value(Display(CUTOFFS, tie, x)) <= Value(Display(CUTOFFS, tie, y))
  {
    if UnitOf(x) == UnitOf(y) {
      var k := UnitOf(x);
      ReduceRange(x);
      ReduceRange(y);
      ReduceMonotone(x, y, k);
      OrderAt(tie, k, InUnit(x), InUnit(y));
      EnlargeMonotone(NumeralValue(Display(CUTOFFS, tie, x).numeral),
                      NumeralValue(Display(CUTOFFS, tie, y).numeral), k);
    } else {
      DisplayInUnit(tie, x);
      DisplayInUnit(tie, y);
      UnitsOrdered(UnitOf(x) + 1, UnitOf(y));
    }
  }

  /** Monotone display: a larger count never reads as a smaller one, across
      changes of precision and of unit, whichever labels are used. */
  lemma MonotoneDisplay(tie: TieRule, x: real, y: real, speedX: bool, speedY: bool)
    requires InTable(x) && InTable(y) && x <= y
    ensures Denoted(Text(tie, x, speedX)).Some? && Denoted(Text(tie, y, speedY)).Some?
    ensures Denoted(Text(tie, x, speedX)).value <= Denoted(Text(tie, y, speedY)).value
  {
    TextReadsBack(tie, x, speedX);
    TextReadsBack(tie, y, speedY);
    DisplayMonotone(tie, x, y);
  }

  // ----- Accuracy

  lemma AccuracyAt(tie: TieRule, unit: nat, u: real)
    requires 0.0 <= u < 1024.0 && (unit > 0 ==> 1.0 <= u)
    ensures var e := NumeralValue(AmountAt(CUTOFFS, tie, unit, u).numeral) - u;
      if unit == 0 then -0.5 <= e <= 0.5 else -u <= 201.0 * e <= u
  {
    ShapeAt(tie, unit, u);
    NumeralValues(AmountAt(CUTOFFS, tie, unit, u).numeral);
  }

  lemma DisplayAccuracy(tie: TieRule, x: real)
    requires InTable(x)
    ensures var v := Value(Display(CUTOFFS, tie, x));
      if x < KILO then x - 0.5 <= v <= x + 0.5 else x - x / 201.0 <= v <= x + x / 201.0
  {
    var k, u, n := UnitOf(x), InUnit(x), NumeralValue(Display(CUTOFFS, tie, x).numeral);
    ReduceRange(x);
    AccuracyAt(tie, k, u);
    Reductions(x);
    Enlargements(n);
  }

  /** Accuracy: within half a byte below 1024, within one part in 201 above. */
  lemma Accuracy(tie: TieRule, x: real, isSpeed: bool)
    requires InTable(x)
    ensures var r := Denoted(Text(tie, x, isSpeed));
      r.Some? &&
      if x < KILO then x - 0.5 <= r.value <= x + 0.5
      else x - x / 201.0 <= r.value <= x + x / 201.0
  {
    TextReadsBack(tie, x, isSpeed);
    DisplayAccuracy(tie, x);
  }

  lemma SharpAt(tie: TieRule)
    ensures var n := AmountAt(CUTOFFS, tie, 1, 1.005).numeral; n == Numeral(100, 2) || n == Numeral(101, 2)
  {
    ShapeAt(tie, 1, 1.005);
  }

  lemma SharpValues()
    ensures Value(Amount(Numeral(100, 2), 1)) == 1024.0 && Value(Amount(Numeral(101, 2), 1)) == 1034.24
  {
    NumeralValues(Numeral(100, 2));
    NumeralValues(Numeral(101, 2));
    Enlargements(1.0);
    Enlargements(1.01);
  }

  /** The bound is met: at 1.005 KB the error is one part in 201 whichever way
      the tie goes. */
  lemma AccuracyIsSharp(tie: TieRule, isSpeed: bool)
    ensures var x := 1.005 * KILO;
      InTable(x) &&
      var r := Denoted(Text(tie, x, isSpeed));
      r == Some(x - x / 201.0) || r == Some(x + x / 201.0)
  {
    var x := 1029.12;
    assert x == 1.005 * KILO;
    TextReadsBack(tie, x, isSpeed);
    Reductions(x);
    assert UnitOf(x) == 1 && InUnit(x) == 1.005;
    SharpAt(tie);
    SharpValues();
  }

  lemma WholeAt(tie: TieRule, n: nat)
    requires n < 1024
    ensures NumeralValue(AmountAt(CUTOFFS, tie, 0, n as real).numeral) == n as real
  {
    ShapeAt(tie, 0, n as real);
    NumeralValues(AmountAt(CUTOFFS, tie, 0, n as real).numeral);
  }

  /** Integers below 1024 are shown exactly. */
  lemma SmallCountsExact(tie: TieRule, n: nat, isSpeed: bool)
    requires n < 1024
    ensures Denoted(Text(tie, n as real, isSpeed)) == Some(n as real)
  {
    TextReadsBack(tie, n as real, isSpeed);
    WholeAt(tie, n);
  }
}
