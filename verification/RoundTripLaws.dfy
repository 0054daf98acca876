/** Print, read, print again; and how much one text leaves open. */
module RoundTripLaws {
  import opened Decimal
  import opened Rounding
  import opened ByteFormat
  import opened FormatLaws

  /** The display of one count by which the next unit is due. */
  const CARRY := Numeral(1024, 0)

  /** An amount shown in a unit, other than the carry, is shown again as itself. */
  lemma ReshowAt(tie: TieRule, unit: nat, u: real)
    requires 0.0 <= u < 1024.0 && (unit > 0 ==> 1.0 <= u)
    ensures var a := AmountAt(CUTOFFS, tie, unit, u);
      var v := NumeralValue(a.numeral);
      (unit > 0 ==> 1.0 <= v) && 0.0 <= v <= 1024.0 &&
      (v == 1024.0 <==> a.numeral == CARRY) &&
      AmountAt(CUTOFFS, tie, unit, v) == a
  {
    var a := AmountAt(CUTOFFS, tie, unit, u);
    var v, d, m := NumeralValue(a.numeral), a.numeral.decimals, a.numeral.mantissa;
    ShapeAt(tie, unit, u);
    NumeralValues(a.numeral);
    PlacesValues(v);
    assert Ladder(CUTOFFS, unit, v).decimals == d;
    assert Places(v, d) == m as real;
    RoundUnique(tie, d, Places(v, d), m);
  }

  lemma UnitOfEnlarged(v: real, k: nat)
    requires 0.0 <= v <= 1024.0 && k < 4 && (k > 0 ==> 1.0 <= v)
    ensures UnitOf(Enlarge(v, k)) == if v == 1024.0 then k + 1 else k
    ensures InTable(Enlarge(v, k)) <==> !(v == 1024.0 && k == 3)
  {
    Enlargements(v);
  }

  lemma CarriedUnit(tie: TieRule, k: nat)
    requires k < 4
    ensures Reduce(Enlarge(1024.0, k), k + 1) == 1.0
    ensures AmountAt(CUTOFFS, tie, k + 1, 1.0) == Amount(Numeral(100, 2), k + 1)
  {
    EnlargeReduce(1.0, k + 1);
    EnlargeShift(1.0, k);
    PlacesValues(1.0);
  }

  /** Showing the displayed value again: the same amount, or the carry written
      as 1.00 of the next unit. */
  lemma Reshow(tie: TieRule, x: real)
    requires InTable(x)
    ensures var a := Display(CUTOFFS, tie, x);
      (InTable(Value(a)) <==> !(a.numeral == CARRY && a.unit == 3)) &&
      (InTable(Value(a)) ==>
        Display(CUTOFFS, tie, Value(a)) == if a.numeral == CARRY then Amount(Numeral(100, 2), a.unit + 1) else a)
  {
    var a := Display(CUTOFFS, tie, x);
    var v := NumeralValue(a.numeral);
    ReduceRange(x);
    ReshowAt(tie, a.unit, InUnit(x));
    UnitOfEnlarged(v, a.unit);
    EnlargeReduce(v, a.unit);
    CarriedUnit(tie, a.unit);
  }

  /** In the last unit the carry is shown exactly from 1023.5 on, the tie rule
      deciding at 1023.5 itself. */
  lemma CarryAtTop(tie: TieRule, x: real)
    requires InTable(x)
    ensures var a := Display(CUTOFFS, tie, x);
      (a.numeral == CARRY && a.unit == 3)
      <==> (x > 1023.5 * GIGA || (x == 1023.5 * GIGA && tie(0, 1023)))
  {
    ReduceRange(x);
    Reductions(x);
    if UnitOf(x) == 3 && InUnit(x) >= 99.95 {
      var u := InUnit(x);
      assert Places(u, 0) == u;
      assert u > 1023.5 <==> x > 1023.5 * GIGA;
    } else {
      DisplayShape(tie, x);
    }
  }

  /** Print, read back, print again. Reading the text gives a value that can be
      shown again unless it is the carry of the last unit; shown again it denotes
      the same value, and it is the same text exactly when no carry is due. */
  lemma PrintReadPrint(tie: TieRule, x: real, isSpeed: bool)
    requires InTable(x)
    ensures var s := Text(tie, x, isSpeed);
      ReadText(s).Some? && Denoted(s).Some? &&
      var v := Denoted(s).value;
      && (InTable(v) <==> x < 1023.5 * GIGA || (x == 1023.5 * GIGA && !tie(0, 1023)))
      && (InTable(v) ==> Denoted(Text(tie, v, isSpeed)) == Some(v))
      && (InTable(v) ==> (Text(tie, v, isSpeed) == s <==> ReadText(s).value.0.numeral != CARRY))
  {
    var a := Display(CUTOFFS, tie, x);
    TextReadsBack(tie, x, isSpeed);
    Reshow(tie, x);
    CarryAtTop(tie, x);
    if InTable(Value(a)) {
      TextReadsBack(tie, Value(a), isSpeed);
      if a.numeral == CARRY {
        CarryValue(a.unit);
      } else {
        SameDisplaySameText(tie, x, Value(a), isSpeed);
      }
    }
  }

  lemma CarryValue(k: nat)
    ensures Value(Amount(Numeral(100, 2), k + 1)) == Value(Amount(CARRY, k))
  {
    NumeralValues(Numeral(100, 2));
    NumeralValues(CARRY);
    EnlargeShift(1.0, k);
  }

  lemma SameDisplaySameText(tie: TieRule, x: real, y: real, isSpeed: bool)
    requires InTable(x) && InTable(y)
    requires Display(CUTOFFS, tie, x) == Display(CUTOFFS, tie, y)
    ensures Text(tie, x, isSpeed) == Text(tie, y, isSpeed)
  {
  }

  // ----- Resolution

  /** One unit in the last place shown, in bytes. */
  function Quantum(a: Amount): real {
    Value(Amount(Numeral(1, a.numeral.decimals), a.unit))
  }

  lemma CloseAt(tie: TieRule, tie': TieRule, unit: nat, u: real, v: real)
    requires 0.0 <= u < 1024.0 && 0.0 <= v < 1024.0 && (unit > 0 ==> 1.0 <= u && 1.0 <= v)
    requires AmountAt(CUTOFFS, tie, unit, u) == AmountAt(CUTOFFS, tie', unit, v)
    ensures u - v <= NumeralValue(Numeral(1, AmountAt(CUTOFFS, tie, unit, u).numeral.decimals))
  {
    ShapeAt(tie, unit, u);
    ShapeAt(tie', unit, v);
    NumeralValues(Numeral(1, AmountAt(CUTOFFS, tie, unit, u).numeral.decimals));
  }

  lemma EnlargeBound(u: real, v: real, q: real, k: nat)
    requires u - v <= q
    ensures Enlarge(u, k) - Enlarge(v, k) <= Enlarge(q, k)
  {
    EnlargeMonotone(u - v, q, k);
    EnlargeDifference(u, v, k);
  }

  lemma SameDisplayClose(tie: TieRule, tie': TieRule, x: real, y: real)
    requires InTable(x) && InTable(y)
    requires Display(CUTOFFS, tie, x) == Display(CUTOFFS, tie', y)
    ensures x - y <= Quantum(Display(CUTOFFS, tie, x))
  {
    var k := UnitOf(x);
    ReduceRange(x);
    ReduceRange(y);
    CloseAt(tie, tie', k, InUnit(x), InUnit(y));
    ReduceEnlarge(x, k);
    ReduceEnlarge(y, k);
    EnlargeBound(InUnit(x), InUnit(y),
      NumeralValue(Numeral(1, Display(CUTOFFS, tie, x).numeral.decimals)), k);
  }

  /** Resolution: counts with the same text lie within one unit of the last
      place shown, even if their ties were broken by different rules. */
  lemma Resolution(tie: TieRule, tie': TieRule, x: real, y: real, isSpeed: bool)
    requires InTable(x) && InTable(y)
    requires Text(tie, x, isSpeed) == Text(tie', y, isSpeed)
    ensures ReadText(Text(tie, x, isSpeed)).Some?
    ensures var q := Quantum(ReadText(Text(tie, x, isSpeed)).value.0); -q <= x - y <= q
  {
    TextReadsBack(tie, x, isSpeed);
    TextReadsBack(tie', y, isSpeed);
    SameDisplayClose(tie, tie', x, y);
    SameDisplayClose(tie', tie, y, x);
  }

  /** Distinct integers below 1024 never share a text. */
  lemma SmallCountsDistinct(tie: TieRule, tie': TieRule, m: nat, n: nat, isSpeed: bool)
    requires m < 1024 && n < 1024 && m != n
    ensures Text(tie, m as real, isSpeed) != Text(tie', n as real, isSpeed)
  {
    SmallCountsExact(tie, m, isSpeed);
    SmallCountsExact(tie', n, isSpeed);
  }
}
