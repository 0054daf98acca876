/** What the byte formatter prints, as a function of the count: the unit, the
    precision ladder, the field and its label; and how a reader takes it back.
    Counts are exact reals; scaling by powers of 1024 is exact in binary
    floating point, and the literals are treated in ThresholdLaws. */
module ByteFormat {
  import opened Decimal
  import opened Rounding

  const KILO := 1024.0
  const MEGA := 1024.0 * 1024.0
  const GIGA := 1024.0 * 1024.0 * 1024.0
  /** 1024^4, where the conversion table ends. */
  const TABLE_END := 1024.0 * 1024.0 * 1024.0 * 1024.0

  /** The conversion and label tables, one entry per unit. */
  const CONVERSION: seq<real> :=
    [1.0, 1.0 / 1024.0, 1.0 / 1024.0 / 1024.0, 1.0 / 1024.0 / 1024.0 / 1024.0]
  const LABEL_TOTAL: seq<string> := ["B", "KB", "MB", "GB"]
  const LABEL_SPEED: seq<string> := ["B/S", "KB/S", "MB/S", "GB/S"]

  /** `n * 1024^k` */
  function Enlarge(n: real, k: nat): real {
    if k == 0 then n else Enlarge(n, k - 1) * 1024.0
  }

  /** `x / 1024^k`, by repeated division. */
  function Reduce(x: real, k: nat): real {
    if k == 0 then x else Reduce(x, k - 1) / 1024.0
  }

  /** 1024^k */
  function UnitSize(k: nat): real {
    Enlarge(1.0, k)
  }

  /** The largest unit not exceeding `x`; 4 stands for "beyond the tables". */
  function UnitOf(x: real): (k: nat)
    ensures k <= 4
  {
    if x < KILO then 0
    else if x < MEGA then 1
    else if x < GIGA then 2
    else if x < TABLE_END then 3
    else 4
  }

  /** A conversion specification `%w.df`. */
  datatype Format = Format(width: nat, decimals: nat)

  /** The two literals that decide the precision. */
  datatype Cutoffs = Cutoffs(two: real, one: real)

  const CUTOFFS := Cutoffs(9.995, 99.95)

  function Ladder(cut: Cutoffs, unit: nat, u: real): Format {
    if unit == 0 then Format(5, 0)
    else if u < cut.two then Format(4, 2)
    else if u < cut.one then Format(4, 1)
    else if u < 999.5 then Format(4, 0)
    else Format(4, 0)
  }

  function Label(unit: nat, isSpeed: bool): string
    requires unit < 4
  {
    if isSpeed then LABEL_SPEED[unit] else LABEL_TOTAL[unit]
  }

  /** A displayed amount: `mantissa / 10^decimals` units. */
  datatype Amount = Amount(numeral: Numeral, unit: nat)

  /** `r / 10^d` */
  function Shift(r: real, d: nat): real {
    if d == 0 then r else Shift(r, d - 1) / 10.0
  }

  function NumeralValue(n: Numeral): real {
    Shift(n.mantissa as real, n.decimals)
  }

  /** The number of bytes an amount stands for. */
  function Value(a: Amount): real {
    Enlarge(NumeralValue(a.numeral), a.unit)
  }

  predicate InTable(x: real) {
    0.0 <= x < TABLE_END
  }

  /** `u * 10^d`: `u` in units of its `d`th decimal place. */
  function Places(u: real, d: nat): (r: real)
    ensures u >= 0.0 ==> r >= 0.0
    decreases d
  {
    if d == 0 then u else Places(u * 10.0, d - 1)
  }

  /** The count in the unit chosen for it. */
  function InUnit(x: real): real {
    Reduce(x, UnitOf(x))
  }

  lemma Reductions(x: real)
    ensures Reduce(x, 0) == x && Reduce(x, 1) == x / 1024.0 && Reduce(x, 2) == x / 1024.0 / 1024.0
    ensures Reduce(x, 3) == x / 1024.0 / 1024.0 / 1024.0
    ensures Reduce(x, 4) == x / 1024.0 / 1024.0 / 1024.0 / 1024.0
  {
    assert Reduce(x, 4) == Reduce(x, 3) / 1024.0 && Reduce(x, 2) == Reduce(x, 1) / 1024.0;
  }

  lemma ReduceRange(x: real)
    requires InTable(x)
    ensures 0.0 <= InUnit(x) < 1024.0
    ensures UnitOf(x) > 0 ==> 1.0 <= InUnit(x)
  {
    Reductions(x);
  }

  /** The amount shown for `u` units. */
  function AmountAt(cut: Cutoffs, tie: TieRule, unit: nat, u: real): Amount
    requires 0.0 <= u
  {
    var d := Ladder(cut, unit, u).decimals;
    Amount(Numeral(Round(tie, d, Places(u, d)), d), unit)
  }

  /** The amount shown for `x`. */
  function Display(cut: Cutoffs, tie: TieRule, x: real): Amount
    requires InTable(x)
  {
    ReduceRange(x);
    AmountAt(cut, tie, UnitOf(x), InUnit(x))
  }

  /** The text produced for `x`, with any pair of precision literals. */
  function TextWith(cut: Cutoffs, tie: TieRule, x: real, isSpeed: bool): string
    requires InTable(x)
  {
    var a := Display(cut, tie, x);
    Pad(Ladder(cut, a.unit, InUnit(x)).width, Fixed(a.numeral.mantissa, a.numeral.decimals))
      + Label(a.unit, isSpeed)
  }

  /** The text the program prints for `x`. */
  function Text(tie: TieRule, x: real, isSpeed: bool): string
    requires InTable(x)
  {
    TextWith(CUTOFFS, tie, x, isSpeed)
  }

  // ----- Reading a text back

  /** The unit a label names, and whether it is a rate. */
  function ReadLabel(s: string): Option<(nat, bool)> {
    if |s| > 2 && s[|s| - 2..] == "/S" then
      var k := ReadPrefix(s[..|s| - 2]);
      if k.Some? then Some((k.value, true)) else None
    else
      var k := ReadPrefix(s);
      if k.Some? then Some((k.value, false)) else None
  }

  function ReadPrefix(s: string): Option<nat> {
    if s == "B" then Some(0)
    else if s == "KB" then Some(1)
    else if s == "MB" then Some(2)
    else if s == "GB" then Some(3)
    else None
  }

  function ReadText(s: string): Option<(Amount, bool)> {
    var n := ReadNumeral(s);
    if n.None? then None
    else
      var l := ReadLabel(n.value.1);
      if l.None? then None else Some((Amount(n.value.0, l.value.0), l.value.1))
  }

  /** The number of bytes a text denotes. */
  function Denoted(s: string): Option<real> {
    var r := ReadText(s);
    if r.None? then None else Some(Value(r.value.0))
  }
}
