/** The two precision literals are not exact in binary. For whole byte counts
    this cannot matter: which literals choose the same texts is settled here
    exactly, and the binary64 values of 9.995 and 99.95 are among them. */
module ThresholdLaws {
  import opened Rounding
  import opened ByteFormat
  import opened FormatLaws

  /** 2^40, the first count beyond the tables. */
  const COUNT_END: nat := 0x100_0000_0000

  /** Multiples of 2^-30 on either side of 9.995 and of 99.95, in units of 2^-30. */
  const TWO_LOW := 10732049530
  const ONE_LOW := 107320495308

  ghost predicate InWindow(t: real, low: int) {
    low as real < t * GIGA <= (low + 1) as real
  }

  ghost predicate CutoffsInWindow(cut: Cutoffs) {
    InWindow(cut.two, TWO_LOW) && InWindow(cut.one, ONE_LOW)
  }

  ghost predicate SameText(cut: Cutoffs, tie: TieRule, n: nat, isSpeed: bool)
    requires n < COUNT_END
  {
    TextWith(cut, tie, n as real, isSpeed) == Text(tie, n as real, isSpeed)
  }

  /** A whole count in any unit is a multiple of 2^-30. */
  function Grid(n: nat, k: nat): nat
    requires k < 4
  {
    if k == 0 then n * 0x4000_0000 else if k == 1 then n * 0x10_0000 else if k == 2 then n * 0x400 else n
  }

  lemma OnGrid(n: nat, k: nat)
    requires k < 4
    ensures Reduce(n as real, k) * GIGA == Grid(n, k) as real
  {
    Reductions(n as real);
  }

  /** No grid point separates two literals of one window. */
  lemma WindowDecides(n: nat, k: nat, t: real, low: int)
    requires k < 4 && InWindow(t, low)
    ensures Reduce(n as real, k) < t <==> Grid(n, k) <= low
  {
    OnGrid(n, k);
    var u := Reduce(n as real, k);
    assert u < t <==> u * GIGA < t * GIGA;
  }

  lemma LiteralsInWindow()
    ensures CutoffsInWindow(CUTOFFS)
  {
  }

  lemma LadderInWindow(cut: Cutoffs, n: nat, k: nat)
    requires k < 4 && CutoffsInWindow(cut)
    ensures Ladder(cut, k, Reduce(n as real, k)) == Ladder(CUTOFFS, k, Reduce(n as real, k))
  {
    LiteralsInWindow();
    WindowDecides(n, k, cut.two, TWO_LOW);
    WindowDecides(n, k, CUTOFFS.two, TWO_LOW);
    WindowDecides(n, k, cut.one, ONE_LOW);
    WindowDecides(n, k, CUTOFFS.one, ONE_LOW);
  }

  lemma WindowGivesSameText(cut: Cutoffs, tie: TieRule, n: nat, isSpeed: bool)
    requires n < COUNT_END && CutoffsInWindow(cut)
    ensures SameText(cut, tie, n, isSpeed)
  {
    LadderInWindow(cut, n, UnitOf(n as real));
  }

  /** Texts agree only if the precisions do. */
  lemma SameTextSameLadder(cut: Cutoffs, tie: TieRule, n: nat, isSpeed: bool)
    requires GIGA <= n as real && n < COUNT_END && SameText(cut, tie, n, isSpeed)
    ensures Ladder(cut, 3, Reduce(n as real, 3)).decimals == Ladder(CUTOFFS, 3, Reduce(n as real, 3)).decimals
  {
    TextWithReadsBack(cut, tie, n as real, isSpeed);
    TextWithReadsBack(CUTOFFS, tie, n as real, isSpeed);
  }

  /** The counts next to the edges of the windows tell apart any other literals. */
  lemma EdgesTell(cut: Cutoffs, tie: TieRule, isSpeed: bool)
    requires SameText(cut, tie, TWO_LOW, isSpeed) && SameText(cut, tie, TWO_LOW + 1, isSpeed)
    requires SameText(cut, tie, ONE_LOW, isSpeed) && SameText(cut, tie, ONE_LOW + 1, isSpeed)
    ensures CutoffsInWindow(cut)
  {
    SameTextSameLadder(cut, tie, TWO_LOW, isSpeed);
    SameTextSameLadder(cut, tie, TWO_LOW + 1, isSpeed);
    SameTextSameLadder(cut, tie, ONE_LOW, isSpeed);
    SameTextSameLadder(cut, tie, ONE_LOW + 1, isSpeed);
    OnGrid(TWO_LOW, 3);
    OnGrid(TWO_LOW + 1, 3);
    OnGrid(ONE_LOW, 3);
    OnGrid(ONE_LOW + 1, 3);
  }

  /** Threshold robustness, exactly: a pair of literals prints every whole count
      as 9.995 and 99.95 would if and only if each lies in its window. */
  lemma ThresholdsExact(cut: Cutoffs, tie: TieRule, isSpeed: bool)
    ensures (forall n: nat :: n < COUNT_END ==> SameText(cut, tie, n, isSpeed))
      <==> CutoffsInWindow(cut)
  {
    if CutoffsInWindow(cut) {
      forall n: nat | n < COUNT_END ensures SameText(cut, tie, n, isSpeed) {
        WindowGivesSameText(cut, tie, n, isSpeed);
      }
    }
    if forall n: nat :: n < COUNT_END ==> SameText(cut, tie, n, isSpeed) {
      EdgesTell(cut, tie, isSpeed);
    }
  }

  /** The IEEE 754 binary64 numbers nearest to 9.995 and 99.95. */
  const BINARY64 := Cutoffs(5626684784446013.0 / 562949953421312.0, 7033355980557517.0 / 70368744177664.0)

  function Pow2(e: nat): nat {
    if e == 0 then 1 else 2 * Pow2(e - 1)
  }

  /** A binary64 number has a significand of 53 bits; the nearest to `x` is within half
      a unit in its last place. */
  predicate IsNearest(t: real, x: real, significand: nat, e: nat) {
    var scale := Pow2(e) as real;
    && Pow2(52) <= significand < Pow2(53)
    && t * scale == significand as real
    && -0.5 < significand as real - x * scale < 0.5
  }

  lemma {:induction false} Pow2Sum(a: nat, b: nat)
    ensures Pow2(a + b) == Pow2(a) * Pow2(b)
  {
    if a > 0 {
      Pow2Sum(a - 1, b);
    }
  }

  lemma BinaryScales()
    ensures Pow2(46) == 0x4000_0000_0000 && Pow2(49) == 0x2_0000_0000_0000
    ensures Pow2(52) == 0x10_0000_0000_0000 && Pow2(53) == 0x20_0000_0000_0000
  {
    assert Pow2(5) == 32;
    Pow2Sum(5, 5);
    Pow2Sum(10, 10);
    Pow2Sum(20, 20);
    Pow2Sum(5, 1);
    Pow2Sum(40, 6);
    Pow2Sum(46, 3);
    Pow2Sum(49, 3);
    Pow2Sum(52, 1);
    assert Pow2(3) == 8 && Pow2(1) == 2;
  }

  /** The constants are the binary64 numbers nearest to the decimals. */
  lemma LiteralsAreNearest()
    ensures IsNearest(BINARY64.two, 9.995, 5626684784446013, 49)
    ensures IsNearest(BINARY64.one, 99.95, 7033355980557517, 46)
  {
    BinaryScales();
    assert 0x2_0000_0000_0000 as real == 562949953421312.0;
    assert 0x4000_0000_0000 as real == 70368744177664.0;
  }

  /** The literals as compiled decide exactly as the decimals written. */
  lemma CompiledLiteralsExact(tie: TieRule, n: nat, isSpeed: bool)
    requires n < COUNT_END
    ensures TextWith(BINARY64, tie, n as real, isSpeed) == Text(tie, n as real, isSpeed)
  {
    assert CutoffsInWindow(BINARY64);
    WindowGivesSameText(BINARY64, tie, n, isSpeed);
    assert SameText(BINARY64, tie, n, isSpeed);
  }
}
