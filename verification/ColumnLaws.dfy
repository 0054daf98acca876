/** What a column looks like, down to its last character: blanks, a number without
    idle zeros, and the label; and that no other text of the width reads the same. */
module ColumnLaws {
  import opened Decimal
  import opened Rounding
  import opened ByteFormat
  import opened FormatLaws

  // ----- One way to write a number

  /** Digits without idle zeros: a leading zero only where `least` digits are needed. */
  predicate NoIdleZero(ds: string, least: nat) {
    AllDigits(ds) && |ds| >= least && ds != "" && (|ds| > least && |ds| > 1 ==> ds[0] != '0')
  }

  lemma {:induction false} DigitsHaveNoIdleZero(m: nat, least: nat)
    ensures NoIdleZero(Digits(m, least), least)
    ensures m > 0 && |Digits(m, least)| > least ==> Digits(m, least)[0] != '0'
    decreases m, least
  {
    if !(m < 10 && least <= 1) {
      DigitsHaveNoIdleZero(m / 10, if least == 0 then 0 else least - 1);
    }
  }

  /** The digits are determined by the number they are read as. */
  lemma {:induction false} DigitsUnique(ds: string, least: nat)
    requires NoIdleZero(ds, least) && least >= 1
    ensures ds == Digits(ReadDigits(ds), least)
    decreases |ds|
  {
    var n := |ds|;
    var front := ds[..n - 1];
    assert ds == front + [ds[n - 1]];
    assert DigitChar(DigitValue(ds[n - 1])) == ds[n - 1];
    if n == 1 {
      assert ReadDigits(front) == 0;
    } else {
      var k := if least <= 1 then 1 else least - 1;
      DigitsUnique(front, k);
      if least == 1 {
        Positive(front);
        DigitsLeast(ReadDigits(front));
      }
    }
  }

  lemma {:induction false} Positive(ds: string)
    requires AllDigits(ds) && ds != "" && ds[0] != '0'
    ensures ReadDigits(ds) > 0
    decreases |ds|
  {
    if |ds| > 1 {
      Positive(ds[..|ds| - 1]);
    } else {
      assert ds[..0] == "";
    }
  }

  lemma DigitsLeast(m: nat)
    ensures Digits(m, 0) == Digits(m, 1)
  {
  }

  // ----- Parts of a text

  lemma {:induction false} BlanksThenRest(s: string)
    ensures |DropBlanks(s)| <= |s| && s == Blanks(|s| - |DropBlanks(s)|) + DropBlanks(s)
    decreases |s|
  {
    if s != "" && s[0] == ' ' {
      BlanksThenRest(s[1..]);
      assert s == " " + s[1..];
    }
  }

  lemma Prepend(s: string, ds: string, rest: string)
    requires s != "" && s[1..] == ds + rest
    ensures s == ([s[0]] + ds) + rest
  {
  }

  lemma {:induction false} SplitJoins(s: string)
    ensures s == Split(s).0 + Split(s).1
    ensures Split(s).1 == "" || !IsDigit(Split(s).1[0])
    decreases |s|
  {
    if s != "" && IsDigit(s[0]) {
      SplitJoins(s[1..]);
      Prepend(s, Split(s[1..]).0, Split(s[1..]).1);
    }
  }

  lemma LabelUnique(s: string)
    requires ReadLabel(s).Some?
    ensures var (k, isSpeed) := ReadLabel(s).value; k < 4 && s == Label(k, isSpeed)
  {
    if |s| > 2 && s[|s| - 2..] == "/S" && ReadPrefix(s[..|s| - 2]).Some? {
      assert s == s[..|s| - 2] + "/S";
    }
  }

  /** No zero stands idle before the number: it begins with a digit, and with a zero
      only before the point or as the only digit. */
  predicate Neat(t: string) {
    t != "" && IsDigit(t[0]) && (t[0] == '0' ==> |t| == 1 || !IsDigit(t[1]))
  }

  lemma WholeUnique(t: string, whole: string, rest: string)
    requires Neat(t) && t == whole + rest && AllDigits(whole) && (rest == "" || !IsDigit(rest[0]))
    ensures t == Fixed(ReadDigits(whole), 0) + rest
  {
    assert whole != "";
    if |whole| > 1 {
      assert t[0] == whole[0] && t[1] == whole[1];
    }
    DigitsUnique(whole, 1);
  }

  lemma PointedUnique(t: string, whole: string, frac: string, rest: string)
    requires Neat(t) && t == whole + ("." + (frac + rest))
    requires AllDigits(whole) && AllDigits(frac) && frac != ""
    ensures AllDigits(whole + frac) && t == Fixed(ReadDigits(whole + frac), |frac|) + rest
  {
    var ds := whole + frac;
    assert whole != "";
    if |whole| > 1 {
      assert t[0] == whole[0] && t[1] == whole[1];
    }
    assert |whole| > 1 ==> ds[0] == whole[0];
    DigitsUnique(ds, |frac| + 1);
    PointShape(ds, |frac|, rest);
    assert ds[..|ds| - |frac|] == whole && ds[|ds| - |frac|..] == frac;
  }

  /** What is read from a neat text, printed again, is that text. */
  lemma NumeralUnique(t: string)
    requires Neat(t) && ReadNumeral(t).Some?
    ensures var (n, rest) := ReadNumeral(t).value; t == Fixed(n.mantissa, n.decimals) + rest
  {
    var whole, tail := Split(t).0, Split(t).1;
    SplitJoins(t);
    if tail != "" && tail[0] == '.' {
      var frac, rest := Split(tail[1..]).0, Split(tail[1..]).1;
      SplitJoins(tail[1..]);
      assert tail == "." + (frac + rest);
      PointedUnique(t, whole, frac, rest);
    } else {
      WholeUnique(t, whole, tail);
    }
  }

  // ----- The column

  /** A neat number with its label, moved to the right end of the column. */
  predicate WellSet(s: string, isSpeed: bool) {
    |s| == (if isSpeed then 8 else 6) && Neat(DropBlanks(s))
  }

  lemma FixedIsNeat(mantissa: nat, decimals: nat, rest: string)
    requires rest == "" || !IsDigit(rest[0])
    ensures Neat(Fixed(mantissa, decimals) + rest)
  {
    DigitsHaveNoIdleZero(mantissa, decimals + 1);
  }

  lemma TextShape(tie: TieRule, x: real, isSpeed: bool)
    requires InTable(x)
    ensures var a := Display(CUTOFFS, tie, x);
      && a.unit < 4
      && DropBlanks(Text(tie, x, isSpeed))
         == Fixed(a.numeral.mantissa, a.numeral.decimals) + Label(a.unit, isSpeed)
  {
    var a := Display(CUTOFFS, tie, x);
    var body, suffix := Fixed(a.numeral.mantissa, a.numeral.decimals), Label(a.unit, isSpeed);
    var width := Ladder(CUTOFFS, a.unit, InUnit(x)).width;
    assert (body + suffix)[0] == body[0];
    if |body| < width {
      PadShape(width, body, suffix);
      DropsPadding(width - |body|, body + suffix);
    }
  }

  /** Every text is well set: blanks fill the column, and no zero stands idle. */
  lemma TextIsWellSet(tie: TieRule, x: real, isSpeed: bool)
    requires InTable(x)
    ensures WellSet(Text(tie, x, isSpeed), isSpeed)
  {
    var a := Display(CUTOFFS, tie, x);
    ColumnWidth(tie, x, isSpeed);
    TextShape(tie, x, isSpeed);
    LabelReads(a.unit, isSpeed);
    FixedIsNeat(a.numeral.mantissa, a.numeral.decimals, Label(a.unit, isSpeed));
  }

  /** What a well-set text shows determines all its characters. */
  lemma WellSetUnique(s: string, t: string, isSpeed: bool)
    requires WellSet(s, isSpeed) && WellSet(t, isSpeed)
    requires ReadText(s).Some? && ReadText(s) == ReadText(t)
    ensures s == t
  {
    var s', t' := DropBlanks(s), DropBlanks(t);
    NeatAlone(s);
    NeatAlone(t);
    NumeralUnique(s');
    NumeralUnique(t');
    LabelUnique(ReadNumeral(s).value.1);
    LabelUnique(ReadNumeral(t).value.1);
    BlanksThenRest(s);
    BlanksThenRest(t);
  }

  lemma NeatAlone(s: string)
    requires Neat(DropBlanks(s))
    ensures ReadNumeral(DropBlanks(s)) == ReadNumeral(s)
  {
  }

  /** The text printed is the only well-set one that reads as the amount shown. */
  lemma TextIsUnique(tie: TieRule, x: real, isSpeed: bool, s: string)
    requires InTable(x)
    ensures s == Text(tie, x, isSpeed) <==>
      WellSet(s, isSpeed) && ReadText(s) == Some((Display(CUTOFFS, tie, x), isSpeed))
  {
    TextIsWellSet(tie, x, isSpeed);
    TextReadsBack(tie, x, isSpeed);
    if WellSet(s, isSpeed) && ReadText(s) == Some((Display(CUTOFFS, tie, x), isSpeed)) {
      WellSetUnique(s, Text(tie, x, isSpeed), isSpeed);
    }
  }

  /** The labels, spelled out. */
  lemma Labels()
    ensures Label(0, false) == "B" && Label(1, false) == "KB" && Label(2, false) == "MB" && Label(3, false) == "GB"
    ensures Label(0, true) == "B/S" && Label(1, true) == "KB/S" && Label(2, true) == "MB/S" && Label(3, true) == "GB/S"
  {
  }

  // ----- Samples

  lemma SevenBytes(tie: TieRule)
    ensures Text(tie, 7.0, false) == "    7B"
  {
    assert Display(CUTOFFS, tie, 7.0) == Amount(Numeral(7, 0), 0) by {
      Reductions(7.0);
      RoundUnique(tie, 0, 7.0, 7);
    }
    var s := "    7B";
    assert s == Blanks(4) + "7B" && DropBlanks("7B") == "7B";
    DropsPadding(4, "7B");
    ReadWhole("7B", "7", "B");
    assert ReadDigits("7") == 7 by { assert "7"[..0] == ""; }
    NeatAlone(s);
    TextIsUnique(tie, 7.0, false, s);
  }

  lemma HundredReads()
    ensures ReadText(" 100GB/S") == Some((Amount(Numeral(100, 0), 3), true)) && WellSet(" 100GB/S", true)
  {
    var s, t := " 100GB/S", "100GB/S";
    assert s == Blanks(1) + t;
    DropsPadding(1, t);
    ReadWhole(t, "100", "GB/S");
    assert "100"[..2] == "10" && "10"[..1] == "1" && "1"[..0] == "";
    assert ReadDigits("10") == 10;
    assert "GB/S"[2..] == "/S" && "GB/S"[..2] == "GB";
    NeatAlone(s);
  }

  lemma HundredGigabytes(tie: TieRule)
    ensures Text(tie, 100.0 * GIGA, true) == " 100GB/S"
  {
    Reductions(100.0 * GIGA);
    RoundUnique(tie, 0, 100.0, 100);
    HundredReads();
    TextIsUnique(tie, 100.0 * GIGA, true, " 100GB/S");
  }
}
