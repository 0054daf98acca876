/** Decimal text: the printer behind printf's `%w.df` conversions, an
    independent reader for what it prints, and the laws relating the two. */
module Decimal {

  datatype Option<+T> = None | Some(value: T)

  function Pow10(n: nat): (p: nat)
    ensures p >= 1
  {
    if n == 0 then 1 else 10 * Pow10(n - 1)
  }

  predicate IsDigit(c: char) {
    '0' <= c <= '9'
  }

  function DigitChar(n: nat): (c: char)
    requires n < 10
    ensures IsDigit(c) && DigitValue(c) == n
  {
    '0' + n as char
  }

  function DigitValue(c: char): (n: nat)
    requires IsDigit(c)
    ensures n < 10
  {
    (c - '0') as nat
  }

  predicate AllDigits(s: string) {
    forall i :: 0 <= i < |s| ==> IsDigit(s[i])
  }

  // ----- Printing

  /** The decimal digits of `m`, with leading zeros up to at least `least` digits. */
  function Digits(m: nat, least: nat): (s: string)
    ensures AllDigits(s) && |s| >= 1 && |s| >= least
    decreases m, least
  {
    if m < 10 && least <= 1 then [DigitChar(m)]
    else Digits(m / 10, if least == 0 then 0 else least - 1) + [DigitChar(m % 10)]
  }

  /** Puts the decimal point before the last `decimals` digits. */
  function Point(ds: string, decimals: nat): (s: string)
    requires |ds| > decimals && AllDigits(ds)
    ensures |s| == |ds| + (if decimals == 0 then 0 else 1) && IsDigit(s[0])
  {
    if decimals == 0 then ds
    else ds[..|ds| - decimals] + "." + ds[|ds| - decimals..]
  }

  /** `mantissa / 10^decimals` in positional notation. */
  function Fixed(mantissa: nat, decimals: nat): string {
    Point(Digits(mantissa, decimals + 1), decimals)
  }

  function Blanks(n: nat): (s: string)
    ensures |s| == n && forall i :: 0 <= i < n ==> s[i] == ' '
  {
    if n == 0 then "" else " " + Blanks(n - 1)
  }

  /** Right-justification in a field of at least `width` columns. */
  function Pad(width: nat, s: string): (r: string) {
    if |s| >= width then s else Blanks(width - |s|) + s
  }

  // ----- Reading

  /** A number as it stands in a text: `mantissa` with the point moved left. */
  datatype Numeral = Numeral(mantissa: nat, decimals: nat)

  function DropBlanks(s: string): string {
    if s != "" && s[0] == ' ' then DropBlanks(s[1..]) else s
  }

  /** Splits off the longest prefix made of digits. */
  function Split(s: string): (r: (string, string))
    ensures AllDigits(r.0)
  {
    if s == "" || !IsDigit(s[0]) then ("", s)
    else var r := Split(s[1..]); ([s[0]] + r.0, r.1)
  }

  function ReadDigits(s: string): nat
    requires AllDigits(s)
  {
    if s == "" then 0
    else 10 * ReadDigits(s[..|s| - 1]) + DigitValue(s[|s| - 1])
  }

  /** Reads blanks, digits, an optional point with at least one digit more; returns the
      numeral and the text that follows it. */
  function ReadNumeral(s: string): Option<(Numeral, string)> {
    var (whole, rest) := Split(DropBlanks(s));
    if whole == "" then None
    else if rest != "" && rest[0] == '.' then
      var (frac, tail) := Split(rest[1..]);
      if frac == "" then None else Some((Numeral(ReadDigits(whole + frac), |frac|), tail))
    else
      Some((Numeral(ReadDigits(whole), 0), rest))
  }

  // ----- Laws

  /** The glyphs. */
  lemma DigitGlyphs(n: nat)
    requires n < 10
    ensures DigitChar(n) == "0123456789"[n] && DigitValue("0123456789"[n]) == n
  {
  }

  lemma {:induction false} DigitsReadBack(m: nat, least: nat)
    ensures ReadDigits(Digits(m, least)) == m
    decreases m, least
  {
    var ds := Digits(m, least);
    if m < 10 && least <= 1 {
      assert ds[..0] == "";
    } else {
      var k := if least == 0 then 0 else least - 1;
      DigitsReadBack(m / 10, k);
      assert ds[..|ds| - 1] == Digits(m / 10, k);
    }
  }

  /** A number below `10^n` needs at most `n` digits; one of at least `10^(n-1)` needs `n`. */
  lemma {:induction false} DigitCount(m: nat, least: nat, n: nat)
    requires n >= 1 && least <= n
    ensures m < Pow10(n) ==> |Digits(m, least)| <= n
    ensures m >= Pow10(n - 1) ==> |Digits(m, least)| >= n
    decreases n
  {
    if n > 1 && !(m < 10 && least <= 1) {
      DigitCount(m / 10, if least == 0 then 0 else least - 1, n - 1);
    }
  }

  lemma {:induction false} SplitUnique(s: string, t: string)
    requires AllDigits(s)
    requires t == "" || !IsDigit(t[0])
    ensures Split(s + t) == (s, t)
  {
    if s == "" {
      assert s + t == t;
    } else {
      assert (s + t)[1..] == s[1..] + t;
      SplitUnique(s[1..], t);
      assert [s[0]] + s[1..] == s;
    }
  }

  lemma {:induction false} DropsPadding(n: nat, s: string)
    requires s == "" || s[0] != ' '
    ensures DropBlanks(Blanks(n) + s) == s
  {
    if n == 0 {
      assert Blanks(n) + s == s;
    } else {
      assert (Blanks(n) + s)[1..] == Blanks(n - 1) + s;
      DropsPadding(n - 1, s);
    }
  }

  lemma ReadWhole(s: string, ds: string, rest: string)
    requires AllDigits(ds) && ds != ""
    requires rest == "" || (!IsDigit(rest[0]) && rest[0] != '.')
    requires s == ds + rest
    ensures ReadNumeral(s) == Some((Numeral(ReadDigits(ds), 0), rest))
  {
    SplitUnique(ds, rest);
  }

  lemma ReadPointed(s: string, ds: string, whole: string, frac: string, rest: string)
    requires AllDigits(whole) && whole != "" && AllDigits(frac) && frac != ""
    requires AllDigits(ds) && ds == whole + frac
    requires rest == "" || !IsDigit(rest[0])
    requires s == whole + ("." + (frac + rest))
    ensures ReadNumeral(s) == Some((Numeral(ReadDigits(ds), |frac|), rest))
  {
    var tail := "." + (frac + rest);
    SplitUnique(whole, tail);
    assert tail[1..] == frac + rest;
    SplitUnique(frac, rest);
  }

  lemma ReadSkipsBlanks(s: string, n: nat, t: string)
    requires t != "" && IsDigit(t[0])
    requires s == Blanks(n) + t
    ensures ReadNumeral(s) == ReadNumeral(t)
  {
    DropsPadding(n, t);
  }

  lemma PointShape(ds: string, decimals: nat, rest: string)
    requires |ds| > decimals > 0 && AllDigits(ds)
    ensures var whole, frac := ds[..|ds| - decimals], ds[|ds| - decimals..];
      whole + frac == ds && Point(ds, decimals) + rest == whole + ("." + (frac + rest))
  {
  }

  lemma PointReadBack(s: string, ds: string, decimals: nat, rest: string)
    requires |ds| > decimals > 0 && AllDigits(ds)
    requires rest == "" || !IsDigit(rest[0])
    requires s == Point(ds, decimals) + rest
    ensures ReadNumeral(s) == Some((Numeral(ReadDigits(ds), decimals), rest))
  {
    PointShape(ds, decimals, rest);
    ReadPointed(s, ds, ds[..|ds| - decimals], ds[|ds| - decimals..], rest);
  }

  lemma PadShape(width: nat, s: string, rest: string)
    requires |s| < width
    ensures Pad(width, s) + rest == Blanks(width - |s|) + (s + rest)
  {
  }

  lemma FixedReadBack(s: string, mantissa: nat, decimals: nat, rest: string)
    requires rest == "" || (!IsDigit(rest[0]) && rest[0] != '.')
    requires s == Fixed(mantissa, decimals) + rest
    ensures ReadNumeral(s) == Some((Numeral(mantissa, decimals), rest))
  {
    var ds := Digits(mantissa, decimals + 1);
    DigitsReadBack(mantissa, decimals + 1);
    if decimals == 0 {
      ReadWhole(s, ds, rest);
    } else {
      PointReadBack(s, ds, decimals, rest);
    }
  }

  /** Print then read: any mantissa, any precision, any width, any text behind
      it that could not be taken for part of the number. */
  lemma PrintReadBack(s: string, width: nat, mantissa: nat, decimals: nat, rest: string)
    requires rest == "" || (!IsDigit(rest[0]) && rest[0] != '.')
    requires s == Pad(width, Fixed(mantissa, decimals)) + rest
    ensures ReadNumeral(s) == Some((Numeral(mantissa, decimals), rest))
  {
    var body := Fixed(mantissa, decimals);
    FixedReadBack(body + rest, mantissa, decimals, rest);
    if |body| < width {
      PadShape(width, body, rest);
      ReadSkipsBlanks(s, width - |body|, body + rest);
    }
  }

  /** Columns taken: the field width, unless the digits (and point) need more. */
  lemma PrintedWidth(width: nat, mantissa: nat, decimals: nat, n: nat)
    requires n >= decimals + 1 && mantissa < Pow10(n)
    requires n == decimals + 1 || mantissa >= Pow10(n - 1)
    ensures |Fixed(mantissa, decimals)| == n + (if decimals == 0 then 0 else 1)
    ensures |Pad(width, Fixed(mantissa, decimals))|
         == if |Fixed(mantissa, decimals)| < width then width else |Fixed(mantissa, decimals)|
  {
    DigitCount(mantissa, decimals + 1, n);
  }
}
