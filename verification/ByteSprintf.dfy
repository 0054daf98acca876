/** The formatter as the program runs it: the unit loop, the table look-ups and
    the bounded print into the caller's buffer. */
module ByteSprintf {
  import opened Decimal
  import opened CStrings
  import opened Rounding
  import opened ByteFormat
  import opened FormatLaws

  /** `OutsideTable`: the tables would be indexed past their end, which C leaves
      undefined. `TooSmall`: text and terminator do not fit the buffer. */
  datatype Outcome = Written | TooSmall | OutsideTable

  lemma TextHasNoNul(tie: TieRule, x: real, isSpeed: bool)
    requires InTable(x)
    ensures NoNul(Text(tie, x, isSpeed))
  {
    var a := Display(CUTOFFS, tie, x);
    var ds := Digits(a.numeral.mantissa, a.numeral.decimals + 1);
    assert forall i :: 0 <= i < |ds| ==> IsDigit(ds[i]);
    assert NoNul(Fixed(a.numeral.mantissa, a.numeral.decimals));
    assert NoNul(Label(a.unit, isSpeed));
  }

  /** `_snprintf_s` with equal size and count: all of the text and its
      terminator, or an empty string. */
  method SnprintfS(out: array<char>, at: nat, size: nat, text: string) returns (fits: bool)
    requires at + size <= out.Length
    modifies out
    ensures fits <==> |text| < size
    ensures fits ==> out[at..at + |text|] == text && out[at + |text|] == NUL
    ensures fits ==> forall i :: 0 <= i < at || at + |text| < i < out.Length ==> out[i] == old(out[i])
    ensures !fits && size > 0 ==> out[at] == NUL
    ensures forall i :: 0 <= i < at || at + size <= i < out.Length ==> out[i] == old(out[i])
  {
    fits := |text| < size;
    if !fits {
      if size > 0 {
        out[at] := NUL;
      }
      return;
    }
    for n := 0 to |text|
      invariant out[at..at + n] == text[..n]
      invariant forall i :: 0 <= i < at || at + n <= i < out.Length ==> out[i] == old(out[i])
    {
      out[at + n] := text[n];
      assert out[at..at + n + 1] == out[at..at + n] + [out[at + n]];
    }
    out[at + |text|] := NUL;
    assert out[at..at + |text|] == text[..|text|];
  }

  /** The function up to its last statement: unit, rescaling, suffix and format.
      `inside` is false where the C code would index past the tables. */
  method Compose(inNum: real, isSpeed: bool, tie: TieRule) returns (inside: bool, text: string)
    requires 0.0 <= inNum
    ensures inside <==> InTable(inNum)
    ensures inside ==> text == Text(tie, inNum, isSpeed)
  {
    var tmpNum, conv := inNum, 0;
    while tmpNum >= 1024.0 && conv <= 3
      invariant 0 <= conv <= 4
      invariant tmpNum == Reduce(inNum, conv)
      invariant Enlarge(tmpNum, conv) == inNum
      invariant conv > 0 ==> UnitSize(conv) <= inNum
      decreases 4 - conv
    {
      ReduceEnlarge(inNum, conv + 1);
      EnlargeMonotone(1024.0, tmpNum, conv);
      EnlargeShift(1.0, conv);
      tmpNum := tmpNum / 1024.0;
      conv := conv + 1;
    }
    LoopFindsUnit(inNum, conv);
    if conv >= |CONVERSION| {
      return false, "";
    }
    TableScaling(inNum, conv);
    var num := inNum * CONVERSION[conv];
    var suffix := if isSpeed then LABEL_SPEED[conv] else LABEL_TOTAL[conv];
    var format: Format;
    if conv == 0 {
      format := Format(5, 0);
    } else if num < 9.995 {
      format := Format(4, 2);
    } else if num < 99.95 {
      format := Format(4, 1);
    } else if num < 999.5 {
      format := Format(4, 0);
    } else {
      format := Format(4, 0);
    }
    ReduceRange(inNum);
    var mantissa := Round(tie, format.decimals, Places(num, format.decimals));
    return true, Pad(format.width, Fixed(mantissa, format.decimals)) + suffix;
  }

  method ByteSprintf(outString: array<char>, at: nat, inLen: nat, inNum: real, isSpeed: bool, tie: TieRule)
    returns (outcome: Outcome)
    requires at + inLen <= outString.Length
    requires 0.0 <= inNum
    modifies outString
    ensures outcome == OutsideTable <==> inNum >= TABLE_END
    ensures outcome == Written <==> InTable(inNum) && inLen >= if isSpeed then 9 else 7
    ensures outcome == Written ==> Held(outString[at..]) == Text(tie, inNum, isSpeed)
    ensures outcome == Written ==>
              var end := at + if isSpeed then 8 else 6;
              outString[end] == NUL &&
              forall i :: 0 <= i < at || end < i < outString.Length ==> outString[i] == old(outString[i])
    ensures outcome == TooSmall && inLen > 0 ==> outString[at] == NUL
    ensures outcome == OutsideTable ==> outString[..] == old(outString[..])
    ensures forall i :: 0 <= i < at || at + inLen <= i < outString.Length ==> outString[i] == old(outString[i])
  {
    var inside, text := Compose(inNum, isSpeed, tie);
    if !inside {
      return OutsideTable;
    }
    ColumnWidth(tie, inNum, isSpeed);
    var fits := SnprintfS(outString, at, inLen, text);
    outcome := if fits then Written else TooSmall;
    if fits {
      TextHasNoNul(tie, inNum, isSpeed);
      HoldsPrefix(outString[at..], text);
    }
  }

  /** What the loop's exit says about the count. */
  lemma LoopFindsUnit(x: real, conv: nat)
    requires 0.0 <= x && conv <= 4
    requires conv > 0 ==> UnitSize(conv) <= x
    requires conv == 4 || Reduce(x, conv) < 1024.0
    ensures conv == UnitOf(x)
  {
    Enlargements(1.0);
    Reductions(x);
  }
}
