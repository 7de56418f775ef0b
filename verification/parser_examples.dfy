/** Worked examples of the line parser on the token forms the patterns accept and refuse. */
module ParserExamples {
  import opened Optional
  import opened Parser

  lemma DigitsValueOne(ds: string)
    requires |ds| == 1 && AllDigits(ds)
    ensures DigitsValue(ds) == DigitValue(ds[0])
  {
    assert ds[..0] == [];
  }

  lemma DigitsValueTwo(ds: string)
    requires |ds| == 2 && AllDigits(ds)
    ensures DigitsValue(ds) == DigitValue(ds[0]) * 10 + DigitValue(ds[1])
  {
    DigitsValueOne(ds[..1]);
  }

  lemma DigitsValueFour(ds: string)
    requires |ds| == 4 && AllDigits(ds)
    ensures DigitsValue(ds) == ((DigitValue(ds[0]) * 10 + DigitValue(ds[1])) * 10 + DigitValue(ds[2])) * 10 + DigitValue(ds[3])
  {
    DigitsValueTwo(ds[..2]);
    assert ds[..3][..2] == ds[..2];
  }

  /** The value of a two-digit number with one fraction digit, `dd.d`, ended by a non-digit or the end. */
  lemma PointNumberValue(s: string, j: nat)
    requires j + 4 <= |s| && IsDigit(s[j]) && IsDigit(s[j + 1]) && s[j + 2] == '.' && IsDigit(s[j + 3])
    requires j + 4 == |s| || !IsDigit(s[j + 4])
    ensures UnsignedValueAt(s, j) == (DigitValue(s[j]) * 10 + DigitValue(s[j + 1])) as real + DigitValue(s[j + 3]) as real / 10.0
  {
    assert DigitRunEnd(s, j + 2) == j + 2;
    assert DigitRunEnd(s, j) == j + 2;
    DigitsValueTwo(s[j..j + 2]);
    assert DigitRunEnd(s, j + 4) == j + 4;
    assert DigitRunEnd(s, j + 3) == j + 4;
    DigitsValueOne(s[j + 3..j + 4]);
  }

  /** A speed inside a comment is not a speed: `(S100)` carries none. */
  lemma CommentedSpeedIgnored(s: string)
    requires |s| == 6 && s[0] == '(' && s[1] == 'S' && s[2] == '1' && s[3] == '0' && s[4] == '0' && s[5] == ')'
    ensures ParseLine(s).sRpm == None
  {
    var c := s[1..5];
    assert s == [] + "(" + c + ")" + [];
    assert ParenFree(c);
    ClosedCommentVanishes([], c, []);
    assert StripParenComments(s) == [];
  }

  /** `M30` (program end) is not a spindle start. */
  lemma ProgramEndIsNotSpindleStart(s: string)
    requires |s| == 3 && s[0] == 'M' && s[1] == '3' && s[2] == '0'
    ensures !ParseLine(s).hasM03
  {
    assert ParenFree(s);
    ParseParenFree(s);
    assert !MCodeAt(s, 0, '3') && !MCodeAt(s, 1, '3') && !MCodeAt(s, 2, '3');
  }

  /** `M003` is not a spindle start either: at most one leading zero. */
  lemma DoubleZeroIsNotSpindleStart(s: string)
    requires |s| == 4 && s[0] == 'M' && s[1] == '0' && s[2] == '0' && s[3] == '3'
    ensures !ParseLine(s).hasM03
  {
    assert ParenFree(s);
    ParseParenFree(s);
    assert !MCodeAt(s, 0, '3') && !MCodeAt(s, 1, '3') && !MCodeAt(s, 2, '3') && !MCodeAt(s, 3, '3');
  }

  /** `M3` at the end of a line starts the spindle and does not stop it. */
  lemma ShortSpindleStart(s: string)
    requires |s| == 2 && s[0] == 'M' && s[1] == '3'
    ensures ParseLine(s).hasM03 && !ParseLine(s).hasM05
  {
    assert ParenFree(s);
    ParseParenFree(s);
    assert MCodeAt(s, 0, '3');
    assert !MCodeAt(s, 0, '5') && !MCodeAt(s, 1, '5');
  }

  /** A bare `B`, `B-` or `B.` is not an angle. */
  lemma BareAngleLettersIgnored(s: string)
    requires |s| == 1 || (|s| == 2 && (s[1] == '-' || s[1] == '.'))
    requires s[0] == 'B'
    ensures ParseLine(s).bDeg == None
  {
    assert ParenFree(s);
    ParseParenFree(s);
    assert !BAt(s, 0);
    assert |s| == 2 ==> !BAt(s, 1);
  }

  /** A number with a point and fraction digits: `B12.5` reads as 12.5. */
  lemma FractionalAngle(s: string)
    requires |s| == 5 && s[0] == 'B' && s[1] == '1' && s[2] == '2' && s[3] == '.' && s[4] == '5'
    ensures ParseLine(s).bDeg == Some(12.5)
  {
    assert ParenFree(s);
    ParseParenFree(s);
    assert BAt(s, 0) && FindB(s, 0) == Some(0);
    PointNumberValue(s, 1);
  }

  /** A number ending in a point: `B12.` reads as 12. */
  lemma TrailingPointAngle(s: string)
    requires |s| == 4 && s[0] == 'B' && s[1] == '1' && s[2] == '2' && s[3] == '.'
    ensures ParseLine(s).bDeg == Some(12.0)
  {
    assert ParenFree(s);
    ParseParenFree(s);
    assert BAt(s, 0) && FindB(s, 0) == Some(0);
    assert DigitRunEnd(s, 3) == 3;
    assert DigitRunEnd(s, 1) == 3;
    DigitsValueTwo(s[1..3]);
    assert DigitRunEnd(s, 4) == 4;
    assert s[4..4] == [];
  }

  /** A signed number starting with a point: `B-.5` reads as -0.5. */
  lemma SignedPointAngle(s: string)
    requires |s| == 4 && s[0] == 'B' && s[1] == '-' && s[2] == '.' && s[3] == '5'
    ensures ParseLine(s).bDeg == Some(-0.5)
  {
    assert ParenFree(s);
    ParseParenFree(s);
    assert BAt(s, 0) && FindB(s, 0) == Some(0);
    assert DigitRunEnd(s, 4) == 4;
    assert DigitRunEnd(s, 3) == 4;
    DigitsValueOne(s[3..4]);
  }

  /** An angle glued to the previous word is still found: `Y-1.5B10.8C0` carries 10.8. */
  lemma GluedAngle(s: string)
    requires |s| == 12 && s[0] == 'Y' && s[1] == '-' && s[2] == '1' && s[3] == '.' && s[4] == '5'
    requires s[5] == 'B' && s[6] == '1' && s[7] == '0' && s[8] == '.' && s[9] == '8'
    requires s[10] == 'C' && s[11] == '0'
    ensures ParseLine(s).bDeg == Some(10.8)
  {
    assert ParenFree(s);
    ParseParenFree(s);
    assert BAt(s, 5) by { assert UnsignedStartsAt(s, 6); }
    forall m | 0 <= m < 5
      ensures !BAt(s, m)
    {
      assert m == 0 || m == 1 || m == 2 || m == 3 || m == 4;
    }
    FindBFirstAt(s, 0, 5);
    PointNumberValue(s, 6);
    assert UnsignedValueAt(s, 6) == 10.8;
  }

  /** The speed is the whole digit run after the first `S` that has one: `SXS0120` reads as 120. */
  lemma SpeedAfterBareLetter(s: string)
    requires |s| == 7 && s[0] == 'S' && s[1] == 'X' && s[2] == 'S'
    requires s[3] == '0' && s[4] == '1' && s[5] == '2' && s[6] == '0'
    ensures ParseLine(s).sRpm == Some(120)
  {
    assert ParenFree(s);
    ParseParenFree(s);
    BareLetterScan(s);
    DigitsValueFour(s[3..7]);
    FirstSOfRun(s, 2);
  }

  lemma BareLetterScan(s: string)
    requires |s| == 7 && s[0] == 'S' && s[1] == 'X' && s[2] == 'S'
    requires s[3] == '0' && s[4] == '1' && s[5] == '2' && s[6] == '0'
    ensures FindS(s, 0) == Some(2) && DigitRunEnd(s, 3) == 7
  {
    forall m | 0 <= m < 2
      ensures !SAt(s, m)
    {
      assert m == 0 || m == 1;
    }
    FindSFirstAt(s, 0, 2);
    assert DigitRunEnd(s, 7) == 7;
  }
}
