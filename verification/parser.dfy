/**
 * The line parser: removes parenthesised comments and recognises the four
 * tokens the transducer cares about (spindle start `M3`/`M03`, spindle stop
 * `M5`/`M05`, the first `B<signed decimal>` and the first `S<digits>`).
 * The four token patterns are written as hand scanners over the text, each
 * with a predicate saying where the pattern matches.
 */
module Parser {
  import opened Optional

  predicate IsDigit(c: char) { '0' <= c <= '9' }

  predicate IsSign(c: char) { c == '+' || c == '-' }

  predicate ParenFree(s: string) {
    forall i :: 0 <= i < |s| ==> s[i] != '(' && s[i] != ')'
  }

  /** `a` can be obtained from `b` by deleting characters. */
  predicate SubsequenceOf(a: string, b: string)
    decreases |b|
  {
    a == [] || (b != [] && ((a[0] == b[0] && SubsequenceOf(a[1..], b[1..])) || SubsequenceOf(a, b[1..])))
  }

  // ---------------------------------------------------------------------
  // Comment stripping
  // ---------------------------------------------------------------------

  /** The comment depth after scanning `s` from depth `depth`; a `)` never takes it below 0. */
  function DepthAfter(s: string, depth: nat): nat
    decreases |s|
  {
    if s == [] then depth
    else if s[0] == '(' then DepthAfter(s[1..], depth + 1)
    else if s[0] == ')' then DepthAfter(s[1..], if depth > 0 then depth - 1 else 0)
    else DepthAfter(s[1..], depth)
  }

  /**
   * The characters of `s` kept when scanning starts at comment depth `depth`:
   * parentheses are always dropped, other characters only survive at depth 0.
   */
  function StripFrom(s: string, depth: nat): (r: string)
    ensures ParenFree(r)
    ensures SubsequenceOf(r, s)
    ensures depth == 0 && ParenFree(s) ==> r == s
    ensures depth > 0 && (forall i :: 0 <= i < |s| ==> s[i] != ')') ==> r == []
    decreases |s|
  {
    if s == [] then []
    else if s[0] == '(' then StripFrom(s[1..], depth + 1)
    else if s[0] == ')' then StripFrom(s[1..], if depth > 0 then depth - 1 else 0)
    else if depth == 0 then
      var rest := StripFrom(s[1..], 0);
      assert ([s[0]] + rest)[1..] == rest;
      [s[0]] + rest
    else StripFrom(s[1..], depth)
  }

  /** The line with every parenthesised comment removed. */
  function StripParenComments(s: string): (r: string)
    ensures ParenFree(r)
    ensures SubsequenceOf(r, s)
    ensures ParenFree(s) ==> r == s
  {
    StripFrom(s, 0)
  }

  /** The same removal as a character loop with an explicit depth counter. */
  method StripParenCommentsLoop(s: string) returns (out: string)
    ensures out == StripParenComments(s)
  {
    out := [];
    var depth: nat := 0;
    var i := 0;
    while i < |s|
      invariant 0 <= i <= |s|
      invariant out + StripFrom(s[i..], depth) == StripFrom(s, 0)
    {
      var ch := s[i];
      StripLoopStep(s, i, depth, out);
      if ch == '(' {
        depth := depth + 1;
      } else if ch == ')' {
        if depth > 0 {
          depth := depth - 1;
        }
      } else if depth == 0 {
        out := out + [ch];
      }
      i := i + 1;
    }
    assert s[i..] == [];
  }

  /** One turn of the stripping loop keeps its invariant, in each of the loop's four branches. */
  lemma StripLoopStep(s: string, i: nat, depth: nat, out: string)
    requires i < |s| && out + StripFrom(s[i..], depth) == StripFrom(s, 0)
    ensures s[i] == '(' ==> out + StripFrom(s[i + 1..], depth + 1) == StripFrom(s, 0)
    ensures s[i] == ')' ==> out + StripFrom(s[i + 1..], if depth > 0 then depth - 1 else 0) == StripFrom(s, 0)
    ensures s[i] != '(' && s[i] != ')' && depth == 0 ==> (out + [s[i]]) + StripFrom(s[i + 1..], 0) == StripFrom(s, 0)
    ensures s[i] != '(' && s[i] != ')' && depth > 0 ==> out + StripFrom(s[i + 1..], depth) == StripFrom(s, 0)
  {
    var t := s[i..];
    assert t[0] == s[i] && t[1..] == s[i + 1..];
    if s[i] != '(' && s[i] != ')' && depth == 0 {
      assert StripFrom(t, 0) == [s[i]] + StripFrom(s[i + 1..], 0);
      assert out + ([s[i]] + StripFrom(s[i + 1..], 0)) == (out + [s[i]]) + StripFrom(s[i + 1..], 0);
    }
  }

  /** Stripping distributes over concatenation, carrying the depth across. */
  lemma {:induction false} StripAppend(a: string, b: string, depth: nat)
    ensures StripFrom(a + b, depth) == StripFrom(a, depth) + StripFrom(b, DepthAfter(a, depth))
    decreases |a|
  {
    if a == [] {
      assert a + b == b;
    } else {
      assert (a + b)[0] == a[0] && (a + b)[1..] == a[1..] + b;
      var d' := if a[0] == '(' then depth + 1
                else if a[0] == ')' then (if depth > 0 then depth - 1 else 0)
                else depth;
      StripAppend(a[1..], b, d');
    }
  }

  /** A closed comment without parentheses inside vanishes, whatever it holds. */
  lemma ClosedCommentVanishes(a: string, c: string, b: string)
    requires ParenFree(a) && ParenFree(c)
    ensures StripParenComments(a + "(" + c + ")" + b) == a + StripParenComments(b)
  {
    var tail := "(" + c + ")" + b;
    assert a + "(" + c + ")" + b == a + tail;
    StripAppend(a, tail, 0);
    ParenFreeKeepsDepth(a, 0);
    CommentThenRest(c, b);
  }

  /** Scanning from depth 0, a leading comment `(c)` is skipped. */
  lemma CommentThenRest(c: string, b: string)
    requires ParenFree(c)
    ensures StripFrom("(" + c + ")" + b, 0) == StripFrom(b, 0)
  {
    var open := "(" + c;
    var close := ")" + b;
    assert "(" + c + ")" + b == open + close;
    StripAppend(open, close, 0);
    assert open[0] == '(' && open[1..] == c;
    ParenFreeKeepsDepth(c, 1);
    assert StripFrom(open, 0) == StripFrom(c, 1) == [];
    assert DepthAfter(open, 0) == DepthAfter(c, 1) == 1;
    assert close[0] == ')' && close[1..] == b;
  }

  /** A `)` outside any comment is dropped, and the depth stays at 0. */
  lemma StrayCloseDropped(a: string, b: string)
    requires ParenFree(a)
    ensures StripParenComments(a + ")" + b) == a + StripParenComments(b)
  {
    var rest := ")" + b;
    assert a + ")" + b == a + rest;
    StripAppend(a, rest, 0);
    ParenFreeKeepsDepth(a, 0);
    assert rest[0] == ')' && rest[1..] == b;
  }

  /** Inside a comment at depth `k`, paren-free text and the `)` after it only lower the depth by one. */
  lemma CloseAtDepth(c: string, b: string, k: nat)
    requires ParenFree(c) && k > 0
    ensures StripFrom(c + ")" + b, k) == StripFrom(b, k - 1)
  {
    var rest := ")" + b;
    assert c + ")" + b == c + rest;
    StripAppend(c, rest, k);
    ParenFreeKeepsDepth(c, k);
    assert StripFrom(c, k) == [];
    assert rest[0] == ')' && rest[1..] == b;
  }

  /** Comments nest: `((c)d)` vanishes as a whole, the inner `)` does not end it. */
  lemma NestedCommentVanishes(a: string, c: string, d: string, b: string)
    requires ParenFree(a) && ParenFree(c) && ParenFree(d)
    ensures StripParenComments(a + "((" + c + ")" + d + ")" + b) == a + StripParenComments(b)
  {
    var inner := d + ")" + b;
    var body := c + ")" + inner;
    var rest := "((" + body;
    assert a + "((" + c + ")" + d + ")" + b == a + rest;
    StripAppend(a, rest, 0);
    ParenFreeKeepsDepth(a, 0);
    assert rest[0] == '(' && rest[1..][0] == '(' && rest[1..][1..] == body;
    assert StripFrom(rest, 0) == StripFrom(body, 2);
    CloseAtDepth(c, inner, 2);
    CloseAtDepth(d, b, 1);
  }

  /** Everything after a `(` that is never closed is dropped. */
  lemma UnclosedCommentDropsRest(a: string, b: string)
    requires forall i :: 0 <= i < |b| ==> b[i] != ')'
    ensures StripParenComments(a + "(" + b) == StripParenComments(a)
  {
    var rest := "(" + b;
    assert a + "(" + b == a + rest;
    StripAppend(a, rest, 0);
    var d := DepthAfter(a, 0);
    assert rest[0] == '(' && rest[1..] == b;
    assert StripFrom(rest, d) == StripFrom(b, d + 1) == [];
    assert StripFrom(a, 0) + [] == StripFrom(a, 0);
  }

  lemma {:induction false} ParenFreeKeepsDepth(s: string, depth: nat)
    requires ParenFree(s)
    ensures DepthAfter(s, depth) == depth
    decreases |s|
  {
    if s != [] {
      ParenFreeKeepsDepth(s[1..], depth);
    }
  }

  // ---------------------------------------------------------------------
  // Spindle tokens: M0?3 and M0?5, not followed by a digit
  // ---------------------------------------------------------------------

  /** The pattern `M0?<code>` not followed by a digit matches at index `i`. */
  predicate MCodeAt(s: string, i: int, code: char)
  {
    0 <= i < |s| && s[i] == 'M' &&
    ((i + 1 < |s| && s[i + 1] == code && !(i + 2 < |s| && IsDigit(s[i + 2])))
     || (i + 2 < |s| && s[i + 1] == '0' && s[i + 2] == code && !(i + 3 < |s| && IsDigit(s[i + 3]))))
  }

  /** Whether the pattern matches at some index from `i` on. */
  function HasMCodeFrom(s: string, i: nat, code: char): (r: bool)
    ensures r <==> exists j :: i <= j < |s| && MCodeAt(s, j, code)
    decreases |s| - i
  {
    if i >= |s| then false
    else MCodeAt(s, i, code) || HasMCodeFrom(s, i + 1, code)
  }

  function HasMCode(s: string, code: char): (r: bool)
    ensures r <==> exists j :: 0 <= j < |s| && MCodeAt(s, j, code)
  {
    HasMCodeFrom(s, 0, code)
  }

  // ---------------------------------------------------------------------
  // Digit runs and their values
  // ---------------------------------------------------------------------

  /** The end of the maximal run of digits starting at `j`. */
  function DigitRunEnd(s: string, j: nat): (e: nat)
    requires j <= |s|
    ensures j <= e <= |s|
    ensures forall k :: j <= k < e ==> IsDigit(s[k])
    ensures e == |s| || !IsDigit(s[e])
    decreases |s| - j
  {
    if j < |s| && IsDigit(s[j]) then DigitRunEnd(s, j + 1) else j
  }

  predicate AllDigits(ds: string) {
    forall k :: 0 <= k < |ds| ==> IsDigit(ds[k])
  }

  function DigitValue(c: char): nat
    requires IsDigit(c)
  {
    (c as int - '0' as int) as nat
  }

  /** The value of a decimal digit string, most significant digit first. */
  function DigitsValue(ds: string): nat
    requires AllDigits(ds)
    decreases |ds|
  {
    if ds == [] then 0
    else DigitsValue(ds[..|ds| - 1]) * 10 + DigitValue(ds[|ds| - 1])
  }

  function Pow10(k: nat): (p: nat)
    ensures p >= 1
  {
    if k == 0 then 1 else 10 * Pow10(k - 1)
  }

  /** A digit string read as the fractional part after a decimal point. */
  function FractionValue(ds: string): real
    requires AllDigits(ds)
  {
    DigitsValue(ds) as real / Pow10(|ds|) as real
  }

  function DigitChar(d: nat): (c: char)
    requires d < 10
    ensures IsDigit(c) && DigitValue(c) == d
  {
    ('0' as int + d) as char
  }

  /** The decimal rendering of a natural number, without leading zeros. */
  function NatToDigits(n: nat): (ds: string)
    ensures |ds| >= 1 && AllDigits(ds)
    ensures DigitsValue(ds) == n
    ensures |ds| == 1 || ds[0] != '0'
    decreases n
  {
    if n < 10 then [DigitChar(n)]
    else
      var front := NatToDigits(n / 10);
      var ds := front + [DigitChar(n % 10)];
      assert ds[..|ds| - 1] == front;
      assert ds[0] == front[0];
      ds
  }

  /** The decimal rendering of an integer, with a leading `-` when negative. */
  function IntToString(n: int): (t: string)
    ensures n >= 0 ==> t == NatToDigits(n)
    ensures n < 0 ==> t == "-" + NatToDigits(-n)
  {
    if n < 0 then "-" + NatToDigits(-n) else NatToDigits(n)
  }

  // ---------------------------------------------------------------------
  // Speed token: S followed by one or more digits
  // ---------------------------------------------------------------------

  predicate SAt(s: string, i: int) {
    0 <= i && i + 1 < |s| && s[i] == 'S' && IsDigit(s[i + 1])
  }

  /** The leftmost index from `i` on at which the speed pattern matches. */
  function FindS(s: string, i: nat): (r: Option<nat>)
    ensures r.Some? ==> i <= r.value && SAt(s, r.value)
    ensures r.Some? ==> forall m :: i <= m < r.value ==> !SAt(s, m)
    ensures r.None? ==> forall m :: i <= m < |s| ==> !SAt(s, m)
    decreases |s| - i
  {
    if i >= |s| then None
    else if SAt(s, i) then Some(i)
    else FindS(s, i + 1)
  }

  /**
   * The most digits CPython's `int()` converts from a decimal string: the
   * default of `sys.int_info.default_max_str_digits`. A longer digit string
   * raises `ValueError`.
   */
  const IntMaxStrDigits: nat := 4300

  /** The digit run of the speed token matching at `i` is longer than `int()` accepts. */
  predicate SpeedRunTooLong(s: string, i: int)
    requires SAt(s, i)
  {
    DigitRunEnd(s, i + 1) - (i + 1) > IntMaxStrDigits
  }

  /** The leftmost speed token's digit run is longer than `int()` accepts. */
  predicate FirstSpeedTooLong(s: string) {
    exists i :: 0 <= i < |s| && SAt(s, i) && (forall m :: 0 <= m < i ==> !SAt(s, m)) && SpeedRunTooLong(s, i)
  }

  /**
   * The value of the first `S<digits>` token: its maximal digit run, or none
   * when that run is too long for `int()`. Later tokens are not consulted.
   */
  function FirstS(s: string): (r: Option<int>)
    ensures r.None? <==> (forall m :: 0 <= m < |s| ==> !SAt(s, m)) || FirstSpeedTooLong(s)
    ensures r.Some? ==> exists i :: SAt(s, i) && (forall m :: 0 <= m < i ==> !SAt(s, m))
                                  && !SpeedRunTooLong(s, i)
                                  && r.value == DigitsValue(s[i + 1..DigitRunEnd(s, i + 1)])
  {
    match FindS(s, 0)
    case None => None
    case Some(i) =>
      FirstMatchUnique(s, i);
      var e := DigitRunEnd(s, i + 1);
      if e - (i + 1) > IntMaxStrDigits then None else Some(DigitsValue(s[i + 1..e]))
  }

  /** A leftmost speed token whose digit run fits `int()` gives the value of that run. */
  lemma FirstSOfRun(s: string, i: nat)
    requires FindS(s, 0) == Some(i)
    requires DigitRunEnd(s, i + 1) - (i + 1) <= IntMaxStrDigits
    ensures FirstS(s) == Some(DigitsValue(s[i + 1..DigitRunEnd(s, i + 1)]))
  {
  }

  /** Only one index is the leftmost match of the speed pattern. */
  lemma FirstMatchUnique(s: string, i: nat)
    requires FindS(s, 0) == Some(i)
    ensures FirstSpeedTooLong(s) <==> SpeedRunTooLong(s, i)
  {
    assert SAt(s, i) && forall m :: 0 <= m < i ==> !SAt(s, m);
    if FirstSpeedTooLong(s) {
      var j :| 0 <= j < |s| && SAt(s, j) && (forall m :: 0 <= m < j ==> !SAt(s, m)) && SpeedRunTooLong(s, j);
      assert !(j < i) && !(i < j);
    }
  }

  // ---------------------------------------------------------------------
  // Angle token: B followed by an optionally signed decimal number
  // ---------------------------------------------------------------------

  /** An unsigned number starts at `j`: a digit, or a point followed by a digit. */
  predicate UnsignedStartsAt(s: string, j: int) {
    0 <= j && ((j < |s| && IsDigit(s[j])) || (j + 1 < |s| && s[j] == '.' && IsDigit(s[j + 1])))
  }

  /** The angle pattern matches at `i`: `B`, an optional sign, then an unsigned number. */
  predicate BAt(s: string, i: int) {
    0 <= i < |s| && s[i] == 'B' &&
    (UnsignedStartsAt(s, i + 1) || (i + 1 < |s| && IsSign(s[i + 1]) && UnsignedStartsAt(s, i + 2)))
  }

  /**
   * The value of the unsigned number at `j`: digits with an optional point and
   * optional fraction digits, or a point followed by fraction digits.
   */
  function UnsignedValueAt(s: string, j: nat): (v: real)
    requires UnsignedStartsAt(s, j)
    ensures v >= 0.0
  {
    if IsDigit(s[j]) then
      var e := DigitRunEnd(s, j);
      var whole := DigitsValue(s[j..e]) as real;
      if e < |s| && s[e] == '.' then
        var f := DigitRunEnd(s, e + 1);
        whole + FractionValue(s[e + 1..f])
      else whole
    else
      var f := DigitRunEnd(s, j + 1);
      FractionValue(s[j + 1..f])
  }

  /** The signed value of the angle token matching at `i`. */
  function BValueAt(s: string, i: nat): real
    requires BAt(s, i)
  {
    if IsSign(s[i + 1]) then
      var mag := UnsignedValueAt(s, i + 2);
      if s[i + 1] == '-' then -mag else mag
    else UnsignedValueAt(s, i + 1)
  }

  /** The leftmost index from `i` on at which the angle pattern matches. */
  function FindB(s: string, i: nat): (r: Option<nat>)
    ensures r.Some? ==> i <= r.value && BAt(s, r.value)
    ensures r.Some? ==> forall m :: i <= m < r.value ==> !BAt(s, m)
    ensures r.None? ==> forall m :: i <= m < |s| ==> !BAt(s, m)
    decreases |s| - i
  {
    if i >= |s| then None
    else if BAt(s, i) then Some(i)
    else FindB(s, i + 1)
  }

  /** The value of the first angle token, if any. */
  function FirstB(s: string): (r: Option<real>)
    ensures r.None? <==> forall m :: 0 <= m < |s| ==> !BAt(s, m)
    ensures r.Some? ==> exists i :: BAt(s, i) && (forall m :: 0 <= m < i ==> !BAt(s, m))
                                  && r.value == BValueAt(s, i)
  {
    match FindB(s, 0)
    case None => None
    case Some(i) => Some(BValueAt(s, i))
  }

  // ---------------------------------------------------------------------
  // The parsed line
  // ---------------------------------------------------------------------

  datatype ParsedLine = ParsedLine(hasM03: bool, hasM05: bool, bDeg: Option<real>, sRpm: Option<int>)

  /**
   * Parses one line: every token is looked for in the comment-free text only,
   * and a token that does not match is reported as absent.
   */
  function ParseLine(line: string): (p: ParsedLine)
    ensures var core := StripParenComments(line);
      && (p.hasM03 <==> exists j :: 0 <= j < |core| && MCodeAt(core, j, '3'))
      && (p.hasM05 <==> exists j :: 0 <= j < |core| && MCodeAt(core, j, '5'))
      && (p.bDeg.Some? <==> exists j :: 0 <= j < |core| && BAt(core, j))
      && (p.sRpm.Some? <==> (exists j :: 0 <= j < |core| && SAt(core, j)) && !FirstSpeedTooLong(core))
      && p.bDeg == FirstB(core) && p.sRpm == FirstS(core)
  {
    var core := StripParenComments(line);
    ParsedLine(HasMCode(core, '3'), HasMCode(core, '5'), FirstB(core), FirstS(core))
  }

  /** On text without parentheses the parser reads the four tokens from the text itself. */
  lemma ParseParenFree(s: string)
    requires ParenFree(s)
    ensures ParseLine(s) == ParsedLine(HasMCode(s, '3'), HasMCode(s, '5'), FirstB(s), FirstS(s))
  {
    assert StripParenComments(s) == s;
  }

  /** Without an `M` there is no spindle code. */
  lemma NoMCodeWithoutM(s: string, code: char)
    requires forall k :: 0 <= k < |s| ==> s[k] != 'M'
    ensures !HasMCode(s, code)
  {
  }

  /** Without the code character there is no spindle code of that kind. */
  lemma NoMCodeWithoutCode(s: string, code: char)
    requires forall k :: 0 <= k < |s| ==> s[k] != code
    ensures !HasMCode(s, code)
  {
  }

  /** Without an `S` there is no speed. */
  lemma NoSpeedWithoutS(s: string)
    requires forall k :: 0 <= k < |s| ==> s[k] != 'S'
    ensures FirstS(s) == None
  {
  }

  /** Without a `B` there is no angle. */
  lemma NoAngleWithoutB(s: string)
    requires forall k :: 0 <= k < |s| ==> s[k] != 'B'
    ensures FirstB(s) == None
  {
  }

  /** The angle scan from `i` stops at the first index where the pattern matches. */
  lemma {:induction false} FindBFirstAt(s: string, i: nat, j: nat)
    requires i <= j && BAt(s, j)
    requires forall m :: i <= m < j ==> !BAt(s, m)
    ensures FindB(s, i) == Some(j)
    decreases j - i
  {
    if i < j {
      FindBFirstAt(s, i + 1, j);
    }
  }

  /** The speed scan from `i` stops at the first index where the pattern matches. */
  lemma {:induction false} FindSFirstAt(s: string, i: nat, j: nat)
    requires i <= j && SAt(s, j)
    requires forall m :: i <= m < j ==> !SAt(s, m)
    ensures FindS(s, i) == Some(j)
    decreases j - i
  {
    if i < j {
      FindSFirstAt(s, i + 1, j);
    }
  }

  lemma {:induction false} DigitRunToEnd(s: string, j: nat)
    requires j <= |s|
    requires forall k :: j <= k < |s| ==> IsDigit(s[k])
    ensures DigitRunEnd(s, j) == |s|
    decreases |s| - j
  {
    if j < |s| {
      DigitRunToEnd(s, j + 1);
    }
  }

  /**
   * An inserted speed line `S<n>` parses back to exactly the speed `n` and
   * carries no other token.
   */
  lemma SpeedLineParsesBack(n: nat)
    ensures |NatToDigits(n)| <= IntMaxStrDigits ==> ParseLine("S" + NatToDigits(n)) == ParsedLine(false, false, None, Some(n))
    ensures |NatToDigits(n)| > IntMaxStrDigits ==> ParseLine("S" + NatToDigits(n)) == ParsedLine(false, false, None, None)
  {
    var ds := NatToDigits(n);
    var s := "S" + ds;
    assert s[1..] == ds;
    assert forall k :: 1 <= k < |s| ==> s[k] == ds[k - 1];
    SpeedTokenOnly(s);
  }

  /** A line of `S` followed by digits only carries that speed and nothing else. */
  lemma SpeedTokenOnly(s: string)
    requires |s| >= 2 && s[0] == 'S'
    requires forall k :: 1 <= k < |s| ==> IsDigit(s[k])
    ensures ParseLine(s) == ParsedLine(false, false, None, if |s| - 1 <= IntMaxStrDigits then Some(DigitsValue(s[1..])) else None)
  {
    assert ParenFree(s);
    assert StripParenComments(s) == s;
    assert forall j :: 0 <= j < |s| ==> !MCodeAt(s, j, '3') && !MCodeAt(s, j, '5') && !BAt(s, j);
    assert SAt(s, 0);
    assert FindS(s, 0) == Some(0);
    DigitRunToEnd(s, 1);
    assert s[1..|s|] == s[1..];
  }
}
