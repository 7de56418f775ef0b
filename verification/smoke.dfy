/**
 * The end-to-end example the repository's smoke test runs: ten CR LF lines
 * with a spindle start, three B positions while the spindle turns, a stop
 * and a fourth B position. With the trigonometry pinned to the sines of
 * 76, 77 and 78 degrees, exactly one speed line is inserted.
 */
module Scenario {
  import opened Optional
  import opened Config
  import opened Parser
  import opened Rpm
  import opened Report
  import opened Injector
  import opened Processor
  import opened ParserExamples

  /** The smoke test's configuration; the fields it leaves out keep their defaults. */
  function SmokeConfig(): (c: BcssConfig)
    ensures c.invertBToTheta && FormulaOf(c.mode) == Relative
  {
    BcssConfig(20.0, 12.0, 8000, 1.0, 1.0, 1000, 20000, 10, 50, true, "relative", 0.0)
  }

  /** The sine function agrees with the double-precision sines at the angles the run needs. */
  predicate TrueSines(sinDeg: real -> real) {
    && sinDeg(78.0) == 0.9781476007338056
    && sinDeg(77.0) == 0.9743700647852352
    && sinDeg(76.0) == 0.9702957262759965
  }

  /**
   * The first pending angle, 77 degrees, gives 8030 rpm, within the deadband
   * of the programmed 8000; the second, 76 degrees, gives 8060, outside it.
   * Neither is clamped or raised to the minimum angle.
   */
  lemma SmokeSpeeds(sinDeg: real -> real, last: Option<int>)
    requires TrueSines(sinDeg)
    ensures var d := ComputeSForTheta(RpmModel(SmokeConfig(), sinDeg, last), 77.0);
      d.rpmClamped == 8030 && !d.clamped && d.thetaUsedDeg == 77.0
    ensures var d := ComputeSForTheta(RpmModel(SmokeConfig(), sinDeg, last), 76.0);
      d.rpmClamped == 8060 && !d.clamped && d.thetaUsedDeg == 76.0
    ensures !ShouldInsert(RpmModel(SmokeConfig(), sinDeg, Some(8000)), 8030)
    ensures ShouldInsert(RpmModel(SmokeConfig(), sinDeg, Some(8000)), 8060)
  {
    var m := RpmModel(SmokeConfig(), sinDeg, last);
    assert ThetaRefUsed(m.cfg) == 78.0;
    assert SinRef(m) == 0.9781476007338056;
    SpeedAt(m, 77.0, 0.9743700647852352, 803);
    SpeedAt(m, 76.0, 0.9702957262759965, 806);
  }

  lemma SpeedAt(m: RpmModel, theta: real, s: real, q: int)
    requires m.cfg == SmokeConfig() && SinRef(m) == 0.9781476007338056
    requires theta >= 1.0 && m.sinDeg(theta) == s && s >= 0.5
    requires q as real * s <= 800.0 * 0.9781476007338056 < (q as real + 0.5) * s
    requires 1000 <= 10 * q <= 20000
    ensures var d := ComputeSForTheta(m, theta);
      d.rpmClamped == 10 * q && !d.clamped && d.thetaUsedDeg == theta
  {
    var a := 0.9781476007338056;
    var raw := RelativeRaw(m, theta);
    assert GuardSin(s) == s;
    var x := raw / 10.0;
    assert x == 800.0 * a / s by {
      assert raw == 8000.0 * (a / s);
    }
    assert q as real <= x < q as real + 0.5 by {
      QuotientBounds(800.0 * a, s, q as real);
    }
    assert RoundHalfEven(x) == q by {
      assert x.Floor == q;
    }
    assert RoundToUnit(raw, 10) == 10 * q;
  }

  /** Bounds on a quotient from bounds on the products. */
  lemma QuotientBounds(a: real, s: real, q: real)
    requires s > 0.0 && q * s <= a < (q + 0.5) * s
    ensures q <= a / s < q + 0.5
  {
    var d := a / s;
    assert d * s == a;
    MulCancel(q, d, s);
    var hi := (q + 0.5) * s;
    assert a < hi;
    assert d * s < hi;
    MulCancelStrict(d, q + 0.5, s);
  }

  lemma MulCancel(x: real, y: real, s: real)
    requires s > 0.0 && x * s <= y * s
    ensures x <= y
  {
  }

  lemma MulCancelStrict(x: real, y: real, s: real)
    requires s > 0.0 && x * s < y * s
    ensures x < y
  {
  }

  // ---------------------------------------------------------------------
  // The ten lines, parsed
  // ---------------------------------------------------------------------

  const NoTokens: ParsedLine := ParsedLine(false, false, None, None)

  /** The start line `G97S8000M03`: the programmed speed and the spindle start. */
  lemma StartLineParses(s: string)
    requires |s| == 11 && s[0] == 'G' && s[1] == '9' && s[2] == '7' && s[3] == 'S'
    requires s[4] == '8' && s[5] == '0' && s[6] == '0' && s[7] == '0'
    requires s[8] == 'M' && s[9] == '0' && s[10] == '3'
    ensures ParseLine(s) == ParsedLine(true, false, None, Some(8000))
  {
    assert ParenFree(s);
    ParseParenFree(s);
    StartLineTokens(s);
    StartLineSpeed(s);
  }

  lemma StartLineTokens(s: string)
    requires |s| == 11 && s[0] == 'G' && s[1] == '9' && s[2] == '7' && s[3] == 'S'
    requires s[4] == '8' && s[5] == '0' && s[6] == '0' && s[7] == '0'
    requires s[8] == 'M' && s[9] == '0' && s[10] == '3'
    ensures HasMCode(s, '3') && !HasMCode(s, '5') && FirstB(s) == None
  {
    assert MCodeAt(s, 8, '3');
    assert forall k :: 0 <= k < |s| ==> s[k] != '5' && s[k] != 'B';
    NoMCodeWithoutCode(s, '5');
    NoAngleWithoutB(s);
  }

  lemma StartLineSpeed(s: string)
    requires |s| == 11 && s[0] == 'G' && s[1] == '9' && s[2] == '7' && s[3] == 'S'
    requires s[4] == '8' && s[5] == '0' && s[6] == '0' && s[7] == '0'
    requires s[8] == 'M' && s[9] == '0' && s[10] == '3'
    ensures FirstS(s) == Some(8000)
  {
    assert FindS(s, 3) == Some(3);
    assert FindS(s, 2) == Some(3);
    assert FindS(s, 1) == Some(3);
    assert FindS(s, 0) == Some(3);
    assert DigitRunEnd(s, 8) == 8;
    assert DigitRunEnd(s, 4) == 8;
    DigitsValueFour(s[4..8]);
  }

  /** A positioning line `X0Y0B<d><d>.<d>`: only the angle. */
  lemma AngleLineParses(s: string, v: real)
    requires |s| == 9 && s[0] == 'X' && s[1] == '0' && s[2] == 'Y' && s[3] == '0' && s[4] == 'B'
    requires IsDigit(s[5]) && IsDigit(s[6]) && s[7] == '.' && IsDigit(s[8])
    requires v == (DigitValue(s[5]) * 10 + DigitValue(s[6])) as real + DigitValue(s[8]) as real / 10.0
    ensures ParseLine(s) == ParsedLine(false, false, Some(v), None)
  {
    assert ParenFree(s);
    ParseParenFree(s);
    AngleLineTokens(s);
    AngleLineValue(s, v);
  }

  lemma AngleLineTokens(s: string)
    requires |s| == 9 && s[0] == 'X' && s[1] == '0' && s[2] == 'Y' && s[3] == '0' && s[4] == 'B'
    requires IsDigit(s[5]) && IsDigit(s[6]) && s[7] == '.' && IsDigit(s[8])
    ensures !HasMCode(s, '3') && !HasMCode(s, '5') && FirstS(s) == None
  {
    assert forall k :: 0 <= k < |s| ==> s[k] != 'M' && s[k] != 'S';
    NoMCodeWithoutM(s, '3');
    NoMCodeWithoutM(s, '5');
    NoSpeedWithoutS(s);
  }

  lemma AngleLineValue(s: string, v: real)
    requires |s| == 9 && s[0] == 'X' && s[1] == '0' && s[2] == 'Y' && s[3] == '0' && s[4] == 'B'
    requires IsDigit(s[5]) && IsDigit(s[6]) && s[7] == '.' && IsDigit(s[8])
    requires v == (DigitValue(s[5]) * 10 + DigitValue(s[6])) as real + DigitValue(s[8]) as real / 10.0
    ensures FirstB(s) == Some(v)
  {
    assert FindB(s, 4) == Some(4);
    assert FindB(s, 3) == Some(4);
    assert FindB(s, 2) == Some(4);
    assert FindB(s, 1) == Some(4);
    assert FindB(s, 0) == Some(4);
    PointNumberValue(s, 5);
  }

  /** A feed line `G1X<d>`: no token the injector reads. */
  lemma FeedLineParses(s: string)
    requires |s| == 4 && s[0] == 'G' && s[1] == '1' && s[2] == 'X' && IsDigit(s[3])
    ensures ParseLine(s) == NoTokens
  {
    assert ParenFree(s);
    ParseParenFree(s);
    FeedLineTokens(s);
  }

  lemma FeedLineTokens(s: string)
    requires |s| == 4 && s[0] == 'G' && s[1] == '1' && s[2] == 'X' && IsDigit(s[3])
    ensures !HasMCode(s, '3') && !HasMCode(s, '5') && FirstB(s) == None && FirstS(s) == None
  {
    assert forall k :: 0 <= k < |s| ==> s[k] != 'M' && s[k] != 'S' && s[k] != 'B';
    NoMCodeWithoutM(s, '3');
    NoMCodeWithoutM(s, '5');
    NoSpeedWithoutS(s);
    NoAngleWithoutB(s);
  }

  /** The stop line `M05`: only the spindle stop. */
  lemma StopLineParses(s: string)
    requires |s| == 3 && s[0] == 'M' && s[1] == '0' && s[2] == '5'
    ensures ParseLine(s) == ParsedLine(false, true, None, None)
  {
    assert ParenFree(s);
    ParseParenFree(s);
    StopLineTokens(s);
  }

  lemma StopLineTokens(s: string)
    requires |s| == 3 && s[0] == 'M' && s[1] == '0' && s[2] == '5'
    ensures !HasMCode(s, '3') && HasMCode(s, '5') && FirstB(s) == None && FirstS(s) == None
  {
    assert MCodeAt(s, 0, '5');
    assert forall k :: 0 <= k < |s| ==> s[k] != '3' && s[k] != 'S' && s[k] != 'B';
    NoMCodeWithoutCode(s, '3');
    NoSpeedWithoutS(s);
    NoAngleWithoutB(s);
  }

  // ---------------------------------------------------------------------
  // The run
  // ---------------------------------------------------------------------

  /** The text of line `k` of the smoke test. */
  function SmokeText(k: nat): string
  {
    match k
    case 0 => "G97S8000M03"
    case 1 => "X0Y0B12.3"
    case 2 => "G1X1"
    case 3 => "X0Y0B12.8"
    case 4 => "G1X2"
    case 5 => "X0Y0B13.1"
    case 6 => "G1X3"
    case 7 => "M05"
    case 8 => "X0Y0B14.0"
    case _ => "G1X4"
  }

  /** Line `k` of the smoke test, ending in CR LF. */
  function SmokeLine(k: nat): LineIn
  {
    LineIn(SmokeText(k), CrLf)
  }

  /** The ten lines of the smoke test. */
  function SmokeLines(): seq<LineIn>
  {
    seq(10, k requires 0 <= k < 10 => SmokeLine(k))
  }

  /** With the axis inverted, the positions 12.3 and 12.8 fall in the 77 degree cell, 13.1 in the 76 degree one. */
  lemma SmokeAngles()
    ensures AngleOf(SmokeConfig(), 12.3) == 77.0
    ensures AngleOf(SmokeConfig(), 12.8) == 77.0
    ensures AngleOf(SmokeConfig(), 13.1) == 76.0
  {
    assert (77.7 / 1.0).Floor == 77;
    assert (77.2 / 1.0).Floor == 77;
    assert (76.9 / 1.0).Floor == 76;
  }

  lemma SpeedLineText()
    ensures SpeedLine(8060) == "S8060"
  {
    assert NatToDigits(8) == "8";
    assert NatToDigits(80) == "80";
    assert NatToDigits(806) == "806";
    assert NatToDigits(8060) == "8060";
  }

  /** Feeding one more line through the transducer. */
  lemma TransduceStep(st: State, l: LineIn, rest: seq<LineIn>)
    ensures var first := ProcessLine(st, l.text, l.nl);
      var tail := Transduce(first.0, rest);
      Transduce(st, [l] + rest) == (tail.0, [first.1] + tail.1)
  {
    assert ([l] + rest)[1..] == rest;
  }

  /** A state of the smoke run: the smoke configuration, the pinned sines, and the given fields. */
  function At(sinDeg: real -> real, lastS: Option<int>, on: bool, lastTheta: Option<real>, pending: Option<real>,
              detect: DetectStats, changes: ChangeStats, range: SRange): State
  {
    var p := match pending case Some(t) => Some(PendingInsert(t)) case None => None;
    State(RpmModel(SmokeConfig(), sinDeg, lastS), Report(detect, changes, range), on, lastTheta, p)
  }

  const NoChanges: ChangeStats := ChangeStats(0, 0, 0, 0, 0, 0)
  const Deadbanded: ChangeStats := ChangeStats(0, 0, 1, 0, 0, 0)
  const OneInserted: ChangeStats := ChangeStats(1, 0, 1, 0, 0, 0)
  const Programmed: SRange := SRange(Some(8000), Some(8000))
  const Widened: SRange := SRange(Some(8000), Some(8060))

  /** What the parser makes of line `k`. */
  function SmokeParsed(k: nat): ParsedLine
  {
    match k
    case 0 => ParsedLine(true, false, None, Some(8000))
    case 1 => ParsedLine(false, false, Some(12.3), None)
    case 3 => ParsedLine(false, false, Some(12.8), None)
    case 5 => ParsedLine(false, false, Some(13.1), None)
    case 7 => ParsedLine(false, true, None, None)
    case 8 => ParsedLine(false, false, Some(14.0), None)
    case _ => NoTokens
  }

  /** Every line of the run parses as `SmokeParsed` says. */
  lemma ParsedAt(k: nat)
    requires k < 10
    ensures ParseLine(SmokeLine(k).text) == SmokeParsed(k)
  {
    var s := SmokeLine(k).text;
    match k
    case 0 => StartLineParses(s);
    case 1 => AngleLineParses(s, 12.3);
    case 2 => FeedLineParses(s);
    case 3 => AngleLineParses(s, 12.8);
    case 4 => FeedLineParses(s);
    case 5 => AngleLineParses(s, 13.1);
    case 6 => FeedLineParses(s);
    case 7 => StopLineParses(s);
    case 8 => AngleLineParses(s, 14.0);
    case 9 => FeedLineParses(s);
  }

  /** The speed inserted before line `k`: S8060 before line 6, nothing elsewhere. */
  function SmokeInserted(k: nat): Option<int> {
    if k == 6 then Some(8060) else None
  }

  /** Line `k` takes the injector from state `k` to state `k + 1`. */
  ghost predicate AdvancesTo(sinDeg: real -> real, k: nat)
  {
    Advance(SmokeState(sinDeg, k), SmokeParsed(k)) == (SmokeState(sinDeg, k + 1), SmokeInserted(k))
  }

  /** Every line of the run advances the injector as `SmokeState` says. */
  lemma AdvanceAt(sinDeg: real -> real, k: nat)
    requires TrueSines(sinDeg) && k < 10
    ensures AdvancesTo(sinDeg, k)
  {
    var st, p := SmokeState(sinDeg, k), SmokeParsed(k);
    match k
    case 0 => StartAdvance(sinDeg, st, p);
    case 1 => FirstAngleAdvance(sinDeg, st, p);
    case 2 => DeadbandAdvance(sinDeg, st, p);
    case 3 => SameAngleAdvance(sinDeg, st, p);
    case 4 => FeedAdvance(sinDeg, st, p);
    case 5 => NewAngleAdvance(sinDeg, st, p);
    case 6 => InsertAdvance(sinDeg, st, p);
    case 7 => StopAdvance(sinDeg, st, p);
    case 8 => IdleAdvance(sinDeg, st, p, 8);
    case 9 => IdleAdvance(sinDeg, st, p, 9);
  }

  /** The start line turns the spindle on and makes 8000 the speed in effect. */
  lemma StartAdvance(sinDeg: real -> real, st: State, p: ParsedLine)
    requires st == SmokeState(sinDeg, 0) && p == SmokeParsed(0)
    ensures Advance(st, p) == (SmokeState(sinDeg, 1), None)
  {
    assert st == NewInjector(SmokeConfig(), sinDeg);
  }

  /** The first B position, 12.3, schedules 77 degrees. */
  lemma FirstAngleAdvance(sinDeg: real -> real, st: State, p: ParsedLine)
    requires st == SmokeState(sinDeg, 1) && p == SmokeParsed(1)
    ensures Advance(st, p) == (SmokeState(sinDeg, 2), None)
  {
    assert st == At(sinDeg, Some(8000), true, None, None, DetectStats(1, 0, 1), NoChanges, Programmed);
    assert p == ParsedLine(false, false, Some(12.3), None);
    var mid := At(sinDeg, Some(8000), true, None, None, DetectStats(2, 0, 2), NoChanges, Programmed);
    FirstAngleCounts(sinDeg, st, p, mid);
    FirstAngleSchedules(sinDeg, mid, p);
  }

  lemma FirstAngleCounts(sinDeg: real -> real, st: State, p: ParsedLine, mid: State)
    requires st == At(sinDeg, Some(8000), true, None, None, DetectStats(1, 0, 1), NoChanges, Programmed)
    requires p == ParsedLine(false, false, Some(12.3), None)
    requires mid == At(sinDeg, Some(8000), true, None, None, DetectStats(2, 0, 2), NoChanges, Programmed)
    ensures Advance(st, p) == (ScheduleOnB(mid, p), None)
  {
    SteadyLine(st, p);
  }

  lemma FirstAngleSchedules(sinDeg: real -> real, st: State, p: ParsedLine)
    requires st == At(sinDeg, Some(8000), true, None, None, DetectStats(2, 0, 2), NoChanges, Programmed)
    requires p == ParsedLine(false, false, Some(12.3), None)
    ensures ScheduleOnB(st, p) == SmokeState(sinDeg, 2)
  {
    SmokeAngles();
  }

  /** The second B position, 12.8, stays in the 77 degree cell and schedules nothing. */
  lemma SameAngleAdvance(sinDeg: real -> real, st: State, p: ParsedLine)
    requires st == SmokeState(sinDeg, 3) && p == SmokeParsed(3)
    ensures Advance(st, p) == (SmokeState(sinDeg, 4), None)
  {
    SmokeAngles();
    SteadyLine(st, p);
  }

  /** The third B position, 13.1, schedules 76 degrees. */
  lemma NewAngleAdvance(sinDeg: real -> real, st: State, p: ParsedLine)
    requires st == SmokeState(sinDeg, 5) && p == SmokeParsed(5)
    ensures Advance(st, p) == (SmokeState(sinDeg, 6), None)
  {
    SmokeAngles();
    SteadyLine(st, p);
  }

  /** The feed line resolves 77 degrees: 8030 rpm, suppressed by the deadband. */
  lemma DeadbandAdvance(sinDeg: real -> real, st: State, p: ParsedLine)
    requires TrueSines(sinDeg)
    requires st == SmokeState(sinDeg, 2) && p == SmokeParsed(2)
    ensures Advance(st, p) == (SmokeState(sinDeg, 3), None)
  {
    SmokeSpeeds(sinDeg, Some(8000));
  }

  /** A feed line with nothing pending. */
  lemma FeedAdvance(sinDeg: real -> real, st: State, p: ParsedLine)
    requires st == SmokeState(sinDeg, 4) && p == SmokeParsed(4)
    ensures Advance(st, p) == (SmokeState(sinDeg, 5), None)
  {
    SteadyLine(st, p);
  }

  /** The feed line resolves 76 degrees: 8060 rpm is inserted and becomes the speed in effect. */
  lemma InsertAdvance(sinDeg: real -> real, st: State, p: ParsedLine)
    requires TrueSines(sinDeg)
    requires st == SmokeState(sinDeg, 6) && p == SmokeParsed(6)
    ensures Advance(st, p) == (SmokeState(sinDeg, 7), Some(8060))
  {
    SmokeSpeeds(sinDeg, Some(8000));
    assert PendingDecision(st).rpmClamped == 8060;
    assert Inserts(st, p);
  }

  /** The stop line turns the spindle off and forgets the speed in effect. */
  lemma StopAdvance(sinDeg: real -> real, st: State, p: ParsedLine)
    requires st == SmokeState(sinDeg, 7) && p == SmokeParsed(7)
    ensures Advance(st, p) == (SmokeState(sinDeg, 8), None)
  {
  }

  /** With the spindle off, a B position is not even counted, and a feed line only counts. */
  lemma IdleAdvance(sinDeg: real -> real, st: State, p: ParsedLine, k: nat)
    requires k == 8 || k == 9
    requires st == SmokeState(sinDeg, k) && p == SmokeParsed(k)
    ensures Advance(st, p) == (SmokeState(sinDeg, k + 1), None)
  {
    IdleLine(st, p);
  }

  /** Output `k` of the run: every line written back, and S8060 before the seventh. */
  function SmokeOutput(k: nat): LineOutput
  {
    LineOutput(SmokeLine(k).text + CrLf, if k == 6 then Some("S8060" + CrLf) else None)
  }

  /** The outputs of the run. */
  function SmokeOutputs(): seq<LineOutput>
  {
    seq(10, k requires 0 <= k < 10 => SmokeOutput(k))
  }

  /**
   * The injector's state after the first `k` lines of the smoke run, one
   * field at a time: the spindle turns from line 1 to line 7, the speed in
   * effect is 8000 until S8060 is inserted before line 7 and is forgotten by
   * the stop, 77 degrees is pending after line 2 and 76 degrees after line 6.
   */
  function SmokeState(sinDeg: real -> real, k: nat): State
  {
    At(sinDeg, SpeedAfter(k), 1 <= k <= 7, AngleAfter(k), PendingAfter(k),
       DetectStats(k, BLinesAfter(k), if k <= 7 then k else 7), ChangesAfter(k), RangeAfter(k))
  }

  function SpeedAfter(k: nat): Option<int> {
    if k == 0 || k > 7 then None else if k < 7 then Some(8000) else Some(8060)
  }

  function AngleAfter(k: nat): Option<real> {
    if k < 2 then None else if k < 6 then Some(77.0) else Some(76.0)
  }

  function PendingAfter(k: nat): Option<real> {
    if k == 2 then Some(77.0) else if k == 6 then Some(76.0) else None
  }

  /** The B lines counted: those read while the spindle turns. */
  function BLinesAfter(k: nat): nat {
    if k < 2 then 0 else if k < 4 then 1 else if k < 6 then 2 else 3
  }

  function ChangesAfter(k: nat): ChangeStats {
    if k < 3 then NoChanges else if k < 7 then Deadbanded else OneInserted
  }

  function RangeAfter(k: nat): SRange {
    if k == 0 then SRange(None, None) else if k < 7 then Programmed else Widened
  }

  /** Line `k` takes the run from its `k`-th state to the next, with the `k`-th output. */
  ghost predicate StepsTo(sinDeg: real -> real, k: nat)
  {
    ProcessLine(SmokeState(sinDeg, k), SmokeLine(k).text, SmokeLine(k).nl) == (SmokeState(sinDeg, k + 1), SmokeOutput(k))
  }

  /** Every line of the run is parsed, advanced and written as the tables say. */
  lemma StepAt(sinDeg: real -> real, k: nat)
    requires TrueSines(sinDeg) && k < 10
    ensures StepsTo(sinDeg, k)
  {
    ParsedAt(k);
    AdvanceAt(sinDeg, k);
    SpeedLineText();
  }

  lemma SliceCons<T>(s: seq<T>, k: nat)
    requires k < |s|
    ensures s[k..] == [s[k]] + s[k + 1..]
  {
  }

  lemma SliceZero<T>(s: seq<T>)
    ensures s[0..] == s
  {
  }

  lemma SliceEnd<T>(s: seq<T>, k: nat)
    requires k == |s|
    ensures s[k..] == []
  {
  }

  /** From the `k`-th state, the remaining lines give the remaining outputs and the last state. */
  lemma {:induction false} SmokeSuffix(sinDeg: real -> real, k: nat)
    requires TrueSines(sinDeg) && k <= 10
    ensures Transduce(SmokeState(sinDeg, k), SmokeLines()[k..]) == (SmokeState(sinDeg, 10), SmokeOutputs()[k..])
    decreases 10 - k
  {
    var L := SmokeLines();
    if k < 10 {
      StepAt(sinDeg, k);
      SmokeSuffix(sinDeg, k + 1);
      SliceCons(L, k);
      SliceCons(SmokeOutputs(), k);
      TransduceStep(SmokeState(sinDeg, k), L[k], L[k + 1..]);
    } else {
      SliceEnd(L, k);
      SliceEnd(SmokeOutputs(), k);
    }
  }

  /**
   * The whole run: one speed line, S8060, before `G1X3`; the report counts
   * ten lines, three B lines and seven spindle-on lines, one insertion, one
   * deadband skip, nothing pending at the end, and speeds from 8000 to 8060.
   */
  lemma SmokeRun(sinDeg: real -> real)
    requires TrueSines(sinDeg)
    ensures SmokeState(sinDeg, 0) == NewInjector(SmokeConfig(), sinDeg)
    ensures Transduce(SmokeState(sinDeg, 0), SmokeLines()).1 == SmokeOutputs()
    ensures Finalize(Transduce(SmokeState(sinDeg, 0), SmokeLines()).0).report == Report(DetectStats(10, 3, 7), OneInserted, Widened)
  {
    SmokeWhole(sinDeg);
    SmokeFinal(sinDeg);
  }

  /** Nothing is pending after the last line, so the final step leaves the report alone. */
  lemma SmokeFinal(sinDeg: real -> real)
    ensures Finalize(SmokeState(sinDeg, 10)).report == Report(DetectStats(10, 3, 7), OneInserted, Widened)
  {
  }

  lemma SmokeWhole(sinDeg: real -> real)
    requires TrueSines(sinDeg)
    ensures Transduce(SmokeState(sinDeg, 0), SmokeLines()) == (SmokeState(sinDeg, 10), SmokeOutputs())
  {
    SmokeSuffix(sinDeg, 0);
    SliceZero(SmokeLines());
    SliceZero(SmokeOutputs());
  }

  // ---------------------------------------------------------------------
  // The file
  // ---------------------------------------------------------------------

  /** The smoke test's input file, line by line, each line with its CR LF. */
  function SmokeRaw(): seq<string>
  {
    seq(10, k requires 0 <= k < 10 => SmokeLine(k).text + CrLf)
  }

  /** What the output file holds, line by line: S8060 written in front of `G1X3`. */
  function SmokeEmitted(): seq<string>
  {
    seq(10, k requires 0 <= k < 10 => if k == 6 then "S8060" + CrLf + SmokeRaw()[k] else SmokeRaw()[k])
  }

  lemma SmokeRawLines()
    ensures forall k :: 0 <= k < 10 ==> IsFullLine(SmokeRaw()[k])
    ensures forall k :: 0 <= k < 10 ==> SplitTerminator(SmokeRaw()[k], CrLf) == SmokeLines()[k]
  {
    forall k | 0 <= k < 10
      ensures IsFullLine(SmokeRaw()[k])
      ensures SplitTerminator(SmokeRaw()[k], CrLf) == SmokeLines()[k]
    {
      var t := SmokeLines()[k].text;
      assert forall j :: 0 <= j < |t| ==> t[j] != '\n';
      SplitCrLfLine(t, CrLf);
    }
  }

  /** The file splits into the ten CR LF lines of the run. */
  lemma SmokeFileLines(data: string)
    requires data == Concat(SmokeRaw())
    ensures DetectNewline(data) == CrLf
    ensures SplitAll(ReadLines(data), DetectNewline(data)) == SmokeLines()
  {
    SmokeDetect(data);
    SmokeSplit(data);
  }

  lemma SmokeDetect(data: string)
    requires data == Concat(SmokeRaw())
    ensures DetectNewline(data) == CrLf
  {
    assert data == SmokeRaw()[0] + Concat(SmokeRaw()[1..]);
    assert CrLfAt(Sample(data), 11);
  }

  lemma SmokeSplit(data: string)
    requires data == Concat(SmokeRaw())
    ensures SplitAll(ReadLines(data), CrLf) == SmokeLines()
  {
    SmokeRawLines();
    SplitFullLines(SmokeRaw(), SmokeLines(), CrLf);
  }

  /** The outputs written out are the lines of the output file. */
  lemma SmokeOutputText()
    ensures EmitAll(SmokeOutputs()) == Concat(SmokeEmitted())
  {
    forall k | 0 <= k < 10
      ensures Emitted(SmokeOutputs()[k]) == SmokeEmitted()[k]
    {
      var o := SmokeOutputs()[k];
      assert o.line == SmokeRaw()[k];
      if k == 6 {
        assert o.inserted == Some("S8060" + CrLf);
      } else {
        assert o.inserted == None;
        assert [] + o.line == o.line;
      }
    }
    EmitAllParts(SmokeOutputs(), SmokeEmitted());
  }

  /**
   * The smoke test end to end: the output file is the input with the single
   * line S8060 written before `G1X3`, and the report counts one insertion.
   */
  lemma SmokeFile(sinDeg: real -> real, data: string)
    requires TrueSines(sinDeg) && data == Concat(SmokeRaw())
    ensures ProcessFile(SmokeConfig(), sinDeg, data).output == Concat(SmokeEmitted())
    ensures ProcessFile(SmokeConfig(), sinDeg, data).report == Report(DetectStats(10, 3, 7), OneInserted, Widened)
    ensures ProcessFile(SmokeConfig(), sinDeg, data).report.changes.insertedSLines == 1
  {
    SmokeFileLines(data);
    SmokeRun(sinDeg);
    SmokeOutputText();
  }

  /**
   * Against the configuration record as declared, the smoke run cannot get
   * past its third line: that line resolves the pending 77 degrees, and the
   * speed computation raises on the undeclared `mode` attribute.
   */
  lemma SmokeAsDeclaredRaises(sinDeg: real -> real, text: string)
    requires text == "G1X1"
    ensures Resolves(SmokeState(sinDeg, 2)) && ParseLine(text).sRpm.None?
    ensures SmokeState(sinDeg, 2).pending == Some(PendingInsert(77.0))
    ensures ComputeSAsDeclared(SmokeState(sinDeg, 2).rpm, 77.0) == MissingAttribute("mode")
  {
    FeedLineParses(text);
    DeclaredRecordAlwaysRaises(SmokeState(sinDeg, 2).rpm, 77.0);
  }
}
