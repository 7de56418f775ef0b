/**
 * The injector: a one-line-lookahead state machine. A B-axis change on one
 * line creates a pending insertion that is resolved against the following
 * line, before that line is written; the speed line, if any, is placed in
 * front of it and ends with that line's newline.
 */
module Injector {
  import opened Optional
  import opened Config
  import opened Parser
  import opened Rpm
  import opened Report

  /** A quantised angle awaiting translation into an inserted speed line. */
  datatype PendingInsert = PendingInsert(thetaQuantDeg: real)

  datatype State = State(
    rpm: RpmModel,
    report: Report,
    spindleOn: bool,
    lastThetaQuant: Option<real>,
    pending: Option<PendingInsert>
  )

  /** What one input line produces: the line itself, and the speed line to write before it. */
  datatype LineOutput = LineOutput(line: string, inserted: Option<string>)

  /** One input line: its text without terminator, and the terminator to write after it. */
  datatype LineIn = LineIn(text: string, nl: string)

  /** The injector at the start of a file: spindle off, nothing seen, nothing pending. */
  function NewInjector(cfg: BcssConfig, sinDeg: real -> real): (st: State)
    ensures !st.spindleOn && st.pending.None? && st.lastThetaQuant.None?
    ensures st.rpm.cfg == cfg && st.rpm.lastSRpm.None?
    ensures st.report == EmptyReport()
  {
    State(NewModel(cfg, sinDeg), EmptyReport(), false, None, None)
  }

  /** Between lines, a pending insertion exists only while the spindle turns. */
  predicate PendingNeedsSpindle(st: State) {
    st.pending.Some? ==> st.spindleOn
  }

  /** Pendings resolved so far, one way or another. */
  function Resolutions(c: ChangeStats): nat {
    c.insertedSLines + c.skippedNextlineHasS + c.skippedDeadband + c.pendingAtEof
  }

  /** Clamping and the angle floor are only ever counted for a computed speed. */
  predicate CountsBounded(c: ChangeStats) {
    && c.clampedCount <= c.insertedSLines + c.skippedDeadband
    && c.thetaMinAppliedCount <= c.insertedSLines + c.skippedDeadband
  }

  /** What the injector keeps true between lines. */
  predicate Invariant(st: State) {
    PendingNeedsSpindle(st) && CountsBounded(st.report.changes) && ValidRange(st.report.sRange)
  }

  /** The speed decision for the pending angle. */
  function PendingDecision(st: State): RpmDecision
    requires st.pending.Some?
  {
    ComputeSForTheta(st.rpm, st.pending.value.thetaQuantDeg)
  }

  /** The pending insertion is resolved against this line. */
  predicate Resolves(st: State) {
    st.pending.Some? && st.spindleOn
  }

  /** This line receives an inserted speed line. */
  predicate Inserts(st: State, p: ParsedLine) {
    Resolves(st) && p.sRpm.None? && ShouldInsert(st.rpm, PendingDecision(st).rpmClamped)
  }

  /** The counters after a pending insertion is skipped because the line has its own speed. */
  function SkippedForExplicitS(c: ChangeStats): ChangeStats {
    c.(skippedNextlineHasS := c.skippedNextlineHasS + 1)
  }

  /**
   * The counters `c'` after the speed for the pending angle was computed:
   * one more clamp exactly when the rounded speed lay outside the bounds,
   * one more raised angle exactly when the pending angle was below the
   * minimum, and one more insertion or else one more deadband skip.
   */
  predicate ComputedCounts(st: State, c': ChangeStats, inserted: bool)
    requires st.pending.Some?
  {
    var c := st.report.changes;
    var cfg := st.rpm.cfg;
    var d := PendingDecision(st);
    && c'.clampedCount == c.clampedCount + (if d.rpmRounded < cfg.sMinRpm || d.rpmRounded > cfg.sMaxRpm then 1 else 0)
    && c'.thetaMinAppliedCount == c.thetaMinAppliedCount + (if st.pending.value.thetaQuantDeg < cfg.thetaMinDeg then 1 else 0)
    && c'.insertedSLines == c.insertedSLines + (if inserted then 1 else 0)
    && c'.skippedDeadband == c.skippedDeadband + (if inserted then 0 else 1)
    && c'.skippedNextlineHasS == c.skippedNextlineHasS
    && c'.pendingAtEof == c.pendingAtEof
  }

  // ---------------------------------------------------------------------
  // The per-line protocol, one phase at a time
  // ---------------------------------------------------------------------

  /**
   * Phase 1: resolve the pending insertion against the current line. It is
   * skipped when the line already has a speed; otherwise the speed is
   * computed, counted, and inserted when the deadband gate allows it. The
   * slot is emptied whatever the outcome. Without a pending insertion, or
   * with the spindle off, nothing happens.
   */
  function Resolve(st: State, p: ParsedLine): (r: (State, Option<int>))
    ensures r.0.spindleOn == st.spindleOn && r.0.lastThetaQuant == st.lastThetaQuant
    ensures r.0.report.detect == st.report.detect
    ensures r.0.rpm.cfg == st.rpm.cfg && r.0.rpm.sinDeg == st.rpm.sinDeg
    ensures Resolves(st) ==> r.0.pending.None?
    ensures !Resolves(st) ==> r.0 == st && r.1.None?
    ensures r.1.Some? <==> Inserts(st, p)
    ensures r.1.Some? ==> r.1.value == PendingDecision(st).rpmClamped
    ensures r.1.Some? ==> r.0.rpm.lastSRpm == r.1 && r.0.report.sRange == Update(st.report.sRange, r.1.value)
    ensures r.1.None? ==> r.0.rpm.lastSRpm == st.rpm.lastSRpm && r.0.report.sRange == st.report.sRange
    ensures Resolutions(r.0.report.changes) == Resolutions(st.report.changes) + (if Resolves(st) then 1 else 0)
    ensures r.0.report.changes.insertedSLines == st.report.changes.insertedSLines + (if r.1.Some? then 1 else 0)
    ensures r.0.report.changes.pendingAtEof == st.report.changes.pendingAtEof
    ensures Resolves(st) && p.sRpm.Some? ==> r.0.report.changes == SkippedForExplicitS(st.report.changes)
    ensures Resolves(st) && p.sRpm.None? ==> ComputedCounts(st, r.0.report.changes, r.1.Some?)
    ensures CountsBounded(st.report.changes) ==> CountsBounded(r.0.report.changes)
    ensures ValidRange(st.report.sRange) ==> ValidRange(r.0.report.sRange)
  {
    if !Resolves(st) then (st, None)
    else
      var c := st.report.changes;
      if p.sRpm.Some? then
        var c' := c.(skippedNextlineHasS := c.skippedNextlineHasS + 1);
        (st.(pending := None, report := st.report.(changes := c')), None)
      else
        var theta := st.pending.value.thetaQuantDeg;
        var dec := PendingDecision(st);
        var c1 := c.(thetaMinAppliedCount := c.thetaMinAppliedCount + (if dec.thetaUsedDeg > theta then 1 else 0),
                     clampedCount := c.clampedCount + (if dec.clamped then 1 else 0));
        if ShouldInsert(st.rpm, dec.rpmClamped) then
          var c' := c1.(insertedSLines := c1.insertedSLines + 1);
          var report' := st.report.(changes := c', sRange := Update(st.report.sRange, dec.rpmClamped));
          (st.(pending := None, rpm := UpdateLastS(st.rpm, dec.rpmClamped), report := report'), Some(dec.rpmClamped))
        else
          var c' := c1.(skippedDeadband := c1.skippedDeadband + 1);
          (st.(pending := None, report := st.report.(changes := c')), None)
  }

  /**
   * Phase 2: the spindle tokens. A start turns the spindle on; a stop turns
   * it off and forgets the speed in effect; with both on one line the stop wins.
   */
  function SetSpindleState(st: State, hasM03: bool, hasM05: bool): (st': State)
    ensures st'.spindleOn == (if hasM05 then false else if hasM03 then true else st.spindleOn)
    ensures hasM05 ==> st'.rpm.lastSRpm.None?
    ensures !hasM05 ==> st'.rpm == st.rpm
    ensures st'.rpm.cfg == st.rpm.cfg && st'.rpm.sinDeg == st.rpm.sinDeg
    ensures st'.report == st.report && st'.pending == st.pending && st'.lastThetaQuant == st.lastThetaQuant
  {
    var st1 := if hasM03 then st.(spindleOn := true) else st;
    if hasM05 then st1.(spindleOn := false, rpm := ResetLastS(st1.rpm)) else st1
  }

  /** Phase 3: an explicit speed while the spindle turns becomes the speed in effect. */
  function AdoptExplicitS(st: State, p: ParsedLine): (st': State)
    ensures st.spindleOn && p.sRpm.Some? ==>
      st'.rpm.lastSRpm == p.sRpm && st'.report.sRange == Update(st.report.sRange, p.sRpm.value)
    ensures !(st.spindleOn && p.sRpm.Some?) ==> st' == st
    ensures st'.rpm.cfg == st.rpm.cfg && st'.rpm.sinDeg == st.rpm.sinDeg
    ensures st'.spindleOn == st.spindleOn && st'.pending == st.pending && st'.lastThetaQuant == st.lastThetaQuant
    ensures st'.report.detect == st.report.detect && st'.report.changes == st.report.changes
    ensures ValidRange(st.report.sRange) ==> ValidRange(st'.report.sRange)
  {
    if st.spindleOn && p.sRpm.Some? then
      st.(rpm := UpdateLastS(st.rpm, p.sRpm.value),
          report := st.report.(sRange := Update(st.report.sRange, p.sRpm.value)))
    else st
  }

  /** The B-to-angle conversion as the injector spells it out. */
  function InlineTheta(cfg: BcssConfig, b: real): real
  {
    if cfg.invertBToTheta then
      var t := 90.0 - b;
      if t < 0.0 then 0.0 else t
    else b
  }

  /** The injector's inline conversion is the model's B-to-angle conversion. */
  lemma InlineThetaIsBToTheta(cfg: BcssConfig, b: real)
    ensures cfg.invertBToTheta ==> InlineTheta(cfg, b) == BToTheta(b)
    ensures !cfg.invertBToTheta ==> InlineTheta(cfg, b) == b
  {
  }

  /** The quantised angle of a B position. */
  function AngleOf(cfg: BcssConfig, b: real): real
  {
    QuantizeTheta(cfg, InlineTheta(cfg, b))
  }

  /** The angle of this line's B differs from the last one seen. */
  predicate AngleChanges(st: State, b: real) {
    st.lastThetaQuant.None? || st.lastThetaQuant.value != AngleOf(st.rpm.cfg, b)
  }

  /**
   * Phase 4: a B position while the spindle turns is counted, and schedules a
   * pending insertion when its quantised angle differs from the last one
   * seen; the last angle seen is updated either way.
   */
  function ScheduleOnB(st: State, p: ParsedLine): (st': State)
    ensures st.spindleOn && p.bDeg.Some? ==>
      && st'.lastThetaQuant == Some(AngleOf(st.rpm.cfg, p.bDeg.value))
      && st'.report.detect.bLines == st.report.detect.bLines + 1
      && st'.pending == (if AngleChanges(st, p.bDeg.value)
                         then Some(PendingInsert(AngleOf(st.rpm.cfg, p.bDeg.value)))
                         else st.pending)
    ensures !(st.spindleOn && p.bDeg.Some?) ==> st' == st
    ensures st'.rpm == st.rpm && st'.spindleOn == st.spindleOn
    ensures st'.report.changes == st.report.changes && st'.report.sRange == st.report.sRange
    ensures st'.report.detect.totalLines == st.report.detect.totalLines
    ensures st'.report.detect.spindleOnLines == st.report.detect.spindleOnLines
  {
    if st.spindleOn && p.bDeg.Some? then
      var d := st.report.detect;
      var thetaQ := AngleOf(st.rpm.cfg, p.bDeg.value);
      var pending := if AngleChanges(st, p.bDeg.value) then Some(PendingInsert(thetaQ)) else st.pending;
      st.(report := st.report.(detect := d.(bLines := d.bLines + 1)),
          pending := pending,
          lastThetaQuant := Some(thetaQ))
    else st
  }

  /** Counts the line, and counts it as a spindle-on line when the spindle turns after its tokens. */
  function CountLine(st: State): DetectStats
  {
    st.report.detect.(totalLines := st.report.detect.totalLines + 1)
  }

  function CountSpindleOn(st: State): (st': State)
    ensures st'.report.detect.spindleOnLines == st.report.detect.spindleOnLines + (if st.spindleOn then 1 else 0)
    ensures st'.report.detect.totalLines == st.report.detect.totalLines
    ensures st'.report.detect.bLines == st.report.detect.bLines
    ensures st'.rpm == st.rpm && st'.spindleOn == st.spindleOn && st'.pending == st.pending
    ensures st'.lastThetaQuant == st.lastThetaQuant
    ensures st'.report.changes == st.report.changes && st'.report.sRange == st.report.sRange
  {
    var d := st.report.detect;
    if st.spindleOn then st.(report := st.report.(detect := d.(spindleOnLines := d.spindleOnLines + 1)))
    else st
  }

  // ---------------------------------------------------------------------
  // One line
  // ---------------------------------------------------------------------

  /**
   * One parsed line through the whole protocol, in the program's order:
   * count it, resolve the pending insertion, update the spindle, adopt an
   * explicit speed, schedule a new pending insertion. Returns the new state
   * and the speed to insert before the line, if any.
   */
  function Advance(st: State, p: ParsedLine): (r: (State, Option<int>))
    ensures r.1.Some? <==> Inserts(st, p)
    ensures r.1.Some? ==> r.1.value == PendingDecision(st).rpmClamped
    ensures r.0.rpm.cfg == st.rpm.cfg && r.0.rpm.sinDeg == st.rpm.sinDeg
  {
    var st0 := st.(report := st.report.(detect := CountLine(st)));
    var (st1, inserted) := Resolve(st0, p);
    var st2 := SetSpindleState(st1, p.hasM03, p.hasM05);
    var st3 := CountSpindleOn(st2);
    var st4 := AdoptExplicitS(st3, p);
    var st5 := ScheduleOnB(st4, p);
    (st5, inserted)
  }

  /** The text of an inserted speed line, without its newline. */
  function SpeedLine(rpm: int): string
  {
    "S" + IntToString(rpm)
  }

  /**
   * One line of text: parse it and advance. The line is written back
   * unchanged with its own newline; an inserted speed line ends with the
   * same newline.
   */
  function ProcessLine(st: State, text: string, nl: string): (r: (State, LineOutput))
    ensures r.1.line == text + nl
    ensures r.1.inserted.Some? <==> Inserts(st, ParseLine(text))
    ensures r.1.inserted.Some? ==> r.1.inserted.value == SpeedLine(PendingDecision(st).rpmClamped) + nl
  {
    var (st', inserted) := Advance(st, ParseLine(text));
    var out := match inserted
      case Some(v) => Some(SpeedLine(v) + nl)
      case None => None;
    (st', LineOutput(text + nl, out))
  }

  /** End of input: a pending insertion with no line to attach to is counted and dropped. */
  function Finalize(st: State): (st': State)
    ensures st'.pending.None?
    ensures st'.report.changes.pendingAtEof == st.report.changes.pendingAtEof + (if st.pending.Some? then 1 else 0)
    ensures Resolutions(st'.report.changes) == Resolutions(st.report.changes) + (if st.pending.Some? then 1 else 0)
    ensures st'.report.changes.insertedSLines == st.report.changes.insertedSLines
    ensures st'.report.detect == st.report.detect && st'.report.sRange == st.report.sRange
    ensures st'.spindleOn == st.spindleOn && st'.rpm == st.rpm && st'.lastThetaQuant == st.lastThetaQuant
  {
    if st.pending.Some? then
      var c := st.report.changes;
      st.(pending := None, report := st.report.(changes := c.(pendingAtEof := c.pendingAtEof + 1)))
    else st
  }

  // ---------------------------------------------------------------------
  // Facts about one line
  // ---------------------------------------------------------------------

  /** The spindle state after a line's tokens, as the protocol defines it. */
  function SpindleAfter(on: bool, p: ParsedLine): bool {
    if p.hasM05 then false else if p.hasM03 then true else on
  }

  /** What is kept true between lines stays true across a line. */
  lemma AdvanceKeepsInvariant(st: State, p: ParsedLine)
    requires Invariant(st)
    ensures Invariant(Advance(st, p).0)
  {
  }

  /**
   * Counter accounting for one line: one more line; one more spindle-on
   * line and B line exactly when the spindle turns after the line's tokens
   * (and, for B lines, the line has a B); one more insertion exactly when a
   * speed line is emitted; one more resolution exactly when a pending
   * insertion met a turning spindle; and the end-of-file count untouched.
   */
  lemma AdvanceCounts(st: State, p: ParsedLine)
    ensures var (st', inserted) := Advance(st, p);
      var on := SpindleAfter(st.spindleOn, p);
      && st'.report.detect.totalLines == st.report.detect.totalLines + 1
      && st'.report.detect.spindleOnLines == st.report.detect.spindleOnLines + (if on then 1 else 0)
      && st'.report.detect.bLines == st.report.detect.bLines + (if on && p.bDeg.Some? then 1 else 0)
      && st'.report.changes.insertedSLines == st.report.changes.insertedSLines + (if inserted.Some? then 1 else 0)
      && Resolutions(st'.report.changes) == Resolutions(st.report.changes) + (if Resolves(st) then 1 else 0)
      && st'.report.changes.pendingAtEof == st.report.changes.pendingAtEof
      && (!Resolves(st) ==> st'.report.changes == st.report.changes)
      && (Resolves(st) && p.sRpm.Some? ==> st'.report.changes == SkippedForExplicitS(st.report.changes))
      && (Resolves(st) && p.sRpm.None? ==> ComputedCounts(st, st'.report.changes, inserted.Some?))
  {
  }

  /**
   * Spindle and speed memory for one line: the start and stop tokens set the
   * spindle (stop wins); a stop forgets the speed in effect; an explicit
   * speed while the spindle turns becomes the speed in effect and lies in the
   * recorded range.
   */
  lemma AdvanceSpindle(st: State, p: ParsedLine)
    ensures var st' := Advance(st, p).0;
      && st'.spindleOn == SpindleAfter(st.spindleOn, p)
      && (p.hasM05 ==> st'.rpm.lastSRpm.None?)
      && (st'.spindleOn && p.sRpm.Some? ==> st'.rpm.lastSRpm == p.sRpm && InRange(st'.report.sRange, p.sRpm.value))
  {
  }

  /**
   * Scheduling for one line: after it, an insertion is pending exactly when
   * the spindle turns, the line has a B, and its quantised angle differs
   * from the last one seen; the pending angle is that quantised angle. The
   * last angle seen follows every B line while the spindle turns.
   */
  lemma AdvanceSchedules(st: State, p: ParsedLine)
    requires PendingNeedsSpindle(st)
    ensures var st' := Advance(st, p).0;
      var on := SpindleAfter(st.spindleOn, p);
      && (st'.pending.Some? <==> (on && p.bDeg.Some? && AngleChanges(st, p.bDeg.value)))
      && (st'.pending.Some? ==> st'.pending.value.thetaQuantDeg == AngleOf(st.rpm.cfg, p.bDeg.value))
      && st'.lastThetaQuant == (if on && p.bDeg.Some? then Some(AngleOf(st.rpm.cfg, p.bDeg.value)) else st.lastThetaQuant)
  {
  }

  /** While the spindle is off after a line's tokens, nothing is scheduled. */
  lemma NoScheduleWhileStopped(st: State, p: ParsedLine)
    requires PendingNeedsSpindle(st)
    requires !SpindleAfter(st.spindleOn, p)
    ensures Advance(st, p).0.pending.None?
  {
    AdvanceSchedules(st, p);
  }

  /**
   * A line read while the spindle is off, without a start, is only counted:
   * nothing is inserted or scheduled, no angle is remembered, and a stop
   * on it forgets the speed in effect.
   */
  lemma IdleLine(st: State, p: ParsedLine)
    requires !st.spindleOn && !p.hasM03
    ensures Advance(st, p).1.None?
    ensures Advance(st, p).0 == st.(rpm := if p.hasM05 then ResetLastS(st.rpm) else st.rpm,
                                    report := st.report.(detect := CountLine(st)))
  {
    var st0 := st.(report := st.report.(detect := CountLine(st)));
    assert Resolve(st0, p) == (st0, None);
    var st2 := SetSpindleState(st0, p.hasM03, p.hasM05);
    assert st2 == st0.(rpm := if p.hasM05 then ResetLastS(st.rpm) else st.rpm);
    assert ScheduleOnB(AdoptExplicitS(CountSpindleOn(st2), p), p) == st2;
  }

  /**
   * A line read while the spindle turns, with nothing pending and neither a
   * stop nor a speed on it, is counted as a spindle-on line and then only
   * its B position can change anything.
   */
  lemma SteadyLine(st: State, p: ParsedLine)
    requires st.spindleOn && st.pending.None? && !p.hasM05 && p.sRpm.None?
    ensures Advance(st, p).1.None?
    ensures var d := st.report.detect;
      Advance(st, p).0 == ScheduleOnB(st.(report := st.report.(detect := d.(totalLines := d.totalLines + 1, spindleOnLines := d.spindleOnLines + 1))), p)
  {
    var st0 := st.(report := st.report.(detect := CountLine(st)));
    assert Resolve(st0, p) == (st0, None);
    assert SetSpindleState(st0, p.hasM03, p.hasM05) == st0;
    var d := st.report.detect;
    assert CountSpindleOn(st0) == st.(report := st.report.(detect := d.(totalLines := d.totalLines + 1, spindleOnLines := d.spindleOnLines + 1)));
  }

  /**
   * A computed speed within the deadband of the speed in effect is not
   * inserted, counts as a deadband skip, and leaves the speed in effect
   * unchanged unless the line itself stops the spindle or sets a speed.
   */
  lemma DeadbandSkip(st: State, p: ParsedLine)
    requires Resolves(st) && p.sRpm.None?
    requires st.rpm.lastSRpm.Some?
    requires AbsInt(PendingDecision(st).rpmClamped - st.rpm.lastSRpm.value) < st.rpm.cfg.deadbandRpm
    ensures var (st', inserted) := Advance(st, p);
      && inserted.None?
      && st'.report.changes.skippedDeadband == st.report.changes.skippedDeadband + 1
      && (!p.hasM05 ==> st'.rpm.lastSRpm == st.rpm.lastSRpm)
  {
  }

  // ---------------------------------------------------------------------
  // A run over a sequence of lines
  // ---------------------------------------------------------------------

  /**
   * Feeds the lines through the injector in order. There is one output per
   * input line, and each writes its input line back with its own newline.
   */
  function Transduce(st: State, lines: seq<LineIn>): (r: (State, seq<LineOutput>))
    ensures |r.1| == |lines|
    ensures forall i :: 0 <= i < |lines| ==> r.1[i].line == lines[i].text + lines[i].nl
    ensures forall i :: 0 <= i < |lines| && r.1[i].inserted.Some? ==>
      exists v :: r.1[i].inserted.value == SpeedLine(v) + lines[i].nl
    decreases |lines|
  {
    if lines == [] then (st, [])
    else
      var (st1, out) := ProcessLine(st, lines[0].text, lines[0].nl);
      var (st2, outs) := Transduce(st1, lines[1..]);
      (st2, [out] + outs)
  }

  /** How many of the outputs carry an inserted speed line. */
  function InsertedCount(outs: seq<LineOutput>): nat
    decreases |outs|
  {
    if outs == [] then 0 else (if outs[0].inserted.Some? then 1 else 0) + InsertedCount(outs[1..])
  }

  /** How many lines of a run leave an insertion pending behind them. */
  function ScheduledCount(st: State, lines: seq<LineIn>): nat
    decreases |lines|
  {
    if lines == [] then 0
    else
      var st1 := ProcessLine(st, lines[0].text, lines[0].nl).0;
      (if st1.pending.Some? then 1 else 0) + ScheduledCount(st1, lines[1..])
  }

  /**
   * Over a run the invariant holds throughout, every line is counted once,
   * the insertion counter grows by exactly the number of speed lines
   * emitted, and nothing is counted as pending at the end of the file.
   */
  lemma {:induction false} TransduceCounts(st: State, lines: seq<LineIn>)
    requires Invariant(st)
    ensures var r := Transduce(st, lines);
      && Invariant(r.0)
      && r.0.report.detect.totalLines == st.report.detect.totalLines + |lines|
      && r.0.report.changes.insertedSLines == st.report.changes.insertedSLines + InsertedCount(r.1)
      && r.0.report.changes.pendingAtEof == st.report.changes.pendingAtEof
    decreases |lines|
  {
    if lines != [] {
      var p := ParseLine(lines[0].text);
      AdvanceKeepsInvariant(st, p);
      AdvanceCounts(st, p);
      var (st1, out) := ProcessLine(st, lines[0].text, lines[0].nl);
      TransduceCounts(st1, lines[1..]);
      var outs := Transduce(st1, lines[1..]).1;
      assert ([out] + outs)[1..] == outs;
    }
  }

  /**
   * Every pending insertion ends exactly once: inserted, skipped because the
   * next line has a speed, skipped by the deadband, or dropped at the end of
   * the file. After the final step, the resolutions added up equal the
   * pendings there were, and the slot is empty.
   */
  lemma {:induction false} EveryPendingResolvedOnce(st: State, lines: seq<LineIn>)
    requires PendingNeedsSpindle(st)
    ensures var final := Finalize(Transduce(st, lines).0);
      && final.pending.None?
      && Resolutions(final.report.changes)
         == Resolutions(st.report.changes) + (if st.pending.Some? then 1 else 0) + ScheduledCount(st, lines)
    decreases |lines|
  {
    if lines != [] {
      var p := ParseLine(lines[0].text);
      AdvanceCounts(st, p);
      AdvanceSchedules(st, p);
      AdvanceSpindle(st, p);
      var st1 := ProcessLine(st, lines[0].text, lines[0].nl).0;
      assert PendingNeedsSpindle(st1);
      EveryPendingResolvedOnce(st1, lines[1..]);
    }
  }

  /**
   * From a state with nothing pending and nothing resolved, as at the start
   * of a file, the resolutions after the final step equal the pendings
   * scheduled.
   */
  lemma FreshRunAccounting(st: State, lines: seq<LineIn>)
    requires st.pending.None? && Resolutions(st.report.changes) == 0
    ensures Resolutions(Finalize(Transduce(st, lines).0).report.changes) == ScheduledCount(st, lines)
  {
    EveryPendingResolvedOnce(st, lines);
  }

  /**
   * The speeds one line puts into effect, in the order the range sees them:
   * the inserted speed, then the line's own speed if the spindle turns after
   * its tokens.
   */
  function AppliedSpeeds(st: State, p: ParsedLine): seq<int>
  {
    (if Inserts(st, p) then [PendingDecision(st).rpmClamped] else [])
    + (if SpindleAfter(st.spindleOn, p) && p.sRpm.Some? then [p.sRpm.value] else [])
  }

  /** The speeds a run puts into effect, line after line. */
  function RunSpeeds(st: State, lines: seq<LineIn>): seq<int>
    decreases |lines|
  {
    if lines == [] then []
    else
      var p := ParseLine(lines[0].text);
      AppliedSpeeds(st, p) + RunSpeeds(ProcessLine(st, lines[0].text, lines[0].nl).0, lines[1..])
  }

  /** The recorded range after a line is the range before it widened by that line's speeds. */
  lemma AdvanceRange(st: State, p: ParsedLine)
    ensures Advance(st, p).0.report.sRange == UpdateAll(st.report.sRange, AppliedSpeeds(st, p))
  {
  }

  /**
   * Over a run the recorded range is the starting range widened by every
   * speed the run puts into effect, in order.
   */
  lemma {:induction false} TransduceRange(st: State, lines: seq<LineIn>)
    ensures Transduce(st, lines).0.report.sRange == UpdateAll(st.report.sRange, RunSpeeds(st, lines))
    decreases |lines|
  {
    if lines != [] {
      var p := ParseLine(lines[0].text);
      var st1 := ProcessLine(st, lines[0].text, lines[0].nl).0;
      AdvanceRange(st, p);
      TransduceRange(st1, lines[1..]);
      UpdateAllAppend(st.report.sRange, AppliedSpeeds(st, p), RunSpeeds(st1, lines[1..]));
    }
  }

  /**
   * Starting from an unset range, as at the start of a file, the range after
   * a run is unset when no speed was put into effect, and otherwise is
   * exactly the smallest and the largest speed put into effect.
   */
  lemma FreshRunRange(st: State, lines: seq<LineIn>)
    requires st.report.sRange == SRange(None, None)
    ensures RangeOf(Transduce(st, lines).0.report.sRange, RunSpeeds(st, lines))
  {
    TransduceRange(st, lines);
    if RunSpeeds(st, lines) != [] {
      UpdateAllIsMinMax(RunSpeeds(st, lines));
    }
  }

  /** Lines without any B position never get a speed line, and leave nothing pending. */
  lemma {:induction false} NoAngleNoInsertion(st: State, lines: seq<LineIn>)
    requires st.pending.None?
    requires forall i :: 0 <= i < |lines| ==> ParseLine(lines[i].text).bDeg.None?
    ensures Transduce(st, lines).0.pending.None?
    ensures forall i :: 0 <= i < |lines| ==> Transduce(st, lines).1[i].inserted.None?
    decreases |lines|
  {
    if lines != [] {
      var p := ParseLine(lines[0].text);
      AdvanceSchedules(st, p);
      var (st1, out) := ProcessLine(st, lines[0].text, lines[0].nl);
      assert forall i :: 0 <= i < |lines[1..]| ==> lines[1..][i] == lines[i + 1];
      NoAngleNoInsertion(st1, lines[1..]);
    }
  }
}
