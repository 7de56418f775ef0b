/**
 * The file transducer: splits the input into lines the way a binary
 * `readline` does, keeps each line's own terminator, drives the injector
 * over the lines, writes each inserted speed line before its line, and
 * runs the final step once after the last line. Text is a character
 * sequence; decoding and encoding are the identity.
 */
module Processor {
  import opened Optional
  import opened Config
  import opened Parser
  import opened Report
  import opened Injector

  /** How much of the file the newline detection looks at. */
  const SampleSize: nat := 65536

  const CrLf: string := "\r\n"
  const Lf: string := "\n"

  predicate CrLfAt(s: string, i: int) {
    0 <= i && i + 1 < |s| && s[i] == '\r' && s[i + 1] == '\n'
  }

  function ContainsCrLfFrom(s: string, i: nat): (r: bool)
    ensures r <==> exists j :: i <= j && CrLfAt(s, j)
    decreases |s| - i
  {
    if i + 1 >= |s| then false
    else CrLfAt(s, i) || ContainsCrLfFrom(s, i + 1)
  }

  /** The leading part of the file the newline detection looks at. */
  function Sample(data: string): (s: string)
    ensures |s| <= SampleSize && |s| <= |data| && s == data[..|s|]
    ensures |data| <= SampleSize ==> s == data
  {
    if |data| <= SampleSize then data else data[..SampleSize]
  }

  /**
   * The file's default newline: CR LF when the sample contains one, LF
   * otherwise, including when the sample has no newline at all.
   */
  function DetectNewline(data: string): (nl: string)
    ensures nl == CrLf <==> exists j :: CrLfAt(Sample(data), j)
    ensures nl != CrLf ==> nl == Lf
  {
    var sample := Sample(data);
    if ContainsCrLfFrom(sample, 0) then CrLf
    else if '\n' in sample then Lf
    else Lf
  }

  // ---------------------------------------------------------------------
  // Splitting into lines and terminators
  // ---------------------------------------------------------------------

  /** The length of the first line, its `\n` included when it has one. */
  function FirstLineLength(data: string, i: nat): (n: nat)
    requires i < |data|
    requires forall k :: 0 <= k < i ==> data[k] != '\n'
    ensures i < n <= |data|
    ensures forall k :: 0 <= k < n - 1 ==> data[k] != '\n'
    ensures n == |data| || data[n - 1] == '\n'
    decreases |data| - i
  {
    if data[i] == '\n' || i + 1 == |data| then i + 1
    else FirstLineLength(data, i + 1)
  }

  function Concat(parts: seq<string>): string
    decreases |parts|
  {
    if parts == [] then [] else parts[0] + Concat(parts[1..])
  }

  /** The lines a binary `readline` loop returns: up to and including each `\n`, then the rest. */
  function ReadLines(data: string): seq<string>
    decreases |data|
  {
    if data == [] then []
    else
      var n := FirstLineLength(data, 0);
      [data[..n]] + ReadLines(data[n..])
  }

  /**
   * Lines as a `readline` loop returns them: none of them empty, each ending
   * in `\n` except possibly the last, and none with a `\n` elsewhere.
   */
  predicate WellSplit(lines: seq<string>) {
    && (forall i :: 0 <= i < |lines| ==> |lines[i]| > 0)
    && (forall i :: 0 <= i < |lines| - 1 ==> lines[i][|lines[i]| - 1] == '\n')
    && (forall i, k :: 0 <= i < |lines| && 0 <= k < |lines[i]| - 1 ==> lines[i][k] != '\n')
  }

  /** The lines are well split, none is left out, and together they are exactly the input. */
  lemma {:induction false} ReadLinesSpec(data: string)
    ensures Concat(ReadLines(data)) == data
    ensures WellSplit(ReadLines(data))
    ensures data == [] <==> ReadLines(data) == []
    decreases |data|
  {
    if data != [] {
      var n := FirstLineLength(data, 0);
      ReadLinesSpec(data[n..]);
      ReadLinesStep(data, n, ReadLines(data[n..]));
    }
  }

  /** The first line put in front of the well-split rest gives the well-split whole. */
  lemma ReadLinesStep(data: string, n: nat, rest: seq<string>)
    requires 0 < n <= |data|
    requires forall k :: 0 <= k < n - 1 ==> data[k] != '\n'
    requires n == |data| || data[n - 1] == '\n'
    requires Concat(rest) == data[n..] && WellSplit(rest)
    requires data[n..] == [] <==> rest == []
    ensures Concat([data[..n]] + rest) == data && WellSplit([data[..n]] + rest)
  {
    var head := data[..n];
    assert |head| == n && forall k :: 0 <= k < n ==> head[k] == data[k];
    if data[n..] != [] {
      assert head[n - 1] == '\n';
    }
    LinesCons(head, rest, data[n..]);
    assert head + data[n..] == data;
  }

  /** Putting a line in front of well-split lines keeps them well split. */
  lemma LinesCons(head: string, rest: seq<string>, restData: string)
    requires |head| > 0
    requires forall k :: 0 <= k < |head| - 1 ==> head[k] != '\n'
    requires restData != [] ==> head[|head| - 1] == '\n'
    requires Concat(rest) == restData && (restData == [] <==> rest == [])
    requires WellSplit(rest)
    ensures Concat([head] + rest) == head + restData
    ensures WellSplit([head] + rest)
  {
    var lines := [head] + rest;
    assert lines[1..] == rest;
    assert forall i :: 1 <= i < |lines| ==> lines[i] == rest[i - 1];
  }

  /** A complete line as `readline` returns it: non-empty, one `\n`, at its end. */
  predicate IsFullLine(line: string) {
    |line| > 0 && line[|line| - 1] == '\n' && forall k :: 0 <= k < |line| - 1 ==> line[k] != '\n'
  }

  /** Reading the lines back from complete lines put together gives the same lines. */
  lemma {:induction false} ReadLinesConcat(lines: seq<string>)
    requires forall i :: 0 <= i < |lines| ==> IsFullLine(lines[i])
    ensures ReadLines(Concat(lines)) == lines
    decreases |lines|
  {
    if lines != [] {
      var head := lines[0];
      var rest := Concat(lines[1..]);
      var data := head + rest;
      assert Concat(lines) == data;
      FirstLineOf(head, rest, 0);
      assert data[..|head|] == head && data[|head|..] == rest;
      ReadLinesConcat(lines[1..]);
      assert [head] + lines[1..] == lines;
    }
  }

  /**
   * A file made of complete lines splits back into exactly those lines, each
   * with the body and terminator it was written with.
   */
  lemma SplitFullLines(raw: seq<string>, lines: seq<LineIn>, default: string)
    requires forall k :: 0 <= k < |raw| ==> IsFullLine(raw[k])
    requires |raw| == |lines|
    requires forall k :: 0 <= k < |raw| ==> SplitTerminator(raw[k], default) == lines[k]
    ensures SplitAll(ReadLines(Concat(raw)), default) == lines
  {
    ReadLinesConcat(raw);
  }

  lemma {:induction false} FirstLineOf(head: string, rest: string, i: nat)
    requires IsFullLine(head) && i < |head|
    ensures (forall k :: 0 <= k < i ==> (head + rest)[k] != '\n') ==> FirstLineLength(head + rest, i) == |head|
    decreases |head| - i
  {
    var data := head + rest;
    if forall k :: 0 <= k < i ==> data[k] != '\n' {
      if i + 1 < |head| {
        assert data[i] == head[i] != '\n';
        FirstLineOf(head, rest, i + 1);
      }
    }
  }

  predicate EndsWith(s: string, suffix: string) {
    |suffix| <= |s| && s[|s| - |suffix|..] == suffix
  }

  /**
   * A line's body and terminator: CR LF when the line ends with it, else LF
   * when it ends with that, else the default newline.
   */
  function SplitTerminator(line: string, default: string): LineIn
  {
    if EndsWith(line, CrLf) then LineIn(line[..|line| - 2], CrLf)
    else if EndsWith(line, Lf) then LineIn(line[..|line| - 1], Lf)
    else LineIn(line, default)
  }

  /** The line with a terminator: itself when it ends in `\n`, else with the default newline appended. */
  function Terminated(line: string, default: string): string
  {
    if EndsWith(line, Lf) then line else line + default
  }

  /**
   * The terminator kept for a line is its own CR LF or LF, and the default
   * newline only when it has none; body and terminator put back together are
   * the line itself when it was terminated, and the line plus the default
   * newline when it was not.
   */
  lemma SplitTerminatorRestores(line: string, default: string)
    ensures var r := SplitTerminator(line, default);
      && (EndsWith(line, CrLf) ==> r.nl == CrLf && r.text + r.nl == line)
      && (!EndsWith(line, CrLf) && EndsWith(line, Lf) ==> r.nl == Lf && r.text + r.nl == line)
      && (!EndsWith(line, Lf) ==> r.nl == default && r.text == line)
      && r.text + r.nl == Terminated(line, default)
  {
    if EndsWith(line, CrLf) {
      assert line[|line| - 1..] == Lf;
      assert line[..|line| - 2] + CrLf == line;
    } else if EndsWith(line, Lf) {
      assert line[..|line| - 1] + Lf == line;
    }
  }

  /** A line ending in CR LF splits into its text and CR LF, whatever the default. */
  lemma SplitCrLfLine(text: string, default: string)
    ensures SplitTerminator(text + CrLf, default) == LineIn(text, CrLf)
  {
    var line := text + CrLf;
    assert line[|line| - 2..] == CrLf;
    assert line[..|line| - 2] == text;
  }

  function SplitAll(lines: seq<string>, default: string): (r: seq<LineIn>)
    ensures |r| == |lines|
    ensures forall i :: 0 <= i < |lines| ==> r[i] == SplitTerminator(lines[i], default)
    decreases |lines|
  {
    if lines == [] then [] else [SplitTerminator(lines[0], default)] + SplitAll(lines[1..], default)
  }

  // ---------------------------------------------------------------------
  // The whole file
  // ---------------------------------------------------------------------

  /** What one output contributes to the file: the inserted line, then the line. */
  function Emitted(out: LineOutput): string
  {
    (if out.inserted.Some? then out.inserted.value else []) + out.line
  }

  function EmitAll(outs: seq<LineOutput>): string
    decreases |outs|
  {
    if outs == [] then [] else Emitted(outs[0]) + EmitAll(outs[1..])
  }

  /** The emitted text is the concatenation of each output's contribution. */
  lemma {:induction false} EmitAllParts(outs: seq<LineOutput>, parts: seq<string>)
    requires |outs| == |parts|
    requires forall i :: 0 <= i < |outs| ==> Emitted(outs[i]) == parts[i]
    ensures EmitAll(outs) == Concat(parts)
    decreases |outs|
  {
    if outs != [] {
      EmitAllParts(outs[1..], parts[1..]);
    }
  }

  datatype FileResult = FileResult(output: string, report: Report)

  /** The injector's run over the file's lines, from a fresh injector. */
  function FileRun(cfg: BcssConfig, sinDeg: real -> real, data: string): (State, seq<LineOutput>)
  {
    Transduce(NewInjector(cfg, sinDeg), SplitAll(ReadLines(data), DetectNewline(data)))
  }

  /**
   * Processes a whole file: detect the default newline, split the lines,
   * run every line through a fresh injector in order, write inserted lines
   * before their lines, then run the final step once.
   */
  function ProcessFile(cfg: BcssConfig, sinDeg: real -> real, data: string): FileResult
  {
    var run := FileRun(cfg, sinDeg, data);
    FileResult(EmitAll(run.1), Finalize(run.0).report)
  }

  /** The input with a default newline after an unterminated last line. */
  function TerminatedInput(data: string, default: string): string
  {
    if data == [] || data[|data| - 1] == '\n' then data else data + default
  }

  /**
   * With no insertion, the outputs put back together are the input lines,
   * each terminated: the input itself, plus the default newline when the
   * last line had none.
   */
  lemma {:induction false} NoInsertionRestoresInput(lines: seq<string>, default: string, outs: seq<LineOutput>)
    requires forall i :: 0 <= i < |lines| ==> |lines[i]| > 0
    requires forall i :: 0 <= i < |lines| - 1 ==> lines[i][|lines[i]| - 1] == '\n'
    requires |outs| == |lines|
    requires forall i :: 0 <= i < |lines| ==> outs[i].inserted.None? && outs[i].line == Terminated(lines[i], default)
    ensures EmitAll(outs) == TerminatedInput(Concat(lines), default)
    decreases |lines|
  {
    if lines != [] {
      var head := lines[0];
      var tail := lines[1..];
      var rest := Concat(tail);
      assert Concat(lines) == head + rest;
      assert EmitAll(outs) == Emitted(outs[0]) + EmitAll(outs[1..]);
      assert Emitted(outs[0]) == Terminated(head, default);
      assert forall i :: 0 <= i < |tail| ==> tail[i] == lines[i + 1] && outs[1..][i] == outs[i + 1];
      NoInsertionRestoresInput(tail, default, outs[1..]);
      EndsWithLf(head);
      if |lines| == 1 {
        assert rest == [];
        assert head + rest == head;
      } else {
        ConcatNonEmpty(tail);
        assert Terminated(head, default) == head;
        var whole := head + rest;
        TerminatedInputPrefix(head, rest, default);
      }
    }
  }

  lemma TerminatedInputPrefix(head: string, rest: string, default: string)
    requires |rest| > 0
    ensures TerminatedInput(head + rest, default) == head + TerminatedInput(rest, default)
  {
    var whole := head + rest;
    assert whole[|whole| - 1] == rest[|rest| - 1];
    if rest[|rest| - 1] != '\n' {
      assert whole + default == head + (rest + default);
    }
  }

  lemma EndsWithLf(s: string)
    ensures EndsWith(s, Lf) <==> (|s| > 0 && s[|s| - 1] == '\n')
  {
    if |s| > 0 {
      assert s[|s| - 1..] == [s[|s| - 1]];
    }
  }

  lemma ConcatNonEmpty(parts: seq<string>)
    requires |parts| > 0 && |parts[0]| > 0
    ensures |Concat(parts)| > 0
  {
  }

  /**
   * When no line carries a B position, nothing is inserted: the output is
   * the input (plus the default newline after an unterminated last line),
   * and no insertion is counted.
   */
  lemma NoAngleFileUnchanged(cfg: BcssConfig, sinDeg: real -> real, data: string)
    requires forall i :: 0 <= i < |ReadLines(data)| ==> ParseLine(SplitTerminator(ReadLines(data)[i], DetectNewline(data)).text).bDeg.None?
    ensures ProcessFile(cfg, sinDeg, data).output == TerminatedInput(data, DetectNewline(data))
    ensures ProcessFile(cfg, sinDeg, data).report.changes.insertedSLines == 0
  {
    NoAngleFileRun(cfg, sinDeg, data);
  }

  /** `NoAngleFileUnchanged` for the run itself, before the report is finalized. */
  lemma NoAngleFileRun(cfg: BcssConfig, sinDeg: real -> real, data: string)
    requires forall i :: 0 <= i < |ReadLines(data)| ==> ParseLine(SplitTerminator(ReadLines(data)[i], DetectNewline(data)).text).bDeg.None?
    ensures EmitAll(FileRun(cfg, sinDeg, data).1) == TerminatedInput(data, DetectNewline(data))
    ensures Finalize(FileRun(cfg, sinDeg, data).0).report.changes.insertedSLines == 0
  {
    ReadLinesSpec(data);
    FreshStart(cfg, sinDeg);
    NoAngleRunUnchanged(NewInjector(cfg, sinDeg), ReadLines(data), DetectNewline(data));
  }

  /** The outputs with their inserted speed lines taken away. */
  function WithoutInserted(outs: seq<LineOutput>): (r: seq<LineOutput>)
    ensures |r| == |outs|
    ensures forall i :: 0 <= i < |outs| ==> r[i] == LineOutput(outs[i].line, None)
  {
    seq(|outs|, i requires 0 <= i < |outs| => LineOutput(outs[i].line, None))
  }

  /**
   * The output file only ever gains speed lines: taking the inserted lines
   * away leaves the input, with a default newline after an unterminated last
   * line; and every inserted line is `S<n>` ending with the newline of the
   * line it precedes.
   */
  lemma ProcessFileInsertsOnly(cfg: BcssConfig, sinDeg: real -> real, data: string)
    ensures var outs := FileRun(cfg, sinDeg, data).1;
      && ProcessFile(cfg, sinDeg, data).output == EmitAll(outs)
      && EmitAll(WithoutInserted(outs)) == TerminatedInput(data, DetectNewline(data))
    ensures var outs := FileRun(cfg, sinDeg, data).1;
      var raw := ReadLines(data);
      && |outs| == |raw|
      && forall i :: 0 <= i < |raw| && outs[i].inserted.Some? ==>
           exists v :: outs[i].inserted.value == SpeedLine(v) + SplitTerminator(raw[i], DetectNewline(data)).nl
  {
    ReadLinesSpec(data);
    FileLinesRestored(ReadLines(data), DetectNewline(data), FileRun(cfg, sinDeg, data).1);
  }

  lemma FileLinesRestored(raw: seq<string>, nl: string, outs: seq<LineOutput>)
    requires WellSplit(raw)
    requires |outs| == |raw|
    requires forall i :: 0 <= i < |raw| ==> outs[i].line == SplitAll(raw, nl)[i].text + SplitAll(raw, nl)[i].nl
    ensures EmitAll(WithoutInserted(outs)) == TerminatedInput(Concat(raw), nl)
  {
    var bare := WithoutInserted(outs);
    forall i | 0 <= i < |raw|
      ensures bare[i].inserted.None? && bare[i].line == Terminated(raw[i], nl)
    {
      SplitTerminatorRestores(raw[i], nl);
    }
    NoInsertionRestoresInput(raw, nl, bare);
  }

  /** A new injector keeps the invariant and has nothing pending. */
  lemma FreshStart(cfg: BcssConfig, sinDeg: real -> real)
    ensures Invariant(NewInjector(cfg, sinDeg)) && NewInjector(cfg, sinDeg).pending.None?
  {
  }

  /** The run behind `NoAngleFileUnchanged`, over any line split and any start without a pending insertion. */
  lemma NoAngleRunUnchanged(st0: State, raw: seq<string>, nl: string)
    requires Invariant(st0) && st0.pending.None?
    requires WellSplit(raw)
    requires forall i :: 0 <= i < |raw| ==> ParseLine(SplitTerminator(raw[i], nl).text).bDeg.None?
    ensures EmitAll(Transduce(st0, SplitAll(raw, nl)).1) == TerminatedInput(Concat(raw), nl)
    ensures Finalize(Transduce(st0, SplitAll(raw, nl)).0).report.changes.insertedSLines == st0.report.changes.insertedSLines
  {
    var lines := SplitAll(raw, nl);
    var outs := Transduce(st0, lines).1;
    NoAngleNoInsertion(st0, lines);
    forall i | 0 <= i < |raw|
      ensures outs[i].line == Terminated(raw[i], nl)
    {
      SplitTerminatorRestores(raw[i], nl);
    }
    NoInsertionRestoresInput(raw, nl, outs);
    TransduceCounts(st0, lines);
    NoneInsertedCount(outs);
  }

  lemma {:induction false} NoneInsertedCount(outs: seq<LineOutput>)
    requires forall i :: 0 <= i < |outs| ==> outs[i].inserted.None?
    ensures InsertedCount(outs) == 0
    decreases |outs|
  {
    if outs != [] {
      NoneInsertedCount(outs[1..]);
    }
  }

  /**
   * A file whose every line ends in a newline comes back byte for byte when
   * no line carries a B position.
   */
  lemma TerminatedNoAngleFileIdentity(cfg: BcssConfig, sinDeg: real -> real, data: string)
    requires data == [] || data[|data| - 1] == '\n'
    requires forall i :: 0 <= i < |ReadLines(data)| ==> ParseLine(SplitTerminator(ReadLines(data)[i], DetectNewline(data)).text).bDeg.None?
    ensures ProcessFile(cfg, sinDeg, data).output == data
  {
    NoAngleFileUnchanged(cfg, sinDeg, data);
  }

  /**
   * A final report that accounts for a run: every line counted once, the
   * insertion counter equal to the speed lines emitted, an end-of-file
   * count of one exactly when an insertion was left pending, and an
   * ordered range.
   */
  predicate RunAccounted(rep: Report, lineCount: nat, outs: seq<LineOutput>, pendingAtEnd: bool) {
    && rep.detect.totalLines == lineCount
    && rep.changes.insertedSLines == InsertedCount(outs)
    && rep.changes.pendingAtEof == (if pendingAtEnd then 1 else 0)
    && ValidRange(rep.sRange)
  }

  /** A state as at the start of a file: the invariant holds and the counters used below are zero. */
  predicate FreshCounts(st: State) {
    && Invariant(st)
    && st.report.detect.totalLines == 0
    && st.report.changes.insertedSLines == 0 && st.report.changes.pendingAtEof == 0
  }

  /**
   * The report of a file: every line counted once, the insertion counter
   * equal to the speed lines in the output, nothing left pending, and the
   * end-of-file count set by the single final step.
   */
  lemma FileReportCounts(cfg: BcssConfig, sinDeg: real -> real, data: string)
    ensures RunAccounted(ProcessFile(cfg, sinDeg, data).report, |ReadLines(data)|,
                         FileRun(cfg, sinDeg, data).1, FileRun(cfg, sinDeg, data).0.pending.Some?)
  {
    var st0 := NewInjector(cfg, sinDeg);
    var lines := SplitAll(ReadLines(data), DetectNewline(data));
    FreshStart(cfg, sinDeg);
    FinalReportCounts(st0, lines);
  }

  /**
   * The speed range of a file's report is exactly the smallest and the
   * largest speed the run put into effect, inserted or explicit, and unset
   * when there was none.
   */
  lemma FileReportRange(cfg: BcssConfig, sinDeg: real -> real, data: string)
    ensures RangeOf(ProcessFile(cfg, sinDeg, data).report.sRange,
                    RunSpeeds(NewInjector(cfg, sinDeg), SplitAll(ReadLines(data), DetectNewline(data))))
  {
    FreshRunRange(NewInjector(cfg, sinDeg), SplitAll(ReadLines(data), DetectNewline(data)));
  }

  lemma FinalReportCounts(st0: State, lines: seq<LineIn>)
    requires FreshCounts(st0)
    ensures var r := Transduce(st0, lines);
      RunAccounted(Finalize(r.0).report, |lines|, r.1, r.0.pending.Some?)
  {
    TransduceCounts(st0, lines);
  }

  // ---------------------------------------------------------------------
  // Output file names
  // ---------------------------------------------------------------------

  /** The index of the last occurrence of `c` in `s`, or -1. */
  function LastIndexOf(s: string, c: char): (i: int)
    ensures -1 <= i < |s|
    ensures i >= 0 ==> s[i] == c
    ensures forall k :: i < k < |s| ==> s[k] != c
    decreases |s|
  {
    if s == [] then -1
    else if s[|s| - 1] == c then |s| - 1
    else LastIndexOf(s[..|s| - 1], c)
  }

  /** The last component of a `/`-separated path. */
  function FileName(path: string): string
  {
    path[LastIndexOf(path, '/') + 1..]
  }

  /** The name has a suffix: a last `.` that is neither its first nor its last character. */
  predicate HasSuffix(name: string) {
    0 < LastIndexOf(name, '.') < |name| - 1
  }

  /** The name's suffix: from its last `.` on, or empty. */
  function Suffix(name: string): string
  {
    if HasSuffix(name) then name[LastIndexOf(name, '.')..] else ""
  }

  /** The name without its suffix. */
  function Stem(name: string): string
  {
    if HasSuffix(name) then name[..LastIndexOf(name, '.')] else name
  }

  /** Stem and suffix split the name, and the suffix is empty or one `.` and no other. */
  lemma StemSuffixSplit(name: string)
    ensures Stem(name) + Suffix(name) == name
    ensures Suffix(name) == "" || (Suffix(name)[0] == '.' && forall k :: 0 < k < |Suffix(name)| ==> Suffix(name)[k] != '.')
    ensures |Suffix(name)| != 1
  {
    if HasSuffix(name) {
      var i := LastIndexOf(name, '.');
      assert name[..i] + name[i..] == name;
    }
  }

  function JoinPath(dir: string, name: string): string
  {
    if dir != [] && dir[|dir| - 1] == '/' then dir + name else dir + "/" + name
  }

  const OutputTag: string := "-bcss"
  const ReportTail: string := ".report.json"

  /** The output file and the report file: `<stem>-bcss<suffix>` and `<stem>-bcss.report.json` in the output directory. */
  function MakeOutputPaths(inputPath: string, outDir: string): (r: (string, string))
    ensures r.0 != r.1
    ensures EndsWith(r.1, ReportTail)
  {
    var name := FileName(inputPath);
    var tagged := Stem(name) + OutputTag;
    TaggedNamesDistinct(name);
    JoinPathDistinct(outDir, tagged + Suffix(name), tagged + ReportTail);
    JoinPathEndsWith(outDir, tagged, ReportTail);
    (JoinPath(outDir, tagged + Suffix(name)), JoinPath(outDir, tagged + ReportTail))
  }

  /**
   * The output names keep the input's stem and suffix around the tag, the
   * output name never equals the input name, and the output file and the
   * report file never coincide.
   */
  lemma OutputNamesDistinct(inputPath: string, outDir: string)
    ensures var name := FileName(inputPath);
      var outName := Stem(name) + OutputTag + Suffix(name);
      var reportName := Stem(name) + OutputTag + ReportTail;
      && MakeOutputPaths(inputPath, outDir) == (JoinPath(outDir, outName), JoinPath(outDir, reportName))
      && outName != name
      && outName != reportName
  {
    TaggedNamesDistinct(FileName(inputPath));
  }

  /** The tagged output name differs from the name it came from and from the report name. */
  lemma TaggedNamesDistinct(name: string)
    ensures Stem(name) + OutputTag + Suffix(name) != name
    ensures Stem(name) + OutputTag + Suffix(name) != Stem(name) + OutputTag + ReportTail
  {
    StemSuffixSplit(name);
    var stem := Stem(name);
    var suffix := Suffix(name);
    assert |stem + OutputTag + suffix| == |name| + 5;
    assert ReportTail[7] == '.';
    assert suffix != ReportTail;
    var p := stem + OutputTag;
    assert (p + suffix)[|p|..] == suffix;
    assert (p + ReportTail)[|p|..] == ReportTail;
  }


  /** Two names joined to the same directory give different paths exactly when the names differ. */
  lemma JoinPathDistinct(dir: string, a: string, b: string)
    ensures a != b ==> JoinPath(dir, a) != JoinPath(dir, b)
  {
    var p := if dir != [] && dir[|dir| - 1] == '/' then dir else dir + "/";
    assert JoinPath(dir, a) == p + a && JoinPath(dir, b) == p + b;
    assert (p + a)[|p|..] == a;
    assert (p + b)[|p|..] == b;
  }

  /** A name joined to a directory keeps the name's tail at the end of the path. */
  lemma JoinPathEndsWith(dir: string, head: string, tail: string)
    ensures EndsWith(JoinPath(dir, head + tail), tail)
  {
    var p := if dir != [] && dir[|dir| - 1] == '/' then dir else dir + "/";
    var whole := p + head + tail;
    assert JoinPath(dir, head + tail) == whole;
    assert whole[|whole| - |tail|..] == tail;
  }
}
