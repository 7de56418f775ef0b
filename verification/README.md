# B-axis constant surface speed: a Dafny model

The program post-processes NC programs (EIA/ISO G-code) for a ball-end tool on
a machine with a tilting B axis. When the B angle changes while the spindle
turns, it writes a new spindle speed `S<rpm>` in front of the following line.
The speed keeps the cutting speed constant at the tool's effective diameter.
It also writes a JSON report of what it counted.

This project models the program's core and proves properties of the model:

- **Parser**: removes parenthesised comments and recognises the spindle start
  (`M3`/`M03`), the spindle stop (`M5`/`M05`), the first `B<signed decimal>`
  and the first `S<digits>`. The token patterns are hand scanners, each with a
  predicate for where the pattern matches.
- **Rpm**: turns B into the tilt angle θ = 90 − B, never below 0, and floors
  it to the angle step. It raises θ to the safety minimum and applies the
  relative formula `S_ref·sin θ_ref / sin θ` or the absolute one
  `1000·Vc / (π·D·sin θ)`. It then rounds half-to-even to the rounding unit,
  clamps (the upper bound is applied last), and gates the result with the
  deadband against the last speed in effect.
- **Injector**: the one-line-lookahead state machine, as pure phases: count
  the line, resolve the pending insertion, set the spindle, adopt an explicit
  speed, schedule on B. Over a run it is a fold, followed by one final step.
- **Report**: the counters and the min/max speed range.
- **Processor**: the file as a whole.
  - Newline detection looks at the first 65536 characters.
  - Lines are split as a binary `readline` returns them. Each line keeps its
    own CR LF or LF, and the detected default is used only for an
    unterminated last line.
  - Inserted lines are written in front of their line.
  - Output names are `<stem>-bcss<suffix>` and `<stem>-bcss.report.json`,
    with the `pathlib` stem/suffix rule.
- **Scenario**: the repository's smoke test, end to end. The sine is pinned to
  the shortest decimal forms of the double sines at 76°, 77° and 78°.

The sine of an angle in degrees is a parameter of the model (`sinDeg`).
Everything after it is exact arithmetic over the reals.

The model follows the code in these places, where a reader might expect
otherwise:

- Comments nest. The docstring of `strip_paren_comments` says nested
  parentheses are not supported (parser.py:17), but the depth counter
  (parser.py:20-28) does nest them: `((c)d)b` leaves `b`. A `)` outside any
  comment is dropped and the depth stays at 0.
- The reference angle θ_ref is computed once per run. It is not raised to the
  minimum angle, and its sine is not guarded against zero (rpm_model.py:44-45).
- The injector resolves a pending insertion only while the spindle turns
  (injector.py:51). A pending insertion with the spindle off would be kept.
  That state cannot arise: `Injector.AdvanceKeepsInvariant` proves a pending
  insertion exists only while the spindle turns.
- The speed token is converted with Python's `int()`, which refuses digit
  strings longer than 4300 characters (CPython's default
  `sys.int_info.default_max_str_digits`). A longer run after the first `S`
  gives no speed for the line, and later `S` tokens are not consulted
  (parser.py:56-62).
- `invert_b_to_theta` defaults to true, so the smoke test runs with the
  inversion. Its angles are 77°, 77° and 76°, not 12°, 12° and 13°.
  - The first B line (B12.3) also schedules an insertion, because no angle has
    been seen yet.
  - That insertion is resolved on `G1X1` at 8030 rpm. The deadband suppresses
    it, because 8000 rpm is in effect.
  - The only insertion is `S8060` before `G1X3`.

## Model

| member | source | states |
|---|---|---|
| Config.FormulaOf | src/nc_baxis_constant_surface_speed/core/rpm_model.py:109-112 | exactly the mode name "vc_absolute" selects the absolute formula; every other name selects the relative one |
| Config.WithDefaults | src/nc_baxis_constant_surface_speed/core/config.py:6-19 | a record built from the three required values has the declared defaults: step 1, minimum angle 1, speeds 0..999999, unit 10, deadband 50, inversion on |
| Parser.StripParenComments | src/nc_baxis_constant_surface_speed/core/parser.py:14-31 | the result has no parentheses, is the input with characters deleted, and is the input itself when the input has no parentheses |
| Parser.StripParenCommentsLoop | src/nc_baxis_constant_surface_speed/core/parser.py:14-31 | the character loop with a depth counter computes the same text as the recursive definition |
| Parser.StripAppend | src/nc_baxis_constant_surface_speed/core/parser.py:19-31 | stripping a concatenation is stripping each part, with the comment depth carried across |
| Parser.ClosedCommentVanishes | src/nc_baxis_constant_surface_speed/core/parser.py:14-31 | a closed comment vanishes whatever it holds; the text around it is kept |
| Parser.UnclosedCommentDropsRest | src/nc_baxis_constant_surface_speed/core/parser.py:14-31 | everything after a `(` that is never closed is dropped |
| Parser.StrayCloseDropped | src/nc_baxis_constant_surface_speed/core/parser.py:25-28 | a `)` outside any comment is dropped and does not lower the depth below 0, so the text after it is kept |
| Parser.NestedCommentVanishes | src/nc_baxis_constant_surface_speed/core/parser.py:20-28 | comments nest through the depth counter: `((c)d)` vanishes as a whole and the text after it is kept |
| Parser.HasMCode | src/nc_baxis_constant_surface_speed/core/parser.py:10-11 | true exactly when `M`, an optional `0` and the code match somewhere with no digit after them |
| Parser.DigitRunEnd | src/nc_baxis_constant_surface_speed/core/parser.py:8-9 | the end of the maximal digit run: digits up to it, and none at it |
| Parser.NatToDigits | src/nc_baxis_constant_surface_speed/core/injector.py:66 | the decimal rendering reads back as the same number and has no leading zero, as `f"S{n}"` writes it |
| Parser.FindS | src/nc_baxis_constant_surface_speed/core/parser.py:57 | the leftmost index at which `S<digit>` matches, or none when it matches nowhere |
| Parser.FirstS | src/nc_baxis_constant_surface_speed/core/parser.py:56-62 | none exactly when no `S<digit>` occurs or the digit run after the leftmost match is longer than the 4300 digits `int()` accepts; otherwise the value of that whole digit run |
| Parser.FindB | src/nc_baxis_constant_surface_speed/core/parser.py:49 | the leftmost index at which the B pattern matches, or none when it matches nowhere |
| Parser.FirstB | src/nc_baxis_constant_surface_speed/core/parser.py:48-54 | none exactly when the B pattern matches nowhere; otherwise the signed value at the leftmost match |
| Parser.FindBFirstAt | src/nc_baxis_constant_surface_speed/core/parser.py:49 | when the B pattern matches at an index and nowhere before it from the start point, the angle scan returns that index |
| Parser.FindSFirstAt | src/nc_baxis_constant_surface_speed/core/parser.py:57 | when `S<digit>` matches at an index and nowhere before it from the start point, the speed scan returns that index |
| Parser.ParseLine | src/nc_baxis_constant_surface_speed/core/parser.py:42-64 | the spindle codes and the angle are present exactly when their patterns match somewhere in the comment-free text; the speed exactly when its pattern matches and the leftmost match's digit run fits `int()`; the angle and the speed are the leftmost matches' values in the comment-free text |
| Parser.SpeedLineParsesBack | src/nc_baxis_constant_surface_speed/core/injector.py:66-67 | an inserted line `S<n>` carries no token but the speed, and parses back to n exactly when n has at most 4300 digits |
| ParserExamples.CommentedSpeedIgnored | src/nc_baxis_constant_surface_speed/core/parser.py:43 | a speed inside a comment is not seen |
| ParserExamples.ProgramEndIsNotSpindleStart | src/nc_baxis_constant_surface_speed/core/parser.py:10 | `M30` is not a spindle start |
| ParserExamples.DoubleZeroIsNotSpindleStart | src/nc_baxis_constant_surface_speed/core/parser.py:10 | `M003` is not a spindle start |
| ParserExamples.ShortSpindleStart | src/nc_baxis_constant_surface_speed/core/parser.py:10-11 | `M3` is a spindle start and not a stop |
| ParserExamples.BareAngleLettersIgnored | src/nc_baxis_constant_surface_speed/core/parser.py:8 | `B`, `B-` and `B.` carry no angle |
| ParserExamples.FractionalAngle | src/nc_baxis_constant_surface_speed/core/parser.py:8 | `B12.5` is 12.5 |
| ParserExamples.TrailingPointAngle | src/nc_baxis_constant_surface_speed/core/parser.py:8 | `B12.` is 12 |
| ParserExamples.SignedPointAngle | src/nc_baxis_constant_surface_speed/core/parser.py:8 | `B-.5` is -0.5 |
| ParserExamples.GluedAngle | src/nc_baxis_constant_surface_speed/core/parser.py:7-8 | a B glued to the previous word (`Y-1.5B10.8C0`) is found, with value 10.8 |
| ParserExamples.SpeedAfterBareLetter | src/nc_baxis_constant_surface_speed/core/parser.py:9 | the speed is the digit run after the first `S` followed by a digit |
| Rpm.FloorStep | src/nc_baxis_constant_surface_speed/core/rpm_model.py:10-13 | for a positive step, the largest multiple of the step not above the value; the value itself otherwise |
| Rpm.FloorStepIdempotent | src/nc_baxis_constant_surface_speed/core/rpm_model.py:54-56 | quantising a quantised angle changes nothing |
| Rpm.FloorStepSameCell | src/nc_baxis_constant_surface_speed/core/rpm_model.py:10-13 | angles in the same step cell quantise to the same angle |
| Rpm.BToTheta | src/nc_baxis_constant_surface_speed/core/rpm_model.py:47-52 | θ is 90 − B, or 0 when that is negative; never below either |
| Rpm.ThetaUsed | src/nc_baxis_constant_surface_speed/core/rpm_model.py:59 | the angle used is at least the minimum and the angle; it is raised exactly when the angle is below the minimum |
| Rpm.GuardSin | src/nc_baxis_constant_surface_speed/core/rpm_model.py:61-63 | a sine below 1e-12 in magnitude becomes 1e-12; any other sine is kept |
| Rpm.EffectiveDiameter | src/nc_baxis_constant_surface_speed/core/rpm_model.py:77-79 | the diameter is D·sin θ, floored at 1e-9 mm |
| Rpm.RoundHalfEven | src/nc_baxis_constant_surface_speed/core/rpm_model.py:89 | within one half of the input, and even at a tie |
| Rpm.RoundHalfEvenNearest | src/nc_baxis_constant_surface_speed/core/rpm_model.py:89 | no integer is nearer, and any integer nearer than one half is the rounding |
| Rpm.RoundUnit | src/nc_baxis_constant_surface_speed/core/rpm_model.py:88 | the unit is at least 1, and is the configured unit when that is at least 1 |
| Rpm.RoundToUnit | src/nc_baxis_constant_surface_speed/core/rpm_model.py:88-89 | a multiple of the unit within half a unit of the raw speed, strictly within when the multiple is odd |
| Rpm.Clamp | src/nc_baxis_constant_surface_speed/core/rpm_model.py:91-99 | inside the bounds when they are ordered; clamped exactly when the value was outside; the upper bound wins when they cross |
| Rpm.Postprocess | src/nc_baxis_constant_surface_speed/core/rpm_model.py:86-107 | the rounded speed is a multiple of the unit within half a unit of the raw speed, strictly within when it is an odd multiple; it is clamped exactly when outside the bounds, and the upper bound wins when they cross; the angle and the raw speed are reported unchanged |
| Rpm.ComputeSForTheta | src/nc_baxis_constant_surface_speed/core/rpm_model.py:58-112 | the angle is raised exactly when below the minimum; the mode picks the formula; the rounded speed is the nearest multiple of the unit, ties to an even multiple; it is clamped exactly when outside the bounds, and the upper bound wins when they cross |
| Rpm.RelativeKeepsSurfaceSpeed | src/nc_baxis_constant_surface_speed/core/rpm_model.py:58-67 | where the sine is not guarded, the relative raw speed times sin θ equals the reference speed times sin θ_ref, so the surface speed is the reference one |
| Rpm.AbsoluteMeetsCuttingSpeed | src/nc_baxis_constant_surface_speed/core/rpm_model.py:69-84 | where neither the sine nor the diameter is guarded, π·D·sin θ times the absolute raw speed is 1000·Vc: the cutting speed is met |
| Rpm.ReferenceFixedPerRun | src/nc_baxis_constant_surface_speed/core/rpm_model.py:44-45 | the reference angle does not depend on the minimum angle, the reference sine does not depend on the speed in effect, and a reference sine of zero makes every relative speed zero |
| Rpm.ShouldInsert | src/nc_baxis_constant_surface_speed/core/rpm_model.py:114-118 | always when no speed is in effect; otherwise exactly when the change is at least the deadband |
| Rpm.ResetOpensGate | src/nc_baxis_constant_surface_speed/core/rpm_model.py:123-124 | after a reset every speed passes the gate |
| Rpm.WithinDeadbandBlocked | src/nc_baxis_constant_surface_speed/core/rpm_model.py:118 | a speed within the deadband of the one in effect never passes |
| Rpm.DeclaredRecordAlwaysRaises | src/nc_baxis_constant_surface_speed/core/rpm_model.py:110 | against the record as declared, every speed computation fails on the missing `mode` attribute |
| Report.Update | src/nc_baxis_constant_surface_speed/core/report.py:33-37 | the range contains the value, the minimum never grows, the maximum never shrinks, each bound changes only to the value, and a value already inside changes nothing |
| Report.UpdateAllIsMinMax | src/nc_baxis_constant_surface_speed/core/report.py:29-37 | after updates from unset, the bounds are exactly the minimum and the maximum of the values fed in |
| Injector.NewInjector | src/nc_baxis_constant_surface_speed/core/injector.py:17-23 | a fresh injector: spindle off, no angle seen, nothing pending, no speed in effect, counters at zero |
| Injector.Resolve | src/nc_baxis_constant_surface_speed/core/injector.py:49-75 | a speed line is produced exactly when an insertion is pending, the spindle turns, the line has no speed and the gate passes; the pending slot is emptied; a line with its own speed counts one next-line skip and nothing else; otherwise one insertion or one deadband skip is counted, one clamp exactly when the rounded speed lay outside the bounds, and one raised angle exactly when the pending angle was below the minimum; an inserted speed widens the range exactly as `SRange.update` does |
| Injector.SetSpindleState | src/nc_baxis_constant_surface_speed/core/injector.py:25-32 | a start turns the spindle on, a stop turns it off and forgets the speed in effect, and with both the stop wins |
| Injector.AdoptExplicitS | src/nc_baxis_constant_surface_speed/core/injector.py:83-86 | an explicit speed while the spindle turns becomes the speed in effect and widens the range exactly as `SRange.update` does; otherwise nothing changes |
| Injector.InlineThetaIsBToTheta | src/nc_baxis_constant_surface_speed/core/injector.py:92-96 | the injector's inline conversion is the model's B-to-θ conversion |
| Injector.ScheduleOnB | src/nc_baxis_constant_surface_speed/core/injector.py:88-101 | a B while the spindle turns is counted, schedules its quantised angle when that differs from the last one, and updates the last angle |
| Injector.Advance | src/nc_baxis_constant_surface_speed/core/injector.py:44-103 | a line returns a speed exactly when a pending insertion meets a turning spindle, the line has no speed and the deadband gate passes; that speed is the clamped speed for the pending angle |
| Injector.ProcessLine | src/nc_baxis_constant_surface_speed/core/injector.py:34-106 | the line is written back with its own newline; a speed line is inserted exactly under the conditions above, with the same newline |
| Injector.Finalize | src/nc_baxis_constant_surface_speed/core/injector.py:108-112 | a pending insertion at the end is counted once and dropped; nothing else changes |
| Injector.AdvanceKeepsInvariant | src/nc_baxis_constant_surface_speed/core/injector.py:49-101 | between lines an insertion is pending only while the spindle turns, clamp and minimum-angle counts never exceed the computed speeds, and the range stays ordered |
| Injector.AdvanceCounts | src/nc_baxis_constant_surface_speed/core/injector.py:47-90 | each line adds one line, one spindle-on line and one B line exactly when they apply; the change counters move only when a pending insertion is resolved, and then as Resolve states |
| Injector.AdvanceSpindle | src/nc_baxis_constant_surface_speed/core/injector.py:77-86 | the spindle after a line follows its tokens; a stop forgets the speed; an explicit speed while turning becomes the speed in effect |
| Injector.AdvanceSchedules | src/nc_baxis_constant_surface_speed/core/injector.py:88-101 | after a line an insertion is pending exactly when the spindle turns, the line has a B, and its quantised angle changed |
| Injector.NoScheduleWhileStopped | src/nc_baxis_constant_surface_speed/core/injector.py:88-89 | a line that leaves the spindle off schedules nothing |
| Injector.DeadbandSkip | src/nc_baxis_constant_surface_speed/core/injector.py:64-72 | a computed speed within the deadband is not inserted, counts as a deadband skip, and keeps the speed in effect |
| Injector.IdleLine | src/nc_baxis_constant_surface_speed/core/injector.py:47-103 | a line read while the spindle is off, and without a start, is only counted and produces nothing; a stop on it forgets the speed in effect |
| Injector.SteadyLine | src/nc_baxis_constant_surface_speed/core/injector.py:47-101 | a line read while the spindle turns with nothing pending, without a stop or a speed, produces nothing and only counts itself before its B position is scheduled |
| Injector.Transduce | src/nc_baxis_constant_surface_speed/core/processor.py:63-93 | one output per line, each the line with its own newline, and every insertion a speed line with that newline |
| Injector.TransduceCounts | src/nc_baxis_constant_surface_speed/core/injector.py:47-68 | over a run the invariant holds, every line is counted once, and the insertion counter grows by the number of speed lines emitted |
| Injector.EveryPendingResolvedOnce | src/nc_baxis_constant_surface_speed/core/injector.py:49-112 | after the final step the resolutions (inserted, next line has S, deadband, end of file) equal the insertions scheduled, and nothing is left pending |
| Injector.FreshRunAccounting | src/nc_baxis_constant_surface_speed/core/injector.py:49-112 | from a fresh start, the resolutions at the end equal the insertions scheduled |
| Injector.AdvanceRange | src/nc_baxis_constant_surface_speed/core/injector.py:69-86 | the range after a line is the range before it updated with the inserted speed, then with the line's own speed when the spindle turns |
| Injector.TransduceRange | src/nc_baxis_constant_surface_speed/core/injector.py:69-86 | over a run, the range is the starting range updated with every speed put into effect, in order |
| Injector.FreshRunRange | src/nc_baxis_constant_surface_speed/core/report.py:29-37 | from an unset range, the range after a run is unset when no speed was put into effect and otherwise exactly their minimum and maximum |
| Injector.NoAngleNoInsertion | src/nc_baxis_constant_surface_speed/core/injector.py:88-101 | lines without a B never get a speed line and leave nothing pending |
| Processor.DetectNewline | src/nc_baxis_constant_surface_speed/core/processor.py:13-26 | CR LF exactly when the first 65536 characters contain one; LF otherwise |
| Processor.ReadLinesSpec | src/nc_baxis_constant_surface_speed/core/processor.py:64-67 | the lines are non-empty, all but the last end in `\n`, none has another `\n`, and together they are the input |
| Processor.ReadLinesConcat | src/nc_baxis_constant_surface_speed/core/processor.py:64-67 | reading the lines of complete lines put together gives back those lines |
| Processor.SplitTerminatorRestores | src/nc_baxis_constant_surface_speed/core/processor.py:69-78 | the terminator is the line's own CR LF or LF, and the default only when it has none; body and terminator rebuild the terminated line |
| Processor.NoInsertionRestoresInput | src/nc_baxis_constant_surface_speed/core/processor.py:89-93 | with no insertion, the output is the input plus the default newline after an unterminated last line |
| Processor.NoAngleFileUnchanged | src/nc_baxis_constant_surface_speed/core/processor.py:51-95 | a file without any B comes out unchanged apart from terminating its last line, with no insertion counted |
| Processor.NoAngleFileRun | src/nc_baxis_constant_surface_speed/core/processor.py:63-95 | over a file without any B the emitted lines are the input with its last line terminated, and the final report counts no insertion |
| Processor.TerminatedNoAngleFileIdentity | src/nc_baxis_constant_surface_speed/core/processor.py:51-95 | a file without any B whose last line is terminated comes out byte for byte |
| Processor.FileReportCounts | src/nc_baxis_constant_surface_speed/core/processor.py:51-95 | the report counts every line once, the insertion counter equals the speed lines in the output, the end-of-file count comes from the single final step, and the range is ordered |
| Processor.FileReportRange | src/nc_baxis_constant_surface_speed/core/processor.py:51-95 | the report's speed range is exactly the smallest and the largest speed the file put into effect, inserted or explicit, and unset when there was none |
| Processor.ProcessFileInsertsOnly | src/nc_baxis_constant_surface_speed/core/processor.py:51-95 | the output is the emitted lines; taking the inserted lines away leaves the input, plus the default newline after an unterminated last line; each inserted line is `S<n>` with the newline of the line it precedes |
| Processor.LastIndexOf | src/nc_baxis_constant_surface_speed/core/processor.py:45-47 | the last index holding the character, or -1 when none does |
| Processor.StemSuffixSplit | src/nc_baxis_constant_surface_speed/core/processor.py:45-46 | stem and suffix rebuild the name, and the suffix is empty or a single `.` followed by no other `.` |
| Processor.OutputNamesDistinct | src/nc_baxis_constant_surface_speed/core/processor.py:44-48 | the output is `<stem>-bcss<suffix>`, it differs from the input name, and it never coincides with the report name |
| Processor.MakeOutputPaths | src/nc_baxis_constant_surface_speed/core/processor.py:44-48 | the output path and the report path differ, and the report path ends in `.report.json` |
| Scenario.SmokeSpeeds | tests/test_smoke.py:10-20 | with the test's configuration, 77° gives 8030 rpm (inside the deadband of 8000) and 76° gives 8060 rpm (outside it) |
| Scenario.SmokeRun | tests/test_smoke.py:22-49 | the ten lines give exactly one speed line, S8060 before `G1X3`; the report counts 10 lines, 3 B lines, 7 spindle-on lines, 1 insertion, 1 deadband skip, and speeds 8000..8060 |
| Scenario.SmokeFile | tests/test_smoke.py:37-51 | the output file is the input with `S8060` and CR LF written before `G1X3`, and the report counts one inserted line |
| Scenario.SmokeAsDeclaredRaises | tests/test_smoke.py:10-20 | against the record as declared, the smoke run fails on its third line, whose pending 77° cannot be computed without `mode` |

## Left out

- The sine and π are not computed: `sinDeg` is a parameter, and π is its double value as an exact real. Double-precision rounding is not modelled: not in reading the B literal with `float()` (parser.py:52), in the formulas, in `90.0 - b`, or in the floor quantisation; the model computes exactly. The comparison of two quantised angles (injector.py:100) is on those exact values.
- Text is a sequence of characters. Encoding detection (utf-8, then cp932), strict and replacing decoders, and the encoding switch after a decode error (processor.py:28-41, 80-87) are left out. The model treats decoding and encoding as the identity.
- `\d` in the patterns also matches non-ASCII decimal digits in Python; the model accepts ASCII `0`-`9` only.
- `float()` cannot fail on what the angle pattern matches, so its `ValueError` branch (parser.py:53-54) is unreachable and not modelled. The `int()` branch (parser.py:59-62) is modelled with the default digit limit; a limit changed through `PYTHONINTMAXSTRDIGITS` or `-X int_max_str_digits` is not.
- Injector.ProcessLine: writing a speed of more than 4300 digits into `S<n>` (injector.py:66) would raise in Python's int-to-text conversion; the model writes it. Such a speed needs an upper bound that large.
- File and directory access, `Path.resolve()`, and writing the JSON report are left out, along with its text form, timestamps and the config dump (report.py:40-76, processor.py:51-53, 96-98). Paths are `/`-separated strings. Directory names are not considered when splitting stem and suffix.
- The desktop form and the command line (apps/gui.py, apps/main.py) are not part of this model.
- Processor.FileReportCounts: states the line and insertion counters and the end-of-file count of the report for the whole file. The skip, clamp and raised-angle counters are stated per line by Injector.Resolve and Injector.AdvanceCounts, and the two skip counters' sum with the insertions and the end-of-file count by Injector.EveryPendingResolvedOnce; the skip, clamp and raised-angle counters are not summed over a file.
- Scenario.SmokeRun: the sine is pinned to the shortest decimal forms of the double sines at 76°, 77° and 78°, not to the exact doubles.

## Findings

| source | as written | input that shows it | evidently intended | confidence | as-written member | corrected member |
|---|---|---|---|---|---|---|
| src/nc_baxis_constant_surface_speed/core/rpm_model.py:110 | `compute_s_for_theta` reads `cfg.mode`, and the absolute formula reads `cfg.vc_m_per_min` (line 81). The frozen configuration record (config.py:6-19) declares neither, so the first speed computation raises `AttributeError`. | the smoke test's configuration (tests/test_smoke.py:10-20) with its lines: `G1X1` resolves the pending 77° and the computation raises | the record declares `mode` (default: relative) and `vc_m_per_min`; "vc_absolute" selects the absolute formula and every other mode the relative one | not executed | Rpm.DeclaredRecordAlwaysRaises | Rpm.ComputeSForTheta |
