/**
 * The statistics a run accumulates: detection counts, change counts and the
 * range of speeds put into effect.
 */
module Report {
  import opened Optional

  datatype DetectStats = DetectStats(totalLines: nat, bLines: nat, spindleOnLines: nat)

  datatype ChangeStats = ChangeStats(
    insertedSLines: nat,
    skippedNextlineHasS: nat,
    skippedDeadband: nat,
    clampedCount: nat,
    thetaMinAppliedCount: nat,
    pendingAtEof: nat
  )

  /** The smallest and largest speed seen; both unset until the first update. */
  datatype SRange = SRange(sMin: Option<int>, sMax: Option<int>)

  datatype Report = Report(detect: DetectStats, changes: ChangeStats, sRange: SRange)

  /** The statistics of a run that has seen no line yet. */
  function EmptyReport(): (r: Report)
    ensures r.detect.totalLines == r.detect.bLines == r.detect.spindleOnLines == 0
    ensures r.changes.insertedSLines == r.changes.skippedNextlineHasS == r.changes.skippedDeadband == 0
    ensures r.changes.clampedCount == r.changes.thetaMinAppliedCount == r.changes.pendingAtEof == 0
    ensures r.sRange.sMin.None? && r.sRange.sMax.None?
  {
    Report(DetectStats(0, 0, 0), ChangeStats(0, 0, 0, 0, 0, 0), SRange(None, None))
  }

  /** Both bounds set or both unset, and ordered when set. */
  predicate ValidRange(r: SRange) {
    && (r.sMin.Some? <==> r.sMax.Some?)
    && (r.sMin.Some? ==> r.sMin.value <= r.sMax.value)
  }

  /** `s` lies inside the recorded range. */
  predicate InRange(r: SRange, s: int) {
    r.sMin.Some? && r.sMax.Some? && r.sMin.value <= s <= r.sMax.value
  }

  /**
   * Widens the range to take in `s`: afterwards it is set, contains `s`, its
   * minimum has not grown, its maximum has not shrunk, and a value already
   * inside leaves it unchanged.
   */
  function Update(r: SRange, s: int): (r': SRange)
    ensures r'.sMin.Some? && r'.sMax.Some?
    ensures r'.sMin.value <= s <= r'.sMax.value
    ensures r.sMin.Some? ==> r'.sMin.value <= r.sMin.value
    ensures r.sMax.Some? ==> r'.sMax.value >= r.sMax.value
    ensures r'.sMin.value == s || r'.sMin == r.sMin
    ensures r'.sMax.value == s || r'.sMax == r.sMax
    ensures InRange(r, s) ==> r' == r
    ensures ValidRange(r) ==> ValidRange(r')
  {
    var lo := if r.sMin.None? || s < r.sMin.value then Some(s) else r.sMin;
    var hi := if r.sMax.None? || s > r.sMax.value then Some(s) else r.sMax;
    SRange(lo, hi)
  }

  /** The range after feeding in every value of `xs`, in order. */
  function UpdateAll(r: SRange, xs: seq<int>): SRange
    decreases |xs|
  {
    if xs == [] then r else Update(UpdateAll(r, xs[..|xs| - 1]), xs[|xs| - 1])
  }

  /**
   * `r` is the range of the values `xs`: unset when there are none, and
   * otherwise exactly their minimum and their maximum.
   */
  predicate RangeOf(r: SRange, xs: seq<int>) {
    && (xs == [] ==> r == SRange(None, None))
    && (xs != [] ==> r.sMin.Some? && r.sMax.Some? && r.sMin.value in xs && r.sMax.value in xs
                     && forall i :: 0 <= i < |xs| ==> r.sMin.value <= xs[i] <= r.sMax.value)
  }

  /** Feeding in `xs` and then `ys` is feeding in `xs + ys`. */
  lemma {:induction false} UpdateAllAppend(r: SRange, xs: seq<int>, ys: seq<int>)
    ensures UpdateAll(r, xs + ys) == UpdateAll(UpdateAll(r, xs), ys)
    decreases |ys|
  {
    if ys == [] {
      assert xs + ys == xs;
    } else {
      var front := ys[..|ys| - 1];
      assert (xs + ys)[..|xs + ys| - 1] == xs + front;
      assert (xs + ys)[|xs + ys| - 1] == ys[|ys| - 1];
      UpdateAllAppend(r, xs, front);
    }
  }

  /**
   * Starting unset, the bounds after a sequence of updates are exactly the
   * minimum and the maximum of the values fed in.
   */
  lemma {:induction false} UpdateAllIsMinMax(xs: seq<int>)
    requires |xs| > 0
    ensures var r := UpdateAll(SRange(None, None), xs);
      && r.sMin.Some? && r.sMax.Some?
      && r.sMin.value in xs && r.sMax.value in xs
      && (forall i :: 0 <= i < |xs| ==> r.sMin.value <= xs[i] <= r.sMax.value)
    decreases |xs|
  {
    var front := xs[..|xs| - 1];
    var last := xs[|xs| - 1];
    if |xs| == 1 {
      assert front == [];
    } else {
      UpdateAllIsMinMax(front);
      var r0 := UpdateAll(SRange(None, None), front);
      var r := Update(r0, last);
      assert forall i :: 0 <= i < |front| ==> front[i] == xs[i];
      assert r0.sMin.value in front && r0.sMax.value in front;
      assert forall v :: v in front ==> v in xs;
    }
  }
}
