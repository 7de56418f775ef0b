/**
 * The spindle-speed model: turns a tilt angle into a spindle speed with one of
 * two formulas, then rounds and clamps it, and gates insertions with a
 * deadband against the last speed in effect. The sine of an angle given in
 * degrees is a parameter of the model (`sinDeg`); everything after it is
 * modelled exactly over the reals.
 */
module Rpm {
  import opened Optional
  import opened Config

  /** The double-precision value of pi used by the absolute formula. */
  const Pi: real := 3.141592653589793

  /** Sines smaller than this in magnitude are replaced by it. */
  const SinEpsilon: real := 0.000000000001

  /** The smallest effective cutting diameter, in millimetres. */
  const MinDiameterMm: real := 0.000000001

  function Abs(x: real): real { if x < 0.0 then -x else x }

  function AbsInt(x: int): int { if x < 0 then -x else x }

  /** `x` is a whole multiple of `step`. */
  predicate MultipleOf(x: real, step: real)
    requires step > 0.0
  {
    (x / step).Floor as real == x / step
  }

  // ---------------------------------------------------------------------
  // Angles
  // ---------------------------------------------------------------------

  /**
   * Floor quantisation: the largest multiple of `step` not above `value`, and
   * `value` itself when the step is not positive.
   */
  function FloorStep(value: real, step: real): (r: real)
    ensures step <= 0.0 ==> r == value
    ensures step > 0.0 ==> r <= value < r + step
    ensures step > 0.0 ==> MultipleOf(r, step)
  {
    if step <= 0.0 then value
    else
      var k := (value / step).Floor;
      FloorMultipleBounds(value, step, k);
      k as real * step
  }

  lemma MulLeMono(a: real, b: real, c: real)
    requires a <= b && c >= 0.0
    ensures a * c <= b * c
  {
  }

  lemma MulLtMono(a: real, b: real, c: real)
    requires a < b && c > 0.0
    ensures a * c < b * c
  {
  }

  lemma FloorMultipleBounds(value: real, step: real, k: int)
    requires step > 0.0 && k == (value / step).Floor
    ensures k as real * step <= value < k as real * step + step
    ensures MultipleOf(k as real * step, step)
  {
    var q := value / step;
    assert value == q * step;
    MulLeMono(k as real, q, step);
    MulLtMono(q, k as real + 1.0, step);
    assert (k as real + 1.0) * step == k as real * step + step;
    assert (k as real * step) / step == k as real;
  }

  /** Quantising an already quantised angle changes nothing. */
  lemma FloorStepIdempotent(value: real, step: real)
    ensures FloorStep(FloorStep(value, step), step) == FloorStep(value, step)
  {
    if step > 0.0 {
      var r := FloorStep(value, step);
      var k := (r / step).Floor;
      assert k as real == r / step;
      assert k as real * step == r;
    }
  }

  /** Two angles that floor to the same step are indistinguishable downstream. */
  lemma FloorStepSameCell(a: real, b: real, step: real, k: int)
    requires step > 0.0
    requires k as real * step <= a < k as real * step + step
    requires k as real * step <= b < k as real * step + step
    ensures FloorStep(a, step) == FloorStep(b, step) == k as real * step
  {
    FloorCell(a, step, k);
    FloorCell(b, step, k);
  }

  lemma FloorCell(a: real, step: real, k: int)
    requires step > 0.0
    requires k as real * step <= a < k as real * step + step
    ensures (a / step).Floor == k
  {
    var q := a / step;
    assert a == q * step;
    assert (k as real + 1.0) * step == k as real * step + step;
    if q < k as real {
      MulLtMono(q, k as real, step);
    }
    if q >= k as real + 1.0 {
      MulLeMono(k as real + 1.0, q, step);
    }
  }

  /**
   * The tilt angle measured from the tool axis for a B-axis position: 90 - B,
   * never below zero (0 is the tool tip, 90 the tool side).
   */
  function BToTheta(b: real): (theta: real)
    ensures theta >= 0.0 && theta >= 90.0 - b
    ensures theta == 90.0 - b || theta == 0.0
  {
    var t := 90.0 - b;
    if t < 0.0 then 0.0 else t
  }

  /** The reference angle the relative formula uses: inverted when configured, never floored. */
  function ThetaRefUsed(cfg: BcssConfig): real
  {
    if cfg.invertBToTheta then BToTheta(cfg.thetaRefDeg) else cfg.thetaRefDeg
  }

  function QuantizeTheta(cfg: BcssConfig, theta: real): real
  {
    FloorStep(theta, cfg.thetaStepDeg)
  }

  /** The angle either formula evaluates: the angle, raised to the safety minimum. */
  function ThetaUsed(cfg: BcssConfig, theta: real): (t: real)
    ensures t >= cfg.thetaMinDeg && t >= theta
    ensures t == theta || t == cfg.thetaMinDeg
    ensures t > theta <==> theta < cfg.thetaMinDeg
  {
    if theta >= cfg.thetaMinDeg then theta else cfg.thetaMinDeg
  }

  /** A sine of magnitude below the epsilon is replaced by the epsilon. */
  function GuardSin(x: real): (g: real)
    ensures Abs(g) >= SinEpsilon
    ensures Abs(x) >= SinEpsilon ==> g == x
    ensures Abs(x) < SinEpsilon ==> g == SinEpsilon
  {
    if Abs(x) < SinEpsilon then SinEpsilon else x
  }

  /** The effective diameter of a ball-end tool tilted to the guarded sine, floored at 1e-9 mm. */
  function EffectiveDiameter(toolDMm: real, sinGuarded: real): (d: real)
    ensures d >= MinDiameterMm
    ensures toolDMm * sinGuarded >= MinDiameterMm ==> d == toolDMm * sinGuarded
  {
    var d := toolDMm * sinGuarded;
    if d < MinDiameterMm then MinDiameterMm else d
  }

  // ---------------------------------------------------------------------
  // The model and its formulas
  // ---------------------------------------------------------------------

  /**
   * The speed model of one run: the configuration, the sine of an angle in
   * degrees, and the last actual speed in effect (from an inserted line or an
   * explicit one while the spindle turns).
   */
  datatype RpmModel = RpmModel(cfg: BcssConfig, sinDeg: real -> real, lastSRpm: Option<int>)

  /** A fresh model: no speed is in effect yet. */
  function NewModel(cfg: BcssConfig, sinDeg: real -> real): (m: RpmModel)
    ensures m.cfg == cfg && m.lastSRpm.None?
  {
    RpmModel(cfg, sinDeg, None)
  }

  /** The sine of the reference angle, computed once per run and not guarded. */
  function SinRef(m: RpmModel): real
  {
    m.sinDeg(ThetaRefUsed(m.cfg))
  }

  /** Relative formula: S_ref * sin(theta_ref) / sin(theta). */
  function RelativeRaw(m: RpmModel, thetaUsed: real): real
  {
    m.cfg.sRefRpm as real * (SinRef(m) / GuardSin(m.sinDeg(thetaUsed)))
  }

  /** Absolute formula: 1000 * Vc / (pi * D_tool * sin(theta)). */
  function AbsoluteRaw(m: RpmModel, thetaUsed: real): real
  {
    (1000.0 * m.cfg.vcMPerMin) / (Pi * EffectiveDiameter(m.cfg.toolDMm, GuardSin(m.sinDeg(thetaUsed))))
  }

  /** What one speed computation reports. */
  datatype RpmDecision = RpmDecision(
    thetaUsedDeg: real,
    rpmRaw: real,
    rpmRounded: int,
    rpmClamped: int,
    clamped: bool
  )

  // ---------------------------------------------------------------------
  // Rounding and clamping
  // ---------------------------------------------------------------------

  /** Rounding to the nearest integer, ties to the even neighbour (Python's `round`). */
  function RoundHalfEven(x: real): (n: int)
    ensures -0.5 <= n as real - x <= 0.5
    ensures Abs(n as real - x) == 0.5 ==> n % 2 == 0
  {
    var f := x.Floor;
    var d := x - f as real;
    if d < 0.5 then f
    else if d > 0.5 then f + 1
    else if f % 2 == 0 then f
    else f + 1
  }

  /** The half-even rounding is a nearest integer, and the only one unless at a tie. */
  lemma RoundHalfEvenNearest(x: real, k: int)
    ensures Abs(RoundHalfEven(x) as real - x) <= Abs(k as real - x)
    ensures Abs(k as real - x) < 0.5 ==> k == RoundHalfEven(x)
  {
    var r := RoundHalfEven(x);
    if k < r {
      assert k as real <= r as real - 1.0;
      assert Abs(k as real - x) >= 0.5;
    } else if k > r {
      assert k as real >= r as real + 1.0;
      assert Abs(k as real - x) >= 0.5;
    }
  }

  /** The rounding unit: the configured one, at least 1. */
  function RoundUnit(cfg: BcssConfig): (u: int)
    ensures u >= 1
    ensures cfg.sRoundUnitRpm >= 1 ==> u == cfg.sRoundUnitRpm
  {
    if cfg.sRoundUnitRpm > 1 then cfg.sRoundUnitRpm else 1
  }

  /** The raw speed rounded to the nearest multiple of the unit, ties to an even multiple. */
  function RoundToUnit(raw: real, unit: int): (r: int)
    requires unit >= 1
    ensures r % unit == 0
    ensures -(unit as real) / 2.0 <= r as real - raw <= unit as real / 2.0
    ensures (r / unit) % 2 != 0 ==> Abs(r as real - raw) < unit as real / 2.0
  {
    var q := RoundHalfEven(raw / unit as real);
    ScaleRounding(raw, unit, q);
    q * unit
  }

  lemma MultipleDivMod(q: int, unit: int)
    requires unit >= 1
    ensures (q * unit) % unit == 0 && (q * unit) / unit == q
  {
    var p := q * unit;
    var d := p / unit;
    var r := p % unit;
    assert p == d * unit + r && 0 <= r < unit;
    assert (q - d) * unit == r;
    if q - d >= 1 {
      MulIntLe(1, q - d, unit);
    } else if q - d <= -1 {
      MulIntLe(q - d, -1, unit);
    }
  }

  lemma MulIntLe(a: int, b: int, c: int)
    requires a <= b && c >= 0
    ensures a * c <= b * c
  {
  }

  lemma ScaleRounding(raw: real, unit: int, q: int)
    requires unit >= 1 && q == RoundHalfEven(raw / unit as real)
    ensures (q * unit) % unit == 0 && (q * unit) / unit == q
    ensures -(unit as real) / 2.0 <= (q * unit) as real - raw <= unit as real / 2.0
    ensures q % 2 != 0 ==> Abs((q * unit) as real - raw) < unit as real / 2.0
  {
    MultipleDivMod(q, unit);
    var u := unit as real;
    var x := raw / u;
    var e := q as real - x;
    assert -0.5 <= e <= 0.5;
    assert q % 2 != 0 ==> -0.5 < e < 0.5;
    ScaleError(raw, u, q, e);
  }

  lemma ScaleError(raw: real, u: real, q: int, e: real)
    requires u >= 1.0 && e == q as real - raw / u
    requires -0.5 <= e <= 0.5
    ensures -u / 2.0 <= (q as real) * u - raw <= u / 2.0
    ensures -0.5 < e < 0.5 ==> -u / 2.0 < (q as real) * u - raw < u / 2.0
  {
    assert (q as real) * u - raw == e * u;
    MulLeMono(-0.5, e, u);
    MulLeMono(e, 0.5, u);
    if -0.5 < e < 0.5 {
      MulLtMono(-0.5, e, u);
      MulLtMono(e, 0.5, u);
    }
  }

  /**
   * Clamps `v` into [lo, hi], the upper bound applied last, and reports
   * whether either bound was applied.
   */
  function Clamp(v: int, lo: int, hi: int): (r: (int, bool))
    ensures lo <= hi ==> lo <= r.0 <= hi
    ensures r.1 <==> (v < lo || v > hi)
    ensures !r.1 ==> r.0 == v
    ensures lo > hi ==> r.0 == hi
    ensures r.0 == v || r.0 == lo || r.0 == hi
  {
    var low := if v < lo then lo else v;
    var high := if low > hi then hi else low;
    (high, v < lo || low > hi)
  }

  /** Rounding and clamping, common to both formulas. */
  function Postprocess(cfg: BcssConfig, thetaUsed: real, raw: real): (d: RpmDecision)
    ensures d.thetaUsedDeg == thetaUsed && d.rpmRaw == raw
    ensures d.rpmRounded % RoundUnit(cfg) == 0
    ensures Abs(d.rpmRounded as real - raw) <= RoundUnit(cfg) as real / 2.0
    ensures (d.rpmRounded / RoundUnit(cfg)) % 2 != 0 ==> Abs(d.rpmRounded as real - raw) < RoundUnit(cfg) as real / 2.0
    ensures cfg.sMinRpm <= cfg.sMaxRpm ==> cfg.sMinRpm <= d.rpmClamped <= cfg.sMaxRpm
    ensures d.clamped <==> (d.rpmRounded < cfg.sMinRpm || d.rpmRounded > cfg.sMaxRpm)
    ensures !d.clamped ==> d.rpmClamped == d.rpmRounded
    ensures cfg.sMinRpm > cfg.sMaxRpm ==> d.rpmClamped == cfg.sMaxRpm
  {
    var rounded := RoundToUnit(raw, RoundUnit(cfg));
    var c := Clamp(rounded, cfg.sMinRpm, cfg.sMaxRpm);
    RpmDecision(thetaUsed, raw, rounded, c.0, c.1)
  }

  /**
   * The speed for a (quantised) angle: raise it to the safety minimum, apply
   * the absolute formula when the mode is "vc_absolute" and the relative one
   * otherwise, then round and clamp.
   */
  function ComputeSForTheta(m: RpmModel, theta: real): (d: RpmDecision)
    ensures d.thetaUsedDeg == ThetaUsed(m.cfg, theta)
    ensures d.thetaUsedDeg >= m.cfg.thetaMinDeg && d.thetaUsedDeg >= theta
    ensures d.thetaUsedDeg > theta <==> theta < m.cfg.thetaMinDeg
    ensures m.cfg.mode == AbsoluteModeName ==> d.rpmRaw == AbsoluteRaw(m, d.thetaUsedDeg)
    ensures m.cfg.mode != AbsoluteModeName ==> d.rpmRaw == RelativeRaw(m, d.thetaUsedDeg)
    ensures d.rpmRounded % RoundUnit(m.cfg) == 0
    ensures Abs(d.rpmRounded as real - d.rpmRaw) <= RoundUnit(m.cfg) as real / 2.0
    ensures (d.rpmRounded / RoundUnit(m.cfg)) % 2 != 0 ==> Abs(d.rpmRounded as real - d.rpmRaw) < RoundUnit(m.cfg) as real / 2.0
    ensures m.cfg.sMinRpm <= m.cfg.sMaxRpm ==> m.cfg.sMinRpm <= d.rpmClamped <= m.cfg.sMaxRpm
    ensures m.cfg.sMinRpm > m.cfg.sMaxRpm ==> d.rpmClamped == m.cfg.sMaxRpm
    ensures d.clamped <==> (d.rpmRounded < m.cfg.sMinRpm || d.rpmRounded > m.cfg.sMaxRpm)
    ensures !d.clamped ==> d.rpmClamped == d.rpmRounded
  {
    var thetaUsed := ThetaUsed(m.cfg, theta);
    var raw := match FormulaOf(m.cfg.mode)
      case VcAbsolute => AbsoluteRaw(m, thetaUsed)
      case Relative => RelativeRaw(m, thetaUsed);
    Postprocess(m.cfg, thetaUsed, raw)
  }

  /**
   * The relative formula keeps the surface speed of the reference angle:
   * away from the sine guard, the raw speed times the sine of the angle used
   * is the reference speed times the sine of the reference angle.
   */
  lemma RelativeKeepsSurfaceSpeed(m: RpmModel, t: real)
    requires Abs(m.sinDeg(t)) >= SinEpsilon
    ensures RelativeRaw(m, t) * m.sinDeg(t) == m.cfg.sRefRpm as real * SinRef(m)
  {
    var sn := m.sinDeg(t);
    assert GuardSin(sn) == sn;
    QuotientTimes(m.cfg.sRefRpm as real, SinRef(m), sn);
  }

  /** Multiplying a scaled quotient back by its divisor recovers the scaled dividend. */
  lemma QuotientTimes(a: real, b: real, c: real)
    requires c != 0.0
    ensures a * (b / c) * c == a * b
  {
    assert (b / c) * c == b;
  }

  /**
   * The absolute formula meets the cutting speed: away from the guards, pi
   * times the effective diameter times the raw speed is 1000 times the
   * surface speed in metres per minute.
   */
  lemma AbsoluteMeetsCuttingSpeed(m: RpmModel, t: real)
    requires Abs(m.sinDeg(t)) >= SinEpsilon
    requires m.cfg.toolDMm * m.sinDeg(t) >= MinDiameterMm
    ensures Pi * (m.cfg.toolDMm * m.sinDeg(t)) * AbsoluteRaw(m, t) == 1000.0 * m.cfg.vcMPerMin
  {
    var dEff := m.cfg.toolDMm * m.sinDeg(t);
    assert GuardSin(m.sinDeg(t)) == m.sinDeg(t);
    assert EffectiveDiameter(m.cfg.toolDMm, m.sinDeg(t)) == dEff;
    SpeedTimesDiameter(Pi, dEff, AbsoluteRaw(m, t), 1000.0 * m.cfg.vcMPerMin);
  }
  /**
   * The reference of the relative formula is fixed for the run: the
   * reference angle does not depend on the safety minimum, the reference
   * sine does not depend on the speed in effect, and because that sine is
   * not guarded, a reference angle with zero sine makes every relative
   * speed zero.
   */
  lemma ReferenceFixedPerRun(m: RpmModel, thetaMin: real, last: Option<int>, t: real)
    ensures ThetaRefUsed(m.cfg.(thetaMinDeg := thetaMin)) == ThetaRefUsed(m.cfg)
    ensures SinRef(m.(lastSRpm := last)) == SinRef(m)
    ensures m.cfg.invertBToTheta ==> ThetaRefUsed(m.cfg) >= 0.0 && ThetaRefUsed(m.cfg) >= 90.0 - m.cfg.thetaRefDeg
    ensures SinRef(m) == 0.0 ==> RelativeRaw(m, t) == 0.0
  {
  }


  /** Multiplying a quotient back by a positive divisor recovers the dividend. */
  lemma SpeedTimesDiameter(pi: real, dEff: real, raw: real, num: real)
    requires pi > 0.0 && dEff > 0.0
    requires raw == num / (pi * dEff)
    ensures pi * dEff * raw == num
  {
    assert pi * dEff > 0.0 by { MulLtMono(0.0, dEff, pi); }
  }

  // ---------------------------------------------------------------------
  // Deadband gate and last-speed memory
  // ---------------------------------------------------------------------

  /**
   * Whether a computed speed may be inserted: always when no speed is in
   * effect, otherwise only when it differs from it by at least the deadband.
   */
  function ShouldInsert(m: RpmModel, nextRpm: int): (ok: bool)
    ensures m.lastSRpm.None? ==> ok
    ensures m.lastSRpm.Some? ==> (ok <==> AbsInt(nextRpm - m.lastSRpm.value) >= m.cfg.deadbandRpm)
  {
    match m.lastSRpm
    case None => true
    case Some(last) => AbsInt(nextRpm - last) >= m.cfg.deadbandRpm
  }

  function UpdateLastS(m: RpmModel, s: int): (m': RpmModel)
    ensures m'.lastSRpm == Some(s) && m'.cfg == m.cfg && m'.sinDeg == m.sinDeg
  {
    m.(lastSRpm := Some(s))
  }

  function ResetLastS(m: RpmModel): (m': RpmModel)
    ensures m'.lastSRpm.None? && m'.cfg == m.cfg && m'.sinDeg == m.sinDeg
  {
    m.(lastSRpm := None)
  }

  /** After a reset every speed passes the gate. */
  lemma ResetOpensGate(m: RpmModel, nextRpm: int)
    ensures ShouldInsert(ResetLastS(m), nextRpm)
  {
  }

  /** A speed within the deadband of the one in effect never passes the gate. */
  lemma WithinDeadbandBlocked(m: RpmModel, nextRpm: int)
    requires m.lastSRpm.Some? && AbsInt(nextRpm - m.lastSRpm.value) < m.cfg.deadbandRpm
    ensures !ShouldInsert(m, nextRpm)
  {
  }

  // ---------------------------------------------------------------------
  // The speed computation against the record as declared
  // ---------------------------------------------------------------------

  /** The attribute names the configuration record declares. */
  const DeclaredConfigFields: set<string> := {
    "tool_d_mm", "theta_ref_deg", "s_ref_rpm", "theta_step_deg", "theta_min_deg",
    "s_min_rpm", "s_max_rpm", "s_round_unit_rpm", "deadband_rpm", "invert_b_to_theta"
  }

  /** A speed computation, or the attribute lookup that raised. */
  datatype Computation = Computed(decision: RpmDecision) | MissingAttribute(name: string)

  /**
   * The speed computation as written against the declared record: it first
   * reads the `mode` attribute, which raises when the record does not declare it.
   */
  function ComputeSAsDeclared(m: RpmModel, theta: real): (c: Computation)
    ensures "mode" !in DeclaredConfigFields ==> c == MissingAttribute("mode")
    ensures "mode" in DeclaredConfigFields ==> c == Computed(ComputeSForTheta(m, theta))
  {
    if "mode" in DeclaredConfigFields then Computed(ComputeSForTheta(m, theta))
    else MissingAttribute("mode")
  }

  /** Against the declared record, every speed computation raises. */
  lemma DeclaredRecordAlwaysRaises(m: RpmModel, theta: real)
    ensures ComputeSAsDeclared(m, theta) == MissingAttribute("mode")
  {
    assert "mode" !in DeclaredConfigFields;
  }
}
