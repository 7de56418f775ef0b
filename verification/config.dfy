/**
 * The run configuration: an immutable record supplied by the command line or
 * the desktop form, with the same fields and defaults as the program's
 * configuration class, plus the two fields the speed model reads but the
 * class does not declare (`mode` and `vcMPerMin`).
 */
module Config {

  /** Which surface-speed formula a run uses. */
  datatype Formula = Relative | VcAbsolute

  datatype BcssConfig = BcssConfig(
    toolDMm: real,
    thetaRefDeg: real,
    sRefRpm: int,
    thetaStepDeg: real,
    thetaMinDeg: real,
    sMinRpm: int,
    sMaxRpm: int,
    sRoundUnitRpm: int,
    deadbandRpm: int,
    invertBToTheta: bool,
    // Read by the speed model but absent from the declared record.
    mode: string,
    vcMPerMin: real
  )

  /** The mode name that selects the absolute surface-speed formula. */
  const AbsoluteModeName: string := "vc_absolute"

  /**
   * The formula a mode name selects: the absolute one for exactly
   * "vc_absolute", and the relative one for every other name.
   */
  function FormulaOf(mode: string): (f: Formula)
    ensures f == VcAbsolute <==> mode == AbsoluteModeName
    ensures f == Relative <==> mode != AbsoluteModeName
  {
    if mode == AbsoluteModeName then VcAbsolute else Relative
  }

  /**
   * A configuration built from the three required values, every other field
   * at its declared default. The two undeclared fields get the relative mode
   * and a zero surface speed.
   */
  function WithDefaults(toolDMm: real, thetaRefDeg: real, sRefRpm: int): (c: BcssConfig)
    ensures c.toolDMm == toolDMm && c.thetaRefDeg == thetaRefDeg && c.sRefRpm == sRefRpm
    ensures c.thetaStepDeg == 1.0 && c.thetaMinDeg == 1.0
    ensures c.sMinRpm == 0 && c.sMaxRpm == 999999
    ensures c.sRoundUnitRpm == 10 && c.deadbandRpm == 50
    ensures c.invertBToTheta
    ensures FormulaOf(c.mode) == Relative
  {
    BcssConfig(toolDMm, thetaRefDeg, sRefRpm, 1.0, 1.0, 0, 999999, 10, 50, true, "relative", 0.0)
  }
}
