/** How checkPowerAndModeSettings, checkFanSettings and checkVaneSettings translate the
    unit's settings into the modes of the home-automation climate entity. */
module ClimateModes {
  import opened Heatpump

  datatype ClimateMode = Off | HeatCool | Cool | Heat | Dry | FanOnly
  datatype ClimateFanMode = Auto | Quiet | Low | Medium | Middle | High
  datatype ClimateSwingMode = Off | Vertical

  /** The climate mode: off when the power is off, else one climate mode per unit mode. */
  function ClimateModeOf(p: Power, m: Mode): (c: ClimateMode)
    ensures c.Off? <==> p.Off?
    ensures p.On? && m.Auto? ==> c.HeatCool?
  {
    if p.On? then
      match m
      case Heat => ClimateMode.Heat
      case Dry => ClimateMode.Dry
      case Cool => ClimateMode.Cool
      case Fan => ClimateMode.FanOnly
      case Auto => ClimateMode.HeatCool
    else ClimateMode.Off
  }

  /** The fan mode; automatic is shown for AUTO only. */
  function ClimateFanModeOf(f: Fan): (c: ClimateFanMode)
    ensures c.Auto? <==> f.Auto?
    ensures c.Quiet? <==> f.Quiet?
  {
    match f
    case Quiet => ClimateFanMode.Quiet
    case Speed1 => ClimateFanMode.Low
    case Speed2 => ClimateFanMode.Medium
    case Speed3 => ClimateFanMode.Middle
    case Speed4 => ClimateFanMode.High
    case Auto => ClimateFanMode.Auto
  }

  /** Vertical swing exactly when the vane is set to SWING. */
  function ClimateSwingModeOf(v: Vane): (c: ClimateSwingMode)
    ensures c.Vertical? <==> v.Swing?
  {
    if v.Swing? then ClimateSwingMode.Vertical else ClimateSwingMode.Off
  }

  /** With the power on, distinct unit modes show as distinct climate modes, so the shown
      mode determines the unit mode. */
  lemma ClimateModeDeterminesMode(m1: Mode, m2: Mode)
    requires ClimateModeOf(Power.On, m1) == ClimateModeOf(Power.On, m2)
    ensures m1 == m2
  {
  }

  /** Distinct fan speeds show as distinct fan modes. */
  lemma ClimateFanModeDeterminesFan(f1: Fan, f2: Fan)
    requires ClimateFanModeOf(f1) == ClimateFanModeOf(f2)
    ensures f1 == f2
  {
  }
}
