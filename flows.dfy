/**
  The state of one connector (its path, its two endpoint circles and the
  animated marker) and how `_updateFlows` decides, for each of the five
  connectors, whether it is hidden, dormant, neutral or animated, in which
  direction, in which colour and how fast.
*/
module Flows {
  import opened Wrappers
  import opened Json
  import opened Text
  import opened Resolution
  import opened Geometry

  /** The `active` / `inactive` classes of a path or an endpoint circle; the card never sets both. */
  datatype Mark = Unmarked | MarkedActive | MarkedInactive

  /** The marker's inline `opacity`. */
  datatype Opacity = OpacityUnset | Transparent | Opaque

  /** The marker animation's `keyPoints`: absent, `0;1` (forward) or `1;0` (backward). */
  datatype KeyPoints = NoKeyPoints | Forward | Backward

  /** What the card's DOM holds for one connector. Colours are inline styles, `None` when unset. */
  datatype ConnectorState = ConnectorState(
    pathShown: bool,
    pathMark: Mark,
    stroke: Option<string>,
    endpointsShown: bool,
    endpointsMark: Mark,
    endpointColor: Option<string>,
    endpointFill: Option<string>,
    markerShown: bool,
    markerActive: bool,
    markerOpacity: Opacity,
    markerColor: Option<string>,
    duration: real,
    keyPoints: KeyPoints)

  /** A connector as `_createDynamicPaths` draws it: an inactive path and a 3-second marker animation. */
  const InitialState := ConnectorState(true, MarkedInactive, None, true, Unmarked, None, None,
                                       true, false, OpacityUnset, None, 3.0, NoKeyPoints)

  /** The grey of a dormant or directionless connector. */
  const DormantGrey := "#666666"

  /** The magnitude above which a connector is animated. */
  const ActivityThreshold := 0.05

  const MinDuration := 1.5
  const MaxDuration := 5.0

  predicate IsHidden(s: ConnectorState) {
    !s.pathShown
  }

  predicate IsActive(s: ConnectorState) {
    s.pathShown && s.pathMark == MarkedActive
  }

  /** The marker is seen when it is displayed and, by its inline opacity or else by its `active` class, opaque. */
  predicate MarkerVisible(s: ConnectorState) {
    s.markerShown && (s.markerOpacity == Opaque || (s.markerOpacity == OpacityUnset && s.markerActive))
  }

  /** A visible grey path without a marker. */
  predicate IsGreyedOut(s: ConnectorState) {
    s.pathShown && s.pathMark == MarkedInactive && s.stroke == Some(DormantGrey) && !MarkerVisible(s)
  }

  predicate DurationInBand(d: real) {
    MinDuration <= d <= MaxDuration
  }

  // ---------------------------------------------------------------- setters

  /** `_showFlow`: display the path, the marker and the endpoint circles. */
  function Show(s: ConnectorState): (r: ConnectorState)
    ensures r.pathShown && r.endpointsShown && r.markerShown
    ensures r.(pathShown := s.pathShown, endpointsShown := s.endpointsShown, markerShown := s.markerShown) == s
    ensures MarkerVisible(r) <==> s.markerOpacity == Opaque || (s.markerOpacity == OpacityUnset && s.markerActive)
  {
    s.(pathShown := true, endpointsShown := true, markerShown := true)
  }

  /** `_hideFlow`: hide everything, drop the `active` classes and make the marker transparent. */
  function Hide(s: ConnectorState): (r: ConnectorState)
    ensures IsHidden(r) && !IsActive(r) && !MarkerVisible(r) && !r.endpointsShown && r.endpointsMark != MarkedActive
    ensures r.stroke == s.stroke && r.endpointColor == s.endpointColor && r.endpointFill == s.endpointFill
    ensures r.markerColor == s.markerColor && r.duration == s.duration && r.keyPoints == s.keyPoints
    ensures !MarkerVisible(Show(r))
  {
    s.(pathShown := false, pathMark := MarkedInactive,
       markerShown := false, markerOpacity := Transparent, markerActive := false,
       endpointsShown := false, endpointsMark := if s.endpointsMark == MarkedActive then Unmarked else s.endpointsMark)
  }

  /** `_setFlowDormant`: a visible grey path and grey endpoints, no marker. */
  function SetDormant(s: ConnectorState): (r: ConnectorState)
    ensures IsGreyedOut(r) && r.endpointsShown && r.endpointsMark == MarkedInactive && r.endpointFill == Some(DormantGrey)
    ensures r.markerColor == s.markerColor && r.markerOpacity == s.markerOpacity && r.duration == s.duration && r.keyPoints == s.keyPoints
  {
    s.(pathShown := true, pathMark := MarkedInactive, stroke := Some(DormantGrey),
       endpointsShown := true, endpointsMark := MarkedInactive, endpointFill := Some(DormantGrey),
       markerShown := false, markerActive := false)
  }

  /** What `_updateFlows` does inline to the inverter-battery connector when the inverter mode gives no direction. */
  function Neutral(s: ConnectorState): (r: ConnectorState)
    ensures IsGreyedOut(r)
    ensures r.endpointsShown == s.endpointsShown && r.endpointsMark == s.endpointsMark
    ensures r.endpointColor == s.endpointColor && r.endpointFill == s.endpointFill
    ensures r.markerColor == s.markerColor && r.duration == s.duration && r.keyPoints == s.keyPoints
  {
    s.(pathShown := true, pathMark := MarkedInactive, stroke := Some(DormantGrey),
       markerShown := false, markerActive := false)
  }

  /** `Math.max(0.001, maxRange || 3500)`. */
  function MaxPower(maxRange: real): (p: real)
    ensures p >= 0.001
  {
    Max(0.001, if maxRange == 0.0 then 3500.0 else maxRange)
  }

  /**
    The animation time for a reading: 5 s at no load down to 1.5 s at the
    connector's full range, linear in between.
  */
  function TargetDuration(value: real, maxRange: real): (d: real)
    ensures DurationInBand(d)
    ensures Abs(value) >= MaxPower(maxRange) ==> d == MinDuration
    ensures Abs(value) <= MaxPower(maxRange) ==> d == MaxDuration - Abs(value) / MaxPower(maxRange) * 3.5
  {
    var pct := Min(1.0, Max(0.0, Abs(value) / MaxPower(maxRange)));
    DivisionBelowOne(Abs(value), MaxPower(maxRange));
    Max(MinDuration, MaxDuration - pct * (MaxDuration - MinDuration))
  }

  lemma DivisionBelowOne(a: real, p: real)
    requires a >= 0.0 && p > 0.0
    ensures 0.0 <= a / p
    ensures a <= p <==> a / p <= 1.0
  {
    assert a / p * p == a;
  }

  /** A stronger reading never gives a slower animation. */
  lemma {:induction false} TargetDurationMonotone(v1: real, v2: real, maxRange: real)
    requires Abs(v1) <= Abs(v2)
    ensures TargetDuration(v2, maxRange) <= TargetDuration(v1, maxRange)
  {
    var p := MaxPower(maxRange);
    assert Abs(v1) / p <= Abs(v2) / p by {
      assert Abs(v1) / p * p == Abs(v1);
      assert Abs(v2) / p * p == Abs(v2);
    }
  }

  /** The stored animation time moves to the target only when it is more than 0.3 s off. */
  function NewDuration(current: real, target: real): (d: real)
    ensures d == current || d == target
    ensures Abs(d - target) <= 0.3
    ensures Abs(current - target) <= 0.3 ==> d == current
    ensures DurationInBand(current) && DurationInBand(target) ==> DurationInBand(d)
  {
    if Abs(target - current) > 0.3 then target else current
  }

  /**
    `_setFlowState` as written: show everything; above the threshold mark the
    path and endpoints active, colour them, show the marker, retime the
    animation and set its direction; otherwise mark them inactive and fade the
    marker out.
  */
  function SetFlowStateAsWritten(s: ConnectorState, value: real, reverse: bool, color: Option<string>, maxRange: real): (r: ConnectorState)
    ensures r.pathShown && r.endpointsShown && r.markerShown
    ensures IsActive(r) <==> Abs(value) > ActivityThreshold
    ensures MarkerVisible(r) <==> Abs(value) > ActivityThreshold
    ensures Abs(value) > ActivityThreshold ==>
      && r.endpointsMark == MarkedActive
      && r.keyPoints == (if reverse then Backward else Forward)
      && r.duration == NewDuration(s.duration, TargetDuration(value, maxRange))
      && (color.Some? ==> r.stroke == color && r.markerColor == color && r.endpointColor == color)
      && (color.None? ==> r.stroke == s.stroke && r.markerColor == s.markerColor && r.endpointColor == s.endpointColor)
    ensures Abs(value) <= ActivityThreshold ==>
      r.endpointsMark == MarkedInactive && r.duration == s.duration && r.keyPoints == s.keyPoints && r.stroke == s.stroke
    ensures r.endpointFill == s.endpointFill
    ensures DurationInBand(s.duration) ==> DurationInBand(r.duration)
  {
    var shown := s.(pathShown := true, markerShown := true, endpointsShown := true);
    if Abs(value) > ActivityThreshold then
      var coloured := if color.Some? then shown.(stroke := color, markerColor := color, endpointColor := color) else shown;
      coloured.(pathMark := MarkedActive, endpointsMark := MarkedActive, markerOpacity := Opaque,
                duration := NewDuration(s.duration, TargetDuration(value, maxRange)),
                keyPoints := if reverse then Backward else Forward, markerActive := true)
    else
      shown.(pathMark := MarkedInactive, endpointsMark := MarkedInactive, markerOpacity := Transparent)
  }

  /**
    `_setFlowState` with the endpoint circles' inline fill cleared when the
    connector becomes active, so that they take the connector's colour again
    after `_setFlowDormant` greyed them.
  */
  function SetFlowState(s: ConnectorState, value: real, reverse: bool, color: Option<string>, maxRange: real): (r: ConnectorState)
    ensures IsActive(r) <==> Abs(value) > ActivityThreshold
    ensures MarkerVisible(r) <==> Abs(value) > ActivityThreshold
    ensures Abs(value) > ActivityThreshold ==> r.endpointFill.None? && r.endpointsMark == MarkedActive
    ensures Abs(value) > ActivityThreshold && color.Some? ==> r.endpointColor == color && r.stroke == color
    ensures Abs(value) <= ActivityThreshold ==> r == SetFlowStateAsWritten(s, value, reverse, color, maxRange)
    ensures r.(endpointFill := s.endpointFill) == SetFlowStateAsWritten(s, value, reverse, color, maxRange)
  {
    var r := SetFlowStateAsWritten(s, value, reverse, color, maxRange);
    if Abs(value) > ActivityThreshold then r.(endpointFill := None) else r
  }

  /**
    As written, a connector that was dormant keeps grey endpoint circles when
    it becomes active again: the inline fill hides the colour the circles
    are given.
  */
  lemma StaleEndpointFill()
    ensures var active := SetFlowStateAsWritten(SetDormant(InitialState), 1200.0, false, Some("#27ae60"), 1000.0);
      && IsActive(active)
      && active.endpointColor == Some("#27ae60")
      && active.endpointFill == Some(DormantGrey)
  {
  }

  /** With the correction an active connector's endpoints follow its colour whatever happened before. */
  lemma {:induction false} ActiveEndpointsFollowColour(s: ConnectorState, value: real, reverse: bool, color: string, maxRange: real)
    requires Abs(value) > ActivityThreshold
    ensures var r := SetFlowState(SetDormant(s), value, reverse, Some(color), maxRange);
      r.endpointFill.None? && r.endpointColor == Some(color) && r.stroke == Some(color) && IsActive(r)
  {
  }

  // ---------------------------------------------------------------- direction and colour

  /** `_isReversed`: a reading below -0.05 runs backwards, and `invert: true` swaps the direction. */
  function IsReversed(config: Option<Value>, value: real): (r: bool)
    ensures r <==> ((value < -ActivityThreshold) != IsTrue(Get(config, "invert")))
  {
    var signalReverse := value < -ActivityThreshold;
    if IsTrue(Get(config, "invert")) then !signalReverse else signalReverse
  }

  /**
    Setting `invert: true` on a section turns its direction round for every
    reading; a section without it runs backwards only for a reading below
    the threshold.
  */
  lemma InvertSwapsDirection(section: map<string, Value>, value: real)
    ensures IsReversed(Some(Obj(section["invert" := Bool(true)])), value) == !IsReversed(Some(Obj(section - {"invert"})), value)
    ensures -ActivityThreshold <= value ==> !IsReversed(Some(Obj(section - {"invert"})), value)
  {
  }

  /** The keys of `FLOW_COLOR_DEFAULTS`. */
  predicate HasDefaultColors(key: string) {
    key in {"ac_input", "ac_output", "inverter_charger", "battery", "dc"}
  }

  /** `FLOW_COLOR_DEFAULTS[key] || FLOW_COLOR_DEFAULTS.ac_input`, as (positive, negative). */
  function DefaultColors(key: string): (pair: (string, string))
    ensures !HasDefaultColors(key) ==> pair == ("#2f80ed", "#f2994a")
  {
    if key == "ac_output" || key == "inverter_charger" then ("#f2994a", "#2f80ed")
    else if key == "battery" then ("#2f80ed", "#f2994a")
    else if key == "dc" then ("#27ae60", "#f2994a")
    else ("#2f80ed", "#f2994a")
  }

  /** A colour setting as the card writes it into a style: any truthy value, in its string form. */
  function ColorSetting(v: Option<Value>, env: Env): (r: Option<string>)
    ensures r.Some? <==> Truthy(v)
    ensures r.Some? && v.value.Str? ==> r.value == v.value.s
  {
    if Truthy(v) then Some(Stringify(v.value, env)) else None
  }

  /** `_getFlowColor`: the section's own colour for the sign of the reading, else the default for `key`. */
  function FlowColor(key: string, config: Option<Value>, value: real, env: Env): (c: string)
    ensures var setting := ColorSetting(Get(config, if value < 0.0 then "color_negative" else "color_positive"), env);
      c == if setting.Some? then setting.value
           else if value < 0.0 then DefaultColors(key).1 else DefaultColors(key).0
  {
    var defaults := DefaultColors(key);
    var positive := ColorSetting(Get(config, "color_positive"), env).GetOr(defaults.0);
    var negative := ColorSetting(Get(config, "color_negative"), env).GetOr(defaults.1);
    if value < 0.0 then negative else positive
  }

  /** Only the sign of the reading matters, and zero counts as positive. */
  lemma FlowColorBySign(key: string, config: Option<Value>, v: real, w: real, env: Env)
    requires (v < 0.0) == (w < 0.0)
    ensures FlowColor(key, config, v, env) == FlowColor(key, config, w, env)
  {
  }

  /** A key without defaults of its own uses the AC input's. */
  lemma FlowColorUnknownKey(key: string, config: Option<Value>, v: real, env: Env)
    requires !HasDefaultColors(key)
    ensures FlowColor(key, config, v, env) == FlowColor("ac_input", config, v, env)
  {
  }

  /** `_getOverrideFlowColor`: `flow_colors[pathKey].positive` / `.negative`, when truthy. */
  function OverrideColor(cfg: Value, pathKey: string, positive: bool, env: Env): (r: Option<string>)
    ensures var overrides := Get(Get(Some(cfg), "flow_colors"), pathKey);
      var setting := Get(overrides, if positive then "positive" else "negative");
      && (r.Some? <==> Truthy(overrides) && Truthy(setting))
      && (r.Some? && setting.value.Str? ==> r.value == setting.value.s)
    ensures !Truthy(Get(Some(cfg), "flow_colors")) ==> r.None?
  {
    var overrides := Get(Get(Some(cfg), "flow_colors"), pathKey);
    if !Truthy(overrides) then None
    else ColorSetting(Get(overrides, if positive then "positive" else "negative"), env)
  }

  // ---------------------------------------------------------------- readings used by the connectors

  function Section(cfg: Value, key: string): Option<Value> {
    EntityConfig(cfg, key)
  }

  /** Whether the battery section names an energy or a power entity (`batteryVisible`). */
  predicate BatteryConfigured(cfg: Value) {
    Truthy(Get(Section(cfg, "battery"), "entity")) || Truthy(Get(Section(cfg, "battery"), "power_entity"))
  }

  /** The battery reading: the raw power entity when there is one, else the rounded energy reading. */
  function BatteryValue(cfg: Value, env: Env): (v: real)
    ensures !BatteryConfigured(cfg) ==> v == 0.0
    ensures BatteryConfigured(cfg) && Truthy(Get(Section(cfg, "battery"), "power_entity")) ==>
      v == PowerEntityValue(Section(cfg, "battery"), env).GetOr(0.0)
    ensures BatteryConfigured(cfg) && !Truthy(Get(Section(cfg, "battery"), "power_entity")) ==>
      v == Reading(Section(cfg, "battery"), env)
  {
    var bc := Section(cfg, "battery");
    if !BatteryConfigured(cfg) then 0.0
    else if Truthy(Get(bc, "power_entity")) then PowerEntityValue(bc, env).GetOr(0.0)
    else Reading(bc, env)
  }

  /** The inverter mode: its tertiary line, trimmed and lower-cased, when that is a string. */
  function InverterMode(cfg: Value, env: Env): (mode: string)
    ensures ToLower(Trim(mode)) == mode
    ensures !TertiaryDisplayValue(Section(cfg, "inverter_charger"), env).Str? ==> mode == ""
  {
    match TertiaryDisplayValue(Section(cfg, "inverter_charger"), env)
    case Str(t) =>
      NormaliseIdempotent(t);
      ToLower(Trim(t))
    case _ => ""
  }

  /** Charger modes push energy into the battery, inverter modes draw from it. */
  const ChargingModes: set<string> := {"bulk", "absorption", "float"}
  const InvertingModes: set<string> := {"inverting", "assisting", "power supply"}

  /** +1 towards the battery, -1 from it, 0 for any other mode. */
  function ModeDirection(mode: string): (d: int)
    ensures d == 1 <==> mode in ChargingModes
    ensures d == -1 <==> mode in InvertingModes
    ensures d == 0 <==> mode !in ChargingModes && mode !in InvertingModes
  {
    if mode in ChargingModes then 1 else if mode in InvertingModes then -1 else 0
  }

  /** The mode is read case-insensitively and regardless of surrounding white space. */
  lemma {:induction false} ModeDirectionNormalises(t: string)
    ensures ModeDirection(ToLower(Trim(ToLower(Trim(t))))) == ModeDirection(ToLower(Trim(t)))
  {
    TrimIdempotent(t);
    TrimOfLower(Trim(t));
    ToLowerIdempotent(Trim(t));
  }

  /** `battery.invert: true` turns a non-zero direction round. */
  function InverterDirection(cfg: Value, env: Env): (d: int)
    ensures var base := ModeDirection(InverterMode(cfg, env));
      d == (if IsTrue(Get(Section(cfg, "battery"), "invert")) then -base else base)
    ensures d == 0 <==> ModeDirection(InverterMode(cfg, env)) == 0
  {
    var base := ModeDirection(InverterMode(cfg, env));
    if IsTrue(Get(Section(cfg, "battery"), "invert")) && base != 0 then -base else base
  }

  /**
    The inverter-battery colour, in priority order: the `flow_colors`
    override, the inverter's legacy pair when both halves are set, the
    battery's colour.
  */
  function InverterBatteryColor(cfg: Value, positive: bool, env: Env): (c: string)
    ensures OverrideColor(cfg, "inverter_battery", positive, env).Some? ==>
      c == OverrideColor(cfg, "inverter_battery", positive, env).value
    ensures var ic := Section(cfg, "inverter_charger");
      OverrideColor(cfg, "inverter_battery", positive, env).None?
      && Truthy(Get(ic, "inverter_battery_color_positive")) && Truthy(Get(ic, "inverter_battery_color_negative")) ==>
        c == ColorSetting(Get(ic, if positive then "inverter_battery_color_positive" else "inverter_battery_color_negative"), env).value
    ensures var ic := Section(cfg, "inverter_charger");
      OverrideColor(cfg, "inverter_battery", positive, env).None?
      && !(Truthy(Get(ic, "inverter_battery_color_positive")) && Truthy(Get(ic, "inverter_battery_color_negative"))) ==>
        c == FlowColor("battery", Section(cfg, "battery"), if positive then 1.0 else -1.0, env)
  {
    var ic := Section(cfg, "inverter_charger");
    match OverrideColor(cfg, "inverter_battery", positive, env)
    case Some(o) => o
    case None =>
      if Truthy(Get(ic, "inverter_battery_color_positive")) && Truthy(Get(ic, "inverter_battery_color_negative")) then
        ColorSetting(Get(ic, if positive then "inverter_battery_color_positive" else "inverter_battery_color_negative"), env).value
      else FlowColor("battery", Section(cfg, "battery"), if positive then 1.0 else -1.0, env)
  }

  /** A DC gate (`dc_flow_template`) that resolves to true; undefined and false keep the connector dormant. */
  predicate DcGateOpen(cfg: Value, key: string, env: Env) {
    var sec := Section(cfg, key);
    EvaluateVisibilityTemplate(Get(sec, "dc_flow_template"), Get(sec, "entity"), env) == Some(true)
  }

  /** The speed of a gated DC connector: the largest of the DC, battery and inverter readings, and at least 1. */
  function DcMagnitude(cfg: Value, env: Env): (m: real)
    ensures m >= 1.0
    ensures m >= Abs(Reading(Section(cfg, "dc"), env)) && m >= Abs(BatteryValue(cfg, env))
            && m >= Abs(Reading(Section(cfg, "inverter_charger"), env))
    ensures m == 1.0 || m == Abs(Reading(Section(cfg, "dc"), env)) || m == Abs(BatteryValue(cfg, env))
            || m == Abs(Reading(Section(cfg, "inverter_charger"), env))
  {
    Max(Max(Abs(Reading(Section(cfg, "dc"), env)), Abs(BatteryValue(cfg, env))),
        Max(Abs(Reading(Section(cfg, "inverter_charger"), env)), 1.0))
  }

  // ---------------------------------------------------------------- the plan of `_updateFlows`

  /** What `_updateFlows` does to one connector. `Animate` is `_showFlow` then `_setFlowState`. */
  datatype Command =
    | HideCmd
    | DormantCmd
    | NeutralCmd
    | AnimateCmd(value: real, reverse: bool, color: Option<string>, maxRange: real)

  function Apply(s: ConnectorState, cmd: Command): ConnectorState {
    match cmd
    case HideCmd => Hide(s)
    case DormantCmd => SetDormant(Show(s))
    case NeutralCmd => Neutral(Show(s))
    case AnimateCmd(v, rev, col, mr) => SetFlowState(Show(s), v, rev, col, mr)
  }

  /**
    The command `_updateFlows` issues for connector `c`, given the
    configuration, the snapshot and which node elements are visible.
  */
  function FlowCommand(cfg: Value, env: Env, visible: Node -> bool, c: Connector): Command {
    match c
    case AcFlow => AcCommand(cfg, env, "ac_input")
    case LoadFlow => AcCommand(cfg, env, "ac_output")
    case InverterBatteryFlow => InverterBatteryCommand(cfg, env)
    case DcInFlow => DcInCommand(cfg, env, DcInputsOf(cfg, env), visible)
    case DcOutFlow => DcOutCommand(cfg, env, DcInputsOf(cfg, env), visible)
  }

  /** An AC connector: hidden without an entity, else animated by the rounded reading over a 5000 W range. */
  function AcCommand(cfg: Value, env: Env, key: string): (cmd: Command)
    ensures cmd.HideCmd? <==> !Truthy(Get(Section(cfg, key), "entity"))
    ensures !cmd.HideCmd? ==> cmd.AnimateCmd? && cmd.maxRange == 5000.0 && cmd.color.Some?
    ensures cmd.AnimateCmd? ==> cmd.value == Reading(Section(cfg, key), env)
  {
    var sec := Section(cfg, key);
    var v := Reading(sec, env);
    if !Truthy(Get(sec, "entity")) then HideCmd
    else AnimateCmd(v, IsReversed(sec, v), Some(FlowColor(key, sec, v, env)), 5000.0)
  }

  /** The inverter-battery connector: direction from the inverter mode, speed from the battery over 1800 W. */
  function InverterBatteryCommand(cfg: Value, env: Env): (cmd: Command)
    ensures cmd.HideCmd? <==> !BatteryConfigured(cfg)
    ensures cmd.NeutralCmd? <==> BatteryConfigured(cfg) && InverterDirection(cfg, env) == 0
    ensures !cmd.DormantCmd?
    ensures cmd.AnimateCmd? ==> cmd.value > 0.0 && cmd.reverse == (InverterDirection(cfg, env) < 0)
                                && cmd.color.Some? && cmd.maxRange == 1800.0
  {
    var base := ModeDirection(InverterMode(cfg, env));
    var dir := InverterDirection(cfg, env);
    var bat := BatteryValue(cfg, env);
    if !BatteryConfigured(cfg) then HideCmd
    else if dir == 0 then NeutralCmd
    else AnimateCmd(if Abs(bat) != 0.0 then Abs(bat) else 0.5, dir < 0,
                    Some(InverterBatteryColor(cfg, base > 0, env)), 1800.0)
  }

  /** The DC direction and colour shared by both DC connectors. */
  function DcReading(cfg: Value, env: Env): real {
    Reading(Section(cfg, "dc"), env)
  }

  /** The DC values `_updateFlows` reads before it issues the two DC commands. */
  datatype DcInputs = DcInputs(dc: real, magnitude: real, inverterGate: bool, batteryGate: bool)

  /** The DC reading, the speed of a gated DC connector and the two `dc_flow_template` gates. */
  function DcInputsOf(cfg: Value, env: Env): (d: DcInputs)
    ensures d.magnitude >= 1.0
  {
    DcInputs(DcReading(cfg, env), DcMagnitude(cfg, env),
             DcGateOpen(cfg, "inverter_charger", env), DcGateOpen(cfg, "battery", env))
  }

  /** The inverter-to-DC connector over a 1000 W range. */
  function DcInCommand(cfg: Value, env: Env, d: DcInputs, visible: Node -> bool): (cmd: Command)
    ensures cmd.HideCmd? <==> !visible(DcNode) || !visible(InverterNode)
    ensures cmd.DormantCmd? <==> visible(DcNode) && visible(InverterNode) && !d.inverterGate
    ensures !cmd.NeutralCmd?
    ensures cmd.AnimateCmd? ==> cmd.value == d.magnitude && cmd.color.Some? && cmd.maxRange == 1000.0
  {
    var reverse := (d.dc < -ActivityThreshold) != IsTrue(Get(Section(cfg, "dc"), "invert"));
    var color := OverrideColor(cfg, "inverter_dc", d.dc >= 0.0, env).GetOr(FlowColor("dc", Section(cfg, "dc"), d.dc, env));
    if !visible(DcNode) || !visible(InverterNode) then HideCmd
    else if !d.inverterGate then DormantCmd
    else AnimateCmd(d.magnitude, reverse, Some(color), 1000.0)
  }

  /** The battery-to-DC connector over a 360 W range. */
  function DcOutCommand(cfg: Value, env: Env, d: DcInputs, visible: Node -> bool): (cmd: Command)
    ensures cmd.HideCmd? <==> !visible(DcNode) || !visible(BatteryNode) || !BatteryConfigured(cfg)
    ensures cmd.DormantCmd? <==> visible(DcNode) && visible(BatteryNode) && BatteryConfigured(cfg) && !d.batteryGate
    ensures !cmd.NeutralCmd?
    ensures cmd.AnimateCmd? ==> cmd.value == d.magnitude && cmd.color.Some? && cmd.maxRange == 360.0
  {
    var reverse := (d.dc < -ActivityThreshold) != IsTrue(Get(Section(cfg, "battery"), "invert_to_battery"));
    var color := OverrideColor(cfg, "battery_dc", d.dc >= 0.0, env).GetOr(FlowColor("dc", Section(cfg, "dc"), d.dc, env));
    if !visible(DcNode) || !visible(BatteryNode) || !BatteryConfigured(cfg) then HideCmd
    else if !d.batteryGate then DormantCmd
    else AnimateCmd(d.magnitude, reverse, Some(color), 360.0)
  }

  // ---------------------------------------------------------------- properties of the plan

  /** What each command leaves a connector looking like. */
  lemma {:induction false} ApplyOutcome(s: ConnectorState, cmd: Command)
    ensures cmd.HideCmd? ==> IsHidden(Apply(s, cmd)) && !MarkerVisible(Apply(s, cmd)) && !IsActive(Apply(s, cmd))
    ensures cmd.DormantCmd? || cmd.NeutralCmd? ==> IsGreyedOut(Apply(s, cmd)) && !IsActive(Apply(s, cmd))
    ensures cmd.DormantCmd? ==> Apply(s, cmd).endpointFill == Some(DormantGrey) && Apply(s, cmd).endpointsShown
    ensures cmd.AnimateCmd? ==>
      && (IsActive(Apply(s, cmd)) <==> Abs(cmd.value) > ActivityThreshold)
      && (MarkerVisible(Apply(s, cmd)) <==> Abs(cmd.value) > ActivityThreshold)
      && (IsActive(Apply(s, cmd)) ==> Apply(s, cmd).keyPoints == (if cmd.reverse then Backward else Forward))
    ensures DurationInBand(s.duration) ==> DurationInBand(Apply(s, cmd).duration)
  {
    match cmd
    case HideCmd =>
    case DormantCmd =>
    case NeutralCmd =>
    case AnimateCmd(v, rev, col, mr) =>
      var r := SetFlowState(Show(s), v, rev, col, mr);
      assert r.(endpointFill := Show(s).endpointFill) == SetFlowStateAsWritten(Show(s), v, rev, col, mr);
  }

  /** Issuing the same command twice leaves the connector as issuing it once: the 0.3 s tolerance absorbs the retiming. */
  lemma {:induction false} ApplyIdempotent(s: ConnectorState, cmd: Command)
    ensures Apply(Apply(s, cmd), cmd) == Apply(s, cmd)
  {
    match cmd
    case HideCmd =>
    case DormantCmd =>
    case NeutralCmd =>
    case AnimateCmd(v, rev, col, mr) =>
      var once := Apply(s, cmd);
      var t := TargetDuration(v, mr);
      if Abs(v) > ActivityThreshold {
        assert once.duration == NewDuration(s.duration, t);
        assert Abs(once.duration - t) <= 0.3;
        assert Apply(once, cmd).duration == once.duration;
      }
  }

  /** The AC connectors show exactly when their section names an entity, run the colour of their sign and animate exactly when the rounded reading is not 0. */
  lemma {:induction false} AcConnector(cfg: Value, env: Env, visible: Node -> bool, c: Connector, s: ConnectorState)
    requires c == AcFlow || c == LoadFlow
    ensures var key := if c == AcFlow then "ac_input" else "ac_output";
      var sec := Section(cfg, key);
      var v := Reading(sec, env);
      var cmd := FlowCommand(cfg, env, visible, c);
      && (cmd.HideCmd? <==> !Truthy(Get(sec, "entity")))
      && (!cmd.HideCmd? ==>
            && cmd == AnimateCmd(v, IsReversed(sec, v), Some(FlowColor(key, sec, v, env)), 5000.0)
            && (IsActive(Apply(s, cmd)) <==> v != 0.0))
  {
    var key := if c == AcFlow then "ac_input" else "ac_output";
    ReadingIsZeroOrWhole(Section(cfg, key), env);
    ApplyOutcome(s, FlowCommand(cfg, env, visible, c));
  }

  /**
    The inverter-battery connector: hidden without a battery entity, grey
    and still when the inverter mode gives no direction, otherwise animated
    towards the battery for charger modes and away from it for inverter
    modes, with `battery.invert` turning it round.
  */
  lemma {:induction false} InverterBatteryConnector(cfg: Value, env: Env, visible: Node -> bool, s: ConnectorState)
    ensures var cmd := FlowCommand(cfg, env, visible, InverterBatteryFlow);
      var mode := InverterMode(cfg, env);
      && (cmd.HideCmd? <==> !BatteryConfigured(cfg))
      && (cmd.NeutralCmd? <==> BatteryConfigured(cfg) && mode !in ChargingModes && mode !in InvertingModes)
      && (cmd.NeutralCmd? ==> IsGreyedOut(Apply(s, cmd)))
      && (cmd.AnimateCmd? ==>
            && cmd.reverse == ((mode in InvertingModes) != IsTrue(Get(Section(cfg, "battery"), "invert")))
            && cmd.color == Some(InverterBatteryColor(cfg, mode in ChargingModes, env))
            && cmd.maxRange == 1800.0)
  {
    ApplyOutcome(s, FlowCommand(cfg, env, visible, InverterBatteryFlow));
  }

  /** With an energy reading (no power entity) a directed inverter-battery connector always animates: a zero reading still runs at 0.5. */
  lemma {:induction false} InverterBatteryAnimatesWithoutPowerEntity(cfg: Value, env: Env, visible: Node -> bool, s: ConnectorState)
    requires BatteryConfigured(cfg) && !Truthy(Get(Section(cfg, "battery"), "power_entity"))
    requires ModeDirection(InverterMode(cfg, env)) != 0
    ensures IsActive(Apply(s, FlowCommand(cfg, env, visible, InverterBatteryFlow)))
    ensures MarkerVisible(Apply(s, FlowCommand(cfg, env, visible, InverterBatteryFlow)))
  {
    ReadingIsZeroOrWhole(Section(cfg, "battery"), env);
    ApplyOutcome(s, FlowCommand(cfg, env, visible, InverterBatteryFlow));
  }

  /** Both DC connectors disappear with the DC node. */
  lemma DcConnectorsFollowDcNode(cfg: Value, env: Env, visible: Node -> bool)
    requires !visible(DcNode)
    ensures FlowCommand(cfg, env, visible, DcInFlow) == HideCmd
    ensures FlowCommand(cfg, env, visible, DcOutFlow) == HideCmd
  {
  }

  /**
    Gating of the inverter-to-DC connector: with both nodes visible it is
    dormant exactly when its gate is undefined or false, and an open gate
    always animates it, in the DC direction turned round by `dc.invert`.
  */
  lemma {:induction false} DcInGate(cfg: Value, env: Env, d: DcInputs, visible: Node -> bool, s: ConnectorState)
    requires visible(DcNode) && visible(InverterNode) && d.magnitude >= 1.0
    ensures var cmd := DcInCommand(cfg, env, d, visible);
      && (cmd.DormantCmd? <==> !d.inverterGate)
      && (cmd.AnimateCmd? <==> d.inverterGate)
      && (cmd.AnimateCmd? ==>
            && IsActive(Apply(s, cmd)) && MarkerVisible(Apply(s, cmd))
            && cmd.reverse == ((d.dc < -ActivityThreshold) != IsTrue(Get(Section(cfg, "dc"), "invert")))
            && cmd.color == Some(OverrideColor(cfg, "inverter_dc", d.dc >= 0.0, env).GetOr(FlowColor("dc", Section(cfg, "dc"), d.dc, env))))
  {
    ApplyOutcome(s, DcInCommand(cfg, env, d, visible));
  }

  /** The battery-to-DC connector shows only with the DC node, the battery node and a battery entity. */
  lemma DcOutShown(cfg: Value, env: Env, visible: Node -> bool)
    ensures FlowCommand(cfg, env, visible, DcOutFlow).HideCmd? <==>
      !visible(DcNode) || !visible(BatteryNode) || !BatteryConfigured(cfg)
  {
  }

  /**
    Gating of the battery-to-DC connector: once shown it is dormant exactly
    when its gate is not open, and an open gate always animates it, in the DC
    direction turned round by `battery.invert_to_battery`.
  */
  lemma {:induction false} DcOutGate(cfg: Value, env: Env, d: DcInputs, visible: Node -> bool, s: ConnectorState)
    requires visible(DcNode) && visible(BatteryNode) && BatteryConfigured(cfg) && d.magnitude >= 1.0
    ensures var cmd := DcOutCommand(cfg, env, d, visible);
      && (cmd.DormantCmd? <==> !d.batteryGate)
      && (cmd.AnimateCmd? <==> d.batteryGate)
      && (cmd.AnimateCmd? ==>
            && IsActive(Apply(s, cmd)) && MarkerVisible(Apply(s, cmd))
            && cmd.reverse == ((d.dc < -ActivityThreshold) != IsTrue(Get(Section(cfg, "battery"), "invert_to_battery")))
            && cmd.color == Some(OverrideColor(cfg, "battery_dc", d.dc >= 0.0, env).GetOr(FlowColor("dc", Section(cfg, "dc"), d.dc, env)))
            && cmd.maxRange == 360.0)
  {
    ApplyOutcome(s, DcOutCommand(cfg, env, d, visible));
  }
}
