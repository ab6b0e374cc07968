/**
  The card object: the connector geometry it has drawn, the state of each
  drawn connector, which nodes carry the `hidden` class, and whether the
  placeholder animation has been primed. The setters of `Flows` become
  methods that update one connector in place; the SVG elements exist only
  once the paths have been drawn.
*/
module PowerFlowCard {
  import opened Wrappers
  import opened Json
  import opened Resolution
  import opened Geometry
  import opened Flows

  /** The five connectors the card draws. */
  const AllConnectors: set<Connector> := {AcFlow, LoadFlow, InverterBatteryFlow, DcInFlow, DcOutFlow}

  lemma AllConnectorsComplete()
    ensures forall c: Connector :: c in AllConnectors
  {
    forall c: Connector
      ensures c in AllConnectors
    {
      match c
      case AcFlow =>
      case LoadFlow =>
      case InverterBatteryFlow =>
      case DcInFlow =>
      case DcOutFlow =>
    }
  }

  /** `config.show_defaults !== false`. */
  predicate ShowDefaults(config: Value) {
    Get(Some(config), "show_defaults") != Some(Bool(false))
  }

  /** The connector as `_primeInitialDefaults` leaves it: animated with a reading of 1 and no colour. */
  function Primed(s: ConnectorState): ConnectorState {
    SetFlowState(s, 1.0, false, None, 3500.0)
  }

  function PrimedAt(c: Connector, s: ConnectorState): ConnectorState {
    Primed(s)
  }

  /** The connectors right after `_createDynamicPaths` redraws them, primed when that is still to be done. */
  function FreshFlows(config: Value, primed: bool): (flows: map<Connector, ConnectorState>)
    ensures forall c: Connector :: c in flows
    ensures forall c: Connector :: flows[c] == if !primed && ShowDefaults(config) then Primed(InitialState) else InitialState
  {
    AllConnectorsComplete();
    map c | c in AllConnectors :: if !primed && ShowDefaults(config) then Primed(InitialState) else InitialState
  }

  /** A node element counts as visible when it exists and lacks the `hidden` class. */
  function Visibility(layout: Layout, hidden: set<Node>): Node -> bool {
    n => n in layout.boxes && n !in hidden
  }

  /** Every drawn connector after the commands of `_updateFlows`. */
  function ApplyPlan(flows: map<Connector, ConnectorState>, config: Value, env: Env, visible: Node -> bool): (r: map<Connector, ConnectorState>)
    ensures r.Keys == flows.Keys
    ensures forall c :: c in r ==> r[c] == Apply(flows[c], FlowCommand(config, env, visible, c))
  {
    map c | c in flows :: Apply(flows[c], FlowCommand(config, env, visible, c))
  }

  /** Connector `c` updated by `f`, when it is drawn. */
  function UpdateAt(flows: map<Connector, ConnectorState>, c: Connector, f: (Connector, ConnectorState) -> ConnectorState): (r: map<Connector, ConnectorState>)
    ensures r.Keys == flows.Keys
  {
    if c in flows then flows[c := f(c, flows[c])] else flows
  }

  /** Updating the five connectors one after the other updates every drawn connector. */
  lemma EveryConnectorUpdated(f0: map<Connector, ConnectorState>, f1: map<Connector, ConnectorState>, f2: map<Connector, ConnectorState>,
                              f3: map<Connector, ConnectorState>, f4: map<Connector, ConnectorState>, f5: map<Connector, ConnectorState>,
                              f: (Connector, ConnectorState) -> ConnectorState)
    requires f1 == UpdateAt(f0, AcFlow, f) && f2 == UpdateAt(f1, LoadFlow, f) && f3 == UpdateAt(f2, InverterBatteryFlow, f)
    requires f4 == UpdateAt(f3, DcInFlow, f) && f5 == UpdateAt(f4, DcOutFlow, f)
    ensures f5.Keys == f0.Keys
    ensures forall c :: c in f5 ==> f5[c] == f(c, f0[c])
  {
    forall c | c in f5
      ensures f5[c] == f(c, f0[c])
    {
      match c
      case AcFlow =>
      case LoadFlow =>
      case InverterBatteryFlow =>
      case DcInFlow =>
      case DcOutFlow =>
    }
  }

  /** The command `_updateFlows` issues to each connector, all computed from the same readings. */
  function Plan(config: Value, env: Env, visible: Node -> bool): (plan: map<Connector, Command>)
    ensures forall c: Connector :: c in plan && plan[c] == FlowCommand(config, env, visible, c)
  {
    AllConnectorsComplete();
    map c | c in AllConnectors :: FlowCommand(config, env, visible, c)
  }

  /** Applying each connector's planned command is `ApplyPlan`. */
  lemma PlanApplied(before: map<Connector, ConnectorState>, after: map<Connector, ConnectorState>, config: Value, env: Env, visible: Node -> bool)
    requires after.Keys == before.Keys
    requires forall c :: c in after ==> after[c] == Apply(before[c], Plan(config, env, visible)[c])
    ensures after == ApplyPlan(before, config, env, visible)
  {
  }

  /** Running `_updateFlows` again on an unchanged snapshot changes nothing. */
  lemma {:induction false} ApplyPlanIdempotent(flows: map<Connector, ConnectorState>, config: Value, env: Env, visible: Node -> bool)
    ensures ApplyPlan(ApplyPlan(flows, config, env, visible), config, env, visible) == ApplyPlan(flows, config, env, visible)
  {
    var once := ApplyPlan(flows, config, env, visible);
    forall c | c in once
      ensures ApplyPlan(once, config, env, visible)[c] == once[c]
    {
      ApplyIdempotent(flows[c], FlowCommand(config, env, visible, c));
    }
  }

  /** The node each entity section is drawn in. */
  function NodeOf(s: Section): Node {
    match s
    case AcInput => AcInNode
    case AcOutput => AcOutputNode
    case InverterCharger => InverterNode
    case Battery => BatteryNode
    case Dc => DcNode
  }

  /** The nodes `updateValues` leaves hidden. */
  function HiddenNodes(config: Value): (hidden: set<Node>)
    ensures forall s: Section :: NodeOf(s) in hidden <==> !NodeShown(config, s)
  {
    set s: Section | !NodeShown(config, s) :: NodeOf(s)
  }

  /** The hidden set after `_updateNode` for one node: the node leaves it when shown and joins it when not. */
  function Toggle(hidden: set<Node>, n: Node, shown: bool): set<Node> {
    if shown then hidden - {n} else hidden + {n}
  }

  /** Updating the five nodes in turn leaves exactly the nodes whose section hides them, whatever was hidden before. */
  lemma UpdatesGiveHiddenNodes(config: Value, before: set<Node>)
    ensures Toggle(Toggle(Toggle(Toggle(Toggle(before,
              AcInNode, NodeShown(config, AcInput)),
              AcOutputNode, NodeShown(config, AcOutput)),
              InverterNode, NodeShown(config, InverterCharger)),
              BatteryNode, NodeShown(config, Battery)),
              DcNode, NodeShown(config, Dc)) == HiddenNodes(config)
  {
    var after := Toggle(Toggle(Toggle(Toggle(Toggle(before,
              AcInNode, NodeShown(config, AcInput)),
              AcOutputNode, NodeShown(config, AcOutput)),
              InverterNode, NodeShown(config, InverterCharger)),
              BatteryNode, NodeShown(config, Battery)),
              DcNode, NodeShown(config, Dc));
    forall n: Node ensures n in after <==> n in HiddenNodes(config) {
      var s := match n
        case AcInNode => AcInput
        case AcOutputNode => AcOutput
        case InverterNode => InverterCharger
        case BatteryNode => Battery
        case DcNode => Dc;
      assert NodeOf(s) == n;
    }
  }

  /**
    Whether `_updateNode` for the battery throws: once the node is shown,
    `_updateBatteryNode` fills the charge-state line, and `.trim()` fails on
    a `flow_state_entity` that is truthy but not a string.
  */
  predicate BatteryUpdateThrows(config: Value, env: Env) {
    var setting := Get(EntityConfig(config, "battery"), "flow_state_entity");
    env.hass.Some? && NodeShown(config, Battery) && Truthy(setting) && !setting.value.Str?
  }

  /** The throw is exactly `_getBatteryFlowStateDisplay` throwing for a shown battery node. */
  lemma BatteryUpdateThrowsIff(config: Value, env: Env)
    ensures BatteryUpdateThrows(config, env) <==>
      NodeShown(config, Battery) && BatteryFlowStateDisplay(EntityConfig(config, "battery"), env).Throws?
  {
  }

  /** Stopping after the battery node leaves every node but the DC one as its section says, and the DC node as it was. */
  lemma UpdatesUpToBattery(config: Value, before: set<Node>)
    ensures var after := Toggle(Toggle(Toggle(Toggle(before,
              AcInNode, NodeShown(config, AcInput)),
              AcOutputNode, NodeShown(config, AcOutput)),
              InverterNode, NodeShown(config, InverterCharger)),
              BatteryNode, NodeShown(config, Battery));
      && (DcNode in after <==> DcNode in before)
      && (forall s: Section :: s != Dc ==> (NodeOf(s) in after <==> !NodeShown(config, s)))
  {
  }

  class Card {
    const config: Value
    const cornerRadius: real
    /** The geometry of the drawn connectors; `None` until the grid first has a size. */
    var wires: Option<map<Connector, Wire>>
    var flows: map<Connector, ConnectorState>
    var hiddenNodes: set<Node>
    var primedDefaults: bool

    /** The connectors exist exactly when the paths have been drawn, and every marker runs between 1.5 s and 5 s. */
    ghost predicate Valid()
      reads this
    {
      && (wires.None? <==> flows == map[])
      && (wires.Some? ==> forall c: Connector :: c in flows)
      && (forall c :: c in flows ==> DurationInBand(flows[c].duration))
    }

    constructor (config: Value, cornerRadius: real)
      ensures Valid()
      ensures this.config == config && this.cornerRadius == cornerRadius
      ensures wires.None? && flows == map[] && hiddenNodes == {} && !primedDefaults
    {
      this.config := config;
      this.cornerRadius := cornerRadius;
      wires := None;
      flows := map[];
      hiddenNodes := {};
      primedDefaults := false;
    }

    /** `_showFlow`. */
    method ShowFlow(c: Connector)
      requires Valid()
      modifies this`flows
      ensures Valid()
      ensures flows == if c in old(flows) then old(flows)[c := Show(old(flows)[c])] else old(flows)
    {
      if c in flows {
        flows := flows[c := Show(flows[c])];
      }
    }

    /** `_hideFlow`. */
    method HideFlow(c: Connector)
      requires Valid()
      modifies this`flows
      ensures Valid()
      ensures flows == if c in old(flows) then old(flows)[c := Hide(old(flows)[c])] else old(flows)
      ensures c in flows ==> IsHidden(flows[c]) && !MarkerVisible(flows[c])
    {
      if c in flows {
        flows := flows[c := Hide(flows[c])];
      }
    }

    /** `_setFlowDormant`. */
    method SetFlowDormant(c: Connector)
      requires Valid()
      modifies this`flows
      ensures Valid()
      ensures flows == if c in old(flows) then old(flows)[c := SetDormant(old(flows)[c])] else old(flows)
      ensures c in flows ==> IsGreyedOut(flows[c])
    {
      if c in flows {
        flows := flows[c := SetDormant(flows[c])];
      }
    }

    /** The grey, markerless look `_updateFlows` gives the inverter-battery connector without a direction. */
    method SetFlowNeutral(c: Connector)
      requires Valid()
      modifies this`flows
      ensures Valid()
      ensures flows == if c in old(flows) then old(flows)[c := Neutral(old(flows)[c])] else old(flows)
      ensures c in flows ==> IsGreyedOut(flows[c])
    {
      if c in flows {
        flows := flows[c := Neutral(flows[c])];
      }
    }

    /** `_setFlowState` (with the endpoint fill cleared when active). */
    method SetFlowState(c: Connector, value: real, reverse: bool, color: Option<string>, maxRange: real)
      requires Valid()
      modifies this`flows
      ensures Valid()
      ensures flows == if c in old(flows) then old(flows)[c := Flows.SetFlowState(old(flows)[c], value, reverse, color, maxRange)] else old(flows)
      ensures c in flows ==> (IsActive(flows[c]) <==> Abs(value) > ActivityThreshold)
    {
      if c in flows {
        flows := flows[c := Flows.SetFlowState(flows[c], value, reverse, color, maxRange)];
      }
    }

    /** One branch of `_updateFlows` for connector `c`, through the setters. */
    method Run(c: Connector, cmd: Command)
      requires Valid()
      modifies this`flows
      ensures Valid()
      ensures flows == if c in old(flows) then old(flows)[c := Apply(old(flows)[c], cmd)] else old(flows)
    {
      match cmd
      case HideCmd => HideFlow(c);
      case DormantCmd => ShowFlow(c); SetFlowDormant(c);
      case NeutralCmd => ShowFlow(c); SetFlowNeutral(c);
      case AnimateCmd(v, rev, col, mr) => ShowFlow(c); SetFlowState(c, v, rev, col, mr);
    }

    /** `_primeInitialDefaults`: unless `show_defaults` is false, animate every connector with a reading of 1. */
    method PrimeInitialDefaults()
      requires Valid()
      modifies this`flows
      ensures Valid()
      ensures !ShowDefaults(config) ==> flows == old(flows)
      ensures ShowDefaults(config) ==> flows.Keys == old(flows).Keys && forall c :: c in flows ==> flows[c] == Primed(old(flows)[c])
    {
      if !ShowDefaults(config) {
        return;
      }
      ghost var f0 := flows;
      SetFlowState(AcFlow, 1.0, false, None, 3500.0);
      ghost var f1 := flows;
      assert f1 == UpdateAt(f0, AcFlow, PrimedAt);
      SetFlowState(LoadFlow, 1.0, false, None, 3500.0);
      ghost var f2 := flows;
      assert f2 == UpdateAt(f1, LoadFlow, PrimedAt);
      SetFlowState(InverterBatteryFlow, 1.0, false, None, 3500.0);
      ghost var f3 := flows;
      assert f3 == UpdateAt(f2, InverterBatteryFlow, PrimedAt);
      SetFlowState(DcInFlow, 1.0, false, None, 3500.0);
      ghost var f4 := flows;
      assert f4 == UpdateAt(f3, DcInFlow, PrimedAt);
      SetFlowState(DcOutFlow, 1.0, false, None, 3500.0);
      assert flows == UpdateAt(f4, DcOutFlow, PrimedAt);
      EveryConnectorUpdated(f0, f1, f2, f3, f4, flows, PrimedAt);
    }

    /**
      `_createDynamicPaths`: nothing while the grid has no size; otherwise
      redraw every connector from the layout, which resets their state, and
      prime them once.
    */
    method CreateDynamicPaths(layout: Layout)
      requires Valid()
      modifies this`wires, this`flows, this`primedDefaults
      ensures Valid()
      ensures ConnectorPaths(layout, cornerRadius).None? ==>
        wires == old(wires) && flows == old(flows) && primedDefaults == old(primedDefaults)
      ensures ConnectorPaths(layout, cornerRadius).Some? ==>
        && wires == ConnectorPaths(layout, cornerRadius)
        && flows == FreshFlows(config, old(primedDefaults))
        && primedDefaults == (old(primedDefaults) || ShowDefaults(config))
    {
      var paths := ConnectorPaths(layout, cornerRadius);
      if paths.None? {
        return;
      }
      wires := paths;
      AllConnectorsComplete();
      flows := map c | c in AllConnectors :: InitialState;
      assert AcFlow in flows;
      if !primedDefaults && ShowDefaults(config) {
        PrimeInitialDefaults();
        primedDefaults := true;
      }
    }

    /** `_ensurePathsReady`: draw the paths if that has not happened yet; ready once they exist. */
    method EnsurePathsReady(layout: Layout) returns (ready: bool)
      requires Valid()
      modifies this`wires, this`flows, this`primedDefaults
      ensures Valid()
      ensures ready <==> layout.gridWidth != 0.0 && layout.gridHeight != 0.0
      ensures ready ==> wires.Some?
      ensures !ready || old(wires).Some? ==>
        wires == old(wires) && flows == old(flows) && primedDefaults == old(primedDefaults)
      ensures ready && old(wires).None? ==>
        flows == FreshFlows(config, old(primedDefaults)) && primedDefaults == (old(primedDefaults) || ShowDefaults(config))
    {
      if layout.gridWidth == 0.0 || layout.gridHeight == 0.0 {
        return false;
      }
      if wires.None? {
        CreateDynamicPaths(layout);
      }
      return wires.Some?;
    }

    /**
      `_updateFlows`: once the paths are ready, issue every connector's
      command, all computed from the same readings.
    */
    method UpdateFlows(layout: Layout, env: Env)
      requires Valid()
      modifies this`wires, this`flows, this`primedDefaults
      ensures Valid()
      ensures layout.gridWidth == 0.0 || layout.gridHeight == 0.0 ==>
        wires == old(wires) && flows == old(flows) && primedDefaults == old(primedDefaults)
      ensures layout.gridWidth != 0.0 && layout.gridHeight != 0.0 ==>
        var prepared := if old(wires).Some? then old(flows) else FreshFlows(config, old(primedDefaults));
        flows == ApplyPlan(prepared, config, env, Visibility(layout, hiddenNodes))
    {
      var ready := EnsurePathsReady(layout);
      if !ready {
        return;
      }
      ghost var prepared := flows;
      RunPlan(Plan(config, env, Visibility(layout, hiddenNodes)));
      PlanApplied(prepared, flows, config, env, Visibility(layout, hiddenNodes));
    }

    /** The connector branches of `_updateFlows`, in the source's order, each issuing its command. */
    method RunPlan(plan: map<Connector, Command>)
      requires Valid()
      requires forall c: Connector :: c in plan
      modifies this`flows
      ensures Valid()
      ensures flows.Keys == old(flows).Keys
      ensures forall c :: c in flows ==> flows[c] == Apply(old(flows)[c], plan[c])
    {
      ghost var f0 := flows;
      ghost var run := (c: Connector, s: ConnectorState) => Apply(s, plan[c]);
      Run(AcFlow, plan[AcFlow]);
      ghost var f1 := flows;
      assert f1 == UpdateAt(f0, AcFlow, run);
      Run(LoadFlow, plan[LoadFlow]);
      ghost var f2 := flows;
      assert f2 == UpdateAt(f1, LoadFlow, run);
      Run(InverterBatteryFlow, plan[InverterBatteryFlow]);
      ghost var f3 := flows;
      assert f3 == UpdateAt(f2, InverterBatteryFlow, run);
      Run(DcInFlow, plan[DcInFlow]);
      ghost var f4 := flows;
      assert f4 == UpdateAt(f3, DcInFlow, run);
      Run(DcOutFlow, plan[DcOutFlow]);
      assert flows == UpdateAt(f4, DcOutFlow, run);
      EveryConnectorUpdated(f0, f1, f2, f3, f4, flows, run);
    }

    /**
      `_updateNode`'s visibility half: set or clear the node's `hidden`
      class; for the battery, then report whether filling its charge-state
      line throws.
    */
    method UpdateNode(s: Section, env: Env) returns (threw: bool)
      modifies this`hiddenNodes
      ensures hiddenNodes == Toggle(old(hiddenNodes), NodeOf(s), NodeShown(config, s))
      ensures NodeOf(s) in hiddenNodes <==> !NodeShown(config, s)
      ensures forall n :: n != NodeOf(s) ==> (n in hiddenNodes <==> n in old(hiddenNodes))
      ensures threw <==> s == Battery && BatteryUpdateThrows(config, env)
    {
      if NodeShown(config, s) {
        hiddenNodes := hiddenNodes - {NodeOf(s)};
      } else {
        hiddenNodes := hiddenNodes + {NodeOf(s)};
      }
      threw := s == Battery && BatteryUpdateThrows(config, env);
    }

    /**
      `updateValues`: nothing before the first snapshot; then every node,
      then every connector. A throw from the battery node ends the update
      there (`threw`): the DC node and the connectors keep their state.
    */
    method UpdateValues(layout: Layout, env: Env) returns (threw: bool)
      requires Valid()
      modifies this`wires, this`flows, this`primedDefaults, this`hiddenNodes
      ensures Valid()
      ensures threw <==> BatteryUpdateThrows(config, env)
      ensures env.hass.None? ==>
        wires == old(wires) && flows == old(flows) && primedDefaults == old(primedDefaults) && hiddenNodes == old(hiddenNodes)
      ensures threw ==>
        && wires == old(wires) && flows == old(flows) && primedDefaults == old(primedDefaults)
        && (DcNode in hiddenNodes <==> DcNode in old(hiddenNodes))
        && (forall s: Section :: s != Dc ==> (NodeOf(s) in hiddenNodes <==> !NodeShown(config, s)))
      ensures env.hass.Some? && !threw ==> hiddenNodes == HiddenNodes(config)
      ensures env.hass.Some? && !threw && layout.gridWidth != 0.0 && layout.gridHeight != 0.0 ==>
        var prepared := if old(wires).Some? then old(flows) else FreshFlows(config, old(primedDefaults));
        flows == ApplyPlan(prepared, config, env, Visibility(layout, HiddenNodes(config)))
    {
      if env.hass.None? {
        return false;
      }
      ghost var before := hiddenNodes;
      var ignored := UpdateNode(AcInput, env);
      ignored := UpdateNode(AcOutput, env);
      ignored := UpdateNode(InverterCharger, env);
      threw := UpdateNode(Battery, env);
      if threw {
        UpdatesUpToBattery(config, before);
        return;
      }
      ignored := UpdateNode(Dc, env);
      UpdatesGiveHiddenNodes(config, before);
      UpdateFlows(layout, env);
    }
  }
}
