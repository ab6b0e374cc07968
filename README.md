# Enhanced Power Flow Card — a Dafny model

The Enhanced Power Flow Card is a Home Assistant Lovelace card. It draws five
nodes: AC input (grid), inverter-charger, AC output (loads), battery and DC
system. Five SVG connectors join them, and each carries an animated marker.
Readings come from Home Assistant entities or templates. From them the card
decides three things for each connector: whether it is drawn, greyed out or
animated; its direction and colour; and how fast the marker runs. The card
also has a visual editor that reads and writes the card's configuration
through dotted paths.

This project models five parts of the card's script and proves properties
of each:

- **Connector geometry** (`geometry.dfy`, module `Geometry`):
  - the anchor points on the node boxes;
  - the rounded-L path between two anchors;
  - the straight battery-to-DC line;
  - the five wires that redrawing the paths produces.
- **Per-connector flow state** (`flows.dfy`, module `Flows`):
  - a `ConnectorState` record. It holds what the DOM keeps for one connector: display, `active`/`inactive` classes, inline colours, marker opacity, animation duration and key points;
  - the setters `_showFlow`, `_hideFlow`, `_setFlowDormant` and `_setFlowState`;
  - the command that `_updateFlows` issues to each connector. This covers the direction from the inverter mode, the DC gates, the colours and the ranges.
- **The card object** (`card.dfy`, module `PowerFlowCard`): a class `Card`. Its fields hold:
  - the drawn wires;
  - the map of connector states;
  - the set of hidden nodes;
  - the "defaults primed" flag.

  Its methods update these fields in place, as `_createDynamicPaths`,
  `_ensurePathsReady`, `_primeInitialDefaults`, `_updateFlows`, `_updateNode`
  and `updateValues` do.
- **Value and string resolution** (`resolution.dfy`, module `Resolution`):
  - entity readings with `positive`, rounded as `toFixed(0)` rounds;
  - consumed power;
  - secondary and tertiary display values from a literal, a template, an entity id or an `{entity: ..}` object;
  - units;
  - `_coerceBoolean`, `_looksLikeEntityId` and the visibility templates;
  - the battery flow-state text;
  - which nodes are shown.
- **The editor** (`editor.dfy`, module `Editor`): a class `ConfigEditor` over a JSON configuration object (`json.dfy`), with three operations, and the colour inputs' `_flowPathColorInputValue`:
  - `_getValueFromConfig`, a loop;
  - `_set`, which descends a copy, creates objects on the way, throws on `null`, and rebuilds the copy;
  - `_ensureDefaults`, whose loops fill the sections, the scalar settings and the flow colours.

The host is a parameter `Resolution.Env`. It holds:

- the entity states Home Assistant has sent, or none before the first update;
- the template evaluator;
- `parseFloat`;
- the way a number is printed.

The template evaluator, `parseFloat` and number printing are left
uninterpreted. The node layout (`offsetLeft` and the rest) is a parameter
`Geometry.Layout`.

`wrappers.dfy` holds `Option` and `Outcome`. `Outcome` models a call that
returns or throws a `TypeError`. `text.dfy` holds the string operations the
script uses: `trim`, `toLowerCase`, `includes`, `split` and `join`, with
`JoinSplit` and `SplitJoin` proved.

## Model

| member | source | states |
|---|---|---|
| `Geometry.ContainerPoint` | enhanced-power-flow-card.js:1289-1316 | A missing node gives the origin. Each named anchor lies on the named edge at the named height. An unknown name gives the top-left corner. Every anchor lies within its box. |
| `Geometry.TwoThirdsUpAboveOneThirdUp` | enhanced-power-flow-card.js:1305-1312 | On the left and on the right side of a box, the "two-thirds-up" anchor is never below the middle, and the middle is never below the "one-third-up" anchor. |
| `Geometry.CornerRadius` | enhanced-power-flow-card.js:1332 | The corner radius is the least of the configured radius and the two leg lengths. |
| `Geometry.CreatePath` | enhanced-power-flow-card.js:1318-1353 | The path is straight exactly when the points are within 0.1 in x or in y. Otherwise it is `M L Q L`: axis-parallel legs with the control point at the L's corner, entered and left at the corner radius. |
| `Geometry.CreatePathStaysBetween` | enhanced-power-flow-card.js:1318-1353 | With a non-negative radius, no point of the path, control point included, leaves the rectangle spanned by the two anchors. |
| `Geometry.Route` | enhanced-power-flow-card.js:1371-1390 | Each connector joins the anchors the card chooses for it. Battery to DC (`path5`) is always straight; the other four use `_createPath`. |
| `Geometry.ConnectorPaths` | enhanced-power-flow-card.js:1355-1390 | No geometry exactly while a grid dimension is 0. Otherwise every connector has its route. |
| `Geometry.StackedConnectors` | enhanced-power-flow-card.js:1377-1384 | On the battery's right edge and on the DC node's left edge, the inverter's connector arrives at the same x as the battery-to-DC line, and never below it. |
| `Resolution.LooksLikeEntityId` | enhanced-power-flow-card.js:1469-1474 | True exactly for a string whose trimmed form is two non-empty runs of `[a-zA-Z0-9_]` joined by one dot. Such a string has exactly one dot. |
| `Resolution.EntityIdShapeAtFirstDot` | enhanced-power-flow-card.js:1472-1473 | The regular expression and the two-piece split agree: a match is a word run, the first dot, then a word run. A match has exactly one dot. |
| `Resolution.DisplayValue` | enhanced-power-flow-card.js:1476-1511 | The result is `''` for a falsy section or for a missing, null or array setting. A boolean or number is returned as it is. An object resolves through its entity. A string resolves by the string rule. |
| `Resolution.ObjectFormValue` | enhanced-power-flow-card.js:1481-1490 | Always a string: `''` or the state of an entity in the snapshot. Without a snapshot, or with no id, it is `''`. A string `entity` is the id whenever present, even empty; `entity_id` is used only when `entity` is not a string. |
| `Resolution.ObjectFormIgnoresTemplates` | enhanced-power-flow-card.js:1481-1490 | A setting in object form never reaches the template evaluator: replacing the evaluator leaves the value unchanged, and the value is `''` or some entity's state. |
| `Resolution.StringFormValue` | enhanced-power-flow-card.js:1492-1508 | In priority order: blank gives `''`; a `{{`/`{%` text is evaluated against the section's entity; a known entity id gives its state; anything else gives the trimmed text. |
| `Resolution.LiteralResolutionIsStable` | enhanced-power-flow-card.js:1492-1508 | A literal resolves to its trimmed form, and resolving that again changes nothing. |
| `Resolution.SecondaryDisplayValue` | enhanced-power-flow-card.js:1476-1511 | A string `secondary` setting resolves by the string rule. Any result that is not a string is the setting itself. |
| `Resolution.TertiaryDisplayValue` | enhanced-power-flow-card.js:1513-1548 | The same for `tertiary`. |
| `Resolution.FormatWithUnit` | enhanced-power-flow-card.js:1550-1553 | `''` for a missing, null or empty value. Otherwise the result starts with the value's text, and is longer than it exactly when the unit is truthy, in which case `' ' + unit` follows. |
| `Resolution.WordListsDisjoint` | enhanced-power-flow-card.js:1582-1583 | No word reads both as true and as false, and the empty word is on neither list. |
| `Resolution.WordValue` | enhanced-power-flow-card.js:1581-1584 | A normalised word is true exactly when it is on the true list, false exactly when it is on the false list, and undecided otherwise; the empty word is undecided. |
| `Resolution.CoerceBoolean` | enhanced-power-flow-card.js:1576-1585 | Missing and null give no answer, booleans are kept, and numbers read as `!= 0`. Any other value is true exactly when its trimmed lower-cased text is on the true list, false exactly when it is on the false list, and undecided otherwise. |
| `Resolution.NormaliseIdempotent` | enhanced-power-flow-card.js:1580 | Trimming and lower-casing a second time changes nothing. |
| `Resolution.CoerceString` | enhanced-power-flow-card.js:1576-1585 | A string is read by its trimmed lower-cased word. |
| `Resolution.CoerceBooleanNormalises` | enhanced-power-flow-card.js:1580 | A state string is read regardless of case and surrounding white space. |
| `Resolution.EvaluateVisibilityTemplate` | enhanced-power-flow-card.js:1563-1574 | Missing, null or blank give no answer. A template is coerced from its evaluation. An entity id is coerced from its state, with no answer for an unknown entity. Any other text is coerced as it is. |
| `Resolution.ApplyValueTransforms` | enhanced-power-flow-card.js:916-921 | The reading keeps its magnitude. With `positive: true` it is non-negative; without, it is unchanged. |
| `Resolution.ApplyValueTransformsIdempotent` | enhanced-power-flow-card.js:916-921 | Applying the transforms twice is the same as once. |
| `Resolution.EntityValueNumber` | enhanced-power-flow-card.js:877-897 | No reading without a section, an entity or a snapshot. A template entity is evaluated and parsed. Any other string entity needs a known state that parses. A truthy non-string entity reads 0. With `positive` the reading is non-negative. |
| `Resolution.Round` | enhanced-power-flow-card.js:874 | `toFixed(0)`: within 0.5 of the input, with halves rounded away from zero. |
| `Resolution.Reading` | enhanced-power-flow-card.js:1969-1971 | `parseFloat(_getEntityValue(..)) \|\| 0`: 0 without a reading, otherwise the rounded reading, within 0.5 of it. |
| `Resolution.ReadingIsZeroOrWhole` | enhanced-power-flow-card.js:871-875 | A rounded reading is 0 or at least 1 in magnitude. It is never strictly inside the 0.05 activity threshold. |
| `Resolution.PowerEntityValue` | enhanced-power-flow-card.js:923-930 | A value exactly when `power_entity` is truthy, a snapshot exists, and the entity's state is known and parses. The value is then the transformed parse. |
| `Resolution.EntityConfig` | enhanced-power-flow-card.js:866-869 | A section exists exactly when `entities` is an object holding the key. |
| `Resolution.CalculateConsumedPower` | enhanced-power-flow-card.js:905-914 | A value exactly when a snapshot exists, both AC sections are truthy and both read. Then output plus consumption equals input. |
| `Resolution.ConsumedPowerNeedsBothEntities` | enhanced-power-flow-card.js:899-914 | Consumed power is only ever calculated when `_canCalculateConsumedPower` holds. |
| `Resolution.ConsumedPowerFollowsAcNodes` | enhanced-power-flow-card.js:899-903 | `_canCalculateConsumedPower` holds exactly when both the AC input and the AC output nodes are shown. |
| `Resolution.FlowStateRaw` | enhanced-power-flow-card.js:958-974 | No text without the setting or a snapshot. A truthy setting that is not a string throws at `.trim()`, and only such a setting throws. |
| `Resolution.BatteryFlowStateDisplay` | enhanced-power-flow-card.js:957-988 | It throws exactly when the lookup throws, and shows `''` without text. `on`/`true` show Charging and `off`/`false` show Discharging. A number shows Charging exactly when it is at least 0.5. Other text is shown trimmed and capitalised. |
| `Resolution.BatteryFlowStateFreeText` | enhanced-power-flow-card.js:985-987 | Free text keeps its trimmed length and is empty exactly when it was all white space. Only the first letter is upper-cased. |
| `Resolution.NodeShown` | enhanced-power-flow-card.js:1664-1698 | A node needs its section. The battery shows exactly with an energy or power entity. The inverter shows exactly with an entity, computable consumption, or a secondary/tertiary setting. Every other node shows exactly with its entity. |
| `Flows.Show` | enhanced-power-flow-card.js:2276-2283 | Path, marker and endpoints are displayed and nothing else changes. The marker is then visible exactly when its opacity and class allow it. |
| `Flows.Hide` | enhanced-power-flow-card.js:2256-2274 | Path, marker and endpoints are hidden, the path and marker lose `active` and the endpoints are no longer marked active. Colours, fill, duration and key points are kept. The marker stays invisible even when displayed again, because its opacity is 0. |
| `Flows.SetDormant` | enhanced-power-flow-card.js:2233-2254 | The path is visible, inactive and grey with no marker. The endpoints are displayed, inactive and filled grey. The marker's colour and opacity, the duration and the key points are kept. |
| `Flows.Neutral` | enhanced-power-flow-card.js:2043-2057 | The path is visible, inactive and grey with no marker. The endpoints, their colour and fill, the marker colour, the duration and the key points are kept. |
| `Flows.IsReversed` | enhanced-power-flow-card.js:1439-1443 | Reversed exactly when "below -0.05" differs from `invert: true`. |
| `Flows.InvertSwapsDirection` | enhanced-power-flow-card.js:1439-1443 | `invert: true` turns the direction round for every reading. Without it, a reading at or above -0.05 never runs backwards. |
| `Flows.ColorSetting` | enhanced-power-flow-card.js:1447-1448 | A colour setting is used exactly when it is truthy, and a string setting is used as written. |
| `Flows.FlowColor` | enhanced-power-flow-card.js:1445-1450 | A negative reading takes `color_negative` and any other reading `color_positive`, each when set, else the key's default for that sign. |
| `Flows.OverrideColor` | enhanced-power-flow-card.js:1452-1457 | An override exists exactly when the connector's `flow_colors` entry and its colour for the sign are both truthy; a string colour is used as written. Without `flow_colors` there is none. |
| `Flows.FlowColorBySign` | enhanced-power-flow-card.js:1445-1450 | Only the sign of the reading selects the colour, and zero counts as positive. |
| `Flows.FlowColorUnknownKey` | enhanced-power-flow-card.js:1446 | A key missing from `FLOW_COLOR_DEFAULTS` uses the AC input's pair. |
| `Flows.MaxPower` | enhanced-power-flow-card.js:2196 | The range used is never below 0.001. |
| `Flows.TargetDuration` | enhanced-power-flow-card.js:2196-2200 | The target is always between 1.5 s and 5 s. It is 1.5 s at or beyond full range, and otherwise falls linearly from 5 s. |
| `Flows.TargetDurationMonotone` | enhanced-power-flow-card.js:2196-2200 | A stronger reading never gives a slower animation. |
| `Flows.NewDuration` | enhanced-power-flow-card.js:2202-2207 | The stored time moves to the target only when more than 0.3 s off. Afterwards it is always within 0.3 s of the target and stays in the band. |
| `Flows.SetFlowStateAsWritten` | enhanced-power-flow-card.js:2120-2231 | Everything is displayed. Path and marker count as active exactly above 0.05 in magnitude. When active: endpoints marked active, the colour applied to path, marker and endpoints when given, the animation retimed and its direction set. When inactive: classes inactive, with timing, direction and stroke kept. The endpoint circles' inline fill is never touched. |
| `Flows.SetFlowState` | enhanced-power-flow-card.js:2137-2149 | The corrected setter: identical to the code as written except that an active connector's endpoint fill is cleared. |
| `Flows.StaleEndpointFill` | enhanced-power-flow-card.js:2233-2248 | As written, a dormant connector that becomes active keeps the grey inline fill on its endpoint circles, although they are given the new colour. |
| `Flows.ActiveEndpointsFollowColour` | enhanced-power-flow-card.js:2137-2149 | With the correction, an active connector's endpoints carry its colour whatever came before. |
| `Flows.BatteryValue` | enhanced-power-flow-card.js:1973-1981 | 0 without a battery entity. With a power entity it is that entity's reading, or 0; otherwise it is the rounded energy reading. |
| `Flows.ModeDirection` | enhanced-power-flow-card.js:2015-2022 | `bulk`, `absorption` and `float` give +1 exactly; `inverting`, `assisting` and `power supply` give -1 exactly; anything else gives 0. |
| `Flows.InverterMode` | enhanced-power-flow-card.js:2012-2013 | The mode is already trimmed and lower-cased, and it is `''` when the tertiary value is not a string. |
| `Flows.ModeDirectionNormalises` | enhanced-power-flow-card.js:2013-2014 | The mode is read regardless of case and surrounding white space. |
| `Flows.InverterDirection` | enhanced-power-flow-card.js:2023-2026 | `battery.invert` negates the mode direction, and it is zero exactly when the mode gives none. |
| `Flows.InverterBatteryColor` | enhanced-power-flow-card.js:2028-2039 | In priority order: the `flow_colors.inverter_battery` override, then the inverter's legacy pair when both halves are set, then the battery's colour for the mode's sign. |
| `Flows.DcMagnitude` | enhanced-power-flow-card.js:2083-2088 | The largest of 1 and the DC, battery and inverter magnitudes: at least each of them, and equal to one of them. |
| `Flows.ApplyOutcome` | enhanced-power-flow-card.js:2233-2283 | Hide leaves nothing visible. Dormant and neutral leave a grey, markerless, inactive path, and dormant also greys the endpoints. Animate is active, with a visible marker, exactly above the threshold, and then runs in the commanded direction. Every command keeps the duration in band. |
| `Flows.ApplyIdempotent` | enhanced-power-flow-card.js:2196-2209 | Issuing a command twice is the same as once: the 0.3 s tolerance absorbs the retiming. |
| `Flows.AcCommand` | enhanced-power-flow-card.js:1994-2011 | Hidden exactly without an entity. Otherwise animated with the rounded reading, a colour and a 5000 W range. |
| `Flows.InverterBatteryCommand` | enhanced-power-flow-card.js:2041-2063 | Hidden exactly without a battery entity, neutral exactly when it has one and the mode gives no direction, and never dormant. An animated line has a positive speed, runs backwards exactly when the direction is negative, and has a colour and a 1800 W range. |
| `Flows.DcInCommand` | enhanced-power-flow-card.js:2092-2105 | Hidden exactly when the DC or inverter node is not visible. Dormant exactly when both are visible and the gate is closed. Never neutral. An animated line runs at the DC speed, with a colour and a 1000 W range. |
| `Flows.DcOutCommand` | enhanced-power-flow-card.js:2107-2116 | Hidden exactly when the DC or battery node is not visible or there is no battery entity. Otherwise dormant exactly when the gate is closed. Never neutral. An animated line runs at the DC speed, with a colour and a 360 W range. |
| `Flows.AcConnector` | enhanced-power-flow-card.js:1994-2011 | An AC connector is hidden exactly without an entity. Otherwise it is animated with its reading, direction and sign colour over 5000 W, and is active exactly when the rounded reading is not 0. |
| `Flows.InverterBatteryConnector` | enhanced-power-flow-card.js:2041-2063 | Hidden exactly without a battery entity. Grey and still exactly when the mode gives no direction. Otherwise it runs backwards exactly for inverter modes (swapped by `battery.invert`), in the mode's colour, over 1800 W. |
| `Flows.InverterBatteryAnimatesWithoutPowerEntity` | enhanced-power-flow-card.js:2060 | With an energy reading and a directed mode the connector always animates: a zero reading still runs at 0.5. |
| `Flows.DcConnectorsFollowDcNode` | enhanced-power-flow-card.js:2092-2094 | Both DC connectors are hidden while the DC node is not visible. |
| `Flows.DcInputsOf` | enhanced-power-flow-card.js:2077-2088 | The DC reading, the speed of a gated DC line (at least 1) and the two `dc_flow_template` gates, read before any DC command is issued. |
| `Flows.DcInGate` | enhanced-power-flow-card.js:2089-2105 | For any DC inputs with a speed of at least 1 and both nodes visible, the inverter-to-DC line is dormant exactly when its gate is closed. An open gate always animates it, in the DC direction swapped by `dc.invert`, in the `inverter_dc` override or the DC colour. |
| `Flows.DcOutShown` | enhanced-power-flow-card.js:2107-2108 | The battery-to-DC line is hidden exactly when the DC node or the battery node is not visible, or there is no battery entity. |
| `Flows.DcOutGate` | enhanced-power-flow-card.js:2107-2116 | For any DC inputs with a speed of at least 1, once shown the battery-to-DC line is dormant exactly when its gate is closed. An open gate always animates it, in the DC direction swapped by `invert_to_battery`, in the `battery_dc` override or the DC colour, over 360 W. |
| `PowerFlowCard.FreshFlows` | enhanced-power-flow-card.js:1392-1422 | Redrawn connectors start inactive with a 3 s animation. They are primed with a reading of 1 unless already primed or `show_defaults` is false. |
| `PowerFlowCard.ApplyPlanIdempotent` | enhanced-power-flow-card.js:1955-2118 | A second `_updateFlows` on the same snapshot and visibility changes nothing. |
| `PowerFlowCard.HiddenNodes` | enhanced-power-flow-card.js:1655-1659 | A node is hidden after `updateValues` exactly when its section does not show it. |
| `PowerFlowCard.Card.ShowFlow` | enhanced-power-flow-card.js:2276-2283 | Only the named connector, when drawn, is displayed; the rest of the state is kept. |
| `PowerFlowCard.Card.HideFlow` | enhanced-power-flow-card.js:2256-2274 | Only the named connector changes. It is hidden, with no visible marker. |
| `PowerFlowCard.Card.SetFlowDormant` | enhanced-power-flow-card.js:2233-2254 | Only the named connector changes. It is greyed out. |
| `PowerFlowCard.Card.SetFlowNeutral` | enhanced-power-flow-card.js:2043-2057 | Only the named connector changes. It gets the inline neutral look `_updateFlows` gives a directionless inverter-battery line: greyed out. |
| `PowerFlowCard.Card.SetFlowState` | enhanced-power-flow-card.js:2120-2231 | Only the named connector changes. It is active exactly above 0.05 in magnitude. |
| `PowerFlowCard.Card.Run` | enhanced-power-flow-card.js:1999-2116 | A connector's branch of `_updateFlows` leaves it as its command does and touches no other connector. |
| `PowerFlowCard.Card.RunPlan` | enhanced-power-flow-card.js:1999-2116 | The five branches together apply each connector's own command. |
| `PowerFlowCard.Card.PrimeInitialDefaults` | enhanced-power-flow-card.js:2332-2357 | Nothing changes when `show_defaults` is false. Otherwise every connector is animated with a reading of 1 and no colour. |
| `PowerFlowCard.Card.CreateDynamicPaths` | enhanced-power-flow-card.js:1355-1423 | Nothing changes while the grid has no size. Otherwise the wires are the layout's routes, every connector is reset (and primed once), and the flag records the priming. |
| `PowerFlowCard.Card.EnsurePathsReady` | enhanced-power-flow-card.js:1425-1437 | Ready exactly when the grid has a size. The paths are drawn only if they did not exist. |
| `PowerFlowCard.Card.UpdateFlows` | enhanced-power-flow-card.js:1955-2118 | Nothing changes while the grid has no size. Otherwise every connector, drawn first if needed, receives the command computed from the same readings and the current node visibility. |
| `PowerFlowCard.UpdatesGiveHiddenNodes` | enhanced-power-flow-card.js:1655-1659 | Updating the five nodes in turn leaves hidden exactly the nodes whose section does not show them, whatever was hidden before. |
| `PowerFlowCard.UpdatesUpToBattery` | enhanced-power-flow-card.js:1655-1658 | Stopping after the battery node leaves the DC node as it was and every other node as its section says. |
| `PowerFlowCard.BatteryUpdateThrowsIff` | enhanced-power-flow-card.js:957-960 | The battery update throws exactly when the node is shown and `_getBatteryFlowStateDisplay` throws at `.trim()`. |
| `PowerFlowCard.Card.UpdateNode` | enhanced-power-flow-card.js:1664-1700 | The node's `hidden` class is cleared exactly when its section shows it, and no other node's class changes. It reports a throw exactly for the battery node when filling its charge-state line throws. |
| `PowerFlowCard.Card.UpdateValues` | enhanced-power-flow-card.js:1647-1662 | Nothing changes before the first snapshot. It throws exactly when the battery node's update throws; then the four nodes before the DC node follow their sections, and the DC node and the connectors are untouched. Otherwise the hidden nodes are those no section shows, and the connectors follow the plan for that visibility. |
| `Editor.LookupBelowLeaf` | enhanced-power-flow-card.js:565-574 | Below a missing value, a primitive, an array or an empty object, a non-empty path reads `undefined`. |
| `Editor.LookupPathConcat` | enhanced-power-flow-card.js:565-574 | Reading a path in two pieces is reading it in one: what the first piece reads is the start of the second. |
| `Editor.ValueAt` | enhanced-power-flow-card.js:565-574 | The empty path reads `undefined`, and a path without dots reads that key of the configuration. |
| `Editor.Descend` | enhanced-power-flow-card.js:580-584 | `_set` descends into an object. A missing value or a primitive becomes `{}`. `null` throws, and only `null` does. |
| `Editor.Assign` | enhanced-power-flow-card.js:585-586 | `undefined` deletes the key; any other value is stored under it. No other key changes. |
| `Editor.SetIn` | enhanced-power-flow-card.js:576-589 | Only the first key of the path changes at the root. When the path is longer than one key, that key then holds an object. |
| `Editor.SetAt` | enhanced-power-flow-card.js:576-589 | A path without dots never throws, and stores or deletes that key of the configuration. |
| `Editor.SetInFreshReturns` | enhanced-power-flow-card.js:580-584 | Writing below a freshly created object never throws. |
| `Editor.SetThenGet` | enhanced-power-flow-card.js:565-589 | After a successful write, reading the same path gives the value written, `undefined` included. |
| `Editor.SetKeepsDivergingPaths` | enhanced-power-flow-card.js:576-589 | A write changes nothing that a path leaving the written path reads. |
| `Editor.SetThrowsIff` | enhanced-power-flow-card.js:580-584 | `_set` throws exactly when some proper prefix of the path reads `null`. |
| `Editor.SetThenRead` | enhanced-power-flow-card.js:565-589 | For the editor's own string paths, a value written is the value read back. |
| `Editor.ThrowsAlongSpine` | enhanced-power-flow-card.js:580-584 | A descent that meets `null` at any depth makes the whole write throw. |
| `Editor.FillKeysShape` | enhanced-power-flow-card.js:58-65 | Every listed key holds an object afterwards. Existing objects and all other keys are kept, and an already complete object is unchanged. |
| `Editor.FillSection` | enhanced-power-flow-card.js:58-65 | The section and each listed sub-section exist afterwards. Other top-level keys, existing sub-sections and unlisted entries are kept, and a filled section is unchanged. |
| `Editor.SetAllAbsentShape` | enhanced-power-flow-card.js:67-76 | Every key of a defaults table is defined afterwards. Defined settings keep their value and no other key appears. |
| `Editor.KeyTablesDisjoint` | enhanced-power-flow-card.js:67-76 | `shape`, `entities` and `flow_colors` are none of the scalar defaults. |
| `Editor.DefaultShape` | enhanced-power-flow-card.js:72 | `shape` is truthy afterwards, a truthy shape is kept, and nothing else changes. |
| `Editor.ScalarDefaults` | enhanced-power-flow-card.js:67-76 | All nine scalar settings are defined and `shape` is truthy. Every defined setting is kept, except a falsy `shape`, and nothing else appears. |
| `Editor.BatteryUnit` | enhanced-power-flow-card.js:77 | The battery section gets `power_unit` when it has none, and every setting it had is kept. The other sections, the other top-level settings and every nested setting are kept. |
| `Editor.FlowDefaultsTable` | enhanced-power-flow-card.js:78-82 | The fill table lists the three connector keys, each with the pair the colour inputs fall back on. |
| `Editor.FillColoursOne` | enhanced-power-flow-card.js:84-86 | One connector gets both colours. The colours it had are kept and nothing else changes. |
| `Editor.FillColoursForShape` | enhanced-power-flow-card.js:83-87 | Every connector of the table gets both colours. Existing colours and other connectors are kept, and a complete table is unchanged. |
| `Editor.PathColours` | enhanced-power-flow-card.js:78-87 | Both colours of the three connectors are defined. Every connector entry and every colour it held is kept, everything else is unchanged, and already complete colours are unchanged. |
| `Editor.FillSections` | enhanced-power-flow-card.js:57-65 | `entities` holds the five sections and `flow_colors` the three connectors. No other top-level key changes, and every existing entry and every setting inside an existing object entry is kept. |
| `Editor.EnsureDefaultsShape` | enhanced-power-flow-card.js:56-65 | After `_ensureDefaults`, the sub-objects every editor section reads exist. |
| `Editor.EnsureDefaultsInitial` | enhanced-power-flow-card.js:66-88 | An initial pass defines every scalar setting, a truthy `shape`, the battery power unit and both colours of the three connectors. |
| `Editor.EnsureDefaultsKeeps` | enhanced-power-flow-card.js:56-89 | Settings outside `entities` and `flow_colors` are kept (a falsy `shape` excepted on the initial pass). Inside those two sections no entry is lost, an entry not on the section's key list is unchanged, and every setting of an existing object entry, such as a section's `entity`, is kept. |
| `Editor.EnsureDefaultsIdempotent` | enhanced-power-flow-card.js:34-54 | A non-initial pass over a configuration the editor already normalised changes nothing, so `setConfig` finds it equal and skips the render. A second initial pass after an initial one changes nothing either. |
| `Editor.ColorInputMatchesCard` | enhanced-power-flow-card.js:373-383 | A connector's colour input shows the value whose text the card paints as its override, and the table colour when the card finds no override. |
| `Editor.FlowPathColorInputValue` | enhanced-power-flow-card.js:373-383 | For the `positive` and `negative` inputs the editor draws, the value is always truthy. A truthy override colour is shown as it is. Without one, a shown text is one of the table colours. |
| `Editor.ConfigEditor.GetValueFromConfig` | enhanced-power-flow-card.js:565-574 | The loop returns what the path reads: `undefined` for the empty path or past `null`/`undefined`. |
| `Editor.ConfigEditor.Set` | enhanced-power-flow-card.js:576-589 | The descent-and-rebuild reports a throw exactly when the write throws. The configuration becomes the written copy, or stays as it was on a throw. |
| `Editor.ConfigEditor.EnsureDefaults` | enhanced-power-flow-card.js:56-89 | The in-place fills leave the configuration as `_ensureDefaults` defines it, for both kinds of pass. |
| `Editor.ConfigEditor.FillColoursInPlace` | enhanced-power-flow-card.js:83-87 | The loop over the colour table leaves `flow_colors` as the table fill defines it. |
| `Editor.ConfigEditor.FillSectionInPlace` | enhanced-power-flow-card.js:58-65 | The loop over the section keys leaves the configuration as the section fill defines it. |

## Left out

- Markup, styles and the DOM are not modelled: `render`, `_createFlowShape`, `_createEndpointCircles`, the card's CSS (including the `!important` stroke on `.flow.inactive`, which the cascade lets win over the inline grey), font sizing, and node text, icons and desaturation. Only a node's visibility is modelled, through its `hidden` class.
- Timers and frames are not modelled: the `requestAnimationFrame`/`setTimeout` retries of `_createDynamicPaths` and `_updateFlows`, and the 500 ms marker fade after an inactive `_setFlowState`. The model keeps the marker's `active` class until the next command.
- Glow filters (`filter: drop-shadow(..)`), the rgb/hex colour parsing behind them, and stroke width are not modelled.
- Template evaluation (`_evaluateTemplate`, `_convertPythonConditional`) is not modelled: it is the uninterpreted `Env.evalTemplate`, assumed to return a string.
- `parseFloat`, `Number` and number printing are the uninterpreted `Env.parseFloat` and `Env.show`. Readings are reals: NaN, infinities and floating-point rounding are not modelled.
- `Resolution.Round`: does not model floating-point ties. `toFixed(0)` is taken as the exact round-half-away-from-zero of a real.
- `_getBatteryChargeState` and `_enforcePositiveNumberString` are not modelled. They only feed node text and editor inputs.
- Case conversion (`toLowerCase` in `Text.ToLower`, `toUpperCase` in `Text.Capitalize`) covers ASCII letters only.
- Card `setConfig`, `_applyConfigValues` and the "You need to define entities" check are not modelled. The configuration and the corner radius are constructor parameters of `PowerFlowCard.Card`.
- The editor's `setConfig`, `set hass`, the deep copy through `JSON.stringify` (modelled as the identity on JSON values), the `config-changed` event and the editor's duplicate helpers (`_formatWithUnit`, `_looksLikeEntityId`, `_getSecondaryDisplayValue`, `_getTertiaryDisplayValue`) are not modelled separately. The duplicates behave like the card's.
- The bootstrap block's `getStubConfig`, its `render` wrapper, and the node texts `_primeInitialDefaults` writes are not modelled. Only the five `_setFlowState` calls in `_primeInitialDefaults` are.
- `PowerFlowCard.Card.CreateDynamicPaths`: assumes the `flow-svg` and `grid` elements exist, as they do after `render`, and that drawing the paths always creates their elements.
- `Editor.Descend`: an array met on the way down is replaced by `{}`, whereas `_set` keeps it (`typeof [] === 'object'`) and hangs the property on it.
- `Editor.FillSection`: a truthy value that is not an object, under `entities`, `flow_colors` or one of their keys, is replaced by `{}`. The script keeps it: it then throws on a primitive in strict mode, or hangs properties on an array.
- `Editor.LookupBelowLeaf`: property reads on strings and arrays (`length`, indices) give `undefined`, whereas JavaScript gives a value for them.
- `Flows.Apply`: an `Animate` command runs the corrected `_setFlowState` (`Flows.SetFlowState`), which clears the endpoint circles' inline fill. The code as written keeps the grey fill that `_setFlowDormant` (line 2247) left; `Flows.SetFlowStateAsWritten` models that, and the finding below states the difference.
- `PowerFlowCard.Card.SetFlowState`: runs the corrected setter, not the code as written, for the same reason as `Flows.Apply`.
- `PowerFlowCard.Card.Run`: a branch of `_updateFlows` is modelled with the corrected setter, so it does not reproduce the stale endpoint fill.
- `PowerFlowCard.Card.RunPlan`: the same, for all five branches together.
- `PowerFlowCard.Card.UpdateFlows`: the same; its connector states are those with the endpoint fill corrected.
- `PowerFlowCard.Card.UpdateValues`: the same, through the connectors it updates. The node text writes of `_updateNode` are not modelled; only the charge-state throw is.
- `PowerFlowCard.Card.PrimeInitialDefaults`: primes through `PowerFlowCard.Primed`, which uses the corrected setter, for the same reason as `Flows.Apply`.
- `Editor.ValueAt` and `Editor.SetAt` are not aligned on the empty path: `_set('')` writes the key `''`, while `_getValueFromConfig('')` reads `undefined`.

## Findings

| source | as written | input that shows it | evidently intended | confidence | as-written member | corrected member |
|---|---|---|---|---|---|---|
| enhanced-power-flow-card.js:2137-2149 | `_setFlowState` makes a connector active and sets the endpoint circles' `color`, but never clears the inline `fill = '#666666'` that `_setFlowDormant` (line 2247) put on them. | A DC gate that resolves false and then true: `flow-dc-in` is made dormant, then animated with `#27ae60`, and its endpoint circles stay grey. | An active connector's endpoint circles take the connector's colour, as they do when it was never dormant. | not executed | `Flows.StaleEndpointFill` | `Flows.ActiveEndpointsFollowColour` |
