/**
  How the card turns configuration entries into values: entity readings,
  display strings (literal, template, entity id or `{entity: ..}` object),
  units, booleans from free-form states, and which nodes are shown.

  The host is a snapshot `Env`: the entity states Home Assistant has sent
  (none before the first update), the template evaluator, `parseFloat`, and
  the way a number is printed. The evaluator is left uninterpreted.
*/
module Resolution {
  import opened Wrappers
  import opened Json
  import opened Text

  /** Entity id to its `state` string. */
  type States = map<string, string>

  datatype Env = Env(
    hass: Option<States>,
    evalTemplate: (string, Option<Value>) -> string,
    parseFloat: string -> Option<real>,
    show: real -> string)

  /** `this._hass?.states?.[id]?.state`. */
  function StateOf(env: Env, id: string): (r: Option<string>)
    ensures r.Some? <==> env.hass.Some? && id in env.hass.value
    ensures r.Some? ==> r.value == env.hass.value[id]
  {
    if env.hass.Some? && id in env.hass.value then Some(env.hass.value[id]) else None
  }

  /** `String(v)` with the host's number printing. */
  function Stringify(v: Value, env: Env): string {
    ToJsString(v, env.show)
  }

  // ---------------------------------------------------------------- entity ids

  /** A character of the class `[a-zA-Z0-9_]`. */
  predicate IsWordChar(c: char) {
    ('a' <= c <= 'z') || ('A' <= c <= 'Z') || ('0' <= c <= '9') || c == '_'
  }

  /** A non-empty run of word characters. */
  predicate IsWordRun(s: string) {
    |s| > 0 && forall i :: 0 <= i < |s| ==> IsWordChar(s[i])
  }

  /** `domain.object_id`: splitting at the dots gives exactly two word runs. */
  predicate EntityIdShape(t: string) {
    var parts := Split(t, '.');
    |parts| == 2 && IsWordRun(parts[0]) && IsWordRun(parts[1])
  }

  /** `_looksLikeEntityId`: a string whose trimmed form matches `^[a-zA-Z0-9_]+\.[a-zA-Z0-9_]+$`. */
  function LooksLikeEntityId(v: Option<Value>): (r: bool)
    ensures r ==> v.Some? && v.value.Str?
    ensures v.Some? && v.value.Str? ==> (r <==> EntityIdShape(Trim(v.value.s)))
    ensures r ==> multiset(Trim(v.value.s))['.'] == 1
  {
    match v
    case Some(Str(s)) =>
      var t := Trim(s);
      var r := '.' in t && IsWordRun(t[..IndexOf(t, '.')]) && IsWordRun(t[IndexOf(t, '.') + 1..]);
      EntityIdShapeAtFirstDot(t);
      r
    case _ => false
  }

  /** The regular expression and the two-piece split agree; a match has exactly one dot. */
  lemma EntityIdShapeAtFirstDot(t: string)
    ensures EntityIdShape(t) <==>
      '.' in t && IsWordRun(t[..IndexOf(t, '.')]) && IsWordRun(t[IndexOf(t, '.') + 1..])
    ensures EntityIdShape(t) ==> multiset(t)['.'] == 1
  {
    if '.' in t {
      var i := IndexOf(t, '.');
      var head, rest := t[..i], t[i + 1..];
      assert Split(t, '.') == [head] + Split(rest, '.');
      assert t == head + ['.'] + rest;
      if IsWordRun(rest) {
        assert !IsWordChar('.');
        assert Split(rest, '.') == [rest];
      } else if '.' !in rest {
        assert Split(rest, '.') == [rest];
      }
      if EntityIdShape(t) {
        assert '.' !in rest;
        assert multiset(t) == multiset(head) + multiset(['.']) + multiset(rest);
      }
    }
  }

  /** Does the text contain template markers `{{` or `{%`? */
  predicate IsTemplate(t: string) {
    Contains(t, "{{") || Contains(t, "{%")
  }

  // ---------------------------------------------------------------- display values

  /**
    The card's `_getSecondaryDisplayValue` / `_getTertiaryDisplayValue`
    for the setting `field` of an entity section.
  */
  function DisplayValue(config: Option<Value>, field: string, env: Env): (r: Value)
    ensures !Truthy(config) ==> r == Str("")
    ensures var raw := Get(config, field);
      Truthy(config) ==>
        && (raw.None? || raw == Some(Null) || (raw.Some? && raw.value.Arr?) ==> r == Str(""))
        && (raw.Some? && (raw.value.Bool? || raw.value.Num?) ==> r == raw.value)
        && (raw.Some? && raw.value.Obj? ==> r == ObjectFormValue(raw.value, env))
        && (raw.Some? && raw.value.Str? ==> r == Str(StringFormValue(raw.value.s, Get(config, "entity"), env)))
  {
    if !Truthy(config) then Str("")
    else
      match Get(config, field)
      case None => Str("")
      case Some(raw) =>
        match raw
        case Null => Str("")
        case Arr(_) => Str("")
        case Obj(_) => ObjectFormValue(raw, env)
        case Str(s) => Str(StringFormValue(s, Get(config, "entity"), env))
        case _ => raw
  }

  /** The entity named by an `{entity: ..}` / `{entity_id: ..}` setting, `""` when neither is a string. */
  function ObjectEntity(raw: Value): (id: string)
    ensures Get(Some(raw), "entity").Some? && Get(Some(raw), "entity").value.Str? ==>
      id == Get(Some(raw), "entity").value.s
    ensures !(Get(Some(raw), "entity").Some? && Get(Some(raw), "entity").value.Str?) ==>
      id == (if Get(Some(raw), "entity_id").Some? && Get(Some(raw), "entity_id").value.Str?
             then Get(Some(raw), "entity_id").value.s else "")
  {
    match Get(Some(raw), "entity")
    case Some(Str(e)) => e
    case _ =>
      match Get(Some(raw), "entity_id")
      case Some(Str(e)) => e
      case _ => ""
  }

  /** The object form resolves only through the snapshot: the named entity's state, or `""`. */
  function ObjectFormValue(raw: Value, env: Env): (r: Value)
    ensures r.Str?
    ensures r == Str("") || (env.hass.Some? && r.s in env.hass.value.Values)
    ensures env.hass.None? ==> r == Str("")
    ensures var e := Get(Some(raw), "entity");
      e.Some? && e.value.Str? && e.value.s != "" && StateOf(env, e.value.s).Some? ==> r == Str(StateOf(env, e.value.s).value)
    ensures var e, eid := Get(Some(raw), "entity"), Get(Some(raw), "entity_id");
      !(e.Some? && e.value.Str?) && eid.Some? && eid.value.Str? && eid.value.s != "" && StateOf(env, eid.value.s).Some? ==>
        r == Str(StateOf(env, eid.value.s).value)
    ensures ObjectEntity(raw) == "" ==> r == Str("")
  {
    var id := ObjectEntity(raw);
    if id != "" && StateOf(env, id).Some? then Str(StateOf(env, id).value) else Str("")
  }

  /**
    A setting in object form is read only from the snapshot: it shows `""`
    or the state of an entity, whatever the template evaluator would say.
  */
  lemma ObjectFormIgnoresTemplates(config: Option<Value>, field: string, env: Env, g: (string, Option<Value>) -> string)
    requires Truthy(config) && Get(config, field).Some? && Get(config, field).value.Obj?
    ensures DisplayValue(config, field, env) == DisplayValue(config, field, env.(evalTemplate := g))
    ensures var r := DisplayValue(config, field, env);
      r == Str("") || (exists id :: StateOf(env, id) == Some(r.s))
  {
    var raw := Get(config, field).value;
    var r := DisplayValue(config, field, env);
    assert r == ObjectFormValue(raw, env);
    assert ObjectFormValue(raw, env) == ObjectFormValue(raw, env.(evalTemplate := g));
    if r != Str("") {
      var id := ObjectEntity(raw);
      assert StateOf(env, id) == Some(r.s);
    }
  }

  /**
    The string form, in priority order: blank gives `""`; a template is
    evaluated; an entity id known to the snapshot gives its state; anything
    else is the trimmed literal.
  */
  function StringFormValue(s: string, entity: Option<Value>, env: Env): (r: string)
    ensures var t := Trim(s);
      && (t == "" ==> r == "")
      && (t != "" && IsTemplate(t) ==> r == env.evalTemplate(t, entity))
      && (t != "" && !IsTemplate(t) && LooksLikeEntityId(Some(Str(t))) && StateOf(env, t).Some? ==>
            r == StateOf(env, t).value)
      && (t != "" && !IsTemplate(t) && !(LooksLikeEntityId(Some(Str(t))) && StateOf(env, t).Some?) ==>
            r == t)
  {
    var t := Trim(s);
    if t == "" then ""
    else if IsTemplate(t) then env.evalTemplate(t, entity)
    else if LooksLikeEntityId(Some(Str(t))) && StateOf(env, t).Some? then StateOf(env, t).value
    else t
  }

  /** An untrimmed literal resolves to its trimmed text, and resolving that text again changes nothing. */
  lemma LiteralResolutionIsStable(s: string, entity: Option<Value>, env: Env)
    requires !IsTemplate(Trim(s)) && !LooksLikeEntityId(Some(Str(s)))
    ensures StringFormValue(s, entity, env) == Trim(s)
    ensures StringFormValue(StringFormValue(s, entity, env), entity, env) == StringFormValue(s, entity, env)
  {
    var t := Trim(s);
    TrimIdempotent(s);
    assert Trim(t) == t;
    assert LooksLikeEntityId(Some(Str(t))) == LooksLikeEntityId(Some(Str(s)));
    assert StringFormValue(s, entity, env) == t;
    assert StringFormValue(t, entity, env) == t;
  }

  /** `_getSecondaryDisplayValue`. */
  function SecondaryDisplayValue(config: Option<Value>, env: Env): (r: Value)
    ensures Truthy(config) && Get(config, "secondary").Some? && Get(config, "secondary").value.Str? ==>
      r == Str(StringFormValue(Get(config, "secondary").value.s, Get(config, "entity"), env))
    ensures r.Str? || Some(r) == Get(config, "secondary")
  {
    DisplayValue(config, "secondary", env)
  }

  /** `_getTertiaryDisplayValue`. */
  function TertiaryDisplayValue(config: Option<Value>, env: Env): (r: Value)
    ensures Truthy(config) && Get(config, "tertiary").Some? && Get(config, "tertiary").value.Str? ==>
      r == Str(StringFormValue(Get(config, "tertiary").value.s, Get(config, "entity"), env))
    ensures r.Str? || Some(r) == Get(config, "tertiary")
  {
    DisplayValue(config, "tertiary", env)
  }

  /** `_formatWithUnit`: nothing for a missing, null or empty value, otherwise the value and a truthy unit. */
  function FormatWithUnit(value: Option<Value>, unit: Option<Value>, env: Env): (r: string)
    ensures value.None? || value == Some(Null) || value == Some(Str("")) ==> r == ""
    ensures !(value.None? || value == Some(Null) || value == Some(Str(""))) ==>
      && |Stringify(value.value, env)| <= |r|
      && r[..|Stringify(value.value, env)|] == Stringify(value.value, env)
      && (Truthy(unit) <==> |r| > |Stringify(value.value, env)|)
      && (Truthy(unit) ==> r[|Stringify(value.value, env)|..] == " " + Stringify(unit.value, env))
  {
    if value.None? || value == Some(Null) || value == Some(Str("")) then ""
    else
      var text := Stringify(value.value, env);
      if Truthy(unit) then
        var r := text + " " + Stringify(unit.value, env);
        assert r[..|text|] == text;
        r
      else text
  }

  // ---------------------------------------------------------------- booleans

  /** The words `_coerceBoolean` reads as true. */
  const TrueWords: set<string> := {"on", "true", "1", "open", "enabled", "yes", "active", "charging"}

  /** The words `_coerceBoolean` reads as false. */
  const FalseWords: set<string> := {"off", "false", "0", "closed", "disabled", "no", "inactive", "discharging"}

  /** No word is on both lists. */
  lemma WordListsDisjoint()
    ensures TrueWords * FalseWords == {}
    ensures "" !in TrueWords && "" !in FalseWords
  {
  }

  /**
    How `_coerceBoolean` reads a normalised word: blank gives no answer, a
    word of either list its value, any other word no answer.
  */
  function WordValue(word: string): (r: Option<bool>)
    ensures r == Some(true) <==> word in TrueWords
    ensures r == Some(false) <==> word in FalseWords
    ensures r.None? <==> word !in TrueWords && word !in FalseWords
  {
    WordListsDisjoint();
    if word == "" then None
    else if word in TrueWords then Some(true)
    else if word in FalseWords then Some(false)
    else None
  }

  /**
    `_coerceBoolean`: booleans as they are, numbers by `!= 0`, anything else
    by its string form, trimmed and lower-cased, against the two word lists;
    missing, null, blank and unknown words give no answer.
  */
  function CoerceBoolean(v: Option<Value>, env: Env): (r: Option<bool>)
    ensures v.None? || v == Some(Null) ==> r.None?
    ensures v.Some? && v.value.Bool? ==> r == Some(v.value.b)
    ensures v.Some? && v.value.Num? ==> r == Some(v.value.n != 0.0)
    ensures v.Some? && !(v.value.Null? || v.value.Bool? || v.value.Num?) ==>
      var word := ToLower(Trim(Stringify(v.value, env)));
      && (r == Some(true) <==> word in TrueWords)
      && (r == Some(false) <==> word in FalseWords)
      && (r.None? <==> word !in TrueWords && word !in FalseWords)
  {
    match v
    case None => None
    case Some(Null) => None
    case Some(Bool(b)) => Some(b)
    case Some(Num(n)) => Some(n != 0.0)
    case Some(other) => WordValue(ToLower(Trim(Stringify(other, env))))
  }

  lemma LowerCaseKeepsSpaces(c: char)
    ensures IsSpace(LowerChar(c)) <==> IsSpace(c)
  {
  }

  /** Lower-casing a string that has no surrounding white space gives one that has none either. */
  lemma TrimOfLower(t: string)
    requires Trim(t) == t
    ensures Trim(ToLower(t)) == ToLower(t)
  {
    var l := ToLower(t);
    if l != [] {
      assert t != [];
      LowerCaseKeepsSpaces(t[0]);
      LowerCaseKeepsSpaces(t[|t| - 1]);
      assert LeadingSpaces(l) == 0;
      assert TrailingSpaces(l) == 0;
    }
  }

  lemma ToLowerIdempotent(t: string)
    ensures ToLower(ToLower(t)) == ToLower(t)
  {
  }

  /** Trimming and lower-casing a second time changes nothing. */
  lemma NormaliseIdempotent(s: string)
    ensures ToLower(Trim(ToLower(Trim(s)))) == ToLower(Trim(s))
  {
    var t := Trim(s);
    TrimIdempotent(s);
    TrimOfLower(t);
    ToLowerIdempotent(t);
  }

  /** A string is coerced by its normalised word. */
  lemma CoerceString(s: string, env: Env)
    ensures CoerceBoolean(Some(Str(s)), env) == WordValue(ToLower(Trim(s)))
  {
  }

  /** A state string is read case-insensitively and regardless of surrounding white space. */
  lemma {:induction false} CoerceBooleanNormalises(s: string, env: Env)
    ensures CoerceBoolean(Some(Str(s)), env) == CoerceBoolean(Some(Str(ToLower(Trim(s)))), env)
  {
    NormaliseIdempotent(s);
    CoerceString(s, env);
    CoerceString(ToLower(Trim(s)), env);
  }

  /** `_evaluateVisibilityTemplate`: a gate setting resolved to a template result, an entity state or the literal, then read as a boolean. */
  function EvaluateVisibilityTemplate(template: Option<Value>, entity: Option<Value>, env: Env): (r: Option<bool>)
    ensures template.None? || template == Some(Null) ==> r.None?
    ensures template.Some? && template.value != Null ==>
      var t := Trim(Stringify(template.value, env));
      && (t == "" ==> r.None?)
      && (t != "" && IsTemplate(t) ==> r == CoerceBoolean(Some(Str(env.evalTemplate(t, entity))), env))
      && (t != "" && !IsTemplate(t) && LooksLikeEntityId(Some(Str(t))) ==>
            r == if StateOf(env, t).Some? then CoerceBoolean(Some(Str(StateOf(env, t).value)), env) else None)
      && (t != "" && !IsTemplate(t) && !LooksLikeEntityId(Some(Str(t))) ==> r == CoerceBoolean(Some(Str(t)), env))
  {
    match template
    case None => None
    case Some(Null) => None
    case Some(tv) =>
      var t := Trim(Stringify(tv, env));
      if t == "" then None
      else if IsTemplate(t) then CoerceBoolean(Some(Str(env.evalTemplate(t, entity))), env)
      else if LooksLikeEntityId(Some(Str(t))) then
        match StateOf(env, t)
        case None => None
        case Some(state) => CoerceBoolean(Some(Str(state)), env)
      else CoerceBoolean(Some(Str(t)), env)
  }

  // ---------------------------------------------------------------- readings

  /** `_applyValueTransforms`: `positive: true` takes the magnitude, otherwise the reading is kept. */
  function ApplyValueTransforms(config: Option<Value>, v: real): (r: real)
    ensures r == v || r == -v
    ensures IsTrue(Get(config, "positive")) ==> r >= 0.0
    ensures !IsTrue(Get(config, "positive")) ==> r == v
  {
    if IsTrue(Get(config, "positive")) && v < 0.0 then -v else v
  }

  /** Applying the transforms twice is the same as once. */
  lemma ApplyValueTransformsIdempotent(config: Option<Value>, v: real)
    ensures ApplyValueTransforms(config, ApplyValueTransforms(config, v)) == ApplyValueTransforms(config, v)
  {
  }

  /**
    `_getEntityValueNumber`: the reading of a section's `entity`. Nothing
    without a section, an entity or a snapshot; a string containing `{{` is
    evaluated as a template, any other string names an entity that must be in
    the snapshot; the text must parse as a number. An entity setting that is
    truthy but not a string reads as 0.
  */
  function EntityValueNumber(config: Option<Value>, env: Env): (r: Option<real>)
    ensures !Truthy(config) || !Truthy(Get(config, "entity")) || env.hass.None? ==> r.None?
    ensures r.Some? && IsTrue(Get(config, "positive")) ==> r.value >= 0.0
    ensures var e := Get(config, "entity");
      Truthy(config) && Truthy(e) && env.hass.Some? && e.value.Str? && !Contains(e.value.s, "{{") ==>
        (r.Some? <==> StateOf(env, e.value.s).Some? && env.parseFloat(StateOf(env, e.value.s).value).Some?)
        && (r.Some? ==> r.value == ApplyValueTransforms(config, env.parseFloat(StateOf(env, e.value.s).value).value))
    ensures var e := Get(config, "entity");
      Truthy(config) && Truthy(e) && env.hass.Some? && e.value.Str? && Contains(e.value.s, "{{") ==>
        r == match env.parseFloat(env.evalTemplate(e.value.s, Some(Null)))
             case None => None
             case Some(x) => Some(ApplyValueTransforms(config, x))
    ensures var e := Get(config, "entity");
      Truthy(config) && Truthy(e) && env.hass.Some? && !e.value.Str? ==> r == Some(0.0)
  {
    if !Truthy(config) || !Truthy(Get(config, "entity")) || env.hass.None? then None
    else
      var parsed: Option<real> :=
        match Get(config, "entity").value
        case Str(e) =>
          if Contains(e, "{{") then env.parseFloat(env.evalTemplate(e, Some(Null)))
          else if StateOf(env, e).None? then None
          else env.parseFloat(StateOf(env, e).value)
        case _ => Some(0.0);
      match parsed
      case None => None
      case Some(x) => Some(ApplyValueTransforms(config, x))
  }

  /** `toFixed(0)`: the nearest integer, halves rounded away from zero. */
  function Round(x: real): (n: int)
    ensures -0.5 <= n as real - x <= 0.5
    ensures x >= 0.0 ==> n >= 0 && -0.5 < n as real - x
    ensures x < 0.0 ==> n <= 0 && n as real - x < 0.5
  {
    if x >= 0.0 then (x + 0.5).Floor else -((-x + 0.5).Floor)
  }

  /** `parseFloat(this._getEntityValue(config)) || 0`: the rounded reading, 0 when there is none. */
  function Reading(config: Option<Value>, env: Env): (r: real)
    ensures EntityValueNumber(config, env).None? ==> r == 0.0
    ensures EntityValueNumber(config, env).Some? ==>
      r == Round(EntityValueNumber(config, env).value) as real
      && -0.5 <= r - EntityValueNumber(config, env).value <= 0.5
  {
    match EntityValueNumber(config, env)
    case None => 0.0
    case Some(x) => Round(x) as real
  }

  /** A rounded reading is zero or at least 1 in magnitude: it never sits strictly between the activity threshold and 0. */
  lemma ReadingIsZeroOrWhole(config: Option<Value>, env: Env)
    ensures Reading(config, env) == 0.0 || Reading(config, env) >= 1.0 || Reading(config, env) <= -1.0
  {
  }

  /** `_getPowerEntityValue`: the transformed reading of the section's `power_entity`, when it parses. */
  function PowerEntityValue(config: Option<Value>, env: Env): (r: Option<real>)
    ensures !Truthy(Get(config, "power_entity")) || env.hass.None? ==> r.None?
    ensures r.Some? ==>
      var id := Stringify(Get(config, "power_entity").value, env);
      && StateOf(env, id).Some? && env.parseFloat(StateOf(env, id).value).Some?
      && r.value == ApplyValueTransforms(config, env.parseFloat(StateOf(env, id).value).value)
    ensures Truthy(Get(config, "power_entity")) && env.hass.Some? && r.None? ==>
      var id := Stringify(Get(config, "power_entity").value, env);
      StateOf(env, id).None? || env.parseFloat(StateOf(env, id).value).None?
  {
    if !Truthy(Get(config, "power_entity")) || env.hass.None? then None
    else
      var id := Stringify(Get(config, "power_entity").value, env);
      match StateOf(env, id)
      case None => None
      case Some(state) =>
        match env.parseFloat(state)
        case None => None
        case Some(x) => Some(ApplyValueTransforms(config, x))
  }

  /** `this.config.entities[key]`. */
  function EntityConfig(cfg: Value, key: string): (r: Option<Value>)
    ensures r.Some? <==> cfg.Obj? && "entities" in cfg.fields && cfg.fields["entities"].Obj?
                         && key in cfg.fields["entities"].fields
  {
    Get(Get(Some(cfg), "entities"), key)
  }

  /** `_canCalculateConsumedPower`: both AC sections name an entity. */
  function CanCalculateConsumedPower(cfg: Value): (r: bool)
    ensures r <==> Truthy(Get(EntityConfig(cfg, "ac_input"), "entity")) && Truthy(Get(EntityConfig(cfg, "ac_output"), "entity"))
  {
    Truthy(Get(EntityConfig(cfg, "ac_input"), "entity")) && Truthy(Get(EntityConfig(cfg, "ac_output"), "entity"))
  }

  /** `_calculateConsumedPower`: AC input minus AC output, when both readings exist. */
  function CalculateConsumedPower(cfg: Value, env: Env): (r: Option<real>)
    ensures r.Some? <==>
      env.hass.Some? && Truthy(EntityConfig(cfg, "ac_input")) && Truthy(EntityConfig(cfg, "ac_output"))
      && EntityValueNumber(EntityConfig(cfg, "ac_input"), env).Some?
      && EntityValueNumber(EntityConfig(cfg, "ac_output"), env).Some?
    ensures r.Some? ==>
      r.value + EntityValueNumber(EntityConfig(cfg, "ac_output"), env).value
        == EntityValueNumber(EntityConfig(cfg, "ac_input"), env).value
  {
    if env.hass.None? then None
    else
      var inCfg, outCfg := EntityConfig(cfg, "ac_input"), EntityConfig(cfg, "ac_output");
      if !Truthy(inCfg) || !Truthy(outCfg) then None
      else
        match (EntityValueNumber(inCfg, env), EntityValueNumber(outCfg, env))
        case (Some(a), Some(b)) => Some(a - b)
        case _ => None
  }

  /** Consumed power can only be calculated when both sections name an entity. */
  lemma ConsumedPowerNeedsBothEntities(cfg: Value, env: Env)
    ensures CalculateConsumedPower(cfg, env).Some? ==> CanCalculateConsumedPower(cfg)
  {
  }

  // ---------------------------------------------------------------- battery state

  /** The state text behind a battery's `flow_state_entity`: a template, an entity state or the literal. */
  function FlowStateRaw(config: Option<Value>, env: Env): (r: Outcome<Option<string>>)
    ensures !Truthy(Get(config, "flow_state_entity")) || env.hass.None? ==> r == Returns(None)
    ensures Truthy(Get(config, "flow_state_entity")) && env.hass.Some? ==>
      (r.Throws? <==> !Get(config, "flow_state_entity").value.Str?)
  {
    var setting := Get(config, "flow_state_entity");
    if !Truthy(setting) || env.hass.None? then Returns(None)
    else
      match setting.value
      case Str(s) =>
        var t := Trim(s);
        if IsTemplate(t) then Returns(Some(env.evalTemplate(t, Get(config, "entity"))))
        else if LooksLikeEntityId(Some(Str(t))) then Returns(StateOf(env, t))
        else Returns(Some(t))
      case _ => Throws
  }

  /**
    `_getBatteryFlowStateDisplay`: on/true/a number of at least 0.5 read as
    charging, off/false/a smaller number as discharging, other text is shown
    capitalised; missing information shows nothing. A setting that is truthy
    but not a string makes `.trim()` throw.
  */
  function BatteryFlowStateDisplay(config: Option<Value>, env: Env): (r: Outcome<string>)
    ensures FlowStateRaw(config, env).Throws? <==> r.Throws?
    ensures FlowStateRaw(config, env) == Returns(None) ==> r == Returns("")
    ensures FlowStateRaw(config, env).Returns? && FlowStateRaw(config, env).value.Some? ==>
      var raw := FlowStateRaw(config, env).value.value;
      && (raw in {"on", "true"} ==> r == Returns("Charging"))
      && (raw in {"off", "false"} ==> r == Returns("Discharging"))
      && (raw !in {"on", "true", "off", "false"} && env.parseFloat(raw).Some? ==>
            r == Returns(if env.parseFloat(raw).value >= 0.5 then "Charging" else "Discharging"))
      && (raw !in {"on", "true", "off", "false"} && env.parseFloat(raw).None? ==>
            r == Returns(Capitalize(Trim(raw))))
  {
    match FlowStateRaw(config, env)
    case Throws => Throws
    case Returns(None) => Returns("")
    case Returns(Some(raw)) =>
      if raw == "on" || raw == "true" then Returns("Charging")
      else if raw == "off" || raw == "false" then Returns("Discharging")
      else
        match env.parseFloat(raw)
        case Some(x) => Returns(if x >= 0.5 then "Charging" else "Discharging")
        case None => Returns(Capitalize(Trim(raw)))
  }

  /** Free text is shown trimmed with its first letter capitalised; blank text shows nothing. */
  lemma BatteryFlowStateFreeText(config: Option<Value>, env: Env, raw: string)
    requires FlowStateRaw(config, env) == Returns(Some(raw))
    requires raw !in {"on", "true", "off", "false"} && env.parseFloat(raw).None?
    ensures BatteryFlowStateDisplay(config, env).Returns?
    ensures var shown := BatteryFlowStateDisplay(config, env).value;
      && |shown| == |Trim(raw)|
      && (shown == "" <==> forall i :: 0 <= i < |raw| ==> IsSpace(raw[i]))
      && (shown != "" ==> shown[0] == UpperChar(Trim(raw)[0]) && shown[1..] == Trim(raw)[1..])
  {
    TrimEmptyIff(raw);
  }

  // ---------------------------------------------------------------- node visibility

  /** The five entity sections the card draws a node for. */
  datatype Section = AcInput | AcOutput | InverterCharger | Battery | Dc

  function SectionKey(s: Section): string {
    match s
    case AcInput => "ac_input"
    case AcOutput => "ac_output"
    case InverterCharger => "inverter_charger"
    case Battery => "battery"
    case Dc => "dc"
  }

  /**
    `_updateNode`'s visibility rule: a node needs its section; the battery
    shows with an energy or a power entity, the inverter with a primary
    source (its entity, or both AC entities to compute consumption) or a
    secondary/tertiary line, every other node with its entity.
  */
  function NodeShown(cfg: Value, s: Section): (r: bool)
    ensures !Truthy(EntityConfig(cfg, SectionKey(s))) ==> !r
    ensures var c := EntityConfig(cfg, SectionKey(s));
      Truthy(Get(c, "entity")) ==> r
    ensures var c := EntityConfig(cfg, SectionKey(s));
      s == Battery ==> (r <==> Truthy(Get(c, "entity")) || Truthy(Get(c, "power_entity")))
    ensures var c := EntityConfig(cfg, SectionKey(s));
      s == InverterCharger ==> (r <==> Truthy(c) && (Truthy(Get(c, "entity")) || CanCalculateConsumedPower(cfg)
                                                     || Truthy(Get(c, "secondary")) || Truthy(Get(c, "tertiary"))))
    ensures var c := EntityConfig(cfg, SectionKey(s));
      s in {AcInput, AcOutput, Dc} ==> (r <==> Truthy(Get(c, "entity")))
  {
    var c := EntityConfig(cfg, SectionKey(s));
    if !Truthy(c) then false
    else
      match s
      case Battery => Truthy(Get(c, "entity")) || Truthy(Get(c, "power_entity"))
      case InverterCharger =>
        Truthy(Get(c, "entity")) || CanCalculateConsumedPower(cfg) || Truthy(Get(c, "secondary")) || Truthy(Get(c, "tertiary"))
      case _ => Truthy(Get(c, "entity"))
  }

  /** The consumed power can be worked out exactly when both AC nodes are shown. */
  lemma ConsumedPowerFollowsAcNodes(cfg: Value)
    ensures CanCalculateConsumedPower(cfg) <==> NodeShown(cfg, AcInput) && NodeShown(cfg, AcOutput)
  {
  }
}
