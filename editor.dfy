/**
  The visual editor's configuration tree: reading a dotted path, writing
  one (`_set` descends through a deep copy, creating objects on the way, and
  throws where it meets `null`), filling in the defaults, and the colour a
  flow-colour input shows. The configuration is a JSON object; the deep copy
  is the identity on values.
*/
module Editor {
  import opened Wrappers
  import opened Json
  import opened Text
  import Resolution
  import Flows

  type Object = map<string, Value>

  // ---------------------------------------------------------------- reading a path

  /** The loop of `_getValueFromConfig`: stop at `null` or `undefined`, otherwise take property `p`. */
  function LookupPath(ref: Option<Value>, parts: seq<string>): Option<Value>
    decreases |parts|
  {
    if parts == [] then ref
    else if ref.None? || ref == Some(Null) then None
    else LookupPath(Get(ref, parts[0]), parts[1..])
  }

  /** Reading `p` and then `q` from where it ends is reading `p + q`: a `null` or `undefined` on the way ends the read. */
  lemma {:induction false} LookupPathConcat(ref: Option<Value>, p: seq<string>, q: seq<string>)
    ensures LookupPath(ref, p + q) == LookupPath(LookupPath(ref, p), q)
    decreases |p|
  {
    if p == [] {
      assert p + q == q;
    } else if ref.None? || ref == Some(Null) {
      if q != [] {
        assert LookupPath(None, q) == None;
      }
    } else {
      assert (p + q)[1..] == p[1..] + q;
      LookupPathConcat(Get(ref, p[0]), p[1..], q);
    }
  }

  /** `_getValueFromConfig(path)` on the configuration `config`; the empty path reads nothing. */
  function ValueAt(config: Object, path: string): (r: Option<Value>)
    ensures path == "" ==> r.None?
    ensures path != "" && '.' !in path ==> r == Get(Some(Obj(config)), path)
  {
    if path == "" then None
    else
      var root := Some(Obj(config));
      assert '.' !in path ==> LookupPath(root, Split(path, '.')) == Get(root, path) by {
        if '.' !in path {
          assert Split(path, '.') == [path];
          assert LookupPath(root, [path]) == LookupPath(Get(root, path), []);
        }
      }
      LookupPath(root, Split(path, '.'))
  }

  /** Below anything but a non-empty object, a non-empty path reads nothing. */
  lemma LookupBelowLeaf(v: Option<Value>, parts: seq<string>)
    requires parts != []
    requires v.None? || !v.value.Obj? || v.value.fields == map[]
    ensures LookupPath(v, parts) == None
  {
    if v.Some? && v.value != Null {
      assert Get(v, parts[0]) == None;
      assert LookupPath(None, parts[1..]) == None;
    }
  }

  // ---------------------------------------------------------------- writing a path

  /**
    The step of `_set` at key `k`: an object is descended into; anything
    missing or of another type is first replaced by a fresh object; `null`
    is descended into too, and the next access throws (`None`).
  */
  function Descend(m: Object, k: string): (r: Option<Object>)
    ensures r.None? <==> k in m && m[k] == Null
    ensures r.Some? && k in m && m[k].Obj? ==> r.value == m[k].fields
    ensures r.Some? && !(k in m && m[k].Obj?) ==> r.value == map[]
  {
    if k !in m then Some(map[])
    else match m[k]
      case Obj(f) => Some(f)
      case Null => None
      case _ => Some(map[])
  }

  /** `delete ref[k]` for `undefined`, else `ref[k] = v`. */
  function Assign(m: Object, k: string, v: Option<Value>): (r: Object)
    ensures v.None? ==> k !in r
    ensures v.Some? ==> k in r && r[k] == v.value
    ensures forall j :: j != k ==> (j in r <==> j in m) && (j in r ==> r[j] == m[j])
  {
    if v.None? then m - {k} else m[k := v.value]
  }

  /** `_set` with the path already split, on the object `m`. */
  function SetIn(m: Object, parts: seq<string>, v: Option<Value>): (r: Outcome<Object>)
    requires |parts| >= 1
    ensures r.Returns? ==> forall j :: j != parts[0] ==> (j in r.value <==> j in m) && (j in r.value ==> r.value[j] == m[j])
    ensures r.Returns? && |parts| > 1 ==> parts[0] in r.value && r.value[parts[0]].Obj?
    decreases |parts|
  {
    if |parts| == 1 then Returns(Assign(m, parts[0], v))
    else match Descend(m, parts[0])
      case None => Throws
      case Some(child) =>
        match SetIn(child, parts[1..], v)
        case Throws => Throws
        case Returns(c) => Returns(m[parts[0] := Obj(c)])
  }

  /** Writing below a freshly created object never meets `null`. */
  lemma {:induction false} SetInFreshReturns(parts: seq<string>, v: Option<Value>)
    requires |parts| >= 1
    ensures SetIn(map[], parts, v).Returns?
    decreases |parts|
  {
    if |parts| > 1 {
      SetInFreshReturns(parts[1..], v);
    }
  }

  /** What `_set` writes is what `_getValueFromConfig` then reads, `undefined` included. */
  lemma {:induction false} SetThenGet(m: Object, parts: seq<string>, v: Option<Value>)
    requires |parts| >= 1
    requires SetIn(m, parts, v).Returns?
    ensures LookupPath(Some(Obj(SetIn(m, parts, v).value)), parts) == v
    decreases |parts|
  {
    var m2 := SetIn(m, parts, v).value;
    if |parts| == 1 {
      assert LookupPath(Some(Obj(m2)), parts) == LookupPath(Get(Some(Obj(m2)), parts[0]), []);
    } else {
      var child := Descend(m, parts[0]).value;
      SetThenGet(child, parts[1..], v);
    }
  }

  /** `_set` changes nothing that a path leaving its own path at index `i` reads. */
  lemma {:induction false} SetKeepsDivergingPaths(m: Object, parts: seq<string>, v: Option<Value>, q: seq<string>, i: nat)
    requires |parts| >= 1
    requires SetIn(m, parts, v).Returns?
    requires i < |parts| && i < |q| && parts[..i] == q[..i] && parts[i] != q[i]
    ensures LookupPath(Some(Obj(SetIn(m, parts, v).value)), q) == LookupPath(Some(Obj(m)), q)
    decreases i
  {
    var m2 := SetIn(m, parts, v).value;
    if i == 0 {
      assert Get(Some(Obj(m2)), q[0]) == Get(Some(Obj(m)), q[0]);
    } else {
      assert q[0] == parts[0] by { assert q[..i][0] == parts[..i][0]; }
      var child := Descend(m, parts[0]).value;
      var c := SetIn(child, parts[1..], v).value;
      assert parts[1..][..i - 1] == q[1..][..i - 1] by {
        assert parts[1..][..i - 1] == parts[..i][1..];
        assert q[1..][..i - 1] == q[..i][1..];
      }
      SetKeepsDivergingPaths(child, parts[1..], v, q[1..], i - 1);
      assert LookupPath(Some(Obj(m2)), q) == LookupPath(Some(Obj(c)), q[1..]);
      if !(parts[0] in m && m[parts[0]].Obj?) {
        LookupBelowLeaf(Some(Obj(child)), q[1..]);
        LookupBelowLeaf(Get(Some(Obj(m)), q[0]), q[1..]);
      }
    }
  }

  /** `_set` throws exactly when some proper prefix of the path reads `null`. */
  lemma {:induction false} SetThrowsIff(m: Object, parts: seq<string>, v: Option<Value>)
    requires |parts| >= 1
    ensures SetIn(m, parts, v).Throws? <==>
      exists i :: 1 <= i < |parts| && LookupPath(Some(Obj(m)), parts[..i]) == Some(Null)
    decreases |parts|
  {
    var root := Some(Obj(m));
    if |parts| > 1 {
      var k := parts[0];
      assert LookupPath(root, parts[..1]) == Get(root, k) by {
        assert parts[..1] == [k];
      }
      match Descend(m, k)
      case None =>
      case Some(child) =>
        SetThrowsIff(child, parts[1..], v);
        forall i | 1 < i < |parts|
          ensures LookupPath(root, parts[..i]) == LookupPath(Get(root, k), parts[1..][..i - 1])
        {
          assert parts[..i][1..] == parts[1..][..i - 1];
        }
        if k in m && m[k].Obj? {
          if exists j :: 1 <= j < |parts| - 1 && LookupPath(Some(Obj(child)), parts[1..][..j]) == Some(Null) {
            var j :| 1 <= j < |parts| - 1 && LookupPath(Some(Obj(child)), parts[1..][..j]) == Some(Null);
            assert LookupPath(root, parts[..j + 1]) == Some(Null);
          }
        } else {
          SetInFreshReturns(parts[1..], v);
          forall i | 1 < i < |parts|
            ensures LookupPath(root, parts[..i]) == None
          {
            LookupBelowLeaf(Get(root, k), parts[1..][..i - 1]);
          }
        }
    }
  }

  /** `_set(path, value)` on the configuration `config`. */
  function SetAt(config: Object, path: string, v: Option<Value>): (r: Outcome<Object>)
    ensures '.' !in path ==> r == Returns(Assign(config, path, v))
  {
    SetIn(config, Split(path, '.'), v)
  }

  /** Through the editor's own string paths: after a successful `_set`, the path reads the value written. */
  lemma SetThenRead(config: Object, path: string, v: Option<Value>)
    requires path != ""
    requires SetAt(config, path, v).Returns?
    ensures ValueAt(SetAt(config, path, v).value, path) == v
  {
    SetThenGet(config, Split(path, '.'), v);
  }

  // ---------------------------------------------------------------- defaults

  const EntityKeys: seq<string> := ["ac_input", "ac_output", "inverter_charger", "battery", "dc"]
  const PathKeys: seq<string> := ["inverter_battery", "battery_dc", "inverter_dc"]

  /** `x || {}` where `x` is an object or falsy. */
  function ObjOr(v: Option<Value>): (r: Object)
    ensures v.Some? && v.value.Obj? ==> r == v.value.fields
  {
    if v.Some? && v.value.Obj? then v.value.fields else map[]
  }

  /** `m[k] = m[k] || {}` for each `k` of `keys` in turn. */
  function FillKeys(m: Object, keys: seq<string>): (r: Object)
    decreases |keys|
  {
    if keys == [] then m
    else
      var before := FillKeys(m, keys[..|keys| - 1]);
      var k := keys[|keys| - 1];
      before[k := Obj(ObjOr(Get(Some(Obj(before)), k)))]
  }

  /** After the fill every listed key holds an object, existing objects are kept and other keys are untouched. */
  lemma {:induction false} FillKeysShape(m: Object, keys: seq<string>)
    ensures forall k :: k in keys ==> k in FillKeys(m, keys) && FillKeys(m, keys)[k].Obj?
    ensures forall k :: k in m ==> k in FillKeys(m, keys)
    ensures forall k :: k in m && m[k].Obj? ==> FillKeys(m, keys)[k] == m[k]
    ensures forall k :: k !in keys ==> (k in FillKeys(m, keys) <==> k in m) && (k in m ==> FillKeys(m, keys)[k] == m[k])
    ensures (forall k :: k in keys ==> k in m && m[k].Obj?) ==> FillKeys(m, keys) == m
    decreases |keys|
  {
    if keys != [] {
      var init := keys[..|keys| - 1];
      FillKeysShape(m, init);
      forall k | k in keys
        ensures k == keys[|keys| - 1] || k in init
      {
        var i :| 0 <= i < |keys| && keys[i] == k;
        if i < |keys| - 1 {
          assert init[i] == k;
        }
      }
      assert forall k :: k in init ==> k in keys;
    }
  }

  /** Every setting of `before` is in `after` with the same value. */
  predicate Keeps(before: Object, after: Object) {
    forall k :: k in before ==> k in after && after[k] == before[k]
  }

  /**
    Every entry of `before` survives in `after`: an object keeps all its
    settings, and an entry outside `keys` is unchanged.
  */
  predicate KeepsSections(before: Object, after: Object, keys: seq<string>) {
    forall k :: k in before ==>
      && k in after
      && (before[k].Obj? ==> after[k].Obj? && Keeps(before[k].fields, after[k].fields))
      && (k !in keys ==> after[k] == before[k])
  }

  /** Keeping the settings of two successive steps keeps them across both. */
  lemma KeepsSectionsThen(a: Object, b: Object, c: Object, keys: seq<string>, later: seq<string>)
    requires KeepsSections(a, b, keys) && KeepsSections(b, c, later)
    requires forall k :: k in later ==> k in keys
    ensures KeepsSections(a, c, keys)
  {
    forall k | k in a
      ensures k in c
      ensures a[k].Obj? ==> c[k].Obj? && Keeps(a[k].fields, c[k].fields)
      ensures k !in keys ==> c[k] == a[k]
    {
      if a[k].Obj? {
        assert b[k].Obj? && Keeps(a[k].fields, b[k].fields);
        assert c[k].Obj? && Keeps(b[k].fields, c[k].fields);
      }
    }
  }

  /** The object under `key` exists and holds an object under each of `keys`. */
  predicate Filled(c: Object, key: string, keys: seq<string>) {
    key in c && c[key].Obj? && forall k :: k in keys ==> k in c[key].fields && c[key].fields[k].Obj?
  }

  /** `c[key] = c[key] || {}`, then `c[key][k] = c[key][k] || {}` for each of `keys`. */
  function FillSection(c: Object, key: string, keys: seq<string>): (r: Object)
    ensures Filled(r, key, keys)
    ensures forall j :: j != key ==> (j in r <==> j in c) && (j in r ==> r[j] == c[j])
    ensures key in c && c[key].Obj? ==> forall k :: k in c[key].fields ==> k in r[key].fields
    ensures key in c && c[key].Obj? ==> forall k :: k in c[key].fields && (c[key].fields[k].Obj? || k !in keys) ==>
      r[key].fields[k] == c[key].fields[k]
    ensures Filled(c, key, keys) ==> r == c
  {
    var inner := ObjOr(Get(Some(Obj(c)), key));
    FillKeysShape(inner, keys);
    c[key := Obj(FillKeys(inner, keys))]
  }

  /** The keys of a table of settings. */
  function KeysOf<V>(table: seq<(string, V)>): (keys: seq<string>)
    ensures |keys| == |table|
    ensures forall i :: 0 <= i < |table| ==> keys[i] == table[i].0
  {
    seq(|table|, i requires 0 <= i < |table| => table[i].0)
  }

  /** `if (m[k] === undefined) m[k] = v`. */
  function SetIfAbsent(m: Object, k: string, v: Value): (r: Object)
    ensures k in r
    ensures k in m ==> r == m
    ensures k !in m ==> r == m[k := v]
  {
    if k in m then m else m[k := v]
  }

  /** `SetIfAbsent` for each setting of `table` in turn. */
  function SetAllAbsent(m: Object, table: seq<(string, Value)>): Object
    decreases |table|
  {
    if table == [] then m
    else
      var last := table[|table| - 1];
      SetIfAbsent(SetAllAbsent(m, table[..|table| - 1]), last.0, last.1)
  }

  /** Every key of the table is defined afterwards; nothing already defined changes; nothing else is added. */
  lemma {:induction false} SetAllAbsentShape(m: Object, table: seq<(string, Value)>)
    ensures var r := SetAllAbsent(m, table);
      && (forall k :: k in KeysOf(table) ==> k in r)
      && (forall k :: k in m ==> k in r && r[k] == m[k])
      && (forall k :: k in r ==> k in m || k in KeysOf(table))
      && ((forall k :: k in KeysOf(table) ==> k in m) ==> r == m)
    decreases |table|
  {
    if table != [] {
      var init := table[..|table| - 1];
      SetAllAbsentShape(m, init);
      assert KeysOf(table) == KeysOf(init) + [table[|table| - 1].0];
    }
  }

  /** The scalar defaults of `_ensureDefaults(true)` before `shape`, and after it. */
  const EarlyDefaults: seq<(string, Value)> :=
    [("show_defaults", Bool(true)), ("show_background", Bool(true)), ("line_width", Num(2.0)),
     ("ball_diameter", Num(4.0)), ("corner_radius", Num(8.0))]
  const LateDefaults: seq<(string, Value)> :=
    [("line_glow_size", Num(3.0)), ("ball_glow_size", Num(3.0)), ("line_glow_brightness", Num(0.4)),
     ("ball_glow_brightness", Num(1.0))]

  /** The settings that `_ensureDefaults(true)` defines when they are undefined. */
  function ScalarKeys(): seq<string> {
    KeysOf(EarlyDefaults) + KeysOf(LateDefaults)
  }

  /** `shape`, `entities` and `flow_colors` are none of the scalar settings. */
  lemma KeyTablesDisjoint()
    ensures "shape" !in ScalarKeys() && "entities" !in ScalarKeys() && "flow_colors" !in ScalarKeys()
  {
    assert ScalarKeys() == ["show_defaults", "show_background", "line_width", "ball_diameter", "corner_radius",
                            "line_glow_size", "ball_glow_size", "line_glow_brightness", "ball_glow_brightness"];
  }

  /** `if (!c.shape) c.shape = 'oval'`. */
  function DefaultShape(c: Object): (r: Object)
    ensures Truthy(Get(Some(Obj(r)), "shape"))
    ensures forall j :: j != "shape" ==> (j in r <==> j in c) && (j in r ==> r[j] == c[j])
    ensures Truthy(Get(Some(Obj(c)), "shape")) ==> r == c
  {
    if Truthy(Get(Some(Obj(c)), "shape")) then c else c["shape" := Str("oval")]
  }

  /** The scalar defaults of `_ensureDefaults(true)`, in their order. */
  function ScalarDefaults(c: Object): (r: Object)
    ensures forall k :: k in ScalarKeys() ==> k in r
    ensures Truthy(Get(Some(Obj(r)), "shape"))
    ensures forall j :: j in c && !(j == "shape" && !Truthy(Some(c[j]))) ==> j in r && r[j] == c[j]
    ensures forall j :: j !in ScalarKeys() && j != "shape" ==> (j in r <==> j in c)
    ensures (forall k :: k in ScalarKeys() ==> k in c) && Truthy(Get(Some(Obj(c)), "shape")) ==> r == c
  {
    var early := SetAllAbsent(c, EarlyDefaults);
    var shaped := DefaultShape(early);
    SetAllAbsentShape(c, EarlyDefaults);
    SetAllAbsentShape(shaped, LateDefaults);
    KeyTablesDisjoint();
    SetAllAbsent(shaped, LateDefaults)
  }

  /** `if (c.entities.battery.power_unit === undefined) c.entities.battery.power_unit = 'W'`. */
  function BatteryUnit(c: Object): (r: Object)
    requires Filled(c, "entities", EntityKeys)
    ensures Filled(r, "entities", EntityKeys)
    ensures "power_unit" in r["entities"].fields["battery"].fields
    ensures forall j :: j != "entities" ==> (j in r <==> j in c) && (j in r ==> r[j] == c[j])
    ensures forall k :: k in c["entities"].fields ==> k in r["entities"].fields
    ensures forall k :: k in c["entities"].fields && k != "battery" ==> r["entities"].fields[k] == c["entities"].fields[k]
    ensures "power_unit" in c["entities"].fields["battery"].fields ==> r == c
    ensures Keeps(c["entities"].fields["battery"].fields, r["entities"].fields["battery"].fields)
    ensures KeepsSections(c["entities"].fields, r["entities"].fields, ["battery"])
  {
    var entities := c["entities"].fields;
    var battery := entities["battery"].fields;
    var unit := SetIfAbsent(battery, "power_unit", Str("W"));
    assert "power_unit" in battery ==> entities["battery" := Obj(unit)] == entities;
    c["entities" := Obj(entities["battery" := Obj(unit)])]
  }

  /** The colour table `_flowPathColorInputValue` falls back on: the DC pair for the two DC connectors, else the battery pair. */
  function PathDefaults(pathKey: string): (string, string) {
    if pathKey == "battery_dc" || pathKey == "inverter_dc" then Flows.DefaultColors("dc") else Flows.DefaultColors("battery")
  }

  /** The `flowDefaults` table of `_ensureDefaults`: each connector with its (positive, negative) pair. */
  const FlowDefaults: seq<(string, (string, string))> :=
    [("inverter_battery", Flows.DefaultColors("battery")), ("battery_dc", Flows.DefaultColors("dc")), ("inverter_dc", Flows.DefaultColors("dc"))]

  /** The table lists the three connectors of the fill, each with the pair the editor's inputs fall back on. */
  lemma FlowDefaultsTable()
    ensures KeysOf(FlowDefaults) == PathKeys
    ensures forall i :: 0 <= i < |FlowDefaults| ==> FlowDefaults[i].1 == PathDefaults(FlowDefaults[i].0)
  {
  }

  /** Both colours of a connector are defined. */
  predicate HasBothColours(colours: Object, pathKey: string) {
    pathKey in colours && colours[pathKey].Obj? && "positive" in colours[pathKey].fields && "negative" in colours[pathKey].fields
  }

  /** `target.positive` and `target.negative` defined from `pair` when undefined, on the object `target` under `pathKey`. */
  function FillColours(colours: Object, pathKey: string, pair: (string, string)): Object {
    var target := ObjOr(Get(Some(Obj(colours)), pathKey));
    colours[pathKey := Obj(SetIfAbsent(SetIfAbsent(target, "positive", Str(pair.0)), "negative", Str(pair.1)))]
  }

  /** `FillColours` for each entry of `table` in turn. */
  function FillColoursFor(m: Object, table: seq<(string, (string, string))>): Object
    decreases |table|
  {
    if table == [] then m
    else
      var last := table[|table| - 1];
      FillColours(FillColoursFor(m, table[..|table| - 1]), last.0, last.1)
  }

  /** One connector's colours filled: both defined, the existing ones kept, nothing else touched. */
  lemma FillColoursOne(colours: Object, pathKey: string, pair: (string, string))
    requires pathKey in colours && colours[pathKey].Obj?
    ensures var r := FillColours(colours, pathKey, pair);
      && HasBothColours(r, pathKey)
      && (forall j :: j != pathKey ==> (j in r <==> j in colours) && (j in r ==> r[j] == colours[j]))
      && (forall t :: t in colours[pathKey].fields ==> t in r[pathKey].fields && r[pathKey].fields[t] == colours[pathKey].fields[t])
      && (HasBothColours(colours, pathKey) ==> r == colours)
  {
  }

  /** The objects of every connector of `table` exist. */
  predicate TargetsExist(m: Object, table: seq<(string, (string, string))>) {
    forall k :: k in KeysOf(table) ==> k in m && m[k].Obj?
  }

  /**
    Where the target objects exist, the colour fill defines both colours of
    each connector of the table, keeps every colour already there and
    touches nothing else.
  */
  lemma {:induction false} FillColoursForShape(m: Object, table: seq<(string, (string, string))>)
    requires TargetsExist(m, table)
    ensures var r := FillColoursFor(m, table);
      && (forall k :: k in KeysOf(table) ==> HasBothColours(r, k))
      && (forall k :: k in m ==> k in r)
      && (forall k :: k !in KeysOf(table) ==> (k in r <==> k in m) && (k in m ==> r[k] == m[k]))
      && (forall k, t :: k in KeysOf(table) && t in m[k].fields ==> r[k].Obj? && t in r[k].fields && r[k].fields[t] == m[k].fields[t])
      && ((forall k :: k in KeysOf(table) ==> HasBothColours(m, k)) ==> r == m)
    decreases |table|
  {
    if table != [] {
      var init := table[..|table| - 1];
      var last := table[|table| - 1];
      assert KeysOf(table) == KeysOf(init) + [last.0];
      FillColoursForShape(m, init);
      FillColoursOne(FillColoursFor(m, init), last.0, last.1);
    }
  }

  /** The loop over the flow-colour defaults of `_ensureDefaults(true)`. */
  function PathColours(c: Object): (r: Object)
    requires Filled(c, "flow_colors", PathKeys)
    ensures "flow_colors" in r && r["flow_colors"].Obj?
    ensures forall k :: k in PathKeys ==> HasBothColours(r["flow_colors"].fields, k)
    ensures forall j :: j != "flow_colors" ==> (j in r <==> j in c) && (j in r ==> r[j] == c[j])
    ensures forall k :: k in c["flow_colors"].fields ==> k in r["flow_colors"].fields
    ensures forall k :: k !in PathKeys && k in c["flow_colors"].fields ==> r["flow_colors"].fields[k] == c["flow_colors"].fields[k]
    ensures (forall k :: k in PathKeys ==> HasBothColours(c["flow_colors"].fields, k)) ==> r == c
    ensures KeepsSections(c["flow_colors"].fields, r["flow_colors"].fields, PathKeys)
  {
    FlowDefaultsTable();
    FillColoursForShape(c["flow_colors"].fields, FlowDefaults);
    c["flow_colors" := Obj(FillColoursFor(c["flow_colors"].fields, FlowDefaults))]
  }

  /** The two fills `_ensureDefaults` always does. */
  function FillSections(c: Object): (r: Object)
    ensures Filled(r, "entities", EntityKeys) && Filled(r, "flow_colors", PathKeys)
    ensures forall j :: j != "entities" && j != "flow_colors" ==> (j in r <==> j in c) && (j in r ==> r[j] == c[j])
    ensures "entities" in c && c["entities"].Obj? ==> KeepsSections(c["entities"].fields, r["entities"].fields, EntityKeys)
    ensures "flow_colors" in c && c["flow_colors"].Obj? ==> KeepsSections(c["flow_colors"].fields, r["flow_colors"].fields, PathKeys)
  {
    FillSection(FillSection(c, "entities", EntityKeys), "flow_colors", PathKeys)
  }

  /** `_ensureDefaults(initial)` on the configuration `c`. */
  function EnsureDefaultsSpec(c: Object, initial: bool): Object {
    var filled := FillSections(c);
    if !initial then filled
    else
      var scalars := ScalarDefaults(filled);
      assert Filled(scalars, "entities", EntityKeys) && Filled(scalars, "flow_colors", PathKeys);
      PathColours(BatteryUnit(scalars))
  }

  /** The sub-objects every editor section reads from exist after `_ensureDefaults`. */
  lemma EnsureDefaultsShape(c: Object, initial: bool)
    ensures Filled(EnsureDefaultsSpec(c, initial), "entities", EntityKeys)
    ensures Filled(EnsureDefaultsSpec(c, initial), "flow_colors", PathKeys)
  {
  }

  /** With `initial`, every default is in place, and the flow colours are defined for both signs. */
  lemma EnsureDefaultsInitial(c: Object)
    ensures var r := EnsureDefaultsSpec(c, true);
      && (forall k :: k in ScalarKeys() ==> k in r)
      && Truthy(Get(Some(Obj(r)), "shape"))
      && "power_unit" in r["entities"].fields["battery"].fields
      && (forall k :: k in PathKeys ==> HasBothColours(r["flow_colors"].fields, k))
  {
  }

  /**
    Nothing already defined is overwritten: top-level settings other than
    `entities` and `flow_colors` are kept (`shape` too, unless the initial
    pass finds it falsy), and inside those two every section that was an
    object keeps all its settings.
  */
  lemma EnsureDefaultsKeeps(c: Object, initial: bool)
    ensures var r := EnsureDefaultsSpec(c, initial);
      && (forall k :: k in c && k != "entities" && k != "flow_colors" && !(initial && k == "shape" && !Truthy(Some(c[k]))) ==>
            k in r && r[k] == c[k])
      && ("entities" in c && c["entities"].Obj? ==> KeepsSections(c["entities"].fields, r["entities"].fields, EntityKeys))
      && ("flow_colors" in c && c["flow_colors"].Obj? ==> KeepsSections(c["flow_colors"].fields, r["flow_colors"].fields, PathKeys))
  {
    var filled := FillSections(c);
    if initial {
      var scalars := ScalarDefaults(filled);
      var unit := BatteryUnit(scalars);
      assert scalars["entities"] == filled["entities"] && scalars["flow_colors"] == filled["flow_colors"];
      assert unit["flow_colors"] == scalars["flow_colors"];
      assert PathColours(unit)["entities"] == unit["entities"];
      if "entities" in c && c["entities"].Obj? {
        KeepsSectionsThen(c["entities"].fields, filled["entities"].fields, unit["entities"].fields, EntityKeys, ["battery"]);
      }
    }
  }

  /**
    A second pass changes nothing when it is not more initial than the
    first: `setConfig` finds its own output unchanged and skips the redraw.
  */
  lemma EnsureDefaultsIdempotent(c: Object, first: bool, second: bool)
    requires second ==> first
    ensures EnsureDefaultsSpec(EnsureDefaultsSpec(c, first), second) == EnsureDefaultsSpec(c, first)
  {
    var r := EnsureDefaultsSpec(c, first);
    EnsureDefaultsShape(c, first);
    assert FillSection(r, "entities", EntityKeys) == r;
    assert FillSections(r) == r;
    if second {
      EnsureDefaultsInitial(c);
      KeyTablesDisjoint();
      assert ScalarDefaults(r) == r;
      assert BatteryUnit(r) == r;
      assert PathColours(r) == r;
    }
  }

  // ---------------------------------------------------------------- the colour inputs

  /** `_flowPathColorInputValue(pathKey, type)`: the configured override if both it and its entry are truthy, else the table colour. */
  function FlowPathColorInputValue(config: Object, pathKey: string, colourType: string): (r: Option<Value>)
    ensures colourType == "positive" || colourType == "negative" ==> Truthy(r)
    ensures var override := Get(Get(Some(Obj(config)), "flow_colors"), pathKey);
      Truthy(override) && Truthy(Get(override, colourType)) ==> r == Get(override, colourType)
    ensures r.Some? && r.value.Str? && !Truthy(Get(Get(Get(Some(Obj(config)), "flow_colors"), pathKey), colourType)) ==>
      r.value.s in {"#2f80ed", "#f2994a", "#27ae60"}
  {
    var override := Get(Get(Some(Obj(config)), "flow_colors"), pathKey);
    if Truthy(override) && Truthy(Get(override, colourType)) then Get(override, colourType)
    else if colourType == "positive" then Some(Str(PathDefaults(pathKey).0))
    else if colourType == "negative" then Some(Str(PathDefaults(pathKey).1))
    else None
  }

  /**
    The editor shows the override the card paints: when the card finds an
    override colour, the input holds the value it was printed from; when it
    finds none, the input holds the table colour.
  */
  lemma ColorInputMatchesCard(config: Object, pathKey: string, positive: bool, env: Resolution.Env)
    ensures var colourType := if positive then "positive" else "negative";
      var shown := FlowPathColorInputValue(config, pathKey, colourType);
      match Flows.OverrideColor(Obj(config), pathKey, positive, env)
      case Some(s) => shown.Some? && Resolution.Stringify(shown.value, env) == s
      case None => shown == Some(Str(if positive then PathDefaults(pathKey).0 else PathDefaults(pathKey).1))
  {
  }

  // ---------------------------------------------------------------- the editor object

  class ConfigEditor {
    var config: Object

    constructor (config: Object)
      ensures this.config == config
    {
      this.config := config;
    }

    /** `_getValueFromConfig(path)`. */
    method GetValueFromConfig(path: string) returns (r: Option<Value>)
      ensures r == ValueAt(config, path)
    {
      if path == "" {
        return None;
      }
      var parts := Split(path, '.');
      var ref := Some(Obj(config));
      var i := 0;
      while i < |parts|
        invariant 0 <= i <= |parts|
        invariant LookupPath(ref, parts[i..]) == ValueAt(config, path)
      {
        if ref.None? || ref == Some(Null) {
          return None;
        }
        assert parts[i..][1..] == parts[i + 1..];
        ref := Get(ref, parts[i]);
        i := i + 1;
      }
      return ref;
    }

    /**
      `_set(path, value)`: walk down a copy of the configuration, then store
      the rebuilt copy; on a `TypeError` the configuration is left as it was.
    */
    method Set(path: string, value: Option<Value>) returns (thrown: bool)
      modifies this
      ensures var r := SetAt(old(config), path, value);
        (thrown <==> r.Throws?) && config == (if r.Returns? then r.value else old(config))
    {
      var parts := Split(path, '.');
      var spine: seq<Object> := [config];
      var i := 0;
      while i < |parts| - 1
        invariant 0 <= i <= |parts| - 1
        invariant |spine| == i + 1 && spine[0] == config
        invariant forall j :: 0 <= j < i ==> Descend(spine[j], parts[j]) == Some(spine[j + 1])
      {
        var next := Descend(spine[i], parts[i]);
        if next.None? {
          ThrowsAlongSpine(spine, parts, value, i, 0);
          return true;
        }
        spine := spine + [next.value];
        i := i + 1;
      }
      var written := Assign(spine[i], parts[i], value);
      assert parts[i..] == [parts[i]];
      while i > 0
        invariant 0 <= i <= |parts| - 1
        invariant SetIn(spine[i], parts[i..], value) == Returns(written)
      {
        assert parts[i - 1..][1..] == parts[i..];
        i := i - 1;
        written := spine[i][parts[i] := Obj(written)];
      }
      config := written;
      return false;
    }

    /** `_ensureDefaults(initial)`. */
    method EnsureDefaults(initial: bool)
      modifies this
      ensures config == EnsureDefaultsSpec(old(config), initial)
    {
      FillSectionInPlace("entities", EntityKeys);
      FillSectionInPlace("flow_colors", PathKeys);
      if initial {
        config := ScalarDefaults(config);
        config := BatteryUnit(config);
        FlowDefaultsTable();
        FillColoursInPlace(FlowDefaults);
      }
    }

    /** The loop of `_ensureDefaults(true)` over the flow-colour defaults in `table`. */
    method FillColoursInPlace(table: seq<(string, (string, string))>)
      requires "flow_colors" in config && config["flow_colors"].Obj?
      modifies this
      ensures config == old(config)["flow_colors" := Obj(FillColoursFor(old(config)["flow_colors"].fields, table))]
    {
      var colours := config["flow_colors"].fields;
      ghost var start := colours;
      for i := 0 to |table|
        invariant colours == FillColoursFor(start, table[..i])
      {
        assert table[..i + 1][..i] == table[..i];
        colours := FillColours(colours, table[i].0, table[i].1);
      }
      assert table[..|table|] == table;
      config := config["flow_colors" := Obj(colours)];
    }

    /** `c[key] = c[key] || {}` and the loop over `keys` that follows it in `_ensureDefaults`. */
    method FillSectionInPlace(key: string, keys: seq<string>)
      modifies this
      ensures config == FillSection(old(config), key, keys)
    {
      var section := ObjOr(Get(Some(Obj(config)), key));
      ghost var start := section;
      for i := 0 to |keys|
        invariant section == FillKeys(start, keys[..i])
      {
        assert keys[..i + 1][..i] == keys[..i];
        section := section[keys[i] := Obj(ObjOr(Get(Some(Obj(section)), keys[i])))];
      }
      assert keys[..|keys|] == keys;
      config := config[key := Obj(section)];
    }
  }

  /** Every step of a descent that met `null` at step `i` leads to the throw. */
  lemma {:induction false} ThrowsAlongSpine(spine: seq<Object>, parts: seq<string>, v: Option<Value>, i: nat, j: nat)
    requires j <= i < |parts| - 1 && i < |spine|
    requires forall k :: 0 <= k < i ==> Descend(spine[k], parts[k]) == Some(spine[k + 1])
    requires Descend(spine[i], parts[i]).None?
    ensures SetIn(spine[j], parts[j..], v).Throws?
    decreases i - j
  {
    assert parts[j..][1..] == parts[j + 1..];
    if j < i {
      ThrowsAlongSpine(spine, parts, v, i, j + 1);
    }
  }
}
