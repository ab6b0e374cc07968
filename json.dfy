/**
  The configuration objects of the card and of its editor are JSON values
  (they are copied with `JSON.parse(JSON.stringify(..))`). A missing key, i.e.
  JavaScript's `undefined`, is `None` of an `Option<Value>`.
*/
module Json {
  import opened Wrappers

  datatype Value =
    | Null
    | Bool(b: bool)
    | Num(n: real)
    | Str(s: string)
    | Arr(items: seq<Value>)
    | Obj(fields: map<string, Value>)

  /** JavaScript truthiness: `undefined`, `null`, `false`, `0` and `''` are falsy. */
  predicate Truthy(v: Option<Value>) {
    match v
    case None => false
    case Some(Null) => false
    case Some(Bool(b)) => b
    case Some(Num(n)) => n != 0.0
    case Some(Str(s)) => s != ""
    case Some(Arr(_)) => true
    case Some(Obj(_)) => true
  }

  /** `v?.[key]`: a property of an object; anything else has no properties. */
  function Get(v: Option<Value>, key: string): (r: Option<Value>)
    ensures r.Some? <==> v.Some? && v.value.Obj? && key in v.value.fields
    ensures r.Some? ==> r.value == v.value.fields[key]
  {
    if v.Some? && v.value.Obj? && key in v.value.fields then Some(v.value.fields[key]) else None
  }

  /** The test `x === true`. */
  predicate IsTrue(v: Option<Value>) {
    v == Some(Bool(true))
  }

  /**
    `String(v)`. Numbers are printed by the host (`show`), which this model
    does not define; an array prints its elements joined by commas, with
    `null` elements printed as the empty string.
  */
  function ToJsString(v: Value, show: real -> string): string
    decreases v, 1
  {
    match v
    case Null => "null"
    case Bool(b) => if b then "true" else "false"
    case Num(n) => show(n)
    case Str(s) => s
    case Arr(items) => JoinElements(v, items, show)
    case Obj(_) => "[object Object]"
  }

  /** `items.join(',')`, for the elements of the array `whole`. */
  function JoinElements(whole: Value, items: seq<Value>, show: real -> string): string
    requires forall i :: 0 <= i < |items| ==> items[i] < whole
    decreases whole, 0, |items|
  {
    if items == [] then ""
    else
      var first := if items[0].Null? then "" else ToJsString(items[0], show);
      if |items| == 1 then first else first + "," + JoinElements(whole, items[1..], show)
  }
}
