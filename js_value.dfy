// JSON values as the lead handler receives them from `req.json()`, and the
// few JavaScript operators the handler applies to them: property access
// (`body.x`, `body?.x`), truthiness (`if (body?.company)`) and nullish
// coalescing (`??`).

module JsValue {

  datatype Option<+T> = None | Some(value: T)

  /** A parsed JSON value. `Num` carries the number's mathematical value. */
  datatype Value =
    | Null
    | Bool(b: bool)
    | Num(n: real)
    | Str(s: string)
    | Arr(items: seq<Value>)
    | Obj(fields: map<string, Value>)

  /** The own properties of a value. Only JSON objects have named properties;
      a string, number, boolean or array has none of the names the handler reads. */
  function Props(v: Value): map<string, Value>
  {
    if v.Obj? then v.fields else map[]
  }

  /** `obj[key]`: `None` plays the part of `undefined`. */
  function Lookup(m: map<string, Value>, key: string): Option<Value>
  {
    if key in m then Some(m[key]) else None
  }

  /** `v?.key`: undefined (None) on null and on values without that property. */
  function Prop(v: Value, key: string): Option<Value>
  {
    Lookup(Props(v), key)
  }

  /** JavaScript truthiness of a possibly undefined value. JSON cannot encode
      NaN, so the falsy values are exactly undefined, null, false, 0 (and -0) and "". */
  predicate Truthy(v: Option<Value>)
  {
    match v
    case None => false
    case Some(Null) => false
    case Some(Bool(b)) => b
    case Some(Num(n)) => n != 0.0
    case Some(Str(s)) => s != ""
    case Some(Arr(_)) => true
    case Some(Obj(_)) => true
  }

  /** `v ?? d`: the fallback is taken only when `v` is undefined or null. */
  function Coalesce(v: Option<Value>, d: Value): Value
  {
    match v
    case None => d
    case Some(Null) => d
    case Some(x) => x
  }

  /** `??` never falls back on a present non-null value, however falsy it is. */
  lemma CoalesceKeepsFalsy(d: Value)
    ensures Coalesce(Some(Str("")), d) == Str("")
    ensures Coalesce(Some(Num(0.0)), d) == Num(0.0)
    ensures Coalesce(Some(Bool(false)), d) == Bool(false)
  {
  }

  /** Every value that is neither undefined nor null is kept by `??`, and the
      result is null only when both sides are. */
  lemma CoalesceCharacterised(v: Option<Value>, d: Value)
    ensures (v == None || v == Some(Null)) ==> Coalesce(v, d) == d
    ensures (v.Some? && v.value != Null) ==> Coalesce(v, d) == v.value
    ensures Coalesce(v, d) == Null <==> (d == Null && (v == None || v == Some(Null)))
  {
  }
}
