/** Already-parsed JSON documents, and JavaScript property reads on them. */
module JsonValue {
  import opened Wrappers

  /** A value as `JSON.parse` produces it. A number is a `real`: a literal such as `1e400`
      that `JSON.parse` turns into `Infinity` is not represented, and neither is the
      rounding to a double. */
  datatype Json =
    | JNull
    | JBool(b: bool)
    | JNumber(n: real)
    | JString(s: string)
    | JArray(items: seq<Json>)
    | JObject(fields: map<string, Json>)

  /** `v[key]` for a value that is not `null`: the object's own field, or `undefined`
      (`None`) for an absent key and for every non-object value. None of the keys the
      client reads is a member of the object, string or array prototypes. */
  function Property(v: Json, key: string): (r: Option<Json>)
    ensures r.Some? <==> v.JObject? && key in v.fields
    ensures r.Some? ==> r.value == v.fields[key]
  {
    match v
    case JObject(fields) => if key in fields then Some(fields[key]) else None
    case _ => None
  }

  /** `typeof v[key] === "string" ? v[key] : null` */
  function StringProperty(v: Json, key: string): (r: Option<string>)
    ensures r.Some? <==> Property(v, key).Some? && Property(v, key).value.JString?
    ensures r.Some? ==> Property(v, key) == Some(JString(r.value))
  {
    match Property(v, key)
    case Some(JString(s)) => Some(s)
    case _ => None
  }

  /** `typeof v[key] === "number" ? v[key] : null` */
  function NumberProperty(v: Json, key: string): (r: Option<real>)
    ensures r.Some? <==> Property(v, key).Some? && Property(v, key).value.JNumber?
    ensures r.Some? ==> Property(v, key) == Some(JNumber(r.value))
  {
    match Property(v, key)
    case Some(JNumber(n)) => Some(n)
    case _ => None
  }

  /** Whether `v == null` in the loose sense `??` uses: `null` or `undefined`. */
  predicate IsNullish(v: Option<Json>)
  {
    v == None || v == Some(JNull)
  }
}
