/** A decoded JSON document, as `JSON.parse` hands it to the application, and
    the JavaScript truthiness rules the application applies to its fields. */
module Json {
  import opened Wrappers

  /** Numbers are kept as exact reals: no arithmetic is done on them here. */
  datatype Json =
    | JNull
    | JBool(b: bool)
    | JNum(n: real)
    | JStr(s: string)
    | JArr(items: seq<Json>)
    | JObj(fields: map<string, Json>)

  /** JavaScript truthiness of a JSON value (`NaN` cannot come out of JSON). */
  predicate Truthy(v: Json) {
    match v
    case JNull => false
    case JBool(b) => b
    case JNum(n) => n != 0.0
    case JStr(s) => s != ""
    case JArr(_) => true
    case JObj(_) => true
  }

  /** `v.key`: `None` stands for `undefined`, which is what every non-object
      value and every object without the key yields. */
  function Prop(v: Json, key: string): (r: Option<Json>)
    ensures r.Some? <==> v.JObj? && key in v.fields
  {
    if v.JObj? && key in v.fields then Some(v.fields[key]) else None
  }

  /** `!!v.key` */
  predicate TruthyProp(v: Json, key: string) {
    Prop(v, key).Some? && Truthy(Prop(v, key).value)
  }

  /** `typeof v.key === 'number'` */
  predicate NumberProp(v: Json, key: string) {
    Prop(v, key).Some? && Prop(v, key).value.JNum?
  }
}
