/** The values JSON.parse can produce, and the two JavaScript operations the agent applies to
    them: truthiness and property access. */
module JsonValues {

  /** Numbers are modelled as integers (prices in cents); JavaScript's `undefined` and `null`
      are both `JNull`, since the agent only ever tests such a value for truthiness. */
  datatype Json =
    | JNull
    | JBool(b: bool)
    | JNum(n: int)
    | JStr(s: string)
    | JArr(elems: seq<Json>)
    | JObj(fields: map<string, Json>)

  /** JavaScript truthiness: null, false, 0 and "" are falsy; arrays and objects are truthy. */
  predicate Truthy(v: Json)
  {
    match v
    case JNull => false
    case JBool(b) => b
    case JNum(n) => n != 0
    case JStr(s) => s != ""
    case JArr(_) => true
    case JObj(_) => true
  }

  /** `v.key` (and `v?.key`): a property of an object, and undefined for anything else. */
  function Field(v: Json, key: string): Json
  {
    if v.JObj? && key in v.fields then v.fields[key] else JNull
  }
}
