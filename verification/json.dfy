/** The value JSON.parse hands back for the language model's reply, and the
    two JavaScript operations the route applies to it: a property read and
    the loose comparison `!= null`. */
module Json {
  import opened Wrappers

  /** A parsed JSON value. Numbers keep their literal text; member order of
      objects is not kept. */
  datatype Json =
    | JNull
    | JBool(b: bool)
    | JNumber(literal: string)
    | JString(text: string)
    | JArray(items: seq<Json>)
    | JObject(members: map<string, Json>)

  /** Reading property `key` of a non-null value: an object's own member, and
      `undefined` (None) for anything else. This is exact only for keys that
      are neither an index nor `length` and are not defined on any built-in
      prototype: JavaScript reads `[x]["0"]` as x and `"abc".length` as 3,
      which this function does not model. Every key read here (`query`,
      `name`, `contact`, `doctor`, `date`, `time`, `obj`, `message`) is of
      that kind. */
  function Get(v: Json, key: string): (r: Option<Json>)
    ensures r.Some? <==> v.JObject? && key in v.members
    ensures r.Some? ==> r.value == v.members[key]
  {
    if v.JObject? && key in v.members then Some(v.members[key]) else None
  }

  /** `x != null`: loose inequality is false for both null and undefined,
      and true for every other value. */
  predicate NotNullish(x: Option<Json>)
    ensures NotNullish(x) <==> x != None && x != Some(JNull)
  {
    x.Some? && x.value != JNull
  }

  /** `!= null` is not a truthiness test: the falsy values "", false and 0
      pass it, and only null and undefined fail it. */
  lemma FalsyValuesAreNotNull()
    ensures NotNullish(Some(JString(""))) && NotNullish(Some(JBool(false)))
    ensures NotNullish(Some(JNumber("0")))
    ensures !NotNullish(None) && !NotNullish(Some(JNull))
  {
  }
}
