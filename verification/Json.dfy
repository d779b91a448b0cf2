/** JSON values as both `serde_json` and PostgreSQL's `jsonb` see them: object
    members have no order, numbers compare by value. */
module Json {
  import opened Prelude

  datatype Json =
    | JNull
    | JBool(b: bool)
    | JNumber(n: real)
    | JString(s: string)
    | JArray(items: seq<Json>)
    | JObject(fields: map<string, Json>)
  {
    predicate Composite() {
      JObject? || JArray?
    }
  }

  /** `doc -> key`: the member of that name; nothing when `doc` is not an object. */
  function Member(doc: Json, key: string): Option<Json> {
    if doc.JObject? && key in doc.fields then Some(doc.fields[key]) else None
  }

  /** `jsonb` containment below the top level: same kind of value, an object has
      every member of the pattern, an array has a match for every element. */
  predicate ContainsNested(doc: Json, pattern: Json)
    decreases pattern
  {
    match pattern
    case JObject(want) =>
      && doc.JObject?
      && forall k | k in want :: k in doc.fields && ContainsNested(doc.fields[k], want[k])
    case JArray(want) =>
      && doc.JArray?
      && forall i | 0 <= i < |want| ::
        exists j | 0 <= j < |doc.items| :: ContainsNested(doc.items[j], want[i])
    case _ => doc == pattern
  }

  /** `doc @> pattern`. A top-level array also contains a bare scalar. */
  predicate Contains(doc: Json, pattern: Json) {
    if doc.JArray? && !pattern.Composite() then
      exists j | 0 <= j < |doc.items| :: doc.items[j] == pattern
    else
      ContainsNested(doc, pattern)
  }
}
