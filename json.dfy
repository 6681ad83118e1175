/** A serde data value, as `serde_yaml::to_value` builds it for the
    command line's output and as the interface dispatch reads it. Objects
    are field lists in the order serde writes the fields, which is the
    order an order-preserving map (a `serde_yaml::Mapping`) keeps; a
    `serde_json::Map` without its `preserve_order` feature sorts its keys
    instead, and that order is not modelled. */
module Json {

  datatype Json =
    | JNull
    | JBool(b: bool)
    | JNumber(n: int)
    | JString(s: string)
    | JArray(items: seq<Json>)
    | JObject(fields: seq<(string, Json)>)

  /** The keys of an object's fields, in order. */
  function Keys(fields: seq<(string, Json)>): (ks: seq<string>)
    ensures |ks| == |fields|
    ensures forall i :: 0 <= i < |fields| ==> ks[i] == fields[i].0
  {
    if fields == [] then [] else [fields[0].0] + Keys(fields[1..])
  }

  /** An object field `key: value`, emitted only when `value` is present
      (`skip_serializing_if = "Option::is_none"`). */
  function OptField(key: string, present: bool, value: Json): seq<(string, Json)>
  {
    if present then [(key, value)] else []
  }
}
