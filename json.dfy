/** JSON values as `encoding/json` decodes them into `interface{}`, and
    the decoding of a document into a `map[string]interface{}`. The text
    decoder itself is not modelled: it is a parameter of the operations
    that decode. */
module Json {
  import opened Wrappers

  datatype Json =
    | Null
    | Bool(b: bool)
    | Number(text: string)
    | Str(s: string)
    | Array(items: seq<Json>)
    | Object(fields: map<string, Json>)

  /** The JSON type name `encoding/json` reports when a value cannot be
      stored in a map. */
  function TypeName(v: Json): string {
    match v
    case Null => "null"
    case Bool(_) => "bool"
    case Number(_) => "number"
    case Str(_) => "string"
    case Array(_) => "array"
    case Object(_) => "object"
  }

  /** `json.Unmarshal` into a `map[string]interface{}`, given what the text
      decodes to: an object fills the map, `null` leaves it nil (`None`),
      any other value is a type error, and a syntax error is returned as
      it is. */
  function UnmarshalObject(decoded: Result<Json, string>): (r: Result<Option<map<string, Json>>, string>)
    ensures decoded.Ok? && decoded.value.Object? ==> r == Ok(Some(decoded.value.fields))
    ensures decoded.Ok? && decoded.value.Null? ==> r == Ok(None)
    ensures r.Err? <==> decoded.Err? || !(decoded.value.Object? || decoded.value.Null?)
  {
    match decoded
    case Err(e) => Err(e)
    case Ok(Object(fields)) => Ok(Some(fields))
    case Ok(Null) => Ok(None)
    case Ok(v) => Err("json: cannot unmarshal " + TypeName(v) + " into Go value of type map[string]interface {}")
  }

  /** The JSON array of the given strings. */
  function Strings(names: seq<string>): (v: Json)
    ensures v.Array? && |v.items| == |names|
    ensures forall i :: 0 <= i < |names| ==> v.items[i] == Str(names[i])
  {
    Array(seq(|names|, i requires 0 <= i < |names| => Str(names[i])))
  }

  /** How `encoding/json` encodes a `[]string` built by appending to a nil
      slice: `null` when nothing was appended, the array otherwise. */
  function StringSlice(names: seq<string>): (v: Json)
    ensures names == [] <==> v == Null
    ensures names != [] ==> v == Strings(names)
  {
    if names == [] then Null else Strings(names)
  }
}
