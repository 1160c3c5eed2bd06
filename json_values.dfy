/** The JavaScript values that `JSON.parse` can produce, and the parts of
    JavaScript's semantics the pipeline applies to them: truthiness and
    property access. Decoding itself is not modelled here: every member that
    decodes text receives the decoder as a parameter. */
module JsonValues {
  import opened Wrappers

  datatype Json =
    | Null
    | Bool(b: bool)
    | Num(n: real)
    | Str(s: string)
    | Arr(items: seq<Json>)
    | Obj(fields: map<string, Json>)

  /** `JSON.parse`: the decoded value, or the message of the SyntaxError it
      throws. */
  type Decoder = string -> Result<Json, string>

  /** JavaScript's truthiness for a decoded value. */
  predicate Truthy(j: Json) {
    match j
    case Null => false
    case Bool(b) => b
    case Num(n) => n != 0.0
    case Str(s) => s != []
    case _ => true
  }

  /** `j?.[key]` on a value that is present: only objects have the keys a
      JSON text names; `None` stands for `undefined`. */
  function Property(j: Json, key: string): Option<Json> {
    if j.Obj? && key in j.fields then Some(j.fields[key]) else None
  }
}
