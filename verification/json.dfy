/** Parsed JSON as the Ruby code sees it after JSON.parse(..., symbolize_names: true):
    objects are Hashes keyed by (symbolised) names, and JSON null is Ruby nil.
    Parsing and serialising belong to the json library and are not part of
    this model; they enter as the two functions of a Codec. */
module Json {
  import opened Outcomes

  datatype Json =
    | Null                             // nil
    | Bool(b: bool)
    | Number(n: int)
    | Str(s: string)
    | Array(items: seq<Json>)
    | Object(fields: map<string, Json>)

  /** Ruby truthiness: everything except nil and false. */
  predicate Truthy(j: Json) {
    !(j.Null? || j == Bool(false))
  }

  /** JSON.parse (None for JSON::ParserError) and #to_json. */
  datatype Codec = Codec(parse: string -> Option<Json>, serialize: Json -> string)

  /** The json library reads back what it wrote for j. */
  predicate RoundTrips(codec: Codec, j: Json) {
    codec.parse(codec.serialize(j)) == Some(j)
  }

  /** `value[:key]`: a Hash answers its entry or nil; nil and booleans have no
      `[]`; Integer, String and Array refuse a Symbol index. */
  function Index(j: Json, key: string): (r: Result<Json>)
    ensures j.Object? ==> r.Ok?
    ensures j.Object? && key in j.fields ==> r.value == j.fields[key]
    ensures j.Object? && key !in j.fields ==> r.value == Null
    ensures !j.Object? ==> r.Raised? && r.error in {NoMethodError, TypeError}
  {
    match j
    case Object(f) => Ok(if key in f then f[key] else Null)
    case Null => Raised(NoMethodError)
    case Bool(_) => Raised(NoMethodError)
    case _ => Raised(TypeError)
  }

  /** `value.fetch(:key)`: a Hash answers its entry or raises KeyError; an
      Array refuses a Symbol index; other values have no `fetch`. */
  function Fetch(j: Json, key: string): (r: Result<Json>)
    ensures r.Ok? <==> j.Object? && key in j.fields
    ensures r.Ok? ==> r.value == j.fields[key]
    ensures j.Object? && key !in j.fields ==> r == Raised(KeyError)
  {
    match j
    case Object(f) => if key in f then Ok(f[key]) else Raised(KeyError)
    case Array(_) => Raised(TypeError)
    case _ => Raised(NoMethodError)
  }
}
