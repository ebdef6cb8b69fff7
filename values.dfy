/** The values the pipeline handles: JSON values (which are also what an
    Airtable field holds), Airtable records, and the text codec the model
    takes as given. */
module Values {
  import opened Wrappers

  /** A JSON value; also the value of one Airtable field. `JNull` is Python's
      `None`. Numbers are kept as reals (Python's int and float alike). */
  datatype Json =
    | JNull
    | JBool(b: bool)
    | JNum(n: real)
    | JStr(s: string)
    | JArr(items: seq<Json>)
    | JObj(members: map<string, Json>)

  /** Python truthiness: `None`, `False`, `0`, `""`, `[]` and `{}` are false. */
  predicate Truthy(v: Json) {
    match v
    case JNull => false
    case JBool(b) => b
    case JNum(n) => n != 0.0
    case JStr(s) => s != ""
    case JArr(items) => items != []
    case JObj(members) => members != map[]
  }

  type Fields = map<string, Json>

  /** An Airtable record `{"id": ..., "fields": {...}}`; `fields` may be absent. */
  datatype Record = Record(id: string, fields: Option<Fields>)

  /** `record.get("fields", {})`. */
  function FieldsOf(r: Record): Fields {
    match r.fields
    case None => map[]
    case Some(f) => f
  }

  /** `obj.get(key, default)` on a JSON object's members. */
  function Lookup(m: Fields, key: string, default: Json): Json {
    if key in m then m[key] else default
  }

  /** The errors that a per-applicant operation reports in its result
      (the source reports them as `str(e)` or as a fixed message). */
  datatype Error =
    | RecordNotFound          // the record store has no record with that id
    | NoCompressedJson        // "No compressed JSON found"
    | InvalidJson             // `json.loads` failed on the stored document
    | NotAnObject             // `.get` called on a JSON value that is not an object
    | NotIterable             // `for ... in` over a JSON value that is not a list, text or object
    | WriteRefused            // the record store refused a create or an update
    | LlmCallFailed           // the completion call raised
    | MalformedLlmResult      // the parsed reply lacks a key or has the wrong type
    | NoTokenCount            // `response.usage` is None: reading its token count raises

  /** JSON text handling, which the model does not implement: `encode` is
      `json.dumps(doc)`, `decode` is `json.loads` (None when it raises),
      `canonical` is `json.dumps(doc, sort_keys=True)` and `digest` is the
      MD5 hex digest of a text. */
  datatype Codec = Codec(
    encode: Json -> string,
    decode: string -> Option<Json>,
    canonical: Json -> string,
    digest: string -> string)

  /** `json.loads(json.dumps(doc)) == doc`. */
  ghost predicate RoundTrips(c: Codec) {
    forall j :: c.decode(c.encode(j)) == Some(j)
  }

  /** `json.loads(v)` on a stored field value: only a string can be parsed;
      any other value makes `json.loads` raise. */
  function ParseStored(c: Codec, v: Json): Option<Json> {
    if v.JStr? then c.decode(v.s) else None
  }
}
