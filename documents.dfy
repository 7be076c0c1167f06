/**
 * Stored MongoDB documents as pymongo decodes them: string-keyed maps of
 * loosely typed BSON values, and Python's truthiness test on them.
 */
module Documents {
  import opened Wrappers
  import opened IsoTime

  datatype Value =
    | Null
    | Bool(b: bool)
    | Int(i: int)
    | Str(s: string)
    | List(items: seq<Value>)
    | Object(fields: map<string, Value>)
    | DateTime(t: Timestamp)
    | ObjectId(hex: string)

  /** A decoded document (a Python `dict`). */
  type Document = map<string, Value>

  /** `bool(v)` in Python. */
  predicate Truthy(v: Value)
  {
    match v
    case Null => false
    case Bool(b) => b
    case Int(i) => i != 0
    case Str(s) => s != ""
    case List(items) => items != []
    case Object(fields) => fields != map[]
    case DateTime(_) => true
    case ObjectId(_) => true
  }

  /** `bool(doc)` for what `find_one` returns: `None` and `{}` are falsy. */
  predicate DocTruthy(doc: Option<Document>)
  {
    doc.Some? && Truthy(Object(doc.value))
  }

  /** `bool(s)` for an `Optional[str]` parameter: `None` and `""` are falsy. */
  predicate NonEmpty(s: Option<string>)
  {
    s.Some? && Truthy(Str(s.value))
  }

  /** `d.get(key, default)`. */
  function Get(d: Document, key: string, default: Value): (v: Value)
  {
    if key in d then d[key] else default
  }
}
