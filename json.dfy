/** JSON documents as the handlers and the document store see them.
    A document is a JavaScript object: a map from property names to values,
    where a property that is absent (`undefined` in JavaScript) is simply a
    name that is not in the map. */
module Json {

  datatype Option<+T> = None | Some(value: T)

  datatype Result<+T, +E> = Success(value: T) | Failure(error: E)

  /** A JSON value. Numbers are integers here; arrays and nested objects are
      never inspected by the core, so they are one opaque case. */
  datatype Value =
    | Null
    | Bool(b: bool)
    | Num(n: int)
    | Str(s: string)
    | Composite

  type Doc = map<string, Value>

  /** `doc[name]`, with None standing for `undefined`. */
  function Get(doc: Doc, name: string): (v: Option<Value>)
    ensures v.Some? <==> name in doc
    ensures v.Some? ==> v.value == doc[name]
  {
    if name in doc then Some(doc[name]) else None
  }

  /** JavaScript truthiness: `undefined`, `null`, `false`, `0` and `""` are falsy. */
  predicate Truthy(v: Option<Value>)
  {
    match v
    case None => false
    case Some(Null) => false
    case Some(Bool(b)) => b
    case Some(Num(n)) => n != 0
    case Some(Str(s)) => s != ""
    case Some(Composite) => true
  }

  /** `typeof v === 'string'`. */
  predicate IsString(v: Option<Value>)
  {
    v.Some? && v.value.Str?
  }

  /** The JSON form of an array element: `undefined` is written as `null`. */
  function Serialized(v: Option<Value>): (j: Value)
    ensures v.Some? ==> j == v.value
    ensures v.None? ==> j == Null
  {
    match v
    case None => Null
    case Some(x) => x
  }
}
