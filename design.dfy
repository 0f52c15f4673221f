/** The document-store configuration installed when the plugin registers
    (server/index.js): the update validator and the `by_owner` index. */
module Design {
  import opened Json

  /** What the store does with a write after running the validator on it. */
  datatype Verdict = Accepted | Forbidden(reason: string)

  const TypeMustBeString := "doc.type must be a string"

  /** `validateDocUpdate(newDoc, oldDoc, userCtx, secObj)`: a deletion always
      passes; any other write needs a string `type`, and is refused with
      `{ forbidden: 'doc.type must be a string' }` otherwise. The old document,
      the user context and the security object are only logged, so they are
      not parameters here. */
  function ValidateDocUpdate(newDoc: Doc): (v: Verdict)
    ensures Truthy(Get(newDoc, "_deleted")) ==> v == Accepted
    ensures !Truthy(Get(newDoc, "_deleted")) && !IsString(Get(newDoc, "type")) ==> v == Forbidden(TypeMustBeString)
    ensures IsString(Get(newDoc, "type")) ==> v == Accepted
  {
    if Truthy(Get(newDoc, "_deleted")) then Accepted
    else if !IsString(Get(newDoc, "type")) then Forbidden(TypeMustBeString)
    else Accepted
  }

  /** A row of a view: the emitted key and value. */
  datatype ViewRow = ViewRow(key: seq<Value>, value: Doc)

  /** The `by_owner` map function: `emit([doc.owner, doc.type], doc)`. */
  function ByOwnerMap(doc: Doc): (rows: seq<ViewRow>)
    ensures |rows| == 1 && rows[0].value == doc && |rows[0].key| == 2
    ensures "owner" in doc ==> rows[0].key[0] == doc["owner"]
    ensures "owner" !in doc ==> rows[0].key[0] == Null
    ensures "type" in doc ==> rows[0].key[1] == doc["type"]
    ensures "type" !in doc ==> rows[0].key[1] == Null
  {
    [ViewRow([Serialized(Get(doc, "owner")), Serialized(Get(doc, "type"))], doc)]
  }

  /** The view holds a row with key `key` for `doc`. */
  predicate EmitsKey(doc: Doc, key: seq<Value>)
  {
    exists i :: 0 <= i < |ByOwnerMap(doc)| && ByOwnerMap(doc)[i].key == key
  }

  /** Every document gives exactly one row of the index, whose value is the
      document; that row answers the key `[owner, type]` (two strings)
      exactly when the document's `owner` and `type` are those strings. */
  lemma ByOwnerRow(doc: Doc, owner: string, type_: string)
    ensures |ByOwnerMap(doc)| == 1 && ByOwnerMap(doc)[0].value == doc
    ensures EmitsKey(doc, [Str(owner), Str(type_)])
            <==> Get(doc, "owner") == Some(Str(owner)) && Get(doc, "type") == Some(Str(type_))
  {
  }
}
