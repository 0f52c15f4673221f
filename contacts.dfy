/** The contact handlers (server/contacts.js): how a storage key is built
    from the caller and the contact id, how stored documents are turned into
    responses (`internals.parse`), the documents `put` and `remove` write,
    which query `list` sends, and how store errors become HTTP errors.
    The store calls themselves are not modelled: what a call returns is a
    parameter of the function that shapes the reply. */
module Contacts {
  import opened Json
  import opened Strings

  const KeyPrefix := "contact/"
  const ContactType := "contact"

  /** The storage key of contact `id` of user `owner`, as get, put and remove
      all build it: `'contact/' + owner + '/' + id`. */
  function StorageKey(owner: string, id: string): (key: string)
    ensures HasPrefix(KeyPrefix, key)
    ensures |key| == |KeyPrefix| + |owner| + 1 + |id|
  {
    KeyPrefix + owner + "/" + id
  }

  /** The same id under two different owners never shares a key. */
  lemma {:induction false} OwnersDoNotCollide(owner1: string, owner2: string, id: string)
    requires owner1 != owner2
    ensures StorageKey(owner1, id) != StorageKey(owner2, id)
  {
    var k1, k2 := StorageKey(owner1, id), StorageKey(owner2, id);
    if |owner1| == |owner2| {
      assert k1[|KeyPrefix|..|KeyPrefix| + |owner1|] == owner1;
      assert k2[|KeyPrefix|..|KeyPrefix| + |owner2|] == owner2;
    }
  }

  /** When owners contain no '/', a key determines both its owner and its id. */
  lemma {:induction false} StorageKeyInjective(owner1: string, id1: string, owner2: string, id2: string)
    requires '/' !in owner1 && '/' !in owner2
    requires StorageKey(owner1, id1) == StorageKey(owner2, id2)
    ensures owner1 == owner2 && id1 == id2
  {
    var k := StorageKey(owner1, id1);
    var n := |KeyPrefix|;
    assert k[n..] == owner1 + "/" + id1 && k[n..] == owner2 + "/" + id2;
    SplitAtFirst(owner1, id1, '/');
    SplitAtFirst(owner2, id2, '/');
    assert [owner1] + Split(id1, '/') == [owner2] + Split(id2, '/');
    assert owner1 == ([owner1] + Split(id1, '/'))[0];
    assert owner1 == owner2;
    assert |id1| == |id2|;
    assert id1 == k[n + |owner1| + 1..] == id2;
  }

  /** Without that restriction two different (owner, id) pairs can share a key:
      owner "a/b" with id "c" and owner "a" with id "b/c". */
  lemma SlashInOwnerCollides()
    ensures StorageKey("a/b", "c") == StorageKey("a", "b/c")
  {
  }

  // ---------------------------------------------------------------------------
  // internals.parse

  /** `doc._id.split` throws a TypeError when `_id` is not a string. */
  datatype ParseError = IdNotString

  /** The `id` that `internals.parse` derives from an `_id`:
      `_id.split('/').slice(1).join('/')`. */
  function ParsedId(docId: string): (id: string)
    ensures '/' !in docId ==> id == []
    ensures '/' in docId ==> id == docId[IndexOf(docId, '/') + 1..]
  {
    DropFirstPiece(docId, '/')
  }

  /** For an id in the contact namespace, the parsed id is what follows
      "contact/", and putting "contact/" back in front gives the key again. */
  lemma ParsedIdOfContactKey(rest: string)
    ensures ParsedId(KeyPrefix + rest) == rest
  {
    assert KeyPrefix + rest == "contact" + ['/'] + rest;
    DropFirstPieceAfterSeparator("contact", rest, '/');
  }

  /** For a key built from (owner, id), parse yields `owner + "/" + id`, not
      the bare contact id. */
  lemma ParsedIdOfStorageKey(owner: string, id: string)
    ensures ParsedId(StorageKey(owner, id)) == owner + "/" + id
    ensures KeyPrefix + ParsedId(StorageKey(owner, id)) == StorageKey(owner, id)
  {
    assert StorageKey(owner, id) == KeyPrefix + (owner + "/" + id);
    ParsedIdOfContactKey(owner + "/" + id);
  }

  /** `internals.parse` on a document value: set `id`, then delete `_id` and
      `_deleted_conflicts`. */
  function ParseDoc(doc: Doc): (r: Result<Doc, ParseError>)
    ensures r.Success? <==> IsString(Get(doc, "_id"))
    ensures r.Success? ==> r.value.Keys == doc.Keys - {"_id", "_deleted_conflicts"} + {"id"}
    ensures r.Success? ==> r.value["id"] == Str(ParsedId(doc["_id"].s))
    ensures r.Success? ==> forall f :: f in doc && f !in {"_id", "_deleted_conflicts", "id"} ==> r.value[f] == doc[f]
  {
    match Get(doc, "_id")
    case Some(Str(docId)) =>
      Success(doc["id" := Str(ParsedId(docId))] - {"_id"} - {"_deleted_conflicts"})
    case _ => Failure(IdNotString)
  }

  /** A JavaScript object whose properties the handlers set and delete in place. */
  class JsObject {
    var fields: Doc

    constructor ()
      ensures fields == map[]
    {
      fields := map[];
    }

    /** `obj[name] = v` */
    method Set(name: string, v: Value)
      modifies this
      ensures fields == old(fields)[name := v]
    {
      fields := fields[name := v];
    }

    /** `delete obj[name]`; deleting an absent property changes nothing. */
    method Delete(name: string)
      modifies this
      ensures fields == old(fields) - {name}
    {
      fields := fields - {name};
    }
  }

  /** `internals.parse(doc)`: rewrites `doc` in place and returns the same
      object. When `_id` is not a string, the TypeError is raised before
      anything is changed. */
  method Parse(doc: JsObject) returns (r: Result<JsObject, ParseError>)
    modifies doc
    ensures ParseDoc(old(doc.fields)).Success? ==> r == Success(doc) && doc.fields == ParseDoc(old(doc.fields)).value
    ensures ParseDoc(old(doc.fields)).Failure? ==> r == Failure(IdNotString) && doc.fields == old(doc.fields)
  {
    if "_id" in doc.fields && doc.fields["_id"].Str? {
      var docId := doc.fields["_id"].s;
      doc.Set("id", Str(Join(Split(docId, '/')[1..], '/')));
      doc.Delete("_id");
      doc.Delete("_deleted_conflicts");
      r := Success(doc);
    } else {
      r := Failure(IdNotString);
    }
  }

  /** `rows.map(row => internals.parse(row.doc))`: every row parsed, or the
      TypeError of the first row whose `_id` is not a string. */
  function ParseAll(docs: seq<Doc>): (r: Result<seq<Doc>, ParseError>)
    ensures r.Success? <==> forall i :: 0 <= i < |docs| ==> ParseDoc(docs[i]).Success?
    ensures r.Success? ==> |r.value| == |docs|
    ensures r.Success? ==> forall i :: 0 <= i < |docs| ==> r.value[i] == ParseDoc(docs[i]).value
  {
    if docs == [] then Success([])
    else
      match ParseDoc(docs[0])
      case Failure(e) => Failure(e)
      case Success(d) =>
        match ParseAll(docs[1..])
        case Failure(e) => Failure(e)
        case Success(ds) =>
          assert forall i :: 1 <= i < |docs| ==> docs[i] == docs[1..][i - 1];
          Success([d] + ds)
  }

  // ---------------------------------------------------------------------------
  // exports.put and exports.remove: the documents written

  /** The payload properties the put route accepts; every other property
      is refused by the route's payload schema before the handler runs. */
  const ProfileFields: set<string> :=
    {"givenName", "familyName", "org", "email", "tel", "streetAddress",
     "locality", "region", "postCode", "country"}

  /** The profile properties the schema requires (all but `org`). */
  const RequiredFields: set<string> := ProfileFields - {"org"}

  /** What the payload schema checks, short of the e-mail format and the
      non-empty-string rule: only known properties, all required ones
      present, every value a string. */
  predicate ValidPayload(payload: Doc)
  {
    && payload.Keys <= ProfileFields
    && RequiredFields <= payload.Keys
    && forall f :: f in payload ==> payload[f].Str?
  }

  /** The properties the put handler stamps over the payload. */
  const ServerFields: set<string> := {"_id", "type", "owner", "createdAt"}

  /** The document `exports.put.handler` writes: a copy of every payload
      property, then `_id`, `type`, `owner` and `createdAt` set on top.
      `now` is the creation time as it is written to the store. */
  function PutDoc(payload: Doc, owner: string, id: string, now: string): (doc: Doc)
    ensures doc.Keys == payload.Keys + ServerFields
    ensures forall f :: f in payload && f !in ServerFields ==> doc[f] == payload[f]
    ensures doc["_id"] == Str(StorageKey(owner, id))
    ensures doc["type"] == Str(ContactType) && doc["owner"] == Str(owner) && doc["createdAt"] == Str(now)
  {
    payload["_id" := Str(StorageKey(owner, id))]
           ["type" := Str(ContactType)]
           ["owner" := Str(owner)]
           ["createdAt" := Str(now)]
  }

  /** A put sends nothing of an earlier version: two puts of the same
      payload for the same (owner, id) send documents that differ at most in
      `createdAt`, which holds the time of the later put. Whether the store
      accepts the second over the first is its revision check, not modelled. */
  lemma PutResetsCreatedAt(payload: Doc, owner: string, id: string, then_: string, now: string)
    ensures PutDoc(payload, owner, id, now) == PutDoc(payload, owner, id, then_)["createdAt" := Str(now)]
    ensures then_ != now ==> PutDoc(payload, owner, id, now) != PutDoc(payload, owner, id, then_)
  {
  }

  /** The put handler as it runs: `Object.keys(payload).reduce` copies the
      payload property by property into a fresh object, then the four server
      properties are assigned one after the other. */
  method BuildPutDoc(payload: Doc, owner: string, id: string, now: string) returns (doc: JsObject)
    ensures fresh(doc)
    ensures doc.fields == PutDoc(payload, owner, id, now)
  {
    doc := new JsObject();
    var pending := payload.Keys;
    while pending != {}
      invariant pending <= payload.Keys
      invariant doc.fields == map f | f in payload.Keys - pending :: payload[f]
      decreases |pending|
    {
      var f :| f in pending;
      doc.Set(f, payload[f]);
      pending := pending - {f};
    }
    assert doc.fields == payload;
    doc.Set("_id", Str(KeyPrefix + owner + "/" + id));
    doc.Set("type", Str(ContactType));
    doc.Set("owner", Str(owner));
    doc.Set("createdAt", Str(now));
  }

  /** The document `exports.remove.handler` writes: a deletion marker for the
      owner's key at the revision the caller supplied. */
  function Tombstone(owner: string, id: string, rev: string): (doc: Doc)
    ensures doc.Keys == {"_id", "_rev", "_deleted"}
    ensures doc["_id"] == Str(StorageKey(owner, id))
    ensures doc["_rev"] == Str(rev) && doc["_deleted"] == Bool(true)
  {
    map["_id" := Str(StorageKey(owner, id)), "_rev" := Str(rev), "_deleted" := Bool(true)]
  }

  /** put and remove write, under `_id`, the very key get reads
      (`GetReply` reads `StorageKey(owner, id)`). */
  lemma SameKeyEverywhere(payload: Doc, owner: string, id: string, now: string, rev: string)
    ensures PutDoc(payload, owner, id, now)["_id"] == Str(StorageKey(owner, id))
    ensures Tombstone(owner, id, rev)["_id"] == Str(StorageKey(owner, id))
  {
  }

  /** The document as the store holds it after a put: the handler's document
      plus the revision the store assigned. */
  function StoredPut(payload: Doc, owner: string, id: string, now: string, rev: string): (stored: Doc)
  {
    PutDoc(payload, owner, id, now)["_rev" := Str(rev)]
  }

  /** The properties whose payload value does not reach a reader: those the
      handler, the store or parse overwrite or delete. */
  const Shadowed: set<string> := ServerFields + {"_rev", "id", "_deleted_conflicts"}

  /** Reading back what put wrote gives every other payload property
      unchanged, `type`, `owner`, `createdAt` and `_rev` as stamped, `id`
      equal to `owner + "/" + id` (not the bare id), and no `_id`. */
  lemma {:induction false} PutThenParse(payload: Doc, owner: string, id: string, now: string, rev: string)
    ensures ParseDoc(StoredPut(payload, owner, id, now, rev)).Success?
    ensures var r := ParseDoc(StoredPut(payload, owner, id, now, rev)).value;
            && r.Keys == payload.Keys - {"_id", "_deleted_conflicts"} + {"type", "owner", "createdAt", "_rev", "id"}
            && (forall f :: f in payload && f !in Shadowed ==> f in r && r[f] == payload[f])
            && r["id"] == Str(owner + "/" + id)
            && r["owner"] == Str(owner) && r["type"] == Str(ContactType)
            && r["createdAt"] == Str(now) && r["_rev"] == Str(rev)
  {
    var put := PutDoc(payload, owner, id, now);
    var stored := StoredPut(payload, owner, id, now, rev);
    assert stored["_id"] == Str(StorageKey(owner, id));
    var r := ParseDoc(stored).value;
    assert r["id"] == Str(owner + "/" + id) by {
      ParsedIdOfStorageKey(owner, id);
    }
    assert stored.Keys == payload.Keys + ServerFields + {"_rev"};
    assert r.Keys == stored.Keys - {"_id", "_deleted_conflicts"} + {"id"};
    forall f | f in payload && f !in Shadowed
      ensures f in r && r[f] == payload[f]
    {
      assert stored[f] == put[f] == payload[f];
    }
  }

  /** For a payload the route's schema admits, reading back what put wrote
      gives every payload property unchanged: no profile property is one the
      handler, the store or parse overwrites. */
  lemma ValidPutReadsBackPayload(payload: Doc, owner: string, id: string, now: string, rev: string)
    requires ValidPayload(payload)
    ensures ParseDoc(StoredPut(payload, owner, id, now, rev)).Success?
    ensures forall f :: f in payload ==>
              f in ParseDoc(StoredPut(payload, owner, id, now, rev)).value
              && ParseDoc(StoredPut(payload, owner, id, now, rev)).value[f] == payload[f]
  {
    assert ProfileFields !! Shadowed;
    PutThenParse(payload, owner, id, now, rev);
  }

  // ---------------------------------------------------------------------------
  // Error replies

  /** An error reported by the document store client. */
  datatype StoreError = StoreError(statusCode: Option<int>, message: string)

  /** What a handler replies with when it does not succeed. */
  datatype Failure =
    | Http(status: int, message: string)   // `Boom.wrap(err, err.statusCode || 500, err.message)`
    | Forwarded(err: StoreError)           // the store's error handed to `reply` unwrapped
    | Thrown(e: ParseError)                // a TypeError escaping `internals.parse`

  /** `err.statusCode || 500`: the store's own status, unless it is missing or 0. */
  function ErrorStatus(err: StoreError): (status: int)
    ensures status != 0
    ensures err.statusCode.Some? && err.statusCode.value != 0 ==> status == err.statusCode.value
    ensures err.statusCode.None? || err.statusCode == Some(0) ==> status == 500
  {
    match err.statusCode
    case Some(code) => if code != 0 then code else 500
    case None => 500
  }

  /** The error reply of get, put and remove. */
  function WrapError(err: StoreError): (f: Failure)
    ensures f.Http? && f.message == err.message
    ensures f.status == ErrorStatus(err)
  {
    Http(ErrorStatus(err), err.message)
  }

  /** `internals.getOne` for caller `owner` and contact `id`: `read` stands
      for the store's answer to a read of one key, and the handler reads
      `StorageKey(owner, id)`. */
  function GetReply(read: string -> Result<Doc, StoreError>, owner: string, id: string): (r: Result<Doc, Failure>)
    ensures var fetched := read(StorageKey(owner, id));
            && (fetched.Failure? ==> r == Failure(WrapError(fetched.error)))
            && (fetched.Success? && ParseDoc(fetched.value).Success? ==> r == Success(ParseDoc(fetched.value).value))
            && (fetched.Success? && ParseDoc(fetched.value).Failure? ==> r == Failure(Thrown(IdNotString)))
  {
    match read(KeyPrefix + owner + "/" + id)
    case Failure(err) => Failure(WrapError(err))
    case Success(doc) =>
      match ParseDoc(doc)
      case Success(d) => Success(d)
      case Failure(e) => Failure(Thrown(e))
  }

  /** A caller's get depends on nothing in the store but the caller's own
      key: two stores that agree on that key give the same reply, whatever
      they hold under other owners. */
  lemma GetSeesOnlyOwnKey(read1: string -> Result<Doc, StoreError>, read2: string -> Result<Doc, StoreError>, owner: string, id: string)
    requires read1(StorageKey(owner, id)) == read2(StorageKey(owner, id))
    ensures GetReply(read1, owner, id) == GetReply(read2, owner, id)
  {
  }

  /** A get after a put: when the store holds what put wrote under the
      caller's key, get returns it parsed, which `PutThenParse` spells out. */
  lemma PutThenGet(read: string -> Result<Doc, StoreError>, payload: Doc, owner: string, id: string, now: string, rev: string)
    requires read(StorageKey(owner, id)) == Success(StoredPut(payload, owner, id, now, rev))
    ensures GetReply(read, owner, id) == Success(ParseDoc(StoredPut(payload, owner, id, now, rev)).value)
    ensures GetReply(read, owner, id).value["id"] == Str(owner + "/" + id)
    ensures GetReply(read, owner, id).value["owner"] == Str(owner)
  {
    PutThenParse(payload, owner, id, now, rev);
  }

  /** The put and remove handlers once the store has answered the write: the
      store's answer (`{ ok, id, rev }`) is passed on as it is. */
  function WriteReply<T>(written: Result<T, StoreError>): (r: Result<T, Failure>)
    ensures written.Success? ==> r == Success(written.value)
    ensures written.Failure? ==> r == Failure(WrapError(written.error))
  {
    match written
    case Success(data) => Success(data)
    case Failure(err) => Failure(WrapError(err))
  }

  // ---------------------------------------------------------------------------
  // exports.list

  /** `req.auth.credentials`: the caller's user id and whether it is an admin. */
  datatype Credentials = Credentials(uid: string, isAdmin: bool)

  /** The two store queries `list` can send. */
  datatype Query =
    | AllDocs(startkey: string, endkey: string)   // `_all_docs` with `include_docs`
    | ByOwnerView(key: seq<Value>)               // the `by_owner` view

  const AdminStartKey := "contact/"
  const AdminEndKey := "contact0"

  /** The query `exports.list.handler` sends for the caller. */
  function ListQuery(creds: Credentials): (q: Query)
    ensures q.AllDocs? <==> creds.isAdmin
    ensures q.AllDocs? ==> q.startkey == AdminStartKey && q.endkey == AdminEndKey
    ensures q.ByOwnerView? ==> q.key == [Str(creds.uid), Str(ContactType)]
  {
    if creds.isAdmin then AllDocs(AdminStartKey, AdminEndKey)
    else ByOwnerView([Str(creds.uid), Str(ContactType)])
  }

  /** `reply(err || data)` once the store has answered with its rows: the
      parsed documents, or the store's error unwrapped. */
  function ListReply(rows: Result<seq<Doc>, StoreError>): (r: Result<seq<Doc>, Failure>)
    ensures rows.Failure? ==> r == Failure(Forwarded(rows.error))
    ensures rows.Success? && ParseAll(rows.value).Success? ==> r == Success(ParseAll(rows.value).value)
    ensures rows.Success? && ParseAll(rows.value).Failure? ==> r == Failure(Thrown(ParseAll(rows.value).error))
  {
    match rows
    case Failure(err) => Failure(Forwarded(err))
    case Success(docs) =>
      match ParseAll(docs)
      case Success(ds) => Success(ds)
      case Failure(e) => Failure(Thrown(e))
  }
}
