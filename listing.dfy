/** What the handlers guarantee together with the store configuration of
    server/index.js, stated over an abstract store: which documents a
    `list` returns, and that every document the handlers write passes the
    update validator. The store itself is a stand-in: a map from document
    id to the live (not deleted) document, and the two queries answered by
    the ids they select, in an order the store chooses. */
module Listing {
  import opened Json
  import opened Strings
  import opened Design
  import opened Contacts

  /** The live documents of the database, by `_id`. */
  type Store = map<string, Doc>

  /** Every stored document carries its own id as a string `_id`. */
  predicate WellFormed(store: Store)
  {
    forall k :: k in store ==> Get(store[k], "_id") == Some(Str(k))
  }

  /** The ids a query selects: an inclusive id range of `_all_docs` in raw
      code-point order, or the documents whose `by_owner` row has the key. */
  function Selects(q: Query, store: Store): (ids: set<string>)
    ensures ids <= store.Keys
  {
    match q
    case AllDocs(lo, hi) => set k | k in store && LexLe(lo, k) && LexLe(k, hi)
    case ByOwnerView(key) => set k | k in store && EmitsKey(store[k], key)
  }

  /** `order` lists every id of `ids` exactly once: the order in which the
      store returns the rows of a query. */
  predicate Enumerates(order: seq<string>, ids: set<string>)
  {
    && (forall i, j :: 0 <= i < j < |order| ==> order[i] != order[j])
    && (forall i :: 0 <= i < |order| ==> order[i] in ids)
    && (forall k :: k in ids ==> k in order)
  }

  /** The documents of the rows, in the store's order. */
  function RowsOf(store: Store, order: seq<string>): (rows: seq<Doc>)
    requires forall i :: 0 <= i < |order| ==> order[i] in store
    ensures |rows| == |order|
    ensures forall i :: 0 <= i < |order| ==> rows[i] == store[order[i]]
  {
    seq(|order|, i requires 0 <= i < |order| => store[order[i]])
  }

  /** Rows read from a well-formed store all parse, so `list` replies with
      the parsed rows in the store's order. */
  lemma ListedRows(store: Store, order: seq<string>)
    requires WellFormed(store)
    requires forall i :: 0 <= i < |order| ==> order[i] in store
    ensures ListReply(Success(RowsOf(store, order))).Success?
    ensures var out := ListReply(Success(RowsOf(store, order))).value;
            && |out| == |order|
            && forall i :: 0 <= i < |order| ==> out[i] == ParseDoc(store[order[i]]).value
  {
    var rows := RowsOf(store, order);
    forall i | 0 <= i < |rows| ensures ParseDoc(rows[i]).Success? {
      assert Get(store[order[i]], "_id") == Some(Str(order[i]));
    }
  }

  /** Every storage key lies inside the admin range ["contact/", "contact0"],
      because '/' comes before '0'. */
  lemma StorageKeyInAdminRange(owner: string, id: string)
    ensures LexLe(AdminStartKey, StorageKey(owner, id)) && LexLe(StorageKey(owner, id), AdminEndKey)
  {
    AdminRangeIsContactNamespace(StorageKey(owner, id));
  }

  /** The admin range holds exactly the ids that start with "contact/",
      and the single id "contact0". */
  lemma AdminRangeIsContactNamespace(k: string)
    ensures LexLe(AdminStartKey, k) && LexLe(k, AdminEndKey) <==> HasPrefix(KeyPrefix, k) || k == AdminEndKey
  {
    assert AdminStartKey == "contact" + ['/'] && AdminEndKey == "contact" + ['0'];
    BetweenAdjacent("contact", '/', '0', k);
  }

  /** An admin's listing selects every document in the contact namespace. */
  lemma AdminQuerySelectsNamespace(store: Store, creds: Credentials)
    requires creds.isAdmin
    ensures Selects(ListQuery(creds), store) == set k | k in store && (HasPrefix(KeyPrefix, k) || k == AdminEndKey)
  {
    forall k | k in store {
      AdminRangeIsContactNamespace(k);
    }
  }

  /** A non-admin's listing selects exactly the stored documents whose
      `owner` is the caller and whose `type` is "contact". */
  lemma OwnerQuerySelectsOwnContacts(store: Store, creds: Credentials)
    requires !creds.isAdmin
    ensures Selects(ListQuery(creds), store)
            == set k | k in store && Get(store[k], "owner") == Some(Str(creds.uid))
                                  && Get(store[k], "type") == Some(Str(ContactType))
  {
    forall k | k in store {
      ByOwnerRow(store[k], creds.uid, ContactType);
    }
  }

  /** A successful non-admin `list` returns one parsed document per selected
      row, each owned by the caller and of type "contact", and it misses
      none of the caller's contacts. */
  lemma {:induction false} OwnerListIsOwnContacts(store: Store, creds: Credentials, order: seq<string>)
    requires WellFormed(store)
    requires !creds.isAdmin
    requires Enumerates(order, Selects(ListQuery(creds), store))
    ensures ListReply(Success(RowsOf(store, order))).Success?
    ensures var out := ListReply(Success(RowsOf(store, order))).value;
            && |out| == |order|
            && (forall i :: 0 <= i < |out| ==>
                  out[i] == ParseDoc(store[order[i]]).value
                  && Get(out[i], "owner") == Some(Str(creds.uid)) && Get(out[i], "type") == Some(Str(ContactType)))
            && (forall k ::
                  (k in store && Get(store[k], "owner") == Some(Str(creds.uid))
                   && Get(store[k], "type") == Some(Str(ContactType))) ==> k in order)
  {
    var own := set k | k in store && Get(store[k], "owner") == Some(Str(creds.uid))
                                  && Get(store[k], "type") == Some(Str(ContactType));
    OwnerQuerySelectsOwnContacts(store, creds);
    assert Enumerates(order, own);
    OwnRowsStayOwn(store, order, creds.uid);
  }

  /** Rows that all belong to `uid` and are of type "contact" still do
      once `list` has parsed them. */
  lemma OwnRowsStayOwn(store: Store, order: seq<string>, uid: string)
    requires WellFormed(store)
    requires forall i :: 0 <= i < |order| ==>
               && order[i] in store
               && Get(store[order[i]], "owner") == Some(Str(uid))
               && Get(store[order[i]], "type") == Some(Str(ContactType))
    ensures ListReply(Success(RowsOf(store, order))).Success?
    ensures var out := ListReply(Success(RowsOf(store, order))).value;
            && |out| == |order|
            && (forall i :: 0 <= i < |out| ==>
                  out[i] == ParseDoc(store[order[i]]).value
                  && Get(out[i], "owner") == Some(Str(uid)) && Get(out[i], "type") == Some(Str(ContactType)))
  {
    ListedRows(store, order);
  }

  /** A successful admin `list` includes the document of every (owner, id)
      present in the store, parsed. */
  lemma {:induction false} AdminListCoversEveryOwner(store: Store, creds: Credentials, order: seq<string>, owner: string, id: string)
    requires WellFormed(store)
    requires creds.isAdmin
    requires Enumerates(order, Selects(ListQuery(creds), store))
    requires StorageKey(owner, id) in store
    ensures ListReply(Success(RowsOf(store, order))).Success?
    ensures exists i ::
              && 0 <= i < |order| && order[i] == StorageKey(owner, id)
              && ListReply(Success(RowsOf(store, order))).value[i] == ParseDoc(store[StorageKey(owner, id)]).value
  {
    StorageKeyInAdminRange(owner, id);
    var k := StorageKey(owner, id);
    assert k in Selects(ListQuery(creds), store);
    ListedRows(store, order);
    var i :| 0 <= i < |order| && order[i] == k;
  }

  /** The store accepts every document the put and remove handlers write:
      put documents carry the string `type` "contact", tombstones are
      deletions. */
  lemma HandlerWritesPassValidator(payload: Doc, owner: string, id: string, now: string, rev: string)
    ensures ValidateDocUpdate(PutDoc(payload, owner, id, now)) == Accepted
    ensures ValidateDocUpdate(Tombstone(owner, id, rev)) == Accepted
  {
  }

  /** A put document is found by the `by_owner` query of its owner, and by
      no other user's query. */
  lemma PutDocIndexedUnderOwner(payload: Doc, owner: string, id: string, now: string, uid: string)
    ensures EmitsKey(PutDoc(payload, owner, id, now), [Str(uid), Str(ContactType)]) <==> uid == owner
  {
    ByOwnerRow(PutDoc(payload, owner, id, now), uid, ContactType);
  }
}
