# capot-contacts: a verified model of the contact handlers

capot-contacts is a small REST resource that keeps per-user "contact" documents in a
CouchDB database. Each user's contacts live under storage keys of the form
`contact/{owner}/{id}`. A non-admin `list` goes through a `by_owner` view keyed
`[owner, type]`. An admin `list` reads the whole id range `["contact/", "contact0"]`.
`put` writes the payload plus four server-set properties as the whole document; it
sends no `_rev`, so whether the store accepts it over an existing contact is the
store's revision check (see "## Left out").
`remove` writes a deletion marker (a tombstone). A validator installed in the
database refuses every write that is not a deletion and has no string `type`.

This project models the deterministic part of that code in Dafny:

- `json.dfy` (module `Json`): JSON values and documents. A document is a map from
  property names to values. An absent property (`undefined`) is a name missing from
  the map. It also holds JavaScript truthiness and `typeof … === 'string'`.
- `strings.dfy` (module `Strings`): `split` and `join` with a one-character separator,
  with both round trips proved. It also holds prefixes and the raw code-point order
  the store uses to compare ids, with the lemma that pins down the ids between two
  bounds that differ only in their last character, where the second's last
  character comes right after the first's (as `'0'` comes right after `'/'`).
- `design.dfy` (module `Design`, server/index.js): `validateDocUpdate` and the
  `by_owner` map function.
- `contacts.dfy` (module `Contacts`, server/contacts.js): key construction,
  `internals.parse` (a pure function, plus an in-place method on a mutable
  `JsObject`), the put document (a pure function, plus the method that builds it
  property by property the way `reduce` does), the tombstone, error-status
  defaulting, the replies and the query `list` sends.
- `listing.dfy` (module `Listing`): facts that need both files, stated over an
  abstract store. The store is a map from document id to live document. A query
  is answered by the set of ids it selects, returned in an order the store
  chooses. Non-admin listings return exactly the caller's contacts. Admin
  listings cover every key. Every document the handlers write passes the
  validator.

Store calls are not modelled. What a store call returns is a parameter of the
function that shapes the reply: `GetReply` takes the store's read as a function
of the key and applies it to the caller's key; `WriteReply` and `ListReply` take
the store's answer. The write time `now` is a parameter as well.

Two behaviours of the code are worth knowing:

- `internals.parse` drops only the first `/`-separated piece of `_id`, so a
  contact stored under `contact/u1/c1` is returned with `id` `u1/c1`, not `c1`
  (`ParsedIdOfStorageKey`, `PutThenParse`).
- Unlike get, put and remove, `list` hands the store's error to `reply`
  unwrapped, with no `Boom.wrap` and no `err.statusCode || 500` default
  (`ListReply`).

## Model

| member | source | states |
|---|---|---|
| Strings.Split | server/contacts.js:13 | `split('/')` yields at least one piece, and no piece contains the separator |
| Strings.Join | server/contacts.js:13 | `join` of no pieces is `""`, and of one piece is that piece |
| Strings.JoinSplit | server/contacts.js:13 | joining the pieces of a split gives the original string back |
| Strings.SplitJoin | server/contacts.js:13 | splitting separator-free pieces that were joined gives the pieces back |
| Strings.DropFirstPiece | server/contacts.js:13 | `split.slice(1).join` is what follows the first separator, and `""` when there is none (also `DropFirstPieceAfterSeparator`, `DropFirstPieceWithoutSeparator`) |
| Strings.DropFirstPieceAfterSeparator | server/contacts.js:13 | `split.slice(1).join` of `a + "/" + b`, with no `/` in `a`, is exactly `b` |
| Strings.DropFirstPieceWithoutSeparator | server/contacts.js:13 | an `_id` without `/` parses to the empty id |
| Strings.BetweenAdjacent | server/contacts.js:41-44 | the ids between `p + c` and `p + d`, with `d` right after `c`, are exactly those starting with `p + c`, plus `p + d` |
| Design.ValidateDocUpdate | server/index.js:12-26 | a deletion is always accepted; a non-deletion without a string `type` is refused with "doc.type must be a string"; one with a string `type` is accepted |
| Design.ByOwnerMap | server/index.js:40-45 | the map emits one row whose value is the document and whose key is `[owner, type]`, with an absent property emitted as null (`ByOwnerRow` pins down which keys it answers) |
| Design.ByOwnerRow | server/index.js:40-45 | the map emits exactly one row per document, with the document as value; its key equals `[owner, type]` iff the document has that string `owner` and that string `type` |
| Contacts.StorageKey | server/contacts.js:194 | every storage key starts with "contact/" and has the length of the three parts plus the separator |
| Contacts.OwnersDoNotCollide | server/contacts.js:194 | for one id, different owners get different storage keys |
| Contacts.StorageKeyInjective | server/contacts.js:233 | when owners contain no `/`, a storage key determines both the owner and the id |
| Contacts.SlashInOwnerCollides | server/contacts.js:194 | with a `/` in the owner, owner "a/b" with id "c" and owner "a" with id "b/c" share a key |
| Contacts.ParsedId | server/contacts.js:13 | the parsed `id` is what follows the first `/` of `_id`, or empty without one; for a storage key it is `owner + "/" + id` (`ParsedIdOfStorageKey`) |
| Contacts.SameKeyEverywhere | server/contacts.js:233-236 | the put document and the tombstone carry as `_id` the storage key of the caller and id, the key get reads |
| Contacts.ParsedIdOfContactKey | server/contacts.js:13 | parse of an `_id` "contact/" + rest sets `id` to rest, removing only the first piece |
| Contacts.ParsedIdOfStorageKey | server/contacts.js:13 | for a key built from (owner, id), parse gives `owner + "/" + id`, and "contact/" before it rebuilds the key |
| Contacts.ParseDoc | server/contacts.js:11-17 | parse fails exactly when `_id` is not a string; otherwise it removes `_id` and `_deleted_conflicts`, adds `id`, and keeps every other property unchanged |
| Contacts.Parse | server/contacts.js:11-17 | the in-place parse leaves the object holding `ParseDoc` of its old properties and returns the same object, or changes nothing and fails |
| Contacts.ParseAll | server/contacts.js:51-54 | mapping parse over rows succeeds iff every row parses; the result then has one parsed document per row, in order |
| Contacts.PutDoc | server/contacts.js:188-197 | the put document has the payload's properties plus the four server ones; each payload property outside those four is unchanged; `_id`, `type`, `owner` and `createdAt` hold the key, "contact", the caller and the time |
| Contacts.PutResetsCreatedAt | server/contacts.js:197 | a repeated put differs from the earlier one only in `createdAt`, which is reset to the new time |
| Contacts.BuildPutDoc | server/contacts.js:185-197 | copying the payload key by key and then assigning the four server properties produces exactly `PutDoc` in a fresh object |
| Contacts.PutThenParse | server/contacts.js:188-197 | reading back a put document gives the payload's other properties unchanged, `type`, `owner`, `createdAt` and `_rev` as set, `id` = owner + "/" + id, and no `_id` |
| Contacts.ValidPutReadsBackPayload | server/contacts.js:163-197 | for a payload the schema admits, every payload property is read back unchanged after a put |
| Contacts.Tombstone | server/contacts.js:233-238 | the remove document has exactly `_id` (the key), `_rev` (the caller's rev) and `_deleted` = true |
| Contacts.ErrorStatus | server/contacts.js:29 | the reply status is the store's status code, or 500 when it is missing or 0; never 0 |
| Contacts.WrapError | server/contacts.js:202 | a store error becomes an HTTP error with the defaulted status and the store's message |
| Contacts.GetReply | server/contacts.js:20-34 | get reads the key `contact/{owner}/{id}`; a failed read becomes the wrapped error with the store's message; a read document is returned parsed; a document without a string `_id` raises the parse error |
| Contacts.GetSeesOnlyOwnKey | server/contacts.js:26 | a caller's get reply depends only on what the store holds under the caller's own key |
| Contacts.PutThenGet | server/contacts.js:20-34 | when the store holds what put wrote under the caller's key, get returns that document parsed, with `id` = owner + "/" + id and the caller as `owner` |
| Contacts.WriteReply | server/contacts.js:239-246 | the store's write answer is returned as it is; a store error becomes an HTTP error with the defaulted status and the store's message |
| Contacts.ListReply | server/contacts.js:105-118 | a store error is passed on unwrapped; otherwise the reply is the parsed rows, or the parse error |
| Contacts.ListQuery | server/contacts.js:105-118 | an admin (the `isAdmin` branch) gets the `_all_docs` range ["contact/", "contact0"], anyone else the `by_owner` key `[uid, "contact"]` (`AdminQuerySelectsNamespace`, `OwnerQuerySelectsOwnContacts` give what each selects) |
| Listing.AdminRangeIsContactNamespace | server/contacts.js:41-44 | an id lies in ["contact/", "contact0"] iff it starts with "contact/" or is "contact0" |
| Listing.StorageKeyInAdminRange | server/contacts.js:41-44 | every storage key lies in the admin range |
| Listing.AdminQuerySelectsNamespace | server/contacts.js:107-112 | for an admin, `list` selects exactly the stored ids in the contact namespace |
| Listing.OwnerQuerySelectsOwnContacts | server/contacts.js:66 | for a non-admin, `list` selects exactly the stored documents whose `owner` is the caller and whose `type` is "contact" |
| Listing.OwnerListIsOwnContacts | server/contacts.js:61-79 | a non-admin listing returns one parsed document per row, each owned by the caller and of type "contact", and misses none of the caller's contacts |
| Listing.OwnRowsStayOwn | server/contacts.js:72-75 | rows that all belong to the caller and are contacts still carry that `owner` and `type` after parse |
| Listing.ListedRows | server/contacts.js:51-54 | rows of a store whose documents carry their own `_id` all parse, so `list` replies with one parsed document per row, in the store's order |
| Listing.AdminListCoversEveryOwner | server/contacts.js:37-58 | an admin listing contains the parsed document of every (owner, id) in the store |
| Listing.HandlerWritesPassValidator | server/index.js:14-20 | every put document and every tombstone is accepted by the validator |
| Listing.PutDocIndexedUnderOwner | server/index.js:40-45 | a put document answers the `by_owner` key `[uid, "contact"]` iff uid is its owner |

## Left out

- Store calls (`db.get`, `db.put`, `db.query`, `_all_docs`) are left out. What a call returns is a parameter.
- The store's query semantics are stood in by `Listing.Selects`. That covers an inclusive id range in raw code-point order, and equality on the view key.
- Result order is not modelled. The store decides the order; `Listing.Enumerates` only says each selected id comes once.
- Revision and conflict checking on put and remove is left out. The store enforces it, not the handlers. The put payload schema admits no `_rev` and the handler adds none, so the model describes the document put sends, not whether the store keeps it. `_rev` appears only as the value the caller supplies, or the value the store assigns.
- `encodeURIComponent` on the key is left out. The store decodes it, so documents are addressed by the unescaped key.
- Joi schema validation, including the e-mail format, is not modelled. `Contacts.ValidPayload` records which properties the payload schema admits and requires; `ValidPutReadsBackPayload` relies on it. The response schemas are left out too.
- `Boom.wrap` objects are reduced to status and message.
- `new Date()` is the parameter `now`, in its serialised form.
- Hapi request and reply plumbing is left out, including the `pre` handler of `get`.
- Bootstrap sequencing in server/index.js is left out: `Async.series`, `createIfNotExists`, `addSecurity`, `setValidationFunction`, `addIndex` and the `log` calls in the validator.
- `oldDoc`, `userCtx` and `secObj` of the validator are only logged, so they are not parameters.
- server/routes.js is not modelled. It is a static table of four routes.
- Numbers in documents are integers. Floating point, and so `NaN` truthiness, is not modelled.
- The uncaught TypeError that `internals.parse` raises on a document without a string `_id` is a value (`Thrown`). What the framework then does with it is not modelled.
- The rows that `list` parses in place are modelled on values (`ParseAll`). Only the single-document `Parse` is modelled on a mutable object, so aliasing between a row and its parsed result is not captured.
