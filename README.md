# Issue tracker request translation, modelled in Dafny

The service keeps "issues" (tickets) per project in a document store and
exposes one route, `/api/issues/:project`, under GET, POST, PUT and DELETE.
The only decision-making is inside those four handlers:

- they turn a query into an equality filter;
- they check a create payload and build the new issue;
- they check a partial-update payload and build its sparse `$set` document;
- they map the store's modified or deleted count to a status string.

This project models that translation and proves what it promises.

- `json.dfy` (module `Json`) holds the request values and JavaScript truthiness. A parsed query
  or body is a sequence of (key, value) pairs in `Object.keys` order. Reading a key
  returns its value, or `undefined` when the key is missing.
- `issues.dfy` (module `Issues`) holds the `Issue` constructor as a class. Its fields are set one
  by one, and the store's `_id` is attached after insertion. The predicate
  `IsNewIssue` says what a freshly built issue looks like.
- `store.dfy` (module `Store`) holds one project's `issues` collection as a class `Collection`.
  Its `docs` field maps each opaque id to a document. The collection offers
  `find` sorted by `created_on` descending, `insertOne`, `updateOne` with
  `$set`, and `deleteOne`. A ghost counter `ops` counts the store operations,
  so "performs no store access" can be stated.
- `translate.dfy` (module `Translate`) holds the filter and update builders. These are methods with
  loops, as in the source. Beside them are declarative reference definitions
  (`FilterOf`, `UpdateDocOf`) and lemmas about those definitions. The file also
  has the required-field check, the "no updated field" check and the two status
  mappings.
- `routes.dfy` (module `Routes`) holds the four handlers as methods over a `Collection`. It also
  has three request sequences: create-then-list and update-existing from the
  functional tests, and create-then-delete-twice, whose first answer the tests
  check and whose second follows from the delete count mapping.

Four behaviours of the handlers are easy to miss:

- The create error text ends with a period: `"missing required field."`
  (routes/api.js:71).
- GET drops the first query parameter with `dataKeys.shift()`
  (routes/api.js:47), so a query with a single parameter lists every issue.
- PUT copies every truthy payload field except `_id` into `$set`
  (routes/api.js:107-110), `created_on` and `open` included. A client can
  therefore overwrite `created_on`, and nothing keeps `updated_on` at or
  after `created_on`; `CreatedOnCanBeRewritten` exhibits this.
- The empty-update check counts values that are not `''` (routes/api.js:99),
  but the copy keeps only truthy ones (routes/api.js:109). A payload
  `{_id, open: false}` passes the check yet sets only `updated_on`;
  `FalseOpenOnlyStamps` exhibits this.

## Model

| member | source | states |
|---|---|---|
| `Issues.Issue.constructor` | routes/api.js:12-23 | the new issue has exactly the eight issue fields; title, text and author are the payload's values; `assigned_to` and `status_text` are the payload's value when truthy and `''` otherwise; `open` is true; `created_on == updated_on == now`; no other payload key is copied |
| `Issues.Issue.AttachId` | routes/api.js:79 | attaching the store's id sets `_id` and changes no field of the document |
| `Store.Select` | routes/api.js:54-57 | `find(filter).sort({created_on: -1})` returns every stored document that agrees with the filter on every filter key, each once and as stored, nothing else, ordered by `created_on` descending |
| `Store.UnfilteredListsAll` | routes/api.js:54-57 | with the empty filter the listing has exactly as many entries as the collection and holds every stored document |
| `Store.Collection.Find` | routes/api.js:54-57 | one store operation that changes no document and answers with a listing as above |
| `Store.Collection.InsertOne` | routes/api.js:78 | the collection gains exactly the new document under the fresh id |
| `Store.Collection.UpdateOne` | routes/api.js:115 | the document with that id gets the `$set` fields and all others stay; the modified count is 1 exactly when that document exists and actually changed |
| `Store.Collection.DeleteOne` | routes/api.js:141 | the document with that id is gone and nothing else changed; the deleted count is 1 exactly when it existed |
| `Translate.MissingRequiredField` | routes/api.js:70 | the create check: true when any of `issue_title`, `issue_text`, `created_by` is absent or falsy; `Routes.Post`'s contract builds on it |
| `Translate.BuildFilter` | routes/api.js:45-51 | the loop builds exactly `FilterOf(query)`, the object of every query key after the first mapped to its value |
| `Translate.FilterOfQuery` | routes/api.js:45-51 | the filter contains every query key after the first with its original value, only those keys, never the first key; a query with zero or one key gives the empty, unrestricted filter |
| `Translate.NoUpdatedFieldIff` | routes/api.js:98-99 | with a truthy `_id`, "exactly one value is not `''`" holds exactly when every other value of the payload is `''` |
| `Translate.NoUpdatedField` | routes/api.js:99 | the update check fires exactly when a single position of the payload holds a value that is not `''` |
| `Translate.BuildUpdate` | routes/api.js:106-111 | the loop builds exactly `UpdateDocOf(data, now)`: the truthy non-`_id` fields plus `updated_on` |
| `Translate.UpdateDocContents` | routes/api.js:106-111 | the `$set` document never contains `_id`; it contains every other payload key whose value is truthy, with that value, and no key whose value is falsy; `updated_on` is always `now`, overriding any client value; it names no key the payload lacks |
| `Translate.UpdateKeepsOtherFields` | routes/api.js:106-115 | applying the `$set` document leaves every record field that the payload does not set to a truthy value unchanged, `updated_on` aside |
| `Translate.FalseOpenOnlyStamps` | routes/api.js:99-111 | `{_id, open: false}` passes the empty-update check, yet its `$set` document holds only `updated_on` |
| `Translate.CreatedOnCanBeRewritten` | routes/api.js:107-111 | a payload `{_id, created_on: s}` passes the check and its `$set` document overwrites `created_on` with `s` |
| `Translate.UpdateStatus` | routes/api.js:118-125 | the update status ends with the id, and starts with `s` ("successfully updated") exactly when the modified count is not zero |
| `Translate.DeleteStatus` | routes/api.js:143-149 | the delete status ends with the id, and starts with `d` ("deleted") exactly when the deleted count is one |
| `Translate.UpdateStatusReadable` | routes/api.js:118-125 | two equal update statuses name the same id and the same outcome (zero or non-zero modified count) |
| `Translate.DeleteStatusReadable` | routes/api.js:143-149 | two equal delete statuses name the same id and the same outcome (exactly one deleted or not) |
| `Routes.Get` | routes/api.js:43-64 | GET runs one `find` and changes nothing; the response is the listing for `FilterOf(query)`, possibly empty, never an error |
| `Routes.Post` | routes/api.js:66-84 | a payload with a falsy title, text or author gets exactly `{error: "missing required field."}` and no store access; otherwise the new issue, carrying the store's id, is the only document added and is returned, and its title, text and author are all truthy |
| `Routes.Put` | routes/api.js:86-128 | without a truthy `_id`, an empty response and no store access; with one and no value other than it not `''`, `{error: "no updated field sent"}` and no store access; otherwise one `updateOne` with `UpdateDocOf(data, now)` on that id only, answered "successfully updated id" when the document changed and "could not update id" otherwise; a truthy `_id` that is not a string is taken as making `new ObjectId` throw, so nothing is sent (`NoReply`) and the store is untouched |
| `Routes.Delete` | routes/api.js:130-151 | without a truthy `_id`, `{error: "_id error"}` and no store access; otherwise one `deleteOne` of that id only, answered "deleted id" exactly when a document was removed and "could not delete id" otherwise; a truthy `_id` that is not a string is taken as making `new ObjectId` throw, so nothing is sent (`NoReply`) and the store is untouched |
| `Routes.CreateThenList` | tests/2_functional-tests.js:141-159 | an issue created and then listed without a filter comes back with the fields it was created with, and the listing has one more entry than before |
| `Routes.CreateThenDeleteTwice` | routes/api.js:130-151 | deleting a freshly created issue answers "deleted id" and restores the collection, as tests/2_functional-tests.js:199-223 checks; deleting it again answers "could not delete id", from the count mapping at routes/api.js:143-149 |
| `Routes.UpdateExisting` | tests/2_functional-tests.js:104-135 | updating an existing issue with a field that is not `''`, later than its last update, answers "successfully updated id"; `updated_on` becomes `now` and every field not in the `$set` document keeps its value |

## Left out

- Connection handling (`connection`, `MongoClient` connect and close, the
  `try`/`finally`) is resource plumbing and is not modelled. Its `catch`, which logs and sends
  nothing, appears only as the `NoReply` response.
- Configuration (`dotenv`, `MONGO_URI`, client options) is out of scope.
- Express routing, `req`/`res` and every `console` line are framework glue and logging.
- The async callback structure is not modelled; each handler is one sequential method.
- The clock: `new Date()` is the parameter `now`, a natural number.
- Id generation: the store-generated `insertedId` is a parameter, and `InsertOne` requires
  it to be unused, which is what the store guarantees.
- `new ObjectId(searchId)` (routes/api.js:115, 141): the model accepts every
  string id as an opaque id and treats any other truthy `_id` as a throw,
  which yields `NoReply`. The driver differs on two inputs: it accepts a
  number and builds a fresh id from it, so the handler answers "could not
  update <n>" or "could not delete <n>"; and it throws on a string that is not
  a well-formed id, which the model accepts.
- `$set` keys are taken as plain top-level field names (`Store.Collection.UpdateOne`);
  dotted paths, and the errors Mongo raises for empty or `$`-prefixed keys
  (which `connection` would swallow, sending nothing), are not modelled.
- Mongo query semantics beyond field equality are not modelled. This covers
  query-string type coercion, `null` matching a missing field, dotted paths
  and query operators. A stored document's `_id` is not one of its fields,
  so a filter on `_id` matches nothing. The real driver behaves the same way,
  because it compares a string with an ObjectId.
- Sort order: `Store.Select` sorts a document whose `created_on` is not a date
  as if it were created at time 0; BSON's cross-type ordering is not modelled.
  Documents with equal `created_on` may come in any order.
- `Object.keys` puts integer-like keys first. Here the payload sequence is
  assumed to be in `Object.keys` order already, so "the first key" means the
  first in that order.
- JSON values: numbers are integers, and nested objects and arrays are not
  represented.
- Projects: `client.db(project)` is represented by passing that project's
  `Collection`. Records never move between projects.
- Concurrency between requests is not modelled: each handler runs alone on its collection.
