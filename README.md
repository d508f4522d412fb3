# waterline-nedb, modelled in Dafny

waterline-nedb is a Waterline ORM adapter that stores every model in its own
NeDB embedded document store, one `.nedb` file per model under the directory
given as `dbPath`. This project models three parts of it.

- **The adapter** (`lib/adapter.js`) keeps a registry of connections keyed by
  identity. `registerConnection` checks a configuration in a fixed order before
  it opens a connection. `teardown` removes a connection, or all of them.
  `join` strips `select` and hands the join engine two callbacks, `$find` and
  `$getPK`.
- **A connection** (`lib/connection.js`) derives each model's store options
  from the connection configuration. It opens one collection per model and
  reports the first failure, wrapped with its `originalError`.
- **A collection** (`lib/collection.js`) normalises its schema and builds its
  indexes. It maps the model's `id` to the store's `_id` and back. It runs
  create, find, count, update and destroy against its own store.

The files:

- `js.dfy`: the JavaScript values the adapter handles. It covers truthiness,
  string coercion, plain records, and ordered objects (`Dict`) whose key order
  matters.
- `errors.dfy`: the errors the adapter reports.
- `store.dfy`: the document store, modelled as a class over a sequence of
  documents and a sequence of index specifications. The query matcher and the
  sort order are parameters. The matcher is constrained so that the empty
  query `{}` matches every document, and the sort order so that it only
  reorders (a permutation).
- `collection.dfy`, `connection.dfy`, `adapter.dfy`: the three source files.

Each state-changing operation is a method on a class (`Store.Datastore`,
`Collection.Collection`, `Connection.Connection`, `Adapter.Registry`). Its
`ensures` ties the new state and the result to a specification function. The
lemmas state the properties of those functions.

The model follows the code. Where a plain reading of the code suggests
otherwise, the model keeps what the code does:

- `_beforeLoad` is not idempotent. A second application sets `id` to the
  `_id` that is already gone (`Collection.FromStoreTwiceLosesId`).
- The index build reads the descriptor key `index`, not `indexed`.
- The index build compares `unique` and `index` strictly against `true`,
  because of the `switch (true)` it uses. A merely truthy flag requests no
  index (`Collection.IndexRequest`).
- The last field marked `primaryKey` wins. No check prevents several such
  fields.
- `async.each` starts every iteration before any completes. So every index
  request is issued, and every model's collection is created, even after a
  failure. Only the first error is reported.

## Model

| member | source | states |
|---|---|---|
| Js.ToString | lib/collection.js:50-54 | a string identifier is kept as it is; any other value is rendered as `v + ''` renders it |
| Js.Dict.Delete | lib/collection.js:146-148 | `delete o[k]` removes `k` from the key order and from the properties; every other key keeps its value and its place; a well-formed object stays well-formed |
| Store.NewCursor | lib/collection.js:192 | `db.find(where)` gives a cursor on that query with no sort, skip or limit |
| Store.CallCursor | lib/collection.js:193-195 | only `sort`, `skip` and `limit` are cursor methods; each records its argument and leaves the other settings alone; any other name throws |
| Store.CursorQuery | lib/collection.js:188 | a falsy query becomes the empty query `{}`, which selects everything; a truthy one is used as given |
| Store.Page | lib/collection.js:196 | `exec` skips, then limits: the page is the contiguous run of the sorted matches that starts after the skipped ones; it holds `min(limit, remaining)` of them for a positive `limit`, else all remaining; without a positive skip or limit it is the whole sequence |
| Store.Datastore.Exec | lib/collection.js:192-196 | `cursor.exec` fails exactly when filtering fails; otherwise it returns no more documents than match, each of them a stored document the query matches, whatever the sort, skip and limit |
| Store.Datastore.Count | lib/collection.js:157 | `count(q)` fails exactly when the matcher fails on some document; otherwise it is at most the number of documents |
| Store.UnsetKeys | lib/collection.js:241-243 | an `$unset` argument must be an object; its own keys are the fields removed |
| Store.ApplyModifier | lib/collection.js:249 | the update succeeds exactly when a present `$unset` is an object, the result keeps the old `_id` and no field name starts with `$`; the result is then the document with `$set` applied and the `$unset` keys removed |
| Store.ApplyModifierFields | lib/collection.js:249 | a non-object `$unset` is refused; after a successful update set fields carry their new values, unset fields are gone, other fields are untouched, and no other field appears |
| Store.EnsureStep | lib/collection.js:77-80 | one `ensureIndex`: a request without a field name fails and adds nothing; an existing index on the field makes it a no-op; otherwise it succeeds exactly when the documents are consistent with the new index, and then the field is indexed; a failure adds nothing; consistency is preserved |
| Store.EnsureAll | lib/collection.js:74-87 | all requests are issued in order; earlier indexes stay as they were; consistency is preserved |
| Store.EnsureAllEmptyStore | lib/collection.js:26-27 | over a store with no documents, the only request that can fail is one without a field name |
| Store.EnsureAllCovers | lib/collection.js:74-87 | after a successful build every requested field has an index |
| Store.EnsureAllFromPlan | lib/collection.js:74-87 | every index a build adds is one of its requests |
| Store.EnsureAllNoop | lib/collection.js:74-87 | requesting indexes that all exist already changes nothing and reports no error |
| Store.EnsureAllIdempotent | lib/collection.js:74-87 | building the same indexes again after a successful build changes nothing and reports no error |
| Store.WithIds | lib/collection.js:119 | a document without `_id` gets a generated identifier; one with `_id` is inserted as it is |
| Store.Datastore.constructor | lib/collection.js:19 | a new store is empty, has no indexes, and is consistent |
| Store.Datastore.Filter | lib/collection.js:192-196 | the result is a subsequence of the documents (store order kept) holding exactly the documents the query matches; it fails exactly when the matcher fails on some document; when everything matches it is all the documents |
| Store.Datastore.CountIsExecLength | lib/collection.js:157 | `count(q)` is the number of documents a plain cursor on `q` returns, and the two fail together |
| Store.Datastore.EmptyQuerySelectsAll | lib/collection.js:157 | a falsy query counts every document, and a plain cursor on it returns every document in store order |
| Store.Datastore.UpdateAll | lib/collection.js:249 | a multi-document update keeps the number of documents and every `_id`; non-matching documents are unchanged; each matching one is the modifier applied to it |
| Store.Datastore.UpdateAllOutcome | lib/collection.js:249 | a multi-document update succeeds exactly when the matcher succeeds on every document and the modifier succeeds on every match |
| Store.Datastore.UpdateAllCount | lib/collection.js:249-251 | the count a successful multi-document update reports is the number of documents the query matches |
| Store.Datastore.RemoveAll | lib/collection.js:306 | the remaining documents and the count add up to the old documents; every remaining document did not match |
| Store.Datastore.RemoveAllOutcome | lib/collection.js:306 | a multi-document removal succeeds exactly when the matcher succeeds on every document; every non-matching document is kept, in order; the count is the number of matches |
| Store.Datastore.LoadDatabase | lib/collection.js:20-21 | loading takes the persisted documents when they are consistent, and otherwise fails with the store unchanged |
| Store.Datastore.Insert | lib/collection.js:119-120 | the whole batch is inserted with generated identifiers, or nothing is inserted when a field name begins with `$` or an index refuses it; the store stays consistent |
| Store.DollarFieldRefused | lib/collection.js:119-120 | a record with a top-level field name beginning with `$` makes the whole insert refused |
| Store.Datastore.Update | lib/collection.js:249-251 | every match is updated, or none when the modifier or an index refuses; the result is the count; the store stays consistent |
| Store.Datastore.Remove | lib/collection.js:306-310 | every match is removed; the result is the count; the store stays consistent |
| Store.Datastore.RemoveKeepsConsistent | lib/collection.js:306 | removing documents never breaks `_id` uniqueness or a unique index |
| Store.Datastore.EnsureIndex | lib/collection.js:77-80 | the new indexes and the error are those of one `EnsureStep`; the documents are unchanged |
| Collection.ToStore | lib/collection.js:47-58 | a saved record has no `id`; it has `_id` exactly when `id` was truthy, and then `_id` is the string form of `id`; a previous `_id` is always discarded; every other field is kept |
| Collection.BeforeSave | lib/collection.js:47-58 | the in-place steps of `_beforeSave` produce `ToStore` |
| Collection.FromStore | lib/collection.js:63-67 | a loaded record has no `_id`; `id` holds what `_id` held (undefined if absent); every other field is kept |
| Collection.BeforeLoad | lib/collection.js:63-67 | the in-place steps of `_beforeLoad` produce `FromStore` |
| Collection.RoundTrip | lib/collection.js:47-67 | saving then loading a record with a truthy `id` gives the record back with `id` in string form and no `_id` |
| Collection.StringIdRoundTrip | lib/collection.js:47-67 | a non-empty string `id` comes back exactly |
| Collection.FalsyIdDropped | lib/collection.js:49-56 | a falsy `id` (0, "", false, null) never reaches the store and reads back as undefined |
| Collection.FromStoreTwiceLosesId | lib/collection.js:63-67 | applying `_beforeLoad` twice loses the identifier |
| Collection.StripAutoIncrement | lib/collection.js:39 | a truthy `autoIncrement` is deleted and a falsy one stays; every other attribute is kept |
| Collection.NormalizedSchemaAttributes | lib/collection.js:35-42 | after normalisation no descriptor has a truthy `autoIncrement`; the field names, their order and every other attribute are unchanged |
| Collection.NormalizeSchema | lib/collection.js:35-42 | the field-by-field loop produces the normalised schema |
| Collection.NormalizedIndexPlan | lib/collection.js:15-27 | normalisation does not change which indexes the schema asks for |
| Collection.PlanForNormalized | lib/collection.js:35-42 | the same, for any list of fields |
| Collection.LastPrimaryIsLast | lib/collection.js:323-325 | the field found is the last one in key order marked `primaryKey`; none is found exactly when no field is marked |
| Collection.PrimaryKeyChoice | lib/collection.js:319-329 | the primary key is `id` when no field is marked; otherwise it is the last marked field, or `id` when that field's name is empty |
| Collection.PrimaryKey | lib/collection.js:319-329 | the primary key is `id` or a schema field marked `primaryKey` |
| Collection.LastPrimaryMember | lib/collection.js:323-325 | a field found by the scan is a listed field marked `primaryKey` |
| Collection.PlanForChoice | lib/collection.js:74-84 | every request comes from a listed field and is the one that field asks for; every listed field that asks for an index is in the request list |
| Collection.IndexPlanChoice | lib/collection.js:74-84 | `id` never gets an index; `unique: true` gives a unique sparse index whatever `index` says; `index: true` alone gives a plain index; no other field gets one |
| Collection.IndexRequest | lib/collection.js:75-83 | a field asks for an index on itself, unique and sparse together or neither; it asks for none exactly when neither `unique` nor `index` is strictly `true` |
| Collection.IndexPlan | lib/collection.js:74-84 | every index request names a schema field other than `id` |
| Collection.PlanStep | lib/collection.js:74-87 | issuing the requests from the `i`-th field on is that field's request, if any, then the rest, keeping the first error |
| Collection.FirstUnnamedPlanFor | lib/collection.js:74-87 | the first request without a field name exists exactly when the empty field name is listed and asks for an index |
| Collection.FirstUnnamedPlan | lib/collection.js:26-27 | the index build of a new store fails exactly when the attribute with the empty name asks for an index |
| Collection.StripSelect | lib/collection.js:146-148 | object criteria lose `select` and keep the rest; `null` throws a TypeError; any other value passes through |
| Collection.StripSelectIgnoresSelect | lib/collection.js:146-148 | criteria with and without a `select` key strip to the same thing |
| Collection.WhereOrEmpty | lib/collection.js:188 | the cursor filter is the `where` when it is truthy, and the empty query `{}` otherwise |
| Collection.ApplyOptionsFields | lib/collection.js:189-195 | applying the criteria keys as cursor calls succeeds exactly when each of them is `sort`, `skip` or `limit`; the cursor then records each one present |
| Collection.CursorFor | lib/collection.js:188-195 | the cursor `find` builds filters by the truthy `where`, or by the empty query |
| Collection.CursorForFields | lib/collection.js:188-195 | `find`'s cursor succeeds exactly when every key other than `where` is a cursor method; the cursor then holds `where` (or the empty query) and the values of `sort`, `skip` and `limit`, whatever their key order |
| Collection.LoadAll | lib/collection.js:199-201 | every result goes through `_beforeLoad`, in order |
| Collection.LoadEach | lib/collection.js:196-206 | the in-place loop over the results produces `LoadAll` |
| Collection.SaveAll | lib/collection.js:114-116 | every item goes through `_beforeSave`, in order |
| Collection.Items | lib/collection.js:111-113 | a single record is wrapped in a one-element array; an array is used as it is |
| Collection.CreatedRecords | lib/collection.js:109-125 | each created record comes back without `_id`; its `id` is the string form of its truthy `id`, or the identifier the store generated |
| Collection.UpdateModifierFields | lib/collection.js:235-244 | the update never sets `id` or `_id`; a truthy `$unset` moves out of `$set` into its own part; a falsy one is set like any other value; every other value is set as given |
| Collection.UpdateModifier | lib/collection.js:235-244 | the update document never sets `id` or `_id`; its `$unset` part, when present, holds a truthy value and is not also set |
| Collection.MakeModifier | lib/collection.js:235-244 | the in-place steps of `update` produce that update document |
| Collection.Collection.constructor | lib/collection.js:11-15 | the options are kept and the schema is normalised |
| Collection.Collection.Open | lib/collection.js:11-33 | a collection on a fresh, consistent store; an existing file is loaded as its documents and no indexes, and corrupt data fails and leaves the store empty; a new file gives an empty store with the indexes the plan builds, and a request without a field name fails |
| Collection.NewStoreIndexes | lib/collection.js:15-27 | a new store whose schema names every index field ends up empty, with an index on every field the schema asks to index and no other |
| Collection.Collection.BuildIndex | lib/collection.js:72-88 | the loop issues every request of the index plan and reports the first error; the documents are unchanged and the store stays consistent |
| Collection.Collection.GetPK | lib/collection.js:319-329 | the loop returns the primary key: the last marked field, or `id` |
| Collection.Collection.MakeCursor | lib/collection.js:172-195 | stripping, translating, then one cursor call per key, produce the cursor `find` runs |
| Collection.Collection.Find | lib/collection.js:172-208 | a strip, translation or cursor error comes before the store is consulted; otherwise the store's matches, each through `_beforeLoad` |
| Collection.Collection.FindResult | lib/collection.js:172-208 | a strip or translation error is reported as it is, before the store is consulted; a successful `find` returns at most as many records as the store holds |
| Collection.Collection.Count | lib/collection.js:141-161 | only the translated `where` reaches the store's count; errors come first, as in `find` |
| Collection.Collection.CountResult | lib/collection.js:141-161 | a strip or translation error is reported as it is; a successful count is at most the number of stored documents |
| Collection.Collection.Update | lib/collection.js:219-252 | a translation error leaves the store alone; otherwise every match gets the update document, or none when refused; the result is the count; `_id`s never change |
| Collection.Collection.Destroy | lib/collection.js:290-311 | a translation error leaves the store alone; otherwise every match of the translated `where` is removed and counted |
| Collection.Collection.CreateEach | lib/collection.js:109-126 | every record is saved, the batch is inserted as a whole or not at all, and every inserted document is loaded back |
| Collection.Collection.Create | lib/collection.js:131-136 | `createEach`, then its first result (undefined when nothing was inserted) |
| Collection.SelectIgnored | lib/collection.js:176-186 | `find` and `count` give the same answer with and without a `select` key |
| Collection.CountMatchesFind | lib/collection.js:157-196 | with criteria that translate to nothing but `where` and `sort`, `count` is the length of what `find` returns, and both fail together, because sorting only reorders |
| Collection.FoundRecordsLoaded | lib/collection.js:196-206 | every record `find` returns has `id` and no `_id` |
| Connection.DbFilenameShape | lib/connection.js:8-10 | every store file name starts with `dbPath` and ends with `<model>.nedb` |
| Connection.DbFilename | lib/connection.js:8-10 | the file name is the directory, with one `/` added unless it is empty or already ends with one, then `<model>.nedb` |
| Connection.DbFilenameInjective | lib/connection.js:8-10 | two models of one connection never share a store file, given that `path.join` normalisation is not modelled (a model named `a/../b` would share `b`'s file) |
| Connection.ModelOptionsFields | lib/connection.js:20-23 | a model's options have no `dbPath`, have `filename` set to its store file, and copy every other setting |
| Connection.ModelOptions | lib/connection.js:20-23 | a model's options have no `dbPath` and do have a `filename` |
| Connection.OutcomesOf | lib/connection.js:19-25 | one outcome per model name |
| Connection.OutcomesOfAt | lib/connection.js:19-25 | the `j`-th outcome is what opening the `j`-th model's collection reports |
| Connection.FirstFailureIsFirst | lib/connection.js:27-30 | no failure is reported exactly when all outcomes succeeded; otherwise the earliest failure is reported |
| Connection.ConnectOutcome | lib/connection.js:27-30 | the callback gets no error exactly when no collection failed; otherwise the first failure, wrapped as its `originalError` |
| Connection.ConnectOutcomeIsFirst | lib/connection.js:27-30 | the callback gets no error exactly when every model's collection opened; otherwise a wrapper whose `originalError` is the earliest failure |
| Connection.AllKeysOpened | lib/connection.js:19-25 | one collection for every model key gives exactly the models' names |
| Connection.Connection.constructor | lib/connection.js:12-16 | the configuration is kept and the collections start empty |
| Connection.Connection.OpenModel | lib/connection.js:20-25 | a new collection with the model's options and normalised schema, on its own new consistent store holding what opening its file leaves (`OpenedStore`); its outcome is that of opening it |
| Connection.Connection.OpenAll | lib/connection.js:19-30 | one collection per model, no two on the same store; the first failure in key order is kept |
| Connection.Connection.LoadCollections | lib/connection.js:12-31 | a non-string `dbPath` throws before any collection exists; otherwise the collections' keys are exactly the model names, each opened for its model, and the callback gets no error or the earliest failure, wrapped |
| Adapter.RejectionAccepts | lib/adapter.js:54-58 | a configuration is accepted exactly when it has an identity not yet registered and its `dbPath` names an existing directory |
| Adapter.Rejection | lib/adapter.js:54-58 | a missing identity is always the reason; a duplicate is the reason exactly when the identity is present and already registered; an accepted `dbPath` is an existing directory |
| Adapter.RejectionOrder | lib/adapter.js:55-56 | a missing identity is reported whatever the registry and the file system; a duplicate whatever the file system and however many more connections are registered |
| Adapter.SecondRegistrationRejected | lib/adapter.js:56-61 | once an identity is registered, registering it again is refused as a duplicate |
| Adapter.Remaining | lib/adapter.js:73-85 | teardown keeps only old entries, each unchanged; it empties the registry for a callback, `null` or `undefined`; otherwise it removes the named entry and keeps every other one |
| Adapter.TeardownIdempotent | lib/adapter.js:73-85 | tearing down twice is tearing down once |
| Adapter.TeardownFreesIdentity | lib/adapter.js:82-83 | after its connection is torn down, an identity is no longer refused as a duplicate |
| Adapter.Registry.constructor | lib/adapter.js:18 | the registry starts empty, and its invariant holds |
| Adapter.Registry.RegisterConnection | lib/adapter.js:54-62 | a refused configuration leaves the registry unchanged and reports the rejection; an accepted one adds exactly one new connection under its identity, with one collection per model and the loading outcome; the registry invariant is kept |
| Adapter.Registry.Teardown | lib/adapter.js:73-85 | the registry becomes `Remaining` of the old one, and the invariant is kept |
| Adapter.Registry.Join | lib/adapter.js:283-297 | `join` fails exactly for `null` criteria or an unknown connection, with a TypeError; otherwise the join engine gets the criteria without `select`, their other keys unchanged, and the parent collection's name |
| Adapter.Registry.FindVia | lib/adapter.js:307-310 | `$find` gives the named collection's `find` result; an unknown connection or collection throws a TypeError |
| Adapter.Registry.PrimaryKeyVia | lib/adapter.js:319-323 | `$getPK` gives undefined for a falsy identity before any lookup; otherwise the named collection's primary key, or a TypeError when it is not there |

## Left out

- The criteria translator (`./query`) is not part of this model. It is an opaque parameter that turns criteria and schema into the store's query object, or fails.
- The NeDB engine is not modelled from its source. It is an in-memory sequence of documents with index specifications. Its query matcher and its sort order are parameters. Projections, dotted field paths, timestamps, log replay, persisted indexes and the on-disk format are left out.
- Store.Datastore.Insert: the store's random `_id` generator is a parameter. Its identifiers are assumed distinct and unused in the store. The store's retries only avoid identifiers already stored, so two records of one batch could in principle draw the same one.
- Store.Datastore.Insert: only top-level field names are checked for a leading `$`. Nested objects, names containing `.`, and the store's own `$$` exceptions are not modelled.
- Store.Datastore.Filter: an unsorted `find` returns the matches in store order. The store's in-memory order follows its `_id` index, not insertion.
- Store.Datastore.RemoveAll: a matcher error makes the removal all-or-nothing. In the store, an error part-way through can leave the documents before it already removed in memory.
- Store.ApplyModifier: only top-level field names are checked for a leading `$`. The store also refuses nested `$` names and names containing `.` after a modification.
- Store.Consistent: a unique index compares whole field values. The store indexes the elements of an array value one by one.
- Store.Datastore.LoadDatabase: its failure condition is a stand-in. The store replays an append-only log, keeping the last line for each `_id`, and fails when too many lines do not parse or a persisted index is violated. Here the persisted documents are given directly, and loading fails exactly when they lack an `_id` or repeat one.
- Store.Page: only positive integer `skip` and `limit` take effect.
- Numbers are integers or `NaN`, with no floating point: a fraction or an infinity cannot be expressed. `Js.ToString` of an integer is its decimal digits. JavaScript switches to exponent notation from 10^21 on, and the model does not.
- Asynchrony is left out. The callbacks of `loadDatabase`, `ensureIndex` and `async.each` are modelled as sequential calls in key order, so "the first error" means the first in key order. With real completion order, a different error could arrive first.
- A collection's `self.db` is set only after loading completes. In the model the store is the collection's from the start.
- Aliasing is not modelled. Records, criteria and configurations are values, so the in-place `delete` on the caller's objects, and the deep clone of `config`, have no counterpart. Key order is kept only where a claim depends on it (schemas, criteria, translated queries, models). JavaScript's ordering of integer-like keys first is not modelled.
- The registry is a map without prototype keys. A configuration whose identity is, for example, `constructor` would clash with the prototype in the source.
- `path.join` normalisation (`..`, repeated slashes) is not modelled. The file name is the directory, one `/`, and `<model>.nedb`.
- The file system is an input. It holds the directories and the store files with their persisted documents. `fs.existsSync` and `fs.statSync` become membership tests.
- The precise text of error messages (`util.format`, `util.inspect`) is left out. The connection error is modelled as a wrapper whose only field is `originalError`.
- `describe`, `define`, `drop`, `native`, and the CRUD pass-throughs (`create`, `createEach`, `find`, `count`, `update`, `destroy` on the adapter) are left out. They only look up a collection and delegate, and the delegate is modelled. `drop` is file I/O. `alter` refers to an undefined `connectionName`.
- The join engine (`waterline-cursor`) is left out. The model stops at the request `join` hands it and at its two callbacks.
- Connection.Connection.OpenAll: does not state in its contract that each store is consistent and new, nor each store's contents (`Collection.OpenedStore`). `Collection.Collection.Open` and `Connection.Connection.OpenModel` state both for each collection.
- Connection.Connection.LoadCollections: does not state in its contract that each store is consistent and new, nor each store's contents, for the same reason.
- Adapter.Registry.RegisterConnection: does not state in its contract that each store is consistent and new, nor each store's contents, for the same reason.
- The `inMemoryOnly` and `autoload` options are copied into each collection's options but have no other effect in the model.
