# CRUDModel in Dafny

A model of `nl.barrydam.model.CRUDModel`, an SAPUI5 `JSONModel` that talks to a
PHP-CRUD-API style REST service. The model covers what the class decides for itself:

- how it reads a resource path (`parsePath`);
- how it compiles UI5 filters into the API's query text (`parseUI5Filters`);
- how it derives the creatable columns of every table from the service metadata
  (`parseMetadataToColumndata`) and shapes new rows with them (`generateCreateByMetadata`);
- how it parses a LIST reply (`parseCRUDresultList`);
- how the constructor and `_set` build the settings;
- the URL that `_serviceCall` requests;
- the pending-change ledger `_oCRUDdata.oBatch`, with `createBatchOperation`, `createEntry`,
  the batch branch of `remove`, `clearBatch` and `hasPendingChanges`;
- `submitChanges`, which sends the Create, Update and Delete phases in turn. It reconciles
  the ledger and the local model data with the replies, and it calls the success or the
  error callback.

Layout, one module per file:

| file | module | contents |
|---|---|---|
| `wrappers.dfy` | `Wrappers` | `Option` |
| `js_values.dfy` | `JsValues` | flat JSON values, falsiness, the text a value takes as an object key |
| `strings.dfy` | `Strings` | `split`, `join`, `indexOf` and `replace` on strings, with their laws |
| `path_parser.dfy` | `PathParser` | `parsePath` |
| `filter_compiler.dfy` | `FilterCompiler` | `parseUI5Filters` and the server's reading of what it produces |
| `metadata.dfy` | `Metadata` | `parseMetadataToColumndata`, `generateCreateByMetadata` |
| `list_result.dfy` | `ListResult` | `parseCRUDresultList` |
| `settings.dfy` | `Settings` | `mDefaultParameters`, `_set`, the constructor's settings, the `_serviceCall` URL |
| `batch.dfy` | `Batch` | the ledger, `createBatchOperation`, `clearBatch`, `hasPendingChanges` |
| `reconcile.dfy` | `Reconcile` | the three submit phases as functions of the replies, and the progress state machine |
| `entries.dfy` | `Entries` | `createEntry` and the batch `remove`, on ledger and model data together |
| `crud_model.dfy` | `Model` | `class CrudModel`: the stateful object, with methods and loops proved against the functions above |

The functional modules are the specification. `CrudModel` holds the mutable state:
- the column cache;
- the ledger;
- the model data.

Each of its methods states its new state as a function of the old one. The loops of the
source are methods with invariants:
- the bucket scan of `hasPendingChanges`;
- the column, record and cell loops of `parseCRUDresultList`;
- the per-reply loops of the three phases;
- `indexOf` and `filter` on the DELETE list.

The DELETE list is processed in place in an `array` whose slots can be holes.

JavaScript behaviour is kept where it shows:
- a TypeError inside a handler stops the submission, so no callback fires;
- `$.when` rejects a whole phase when one request fails;
- `key in array` tests the array's indices and `length`;
- `"" + undefined` is `"undefined"`;
- `String(n)` is used as an object key;
- `replace` rewrites only the first occurrence.

Server replies and `Date.now()` are parameters. The service URL parameters keep JavaScript's
key order: array-index keys first, ascending, then the other keys in the order they were added.

## Model

| member | source | states |
|---|---|---|
| PathParser.ParsePath | CRUDModel.js:258-283 | table and id never hold `/`; the path is empty exactly when table, id and path all are |
| PathParser.ParseRoot | CRUDModel.js:267-275 | `""` gives empty fields; `"/"` gives an empty table and id but the path `/` |
| PathParser.NoQuoteNoRewrite | CRUDModel.js:260 | neither rewrite touches a path without a single quote |
| PathParser.ParseTablePath | CRUDModel.js:276-277 | `/t` (t without `/`) names table `t`, no id, path `/t` |
| PathParser.ParseTableIdPath | CRUDModel.js:276-281 | `/t/id/...` gives table `t`, id `id`, path `/t/id`; further segments are dropped |
| PathParser.RewriteQuoted | CRUDModel.js:260 | on `/t('id')` only the first rewrite finds its pattern |
| PathParser.ParseQuotedId | CRUDModel.js:258-283 | `/t('id')` parses to table `t` and id `id')`: the second rewrite never matches |
| PathParser.ReparseQuoteFree | CRUDModel.js:1285-1300 | parsing the rebuilt `Path` of a quote-free path gives the same result again |
| FilterCompiler.OperatorCodeDecodes | CRUDModel.js:296-307 | every operator except `NE` has a code that decodes back to it; `NE` has the empty code |
| FilterCompiler.ParseUI5Filters | CRUDModel.js:291-330 | the text is empty exactly when the input is not an array or is empty |
| FilterCompiler.FragmentsAppend | CRUDModel.js:316-327 | the fragments of two consecutive parts of the array are concatenated in order |
| FilterCompiler.SatisfyDefault | CRUDModel.js:315 | without a multi-filter the combinator stays `any` |
| FilterCompiler.SatisfyUntouched | CRUDModel.js:316-327 | simple filters never change the combinator |
| FilterCompiler.SatisfyAppend | CRUDModel.js:316-327 | the combinator after two parts is the second part's, started from the first's |
| FilterCompiler.SatisfyLastGroup | CRUDModel.js:318-322 | the last multi-filter decides the combinator (`all` when its `bAnd` is undefined) |
| FilterCompiler.CodeHasNoComma | CRUDModel.js:296-307 | no operator code holds a comma |
| FilterCompiler.FragmentFields | CRUDModel.js:312 | a fragment split at `,` gives back path, code and value(s), the second value only for `BT`, when no field holds a comma |
| FilterCompiler.OneFragment | CRUDModel.js:328-329 | one fragment gives `filter=` followed by it and no `satisfy` |
| FilterCompiler.ManyFragments | CRUDModel.js:328-329 | several fragments split at `&` into one `filter[]=` piece each, in order, then `satisfy=` and the combinator |
| FilterCompiler.AgeAbove18 | CRUDModel.js:312 | `age GT 18` compiles to `filter=age,gt,18` |
| FilterCompiler.SingleCondition | CRUDModel.js:324-329 | a lone simple filter gives `filter=` and its fragment |
| FilterCompiler.TwoUngrouped | CRUDModel.js:314-329 | two simple filters give two `filter[]=` parameters and `satisfy=any` |
| FilterCompiler.LoneNotEqual | CRUDModel.js:308-311 | a lone `NE` filter gives `filter=` with an empty fragment |
| Metadata.Find | CRUDModel.js:235 | `indexOf`: the first index holding the name, `None` exactly when absent |
| Metadata.WithoutKey | CRUDModel.js:235-238 | one name shorter, every other name kept, nothing added, and no key left when names are distinct |
| Metadata.ParseMetadataToColumndata | CRUDModel.js:223-244 | `undefined` exactly when the reply is an object without `paths`; a reply that is not an object throws; a registry it returns is never empty (`null` instead) |
| Metadata.CollectAppend | CRUDModel.js:229-242 | the route loop over two parts of `paths` is the loop over the whole |
| Metadata.CollectUnrelated | CRUDModel.js:229-242 | routes that do not describe table `t` leave its entry as it was |
| Metadata.LastRouteDecides | CRUDModel.js:229-242 | the last route for a table keeps it iff its properties hold the key, and then its columns are those properties without the key |
| Metadata.CollectThrows | CRUDModel.js:232-234 | the loop throws iff some route it reaches is one whose first parameter cannot be read as a schema |
| Metadata.CollectDropsKey | CRUDModel.js:235-241 | no column list collected holds the primary key |
| Metadata.RegistryOmitsKey | CRUDModel.js:223-244 | no column list of a parsed registry holds the primary key |
| Metadata.CollectionWithItemRoute | CRUDModel.js:231 | an item route (with an id) is skipped; its collection route keeps its columns without the key |
| Metadata.GenerateCreateByMetadata | CRUDModel.js:165-177 | with a known non-empty column list the payload has exactly those columns; otherwise it is passed through (`{}` for `undefined`) |
| Metadata.GenerateIdempotent | CRUDModel.js:165-177 | shaping a shaped payload changes nothing |
| ListResult.CacheColumns | CRUDModel.js:193-198 | a name is cached exactly when it is a reply column other than the primary key; never longer than the reply's list |
| ListResult.CacheColumnsIdempotent | CRUDModel.js:193-198 | caching an already cached list changes nothing |
| ListResult.CacheColumnsAppend | CRUDModel.js:194-198 | the column loop may go one column at a time |
| ListResult.ZipFields | CRUDModel.js:205-207 | with distinct columns and no surplus cells, a row has exactly the first columns as keys and column k holds cell k |
| ListResult.ZipSurplusCell | CRUDModel.js:205-207 | cells past the last column land under `undefined` and the last of them stays |
| ListResult.RowsKeys | CRUDModel.js:201-209 | the result's keys are exactly the records' primary key values |
| ListResult.LastRecordWins | CRUDModel.js:202-209 | a record is the result under its key unless a later record has the same key |
| ListResult.ColumnsCachedOnce | CRUDModel.js:188-199 | the first usable reply for a table caches its columns; later replies leave the cache alone and throw exactly when the reply is `null` or its listing is not an object |
| Settings.Put | CRUDModel.js:61 | the key ends up with the new value; no other entry is added, and every entry under another key is kept |
| Settings.PutNew | CRUDModel.js:61 | a new key that is not an array index goes last |
| Settings.PutOrdered | CRUDModel.js:61 | assigning a key keeps the entries in the order an object lists its keys: array indices first, ascending |
| Settings.PutQueryOrdered | CRUDModel.js:57-62 | the query loop keeps the parameters' keys unique and in object order |
| Settings.ServiceUrlKeepsOrder | CRUDModel.js:51-64 | setting the service URL keeps `serviceUrlParams` an object with unique keys in object order |
| Settings.IndexKeyListedFirst | CRUDModel.js:51-64 | after `setServiceUrl(base?a=x&i=y)` with `i` an array index and `a` not, the parameters are `i` then `a`, and a request carries `?i=y&a=x` |
| Settings.PutUnique | CRUDModel.js:61 | assigning a key of an object leaves that key once, with the new value, keys unique |
| Settings.WithSlash | CRUDModel.js:55 | the result is non-empty and ends in `/` |
| Settings.ApplySet | CRUDModel.js:48-74 | a call that does not throw stores the key; any key but `serviceUrl` changes that key only |
| Settings.ConstructorQueryThrows | CRUDModel.js:397-401 | a service URL with a non-empty query makes the constructor throw |
| Settings.ConstructorUrlNotText | CRUDModel.js:401 | a service URL that is not a string (omitted, `null`, a number) makes the constructor throw |
| Settings.RejectedParamIgnored | CRUDModel.js:407-412 | a parameter that is unknown or of the wrong type has no effect, wherever it appears |
| Settings.ApplySetTyped | CRUDModel.js:48-74 | `_set` with a value of the default's type keeps the settings well typed |
| Settings.ConstructedWellTyped | CRUDModel.js:392-414 | a constructed model has every default, each of the default's type, and binding mode `TwoWay` or `OneWay` |
| Settings.ParamPairs | CRUDModel.js:531-535 | one `k=v` piece per service URL parameter, in key order |
| Settings.ServiceCallUrl | CRUDModel.js:507-541 | no request exactly when the URL is empty; otherwise the requested URL starts with the service URL |
| Settings.PutQueryPlain | CRUDModel.js:58-62 | plain `k=v` pairs whose keys are not array indices, parsed into empty parameters, are listed in order |
| Settings.ServiceQueryRoundTrip | CRUDModel.js:51-64 | after `setServiceUrl(base?query)` with keys that are not array indices, a request to a plain path carries `base/`, the path, `?` and the same query |
| Settings.LeadingSlashKept | CRUDModel.js:524-529 | the path's leading slash is kept, so a service URL ending in `/` gives `//` |
| Settings.MetadataUrl | CRUDModel.js:515-541 | the metadata request goes to the bare service URL, followed by `?` and its `k=v` parameters joined by `&` when there are any |
| Batch.Merge | CRUDModel.js:733 | fields of the payload overwrite; other fields of the entry stay |
| Batch.RefusedAddsNothing | CRUDModel.js:703-727 | refused calls return `false` and leave the ledger; PUT or DELETE without an id changes no entry |
| Batch.PutAfterDeleteRefused | CRUDModel.js:728-730 | a PUT whose id is an index key of the table's DELETE list is refused and changes no entry |
| Batch.PutIntoCreate | CRUDModel.js:731-734 | a PUT for an id pending creation merges into the POST entry, returns `true` and adds no PUT entry |
| Batch.PutMerges | CRUDModel.js:735-738 | a PUT for an id pending update merges into that entry and nothing else changes |
| Batch.PutStoresNew | CRUDModel.js:739-742 | a PUT for an id pending nowhere stores the payload as a new entry and nothing else changes |
| Batch.TwoPutsMerge | CRUDModel.js:735-742 | two PUTs for a fresh id leave one entry, the merge of both payloads |
| Batch.PostStores | CRUDModel.js:746-755 | a POST stores the payload, with the primary key set to `now`, under `now`, returns `now` and touches no other entry |
| Batch.SameMillisecondCollides | CRUDModel.js:752-754 | two POSTs in the same millisecond leave one entry, the second payload |
| Batch.DeleteDropsUpdate | CRUDModel.js:766-769 | a DELETE drops a pending update of the id, and no other update, no other id's create entry and no other table's list |
| Batch.DeleteOfCreated | CRUDModel.js:770-774 | a DELETE of an id pending creation drops the POST entry and returns `true` without listing the id |
| Batch.DeleteListsOnce | CRUDModel.js:775-780 | another id is appended when not listed (`true`); a repeat leaves the list and returns `undefined` |
| Batch.DeleteAfterCreate | CRUDModel.js:746-774 | a POST then a DELETE of its temporary id returns `true`, drops the POST entry and lists nothing |
| Batch.DeleteTwiceIsOnce | CRUDModel.js:758-780 | for an id not pending creation, a second DELETE leaves the ledger as the first did |
| Batch.DeleteTwiceAfterCreate | CRUDModel.js:770-779 | for an id pending creation the second DELETE lists the temporary id |
| Batch.DeleteGuardTestsIndices | CRUDModel.js:728 | after `/t/7` is listed, a PUT for `/t/0` is refused and one for `/t/7` is accepted, leaving `7` both updated and listed |
| Batch.BatchOpKeepsNoDuplicates | CRUDModel.js:700-782 | every call keeps each DELETE list free of repeats |
| Batch.ClearAllNothingPending | CRUDModel.js:634-636 | `clearBatch()` leaves nothing pending |
| Batch.ClearOneBucket | CRUDModel.js:637-639 | an existing bucket becomes empty, the others stay; an absent kind changes nothing |
| Batch.ClearIdempotent | CRUDModel.js:634-640 | clearing twice is clearing once |
| Batch.StoredIsPending | CRUDModel.js:809-826 | after a stored POST or PUT, changes are pending |
| Entries.PostResults | CRUDModel.js:746-755 | a POST returns its temporary id or `false` |
| Entries.CreateEntryPending | CRUDModel.js:793-802 | the POST entry and the local row are the shaped payload with the temporary id as key, under that id; nothing else changes |
| Entries.CreateEntryShaped | CRUDModel.js:797 | with a cached non-empty column list the entry has exactly those columns and the key |
| Entries.CreateEntryEmptyPayload | CRUDModel.js:797-800 | without columns or payload the POST is refused, yet a row `{pk: false}` is stored under `false` |
| Entries.CreateEntryNoChange | CRUDModel.js:794-797 | without a table, or with a `null` cache, nothing changes |
| Entries.RemoveDropsRow | CRUDModel.js:1298-1311 | the row leaves its table, nothing else in the data changes, and the ledger is the DELETE's |
| Entries.RemoveUnloadedThrows | CRUDModel.js:1300-1306 | on a table not loaded the DELETE is recorded, then it throws |
| Entries.TempKeyPlain | CRUDModel.js:752 | a temporary id is all digits |
| Entries.RemovePendingCreate | CRUDModel.js:1300-1307 | removing a row pending creation lists nothing and drops the POST entry |
| Entries.CreateThenRemove | CRUDModel.js:793-802 | `createEntry` then `remove` leaves no POST entry, no listed id and no local row |
| Reconcile.StripKey | CRUDModel.js:959-963 | the same tables and ids, each entry without the primary key |
| Reconcile.FirstSlot | CRUDModel.js:1144 | `indexOf`: the first slot holding the id; `None` when no slot holds it |
| Reconcile.PrefixLeaves | CRUDModel.js:1065-1073 | removing the first k ids leaves an entry exactly while k is short of all of them |
| Reconcile.UpdateKeysFrom | CRUDModel.js:1065-1073 | the update loop from k throws exactly when the reply is longer than the ids; else the table loses the first n ids (its entry once all are gone) and no other table changes |
| Reconcile.UpdateConfirms | CRUDModel.js:1061-1080 | a reply of n values removes the first n sent ids (the table when empty), whatever the values |
| Reconcile.UpdateIgnoresFlags | CRUDModel.js:1065-1073 | replies of the same length have the same effect |
| Reconcile.CreateKeysFrom | CRUDModel.js:982-997 | the create loop from k moves each row to its server id and drops its POST entry |
| Reconcile.CreateMovesRows | CRUDModel.js:978-1004 | rows move to their server ids with the key set, other rows and tables stay, the processed entries are gone |
| Reconcile.CreateLongReplyThrows | CRUDModel.js:982-996 | a reply longer than the sent ids throws once the table's entry is gone |
| Reconcile.FindsOwnSlot | CRUDModel.js:1142-1144 | with distinct ids, the id of index k is found at slot k |
| Reconcile.DeleteKeysFrom | CRUDModel.js:1134-1149 | the flag loop from k removes the list exactly when every id is flagged 1; otherwise it holes exactly the slots flagged 1 and fails iff some flag is not 1 |
| Reconcile.CompactMarked | CRUDModel.js:1151-1153 | compacting the marked list leaves exactly the ids not flagged 1, in order |
| Reconcile.DeleteReplyEffect | CRUDModel.js:1126-1161 | ids flagged 1 leave the list, the rest stay in order and fail the phase; confirming all removes the list and throws |
| Reconcile.DeleteAllConfirmedThrows | CRUDModel.js:1144-1151 | confirming every id of a list, one flag each, always throws |
| Reconcile.DeleteKeysFailed | CRUDModel.js:1134-1141 | a flag loop that ends with a list failed iff some flag is not 1 |
| Reconcile.CreatePhaseEffect | CRUDModel.js:950-1030 | the Create phase adds at most `Create` and touches neither the PUT bucket nor the DELETE lists |
| Reconcile.UpdatePhaseEffect | CRUDModel.js:1031-1102 | the Update phase adds at most `Update` and touches neither the data nor the DELETE lists |
| Reconcile.DeletePhaseEffect | CRUDModel.js:1103-1183 | the Delete phase adds at most `Delete` and touches neither the data nor POST and PUT |
| Reconcile.SubmitIdle | CRUDModel.js:943-946 | with nothing pending the success callback fires and nothing changes |
| Reconcile.SubmitPhases | CRUDModel.js:1185-1218 | with changes pending, the outcome of the three phases run in order is `Stopped` if one threw, else the callback for their errors |
| Reconcile.PhasesReport | CRUDModel.js:1000-1001 | the errors of three phases that did not throw are exactly the names of the failed phases |
| Reconcile.SubmitOutcome | CRUDModel.js:1208-1215 | without a throw, the error callback fires iff a phase failed, with exactly those names; otherwise success |
| Reconcile.CreateSucceedsDeleteRejected | CRUDModel.js:940-1219 | a create that succeeds and a rejected delete: `Delete` only is reported, the row sits under its server id |
| Model.AnyRows | CRUDModel.js:817-822 | true iff some table of the bucket has an entry |
| Model.AnyIds | CRUDModel.js:817-819 | true iff some table of the DELETE bucket has a non-empty list |
| Model.Zip | CRUDModel.js:203-207 | the row zipped from one record equals `ZipRecord` |
| Model.CacheColumnList | CRUDModel.js:193-198 | the pushed list equals `CacheColumns` |
| Model.KeyRows | CRUDModel.js:201-209 | the keyed rows equal `RowsByKey` |
| Model.IndexOfSlot | CRUDModel.js:1144 | the index found equals `FirstSlot` |
| Model.NoSlotLeft | CRUDModel.js:1146 | true iff every slot is a hole |
| Model.CompactAppend | CRUDModel.js:1152 | compacting two pieces is compacting each |
| Model.CompactSlots | CRUDModel.js:1152 | the filtered list equals `Compact` |
| Model.ErrorsUntilOne | CRUDModel.js:1134-1141 | the error flag equals `FailsAfterEmpty` |
| Model.MarkDeleted | CRUDModel.js:1134-1149 | the array's end state, or its removal, and the error flag equal `DeleteKeys` |
| Model.CrudModel.constructor | CRUDModel.js:392-414 | settings from `ConstructSettings`, primary key stored, empty cache, empty ledger and data |
| Model.CrudModel.LoadMetadata | CRUDModel.js:418-420 | the cache becomes the parsed column data; a parse that throws leaves it |
| Model.CrudModel.ClearBatch | CRUDModel.js:634-640 | the ledger becomes `Clear` of the old one |
| Model.CrudModel.HasPendingChanges | CRUDModel.js:809-826 | the answer is `Pending` of the ledger |
| Model.CrudModel.CreateBatchOperation | CRUDModel.js:700-782 | the new ledger and result are `BatchOp` of the old ledger |
| Model.CrudModel.RecordPut | CRUDModel.js:721-744 | ledger and result are the PUT branch on the filled buckets |
| Model.CrudModel.RecordPost | CRUDModel.js:746-755 | ledger and result are the POST branch on the filled buckets |
| Model.CrudModel.RecordDelete | CRUDModel.js:758-780 | ledger and result are the DELETE branch on the filled buckets |
| Model.CrudModel.CreateEntry | CRUDModel.js:793-802 | ledger, data, result and throw are `CreateEntryOp` |
| Model.CrudModel.RemoveBatch | CRUDModel.js:1298-1311 | ledger, data and throw are `RemoveOp` |
| Model.CrudModel.ParseCrudResultList | CRUDModel.js:187-214 | rows, cache and throw are `ParseResultList` |
| Model.CrudModel.MoveCreated | CRUDModel.js:982-997 | POST bucket, data and halt are `CreateKeys` |
| Model.CrudModel.CreateStage | CRUDModel.js:950-1030 | ledger, data, errors and halt are `CreatePhase` |
| Model.CrudModel.DropUpdated | CRUDModel.js:1065-1073 | PUT bucket and halt are `UpdateKeys` |
| Model.CrudModel.UpdateStage | CRUDModel.js:1031-1102 | ledger, errors and halt are `UpdatePhase` |
| Model.CrudModel.ApplyDeleteReply | CRUDModel.js:1126-1161 | DELETE bucket, failure and halt are `DeleteStep` |
| Model.CrudModel.DeleteStage | CRUDModel.js:1103-1183 | ledger, errors and halt are `DeletePhase` |
| Model.CrudModel.SubmitChanges | CRUDModel.js:940-1219 | ledger, data and outcome are `Submit` of the old state and the replies |

## Left out

- The network, `$.ajax` and the callbacks' timing are not modelled. Replies are inputs, and each phase's replies arrive together, as `$.when` delivers them.
- `login`, `logout`, `reload`, the event attachers, the bindings (`bindList`, `execBind`, `read`), the generated setters and getters, and `create`, `update` and `remove` without batch mode are left out. They forward to the network or to `JSONModel`.
- The settings, column cache and ledger are fields of the prototype, so they are shared between instances. The model is a single instance and does not capture the sharing.
- Object key order: the ids of a create or update request are given with its reply (`Answer.ids`), rather than being derived from JavaScript's ordering of integer-like keys.
- Rows are flat. Replies are numbers or arrays of scalars. Error payloads are recorded by phase name only, not as references to the live buckets.
- Reconcile.LooseOne: `flag != 1` is false only for the number 1, `true` and the text `1`. Other spellings of 1 (`"01"`, `" 1"`, `[1]`) are not covered.
- Batch.PutOp, Batch.DeleteOp: JavaScript's `in` also finds names inherited from `Object.prototype` and `Array.prototype` (`constructor`, `toString`, `push`, `indexOf`, …). The model tests own keys only (indices and `length` for the DELETE list), so tables and ids with those names are not modelled.
- PutStoresNew: holds for ids that are not inherited member names. A PUT for `push` while the table has a DELETE list is refused by the source, and one for `constructor` or `toString` merges into the inherited member.
- DeleteListsOnce: holds for ids that are not inherited member names. With a POST bucket for the table, a DELETE of `constructor` returns `true` in the source without listing the id.
- JsValues.KeyOf: numbers are integers. Fractions, `NaN`, `Infinity` and the exponent form `String(n)` takes from 1e21 on are not modelled.
- Entries.CreateEntryOp: when no column list reshapes the payload, `createEntry` writes the primary key into the caller's own object and stores that same object as the model-data row, so the caller's object and the row are one object. The model stores a copy, so a later change through one of them is not seen in the other. The ledger entry is a deep copy in the source as in the model.
- Metadata.Classify: a `parameters` value that is not an array is not modelled. The route's `parameters` is either absent or a list.
- Entries.RemoveOp: the root path case drops the named table. The cyclic `setProperty` it then performs on the whole model data is not modelled.
- Reconcile.StripKey: a function over the buckets, not the `$.each` loop.
- Model.MarkDeleted: works on an array copy of the table's list that is written back afterwards. The aliasing of the error payload with the live list is not captured.
- Where the source code and its comments disagree, the model follows the code:
  - the filter combinator defaults to `any`;
  - `parsePath("/")` has the path `/`;
  - the guard against updating a deleted id tests array indices;
  - `$.when` rejects a whole phase when one request fails;
  - confirming every id of a DELETE list one by one throws.
