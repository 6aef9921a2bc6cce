# SonarQube search index base, modelled in Dafny

This project models `BaseIndex`, the generic base class of SonarQube's Elasticsearch
indices (2014 code base). It has four parts:

- **Mapping compiler** (`mapping.dfy`, module `Mapping`). It turns a field descriptor
  (`IndexField`: name, type, sortable, searchable, nested fields) into the backend's field
  mapping, a nested string-keyed map (`json.dfy`). The functions are pure. The module does
  not import the backend, so compiling a mapping cannot consult backend state.
- **Synchronization tracker** (`base_index.dfy`, module `Index`). One `updatedAt` time is
  stored per domain index in the shared management index. A new time is written only when it
  is strictly later than the stored one.
- **Index lifecycle and CRUD gateway** (`base_index.dfy`, class `Index.BaseIndex`, over the
  abstract backend of `backend.dfy`). Covers create-if-absent set-up, mapping re-application,
  keyed get, bulk upsert and delete, and the policy for which errors reach the caller and
  which are swallowed.
- **Term-filter helpers** (`filters.dfy`, module `Filters`). They add one `must` clause to a
  bool filter under construction.

The backend is abstract. `Backend.State` holds the existing indices, their settings, the
mapping per (index, type), and the documents keyed by (index, type, id). The `Backend.Backend`
class offers the client requests `BaseIndex` uses: exists, create, put mapping, get, update,
bulk, delete, refresh and count. Each request is given by its contract. A set of
`Fault(op, index)` values says which kinds of request to which index throw. This reaches the
exception paths of the backend requests. A failing `getIndexSettings` hook and a failing
normalizer are modelled as `Err` values. Two things are not modelled (see Left out): exceptions
thrown by the other entity-specific hooks (`getKeyValue`, `mapKey`, `mapProperties`, `toDoc`,
`getKey`), and a concurrent writer.

The entity-specific abstract members (`getKeyValue`, `getIndexSettings`, `mapKey`,
`mapProperties`, `toDoc`, `Dto.getKey`) and the normalizer are passed to the constructor as
values (`Index.Hooks`, `Index.Normalizer`). The current time of `setLastSynchronization` is a
parameter. Exceptions become `Result`/`Outcome` values carrying an `Error`. An
`IllegalStateException` is `IllegalState(message, cause)`.

In these places the code does something other than a caller would expect. The model follows
the code:

- A missing synchronization record does not read as "never synchronized":
  `getLastSynchronization` dereferences the missing field and throws (see Findings).
- Not every set-up failure is reported as an invalid index configuration. Only the failures
  inside the `try` of `initializeIndex` are wrapped: getting the settings, creating the domain
  index and putting the mapping. Failures while setting up the management index, and failure of
  the domain index's existence check, propagate unwrapped.
- The words sub-field is not limited to string fields: it is added for every searchable text or
  string field. Only the grams sub-field is limited to non-text fields.
- Upserts carry no routing: `updateDocument` stamps index, type and id only. `getByKey` is the
  only request that sets the routing, equal to the id.

The suffix constants `SORT_SUFFIX`, `SEARCH_PARTIAL_SUFFIX` and `SEARCH_WORDS_SUFFIX` belong to
`IndexField`, which is not part of this model. They are taken to be the three distinct strings
`"sort"`, `"grams"` and `"words"`. Lemmas that need a field name to differ from them say so in
a `requires` (`IndexField.NameIsNotSuffix`).

## Model

| member | source | states |
|---|---|---|
| `Mapping.MapField` | sonar-server/src/main/java/org/sonar/server/search/BaseIndex.java:211-227 | every compiled mapping has a "type" entry. It is `multi_field` exactly for an expandable text/string field, `string` for any other text/string field, and `boolean`, `nested`, `date`, `double` for the other four types. The unknown-type branch cannot be reached with the closed six-case type |
| `Mapping.MapFieldAllowingMulti` | sonar-server/src/main/java/org/sonar/server/search/BaseIndex.java:207-209 | the one-argument `mapField` is the two-argument one with expansion allowed; each nested field is compiled through it (`NestedPropertiesValues` states the entry it gives) |
| `Mapping.MapDomain` | sonar-server/src/main/java/org/sonar/server/search/BaseIndex.java:198-205 | the root mapping has exactly the keys `dynamic`, `_id` and `properties`; `DomainMappingShape` gives their values |
| `Mapping.MapNumericField` | sonar-server/src/main/java/org/sonar/server/search/BaseIndex.java:229-231 | a numeric field's mapping; `LeafMappingsAreFixed` states it is exactly `{type: double}` |
| `Mapping.MapBooleanField` | sonar-server/src/main/java/org/sonar/server/search/BaseIndex.java:233-235 | a boolean field's mapping; `LeafMappingsAreFixed` states it is exactly `{type: boolean}` |
| `Mapping.MapDateField` | sonar-server/src/main/java/org/sonar/server/search/BaseIndex.java:250-254 | a date field's mapping; `LeafMappingsAreFixed` states it is exactly `{type: date, format: date_time}` |
| `Mapping.NeedMultiField` | sonar-server/src/main/java/org/sonar/server/search/BaseIndex.java:256-260 | the expansion condition; `MultiFieldExactlyWhen` states that a group arises exactly when it holds and expansion is allowed |
| `Mapping.MapSortField` | sonar-server/src/main/java/org/sonar/server/search/BaseIndex.java:262-267 | the sort sub-field; `MultiFieldIsOneLevel` states that it, like every sub-field of a group, is a flat string mapping |
| `Mapping.MapGramsField` | sonar-server/src/main/java/org/sonar/server/search/BaseIndex.java:269-275 | the partial-match sub-field; `MultiFieldIsOneLevel` states it is a flat string mapping, `MultiFieldKeys` when it is present |
| `Mapping.MapWordsField` | sonar-server/src/main/java/org/sonar/server/search/BaseIndex.java:277-283 | the words sub-field; `MultiFieldIsOneLevel` states it is a flat string mapping, `MultiFieldKeys` when it is present |
| `Mapping.MapMultiField` | sonar-server/src/main/java/org/sonar/server/search/BaseIndex.java:285-298 | a group holds no keys besides the field's name and the three suffixes, and the entry under the name is always the unexpanded mapping of the field itself (it is put last) |
| `Mapping.MapStringField` | sonar-server/src/main/java/org/sonar/server/search/BaseIndex.java:300-313 | the keys are exactly `type` and `fields` for a group, else exactly `type`, `index`, `index_analyzer`, `search_analyzer` |
| `Mapping.MapTextField` | sonar-server/src/main/java/org/sonar/server/search/BaseIndex.java:315-326 | the keys are exactly `type` and `fields` for a group, else exactly `type` and `index` |
| `Mapping.MapNestedField` | sonar-server/src/main/java/org/sonar/server/search/BaseIndex.java:237-248 | the keys are exactly `type` (nested) and `properties`, and the properties' keys are exactly the names of the non-null nested fields |
| `Mapping.NestedProperties` | sonar-server/src/main/java/org/sonar/server/search/BaseIndex.java:240-245 | after the loop over the nested fields, the keys of the properties map are exactly the names of the non-null nested fields seen so far |
| `Mapping.NestedPropertiesValues` | sonar-server/src/main/java/org/sonar/server/search/BaseIndex.java:240-245 | the entry under a nested field's name is that field compiled with multi-field expansion allowed, for the last non-null nested field of that name (later puts overwrite) |
| `Mapping.NestedMapping` | sonar-server/src/main/java/org/sonar/server/search/BaseIndex.java:237-248 | an object field compiles to exactly `{type: nested, properties: P}` whatever `allowRecursive` says. P's keys are exactly the names of the non-null nested fields, so every nesting level follows the same rules |
| `Mapping.DomainMappingShape` | sonar-server/src/main/java/org/sonar/server/search/BaseIndex.java:198-205 | the root mapping has exactly the keys `dynamic` (false), `_id` (the key mapping) and `properties` (the property mapping) |
| `Mapping.LeafMappingsAreFixed` | sonar-server/src/main/java/org/sonar/server/search/BaseIndex.java:229-254 | boolean gives exactly `{type: boolean}`, numeric exactly `{type: double}`, date exactly `{type: date, format: date_time}`, whatever the flags |
| `Mapping.MultiFieldExactlyWhen` | sonar-server/src/main/java/org/sonar/server/search/BaseIndex.java:256-326 | a multi-field group arises if and only if expansion is allowed, the type is text or string, and the field is sortable or searchable. The group is exactly `{type: multi_field, fields: mapMultiField(f)}` |
| `Mapping.SinglePrimaryMapping` | sonar-server/src/main/java/org/sonar/server/search/BaseIndex.java:300-326 | without expansion, text gives exactly `{type: string, index: not_analyzed}`. String gives exactly `{type: string, index: analyzed, index_analyzer: keyword, search_analyzer: whitespace}` |
| `Mapping.MultiFieldKeys` | sonar-server/src/main/java/org/sonar/server/search/BaseIndex.java:285-298 | the group always holds the field's own name. It holds the sort suffix iff sortable, the words suffix iff searchable, and the grams suffix iff searchable and not text. It holds no other key. The entry under the name is `mapField(f, false)` |
| `Mapping.MultiFieldIsOneLevel` | sonar-server/src/main/java/org/sonar/server/search/BaseIndex.java:285-298 | every sub-field of a text/string group is a flat `string` mapping, never a multi-field group again, so expansion is one level deep |
| `Mapping.MappingDepth` | sonar-server/src/main/java/org/sonar/server/search/BaseIndex.java:207-326 | a compiled mapping nests at most 3 + 2·h objects, where h is the nesting height of the descriptor |
| `Mapping.TwoFieldExample` | sonar-server/src/main/java/org/sonar/server/search/BaseIndex.java:250-298 | a sortable, searchable string field "name" compiles to a group with name, sort, words and grams entries. A date field compiles to a `date_time` mapping |
| `Index.SyncTime` | sonar-server/src/main/java/org/sonar/server/search/BaseIndex.java:181-185 | the read yields a time exactly when the document exists and its `updatedAt` entry is a time, and then that time; otherwise a null dereference or a failed cast |
| `Index.Synchronized` | sonar-server/src/main/java/org/sonar/server/search/BaseIndex.java:166-177 | the as-written rule either leaves the documents as they are or applies exactly the one `updatedAt` update to the record; no other document changes |
| `Index.SyncNeverRegresses` | sonar-server/src/main/java/org/sonar/server/search/BaseIndex.java:166-177 | once a time is stored, a write attempt leaves the larger of the stored and the new time, and changes no other document |
| `Index.SyncOrderIndependent` | sonar-server/src/main/java/org/sonar/server/search/BaseIndex.java:166-177 | two write attempts give the same documents in either order, whether or not a time is stored. When one is stored, they leave the largest of the three times |
| `Index.SyncAsWrittenNeverInitializes` | sonar-server/src/main/java/org/sonar/server/search/BaseIndex.java:166-186 | as written, when no readable time is stored, a write attempt changes nothing, so the record is never created |
| `Index.SynchronizedIntended` | sonar-server/src/main/java/org/sonar/server/search/BaseIndex.java:166-186 | corrected rule: after a write attempt a time is always stored. It is the new time when none was readable, else the larger of the two. Other documents are unchanged |
| `Index.Stamped` | sonar-server/src/main/java/org/sonar/server/search/BaseIndex.java:357-362 | one request per input request, in order, each addressed to this index, this type and the key's id, with its document and upsert document kept |
| `Index.UpsertBatchEffect` | sonar-server/src/main/java/org/sonar/server/search/BaseIndex.java:354-364 | the stamped batch writes only the keyed document. That document exists afterwards iff it existed or some request carries an upsert document |
| `Index.BaseIndex.InitializeSpec` | sonar-server/src/main/java/org/sonar/server/search/BaseIndex.java:116-147 | the outcome and state of set-up; `InitializeIndex` is tied to it, and `InitializeIsIdempotent`, `InitializeKeepsData`, `InitializeSucceeds` and `InitializeWrapsLateFailures` state its properties |
| `Index.BaseIndex.InitializeManagementIndex` | sonar-server/src/main/java/org/sonar/server/search/BaseIndex.java:97-114 | the management index is created with the fixed settings only if absent. Failures of the exists or create request are returned unwrapped, and leave the state unchanged |
| `Index.BaseIndex.InitializeIndex` | sonar-server/src/main/java/org/sonar/server/search/BaseIndex.java:116-147 | result and new state are `InitializeSpec`: management index first, then the domain index if absent with the entity's settings, then always the mapping with conflicts ignored. Late failures are wrapped |
| `Index.BaseIndex.Start` | sonar-server/src/main/java/org/sonar/server/search/BaseIndex.java:84-88 | starting is exactly the set-up |
| `Index.BaseIndex.InitializeIsIdempotent` | sonar-server/src/main/java/org/sonar/server/search/BaseIndex.java:116-147 | from the state a successful set-up leaves, a second set-up succeeds and leaves the same state |
| `Index.BaseIndex.InitializeTwice` | sonar-server/src/main/java/org/sonar/server/search/BaseIndex.java:116-147 | calling the set-up twice: when the first call succeeds, the second does too and changes nothing |
| `Index.BaseIndex.InitializeKeepsData` | sonar-server/src/main/java/org/sonar/server/search/BaseIndex.java:97-147 | set-up, successful or not, removes no index, keeps the settings of existing indices and touches no document |
| `Index.BaseIndex.InitializeSucceeds` | sonar-server/src/main/java/org/sonar/server/search/BaseIndex.java:97-147 | after a successful set-up both indices exist. A new management index has the fixed settings. A new domain index has the entity's `getIndexSettings()`. The type's mapping carries every entry of `mapDomain()` |
| `Index.BaseIndex.InitializeWrapsLateFailures` | sonar-server/src/main/java/org/sonar/server/search/BaseIndex.java:116-147 | a failed set-up is an IllegalStateException "Invalid configuration for index <name>" exactly when the management index set-up and the domain index's existence check went through |
| `Index.BaseIndex.GetLastSynchronization` | sonar-server/src/main/java/org/sonar/server/search/BaseIndex.java:179-186 | returns the stored `updatedAt` time. A missing document or field is a null dereference, a non-time value a failed cast, a failed get its exception |
| `Index.BaseIndex.SetLastSynchronization` | sonar-server/src/main/java/org/sonar/server/search/BaseIndex.java:166-177 | reads the stored time, propagating its failure. It writes the new time only when strictly later; on success the documents are `Synchronized(old, addr, now)`; on failure they are unchanged |
| `Index.BaseIndex.GetIndexStat` | sonar-server/src/main/java/org/sonar/server/search/BaseIndex.java:149-162 | the stat is the index's document count and its last synchronization time. The count's failure comes first, then the synchronization read's |
| `Index.BaseIndex.Refresh` | sonar-server/src/main/java/org/sonar/server/search/BaseIndex.java:328-335 | a refresh fails only when the backend refuses it, and changes no document |
| `Index.BaseIndex.GetByKey` | sonar-server/src/main/java/org/sonar/server/search/BaseIndex.java:341-352 | looks up id `getKeyValue(key)` in this index and type. It returns `None` (null) exactly when the document is absent, else `toDoc` of its source; only a failed get is an error |
| `Index.BaseIndex.UpdateDocument` | sonar-server/src/main/java/org/sonar/server/search/BaseIndex.java:354-364 | one bulk item per request, each stamped with this index, this type and id `getKeyValue(key)`. The batch is submitted as one bulk request; an empty batch is refused by the backend |
| `Index.BaseIndex.Upsert` | sonar-server/src/main/java/org/sonar/server/search/BaseIndex.java:367-370 | normalizer and bulk failures are returned to the caller. On success the stamped batch is applied |
| `Index.BaseIndex.UpsertByDto` | sonar-server/src/main/java/org/sonar/server/search/BaseIndex.java:372-380 | never fails. The entity's batch is applied when normalizing and the bulk request succeed, else the state is unchanged |
| `Index.BaseIndex.UpsertByKey` | sonar-server/src/main/java/org/sonar/server/search/BaseIndex.java:382-390 | never fails. The batch rebuilt from the key is applied when normalizing and the bulk request succeed, else the state is unchanged |
| `Index.BaseIndex.DeleteDocument` | sonar-server/src/main/java/org/sonar/server/search/BaseIndex.java:392-400 | deletes the document with id `getKeyValue(key)`. A failed delete is returned and changes nothing |
| `Index.BaseIndex.Delete` | sonar-server/src/main/java/org/sonar/server/search/BaseIndex.java:402-405 | always fails with the IllegalStateException "Cannot delete nested Object from ES. Should be using Update" |
| `Index.BaseIndex.DeleteByKey` | sonar-server/src/main/java/org/sonar/server/search/BaseIndex.java:407-415 | never fails. The keyed document is gone unless the delete request failed, in which case nothing changed |
| `Index.BaseIndex.DeleteByDto` | sonar-server/src/main/java/org/sonar/server/search/BaseIndex.java:417-425 | never fails. The entity's document is gone unless the delete request failed |
| `Index.BaseIndex.UpsertedKeyPresence` | sonar-server/src/main/java/org/sonar/server/search/BaseIndex.java:354-364 | after a bulk submission that went through, the keyed document exists iff it existed or a request carried an upsert document. Every other document is as before |
| `Index.BaseIndex.UpsertThenGet` | sonar-server/src/main/java/org/sonar/server/search/BaseIndex.java:367-370 | `upsert(obj, key)` then `getByKey(key)`: when normalizing, the bulk request and the get go through, the get finds a document exactly when it existed before or a normalized request carried an upsert document. Every other document is as before |
| `Index.BaseIndex.DeleteThenGet` | sonar-server/src/main/java/org/sonar/server/search/BaseIndex.java:407-415 | `deleteByKey(key)` then `getByKey(key)`: when neither request fails the get returns null, and every other document is as before |
| `Filters.AddTermsFilter` | sonar-server/src/main/java/org/sonar/server/search/BaseIndex.java:453-463 | a null or empty collection leaves the filter unchanged. Otherwise exactly one must clause is appended, holding one term should-clause per value in order; the should list is untouched |
| `Filters.AddMultiFieldTermFilter` | sonar-server/src/main/java/org/sonar/server/search/BaseIndex.java:437-450 | a null or empty collection leaves the filter unchanged. Otherwise exactly one must clause is appended, holding per value an or filter of one term per field |
| `Filters.AddTermFilter` | sonar-server/src/main/java/org/sonar/server/search/BaseIndex.java:465-470 | a null or empty value leaves the filter unchanged. Otherwise exactly one term filter is appended to must |
| `Filters.MustNarrows` | sonar-server/src/main/java/org/sonar/server/search/BaseIndex.java:447 | appending a must clause selects exactly the documents the old filter and the clause both select |
| `Filters.TermsFilterSelects` | sonar-server/src/main/java/org/sonar/server/search/BaseIndex.java:453-463 | the clause for a non-empty collection selects exactly the documents holding one of the values in the field |
| `Filters.MultiFieldTermsFilterSelects` | sonar-server/src/main/java/org/sonar/server/search/BaseIndex.java:437-450 | the multi-field clause selects exactly the documents holding one of the values in one of the fields |

## Findings

| source | as written | input that shows it | evidently intended | confidence | as-written member | corrected member |
|---|---|---|---|---|---|---|
| sonar-server/src/main/java/org/sonar/server/search/BaseIndex.java:166-186 | `getLastSynchronization` calls `getValue()` on the `updatedAt` field without a null check. `setLastSynchronization` reads it first, then writes with a plain update (no upsert). An index with no record therefore throws on every read and write, and never gets a record. The read may fail even when the record exists: `getField` returns only fields the get request asked for, and this request asks for none | a management index holding no document for the index, and any current time | a missing record means "never synchronized": the first write stores the time (an upsert), later ones keep the maximum | not executed; medium | `Index.SyncAsWrittenNeverInitializes` | `Index.SynchronizedIntended` |

The class method `Index.BaseIndex.SetLastSynchronization` models the code as written.
`setLastSynchronization` is private, and nothing in the class calls it (line 166 is its only
occurrence). As written, this class never writes the synchronization record at all.

## Left out

- The Elasticsearch client, its transport and `ESNode`: the backend is the abstract state of
  `backend.dfy`. A request either succeeds with the effect its contract gives or throws, as
  `faults` says. A request that throws changes nothing, so a bulk request is never partly applied.
- The contents of `Settings` beyond the management index's fixed settings. The domain index's
  settings are an opaque value from the `getIndexSettings` hook.
- Put-mapping with ignored conflicts is modelled as merging the new top-level entries over the
  current mapping. Partial document updates merge top-level fields only. The backend's
  conflict checks and its recursive merging are not modelled.
- A bulk item that addresses a missing document and has no upsert document is skipped, and
  its failure is not reported. The backend's per-item response is not modelled.
- Routing is carried in the get request but does not affect where a document is found.
  Creating an index automatically on the first write is not modelled either.
- A get or count on an index that does not exist answers as if the index were empty. The get
  gives "no document" and the count gives 0. The Elasticsearch client throws
  `IndexMissingException` there instead. So before set-up, `getByKey`, `getLastSynchronization`
  and `getIndexStat` give "absent" or 0 in the model, where the real calls throw.
- `addMatchField`: it writes into an Elasticsearch `XContentBuilder`, which is not part of this model.
- Logging and the unused `WorkQueue` constructor argument. `stop()` has an empty body.
  `getIndexName`, `getIndexType`, `getClient` and `getNode` are plain accessors of the
  definition and the connection.
- Wall-clock time: `new Date()` becomes the `now` parameter, in milliseconds as an `int`.
- Index.SyncTime: reads `getField("updatedAt").getValue()` (line 185) as the `updatedAt` entry of
  the stored document. It takes the `java.util.Date` written at line 174 and cast at line 181 to
  be the number `JNumber(t)`. The backend's get returns only fields the request names, and the
  request at lines 181-185 names none. A date stored in a document also comes back as a string
  or a number, not a `Date`. So the real read may fail even when the record exists. The model's
  readable stored time, which `SyncNeverRegresses` and `SyncOrderIndependent` assume, may never
  exist for the real code.
- Index.BaseIndex.GetLastSynchronization: follows the same reading of the stored time as
  `Index.SyncTime`.
- Index.Stamped: `updateDocument` stamps the caller's `UpdateRequest` objects in place (lines
  358-361), so the caller's requests are changed afterwards. The model builds stamped copies.
  Nothing in this core reads the requests again, so nothing here observes the difference.
- Concurrency. No other writer changes the backend between two requests of one operation, so
  the existence check and the create of set-up always agree. When two instances race to create
  the same index, the loser's create throws `IndexAlreadyExistsException`. For the management
  index that exception propagates unwrapped (lines 105-112). For the domain index it is wrapped
  in the IllegalStateException "Invalid configuration for index <name>" (lines 126-130 and
  144-145). Neither outcome can arise in this model. The lost update on the management index is
  not modelled either, nor the refresh visibility lag: the get is real-time.
- Index.BaseIndex.Refresh: states only success or failure. Making documents visible to searches is not modelled.
- Entity-specific hooks other than `getIndexSettings` and the normalizer are total functions
  here. Exceptions thrown from `getKeyValue`, `mapKey`, `mapProperties`, `toDoc` or `getKey`
  are not modelled.
- Index.BaseIndex.DeleteByKey, Index.BaseIndex.DeleteByDto: "never fails" rests on those hooks
  being total. The catch blocks call `getKeyValue(key)` and `item.getKey()` again for the log
  message (lines 412-413 and 422-423). If one of them throws there, the exception escapes the
  catch.
- `RuleService` only delegates to its index and checks the user session and permissions. The
  schema migration test runs against a real database. Neither is part of this model.
