# Batched MongoDB write builder and lazy aggregate builder, modelled in Dafny

This project models two fluent builders from a Rust MongoDB helper crate. Both collect write or
query intent in memory and turn it into documents for the driver.

**`BatchUpdateBuilder`** (`mongo_bulk_writer_builder.rs`) keeps an ordered log of write
operations and at most one open *update context*. A context holds a filter, a list of update
modifiers and an upsert flag.
- `add_update(filter)` commits the open context. It then takes the first committed update whose
  filter is structurally equal (`documents_equal`) out of the log and reopens it.
- Each of the seventeen modifier calls (`set` … `bit`) merges its modifier into the first
  modifier of the same operator variant, or appends it. The merge rules are those of
  `UpdateType::merge`:
  - last writer wins per field;
  - numeric add and multiply keep the value's type;
  - min and max;
  - `$each` lists concatenate, and the add-to-set form de-duplicates;
  - Pop and CurrentDate replace the whole payload.
- `delete`, `delete_many` and `insert` commit, then append one operation.
- `execute` compiles the log into write models. Its guard drops every update or delete with an
  empty filter and every update without modifiers. The modifiers of an update are flattened
  into one document keyed by operator name.

**`MongoAggregateBuilder`** (`lazy_mongo_aggregates.rs`) records pipeline stages and update
operations in vectors.
- `build_pipeline` serialises the stages, behind an optional leading `$match`.
- `build_update_doc` folds the update operations into one document keyed by operator.
- `execute_update` and `execute_update_many` pair that document with the filter, or refuse when
  no filter is set.

Modules:
- `Wrappers` (wrappers.dfy): `Option` and `Result`.
- `Bson` (bson.dfy): the BSON values.
  - A document is an association list. `Insert` replaces the value of an existing key in place
    and appends a new key, as `Document::insert` does.
  - `BsonEq` and `DocEq` model `PartialEq` on values and documents. Document equality ignores
    key order, and a NaN double is equal to nothing, itself included.
  - Int32 and Int64 arithmetic wraps, as in a release build.
- `UpdateTypes` (update_type.dfy): the modifier merge engine, operator names and `to_document`.
- `BulkWriter` (bulk_writer.dfy): the builder and its compile step.
  - The behaviour of each builder call is stated once, as a step function on a value
    `BuilderState` (log plus optional context).
  - The classes `BatchUpdateContext` and `BatchUpdateBuilder` mutate their fields in place.
    Each method is proved to move `State()` by its step function.
  - Lemmas prove that every step keeps the builder invariant `ValidState`:
    - no two committed updates have equal filters;
    - every committed update has a non-empty list of modifiers, and no operator variant repeats
      in it;
    - the open context's filter is equal to no committed filter.
- `BuilderScenarios` (builder_scenarios.dfy): the unit-test scenarios, stated as lemmas over the
  step functions.
- `LazyAggregates` (aggregates.dfy): the aggregate builder class, its stage and update documents,
  a parser that reads a stage document back, and the update requests.

## Model

| member | source | states |
|---|---|---|
| UpdateTypes.CompareValues | mongo_bulk_writer_builder.rs:85-92 | an ordering exists exactly for two Int32, two Int64 or two non-NaN Double values, and it is the numeric order |
| UpdateTypes.CompareAntisymmetric | mongo_bulk_writer_builder.rs:85-92 | v1 compares Less than v2 exactly when v2 compares Greater than v1 |
| UpdateTypes.Merge | mongo_bulk_writer_builder.rs:101-509 | merging gives a result exactly when both modifiers are the same variant, and then of that variant; unique payload keys stay unique |
| UpdateTypes.MergeFields | mongo_bulk_writer_builder.rs:104-111 | the per-field loop: every key of the second payload maps to its combined value; every other key keeps its old value; the first payload's keys keep their positions and no key repeats |
| UpdateTypes.MergeFieldsKeyOrder | mongo_bulk_writer_builder.rs:104-111 | the merged keys are the first payload's keys in their order, followed by the second payload's new keys in the second payload's order |
| UpdateTypes.Combine | mongo_bulk_writer_builder.rs:101-509 | the per-field combination: Set, Unset, SetOnInsert, Pull, Rename, Bit, Pop and CurrentDate take the new value; Push and AddToSet store the value or `{$each: value}`; PushEach and AddToSetEach always store a document; Inc, Mul, Min, Max and PullAll on an absent key take the new value; Min and Max keep one of the two values |
| UpdateTypes.MergeFieldwise | mongo_bulk_writer_builder.rs:104-128 | for every operator but Pop and CurrentDate the merged keys are the union of both payloads; a key of the second payload takes the combined value; a key only in the first is unchanged |
| UpdateTypes.MergeAt | mongo_bulk_writer_builder.rs:104-111 | the merged value under one key is the combined value when the second payload has the key, otherwise the first payload's value |
| UpdateTypes.MergeLastWriterWins | mongo_bulk_writer_builder.rs:104-128 | for Set, Unset, SetOnInsert, Pull, Rename and Bit a key of the second payload takes the second's value; any other key keeps the first's value |
| UpdateTypes.MergeWholeReplace | mongo_bulk_writer_builder.rs:302-303 | Pop and CurrentDate return the second modifier whole |
| UpdateTypes.CombineArithFallback | mongo_bulk_writer_builder.rs:416-431 | Inc or Mul on a key absent from the first payload, or on values of different kinds, stores the second value unchanged |
| UpdateTypes.CombineInt32 | mongo_bulk_writer_builder.rs:422-424 | two Int32 values give an Int32 equal to the exact sum or product modulo 2^32, and to the exact value when that is in range |
| UpdateTypes.CombineInt64 | mongo_bulk_writer_builder.rs:439-441 | two Int64 values give an Int64 equal to the exact sum or product modulo 2^64, and to the exact value when that is in range |
| UpdateTypes.CombineDouble | mongo_bulk_writer_builder.rs:416-448 | two finite doubles give their sum or product; a NaN operand gives NaN |
| UpdateTypes.CombineMinMax | mongo_bulk_writer_builder.rs:450-482 | an absent key takes the new value; otherwise the new value replaces the old only if it is the same numeric kind, non-NaN and strictly smaller (Min) or strictly larger (Max) |
| UpdateTypes.CombineMinInt32 | mongo_bulk_writer_builder.rs:450-465 | Min on two Int32 values keeps the smaller |
| UpdateTypes.CombineMinMaxNaN | mongo_bulk_writer_builder.rs:85-92 | a NaN never replaces an existing value under Min or Max |
| UpdateTypes.CombinePushAddToSet | mongo_bulk_writer_builder.rs:178-195 | Push and AddToSet store an array as `{$each: array}` and anything else as it is, overwriting the old entry |
| UpdateTypes.CombinePullAll | mongo_bulk_writer_builder.rs:287-300 | PullAll concatenates two arrays, first then second; otherwise the second value wins |
| UpdateTypes.EachMergeIntoDocument | mongo_bulk_writer_builder.rs:220-268 | merging into an `$each` document gives an `$each` list that is the old list followed by the new one (de-duplicated for the set form); other modifier keys come from both sides, with the new side winning |
| UpdateTypes.CombineEach | mongo_bulk_writer_builder.rs:361-414 | PushEach and AddToSetEach always give a document: the merged `$each` document when the old value is a document, otherwise the normalised new value |
| UpdateTypes.NormalizeEach | mongo_bulk_writer_builder.rs:223-230 | the new value in `$each` form always has `$each`: an array gives its items, a document with `$each` keeps its list, any other value becomes a one-element list |
| UpdateTypes.EachMerge | mongo_bulk_writer_builder.rs:220-266 | merging one `$each` field always gives a document; when the old value is not a document, the result is the normalised new value alone |
| UpdateTypes.EachMergeLists | mongo_bulk_writer_builder.rs:231-263 | two `{$each: list}` documents merge into `{$each: xs + ys}`, or into xs followed by the absent elements of ys for the set form |
| UpdateTypes.MergeEachLists | mongo_bulk_writer_builder.rs:220-266 | merging `{k: {$each: xs}}` with `{k: {$each: ys}}` gives `$each` xs + ys for PushEach and xs followed by the absent elements of ys for AddToSetEach |
| UpdateTypes.NormalizePayload | mongo_bulk_writer_builder.rs:213-218 | corrected recording: every field of a payload in `$each` form, with keys and order kept |
| UpdateTypes.Normalized | mongo_bulk_writer_builder.rs:213-218 | corrected recording: a PushEach or AddToSetEach modifier keeps its variant and keys, with every value an `$each` document; any other modifier is unchanged |
| UpdateTypes.NormalizedRawArray | mongo_bulk_writer_builder.rs:213-218 | a raw array field normalises to `{$each: array}` |
| UpdateTypes.NormalisedFieldsAgree | mongo_bulk_writer_builder.rs:220-266 | merging a normalised payload into a `$each` variant gives the same fields as merging the raw payload |
| UpdateTypes.NormalisedMergeAgrees | mongo_bulk_writer_builder.rs:220-266 | merging into an existing modifier gives the same result whether or not the second modifier is normalised first |
| UpdateTypes.NormalizeEachIdempotent | mongo_bulk_writer_builder.rs:223-230 | normalising an already normalised value changes nothing |
| UpdateTypes.AppendAbsentPrefix | mongo_bulk_writer_builder.rs:385-391 | the de-duplicating append keeps the existing list as a prefix |
| UpdateTypes.AppendAbsentFresh | mongo_bulk_writer_builder.rs:385-391 | every element it adds comes from the new list and equals no element before it |
| UpdateTypes.AppendAbsentCovers | mongo_bulk_writer_builder.rs:385-391 | every element of the new list ends up in the result, or an equal one already is |
| UpdateTypes.AddToSetEachNoNewDuplicates | mongo_bulk_writer_builder.rs:361-414 | for AddToSetEach the old list is kept as a prefix, every added element is new and unequal to all before it, and every new element is covered |
| UpdateTypes.PushEachConcatenates | mongo_bulk_writer_builder.rs:220-268 | PushEach of `{$each: xs}` then an array ys gives `{$each: xs + ys}` |
| UpdateTypes.AppendAbsentAppends | mongo_bulk_writer_builder.rs:385-391 | an element not yet present is appended |
| UpdateTypes.AppendAbsentSkips | mongo_bulk_writer_builder.rs:385-391 | an element already present is skipped |
| UpdateTypes.AppendAbsentSkipsPresent | mongo_bulk_writer_builder.rs:385-391 | `[x]` extended by `[y, x]` with x ≠ y gives `[x, y]` |
| UpdateTypes.AddToSetEachSkipsDuplicate | mongo_bulk_writer_builder.rs:361-414 | AddToSetEach of `{$each: [x]}` then `[y, x]` yields `{$each: [x, y]}` |
| UpdateTypes.InsertAllExceptSkipOnly | mongo_bulk_writer_builder.rs:394-405 | copying a document that has only the skipped key changes nothing |
| UpdateTypes.EachMergeSkipsPresent | mongo_bulk_writer_builder.rs:361-414 | the set-form `$each` merge of `[x]` with `[y, x]` gives `[x, y]` |
| UpdateTypes.AddToSetEachReplacesRawArray | mongo_bulk_writer_builder.rs:361-414 | when the first AddToSetEach payload holds a raw array, the merge replaces it with `{$each: new}` and the old elements are lost |
| UpdateTypes.ToDocument | mongo_bulk_writer_builder.rs:510-530 | a modifier becomes a one-field document `{operator: payload}` |
| UpdateTypes.OperatorNameRoundTrip | mongo_bulk_writer_builder.rs:510-530 | an operator key reads back as the operator's family; PushEach is written `$push` and AddToSetEach `$addToSet` |
| UpdateTypes.OperatorNameShared | mongo_bulk_writer_builder.rs:510-530 | two operators share a key exactly when they are in the same family |
| Bson.Insert | mongo_bulk_writer_builder.rs:107-109 | insert replaces an existing key's value in place or appends a new key; every other lookup is unchanged; unique keys stay unique |
| Bson.DocEq | mongo_bulk_writer_builder.rs:580-592 | `documents_equal`: the same number of fields, and every key of the first maps in the second to an equal value |
| Bson.BsonEq | mongo_bulk_writer_builder.rs:587 | value equality as `==` on BSON values: structural, with a NaN unequal to everything including itself |
| Bson.DocEqSymmetric | mongo_bulk_writer_builder.rs:582-594 | `documents_equal` is symmetric on well-formed documents |
| Bson.DocEqTransitive | mongo_bulk_writer_builder.rs:582-594 | `documents_equal` is transitive |
| Bson.DocEqSameKeys | mongo_bulk_writer_builder.rs:582-594 | equal documents have the same key set |
| Bson.BsonEqReflexive | mongo_bulk_writer_builder.rs:589 | a well-formed value without NaN equals itself |
| BulkWriter.FirstMergeable | mongo_bulk_writer_builder.rs:854-868 | the index `add_update_type` stops at is the first entry of the new modifier's variant, or the list's end |
| BulkWriter.Absorb | mongo_bulk_writer_builder.rs:854-868 | the absorbed list keeps every old entry's variant, grows by at most one, and any new last entry is the modifier itself |
| BulkWriter.AbsorbAt | mongo_bulk_writer_builder.rs:857-863 | when entry i is the first of the variant, it is replaced by the merge and nothing else changes |
| BulkWriter.AbsorbNone | mongo_bulk_writer_builder.rs:865-867 | with no entry of the variant, the modifier is appended |
| BulkWriter.AbsorbShape | mongo_bulk_writer_builder.rs:854-868 | absorbing keeps the list free of repeated variants, grows it by at most one, keeps every other entry and its position, and merges into the entry of the same variant |
| BulkWriter.BatchUpdateContext.AddUpdateType | mongo_bulk_writer_builder.rs:854-868 | the loop leaves the context equal to the old one with the modifier absorbed |
| BulkWriter.FirstEqualUpdate | mongo_bulk_writer_builder.rs:601-609 | the position `add_update` finds: the first update whose filter is `documents_equal` to the new one, or the log's end |
| BulkWriter.FindEqualUpdate | mongo_bulk_writer_builder.rs:601-609 | the search loop returns that position |
| BulkWriter.Remove | mongo_bulk_writer_builder.rs:610 | removal by index shifts later operations down by one and keeps earlier ones |
| BulkWriter.CommitKeepsInvariant | mongo_bulk_writer_builder.rs:568-580 | committing a non-empty context whose filter is new keeps the log's filters pairwise unequal and its updates well formed |
| BulkWriter.ReopenLeavesFilterFree | mongo_bulk_writer_builder.rs:601-610 | after the equal update is taken out, no committed update's filter equals the new filter |
| BulkWriter.CommitStepValid | mongo_bulk_writer_builder.rs:568-580 | `commit_context` keeps the builder invariant and closes the context |
| BulkWriter.AddUpdateStepValid | mongo_bulk_writer_builder.rs:596-626 | `add_update` keeps the builder invariant; no committed filter equals the new one |
| BulkWriter.ModifierStepValid | mongo_bulk_writer_builder.rs:628-745 | a modifier call keeps the builder invariant |
| BulkWriter.AppendStepValid | mongo_bulk_writer_builder.rs:754-770 | `delete`, `delete_many` and `insert` keep the builder invariant |
| BulkWriter.ReopenMovesToEnd | mongo_bulk_writer_builder.rs:596-626 | once committed again, a reopened update has left its old place and sits at the end of the log with its old modifiers and flag |
| BulkWriter.Initial | mongo_bulk_writer_builder.rs:553-561 | a new builder satisfies the invariant and commits to an empty log |
| BulkWriter.CommitStep | mongo_bulk_writer_builder.rs:568-580 | committing closes the context and extends the log by at most one operation, keeping the old log as a prefix |
| BulkWriter.AddUpdateStep | mongo_bulk_writer_builder.rs:596-626 | `add_update` leaves a context open under the new filter; the log is the committed log, less at most the one reopened update |
| BulkWriter.ModifierStep | mongo_bulk_writer_builder.rs:628-745 | a modifier call leaves the log and the presence of a context unchanged, and keeps the context's filter and upsert flag |
| BulkWriter.NormalisedModifierStep | mongo_bulk_writer_builder.rs:213-218 | corrected modifier call: like the recorded one when an entry of the variant exists; otherwise it appends the normalised modifier; unchanged for the other variants |
| BulkWriter.UpsertStep | mongo_bulk_writer_builder.rs:747-752 | `upsert` sets the open context's flag and keeps its filter, its modifiers and the log |
| BulkWriter.AppendStep | mongo_bulk_writer_builder.rs:754-770 | `delete`, `delete_many` and `insert` close the context and end the log with the new operation, after the old log |
| BulkWriter.BatchUpdateBuilder.constructor | mongo_bulk_writer_builder.rs:553-561 | an empty log, no context, `ordered` true |
| BulkWriter.BatchUpdateBuilder.SetOrdered | mongo_bulk_writer_builder.rs:563-566 | sets the flag and changes nothing else |
| BulkWriter.BatchUpdateBuilder.CommitContext | mongo_bulk_writer_builder.rs:568-580 | the log gains the context's update only when that has modifiers; the context is closed |
| BulkWriter.BatchUpdateBuilder.AddUpdate | mongo_bulk_writer_builder.rs:596-626 | commit, take out the first equal update and reopen its modifiers and flag under the new filter, or open an empty context |
| BulkWriter.BatchUpdateBuilder.AddModifier | mongo_bulk_writer_builder.rs:628-745 | the open context absorbs the modifier; with no context nothing changes |
| BulkWriter.BatchUpdateBuilder.Upsert | mongo_bulk_writer_builder.rs:747-752 | sets the open context's flag; with no context nothing changes |
| BulkWriter.BatchUpdateBuilder.Delete | mongo_bulk_writer_builder.rs:754-758 | commit, then append one DeleteOne |
| BulkWriter.BatchUpdateBuilder.DeleteMany | mongo_bulk_writer_builder.rs:760-764 | commit, then append one DeleteMany |
| BulkWriter.BatchUpdateBuilder.Insert | mongo_bulk_writer_builder.rs:766-770 | commit, then append one InsertOne |
| BulkWriter.BatchUpdateBuilder.Build | mongo_bulk_writer_builder.rs:772-775 | commits the open context |
| BulkWriter.BatchUpdateBuilder.Execute | mongo_bulk_writer_builder.rs:789-846 | builds, then returns the compiled write models of the committed log |
| BulkWriter.OperatorFields | mongo_bulk_writer_builder.rs:800-806 | one `{operator: payload}` field per modifier, in order |
| BulkWriter.UpdateDocKeys | mongo_bulk_writer_builder.rs:800-806 | the flattened update document has each operator key of the modifiers once and no other key |
| BulkWriter.UpdateDocLastWins | mongo_bulk_writer_builder.rs:800-806 | under each operator key sits the payload of the last modifier with that key |
| BulkWriter.PushThenPushEachShareKey | mongo_bulk_writer_builder.rs:800-806 | Push then PushEach flatten to a single `$push` entry holding the PushEach payload |
| BulkWriter.AddToSetThenEachShareKey | mongo_bulk_writer_builder.rs:800-806 | AddToSet then AddToSetEach flatten to a single `$addToSet` entry holding the later payload |
| BulkWriter.FlattenUpdates | mongo_bulk_writer_builder.rs:800-806 | the insert loop produces the flattened update document, whose keys are unique |
| BulkWriter.UpdateDoc | mongo_bulk_writer_builder.rs:800-806 | the flattened update document has unique keys |
| BulkWriter.Emit | mongo_bulk_writer_builder.rs:796-835 | one operation gives at most one write model, and an insert always gives one |
| BulkWriter.Compile | mongo_bulk_writer_builder.rs:792-846 | the compiled models are never more than the operations |
| BulkWriter.CompileSnoc | mongo_bulk_writer_builder.rs:792-846 | compiling one more operation appends its model, if any |
| BulkWriter.CompileAppend | mongo_bulk_writer_builder.rs:792-846 | compilation distributes over concatenation, so log order is kept |
| BulkWriter.CompileGuard | mongo_bulk_writer_builder.rs:796-835 | no emitted update or delete has an empty filter; no emitted update has an empty update document; at most one model per operation |
| BulkWriter.EmitGuard | mongo_bulk_writer_builder.rs:796-835 | the same guard for a single operation |
| BulkWriter.CompileOne | mongo_bulk_writer_builder.rs:796-846 | an operation is dropped exactly when it is an update with an empty filter or no modifiers, or a delete with an empty filter; inserts always compile |
| BulkWriter.CompileOperations | mongo_bulk_writer_builder.rs:792-846 | the `filter_map` loop returns the compiled models |
| BuilderScenarios.IdFiltersQualify | mongo_bulk_writer_builder.rs:582-594 | `{id: m}` and `{id: n}` are well formed and `documents_equal` exactly when m = n |
| BuilderScenarios.DifferentUpdateTypesSameFilter | mongo_bulk_writer_builder.rs:883-907 | set then inc on one filter give one update holding both modifiers, after build |
| BuilderScenarios.MergeSameUpdateTypeAndFilter | mongo_bulk_writer_builder.rs:909-932 | two sets on one filter give one update holding one merged `$set`, with the later fields winning |
| BuilderScenarios.DifferentFiltersNoMerge | mongo_bulk_writer_builder.rs:934-947 | updates on unequal filters stay two operations |
| BuilderScenarios.MixedOperations | mongo_bulk_writer_builder.rs:949-978 | update A, delete B, update C give `[UpdateOne, DeleteOne, UpdateOne]` after build |
| BuilderScenarios.ReopenMovesUpdateToEnd | mongo_bulk_writer_builder.rs:596-626 | reopening a filter after a delete moves its update behind the delete, with old and new modifiers |
| BuilderScenarios.CompileSkipsEmptyFilter | mongo_bulk_writer_builder.rs:796-835 | an update with an empty filter is dropped while its neighbours compile |
| BuilderScenarios.EmptyFilterIsDropped | mongo_bulk_writer_builder.rs:789-846 | through the builder, an update on `{}` never reaches the write models |
| BuilderScenarios.RawEachArrayLost | mongo_bulk_writer_builder.rs:361-412 | as written, two `add_to_set_each` calls with raw lists on one field commit only `{$each: second list}` |
| BuilderScenarios.NormalisedEachAccumulates | mongo_bulk_writer_builder.rs:213-218 | corrected, two `push_each` or `add_to_set_each` calls with raw lists commit the first list extended by the second |
| BuilderScenarios.NormalisedTagsExample | mongo_bulk_writer_builder.rs:213-218 | corrected, `["mongodb"]` then `["database", "mongodb"]` commit `{$each: ["mongodb", "database"]}` |
| BuilderScenarios.NormalisedAddToSetKeepsSet | mongo_bulk_writer_builder.rs:361-412 | corrected, the committed set list starts with the first list, adds only new elements of the second, and covers the second |
| LazyAggregates.MongoAggregateBuilder.constructor | lazy_mongo_aggregates.rs:74-86 | no stages, no update operations, no filter, upsert off |
| LazyAggregates.MongoAggregateBuilder.Filter | lazy_mongo_aggregates.rs:107-110 | replaces the filter and nothing else |
| LazyAggregates.MongoAggregateBuilder.Upsert | lazy_mongo_aggregates.rs:112-115 | sets the flag and nothing else |
| LazyAggregates.MongoAggregateBuilder.Lookup | lazy_mongo_aggregates.rs:118-128 | appends a lookup stage without a sub-pipeline |
| LazyAggregates.MongoAggregateBuilder.LookupWithPipeline | lazy_mongo_aggregates.rs:130-141 | appends a lookup stage carrying the sub-pipeline |
| LazyAggregates.MongoAggregateBuilder.Unwind | lazy_mongo_aggregates.rs:143-146 | appends an unwind stage |
| LazyAggregates.MongoAggregateBuilder.Group | lazy_mongo_aggregates.rs:148-151 | appends a group stage |
| LazyAggregates.MongoAggregateBuilder.Sort | lazy_mongo_aggregates.rs:153-156 | appends a sort stage |
| LazyAggregates.MongoAggregateBuilder.Project | lazy_mongo_aggregates.rs:158-161 | appends a project stage |
| LazyAggregates.MongoAggregateBuilder.AddFields | lazy_mongo_aggregates.rs:163-166 | appends an addFields stage |
| LazyAggregates.MongoAggregateBuilder.ReplaceRoot | lazy_mongo_aggregates.rs:168-171 | appends a replaceRoot stage |
| LazyAggregates.MongoAggregateBuilder.Facet | lazy_mongo_aggregates.rs:197-200 | appends a facet stage |
| LazyAggregates.MongoAggregateBuilder.Set | lazy_mongo_aggregates.rs:203-206 | appends a set operation |
| LazyAggregates.MongoAggregateBuilder.Unset | lazy_mongo_aggregates.rs:208-211 | appends an unset operation |
| LazyAggregates.MongoAggregateBuilder.Pull | lazy_mongo_aggregates.rs:213-216 | appends a pull operation |
| LazyAggregates.MongoAggregateBuilder.Push | lazy_mongo_aggregates.rs:218-221 | appends a push operation |
| LazyAggregates.MongoAggregateBuilder.AddToSet | lazy_mongo_aggregates.rs:223-226 | appends an addToSet operation |
| LazyAggregates.MongoAggregateBuilder.Inc | lazy_mongo_aggregates.rs:228-231 | appends an inc operation |
| LazyAggregates.MongoAggregateBuilder.BuildPipeline | lazy_mongo_aggregates.rs:256-325 | one document per stage in recording order, after a leading `{$match: filter}` when a filter is set; each stage document reads back as its stage |
| LazyAggregates.PipelineArray | lazy_mongo_aggregates.rs:290-292 | a sub-pipeline becomes an array of its documents, in order |
| LazyAggregates.StageOperatorInjective | lazy_mongo_aggregates.rs:262-322 | two stages have the same operator key exactly when they are the same variant |
| LazyAggregates.LookupDocFields | lazy_mongo_aggregates.rs:283-294 | a lookup body always carries from, localField, foreignField and as, and carries pipeline, as its fifth field, exactly when a sub-pipeline was supplied |
| LazyAggregates.PipelineArrayRoundTrip | lazy_mongo_aggregates.rs:290-292 | the sub-pipeline reads back from its array |
| LazyAggregates.LookupRoundTrip | lazy_mongo_aggregates.rs:283-294 | a lookup body reads back as its join |
| LazyAggregates.StageRoundTrip | lazy_mongo_aggregates.rs:262-322 | every stage document, unwind's `$`-prefixed path included, reads back as the stage it was emitted for |
| LazyAggregates.StageDocInjective | lazy_mongo_aggregates.rs:262-322 | distinct stages emit distinct documents |
| LazyAggregates.StageDoc | lazy_mongo_aggregates.rs:262-322 | each stage becomes a one-field document keyed by its operator |
| LazyAggregates.LookupDoc | lazy_mongo_aggregates.rs:283-294 | a lookup body starts with from, localField, foreignField and as |
| LazyAggregates.UpdateFields | lazy_mongo_aggregates.rs:238-250 | one `{operator: doc}` field per recorded operation, in order |
| LazyAggregates.UpdateDoc | lazy_mongo_aggregates.rs:234-253 | the update document has unique keys |
| LazyAggregates.MongoAggregateBuilder.BuildUpdateDoc | lazy_mongo_aggregates.rs:234-253 | the insert loop yields the update document, whose keys are unique |
| LazyAggregates.UpdateDocKeys | lazy_mongo_aggregates.rs:234-253 | the update document holds exactly the operators recorded, once each |
| LazyAggregates.UpdateDocLastWins | lazy_mongo_aggregates.rs:234-253 | under each operator sits the document of its last recording, whole |
| LazyAggregates.SetTwiceKeepsLast | lazy_mongo_aggregates.rs:203-206 | two `set` calls leave only the second document, with no field merging |
| LazyAggregates.UpdateRequestAsWritten | lazy_mongo_aggregates.rs:339-351 | as written: without a filter, a "No filter specified" failure; otherwise the filter and the update document, for one document, with upsert always off |
| LazyAggregates.UpsertFlagDropped | lazy_mongo_aggregates.rs:342-347 | the request as written is the corrected request with the flag off, and with a filter and the flag on the two differ |
| LazyAggregates.UpdateOneRequest | lazy_mongo_aggregates.rs:339-351 | corrected: without a filter, a "No filter specified" failure; otherwise the filter, the update document and the builder's upsert flag, for one document |
| LazyAggregates.MongoAggregateBuilder.ExecuteUpdate | lazy_mongo_aggregates.rs:339-351 | returns the request as written from the builder's fields: upsert off whatever the flag |
| LazyAggregates.MongoAggregateBuilder.ExecuteUpdateWithOptions | lazy_mongo_aggregates.rs:339-351 | corrected: returns the request with the builder's upsert flag passed on |
| LazyAggregates.UpdateManyRequest | lazy_mongo_aggregates.rs:353-360 | without a filter, a "No filter specified" failure; otherwise the filter and update document, for many documents, without upsert |
| LazyAggregates.MongoAggregateBuilder.ExecuteUpdateMany | lazy_mongo_aggregates.rs:353-360 | returns that request from the builder's fields |

Notes on where the model follows the code:
- The comment at mongo_bulk_writer_builder.rs:356-359 says an existing raw array is handled.
  The code does not handle it: a PushEach or AddToSetEach whose first payload holds a raw array
  (the first call is stored unnormalised) loses that array on the next merge. The model follows
  the code (`AddToSetEachReplacesRawArray`, `RawEachArrayLost`); the corrected recording
  (`NormalisedModifierStep`) is listed under Findings.
- The unit tests count `operations` before the last context is committed. Their counts hold
  after `build`, so the scenario lemmas state them after `CommitStep`.
- `documents_equal` uses value equality, under which a NaN is unequal to itself. An update
  whose filter contains a NaN is therefore never reopened. `ReopenMovesUpdateToEnd` requires a
  NaN-free filter for that reason.

## Left out

- The driver and transport in `execute`, `execute_aggregate`, `execute_update` and `execute_update_many`:
  - `bulk_write`, `namespace()` and the write-model builders;
  - `update_one`, `update_many` and the aggregate cursor.

  Compiled write models and update requests are plain values. Async execution is not modelled.
- `to_document(document).unwrap()` for inserts: the inserted record is an opaque value of
  type `T` that always compiles.
- The `ordered` flag is stored but never read when compiling.
- The `collection` fields of both builders, and the `database` and options of the aggregate
  builder, are not modelled.
- Double arithmetic is exact real arithmetic plus NaN. Rounding and infinities are not modelled.
  Int32 and Int64 `+` and `*` wrap as in a release build; the debug-build panic is not modelled.
- BSON kinds beyond Int32, Int64, Double, string, boolean, null, array and document (dates,
  ObjectIds and so on) are not modelled.
- The seventeen modifier calls `set` … `bit` are one method, `AddModifier(op, doc)`. Each
  call differs only in the variant it passes to `add_update_type`.
- Stage variants without a recorder (Match, Limit, Skip, Count, Bucket, SortByCount,
  GraphLookup, Out) are modelled only as cases of `build_pipeline`. The same holds for update
  variants without a recorder (Max, Min, Mul, Rename, CurrentDate) in `build_update_doc`.
- BulkWriter.BatchUpdateBuilder.AddUpdate: requires the filter to be well formed, with unique
  keys at every level. `documents_equal` is symmetric only on such documents, and the builder
  invariant relies on that symmetry.
- redis_pipeline.rs is not part of this model. It forwards commands to a foreign Redis pipeline.
- The `#[tokio::test]` functions need a live server. Their scenarios are stated as lemmas
  instead.

## Findings

| source | as written | input that shows it | evidently intended | confidence | as-written member | corrected member |
|---|---|---|---|---|---|---|
| lazy_mongo_aggregates.rs:342-347 | `execute_update` builds the upsert options into `let _` and calls `update_one` without them, so the `upsert(true)` call has no effect | a builder with a filter and `upsert(true)` sends an update with upsert off | pass the options so that `upsert(true)` makes an upsert | not executed | LazyAggregates.UpsertFlagDropped | LazyAggregates.UpdateOneRequest |
| mongo_bulk_writer_builder.rs:220-266, 361-412 | `push_each` and `add_to_set_each` record their first payload unchanged; the next merge finds a raw array where it expects an `$each` document and replaces it, although the comments at mongo_bulk_writer_builder.rs:213-218 and 356-359 say raw arrays are converted and an existing array is kept | `add_to_set_each({tags: ["a"]})` then `add_to_set_each({tags: ["b"]})` on one filter commit `{$addToSet: {tags: {$each: ["b"]}}}`, and `"a"` is lost | bring each payload to `$each` form when it is recorded, so the second list extends the first; `["mongodb"]` then `["database", "mongodb"]` give `["mongodb", "database"]` | not executed | BuilderScenarios.RawEachArrayLost | BulkWriter.NormalisedModifierStep |
