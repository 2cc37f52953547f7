# bosk Mongo driver core, modelled in Dafny

This project models the core of the bosk MongoDB driver:

- **`BsonSurgeon`**. It splits the BSON document of a bosk node into parts, one per entry of every "separate collection" below the node. Each part is a self-describing recipe `{_id: "a|b|c", state: ...}`. In the document, every carved-out entry is replaced by `true`. `gather` puts the parts back together in any order.
- **The reference surgeon in the surgeon's unit test.** It keeps the BSON path as an array of field names and always scatters from the root.
- **`FlushLock`**. It makes `flush` wait until the change stream has processed a revision.
- **The modal driver facade.** It forwards every driver call to its current driver. That driver is one of three modes: disconnected, reconnecting or connected. The current driver is swapped by compare-and-set.
- **The test doubles standing for a live driver.** These are `RecordingDriver` and `RecordingMongoDriver`.
- **`MongoDriver.factory`**, which picks a driver kind from the number of separate collections.

Modules:

| file | module | what it holds |
|---|---|---|
| `wrappers.dfy` | `Wrappers` | `Option` and `Result` |
| `sorting.dfy` | `Sorting` | an insertion sort by an integer key (permutation and order proved), maps over sequences, permutation facts |
| `bson.dfy` | `Bson` | BSON values, `Get` and `PutAt` by path, and `Stub` (a document with given paths replaced by `true`) |
| `bson_paths.dfy` | `BsonPaths` | `String.join("\|", …)` and Java's `String.split("\\|")`, and when one undoes the other |
| `grafts.dfy` | `Grafts` | reference paths with parameters (`-entity-`), binding, and disjointness of collections |
| `surgery.dfy` | `Surgery` | what both surgeons share: failures, parts, `lookup`, placing a part, and the stubbing facts behind the round trip |
| `bson_surgeon.dfy` | `BsonSurgeon` | `BsonSurgeon`: its constructor, `scatter`, `scatterOneCollection`, `gather` and the string-encoded `_id` |
| `reference_surgeon.dfy` | `ReferenceSurgeon` | the reference `scatter`/`gather` of the unit test |
| `flush_lock.dfy` | `FlushLock` | `FlushLock` as a class over `alreadySeen` and a revision-ordered queue |
| `drivers.dfy` | `Drivers` | driver calls and the events a recording driver writes for them |
| `recording.dfy` | `Recording` | `RecordingDriver` and `RecordingMongoDriver` as classes over their event log |
| `modal.dfy` | `Modal` | the mode drivers as values, and `ModalDriverFacade` as a class over its current driver |
| `mongo_driver.dfy` | `MongoDriver` | `MongoDriver.factory` |

### The round trip

Scattering is specified semantically.

- `Stub(D, X)` is the document `D` with every path in `X` replaced by `true`.
- While scattering, the working document is always `Stub(D, paths emitted so far)`.
- Each emitted part carries the stubbed original at its path.

This invariant is called `Scattered`; its finished form is `Describes`. From it, the model proves:

- gathering the recipes of such a part list returns `D`;
- this holds for every permutation of the list (`GatherIgnoresOrder`);
- scattering and then gathering returns the original document (`ScatterThenGather`).

Scattering is also proved complete. `Covers(docPath, D, C, parts)` says that every entry of every instance of the collection `C` that lies below the node and is present in `D` has been carved out as a part. Each scatter method promises `Covers` for the collection, or for each bound id, it handles.

When scattering succeeds is characterized too. `Reachable` says that every lookup a collection's scatter makes finds a sub-document of the original document: the container itself when no parameter is left, else the catalog of ids above the first parameter and, for each of its ids, the collection with that id bound. The stubbed working document answers these lookups as the original does, because everything stubbed so far lies deeper (`StubAbove`). Every scatter method succeeds exactly when its collections are `Reachable`, and fails with a missing document otherwise. The parts scattered have pairwise distinct paths.

The document is modified in place through nested references in the source. Here it is a value, and each `entry.setValue(TRUE)` or `container.put(key, value)` becomes `PutAt` on the whole document.

### Following the code

- **Recursion in `scatterOneCollection` when scattering below the root.** Two lines of the code go wrong there. As written, the catalog lookup asks for a parameter placeholder such as `-entity-` instead of the catalog above it, so scatter throws where it should carve entries out. Even past that lookup, rebinding the unbound graft point would skip entries; on the inputs that reach it, the first mistake throws first. Both are listed under "## Findings". `BsonSurgeon.ScatterOneCollection` models the evidently intended behaviour: the catalog is looked up at the first parameter counted from the node, and each id is bound into the container as already bound to the node's path. The code as written is modelled by `CatalogSegmentsAsWritten` and `RebindAsWritten`, beside lemmas that show the entries they lose.
- **The index guard.** The slice in the code could throw an index error. With the corrected slice it cannot, so the only failure left is a missing document.
- **`startedRevision`'s Java `assert`.** `FlushLock.FlushLock.StartedRevision` takes the assertion `alreadySeen <= revision` as its precondition.
- **`finishedRevision`.** It leaves `alreadySeen` alone, as the code does.

## Model

| member | source | states |
|---|---|---|
| BsonSurgeon.GraftPoint.EntryRef | bosk-mongo/src/main/java/io/vena/bosk/drivers/mongo/BsonSurgeon.java:51-59 | the graft point's reference is the container's path extended by the placeholder entry id and nothing else |
| BsonSurgeon.NewSurgeon | bosk-mongo/src/main/java/io/vena/bosk/drivers/mongo/BsonSurgeon.java:36-49 | the graft points are a permutation of the separate collections, ordered longest path first |
| BsonSurgeon.NewSurgeonWellFormed | bosk-mongo/src/main/java/io/vena/bosk/drivers/mongo/BsonSurgeon.java:38-48 | built from disjoint non-root collections, the surgeon's graft points are ordered, non-root and disjoint, which is what scattering bottom-up relies on |
| BsonSurgeon.FieldNameSegments | bosk-mongo/src/main/java/io/vena/bosk/drivers/mongo/BsonSurgeon.java:104-105 | the dotted field-name segments start with "state" followed by one field name per reference segment below the starting node |
| BsonSurgeon.BsonPathSegments | bosk-mongo/src/main/java/io/vena/bosk/drivers/mongo/BsonSurgeon.java:144-152 | the empty `_id` has no segments, and an `_id` without a separator is a single segment |
| BsonSurgeon.SegmentsOfJoin | bosk-mongo/src/main/java/io/vena/bosk/drivers/mongo/BsonSurgeon.java:144-152 | splitting a "\|"-joined path of non-empty, separator-free segments returns those segments |
| BsonSurgeon.IdSegments | bosk-mongo/src/main/java/io/vena/bosk/drivers/mongo/BsonSurgeon.java:111-115 | the `_id` a part is stored under splits back into the node's path followed by the part's path |
| BsonSurgeon.EncodeAll | bosk-mongo/src/main/java/io/vena/bosk/drivers/mongo/BsonSurgeon.java:138-142 | one recipe per part, in order, each holding the part's state under its joined path |
| BsonSurgeon.PlaceRecipe | bosk-mongo/src/main/java/io/vena/bosk/drivers/mongo/BsonSurgeon.java:192-202 | a placed entry extends the root's prefix by at least one segment and its state ends up at the rest of its path; an entry outside the prefix fails with "not contained"; an entry whose path equals the prefix fails |
| BsonSurgeon.PlaceRecipes | bosk-mongo/src/main/java/io/vena/bosk/drivers/mongo/BsonSurgeon.java:191-203 | placing recipes into a document yields a document |
| BsonSurgeon.PlacedBelowPrefix | bosk-mongo/src/main/java/io/vena/bosk/drivers/mongo/BsonSurgeon.java:191-203 | when the loop succeeds, every entry lay strictly below the root recipe's path |
| BsonSurgeon.Reassemble | bosk-mongo/src/main/java/io/vena/bosk/drivers/mongo/BsonSurgeon.java:182-206 | an empty parts list fails with an index error, and a successful gather yields a document |
| BsonSurgeon.Gather | bosk-mongo/src/main/java/io/vena/bosk/drivers/mongo/BsonSurgeon.java:182-206 | sorting the parts and placing them one by one computes `Reassemble` |
| BsonSurgeon.PlaceEach | bosk-mongo/src/main/java/io/vena/bosk/drivers/mongo/BsonSurgeon.java:191-203 | the loop over the sorted entries places them in turn and stops at the first failure, as `PlaceRecipes` does |
| BsonSurgeon.PlaceOne | bosk-mongo/src/main/java/io/vena/bosk/drivers/mongo/BsonSurgeon.java:192-202 | one iteration of the gather loop, step by step, computes `PlaceRecipe` |
| BsonSurgeon.PlaceRecipeStep | bosk-mongo/src/main/java/io/vena/bosk/drivers/mongo/BsonSurgeon.java:196-202 | for an entry below the prefix, placing it either puts its state into the container its path leads to or fails with the missing container's segments |
| BsonSurgeon.EncodedDecodes | bosk-mongo/src/main/java/io/vena/bosk/drivers/mongo/BsonSurgeon.java:111-115 | decoding the `_id`s of the recipes of a described part list gives back exactly that part list |
| BsonSurgeon.GatherInvertsScatter | bosk-mongo/src/main/java/io/vena/bosk/drivers/mongo/BsonSurgeon.java:182-206 | gathering the recipes of a part list that describes a document returns that document |
| BsonSurgeon.GatherIgnoresOrder | bosk-mongo/src/main/java/io/vena/bosk/drivers/mongo/BsonSurgeon.java:177 | gathering any permutation of those recipes returns the same document |
| BsonSurgeon.ScatterOneCollection | bosk-mongo/src/main/java/io/vena/bosk/drivers/mongo/BsonSurgeon.java:93-131 | a graft point that cannot lie below the node changes nothing; otherwise it appends the recipes of the parts it carves out, every part an entry of an instance of the graft point's container, leaves the document stubbed exactly at those parts, none of them carved twice, and carves out every entry of the container below the node that the document holds (`Covers`); it succeeds exactly when every lookup it makes finds a sub-document of the original document (`Reachable`), and a failure is a missing document |
| BsonSurgeon.ScatterLastLevel | bosk-mongo/src/main/java/io/vena/bosk/drivers/mongo/BsonSurgeon.java:107-117 | with no parameter left, every entry of the one container below the node is carved out with the same guarantees, `Covers` included; it succeeds exactly when the original document has that container as a sub-document, and a failure can only be a missing document |
| BsonSurgeon.ScatterEachId | bosk-mongo/src/main/java/io/vena/bosk/drivers/mongo/BsonSurgeon.java:118-130 | recursing once per id found, with the first parameter bound, keeps the same guarantees and covers the container bound to each of those ids; it succeeds exactly when every one of those bound graft points is `Reachable` |
| BsonSurgeon.ScatterEntries | bosk-mongo/src/main/java/io/vena/bosk/drivers/mongo/BsonSurgeon.java:107-117 | succeeds exactly when the container is a sub-document; then one part per entry, holding the entry's value under the container's path and the entry's key, is emitted, and the container is left with `true` for every key; a missing container fails naming its segments |
| BsonSurgeon.Scatter | bosk-mongo/src/main/java/io/vena/bosk/drivers/mongo/BsonSurgeon.java:75-86 | the recipes end with the root recipe under the node's joined path; for a well-formed surgeon the parts describe the original document, no two share a path, every separate collection is covered, and scatter succeeds exactly when every graft point is `Reachable` in the document; every recipe but the root one is an entry of one of the surgeon's containers (`CarvedBy`), so nothing else is carved out |
| BsonSurgeon.ScatterThenGather | bosk-mongo/src/main/java/io/vena/bosk/drivers/mongo/BsonSurgeon.java:75-86 | scatter succeeds exactly when every separate collection is `Reachable` below the node; then gathering its recipes in any received order gives back the original document, and every entry of a separate collection below the node has a recipe under its own path; no two recipes share an `_id`; when scatter fails, the failure is a missing document and nothing is gathered |
| BsonSurgeon.DistinctIds | bosk-mongo/src/main/java/io/vena/bosk/drivers/mongo/BsonSurgeon.java:75-86 | parts with distinct paths that describe a document encode to recipes with distinct `_id`s, so no recipe overwrites another when they are stored by `_id` |
| BsonSurgeon.ReachableEvery | bosk-mongo/src/main/java/io/vena/bosk/drivers/mongo/BsonSurgeon.java:36-49 | since the graft points are the separate collections, every graft point is reachable exactly when every separate collection is |
| BsonSurgeon.CatalogSegments | bosk-mongo/src/main/java/io/vena/bosk/drivers/mongo/BsonSurgeon.java:120-121 | the catalog looked up for the first parameter is the rendered entry path from the node down to, and not including, that parameter |
| BsonSurgeon.CatalogSegmentsAsWritten | bosk-mongo/src/main/java/io/vena/bosk/drivers/mongo/BsonSurgeon.java:120-121 | the slice as written is in range exactly when the first parameter's index from the root plus the node's depth fits in the entry path; it equals the intended slice at the root and differs from it at every node below the root |
| BsonSurgeon.CatalogAsWrittenMisses | bosk-mongo/src/main/java/io/vena/bosk/drivers/mongo/BsonSurgeon.java:120-121 | scattering `entities/-entity-/children` from the node `entities`, the slice as written names the placeholder `-entity-`, which the document does not hold, while the entry `e1/children/c1` is present |
| BsonSurgeon.RebindAsWritten | bosk-mongo/src/main/java/io/vena/bosk/drivers/mongo/BsonSurgeon.java:126 | binding the graft point's own first parameter removes exactly one parameter |
| BsonSurgeon.RebindAsWrittenSkips | bosk-mongo/src/main/java/io/vena/bosk/drivers/mongo/BsonSurgeon.java:126 | scattering `entities/-entity-/children/-child-/grandchildren` from `entities/e1`, the graft point rebound as written no longer lies under the node, while `children/c1/grandchildren/g1` is an entry of the container below the node |
| BsonSurgeon.RebindBoundKeeps | bosk-mongo/src/main/java/io/vena/bosk/drivers/mongo/BsonSurgeon.java:126 | with the same inputs, binding `c1` into the container already bound to the node leaves one parameter, stays under the node and has `children/c1/grandchildren/g1` as an entry |
| BsonSurgeon.RecipesForEntries | bosk-mongo/src/main/java/io/vena/bosk/drivers/mongo/BsonSurgeon.java:75-86 | when every graft point's container is covered, every entry of a separate collection below the node has a recipe whose `_id` splits into the node's path followed by the entry's path |
| Surgery.CoversFromIds | bosk-mongo/src/main/java/io/vena/bosk/drivers/mongo/BsonSurgeon.java:118-130 | a collection with a parameter is covered once the container bound to each id of its catalog is |
| Surgery.CoversEntries | bosk-mongo/src/main/java/io/vena/bosk/drivers/mongo/BsonSurgeon.java:112-117 | a parameter-free container is covered once a part has been emitted for each of its keys |
| Surgery.Lookup | bosk-mongo/src/main/java/io/vena/bosk/drivers/mongo/BsonSurgeon.java:154-164 | succeeds exactly when every segment leads to a sub-document and returns that sub-document; otherwise fails naming the segments |
| Surgery.Place | bosk-mongo/src/test/java/io/vena/bosk/drivers/mongo/BsonSurgeonTest.java:177-186 | a placed part's state ends up at its path; placing fails unless its container exists; the empty path is refused |
| Surgery.PlaceAllRestores | bosk-mongo/src/test/java/io/vena/bosk/drivers/mongo/BsonSurgeonTest.java:176-188 | placing parts shortest path first into the stubbed document restores the stubbed paths |
| Surgery.PlaceRestores | bosk-mongo/src/test/java/io/vena/bosk/drivers/mongo/BsonSurgeonTest.java:179-185 | placing one part restores exactly its own stubbed path |
| Surgery.SortedRecipeRestores | bosk-mongo/src/test/java/io/vena/bosk/drivers/mongo/BsonSurgeonTest.java:169-188 | after sorting by path length, the root part comes first and placing the rest into its state gives the document |
| Surgery.SortedRootFirst | bosk-mongo/src/test/java/io/vena/bosk/drivers/mongo/BsonSurgeonTest.java:169-174 | after sorting by path length, the root part comes first and every later part has a non-empty path |
| Surgery.DescribesPermutation | bosk-mongo/src/main/java/io/vena/bosk/drivers/mongo/BsonSurgeon.java:177 | a permutation of a part list describes the same document |
| Surgery.EmitPart | bosk-mongo/src/test/java/io/vena/bosk/drivers/mongo/BsonSurgeonTest.java:127-132 | carving one entry out keeps the scatter invariant: the document stays stubbed at exactly the emitted paths, and no path is emitted twice |
| Surgery.FinishRecipe | bosk-mongo/src/test/java/io/vena/bosk/drivers/mongo/BsonSurgeonTest.java:108-109 | adding the stubbed document as the root part completes a part list that describes the original and still has no path twice |
| Bson.StubAbove | bosk-mongo/src/test/java/io/vena/bosk/drivers/mongo/BsonSurgeonTest.java:123-137 | stubbing only paths longer than `q` leaves whether `q` holds a sub-document, and that sub-document's keys, as they were: the lookups scatter makes see the original document |
| ReferenceSurgeon.ScatterOneCollection | bosk-mongo/src/test/java/io/vena/bosk/drivers/mongo/BsonSurgeonTest.java:114-141 | keeps the earlier parts, adds only entries of the collection, keeps the scatter invariant with no entry carved twice, carves out every entry of every instance of the collection present in the document, succeeds exactly when every lookup it makes finds a sub-document of the original (`Reachable`), and fails only on a missing document |
| ReferenceSurgeon.ScatterEachId | bosk-mongo/src/test/java/io/vena/bosk/drivers/mongo/BsonSurgeonTest.java:133-139 | with a parameter in the collection: the same, the catalog of ids looked up and each id bound in turn; it succeeds exactly when the catalog is a sub-document and the collection bound to each of its ids is `Reachable` |
| ReferenceSurgeon.ScatterEntries | bosk-mongo/src/test/java/io/vena/bosk/drivers/mongo/BsonSurgeonTest.java:123-132 | succeeds exactly when the container is a sub-document; then one part per entry, holding its value under its path, is added, the container is left with `true` for every key, and the collection is covered; otherwise it fails naming the container |
| ReferenceSurgeon.Scatter | bosk-mongo/src/test/java/io/vena/bosk/drivers/mongo/BsonSurgeonTest.java:99-112 | the parts end with the root part; for disjoint collections they describe the original document, no two share a path, every collection given is covered, and scatter succeeds exactly when every collection is `Reachable` in the document; every part but the root one is an entry of one of the collections given (`CarvedBy`), so nothing else is carved out |
| ReferenceSurgeon.Assemble | bosk-mongo/src/test/java/io/vena/bosk/drivers/mongo/BsonSurgeonTest.java:166-189 | an empty list fails with an index error; a list without a root part fails with "No root recipe"; a result is a document |
| ReferenceSurgeon.Gather | bosk-mongo/src/test/java/io/vena/bosk/drivers/mongo/BsonSurgeonTest.java:166-189 | sorting the parts, checking the root part and placing the others computes `Assemble` |
| ReferenceSurgeon.PlaceEach | bosk-mongo/src/test/java/io/vena/bosk/drivers/mongo/BsonSurgeonTest.java:176-188 | the loop over the other parts places them in turn and stops at the first failure, as `PlaceAll` does |
| ReferenceSurgeon.PlaceOne | bosk-mongo/src/test/java/io/vena/bosk/drivers/mongo/BsonSurgeonTest.java:178-185 | one iteration of the loop computes `Place` |
| ReferenceSurgeon.GatherInvertsScatter | bosk-mongo/src/test/java/io/vena/bosk/drivers/mongo/BsonSurgeonTest.java:79-81 | gathering a part list that describes a document returns it |
| ReferenceSurgeon.GatherIgnoresOrder | bosk-mongo/src/test/java/io/vena/bosk/drivers/mongo/BsonSurgeonTest.java:70-81 | every permutation of such a list gathers to the same document |
| ReferenceSurgeon.ScatterThenGather | bosk-mongo/src/test/java/io/vena/bosk/drivers/mongo/BsonSurgeonTest.java:70-81 | for disjoint collections, scatter succeeds exactly when every collection is `Reachable`; then its parts have distinct paths, gathering them in any order gives back the document, and every collection given is covered by them; when it fails, the failure is a missing document and nothing is gathered |
| FlushLock.Due | bosk-mongo/src/main/java/io/vena/bosk/drivers/mongo/v2/FlushLock.java:71-80 | the released waiters are no more than the queue holds |
| FlushLock.DueSplit | bosk-mongo/src/main/java/io/vena/bosk/drivers/mongo/v2/FlushLock.java:71-80 | the released waiters are a prefix of the queue, none waits for a later revision, and the first one left does |
| FlushLock.DueReleases | bosk-mongo/src/main/java/io/vena/bosk/drivers/mongo/v2/FlushLock.java:66-81 | on a revision-ordered queue, exactly the waiters for the revision or an earlier one are released |
| FlushLock.LaterAfterDue | bosk-mongo/src/main/java/io/vena/bosk/drivers/mongo/v2/FlushLock.java:73-74 | every waiter left after the loop waits for a later revision |
| FlushLock.ReleasesUnique | bosk-mongo/src/main/java/io/vena/bosk/drivers/mongo/v2/FlushLock.java:66-81 | the split of the queue into released and remaining waiters is unique |
| FlushLock.ReleasedInOrder | bosk-mongo/src/main/java/io/vena/bosk/drivers/mongo/v2/FlushLock.java:25-33 | waiters are released in revision order, each before any waiter still queued |
| FlushLock.SortedSuffix | bosk-mongo/src/main/java/io/vena/bosk/drivers/mongo/v2/FlushLock.java:76 | removing waiters from the head keeps the queue in revision order |
| FlushLock.TakeDue | bosk-mongo/src/main/java/io/vena/bosk/drivers/mongo/v2/FlushLock.java:70-80 | the peek-and-remove loop releases exactly the due waiters and leaves the rest of the queue |
| FlushLock.FlushLock.constructor | bosk-mongo/src/main/java/io/vena/bosk/drivers/mongo/v2/FlushLock.java:21-22 | a new lock has seen revision zero and has no waiters |
| FlushLock.FlushLock.AwaitRevision | bosk-mongo/src/main/java/io/vena/bosk/drivers/mongo/v2/FlushLock.java:35-48 | returns at once exactly when the revision has been seen; otherwise adds one waiter to the queue, which stays in revision order |
| FlushLock.FlushLock.StartedRevision | bosk-mongo/src/main/java/io/vena/bosk/drivers/mongo/v2/FlushLock.java:53-61 | a missing revision changes nothing; otherwise it becomes the latest seen, and the queue is untouched |
| FlushLock.FlushLock.FinishedRevision | bosk-mongo/src/main/java/io/vena/bosk/drivers/mongo/v2/FlushLock.java:66-81 | a missing revision changes nothing; otherwise the due waiters are released in queue order, and the queue keeps the rest in order |
| FlushLock.FlushWaitsForItsRevision | bosk-mongo/src/main/java/io/vena/bosk/drivers/mongo/v2/FlushLock.java:35-81 | a flush for a future revision waits through an earlier finished revision and is released by a later one; once that revision is seen, a new flush returns at once |
| Drivers.EventIdentifiesCall | lib-testing/src/main/java/io/vena/bosk/RecordingDriver.java:38-66 | a recorded event names its call and arguments exactly: two calls recorded alike are the same call |
| Recording.RecordingDriver.constructor | lib-testing/src/main/java/io/vena/bosk/RecordingDriver.java:12-17 | a new recording driver has an empty log and the given root |
| Recording.RecordingDriver.InitialRoot | lib-testing/src/main/java/io/vena/bosk/RecordingDriver.java:33-36 | `initialRoot` returns the root given at construction |
| Recording.RecordingDriver.Submit | lib-testing/src/main/java/io/vena/bosk/RecordingDriver.java:38-66 | each submit and `flush` appends exactly its own event to the log |
| Recording.RecordingMongoDriver.constructor | bosk-mongo/src/test/java/io/vena/bosk/drivers/mongo/RecordingMongoDriver.java:7-9 | a new recording Mongo driver has an empty log and the given root |
| Recording.RecordingMongoDriver.Submit | bosk-mongo/src/test/java/io/vena/bosk/drivers/mongo/RecordingMongoDriver.java:11-19 | every call, `refurbish` and `close` included, appends exactly its own event to the shared log |
| Modal.Unreachable | bosk-mongo/src/main/java/io/vena/bosk/drivers/mongo/modal/DisconnectedModeDriver.java:23-67 | a disconnected driver fails `flush` with a flush failure and every other refused call with a disconnected failure, the message naming the call |
| Modal.GetFuture | bosk-mongo/src/main/java/io/vena/bosk/drivers/mongo/modal/ReconnectingModeDriver.java:64-75 | the future yields its driver exactly when the reconnection resolved; otherwise a reconnection failure |
| Modal.Route | bosk-mongo/src/main/java/io/vena/bosk/drivers/mongo/modal/ReconnectingModeDriver.java:19-62 | a call is delivered only to a live driver the current driver leads to, and `close` is never refused |
| Modal.RootOf | bosk-mongo/src/main/java/io/vena/bosk/drivers/mongo/modal/ReconnectingModeDriver.java:19-22 | `initialRoot` can only fail with a reconnection failure |
| Modal.FlushFailsAsFlushFailure | bosk-mongo/src/main/java/io/vena/bosk/drivers/mongo/modal/DisconnectedModeDriver.java:48-53 | a failing `flush` never surfaces a bare disconnected failure, however the modes are nested |
| Modal.RootFollowsRoute | bosk-mongo/src/main/java/io/vena/bosk/drivers/mongo/modal/ConnectedModeDriver.java:16-19 | `initialRoot` goes where every other call goes: it answers with the root of the live driver a call reaches, and fails exactly when a call fails to reconnect, with the same failure |
| Modal.ModalDriverFacade.constructor | bosk-mongo/src/main/java/io/vena/bosk/drivers/mongo/modal/ModalDriverFacade.java:18-20 | the facade starts with the given driver as current |
| Modal.ModalDriverFacade.ChangeImplementation | bosk-mongo/src/main/java/io/vena/bosk/drivers/mongo/modal/ModalDriverFacade.java:36-41 | the current driver is replaced exactly when it is `from`, and the result says whether it was |
| Modal.ModalDriverFacade.InitialRoot | bosk-mongo/src/main/java/io/vena/bosk/drivers/mongo/modal/ModalDriverFacade.java:43-46 | `initialRoot` answers as the current driver does |
| Modal.ModalDriverFacade.Submit | bosk-mongo/src/main/java/io/vena/bosk/drivers/mongo/modal/ModalDriverFacade.java:48-86 | each call goes to the current driver: the live driver it reaches records it, no other log changes, and a refusal is passed to the caller |
| Modal.Build | bosk-mongo/src/main/java/io/vena/bosk/drivers/mongo/modal/ModalDriverFacade.java:22-27 | the factory wraps a Mongo downstream driver in a new facade and fails with a class-cast failure for any other driver |
| Modal.AllCallsRouted | bosk-mongo/src/test/java/io/vena/bosk/drivers/mongo/modal/ModalDriverFacadeTest.java:109-144 | calls before the swap are recorded by the first driver only and calls after it by the second only, each exactly once and in order |
| Modal.ChangeImplementationWorks | bosk-mongo/src/test/java/io/vena/bosk/drivers/mongo/modal/ModalDriverFacadeTest.java:76-90 | swapping from the wrong driver fails, from the right one succeeds, and the same holds back again |
| Modal.InitialRootRouted | bosk-mongo/src/test/java/io/vena/bosk/drivers/mongo/modal/ModalDriverFacadeTest.java:93-106 | `initialRoot` follows the current driver across swaps |
| MongoDriver.Decimal | bosk-mongo/src/main/java/io/vena/bosk/drivers/mongo/MongoDriver.java:64 | the count in the message is written as a non-empty string of decimal digits |
| MongoDriver.DecimalRoundTrip | bosk-mongo/src/main/java/io/vena/bosk/drivers/mongo/MongoDriver.java:64 | the count can be read back from its digits |
| MongoDriver.Factory | bosk-mongo/src/main/java/io/vena/bosk/drivers/mongo/MongoDriver.java:58-65 | no separate collections selects the single-document driver, one selects the multi-document driver, and more are refused with a message naming the count |
| MongoDriver.FactoryMessagesDiffer | bosk-mongo/src/main/java/io/vena/bosk/drivers/mongo/MongoDriver.java:63-64 | different refused counts give different messages |

## Left out

- BSON encoding and decoding are not modelled. This covers the `Formatter`, codecs, the JSON re-parse the unit test puts parts through, and `Document.parse`. Documents are values, compared as BsonDocument equality compares them: by their entries, not their order.
- Field-name escaping is taken as the identity. This affects `dottedFieldNameSegments` and `undottedFieldNameSegment`. The round trip therefore assumes field names that need no escaping: non-empty and free of "\|" (`ValidKeys`, `ValidPath`).
- Containers whose BSON form has extra fields of their own, such as `SideTable`, are not modelled. A collection's entries sit directly under its path.
- The order in which a BsonDocument's entries are visited is not modelled. `scatterOneCollection` takes the entries in an unspecified order, and every property holds for any order.
- `entryRef`'s `InvalidTypeException` is left out. The same goes for the reference surgeon's `NotYetImplementedException`. Only user-defined collection types raise them, and those are not modelled.
- BsonSurgeon.ScatterThenGather: the round trip is proved only when three conditions hold. The collections are disjoint and none is the root. Field names are valid. Every part path from the root has at least two segments. The source states none of these conditions, but fails or loses data without them.
- ReferenceSurgeon.ScatterThenGather: the round trip is proved only for disjoint collections.
- BsonSurgeon.Scatter: describing the document is promised only for a well-formed surgeon, that is, one built by `NewSurgeon` from disjoint, non-root collections.
- Updates in place through aliased sub-documents are modelled on whole document values (`PutAt`). Sorting the parts list in place is modelled as a sort of a sequence.
- FlushLock.FlushLock.AwaitRevision: the blocking `tryAcquire` and its timeout are not modelled, and neither is the `FlushFailureException` for a timeout. The call reports whether it returned at once or enqueued a waiter. Semaphores are tickets, and a release is the waiter appearing in `FinishedRevision`'s result.
- FlushLock.FlushLock.AwaitRevision: the priority queue's order among waiters with equal revisions is unspecified. The model promises the new queue only as a multiset plus revision order.
- Threads, `volatile` and the atomicity of `AtomicReference.compareAndSet` are not modelled. Each operation is one atomic step.
- Java `long` revisions are unbounded integers. They are only compared, never computed with.
- `MainDriver`, `SingleDocumentMongoDriver` and `MultiDocumentMongoDriver` are not part of this model. A live driver is a `RecordingMongoDriver`, the double the facade's tests use.
- The `downstream` of a disconnected driver is represented only by the root its `initialRoot` returns.
- Modal.ModalDriverFacade.Submit: one method with a call argument stands for the eight forwarding methods. Mode drivers are values, so the compare-and-set in `ChangeImplementation` compares them by value where Java compares by identity. The facade's tests compare distinct drivers, so this only matters for two separately built but equal mode drivers.
- MongoDriver.Factory: it returns the kind of driver the factory's lambda would build, not the lambda. Client settings and the BSON plugin are not modelled.
- Logging is not modelled.

## Findings

| source | as written | input that shows it | evidently intended | confidence | as-written member | corrected member |
|---|---|---|---|---|---|---|
| bosk-mongo/src/main/java/io/vena/bosk/drivers/mongo/BsonSurgeon.java:120-121 | the catalog is looked up at `segmentsFromDoc.subList(1, fpi + 1)`, where `fpi` counts from the root but the segments count from the node | graft point `entities/-entity-/children`, node `entities`, document `{e1: {children: {c1: true}}}`: the lookup asks for `-entity-`, which is missing, so scatter throws instead of carving out the entry `e1/children/c1` | look the catalog up from the node down to the first parameter, `subList(1, fpi - depth + 1)` | not executed | BsonSurgeon.CatalogAsWrittenMisses | BsonSurgeon.ScatterOneCollection |
| bosk-mongo/src/main/java/io/vena/bosk/drivers/mongo/BsonSurgeon.java:126 | each id is bound with `graftPoint.entryRef.boundTo(id)`, into the first parameter of the unbound graft point, which may lie above the node | graft point `entities/-entity-/children/-child-/grandchildren`, node `entities/e1`, id `c1`: the id fills `-entity-`, the rebound graft point no longer lies under the node, and the entry `children/c1/grandchildren/g1` would be skipped; as written this input never gets there, because the catalog lookup of the first row asks for `-child-` and throws first, so this row shows only once the first is corrected | bind the id into the first parameter of `entryRef`, the graft point already bound to the node's path | not executed | BsonSurgeon.RebindAsWrittenSkips | BsonSurgeon.ScatterOneCollection |
