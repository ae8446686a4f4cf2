# GeoWave analytics core: centroid association, the test centroid store, and the property bag

This project models three parts of the GeoWave analytics module in Dafny and
proves properties of the models.

- **Nearest-centroid association** (`CentroidAssociationFn`, module
  `CentroidAssociation` in `association.dfy`). Each point is paired with the
  first target, in iteration order, at the least distance: a later target
  replaces the choice only when it is strictly closer. That pairing is
  notified once, and its distance is returned. For a point set, the distances
  are summed.
  - Distances are a finite real or positive infinity (`Dist`).
  - The notification callback becomes an out-parameter: the list of pairings
    it would have received (`notified`).
  - The loops are proved against the specification function `Nearest`
    (least distance, first target at that distance) and `TotalCost`.
- **The in-memory centroid repository of the k-means iterations test**
  (module `CentroidStore` in `centroid_store.dfy`). This is the anonymous
  `CentroidManager` the test runner builds over two shared maps (current
  centroids per group, deleted centroids per group), together with the
  runner's seeding job `runJob` and its iteration counter. The class
  `RunnerForTest` holds the two maps and the counter.
  - The methods that change state (`Delete`, `SeedOneGroup`, `RunJob`) are
    proved against functions on a `Snapshot` of that state (`AfterDelete`,
    `SeedGroup`, `AfterRunJob`). The lookups state their results directly in
    terms of the two maps.
  - `TestRunPostState` shows that seeding twice with fresh ids and then
    deleting the first generation's ids reaches exactly the state `testRun`
    asserts.
- **The property bag** (`PropertyManagement`, module `Tools` in
  `property_management.dfy`). This is a table from string keys to values,
  where each key is derived from a parameter enum as `class-constant`,
  lower-cased, with underscores in the constant name turned into dashes.
  - Its operations: single and bulk stores, store-if-absent, copy, the
    getters with their defaulting rules and the JDK conversions they rely on
    (`Boolean.valueOf`, `Integer.parseInt`, `Properties.getProperty`), the
    argument-list export, import from a parsed command line, and option
    removal.

Three behaviours of the test repository are easy to miss; the model follows
the code:

- The test repository's `clear()` does nothing.
- `getAllCentroidGroups` returns every key of the group map, including
  groups whose list has become empty.
- The test repository's `createNextCentroid` builds an item but does not
  store it. It is therefore not an operation on the repository's state.

`items.dfy` (module `Items`) holds the values shared by the modules:
`Option` (a value or `null`), `Result` and `Outcome` (a value or the
exception thrown), and `ItemWrapper` (an analytic item with its id, group,
batch and iteration).

## Model

| member | source | states |
|---|---|---|
| CentroidAssociation.Nearest | geowave-analytics/src/main/java/mil/nga/giat/geowave/analytics/kmeans/CentroidAssociationFn.java:29-41 | The pairing keeps the given point. With no targets it has no centroid and an infinite distance. |
| CentroidAssociation.NearestIsMinimum | geowave-analytics/src/main/java/mil/nga/giat/geowave/analytics/kmeans/CentroidAssociationFn.java:33-41 | With at least one target, no target measures strictly less than the reported distance, and some target measures exactly that. |
| CentroidAssociation.NearestIsFirstMinimum | geowave-analytics/src/main/java/mil/nga/giat/geowave/analytics/kmeans/CentroidAssociationFn.java:37-40 | A chosen centroid is a target at the reported distance, and every target before it is strictly farther. The strict `<` keeps the first of equal candidates. |
| CentroidAssociation.NearestNoneIffAllInfinite | geowave-analytics/src/main/java/mil/nga/giat/geowave/analytics/kmeans/CentroidAssociationFn.java:29-41 | The pairing has no centroid exactly when every target measures infinity. A chosen centroid is at a finite distance. |
| CentroidAssociation.NearestSnoc | geowave-analytics/src/main/java/mil/nga/giat/geowave/analytics/kmeans/CentroidAssociationFn.java:33-41 | Extending the targets by one replaces the pairing's centroid and distance exactly when the new target is strictly closer. This is one step of the scan. |
| CentroidAssociation.TotalCostAppend | geowave-analytics/src/main/java/mil/nga/giat/geowave/analytics/kmeans/CentroidAssociationFn.java:50-57 | The cost of a concatenation of point sets is the sum of their costs. |
| CentroidAssociation.TotalCostPermutation | geowave-analytics/src/main/java/mil/nga/giat/geowave/analytics/kmeans/CentroidAssociationFn.java:46-58 | The summed distance does not depend on the iteration order of the point set: permuted point sets have equal totals. |
| CentroidAssociation.CentroidAssociationFn.constructor | geowave-analytics/src/main/java/mil/nga/giat/geowave/analytics/kmeans/CentroidAssociationFn.java:12-23 | Java's implicit constructor followed by setDistanceFunction: the new object holds the given distance function. |
| CentroidAssociation.CentroidAssociationFn.SetDistanceFunction | geowave-analytics/src/main/java/mil/nga/giat/geowave/analytics/kmeans/CentroidAssociationFn.java:20-23 | The held distance function becomes the given one. |
| CentroidAssociation.CentroidAssociationFn.Compute | geowave-analytics/src/main/java/mil/nga/giat/geowave/analytics/kmeans/CentroidAssociationFn.java:25-44 | Exactly one notification, carrying the nearest pairing (least distance, first such target). The returned value is its distance. |
| CentroidAssociation.CentroidAssociationFn.ComputeSet | geowave-analytics/src/main/java/mil/nga/giat/geowave/analytics/kmeans/CentroidAssociationFn.java:46-58 | Notifies one pairing per point, in point order, each the nearest pairing for that point. Returns the sum of their distances. An empty point set returns 0 with no notification. |
| CentroidStore.Initial | geowave-analytics/src/test/java/mil/nga/giat/geowave/analytics/kmeans/runners/KMeansIterationsJobRunnerTest.java:158-160 | The starting state has no groups, every group has a deleted list, and the counter is 1. |
| CentroidStore.FiltersMembership | geowave-analytics/src/test/java/mil/nga/giat/geowave/analytics/kmeans/runners/KMeansIterationsJobRunnerTest.java:231-240 | A centroid is kept exactly when its id is not named, and moved exactly when it is. |
| CentroidStore.FiltersPartition | geowave-analytics/src/test/java/mil/nga/giat/geowave/analytics/kmeans/runners/KMeansIterationsJobRunnerTest.java:231-240 | Deletion loses no centroid: kept plus moved is the original list, as a multiset. |
| CentroidStore.WithoutIdempotent | geowave-analytics/src/test/java/mil/nga/giat/geowave/analytics/kmeans/runners/KMeansIterationsJobRunnerTest.java:231-240 | After one filtering pass by the same ids, a second pass keeps everything and moves nothing. |
| CentroidStore.AfterDelete | geowave-analytics/src/test/java/mil/nga/giat/geowave/analytics/kmeans/runners/KMeansIterationsJobRunnerTest.java:227-243 | Deletion keeps the two maps over the same groups and does not touch the counter. |
| CentroidStore.DeleteIdempotent | geowave-analytics/src/test/java/mil/nga/giat/geowave/analytics/kmeans/runners/KMeansIterationsJobRunnerTest.java:227-243 | Deleting the same ids twice leaves the state the first deletion left. |
| CentroidStore.DeleteAbsentIds | geowave-analytics/src/test/java/mil/nga/giat/geowave/analytics/kmeans/runners/KMeansIterationsJobRunnerTest.java:227-243 | Deleting ids that no current centroid carries changes nothing. |
| CentroidStore.NewCentroids | geowave-analytics/src/test/java/mil/nga/giat/geowave/analytics/kmeans/runners/KMeansIterationsJobRunnerTest.java:339-355 | Each seeded group gets three centroids carrying the group id, the current iteration and the next fresh ids in order. |
| CentroidStore.AfterRunJobShape | geowave-analytics/src/test/java/mil/nga/giat/geowave/analytics/kmeans/runners/KMeansIterationsJobRunnerTest.java:324-360 | After one seeding, g1 and g2 exist and each holds its previous list followed by three new centroids. Their deleted lists are kept or created empty, other groups are untouched, and the counter advances by one. |
| CentroidStore.TestRunPostState | geowave-analytics/src/test/java/mil/nga/giat/geowave/analytics/kmeans/runners/KMeansIterationsJobRunnerTest.java:109-152 | Two seedings with disjoint fresh ids, then deletion of the first seeding's ids, reach the asserted state. Each group holds three centroids of iteration 2, none sharing an id with the group's deleted centroids. Each deleted list holds three centroids of iteration 1. |
| CentroidStore.RunnerForTest.constructor | geowave-analytics/src/test/java/mil/nga/giat/geowave/analytics/kmeans/runners/KMeansIterationsJobRunnerTest.java:158-160 | Empty maps and counter 1. |
| CentroidStore.RunnerForTest.FilterGroup | geowave-analytics/src/test/java/mil/nga/giat/geowave/analytics/kmeans/runners/KMeansIterationsJobRunnerTest.java:232-240 | The iterator loop over one list keeps the centroids whose id is not named. It appends the named ones, in order, to the deleted list. |
| CentroidStore.RunnerForTest.Delete | geowave-analytics/src/test/java/mil/nga/giat/geowave/analytics/kmeans/runners/KMeansIterationsJobRunnerTest.java:227-243 | Whatever order the map is visited in, the new state is the deletion of the ids from every group. The two maps keep the same keys. |
| CentroidStore.RunnerForTest.GetAllCentroidGroups | geowave-analytics/src/test/java/mil/nga/giat/geowave/analytics/kmeans/runners/KMeansIterationsJobRunnerTest.java:246-253 | Lists each group key exactly once, and nothing else. |
| CentroidStore.RunnerForTest.GetCentroidsForGroup | geowave-analytics/src/test/java/mil/nga/giat/geowave/analytics/kmeans/runners/KMeansIterationsJobRunnerTest.java:255-260 | Returns the group's list, or null exactly when the group is unknown. |
| CentroidStore.RunnerForTest.GetCentroidsForBatchGroup | geowave-analytics/src/test/java/mil/nga/giat/geowave/analytics/kmeans/runners/KMeansIterationsJobRunnerTest.java:262-268 | Ignores the batch: the same answer as the one-argument lookup. |
| CentroidStore.RunnerForTest.ProcessForAllGroups | geowave-analytics/src/test/java/mil/nga/giat/geowave/analytics/kmeans/runners/KMeansIterationsJobRunnerTest.java:270-283 | Visits distinct groups. On the first negative status it stops and returns it, with all earlier statuses non-negative. Otherwise it visits every group and returns 0. |
| CentroidStore.RunnerForTest.GetCentroidById | geowave-analytics/src/test/java/mil/nga/giat/geowave/analytics/kmeans/runners/KMeansIterationsJobRunnerTest.java:304-319 | Returns the first centroid in the group's list with the id. If none has it: MatchingCentroidNotFound. If the group has no list: NullPointer. |
| CentroidStore.RunnerForTest.SeedOneGroup | geowave-analytics/src/test/java/mil/nga/giat/geowave/analytics/kmeans/runners/KMeansIterationsJobRunnerTest.java:330-356 | One pass of the group loop: creates the lists on first sight and appends the group's three centroids. |
| CentroidStore.RunnerForTest.RunJob | geowave-analytics/src/test/java/mil/nga/giat/geowave/analytics/kmeans/runners/KMeansIterationsJobRunnerTest.java:324-360 | Seeds g1 then g2 from the seed points and fresh ids, advances the counter, returns 0, and keeps the maps' keys equal. |
| Tools.ToPropertyName | geowave-analytics/src/main/java/mil/nga/giat/geowave/analytics/tools/PropertyManagement.java:58-63 | Key, character by character: the lower-cased class name, a dash, then the constant name lower-cased with underscores turned into dashes. |
| Tools.ToPropertyNameDistinguishes | geowave-analytics/src/main/java/mil/nga/giat/geowave/analytics/tools/PropertyManagement.java:58-63 | Two parameters whose class names have no dash and whose constant names are in upper-case style get equal keys only if the constant names are equal and the class names agree up to case. |
| Tools.ParseIntRejectsNonDigit | geowave-analytics/src/main/java/mil/nga/giat/geowave/analytics/tools/PropertyManagement.java:221-230 | Text with a character that is not a decimal digit, after the optional leading sign, does not parse. getPropertyAsInt then reports NumberFormat. |
| Tools.ParseIntDecimal | geowave-analytics/src/main/java/mil/nga/giat/geowave/analytics/tools/PropertyManagement.java:221-230 | Parsing the decimal text of any 32-bit integer gives the integer back. |
| Tools.StringProperty | geowave-analytics/src/main/java/mil/nga/giat/geowave/analytics/tools/PropertyManagement.java:167-175 | `Properties.getProperty` sees a value exactly when one is stored under the key and it is a String. |
| Tools.PutAllLaterWins | geowave-analytics/src/main/java/mil/nga/giat/geowave/analytics/tools/PropertyManagement.java:113-127 | After a sequence of puts, a key holds the value of the last entry for it. |
| Tools.PutAllUntouched | geowave-analytics/src/main/java/mil/nga/giat/geowave/analytics/tools/PropertyManagement.java:113-127 | A sequence of puts leaves keys it does not name as they were. |
| Tools.FirstUnstorable | geowave-analytics/src/main/java/mil/nga/giat/geowave/analytics/tools/PropertyManagement.java:425-436 | The position of the first option that has no long name, or takes an argument but has no value; every option before it can be stored. |
| Tools.NewOption | geowave-analytics/src/main/java/mil/nga/giat/geowave/analytics/tools/PropertyManagement.java:46-56 | The option has a long name, and it is the parameter's key. It keeps the short name and the argument flag and has no value yet. |
| Tools.NewOptionRoundTrip | geowave-analytics/src/main/java/mil/nga/giat/geowave/analytics/tools/PropertyManagement.java:46-56 | An option built by newOption and imported from the command line reads back through its parameter. An argument's value comes back through getProperty; a flag reads as `true` through getPropertyAsBoolean. |
| Tools.PropertyManagement.constructor | geowave-analytics/src/main/java/mil/nga/giat/geowave/analytics/tools/PropertyManagement.java:65 | The table starts empty. |
| Tools.PropertyManagement.Get | geowave-analytics/src/main/java/mil/nga/giat/geowave/analytics/tools/PropertyManagement.java:75-78 | Returns the value of any type under the key, or null exactly when the key is absent. |
| Tools.PropertyManagement.Store | geowave-analytics/src/main/java/mil/nga/giat/geowave/analytics/tools/PropertyManagement.java:80-86 | The key now holds the value and no other key changes. |
| Tools.PropertyManagement.StoreIfEmpty | geowave-analytics/src/main/java/mil/nga/giat/geowave/analytics/tools/PropertyManagement.java:88-101 | If the key is absent, it stores and returns the new value. If present, it changes nothing and returns the present value. Either way the key afterwards holds the returned value. |
| Tools.PropertyManagement.Copy | geowave-analytics/src/main/java/mil/nga/giat/geowave/analytics/tools/PropertyManagement.java:103-111 | If the source key is present, the target key gets its value and nothing else changes. Otherwise nothing changes. |
| Tools.PropertyManagement.StoreAll | geowave-analytics/src/main/java/mil/nga/giat/geowave/analytics/tools/PropertyManagement.java:113-127 | Unequal lengths give IllegalArgument and store nothing. Otherwise name i's key is put with value i, in index order, so a later duplicate key wins. |
| Tools.PropertyManagement.HasProperty | geowave-analytics/src/main/java/mil/nga/giat/geowave/analytics/tools/PropertyManagement.java:167-170 | True exactly when the key holds a String; a value of another type does not count. |
| Tools.PropertyManagement.GetProperty | geowave-analytics/src/main/java/mil/nga/giat/geowave/analytics/tools/PropertyManagement.java:172-175 | Returns a String exactly when hasProperty holds, and it is the stored String. |
| Tools.PropertyManagement.GetPropertyOrDefault | geowave-analytics/src/main/java/mil/nga/giat/geowave/analytics/tools/PropertyManagement.java:202-208 | Returns the stored String, or the default when the key is absent or holds a non-String. |
| Tools.PropertyManagement.GetPropertyAsBoolean | geowave-analytics/src/main/java/mil/nga/giat/geowave/analytics/tools/PropertyManagement.java:210-219 | Returns the default only for an absent key. Otherwise true exactly when the value's text is "true" in any letter case. |
| Tools.PropertyManagement.GetPropertyAsInt | geowave-analytics/src/main/java/mil/nga/giat/geowave/analytics/tools/PropertyManagement.java:221-230 | Returns the default only for an absent key. Otherwise the value's text parsed as a 32-bit integer, or NumberFormat naming the text when it does not parse. |
| Tools.PropertyManagement.StoredValueReadsBack | geowave-analytics/src/main/java/mil/nga/giat/geowave/analytics/tools/PropertyManagement.java:202-230 | A stored Boolean reads back as itself through getPropertyAsBoolean, whatever the default. So does an Integer through getPropertyAsInt, and a String through getProperty with or without a default. |
| Tools.PropertyManagement.ToArguments | geowave-analytics/src/main/java/mil/nga/giat/geowave/analytics/tools/PropertyManagement.java:394-405 | Returns a new array with one entry per name: the String under its key, or "". |
| Tools.PropertyManagement.ToGeoWaveRunnerArguments | geowave-analytics/src/main/java/mil/nga/giat/geowave/analytics/tools/PropertyManagement.java:410-420 | Returns the five connection parameters' Strings (or ""), in the fixed order. |
| Tools.PropertyManagement.BuildFromOptions | geowave-analytics/src/main/java/mil/nga/giat/geowave/analytics/tools/PropertyManagement.java:422-437 | Options are put in order up to the first one that has no long name, or takes an argument but has none. That option fails with NullPointer, and the options before it stay stored. Each stored option is put under its long name: `true` for a flag, its value for an option with an argument. Pass exactly when every option was stored. |
| Tools.RemoveOption | geowave-analytics/src/main/java/mil/nga/giat/geowave/analytics/tools/PropertyManagement.java:439-449 | Either nothing changes, or exactly one option whose long name is the parameter's key is removed. NullPointer is reported only when some option has no long name, and then nothing is removed. With no matching option the set is unchanged, and the outcome is Pass exactly when every option has a long name. When every option has a long name and one matches, one matching option is removed with Pass. Whenever the outcome is Pass and a matching option is present, exactly one matching option has been removed. |

## Left out

- Floating point: distances are exact reals or positive infinity. NaN, negative infinity and rounding in the summed distances are not modelled.
- CentroidAssociation.CentroidAssociationFn.Compute: the pairing is a value, not a shared mutable `CentroidPairing` object. The notification is recorded as an out-parameter list instead of calling out to a listener.
- `getDistanceFunction` is a plain read of the field. The no-argument constructor, which leaves the distance function null, is not modelled; the Dafny constructor takes the function.
- The iterations runner's own `run` loop (`KMeansIterationsJobRunner`) is not part of this model. `TestRunPostState` instead shows that one further seeding followed by deleting the first generation reaches the asserted state. That is the effect the test relies on `run` to produce.
- CentroidStore.RunnerForTest.RunJob: `UUID.randomUUID()` is replaced by a parameter holding the ids. Their freshness is a precondition only where it matters (`TestRunPostState`).
- The order of `HashMap` iteration is unspecified. The loops pick any remaining key, so every contract holds for every visit order.
- The feature attributes other than name and point (weight, zoom, count, the extra dimensions) and the SimpleFeature type are not modelled. A centroid is an item wrapper around a name and a coordinate.
- The test repository's `clear`, `createNextCentroid`, `getCentroid` (returns null), `getDataTypeId` and `getIndexId` do not read or change the repository state and are not modelled.
- `processForAllGroups` takes the per-group processing function as a pure function of the group's id and list.
- The test's `testArgs` and the integration suite are not modelled.
- The two-argument `PropertyManagement` constructor is not modelled separately: it is `store(names, values)` applied to an empty table.
- Null values and keys are not modelled in the property table, since `Hashtable` rejects both. Two nulls on the command-line path are modelled, each giving the NullPointer outcome. In `buildFromOptions` that is an option's missing long name or its missing value. In `removeOption` it is only a missing long name.
- Java's `Boolean` and `String` default arguments can be null, and then `getPropertyAsBoolean` and `getProperty(p, default)` return null for an absent key. The model types these defaults `bool` and `string`, so a null default is not modelled.
- Tools.NewOption: the commons-cli `Option` constructor rejects a short name that is not made of Java identifier characters with an IllegalArgumentException. That check belongs to commons-cli, which is not part of this model, so `NewOption` always builds the option.
- CentroidStore.RunnerForTest.GetCentroidsForGroup: Java returns the live `ArrayList` held in the group map, not a copy. A caller that keeps it sees later appends by `runJob` and removals by `delete`, and can change the repository through it. The model returns the list's value at the time of the call, so this aliasing is not captured. The same holds for CentroidStore.RunnerForTest.GetCentroidsForBatchGroup.
- CentroidStore.RunnerForTest: in Java the two maps are `static`, shared by every runner instance and emptied only when the class is loaded. The iteration counter belongs to each instance. The model gives each `RunnerForTest` its own maps, and its constructor starts them empty. State shared between several runner instances is not captured.
- Tools.ToPropertyName: lower-casing is ASCII only; Java's locale-dependent full Unicode case mapping is not modelled.
- Tools.ParseInt: only ASCII digits are accepted, whereas `Character.digit` also accepts other Unicode decimal digits.
- The reflective and conversion getters (`getClassInstance`, `getPropertyAsClass`, `getInstance`, `getPropertyAsDouble`, `getPropertyAsRange`, `getPropertyAsPath`, `getPropertyAsBytes`, `getPropertyAsQuery`) and the store `storeAsBytes` are not modelled. They depend on class loading, floating point, Hadoop `Path`, WKT or byte-array conversions.
- `getInt` and `getString` are not modelled separately. They are `GetPropertyAsInt` and `GetPropertyOrDefault` behind a cast to `ParameterEnum`. `getDouble` and `getBytes` are not modelled because they depend on floating point and byte-array conversion.
- Logging and `synchronized` are not modelled: every operation is taken as atomic on one table.
