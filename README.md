# health-connect-exercise: the merge and conflict engine, in Dafny

This project models the core of an Android app that shows exercise sessions from two
places. One is a local Room table of logs the user types in (source `MANUAL`). The other
is Health Connect (source `HEALTH_CONNECT`). The model covers:

- **`ExerciseRepositoryImpl`**, the merge and conflict engine.
  - `getMergedLogs` lists the manual logs, then the Health Connect logs that have not
    been suppressed.
  - `detectConflicts` reports every pair of positions `i < j` whose trimmed types match
    ignoring case, whose intervals overlap, and at least one of which is `MANUAL`.
  - The engine keeps two memory sets for the life of the repository: the suppressed
    Health Connect ids, and the resolved id pairs.
  - `resolveConflict(keep, drop)` runs a do-while loop. Each pass deletes or suppresses
    every other record of `keep`'s type that overlaps `keep`, then re-reads both sources.
    The loop stops after a pass that found nothing.
- **`ExerciseViewModel`**: the screen state (`UiState`), `load`, `addManual`,
  `resolveConflict`, `keepAndRemoveOther`, and the permission-rationale flag.
- **`ExerciseTypeMapper`**: the 58-entry table between Health Connect exercise codes and
  display names, its reverse map, and the sorted list of names.
- **`ExerciseEntity`**: the stored row and its conversion to and from `ExerciseLog`.

Modules:

| module | file | contents |
|---|---|---|
| `Results` | `results.dfy` | Option and Result |
| `Domain` | `exercise_log.dfy` | `ExerciseLog` and `Source` |
| `Entity` | `exercise_entity.dfy` | the row codec |
| `Store` | `store.dfy` | the DAO as a class over a `seq` of rows |
| `Text` | `text.dfy` | `trim`, `lowercase` and the type key |
| `Lists` | `lists.dfy` | `filter` |
| `Sorting` | `sorting.dfy` | the two sorts |
| `Conflicts` | `conflicts.dfy` | `detectConflicts` as a loop proved against a recursive definition |
| `TypeMapper` | `type_mapper.dfy` | the code and name table |
| `Repository` | `repository.dfy` | the engine as a class whose methods update the store and the two sets |
| `ViewModel` | `view_model.dfy` | the view model as a class over `UiState` |

Inputs to the model:

- The permission check is a Boolean input.
- The Health Connect reply is an input: either a sequence of `HEALTH_CONNECT` records
  (no calories, not flagged) or one of three exception kinds. It stays the same for the
  length of one call.
- The fresh UUID is an input.

Kotlin `Long` times become `int`. The engine only compares them and never does arithmetic
on them, so the model needs no overflow handling.

Three facts about the code shape the model:

- `resolveConflict` does no permission check, and any exception makes it return `false`
  (`ExerciseRepoInterfaceImpl.kt:104`).
- `getMergedLogs` catches only `RemoteException` and `SecurityException`
  (`ExerciseRepoInterfaceImpl.kt:50-53`). Any other exception escapes it (`HealthPart`,
  `MergedViewSpec`).
- Removal dispatches on the record's `source` tag (`ExerciseRepoInterfaceImpl.kt:89-92`).
  The repository model instead dispatches on where a record was read: records read from
  the store are deleted and records read from Health Connect are suppressed. The two
  differ for a stored row tagged `HEALTH_CONNECT`, where the tag dispatch never ends; see
  Findings. The as-written pass is kept as `TagDispatchPass`.

## Model

| member | source | states |
|---|---|---|
| Domain.NewLog | app/src/main/java/com/example/healthconnectexercise/domain/model/ExerciseLog.kt:3-11 | the `ExerciseLog` constructor with `conflicted` left at its default, false; `LogRoundTrip` states that a record read back through it is unflagged |
| Entity.SourceName | app/src/main/java/com/example/healthconnectexercise/data/local/ExerciseEntity.kt:33 | `Source.name`, the text stored for each constant; `SourceValueOf` states that `valueOf` inverts it and fails on every other text |
| Entity.SourceValueOf | app/src/main/java/com/example/healthconnectexercise/data/local/ExerciseEntity.kt:23 | `Source.valueOf` succeeds with the constant whose name is the text, and fails exactly when no constant has that name |
| Entity.ToDomain | app/src/main/java/com/example/healthconnectexercise/data/local/ExerciseEntity.kt:17-24 | converting a row fails exactly when its stored source is not the name of a `Source` value |
| Entity.ToEntity | app/src/main/java/com/example/healthconnectexercise/data/local/ExerciseEntity.kt:27-34 | `toEntity()`; `LogRoundTrip` states that reading its row back gives the record with `conflicted` reset, and `EntityRoundTrip` that every row that converts is what it writes for the converted record |
| Entity.LogRoundTrip | app/src/main/java/com/example/healthconnectexercise/data/local/ExerciseEntity.kt:17-34 | storing a log and reading it back gives the log with `conflicted` reset to false |
| Entity.EntityRoundTrip | app/src/main/java/com/example/healthconnectexercise/data/local/ExerciseEntity.kt:17-34 | a row that converts is exactly what storing its log writes; the id is kept and the flag is false |
| Store.UniqueIdsSame | app/src/main/java/com/example/healthconnectexercise/data/local/ExerciseEntity.kt:10 | in a table with distinct primary keys, a key names one row |
| Store.WithoutIdsMembers | app/src/main/java/com/example/healthconnectexercise/data/local/ExerciseDao.kt:14-15 | a row survives deletion by key exactly when its id is not one of the deleted keys |
| Store.WithoutIdsTwice | app/src/main/java/com/example/healthconnectexercise/data/local/ExerciseDao.kt:14-15 | deleting one batch of keys and then another deletes their union |
| Store.WithoutNoIds | app/src/main/java/com/example/healthconnectexercise/data/local/ExerciseDao.kt:14-15 | deleting no keys leaves the table as it was |
| Store.WithoutIdsUnique | app/src/main/java/com/example/healthconnectexercise/data/local/ExerciseDao.kt:14-15 | deleting rows keeps the primary keys distinct |
| Store.ExerciseDao.constructor | app/src/main/java/com/example/healthconnectexercise/data/local/ExerciseDao.kt:5-16 | a new table is empty and has distinct keys |
| Store.ExerciseDao.GetAll | app/src/main/java/com/example/healthconnectexercise/data/local/ExerciseDao.kt:8-9 | the rows come back ordered by `start`, latest first, and are a permutation of the table |
| Store.ExerciseDao.Insert | app/src/main/java/com/example/healthconnectexercise/data/local/ExerciseDao.kt:11-12 | an insert replaces any row with the same key, keys stay distinct, and nothing else changes |
| Store.ExerciseDao.Delete | app/src/main/java/com/example/healthconnectexercise/data/local/ExerciseDao.kt:14-15 | a delete removes exactly the row with the given key, and keys stay distinct |
| Lists.Filter | app/src/main/java/com/example/healthconnectexercise/data/repository/ExerciseRepoInterfaceImpl.kt:46 | filtering never lengthens a list |
| Lists.FilterMembers | app/src/main/java/com/example/healthconnectexercise/data/repository/ExerciseRepoInterfaceImpl.kt:46 | an element is kept exactly when it is in the list and passes the test |
| Lists.FilterAppend | app/src/main/java/com/example/healthconnectexercise/data/repository/ExerciseRepoInterfaceImpl.kt:75-79 | filtering `manual + health` filters each part separately |
| Lists.FilterAll | app/src/main/java/com/example/healthconnectexercise/data/repository/ExerciseRepoInterfaceImpl.kt:46 | nothing is dropped when every element passes |
| Lists.FilterNone | app/src/main/java/com/example/healthconnectexercise/data/repository/ExerciseRepoInterfaceImpl.kt:79-84 | everything is dropped when no element passes |
| Text.IsWhitespace | app/src/main/java/com/example/healthconnectexercise/data/repository/ExerciseRepoInterfaceImpl.kt:71 | the characters `trim()` removes; `LeadingWhitespaceRun` and `TrailingWhitespaceRun` state that the counted runs are exactly such characters |
| Text.Trim | app/src/main/java/com/example/healthconnectexercise/data/repository/ExerciseRepoInterfaceImpl.kt:71 | `trim()`; `TrimIsTrimmed`, `TrimUnfold` and `TrimPadded` state that it drops exactly the whitespace at both ends |
| Text.TypeKey | app/src/main/java/com/example/healthconnectexercise/data/repository/ExerciseRepoInterfaceImpl.kt:71-81 | the normalised type `trim().lowercase()`; `TrimLowerCommute`, `TrimPadded` and `SameKeyIgnoringCase` state that padding and letter case do not change it |
| Text.LeadingWhitespace | app/src/main/java/com/example/healthconnectexercise/data/repository/ExerciseRepoInterfaceImpl.kt:71 | the count of leading whitespace is at most the length |
| Text.TrailingWhitespace | app/src/main/java/com/example/healthconnectexercise/data/repository/ExerciseRepoInterfaceImpl.kt:71 | the count of trailing whitespace is at most the length |
| Text.LeadingWhitespaceRun | app/src/main/java/com/example/healthconnectexercise/data/repository/ExerciseRepoInterfaceImpl.kt:71 | the counted prefix is all whitespace and is followed by a character that is not |
| Text.TrailingWhitespaceRun | app/src/main/java/com/example/healthconnectexercise/data/repository/ExerciseRepoInterfaceImpl.kt:71 | the counted suffix is all whitespace and is preceded by a character that is not |
| Text.TrimStartDrops | app/src/main/java/com/example/healthconnectexercise/data/repository/ExerciseRepoInterfaceImpl.kt:71 | trimming the start drops exactly the leading whitespace |
| Text.TrimEndTakes | app/src/main/java/com/example/healthconnectexercise/data/repository/ExerciseRepoInterfaceImpl.kt:71 | trimming the end drops exactly the trailing whitespace |
| Text.TrimIsTrimmed | app/src/main/java/com/example/healthconnectexercise/data/repository/ExerciseRepoInterfaceImpl.kt:71 | `trim()` returns text whose first and last characters are not whitespace |
| Text.LeadingWhitespaceIs | app/src/main/java/com/example/healthconnectexercise/data/repository/ExerciseRepoInterfaceImpl.kt:71 | the leading count is the index of the first character that is not whitespace |
| Text.TrailingWhitespaceIs | app/src/main/java/com/example/healthconnectexercise/data/repository/ExerciseRepoInterfaceImpl.kt:71 | the trailing count is the distance from the last character that is not whitespace |
| Text.TrimPadded | app/src/main/java/com/example/healthconnectexercise/data/repository/ExerciseRepoInterfaceImpl.kt:146 | whitespace padding around a trimmed type is ignored |
| Text.Lower | app/src/main/java/com/example/healthconnectexercise/data/repository/ExerciseRepoInterfaceImpl.kt:71 | the ASCII lower-casing keeps the length |
| Text.LowerChars | app/src/main/java/com/example/healthconnectexercise/data/repository/ExerciseRepoInterfaceImpl.kt:71 | `lowercase()` maps each character on its own |
| Text.LowerKeepsWhitespace | app/src/main/java/com/example/healthconnectexercise/data/repository/ExerciseRepoInterfaceImpl.kt:71 | lower-casing a character keeps whether it is whitespace |
| Text.LowerKeepsLeadingWhitespace | app/src/main/java/com/example/healthconnectexercise/data/repository/ExerciseRepoInterfaceImpl.kt:71 | lower-casing keeps the leading whitespace run |
| Text.LowerKeepsTrailingWhitespace | app/src/main/java/com/example/healthconnectexercise/data/repository/ExerciseRepoInterfaceImpl.kt:71 | lower-casing keeps the trailing whitespace run |
| Text.LowerDrop | app/src/main/java/com/example/healthconnectexercise/data/repository/ExerciseRepoInterfaceImpl.kt:71 | lower-casing commutes with dropping a prefix |
| Text.LowerTake | app/src/main/java/com/example/healthconnectexercise/data/repository/ExerciseRepoInterfaceImpl.kt:71 | lower-casing commutes with keeping a prefix |
| Text.TrimUnfold | app/src/main/java/com/example/healthconnectexercise/data/repository/ExerciseRepoInterfaceImpl.kt:71 | `trim()` is the slice between the leading and the trailing whitespace runs |
| Text.TrimLowerCommute | app/src/main/java/com/example/healthconnectexercise/data/repository/ExerciseRepoInterfaceImpl.kt:71-81 | trimming then lower-casing equals lower-casing then trimming |
| Text.SameKeyIgnoringCase | app/src/main/java/com/example/healthconnectexercise/data/repository/ExerciseRepoInterfaceImpl.kt:146 | texts that are equal ignoring case have the same type key |
| Sorting.InsertElements | app/src/main/java/com/example/healthconnectexercise/presentation/viewmodel/ExerciseViewModel.kt:80 | inserting adds exactly the inserted element |
| Sorting.InsertSorted | app/src/main/java/com/example/healthconnectexercise/presentation/viewmodel/ExerciseViewModel.kt:80 | inserting into a latest-first list keeps it latest-first |
| Sorting.SortDescending | app/src/main/java/com/example/healthconnectexercise/presentation/viewmodel/ExerciseViewModel.kt:80 | `sortedByDescending` returns a permutation of its input, sorted by key, largest first |
| Sorting.SortDescendingMembers | app/src/main/java/com/example/healthconnectexercise/presentation/viewmodel/ExerciseViewModel.kt:80 | sorting keeps the length and exactly the elements it was given |
| Sorting.LexLeTotal | app/src/main/java/com/example/healthconnectexercise/data/mapper/ExerciseTypeMapper.kt:76 | any two texts are ordered one way or the other |
| Sorting.LexLeAntisymmetric | app/src/main/java/com/example/healthconnectexercise/data/mapper/ExerciseTypeMapper.kt:76 | texts ordered both ways are equal |
| Sorting.LexLeTransitive | app/src/main/java/com/example/healthconnectexercise/data/mapper/ExerciseTypeMapper.kt:76 | the text order is transitive |
| Sorting.InsertAscendingElements | app/src/main/java/com/example/healthconnectexercise/data/mapper/ExerciseTypeMapper.kt:76 | inserting a text adds exactly that text |
| Sorting.PrependAscending | app/src/main/java/com/example/healthconnectexercise/data/mapper/ExerciseTypeMapper.kt:76 | a text no larger than the head of an ascending list can go in front of it |
| Sorting.InsertAscendingSorted | app/src/main/java/com/example/healthconnectexercise/data/mapper/ExerciseTypeMapper.kt:76 | inserting into an ascending list keeps it ascending |
| Sorting.SortAscending | app/src/main/java/com/example/healthconnectexercise/data/mapper/ExerciseTypeMapper.kt:76 | `sorted()` returns a permutation of its input in ascending order |
| Sorting.AtMostOnce | app/src/main/java/com/example/healthconnectexercise/data/mapper/ExerciseTypeMapper.kt:76 | a text occurs at most once in a list without repeats |
| Sorting.Repeated | app/src/main/java/com/example/healthconnectexercise/data/mapper/ExerciseTypeMapper.kt:76 | a text found at two positions occurs at least twice |
| Sorting.SortAscendingDistinct | app/src/main/java/com/example/healthconnectexercise/data/mapper/ExerciseTypeMapper.kt:76 | sorting texts without repeats keeps the length and the members and gives a strictly ascending list |
| TypeMapper.ExerciseTypeMap | app/src/main/java/com/example/healthconnectexercise/data/mapper/ExerciseTypeMapper.kt:5-64 | `exerciseTypeMap`; `EntryFound` states that it finds every table entry from its code, and `ToIdInverts` that it maps `t` to `n` exactly when `toId(n) == t` |
| TypeMapper.ReverseExerciseTypeMap | app/src/main/java/com/example/healthconnectexercise/data/mapper/ExerciseTypeMapper.kt:66 | `reverseExerciseTypeMap`; `EntryFound` states that it finds every entry from its name, and `ReverseName` that each name it knows maps forward to itself |
| TypeMapper.ToName | app/src/main/java/com/example/healthconnectexercise/data/mapper/ExerciseTypeMapper.kt:67-69 | `toName`; `UnknownExerciseName` states that it falls back to "Unknown Exercise" exactly for codes outside the table, and `ToNameOfId` that it inverts `toId` |
| TypeMapper.ToId | app/src/main/java/com/example/healthconnectexercise/data/mapper/ExerciseTypeMapper.kt:71-73 | `toId`; `ToIdInverts` states that `toId(n) == t` exactly when the table maps `t` to `n`, and `ToIdOfName` that it inverts `toName` on the table |
| TypeMapper.GetSupportedTypes | app/src/main/java/com/example/healthconnectexercise/data/mapper/ExerciseTypeMapper.kt:75-77 | `getSupportedTypes`; `SupportedTypesSpec` states that it lists all 58 names once each, strictly ascending |
| TypeMapper.EntryFound | app/src/main/java/com/example/healthconnectexercise/data/mapper/ExerciseTypeMapper.kt:5-66 | every table entry is found from its code by `exerciseTypeMap` and from its name by `reverseExerciseTypeMap` |
| TypeMapper.ReverseName | app/src/main/java/com/example/healthconnectexercise/data/mapper/ExerciseTypeMapper.kt:66 | every name the reverse map knows maps forward to itself |
| TypeMapper.TableNamesDistinct | app/src/main/java/com/example/healthconnectexercise/data/mapper/ExerciseTypeMapper.kt:5-64 | the 58 names in the table are pairwise distinct |
| TypeMapper.ToIdOfName | app/src/main/java/com/example/healthconnectexercise/data/mapper/ExerciseTypeMapper.kt:66-73 | `toId(toName(t)) == t` for every code in the table |
| TypeMapper.ToNameOfId | app/src/main/java/com/example/healthconnectexercise/data/mapper/ExerciseTypeMapper.kt:66-73 | `toName(toId(n)) == n` whenever `toId(n)` is not null |
| TypeMapper.ToIdInverts | app/src/main/java/com/example/healthconnectexercise/data/mapper/ExerciseTypeMapper.kt:66-73 | `toId(n) == t` exactly when the table maps `t` to `n`; names are compared exactly, letter case included |
| TypeMapper.UnknownExerciseName | app/src/main/java/com/example/healthconnectexercise/data/mapper/ExerciseTypeMapper.kt:67-73 | `toId("Unknown Exercise")` is null, and `toName(t)` is the fallback name exactly when `t` is not in the table |
| TypeMapper.TableNameKnown | app/src/main/java/com/example/healthconnectexercise/data/mapper/ExerciseTypeMapper.kt:66-73 | the names `toId` knows are exactly the names in the table |
| TypeMapper.SupportedTypesSpec | app/src/main/java/com/example/healthconnectexercise/data/mapper/ExerciseTypeMapper.kt:75-77 | `getSupportedTypes` lists all 58 names, each once, strictly ascending, and only names `toId` knows |
| Conflicts.Conflicting | app/src/main/java/com/example/healthconnectexercise/data/repository/ExerciseRepoInterfaceImpl.kt:146-150 | the conflict rule; `ReportedPairsConflict` and `ManualOverTwoHealthLogs` state what it accepts and rejects |
| Conflicts.ConflictsOf | app/src/main/java/com/example/healthconnectexercise/data/repository/ExerciseRepoInterfaceImpl.kt:138-157 | the pairs `detectConflicts` reports; `ConflictPositionsSpec` states that they are exactly the conflicting positions `i < j`, each once, in row-major order |
| Conflicts.RowSound | app/src/main/java/com/example/healthconnectexercise/data/repository/ExerciseRepoInterfaceImpl.kt:142-152 | each pair the inner loop reports is `(logs[i], logs[c])` at its reported column `c >= j`, and it satisfies the rule |
| Conflicts.RowColumnsFrom | app/src/main/java/com/example/healthconnectexercise/data/repository/ExerciseRepoInterfaceImpl.kt:142 | the inner loop started at column `j` reports only columns `>= j` |
| Conflicts.RowAscending | app/src/main/java/com/example/healthconnectexercise/data/repository/ExerciseRepoInterfaceImpl.kt:142-152 | within one row, the reported columns strictly ascend |
| Conflicts.RowComplete | app/src/main/java/com/example/healthconnectexercise/data/repository/ExerciseRepoInterfaceImpl.kt:142-152 | within one row, every column where the rule holds is reported |
| Conflicts.FromSound | app/src/main/java/com/example/healthconnectexercise/data/repository/ExerciseRepoInterfaceImpl.kt:141-154 | each pair reported from row `i` on comes from positions `i <= a < b` and satisfies the rule |
| Conflicts.FromAscending | app/src/main/java/com/example/healthconnectexercise/data/repository/ExerciseRepoInterfaceImpl.kt:141-154 | the reported positions strictly ascend in row-major order |
| Conflicts.FromComplete | app/src/main/java/com/example/healthconnectexercise/data/repository/ExerciseRepoInterfaceImpl.kt:141-154 | every pair of positions `i <= a < b` that the rule accepts is reported |
| Conflicts.RowStep | app/src/main/java/com/example/healthconnectexercise/data/repository/ExerciseRepoInterfaceImpl.kt:143-152 | one inner step appends `(a, b)` exactly when the pair conflicts |
| Conflicts.RowEnd | app/src/main/java/com/example/healthconnectexercise/data/repository/ExerciseRepoInterfaceImpl.kt:141-142 | at the end of a row the scan moves on to the next row |
| Conflicts.DetectConflicts | app/src/main/java/com/example/healthconnectexercise/data/repository/ExerciseRepoInterfaceImpl.kt:138-157 | the nested loops return exactly `ConflictsOf(logs)`, whose meaning `ConflictPositionsSpec` states |
| Conflicts.ConflictPositionsSpec | app/src/main/java/com/example/healthconnectexercise/data/repository/ExerciseRepoInterfaceImpl.kt:138-157 | reports `(logs[i], logs[j])` exactly for the conflicting positions `i < j`, each once, in row-major order |
| Conflicts.ReportedPairsConflict | app/src/main/java/com/example/healthconnectexercise/data/repository/ExerciseRepoInterfaceImpl.kt:146-150 | a reported pair has matching types and overlapping intervals, and at least one side is MANUAL; so two Health Connect logs, and intervals that only touch, are never reported |
| Conflicts.TwoLogs | app/src/main/java/com/example/healthconnectexercise/data/repository/ExerciseRepoInterfaceImpl.kt:138-157 | two logs give one pair if they conflict and none otherwise |
| Conflicts.ManualOverTwoHealthLogs | app/src/main/java/com/example/healthconnectexercise/data/repository/ExerciseRepoInterfaceImpl.kt:146-150 | a manual log overlapping two Health Connect logs of its type conflicts with each of them, and they do not conflict with each other |
| Repository.ReadManual | app/src/main/java/com/example/healthconnectexercise/data/repository/ExerciseRepoInterfaceImpl.kt:41 | `dao.getAll().map { it.toDomain() }`; `ReadManualSucceeds`, `ReadManualFrom` and `ReadManualOf` state when it succeeds and that it yields exactly the stored rows, converted |
| Repository.Visible | app/src/main/java/com/example/healthconnectexercise/data/repository/ExerciseRepoInterfaceImpl.kt:45-46 | the provider records minus the suppressed ids; `VisibleMembers` states that a record is shown exactly when its id is not suppressed |
| Repository.HealthPart | app/src/main/java/com/example/healthconnectexercise/data/repository/ExerciseRepoInterfaceImpl.kt:43-54 | the `healthLogs` of the merge; `MergedViewSpec` states its cases: empty without permission or after a caught exception, a failure for any other exception |
| Repository.IsResolved | app/src/main/java/com/example/healthconnectexercise/data/repository/ExerciseRepoInterfaceImpl.kt:108-110 | `isConflictResolved`; `UnresolvedMembers` states that it accepts a pair recorded in either order |
| Repository.Unresolved | app/src/main/java/com/example/healthconnectexercise/data/repository/ExerciseRepoInterfaceImpl.kt:57 | the filtered conflicts; `UnresolvedMembers` states that a conflict stays exactly when it is not resolved in either order |
| Repository.MergedView | app/src/main/java/com/example/healthconnectexercise/data/repository/ExerciseRepoInterfaceImpl.kt:39-59 | `getMergedLogs`; `MergedViewSpec` states its result (see below the table) |
| Repository.Removable | app/src/main/java/com/example/healthconnectexercise/data/repository/ExerciseRepoInterfaceImpl.kt:79-84 | the selection rule of `resolveConflict`; `OverlappingMembers` states that a record is selected exactly when it satisfies it |
| Repository.Pass | app/src/main/java/com/example/healthconnectexercise/data/repository/ExerciseRepoInterfaceImpl.kt:78-101 | one pass of the do-while (corrected dispatch; as written: `TagDispatchPass`, see Findings); `PassClears`, `PassGrows`, `PassLeavesAlone` and `PassIdempotent` state what it removes, records and keeps |
| Repository.TagDispatchPass | app/src/main/java/com/example/healthconnectexercise/data/repository/ExerciseRepoInterfaceImpl.kt:88-99 | one pass of the do-while as written; `TagDispatchKeepsTaggedRow` states that a stored `HEALTH_CONNECT` row survives it, and `TagDispatchAgrees` that it equals `Pass` when every stored row is MANUAL |
| Repository.ToDomainAllSucceeds | app/src/main/java/com/example/healthconnectexercise/data/repository/ExerciseRepoInterfaceImpl.kt:41 | `map { it.toDomain() }` succeeds exactly when every row converts |
| Repository.ToDomainAllValues | app/src/main/java/com/example/healthconnectexercise/data/repository/ExerciseRepoInterfaceImpl.kt:41 | a successful read converts the rows one for one, in order |
| Repository.ReadManualSucceeds | app/src/main/java/com/example/healthconnectexercise/data/repository/ExerciseRepoInterfaceImpl.kt:41 | reading the store succeeds exactly when every stored row converts |
| Repository.ReadManualFrom | app/src/main/java/com/example/healthconnectexercise/data/repository/ExerciseRepoInterfaceImpl.kt:41 | every log the read yields is some stored row, converted |
| Repository.ReadManualOf | app/src/main/java/com/example/healthconnectexercise/data/repository/ExerciseRepoInterfaceImpl.kt:41 | every stored row appears in the read, converted |
| Repository.VisibleMembers | app/src/main/java/com/example/healthconnectexercise/data/repository/ExerciseRepoInterfaceImpl.kt:46 | a provider log is shown exactly when its id is not suppressed |
| Repository.UnresolvedMembers | app/src/main/java/com/example/healthconnectexercise/data/repository/ExerciseRepoInterfaceImpl.kt:57-110 | a conflict stays exactly when it is not resolved in either order |
| Repository.MergedViewSpec | app/src/main/java/com/example/healthconnectexercise/data/repository/ExerciseRepoInterfaceImpl.kt:39-59 | see below the table |
| Repository.OverlappingMembers | app/src/main/java/com/example/healthconnectexercise/data/repository/ExerciseRepoInterfaceImpl.kt:79-84 | a record is selected exactly when it is another record of `keep`'s normalised type that overlaps `keep` |
| Repository.OverlappingAppend | app/src/main/java/com/example/healthconnectexercise/data/repository/ExerciseRepoInterfaceImpl.kt:75-84 | selecting from `manual + health` selects from each part |
| Repository.IdsOfSnoc | app/src/main/java/com/example/healthconnectexercise/data/repository/ExerciseRepoInterfaceImpl.kt:88-94 | each step of the `forEach` adds one id and one pair `(keep.id, r.id)` |
| Repository.PairsWithAppend | app/src/main/java/com/example/healthconnectexercise/data/repository/ExerciseRepoInterfaceImpl.kt:93 | the pairs recorded for two runs of records are the pairs of each run together |
| Repository.ReadAfterDelete | app/src/main/java/com/example/healthconnectexercise/data/repository/ExerciseRepoInterfaceImpl.kt:90-96 | after deleting by id the store still reads, and yields only logs it yielded before, none with a deleted id |
| Repository.PassClearsStore | app/src/main/java/com/example/healthconnectexercise/data/repository/ExerciseRepoInterfaceImpl.kt:88-96 | after one pass the store yields no removable record |
| Repository.PassClearsProvider | app/src/main/java/com/example/healthconnectexercise/data/repository/ExerciseRepoInterfaceImpl.kt:88-98 | after one pass the provider, minus the suppressed ids, yields no removable record |
| Repository.PassClears | app/src/main/java/com/example/healthconnectexercise/data/repository/ExerciseRepoInterfaceImpl.kt:78-101 | after one pass the combined re-read holds no removable record, so the next pass finds nothing |
| Repository.PassIdempotent | app/src/main/java/com/example/healthconnectexercise/data/repository/ExerciseRepoInterfaceImpl.kt:78-101 | a second pass changes nothing: the loop's final pass is idle, and re-adding an existing element changes neither set |
| Repository.PassGrows | app/src/main/java/com/example/healthconnectexercise/data/repository/ExerciseRepoInterfaceImpl.kt:33-94 | a pass only removes rows and only adds to the two sets, and every record it removes is then resolved against `keep` in either order |
| Repository.PassLeavesAlone | app/src/main/java/com/example/healthconnectexercise/data/repository/ExerciseRepoInterfaceImpl.kt:71-92 | `keep`'s own row, rows of another type and rows that do not overlap survive a pass, and such provider records stay visible |
| Repository.PassStep | app/src/main/java/com/example/healthconnectexercise/data/repository/ExerciseRepoInterfaceImpl.kt:78-101 | from the start state or the state after one pass, a pass reaches the same state, which has no removable record left |
| Repository.WithSourceMembers | app/src/main/java/com/example/healthconnectexercise/data/repository/ExerciseRepoInterfaceImpl.kt:89-92 | a record is kept by a tag filter exactly when it carries that tag |
| Repository.ReadOneRow | app/src/main/java/com/example/healthconnectexercise/data/repository/ExerciseRepoInterfaceImpl.kt:96 | a store of one row that converts reads as that row's log |
| Repository.TagDispatchKeepsTaggedRow | app/src/main/java/com/example/healthconnectexercise/data/repository/ExerciseRepoInterfaceImpl.kt:88-101 | as written, a stored row tagged HEALTH_CONNECT that overlaps `keep` survives every pass and is still selected, so `overlapsFound` never becomes false |
| Repository.TagDispatchStallsOn | app/src/main/java/com/example/healthconnectexercise/data/repository/ExerciseRepoInterfaceImpl.kt:29-92 | a concrete store and `keep` that satisfy the hypotheses of `TagDispatchKeepsTaggedRow` |
| Repository.WithSourceSplit | app/src/main/java/com/example/healthconnectexercise/data/repository/ExerciseRepoInterfaceImpl.kt:89-92 | a tag filter over a list of one tag followed by a list of the other tag keeps the first part |
| Repository.WithSourceSplitLast | app/src/main/java/com/example/healthconnectexercise/data/repository/ExerciseRepoInterfaceImpl.kt:89-92 | a tag filter over a list of one tag followed by a list of the other tag keeps the second part |
| Repository.ReadManualSources | app/src/main/java/com/example/healthconnectexercise/data/repository/ExerciseRepoInterfaceImpl.kt:41-72 | a store whose rows are all tagged MANUAL reads as MANUAL logs |
| Repository.TagDispatchAgrees | app/src/main/java/com/example/healthconnectexercise/data/repository/ExerciseRepoInterfaceImpl.kt:88-92 | when every stored row is tagged MANUAL, dispatching on the tag is the same pass as dispatching on the origin |
| Repository.ExerciseRepository.constructor | app/src/main/java/com/example/healthconnectexercise/data/repository/ExerciseRepoInterfaceImpl.kt:20-61 | both memory sets start empty, over the given store |
| Repository.ExerciseRepository.AddManualLog | app/src/main/java/com/example/healthconnectexercise/data/repository/ExerciseRepoInterfaceImpl.kt:29-31 | the log is stored as its entity, replacing any row with its id |
| Repository.ExerciseRepository.GetMergedLogs | app/src/main/java/com/example/healthconnectexercise/data/repository/ExerciseRepoInterfaceImpl.kt:39-59 | returns `MergedView` of the current state, whose meaning `MergedViewSpec` states, and changes nothing |
| Repository.ExerciseRepository.IsConflictResolved | app/src/main/java/com/example/healthconnectexercise/data/repository/ExerciseRepoInterfaceImpl.kt:108-110 | `isConflictResolved` over the current memory set; `UnresolvedMembers` states that a pair counts as resolved when recorded in either order |
| Repository.ExerciseRepository.DropOne | app/src/main/java/com/example/healthconnectexercise/data/repository/ExerciseRepoInterfaceImpl.kt:89-93 | a record from the store is deleted by id and a provider record is suppressed; either way `(keep.id, r.id)` is recorded (corrected dispatch; as written: `TagDispatchPass`, see Findings) |
| Repository.ExerciseRepository.DeleteEach | app/src/main/java/com/example/healthconnectexercise/data/repository/ExerciseRepoInterfaceImpl.kt:88-94 | for a run of store records, the `forEach` deletes exactly their ids, leaves the suppressed set alone and records a pair for each (corrected dispatch; as written: `TagDispatchPass`, see Findings) |
| Repository.ExerciseRepository.SuppressEach | app/src/main/java/com/example/healthconnectexercise/data/repository/ExerciseRepoInterfaceImpl.kt:88-94 | for a run of provider records, the `forEach` suppresses exactly their ids, leaves the store alone and records a pair for each (corrected dispatch; as written: `TagDispatchPass`, see Findings) |
| Repository.ExerciseRepository.DropAll | app/src/main/java/com/example/healthconnectexercise/data/repository/ExerciseRepoInterfaceImpl.kt:88-94 | `overlappingLogs` lists the store records before the provider records; the `forEach` deletes the ids of the store part, suppresses the ids of the provider part, and records a pair for each record (corrected dispatch; as written: `TagDispatchPass`, see Findings) |
| Repository.ExerciseRepository.RemoveOverlapping | app/src/main/java/com/example/healthconnectexercise/data/repository/ExerciseRepoInterfaceImpl.kt:79-99 | one pass of the loop body moves the state to `Pass` of the old state (corrected dispatch; as written: `TagDispatchPass`, see Findings) |
| Repository.ExerciseRepository.ResolveConflict | app/src/main/java/com/example/healthconnectexercise/data/repository/ExerciseRepoInterfaceImpl.kt:68-107 | returns true exactly when the store reads and the provider answers; then the state is one pass on from the old state and no removable record is left; otherwise nothing changed. The loop terminates (corrected dispatch; as written: `TagDispatchPass`, see Findings) |
| ViewModel.TagConflicted | app/src/main/java/com/example/healthconnectexercise/presentation/viewmodel/ExerciseViewModel.kt:72-79 | the `copy(conflicted = ...)` map; `TagConflictedSpec` states that it changes only the flag, setting it exactly on records some pair names |
| ViewModel.LoadedLogs | app/src/main/java/com/example/healthconnectexercise/presentation/viewmodel/ExerciseViewModel.kt:72-80 | the list `load` shows; `LoadedLogsSpec` states that it is latest-first, a permutation of the tagged merged list, with the flags set exactly on named records |
| ViewModel.AfterLoad | app/src/main/java/com/example/healthconnectexercise/presentation/viewmodel/ExerciseViewModel.kt:65-89 | the state after `load`; `LoadSuccess` and `LoadFailure` state its two cases |
| ViewModel.ConflictedIds | app/src/main/java/com/example/healthconnectexercise/presentation/viewmodel/ExerciseViewModel.kt:72 | an id is in the set exactly when some returned pair names it on either side |
| ViewModel.TagConflictedSpec | app/src/main/java/com/example/healthconnectexercise/presentation/viewmodel/ExerciseViewModel.kt:72-79 | tagging changes only the flag, which it sets exactly on records some pair names |
| ViewModel.LoadedLogsSpec | app/src/main/java/com/example/healthconnectexercise/presentation/viewmodel/ExerciseViewModel.kt:72-80 | the shown list is latest-start first and a permutation of the tagged merged list; each record is flagged exactly when some pair names it |
| ViewModel.LoadSuccess | app/src/main/java/com/example/healthconnectexercise/presentation/viewmodel/ExerciseViewModel.kt:70-84 | a successful load shows the returned pairs and the tagged, sorted list; `loading` ends false and the error is kept |
| ViewModel.LoadFailure | app/src/main/java/com/example/healthconnectexercise/presentation/viewmodel/ExerciseViewModel.kt:85-87 | a failed load keeps logs and conflicts, sets the error and clears `loading`; from the initial state no logs are shown |
| ViewModel.FirstInvolving | app/src/main/java/com/example/healthconnectexercise/presentation/viewmodel/ExerciseViewModel.kt:124-126 | `find` returns the first pair naming the id, or none exactly when no pair names it |
| ViewModel.Partner | app/src/main/java/com/example/healthconnectexercise/presentation/viewmodel/ExerciseViewModel.kt:128-130 | returns the other side of the pair: the second when the first is the log, otherwise the first |
| ViewModel.ExerciseViewModel.constructor | app/src/main/java/com/example/healthconnectexercise/presentation/viewmodel/ExerciseViewModel.kt:27-37 | the state starts as `UiState()` and the rationale flag starts false; over a valid store of MANUAL rows the view model starts valid |
| ViewModel.ExerciseViewModel.Load | app/src/main/java/com/example/healthconnectexercise/presentation/viewmodel/ExerciseViewModel.kt:65-89 | the new state is `AfterLoad` of the merged view, whose cases `LoadSuccess` and `LoadFailure` state; the flag is unchanged |
| ViewModel.ExerciseViewModel.AddManual | app/src/main/java/com/example/healthconnectexercise/presentation/viewmodel/ExerciseViewModel.kt:91-104 | stores a MANUAL log with exactly the given fields under the fresh id, then reloads |
| ViewModel.ExerciseViewModel.ResolveConflict | app/src/main/java/com/example/healthconnectexercise/presentation/viewmodel/ExerciseViewModel.kt:111-116 | forwards `keep` and `drop`, ignores the answer and reloads; the pass applied is also the one the code's tag dispatch applies |
| ViewModel.ExerciseViewModel.KeepAndRemoveOther | app/src/main/java/com/example/healthconnectexercise/presentation/viewmodel/ExerciseViewModel.kt:122-135 | with no pair naming the log nothing changes; otherwise it resolves with the log kept, then reloads; the pass applied is also the one the code's tag dispatch applies |
| ViewModel.ExerciseViewModel.OnSyncClick | app/src/main/java/com/example/healthconnectexercise/presentation/viewmodel/ExerciseViewModel.kt:41-53 | with permission it loads and leaves the flag alone; without permission it raises the flag and loads nothing |
| ViewModel.ExerciseViewModel.LaunchPermissionsRequest | app/src/main/java/com/example/healthconnectexercise/presentation/viewmodel/ExerciseViewModel.kt:54-59 | hides the rationale dialog and leaves the state alone |
| ViewModel.ExerciseViewModel.OnPermissionRationaleDismissed | app/src/main/java/com/example/healthconnectexercise/presentation/viewmodel/ExerciseViewModel.kt:61-63 | hides the rationale dialog and leaves the state alone |

What `Repository.MergedViewSpec` states about `getMergedLogs`:

- It fails exactly when the store read fails, or when permission is granted and the
  provider throws something other than `RemoteException` or `SecurityException`.
- Otherwise the list is the manual logs followed by the unsuppressed provider logs.
- That provider part is empty without permission or after a caught exception.
- The conflicts are exactly the detected pairs that are not resolved in either order.

## Left out

- The Health Connect reader and its 30-day window are out of the model. This covers
  `readHealthConnectLogs`, its clock and the client call. The reply is an input, already
  mapped to `HEALTH_CONNECT` logs through `toName`.
- The reply stays the same for the length of one call. So a provider that fails partway
  through `resolveConflict` is not modelled, and neither is a failure after some deletions
  were applied. In the model, the only reads that can throw come before the first change.
- `ExerciseRepository.ResolveConflict`: it returns `false` only for a failing first read
  and leaves the state unchanged. The source promises that earlier deletions stay applied
  after a later failure. Such a later failure cannot occur with a fixed reply.
- Permission is a Boolean input; `HealthManager.hasAllPermissions` is not part of this
  model. The system permission prompt that `launchPermissionsRequest` starts is not
  modelled either: that is an outside UI call.
- A store insert or delete that throws is not modelled (Room I/O). As a result, the
  `catch` branches of `addManual` and of the view model's `resolveConflict` never apply.
- Exception messages are always present. Kotlin's `e.message` can be null; the model
  passes the failure's text straight to `error`.
- Coroutines, `withContext` and `viewModelScope.launch` are not modelled. Each call runs
  to completion before the next one. The transient `loading = true` is overwritten in the
  same call.
- The UUID for a new log is the `freshId` input.
- `Text.Lower` folds only ASCII letters, and `equals(ignoreCase = true)` is modelled as
  equal lower-cased keys. Full Unicode case mapping is not modelled.
- Whitespace follows Java's `Character.isWhitespace` plus the Unicode space separators.
- Exercise type codes use the published values of the `ExerciseSessionRecord.EXERCISE_TYPE_*`
  constants. The library itself is not part of this model.
- `ExerciseViewModel.KeepAndRemoveOther`: the partner it passes as `drop` has no effect on
  the state, because `resolveConflict` never reads `drop`. `Partner` states the choice
  itself.
- `Sorting.SortDescending`: stability is not proved. `sortedByDescending` keeps equal
  starts in input order, but no contract states it. SQLite gives no order to rows with
  equal `start` under `ORDER BY start DESC`; `ExerciseDao.GetAll` keeps them in stored
  order, which is only this model's choice.
- The Compose screens, navigation, dependency injection and the Room database class are
  not part of this model.

## Findings

| source | as written | input that shows it | evidently intended | confidence | as-written member | corrected member |
|---|---|---|---|---|---|---|
| app/src/main/java/com/example/healthconnectexercise/data/repository/ExerciseRepoInterfaceImpl.kt:88-101 | Each removable record is handled by its `source` tag. A record tagged `HEALTH_CONNECT` only has its id suppressed, and store reads are never filtered by the suppressed ids. | `addManualLog` stores a `HEALTH_CONNECT`-tagged row `("h", "Running", 0, 10)`. Then `resolveConflict` runs with a manual `keep` `("k", "Running", 0, 10)`. Every pass re-reads the row and selects it again, so the do-while never ends. | Records read from the store are deleted and records read from the provider are suppressed, so the loop stops after the second pass. | medium, not executed (the app's only caller of `addManualLog` writes MANUAL rows) | Repository.TagDispatchKeepsTaggedRow | Repository.ExerciseRepository.ResolveConflict |

The as-written pass is `Repository.TagDispatchPass`. `Repository.TagDispatchStallsOn`
exhibits a concrete store and `keep` that meet its hypotheses.

The corrected pass is `Repository.Pass`, which dispatches on where a record was read.
`Repository.PassClears` proves that one corrected pass leaves nothing removable.
`Repository.ExerciseRepository.ResolveConflict` uses it and terminates.

`Repository.TagDispatchAgrees` shows the two passes coincide when the store holds only
MANUAL rows. The view model keeps that as an invariant.
