# myning persistence core, in Dafny

A model with proofs of the core of *myning*, a terminal mining game: its save
store, the migration from JSON files to SQLite, the singleton registry, the `Game`
entity, the bestiary backfill, menu hotkey assignment and the offset Fibonacci
numbers.

- **`wrappers.dfy`**: `Option` and `Result`.
- **`json.dfy`**: JSON as an abstract codec, and `Objects.Entity`, which is what the store sees of a saved object.
  - A JSON value is a `JValue`.
  - The codec's `parse` and `dump` are parameters.
  - `Lawful` says that `parse(dump(p)) == Some(p)` and that dumps are never empty.
  - An `Entity` is its `file_name` and its `to_dict()`.
- **`paths.dfy`**: how keys become paths and paths become keys.
  - The paths are `.data/<key>.json` and `subfolder/file_name`.
  - Going back from a path to a key means splitting at the last `/` and taking pathlib's `stem`.
- **`file_manager.dfy`**: `FileManager`.
  - The storage root is a `Disk` value: the three directories, the legacy files, whether `.data/myning.db` exists and has its table, and the table's rows.
  - Every operation is a function from the old disk to the new disk and an outcome. Each operation branches afresh on whether the database file exists.
  - The class `FileManager` keeps the same state in fields. Each of its methods is proved to have exactly the effect of its function.
- **`sqlite_migration.dfy`**: migration 11, which imports every legacy file that parses into a fresh table.
  - It comes in two versions, as written and corrected.
  - The upsert loop is a method proved against a left fold.
- **`singleton.dfy`**: the registry shared by the singleton classes. `Call` fails before registration.
- **`game.dfy`** (module `Games`): the `Game` singleton.
  - `to_dict`/`from_dict` and the default state.
  - `initialize`, which loads or creates the game and then registers it. It comes in two versions, as written and corrected.
- **`bestiary_backfill.dfy`**: the backfill of defeated bosses from completed mines, then one save of the stats.
- **`chapter.dfy`**: hotkey assignment for menu options, and the widget's alias and reserved-key state.
  - `get_labels_and_hotkeys` works in place on an `array` of options.
- **`fib.dfy`**: `fibonacci` and `fibonacci_sum` as loops.
  - They are proved against recursive definitions.
  - Lemmas relate those definitions to the usual Fibonacci numbers and give the sum in closed form.

Side effects outside the model are abstracted as follows:

- **JSON text:** abstract, as the codec above.
- **The filesystem and SQLite:** maps and flags inside `Disk`.
- **Directory listings in `glob` order:** parameters.
- **`Text.from_markup(s).plain`:** the parameter `markup`.
- **The first child widget that handles keys:** an optional alias map.
- **`Player`, and the stats to backfill:** parameters.

## Model

| member | source | states |
|---|---|---|
| Paths.Stem | myning/migrations/sqlite_migration.py:32 | `Path.stem` of a `*.json` name drops the suffix, except for a name that is only ".json"; the stem has no `/` unless the name has one |
| Paths.StemInjective | myning/migrations/sqlite_migration.py:32 | two distinct `*.json` names, other than ".json", have distinct stems |
| Paths.LegacyPath | myning/utilities/file_manager.py:77 | the legacy file of a key is `.data/<key>.json`; stated by `LegacyPathInjective` and `LegacyPathIsNotDb` |
| Paths.FullKey | myning/utilities/file_manager.py:83 | the key is `subfolder/file_name`, or just `file_name` when there is no subfolder |
| Paths.LegacyPathInjective | myning/utilities/file_manager.py:77 | distinct keys have distinct legacy files `.data/<key>.json` |
| Paths.LegacyPathIsNotDb | myning/utilities/file_manager.py:14-36 | no legacy record file is the database file, so saving on the legacy backend never switches the backend |
| FileManager.SetupDisk | myning/utilities/file_manager.py:43-59 | `.data` then exists; on the database backend the table exists; otherwise `items/` and `entities/` exist; existing directories, files and rows are kept |
| FileManager.SetupIdempotent | myning/utilities/file_manager.py:43-59 | running `setup` twice is the same as running it once |
| FileManager.SaveDisk | myning/utilities/file_manager.py:66-79 | the backend is unchanged; on the database backend only the rows change, and the save succeeds exactly when the table exists; on the legacy backend only the files change, and the save succeeds exactly when the record's directory exists; a failure changes nothing |
| FileManager.LoadDisk | myning/utilities/file_manager.py:81-103 | the result is fixed case by case. On the database backend: no table gives the missing-table error; no row for `subfolder/file_name` gives "absent"; a row whose text parses gives that payload; a row that does not parse gives the corrupt-record error. On the legacy backend: a missing file gives "absent"; an empty file gives the default instance, on every disk; a non-empty file gives the payload it parses to, or the corrupt-record error. No other error is possible |
| FileManager.SaveThenLoad | myning/utilities/file_manager.py:66-103 | with a lawful codec, a successful save loads back the saved payload, on either backend, provided the entity's `file_name` equals the key that `load` builds |
| FileManager.SaveKeepsOthers | myning/utilities/file_manager.py:66-103 | a save does not change what any other key loads |
| FileManager.DeleteDisk | myning/utilities/file_manager.py:105-114 | the database backend removes the row for `file_name` and fails only without the table; the legacy backend removes the file if it is there and always succeeds; nothing else changes |
| FileManager.DeleteThenLoad | myning/utilities/file_manager.py:81-114 | after a successful delete the key loads as absent |
| FileManager.DeleteAbsent | myning/utilities/file_manager.py:105-114 | deleting a key that loads as absent changes nothing and succeeds |
| FileManager.LoadIgnoresLegacyFiles | myning/utilities/file_manager.py:85-91 | once the database exists, legacy files have no influence on `load` |
| FileManager.ResetDisk | myning/utilities/file_manager.py:121-138 | directories, backend and table are untouched; the database backend never touches files |
| FileManager.ResetKeepsProtectedRows | myning/utilities/file_manager.py:121-129 | on the database backend exactly the rows "stats" and "settings" survive, with their data |
| FileManager.ResetKeepsNeverDelete | myning/utilities/file_manager.py:130-138 | on the legacy backend a file survives exactly when it is a top-level `stats.json` or `settings.json`, and it keeps its text |
| FileManager.BackupOf | myning/utilities/file_manager.py:140-145 | the backup becomes the current root, replacing any earlier backup; without `.data` the backup fails and no backup is left |
| FileManager.SaveAllDisk | myning/utilities/file_manager.py:61-64 | `multi_save` keeps the store well formed and the backend |
| FileManager.SaveAllLastWins | myning/utilities/file_manager.py:61-75 | on the database backend `multi_save` succeeds, and each key holds the dump of the last item saved under it |
| FileManager.SaveAllKeepsUntouched | myning/utilities/file_manager.py:61-75 | keys not saved by `multi_save` keep their rows |
| FileManager.SaveAllSucceedsOnDb | myning/utilities/file_manager.py:61-75 | `multi_save` on a database with the table succeeds and keeps the table |
| FileManager.DeleteAllDisk | myning/utilities/file_manager.py:116-119 | `multi_delete` keeps the store well formed and the backend |
| FileManager.DeleteAllRemovesKeys | myning/utilities/file_manager.py:105-119 | on the database backend `multi_delete` removes exactly the rows of the given items |
| FileManager.FileManager.Setup | myning/utilities/file_manager.py:43-59 | the new state is `SetupDisk` of the old one |
| FileManager.FileManager.Save | myning/utilities/file_manager.py:66-79 | the new state and outcome are `SaveDisk` of the old state |
| FileManager.FileManager.MultiSave | myning/utilities/file_manager.py:61-64 | the loop of saves has exactly the effect of `SaveAllDisk` |
| FileManager.FileManager.Load | myning/utilities/file_manager.py:81-103 | returns `LoadDisk` of the current state and changes nothing |
| FileManager.FileManager.Delete | myning/utilities/file_manager.py:105-114 | the new state and outcome are `DeleteDisk` of the old state |
| FileManager.FileManager.MultiDelete | myning/utilities/file_manager.py:116-119 | the loop of deletes has exactly the effect of `DeleteAllDisk` |
| FileManager.FileManager.RemoveFiles | myning/utilities/file_manager.py:132-138 | removing the files of a listing one by one leaves the other files and all other state as they were |
| FileManager.FileManager.ResetGame | myning/utilities/file_manager.py:121-138 | the new state and outcome are `ResetDisk` of the old state |
| FileManager.FileManager.BackupGame | myning/utilities/file_manager.py:140-145 | the root is unchanged, and the backup and outcome are `BackupOf` the root |
| SqliteMigration.Entries | myning/migrations/sqlite_migration.py:31-49 | each listed file is visited in listing order with key `prefix + stem` |
| SqliteMigration.Import | myning/migrations/sqlite_migration.py:33-41 | the upsert loop: entries whose file parses are written in order; its properties are `ImportAppend`, `ImportKeys`, `ImportLastWins` and `ImportUntouched` |
| SqliteMigration.Plan | myning/migrations/sqlite_migration.py:31-49 | the three globs in order: `.data`, then `items`, then `entities`, skipping a missing subdirectory; stated by `PlanEntries` and `PlanDistinctPaths` |
| SqliteMigration.KeyOf | myning/migrations/sqlite_migration.py:32-49 | the key of a legacy file: its stem at the top level, `items/` or `entities/` before the stem in a subdirectory; stated by `KeyShape` and `KeyOfInjective` |
| SqliteMigration.MigratedTable | myning/migrations/sqlite_migration.py:30-58 | the table the migration builds; stated by `MigratedKeys`, `MigratedText` and `MigrateTwice` |
| SqliteMigration.MigrateDiskAsWritten | myning/migrations/sqlite_migration.py:14-62 | as written, legacy files and directories are untouched, and without `.data` the run fails with the database file gone |
| SqliteMigration.MigrateDisk | myning/migrations/sqlite_migration.py:14-62 | the run succeeds and reads legacy files only; without `.data` nothing changes; otherwise the database backend is on, with a table built from the legacy files alone, whatever table existed before |
| SqliteMigration.ImportAppend | myning/migrations/sqlite_migration.py:31-58 | importing two runs of files one after the other is importing their concatenation |
| SqliteMigration.ImportKeys | myning/migrations/sqlite_migration.py:31-58 | a key is in the table after importing exactly when it was there before or some visited file under that key parses |
| SqliteMigration.ImportLastWins | myning/migrations/sqlite_migration.py:31-58 | a key holds the raw text of the last visited file under that key that parses |
| SqliteMigration.ImportUntouched | myning/migrations/sqlite_migration.py:31-58 | a key without any parsing file keeps its row |
| SqliteMigration.PlanEntries | myning/migrations/sqlite_migration.py:44-49 | the visited files are exactly the `*.json` files of `.data` and of the existing subdirectories, each under its own key; a missing subdirectory is skipped |
| SqliteMigration.MigratedKeys | myning/migrations/sqlite_migration.py:31-58 | the new table's keys are exactly the keys of the legacy files that parse, and no others |
| SqliteMigration.KeyShape | myning/migrations/sqlite_migration.py:32-49 | top-level keys contain no `/`; subdirectory keys contain one and start with their directory, so the two never collide |
| SqliteMigration.KeyOfInjective | myning/migrations/sqlite_migration.py:32-49 | distinct `*.json` files, other than ones named ".json", are stored under distinct keys |
| SqliteMigration.PlanDistinctPaths | myning/migrations/sqlite_migration.py:44-49 | no file is visited twice |
| SqliteMigration.MigratedText | myning/migrations/sqlite_migration.py:34-56 | a file that parses and owns its key is stored under it with its text unchanged |
| SqliteMigration.MigratedFile | myning/migrations/sqlite_migration.py:31-58 | when no file is named ".json", every file that parses is stored unchanged under its key: one row per valid file |
| SqliteMigration.MigrateTwice | myning/migrations/sqlite_migration.py:15-21 | a second run over the same files gives the same store |
| SqliteMigration.MigratedRecordLoads | myning/migrations/sqlite_migration.py:31-58 | after the migration `load` finds each migrated record in the table with the payload of its legacy file |
| SqliteMigration.EmptyFileNotMigrated | myning/migrations/sqlite_migration.py:33-41 | an empty legacy file, which `load` answers with the default instance, is skipped by the migration, because `json.loads` rejects it |
| SqliteMigration.FreshInstallFails | myning/migrations/sqlite_migration.py:20-28 | with no `.data`, the migration as written fails, while the corrected one leaves the store untouched |
| SqliteMigration.ImportEntries | myning/migrations/sqlite_migration.py:31-41 | the upsert loop gives the table `Import` of the entries and changes nothing else |
| SqliteMigration.CreateAndImport | myning/migrations/sqlite_migration.py:15-58 | the old database file is replaced by a new one whose table is the migrated table |
| SqliteMigration.Run | myning/migrations/sqlite_migration.py:14-62 | the corrected procedure has exactly the effect of `MigrateDisk` |
| SqliteMigration.RunAsWritten | myning/migrations/sqlite_migration.py:14-62 | the procedure as written has exactly the effect of `MigrateDiskAsWritten` |
| Singleton.CallOf | myning/objects/singleton.py:16-22 | the call succeeds exactly when the class is registered |
| Singleton.InstanceOf | myning/objects/singleton.py:28-30 | the getter gives an instance exactly when the class is registered |
| Singleton.CallMatchesInstance | myning/objects/singleton.py:16-30 | the call returns what the getter holds, and fails exactly when the getter gives None |
| Singleton.CallAfterAssign | myning/objects/singleton.py:16-34 | after assigning `_instance`, the call returns that object |
| Singleton.AssignIsolated | myning/objects/singleton.py:32-34 | registering one class leaves every other class's call and getter as they were |
| Singleton.AssignReplaces | myning/objects/singleton.py:32-34 | a second assignment replaces the first |
| Singleton.CallAfterReset | myning/objects/singleton.py:36-38 | after `reset`, every call fails |
| Singleton.Registry.constructor | myning/objects/singleton.py:14 | the registry starts empty |
| Singleton.Registry.Call | myning/objects/singleton.py:16-22 | returns the registered instance, or the not-initialized error |
| Singleton.Registry.Instance | myning/objects/singleton.py:28-30 | returns the registered instance or nothing |
| Singleton.Registry.SetInstance | myning/objects/singleton.py:32-34 | the class's entry becomes the object; the others stay |
| Singleton.Registry.Reset | myning/objects/singleton.py:36-38 | the registry becomes empty |
| Games.ToDict | myning/objects/game.py:31-34 | the mapping's only key is "state", holding the state |
| Games.FromDict | myning/objects/game.py:36-40 | succeeds exactly on a mapping with "state", giving its value; without "state" it fails, with no default |
| Games.RoundTrip | myning/objects/game.py:31-40 | `from_dict(to_dict(g))` has the state of `g` |
| Games.Plan | myning/objects/game.py:16-19 | corrected initialization never relies on an existing registration; no record or an empty file gives a fresh game; a record gives `from_dict` of it, that is its "state", or the error `from_dict` raises; store errors propagate |
| Games.PlanAsWritten | myning/objects/game.py:16-19 | as written, initialization agrees with the corrected one except on an empty legacy file, where it needs `Game` already registered |
| Games.EmptyGameFileBreaksInitialize | myning/objects/game.py:16-19 | an empty legacy `game.json` loads as the default instance, which makes initialization as written fail at startup |
| Games.SavedGameIsRestored | myning/objects/game.py:16-21 | a game saved under "game" is restored with its state by initialization, on either backend |
| Games.Game.Create | myning/objects/game.py:8-14 | a fresh game is in state TUTORIAL |
| Games.Game.SetState | myning/objects/game.py:23-29 | reading the state returns the value set |
| Games.Game.State | myning/objects/game.py:23-25 | the `state` property returns the game's `_state` |
| Games.Game.AsEntity | myning/objects/game.py:31-34 | the storage key is "game", and the stored mapping decodes to the current state |
| Games.Game.FromDictNew | myning/objects/game.py:36-40 | a new game holding the payload's "state", or the `from_dict` error |
| Games.Game.Initialize | myning/objects/game.py:16-19 | the corrected initialization registers the loaded game or a fresh default, and registers nothing on an error |
| Games.Game.InitializeAsWritten | myning/objects/game.py:16-19 | the initialization as written follows `PlanAsWritten` |
| BestiaryBackfill.Recorded | tests/chapters/test_bestiary.py:83-89 | recording appends the name only when it is absent, keeps earlier entries and introduces no duplicates |
| BestiaryBackfill.RecordIdempotent | tests/chapters/test_bestiary.py:83-89 | recording the same defeat twice leaves it recorded once |
| BestiaryBackfill.BossNamesSnoc | myning/migrations/bestiary_backfill.py:13 | a mine without a boss adds no boss name |
| BestiaryBackfill.Visit | myning/migrations/bestiary_backfill.py:13-14 | one turn records the mine's boss when it has one; the loop's own membership test changes nothing, because recording already skips a known name |
| BestiaryBackfill.Backfilled | myning/migrations/bestiary_backfill.py:12-14 | the defeated bosses after the loop; stated by `BackfilledNames`, `BackfilledExtends`, `BackfilledNoDuplicates` and `BackfillIdempotent` |
| BestiaryBackfill.BackfilledNames | myning/migrations/bestiary_backfill.py:12-14 | afterwards a name is defeated exactly when it was before or is the boss of a completed mine |
| BestiaryBackfill.BackfilledExtends | myning/migrations/bestiary_backfill.py:12-14 | existing entries keep their positions; the loop only appends |
| BestiaryBackfill.BackfilledNoDuplicates | myning/migrations/bestiary_backfill.py:13 | no duplicates are introduced |
| BestiaryBackfill.BackfilledNoop | myning/migrations/bestiary_backfill.py:13 | when every boss is already recorded nothing changes |
| BestiaryBackfill.BackfillIdempotent | myning/migrations/bestiary_backfill.py:12-14 | running the backfill twice is running it once |
| BestiaryBackfill.NamesJson | tests/chapters/test_bestiary.py:92-96 | `defeated_bosses` is stored as the list of the names, in order |
| BestiaryBackfill.Stats.RecordBossDefeat | tests/chapters/test_bestiary.py:83-89 | the defeated bosses become `Recorded` of the old ones |
| BestiaryBackfill.Stats.AsEntity | tests/chapters/test_bestiary.py:92-96 | the stats are stored under "stats" with their defeated bosses |
| BestiaryBackfill.Run | myning/migrations/bestiary_backfill.py:6-18 | the loop leaves the defeated bosses `Backfilled` from the completed mines; then the stats are saved exactly once |
| Chapter.HotkeyOf | myning/tui/chapter/__init__.py:232-233 | a character gives a hotkey exactly when its lowercase is an ASCII lowercase letter (A–Z, a–z and KELVIN SIGN), and that hotkey is one lowercase letter |
| Chapter.FindHotkey | myning/tui/chapter/__init__.py:228-235 | the result is the first position that is eligible (not reserved, not taken), together with its letter; there is no result exactly when no position is eligible |
| Chapter.GetHotkey | myning/tui/chapter/__init__.py:228-235 | the search loop returns `FindHotkey` of the label |
| Chapter.FirstSearchable | myning/tui/chapter/__init__.py:205-215 | the first element that is a `Text`, or a string with an ASCII letter |
| Chapter.Assign | myning/tui/chapter/__init__.py:205-222 | an option with no searchable element gets no hotkey. Otherwise the hotkey is that of the first eligible character of its first searchable element (not reserved, not taken), and that character is underlined. There is no hotkey exactly when no character is eligible, and then the elements are unchanged |
| Chapter.AssignUnderlinesFirstLetter | myning/tui/chapter/__init__.py:218-221 | in "Axa" the key "a" comes from the first "A", which is the one underlined |
| Chapter.Labelled | myning/tui/chapter/__init__.py:201-222 | an option with hotkeys off keeps its elements and gets no hotkey; otherwise it gets what `Assign` gives it |
| Chapter.LastDisabled | myning/tui/chapter/__init__.py:194-196 | only the last option's hotkeys are switched off |
| Chapter.Fold | myning/tui/chapter/__init__.py:197-225 | one label list per visited option |
| Chapter.FoldConsistent | myning/tui/chapter/__init__.py:197-225 | after any prefix of options, hotkeys point at enabled options and are distinct, lowercase and unreserved; each option has at most one hotkey; labels are underlined for hotkeyed options and unchanged for the rest |
| Chapter.LabelsAndHotkeysShape | myning/tui/chapter/__init__.py:194-224 | one label list per option; every hotkey maps to an enabled option before the last |
| Chapter.HotkeysDistinct | myning/tui/chapter/__init__.py:218-233 | the hotkeys are single lowercase letters, none reserved, and no two map to one option |
| Chapter.LabelsUnderlined | myning/tui/chapter/__init__.py:205-224 | an option with a hotkey has its first searchable element replaced by a `Text` underlined at a letter giving that hotkey; the others keep their elements; which letter it is, is stated by `LabelsFollowGetHotkey` |
| Chapter.FoldTurn | myning/tui/chapter/__init__.py:197-225 | the `i`th turn of the loop gives option `i` exactly what `Labelled` gives it with the hotkeys of the earlier options taken: the same elements, its hotkey mapped to `i`, or no hotkey for `i` |
| Chapter.LabelsFollowGetHotkey | myning/tui/chapter/__init__.py:189-235 | each enabled option other than the last gets exactly what `Assign` gives it with the hotkeys of the earlier options taken, so its hotkey is `get_hotkey`'s first eligible letter and is underlined there, or it gets none when no letter is eligible; every other option keeps its elements and gets no hotkey |
| Chapter.LabelsAndHotkeys | myning/tui/chapter/__init__.py:189-225 | one list of elements per option; the contents are stated by `LabelsFollowGetHotkey`, `HotkeysDistinct` and `LabelsAndHotkeysShape` |
| Chapter.Relabelled | myning/tui/chapter/__init__.py:194-200 | the options after the call: the last has hotkeys off, and each label is the list of its new elements |
| Chapter.FindSearchable | myning/tui/chapter/__init__.py:207-215 | the search loop returns the first searchable element |
| Chapter.LabelOption | myning/tui/chapter/__init__.py:201-222 | one turn of the loop over options has exactly the effect of `Labelled` |
| Chapter.GetLabelsAndHotkeys | myning/tui/chapter/__init__.py:189-225 | the in-place loop returns `LabelsAndHotkeys`; every option ends with its label as a list and the last has hotkeys off |
| Chapter.Reserved | myning/tui/chapter/__init__.py:136-139 | a key is reserved exactly when it is one of {j, k, q} or an alias key of the mounted handler |
| Chapter.Aliases | myning/tui/chapter/__init__.py:49-54 | the aliases are the base aliases overridden by the handler's |
| Chapter.HotkeysAvoidAliases | myning/tui/chapter/__init__.py:132-149 | no assigned hotkey is an alias key, so the alias lookup in `on_key` never shadows a hotkey |
| Chapter.ChapterWidget.constructor | myning/tui/chapter/__init__.py:69-75 | a widget starts with no hotkeys, the base aliases and the base reserved keys |
| Chapter.ChapterWidget.SyncHotkeyOverrides | myning/tui/chapter/__init__.py:132-139 | aliases and reserved keys are rebuilt from the base ones plus the mounted handler's |
| Chapter.ChapterWidget.PickHotkeys | myning/tui/chapter/__init__.py:148-162 | `pick` syncs the overrides, then keeps the hotkeys assigned with the new reserved keys |
| Fib.ShiftedFibonacci | myning/utilities/fib.py:1-14 | from the third term on, the sequence is the usual Fibonacci sequence shifted by one place |
| Fib.FibIncreasing | myning/utilities/fib.py:1-14 | the terms strictly increase |
| Fib.FibSumClosedForm | myning/utilities/fib.py:17-28 | from two terms on, the sum of the first n terms is the (n+2)th term less 4 |
| Fib.Fibonacci | myning/utilities/fib.py:1-14 | the seeds are 0, 1, 3 and 5, then the recurrence gives term n; for n ≤ 0 the result is 5 |
| Fib.FibonacciSum | myning/utilities/fib.py:17-28 | the result is the sum of the first n terms, and 0 for n ≤ 0 |

## Left out

- `myning/objects/object.py` is an abstract interface. It is modelled as `Objects.Entity`, the pair of `file_name` and `to_dict()` that the store uses.
  - `from_dict` and `type()` belong to each entity; `Games` gives them for `Game`.
- JSON text formatting is left out: `indent=2` versus compact output. On the legacy backend `save` writes the codec's dump, not the indented text.
- Floating-point JSON numbers and the float statistics are left out; `JValue` has integers only.
- Errors that the codec's `parse` does not describe are left out: `OSError` and `UnicodeDecodeError` on reading, and `sqlite3` errors other than a missing table or an impossible database file are not modelled.
- Only the directories `.data`, `.data/items` and `.data/entities` exist in the model. Path normalisation, symbolic links, and names containing `..` are not modelled.
- `glob` order is a parameter, because it depends on the filesystem. So is whatever `glob("*.json")` would match that is not a regular file.
- `backup_game` copies to `.data.bak`; the copy is the `backup` snapshot, and `shutil` is not modelled.
- `Player`, `Stats.initialize`, and `myning/objects/stats.py` are not part of this model.
  - `record_boss_defeat` follows what tests/chapters/test_bestiary.py asserts: it appends a name only when it is absent.
  - The stats' other fields are kept as opaque JSON.
- `Singleton._create` is each class's own constructor, because a metaclass cannot be expressed; `Games.Game.Create` is the one for `Game`.
- The call arguments of `Singleton.__call__` are not modelled; they are ignored by the source.
- A registry entry is keyed by the class's name, so two classes with the same name would share one entry in the model. An instance of `None` cannot be registered, so the case where `_instance = None` makes the getter and the call return `None` is not modelled.
- `ChapterWidget` user interface behaviour is left out: `compose`, `on_mount`, the `on_key` dispatch, `select`, the option table, and the dashboard.
  - Textual widget lookup is reduced to the optional alias map of the first key handler.
- Rich `Text` styling is reduced to a list of underlined positions. `Text.from_markup` is a given function on plain text, and markup errors are not modelled.
- The aliasing between `labels` and `option.label` in `get_labels_and_hotkeys` is not modelled: the result and the options are stated separately and hold the same values. The in-place `stylize` of a `Text` shared with other labels is not modelled either.
- `myning/utilities/formatter.py`, `myning/utilities/boss_art.py`, `myning/config.py` and the chapter menus are not part of this model.
- The `print` output of both migrations is not modelled.
- Connection, commit and close plumbing of `sqlite3` is not modelled.

## Findings

| source | as written | input that shows it | evidently intended | confidence | as-written member | corrected member |
|---|---|---|---|---|---|---|
| myning/utilities/file_manager.py:100-101 | `load` answers an empty legacy file with `type()`; for `Game` (myning/objects/game.py lines 16-19) that is the singleton call, which raises `RuntimeError` while `Game.initialize` runs, because nothing is registered yet | `.data/game.json` exists and is empty, and there is no database file | the default instance, that is `cls._create()` | not executed | Games.PlanAsWritten, Games.Game.InitializeAsWritten, Games.EmptyGameFileBreaksInitialize | Games.Plan, Games.Game.Initialize |
| myning/migrations/sqlite_migration.py:20-28 | `sqlite3.connect(".data/myning.db")` runs before the check that `.data` is a directory; without `.data` the connect raises `OperationalError`, so the "nothing to migrate" branch cannot be reached | no `.data` directory at all (a fresh installation) | return quietly with nothing changed | not executed | SqliteMigration.MigrateDiskAsWritten, SqliteMigration.RunAsWritten, SqliteMigration.FreshInstallFails | SqliteMigration.MigrateDisk, SqliteMigration.Run |
