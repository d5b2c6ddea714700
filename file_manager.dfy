/**
 * The key-value store of myning/utilities/file_manager.py.
 *
 * The store has two backends: the `save_data` table of `.data/myning.db`, and the
 * legacy layout of one JSON file per record under `.data`. Which one an operation
 * uses is decided afresh, at the start of every operation, by whether the database
 * file exists (`_db_exists`); nothing remembers the choice.
 *
 * The state of the disk is a `Disk` value; each operation is first given as a
 * function from the old disk to the new one (`SaveDisk`, `LoadDisk`, ...), and the
 * class `FileManager` holds the same state in fields, with one method per operation
 * proved to have exactly that effect.
 */
module FileManager {
  import opened Wrappers
  import opened Json
  import opened Objects
  import opened Paths

  /** Keys that survive `reset_game` on the database backend. */
  const PROTECTED_KEYS: set<string> := {"stats", "settings"}

  /** Top-level legacy files that survive `reset_game` on the legacy backend. */
  const NEVER_DELETE: seq<string> := ["stats.json", "settings.json"]

  datatype StoreError =
    | NoSuchTable                  // sqlite3.OperationalError: the file exists but has no save_data table
    | NoSuchDirectory(path: string) // FileNotFoundError from open(), iterdir() or copytree()
    | Corrupt(key: string)          // json.JSONDecodeError: the record is not valid JSON
    | CannotOpenDatabase            // sqlite3.OperationalError: the database file cannot be created

  datatype Outcome = Done | Failed(error: StoreError)

  /** What `load` finds before the entity type's `from_dict` or `type()` is applied. */
  datatype Loaded =
    | Absent                  // no record: `load` returns None
    | DefaultInstance         // an empty legacy file: `load` returns `type()`
    | Payload(dict: JValue)   // a record that parsed: `load` returns `type.from_dict(dict)`

  /**
   * The storage root. `files` maps full paths (".data/stats.json",
   * ".data/items/abc.json") to their text; `dirs` holds the directories that
   * exist; `dbExists` says whether `.data/myning.db` is a file, `hasTable`
   * whether it holds the `save_data` table, and `db` is that table's rows.
   */
  datatype Disk = Disk(
    dirs: set<string>,
    files: map<string, string>,
    dbExists: bool,
    hasTable: bool,
    db: map<string, string>)

  datatype Step = Step(disk: Disk, outcome: Outcome)

  /** The shapes a storage root can have. */
  predicate WellFormed(d: Disk) {
    && d.dirs <= {DATA, ITEMS_DIR, ENTITIES_DIR}
    && (ITEMS_DIR in d.dirs || ENTITIES_DIR in d.dirs || d.dbExists ==> DATA in d.dirs)
    && (!d.dbExists ==> !d.hasTable && d.db == map[])
    && DB_PATH !in d.files
    && (forall p :: p in d.files ==> Parent(p) in d.dirs)
  }

  /** The store with no `.data` directory at all: a fresh installation. */
  const EMPTY_DISK := Disk({}, map[], false, false, map[])

  /** `setup()`: create `.data`, then the table or the legacy subdirectories, each only if missing. */
  function SetupDisk(d: Disk): (r: Disk)
    ensures WellFormed(d) ==> WellFormed(r)
    ensures r.files == d.files && r.db == d.db && r.dbExists == d.dbExists
    ensures d.dirs <= r.dirs && DATA in r.dirs
    ensures r.dbExists ==> r.hasTable && r.dirs == d.dirs + {DATA}
    ensures !r.dbExists ==> {ITEMS_DIR, ENTITIES_DIR} <= r.dirs
  {
    var d1 := d.(dirs := d.dirs + {DATA});
    if d1.dbExists then d1.(hasTable := true)
    else d1.(dirs := d1.dirs + {ITEMS_DIR, ENTITIES_DIR})
  }

  lemma SetupIdempotent(d: Disk)
    ensures SetupDisk(SetupDisk(d)) == SetupDisk(d)
  {
  }

  /** `save(item)`: write `json.dumps(item.to_dict())` under `item.file_name`. */
  function SaveDisk(d: Disk, c: Codec, item: Entity): (r: Step)
    ensures WellFormed(d) ==> WellFormed(r.disk)
    ensures r.disk.dbExists == d.dbExists && r.disk.dirs == d.dirs
    ensures r.outcome.Failed? ==> r.disk == d
    ensures d.dbExists ==> r.disk.files == d.files
    ensures !d.dbExists ==> r.disk.db == d.db
    ensures d.dbExists ==> (r.outcome.Done? <==> d.hasTable)
    ensures !d.dbExists ==> (r.outcome.Done? <==> Parent(LegacyPath(item.fileName)) in d.dirs)
  {
    var key := item.fileName;
    var data := c.dump(item.dict);
    if d.dbExists then
      if !d.hasTable then Step(d, Failed(NoSuchTable))
      else Step(d.(db := d.db[key := data]), Done)
    else
      var path := LegacyPath(key);
      LegacyPathIsNotDb(key);
      if Parent(path) !in d.dirs then Step(d, Failed(NoSuchDirectory(Parent(path))))
      else Step(d.(files := d.files[path := data]), Done)
  }

  /** `load(type, file_name, subfolder)`, up to the entity type's own `from_dict` or `type()`. */
  function LoadDisk(d: Disk, c: Codec, fileName: string, subfolder: string): (r: Result<Loaded, StoreError>)
    ensures r == Ok(DefaultInstance) ==>
              && !d.dbExists && LegacyPath(FullKey(subfolder, fileName)) in d.files
              && d.files[LegacyPath(FullKey(subfolder, fileName))] == ""
    ensures r.Ok? && r.value.Payload? ==>
              if d.dbExists
              then FullKey(subfolder, fileName) in d.db
                   && c.parse(d.db[FullKey(subfolder, fileName)]) == Some(r.value.dict)
              else LegacyPath(FullKey(subfolder, fileName)) in d.files
                   && c.parse(d.files[LegacyPath(FullKey(subfolder, fileName))]) == Some(r.value.dict)
    ensures r == Ok(Absent) <==>
              if d.dbExists
              then d.hasTable && FullKey(subfolder, fileName) !in d.db
              else LegacyPath(FullKey(subfolder, fileName)) !in d.files
    // the database backend, case by case
    ensures d.dbExists && !d.hasTable ==> r == Err(NoSuchTable)
    ensures var key := FullKey(subfolder, fileName);
            d.dbExists && d.hasTable && key in d.db ==>
              && (c.parse(d.db[key]).Some? ==> r == Ok(Payload(c.parse(d.db[key]).value)))
              && (c.parse(d.db[key]).None? ==> r == Err(Corrupt(key)))
    // the legacy backend, case by case: an empty file is the default instance
    ensures var path := LegacyPath(FullKey(subfolder, fileName));
            !d.dbExists && path in d.files && d.files[path] == "" ==> r == Ok(DefaultInstance)
    ensures var key := FullKey(subfolder, fileName);
            var path := LegacyPath(key);
            !d.dbExists && path in d.files && d.files[path] != "" ==>
              && (c.parse(d.files[path]).Some? ==> r == Ok(Payload(c.parse(d.files[path]).value)))
              && (c.parse(d.files[path]).None? ==> r == Err(Corrupt(key)))
    // errors come only from a missing table or a record that does not parse
    ensures r.Err? ==> r.error == NoSuchTable || r.error == Corrupt(FullKey(subfolder, fileName))
  {
    var key := FullKey(subfolder, fileName);
    if d.dbExists then
      if !d.hasTable then Err(NoSuchTable)
      else if key !in d.db then Ok(Absent)
      else match c.parse(d.db[key])
        case Some(p) => Ok(Payload(p))
        case None => Err(Corrupt(key))
    else
      var path := LegacyPath(key);
      if path !in d.files then Ok(Absent)
      else if d.files[path] == "" then Ok(DefaultInstance)
      else match c.parse(d.files[path])
        case Some(p) => Ok(Payload(p))
        case None => Err(Corrupt(key))
  }

  /** `delete(item)`: remove the record of `item.file_name` when there is one. */
  function DeleteDisk(d: Disk, item: Entity): (r: Step)
    ensures WellFormed(d) ==> WellFormed(r.disk)
    ensures r.disk.dbExists == d.dbExists && r.disk.dirs == d.dirs
    ensures d.dbExists ==> r.disk.files == d.files && (r.outcome.Done? <==> d.hasTable)
    ensures d.dbExists && d.hasTable ==> r.disk.db == d.db - {item.fileName}
    ensures !d.dbExists ==> r.outcome.Done? && r.disk.files == d.files - {LegacyPath(item.fileName)}
    ensures r.outcome.Failed? ==> r.disk == d
  {
    var key := item.fileName;
    if d.dbExists then
      if !d.hasTable then Step(d, Failed(NoSuchTable))
      else Step(d.(db := d.db - {key}), Done)
    else
      var path := LegacyPath(key);
      if path in d.files then Step(d.(files := d.files - {path}), Done)
      else Step(d, Done)
  }

  /** The files that `os.remove` deletes while iterating over directory `dir`. */
  function FilesIn(files: map<string, string>, dir: string): set<string> {
    set p | p in files && Parent(p) == dir
  }

  /** Top-level files that are not in `NEVER_DELETE`. */
  function DeletableTopLevel(files: map<string, string>): set<string> {
    set p | p in files && Parent(p) == DATA && Name(p) !in NEVER_DELETE
  }

  function Without(files: map<string, string>, doomed: set<string>): (r: map<string, string>)
    ensures r.Keys == files.Keys - doomed
    ensures forall p :: p in r ==> r[p] == files[p]
  {
    map p | p in files && p !in doomed :: files[p]
  }

  /** Removing one more pending file. */
  lemma WithoutOneMore(files: map<string, string>, doomed: set<string>, pending: set<string>, p: string)
    requires p in pending && p in doomed
    ensures Without(files, doomed - pending) - {p} == Without(files, doomed - (pending - {p}))
  {
  }

  /** Removing files keeps a storage root well formed. */
  lemma WithoutKeepsWellFormed(d: Disk, doomed: set<string>)
    requires WellFormed(d)
    ensures WellFormed(d.(files := Without(d.files, doomed)))
  {
  }

  /**
   * `reset_game()`. On the database backend every row except the protected ones
   * is deleted. On the legacy backend `items/` is emptied, then `entities/`, then
   * every top-level file not in `NEVER_DELETE` is removed; a missing
   * subdirectory stops the reset where it is.
   */
  function ResetDisk(d: Disk): (r: Step)
    ensures WellFormed(d) ==> WellFormed(r.disk)
    ensures r.disk.dirs == d.dirs && r.disk.dbExists == d.dbExists && r.disk.hasTable == d.hasTable
    ensures d.dbExists ==> r.disk.files == d.files
  {
    if d.dbExists then
      if !d.hasTable then Step(d, Failed(NoSuchTable))
      else Step(d.(db := map k | k in d.db && k in PROTECTED_KEYS :: d.db[k]), Done)
    else if ITEMS_DIR !in d.dirs then
      Step(d, Failed(NoSuchDirectory(ITEMS_DIR)))
    else
      var d1 := d.(files := Without(d.files, FilesIn(d.files, ITEMS_DIR)));
      if ENTITIES_DIR !in d.dirs then
        Step(d1, Failed(NoSuchDirectory(ENTITIES_DIR)))
      else
        var d2 := d1.(files := Without(d1.files, FilesIn(d1.files, ENTITIES_DIR)));
        Step(d2.(files := Without(d2.files, DeletableTopLevel(d2.files))), Done)
  }

  /** `backup_game()`: the backup becomes a copy of `.data`; an earlier backup is removed first. */
  function BackupOf(d: Disk): (r: (Option<Disk>, Outcome))
    ensures r.1.Done? <==> DATA in d.dirs
    ensures r.1.Done? ==> r.0 == Some(d)
    ensures r.1.Failed? ==> r.0 == None
  {
    if DATA !in d.dirs then (None, Failed(NoSuchDirectory(DATA))) else (Some(d), Done)
  }

  /** `multi_save(*items)`: `save` on each item in order; an error ends the loop. */
  function SaveAllDisk(d: Disk, c: Codec, items: seq<Entity>): (r: Step)
    ensures WellFormed(d) ==> WellFormed(r.disk)
    ensures r.disk.dbExists == d.dbExists && r.disk.dirs == d.dirs
    decreases |items|
  {
    if items == [] then Step(d, Done)
    else
      var s := SaveDisk(d, c, items[0]);
      if s.outcome.Failed? then s else SaveAllDisk(s.disk, c, items[1..])
  }

  /** `multi_delete(*items)`: `delete` on each item in order; an error ends the loop. */
  function DeleteAllDisk(d: Disk, items: seq<Entity>): (r: Step)
    ensures WellFormed(d) ==> WellFormed(r.disk)
    ensures r.disk.dbExists == d.dbExists && r.disk.dirs == d.dirs
    decreases |items|
  {
    if items == [] then Step(d, Done)
    else
      var s := DeleteDisk(d, items[0]);
      if s.outcome.Failed? then s else DeleteAllDisk(s.disk, items[1..])
  }

  // ---------------------------------------------------------------------------
  // Properties of the store
  // ---------------------------------------------------------------------------

  /**
   * A saved entity loads back, on either backend, provided its `file_name`
   * already carries the namespace that `load` is given (`save` uses `file_name`
   * as the key, `load` builds `subfolder/file_name`).
   */
  lemma SaveThenLoad(d: Disk, c: Codec, item: Entity, subfolder: string, fileName: string)
    requires Lawful(c)
    requires item.fileName == FullKey(subfolder, fileName)
    requires SaveDisk(d, c, item).outcome == Done
    ensures LoadDisk(SaveDisk(d, c, item).disk, c, fileName, subfolder) == Ok(Payload(item.dict))
  {
    assert c.dump(item.dict) != "" && c.parse(c.dump(item.dict)) == Some(item.dict);
  }

  /** Saving one key leaves every other key's record as it was. */
  lemma SaveKeepsOthers(d: Disk, c: Codec, item: Entity, subfolder: string, fileName: string)
    requires FullKey(subfolder, fileName) != item.fileName
    ensures LoadDisk(SaveDisk(d, c, item).disk, c, fileName, subfolder) == LoadDisk(d, c, fileName, subfolder)
  {
    var k := FullKey(subfolder, fileName);
    if LegacyPath(k) == LegacyPath(item.fileName) {
      LegacyPathInjective(k, item.fileName);
    }
  }

  /** After `delete(item)` succeeds, loading its key finds nothing. */
  lemma DeleteThenLoad(d: Disk, c: Codec, item: Entity, subfolder: string, fileName: string)
    requires item.fileName == FullKey(subfolder, fileName)
    requires DeleteDisk(d, item).outcome == Done
    ensures LoadDisk(DeleteDisk(d, item).disk, c, fileName, subfolder) == Ok(Absent)
  {
  }

  /** Deleting a key that has no record changes nothing and succeeds whenever the backend is usable. */
  lemma DeleteAbsent(d: Disk, c: Codec, item: Entity)
    requires LoadDisk(d, c, item.fileName, "") == Ok(Absent)
    ensures DeleteDisk(d, item) == Step(d, Done)
  {
    if d.dbExists {
      assert d.db - {item.fileName} == d.db;
    }
  }

  /** On the database backend the legacy files are never read: `load` depends on the table only. */
  lemma LoadIgnoresLegacyFiles(d: Disk, c: Codec, files: map<string, string>, fileName: string, subfolder: string)
    requires d.dbExists
    ensures LoadDisk(d.(files := files), c, fileName, subfolder) == LoadDisk(d, c, fileName, subfolder)
  {
  }

  /** `reset_game` on the database backend keeps exactly the rows keyed "stats" and "settings". */
  lemma ResetKeepsProtectedRows(d: Disk)
    requires d.dbExists && d.hasTable
    ensures ResetDisk(d).outcome == Done
    ensures ResetDisk(d).disk.db.Keys == d.db.Keys * PROTECTED_KEYS
    ensures forall k :: k in ResetDisk(d).disk.db ==> ResetDisk(d).disk.db[k] == d.db[k]
  {
  }

  /**
   * `reset_game` on the legacy backend, when both subdirectories exist, keeps
   * exactly the top-level `stats.json` and `settings.json` and the directories.
   */
  lemma {:induction false} ResetKeepsNeverDelete(d: Disk, p: string)
    requires WellFormed(d) && !d.dbExists
    requires ITEMS_DIR in d.dirs && ENTITIES_DIR in d.dirs
    ensures ResetDisk(d).outcome == Done && ResetDisk(d).disk.dirs == d.dirs
    ensures p in ResetDisk(d).disk.files <==>
              p in d.files && Parent(p) == DATA && Name(p) in NEVER_DELETE
    ensures p in ResetDisk(d).disk.files ==> ResetDisk(d).disk.files[p] == d.files[p]
  {
    if p in d.files && Parent(p) == DATA {
      assert Parent(p) != ITEMS_DIR && Parent(p) != ENTITIES_DIR;
    }
  }

  /** `multi_save` on the database backend: for each key, the last item saved under it wins. */
  lemma {:induction false} SaveAllLastWins(d: Disk, c: Codec, items: seq<Entity>, i: nat)
    requires d.dbExists && d.hasTable
    requires i < |items|
    requires forall j :: i < j < |items| ==> items[j].fileName != items[i].fileName
    ensures SaveAllDisk(d, c, items).outcome == Done
    ensures var db := SaveAllDisk(d, c, items).disk.db;
            items[i].fileName in db && db[items[i].fileName] == c.dump(items[i].dict)
    decreases |items|
  {
    var s := SaveDisk(d, c, items[0]);
    SaveAllSucceedsOnDb(s.disk, c, items[1..]);
    if i == 0 {
      SaveAllKeepsUntouched(s.disk, c, items[1..], items[0].fileName);
    } else {
      assert forall j :: i - 1 < j < |items| - 1 ==> items[1..][j].fileName != items[1..][i - 1].fileName by {
        forall j | i - 1 < j < |items| - 1 ensures items[1..][j].fileName != items[1..][i - 1].fileName {
          assert items[1..][j] == items[j + 1];
        }
      }
      SaveAllLastWins(s.disk, c, items[1..], i - 1);
    }
  }

  /** `multi_save` on the database backend leaves the rows of keys it does not save as they were. */
  lemma {:induction false} SaveAllKeepsUntouched(d: Disk, c: Codec, items: seq<Entity>, k: string)
    requires d.dbExists && d.hasTable
    requires forall j :: 0 <= j < |items| ==> items[j].fileName != k
    ensures var db := SaveAllDisk(d, c, items).disk.db;
            (k in db <==> k in d.db) && (k in d.db ==> db[k] == d.db[k])
    decreases |items|
  {
    if items != [] {
      var s := SaveDisk(d, c, items[0]);
      SaveAllKeepsUntouched(s.disk, c, items[1..], k);
    }
  }

  lemma {:induction false} SaveAllSucceedsOnDb(d: Disk, c: Codec, items: seq<Entity>)
    requires d.dbExists && d.hasTable
    ensures SaveAllDisk(d, c, items).outcome == Done
    ensures SaveAllDisk(d, c, items).disk.hasTable
    decreases |items|
  {
    if items != [] {
      SaveAllSucceedsOnDb(SaveDisk(d, c, items[0]).disk, c, items[1..]);
    }
  }

  /** `multi_delete` on the database backend removes exactly the rows of the items given. */
  lemma {:induction false} DeleteAllRemovesKeys(d: Disk, items: seq<Entity>)
    requires d.dbExists && d.hasTable
    ensures DeleteAllDisk(d, items).outcome == Done
    ensures DeleteAllDisk(d, items).disk.db == d.db - (set j | 0 <= j < |items| :: items[j].fileName)
    decreases |items|
  {
    if items == [] {
      assert d.db - {} == d.db;
    } else {
      var s := DeleteDisk(d, items[0]);
      DeleteAllRemovesKeys(s.disk, items[1..]);
      var rest := set j | 0 <= j < |items[1..]| :: items[1..][j].fileName;
      var all := set j | 0 <= j < |items| :: items[j].fileName;
      assert all == {items[0].fileName} + rest by {
        forall k | k in all ensures k in {items[0].fileName} + rest {
          var j :| 0 <= j < |items| && items[j].fileName == k;
          if j > 0 { assert items[1..][j - 1] == items[j]; }
        }
        forall k | k in rest ensures k in all {
          var j :| 0 <= j < |items[1..]| && items[1..][j].fileName == k;
          assert items[j + 1] == items[1..][j];
        }
      }
    }
  }

  // ---------------------------------------------------------------------------
  // The store as an object with mutable state
  // ---------------------------------------------------------------------------

  class FileManager {
    /** The `json` module. */
    const json: Codec

    var dirs: set<string>
    var files: map<string, string>
    var dbExists: bool
    var hasTable: bool
    var db: map<string, string>
    /** `.data.bak`, when it exists. */
    var backup: Option<Disk>

    function Root(): Disk
      reads this
    {
      Disk(dirs, files, dbExists, hasTable, db)
    }

    predicate Valid()
      reads this
    {
      WellFormed(Root()) && (backup.Some? ==> WellFormed(backup.value))
    }

    constructor (json: Codec, root: Disk, backup: Option<Disk>)
      requires WellFormed(root) && (backup.Some? ==> WellFormed(backup.value))
      ensures Valid() && this.json == json && Root() == root && this.backup == backup
    {
      this.json := json;
      dirs, files, dbExists, hasTable, db := root.dirs, root.files, root.dbExists, root.hasTable, root.db;
      this.backup := backup;
    }

    method Setup()
      requires Valid()
      modifies this
      ensures Valid() && Root() == SetupDisk(old(Root())) && backup == old(backup)
    {
      if DATA !in dirs {
        dirs := dirs + {DATA};
      }
      if dbExists {
        hasTable := true;
      } else {
        if ITEMS_DIR !in dirs {
          dirs := dirs + {ITEMS_DIR};
        }
        if ENTITIES_DIR !in dirs {
          dirs := dirs + {ENTITIES_DIR};
        }
      }
    }

    method Save(item: Entity) returns (o: Outcome)
      requires Valid()
      modifies this
      ensures Valid() && backup == old(backup)
      ensures Step(Root(), o) == SaveDisk(old(Root()), json, item)
    {
      var key := item.fileName;
      var data := json.dump(item.dict);
      if dbExists {
        if !hasTable {
          return Failed(NoSuchTable);
        }
        db := db[key := data];
      } else {
        var path := LegacyPath(key);
        if Parent(path) !in dirs {
          return Failed(NoSuchDirectory(Parent(path)));
        }
        LegacyPathIsNotDb(key);
        files := files[path := data];
      }
      o := Done;
    }

    method MultiSave(items: seq<Entity>) returns (o: Outcome)
      requires Valid()
      modifies this
      ensures Valid() && backup == old(backup)
      ensures Step(Root(), o) == SaveAllDisk(old(Root()), json, items)
    {
      var i := 0;
      while i < |items|
        invariant 0 <= i <= |items|
        invariant Valid() && backup == old(backup)
        invariant SaveAllDisk(Root(), json, items[i..]) == SaveAllDisk(old(Root()), json, items)
      {
        assert items[i..][1..] == items[i + 1..];
        o := Save(items[i]);
        if o.Failed? {
          return;
        }
        i := i + 1;
      }
      o := Done;
    }

    method Load(fileName: string, subfolder: string) returns (r: Result<Loaded, StoreError>)
      ensures r == LoadDisk(Root(), json, fileName, subfolder)
    {
      var key := if subfolder != "" then subfolder + "/" + fileName else fileName;
      if dbExists {
        if !hasTable {
          return Err(NoSuchTable);
        }
        if key !in db {
          return Ok(Absent);
        }
        var row := db[key];
        match json.parse(row) {
          case Some(p) => r := Ok(Payload(p));
          case None => r := Err(Corrupt(key));
        }
      } else {
        var path := LegacyPath(key);
        if path !in files {
          return Ok(Absent);
        }
        if files[path] == "" {
          return Ok(DefaultInstance);
        }
        match json.parse(files[path]) {
          case Some(p) => r := Ok(Payload(p));
          case None => r := Err(Corrupt(key));
        }
      }
    }

    method Delete(item: Entity) returns (o: Outcome)
      requires Valid()
      modifies this
      ensures Valid() && backup == old(backup)
      ensures Step(Root(), o) == DeleteDisk(old(Root()), item)
    {
      var key := item.fileName;
      if dbExists {
        if !hasTable {
          return Failed(NoSuchTable);
        }
        db := db - {key};
      } else {
        var path := LegacyPath(key);
        if path in files {
          files := files - {path};
        }
      }
      o := Done;
    }

    method MultiDelete(items: seq<Entity>) returns (o: Outcome)
      requires Valid()
      modifies this
      ensures Valid() && backup == old(backup)
      ensures Step(Root(), o) == DeleteAllDisk(old(Root()), items)
    {
      var i := 0;
      while i < |items|
        invariant 0 <= i <= |items|
        invariant Valid() && backup == old(backup)
        invariant DeleteAllDisk(Root(), items[i..]) == DeleteAllDisk(old(Root()), items)
      {
        assert items[i..][1..] == items[i + 1..];
        o := Delete(items[i]);
        if o.Failed? {
          return;
        }
        i := i + 1;
      }
      o := Done;
    }

    /** `os.remove` on each file of `doomed`, in any order. */
    method RemoveFiles(doomed: set<string>)
      requires Valid()
      modifies this
      ensures Valid() && backup == old(backup)
      ensures Root() == old(Root()).(files := Without(old(files), doomed))
    {
      var pending := set p | p in files && p in doomed;
      assert files == Without(old(files), doomed - pending);
      while pending != {}
        invariant pending <= doomed
        invariant files == Without(old(files), doomed - pending)
        invariant Root() == old(Root()).(files := files) && backup == old(backup)
        decreases pending
      {
        var p :| p in pending;
        WithoutOneMore(old(files), doomed, pending, p);
        files := files - {p};
        pending := pending - {p};
      }
      WithoutKeepsWellFormed(old(Root()), doomed);
    }

    method ResetGame() returns (o: Outcome)
      requires Valid()
      modifies this
      ensures Valid() && backup == old(backup)
      ensures Step(Root(), o) == ResetDisk(old(Root()))
    {
      if dbExists {
        if !hasTable {
          return Failed(NoSuchTable);
        }
        db := map k | k in db && k in PROTECTED_KEYS :: db[k];
        return Done;
      }
      if ITEMS_DIR !in dirs {
        return Failed(NoSuchDirectory(ITEMS_DIR));
      }
      RemoveFiles(FilesIn(files, ITEMS_DIR));
      if ENTITIES_DIR !in dirs {
        return Failed(NoSuchDirectory(ENTITIES_DIR));
      }
      RemoveFiles(FilesIn(files, ENTITIES_DIR));
      RemoveFiles(DeletableTopLevel(files));
      o := Done;
    }

    method BackupGame() returns (o: Outcome)
      requires Valid()
      modifies this
      ensures Valid() && Root() == old(Root())
      ensures (backup, o) == BackupOf(Root())
    {
      backup := None;
      if DATA !in dirs {
        return Failed(NoSuchDirectory(DATA));
      }
      backup := Some(Root());
      o := Done;
    }
  }
}
