/**
 * Migration 11 of myning/migrations/sqlite_migration.py: import every legacy JSON
 * file into the `save_data` table of a freshly created `.data/myning.db`.
 *
 * Any earlier database file is deleted first, so the result is built from the
 * legacy files alone. Top-level `*.json` files are stored under their stem,
 * files of `items/` and `entities/` under `items/<stem>` and `entities/<stem>`,
 * with their text copied unchanged; a file that is not valid JSON is skipped.
 * The legacy files are only read.
 *
 * The order in which `glob` yields the files is not something the model can
 * know, so each directory's listing is a parameter; when two files give the
 * same key (possible only through pathlib's stem of a file named ".json"),
 * the later one in the listing wins, as with `INSERT OR REPLACE`.
 */
module SqliteMigration {
  import opened Wrappers
  import opened Json
  import opened Paths
  import opened FileManager

  /** One file to import: the key it is stored under and its path. */
  datatype Entry = Entry(key: string, path: string)

  /** `dir.glob("*.json")`: every matching file of `dir`, each exactly once, in some order. */
  ghost predicate IsListing(files: map<string, string>, dir: string, listing: seq<string>) {
    && (forall i, j :: 0 <= i < j < |listing| ==> listing[i] != listing[j])
    && (forall p :: p in listing <==> p in files && Parent(p) == dir && IsJsonName(Name(p)))
  }

  /** The entries of one directory's listing, keyed `prefix + stem`. */
  function Entries(prefix: string, listing: seq<string>): (es: seq<Entry>)
    ensures |es| == |listing|
    ensures forall i :: 0 <= i < |es| ==> es[i] == Entry(prefix + Stem(Name(listing[i])), listing[i])
  {
    seq(|listing|, i requires 0 <= i < |listing| => Entry(prefix + Stem(Name(listing[i])), listing[i]))
  }

  /** The file can be read and `json.loads` accepts its text. */
  predicate Imports(c: Codec, files: map<string, string>, e: Entry) {
    e.path in files && Parses(c, files[e.path])
  }

  /** The `for` loop over the entries: an upsert of the raw text of each file that parses. */
  function Import(c: Codec, files: map<string, string>, es: seq<Entry>, table: map<string, string>): map<string, string>
    decreases |es|
  {
    if es == [] then table
    else
      var table' := if Imports(c, files, es[0]) then table[es[0].key := files[es[0].path]] else table;
      Import(c, files, es[1..], table')
  }

  /** All files the migration visits, in order; a missing subdirectory is skipped. */
  function Plan(d: Disk, top: seq<string>, items: seq<string>, entities: seq<string>): seq<Entry> {
    Entries("", top)
      + (if ITEMS_DIR in d.dirs then Entries("items/", items) else [])
      + (if ENTITIES_DIR in d.dirs then Entries("entities/", entities) else [])
  }

  /** The table that the migration commits. It does not depend on the old database. */
  function MigratedTable(c: Codec, d: Disk, top: seq<string>, items: seq<string>, entities: seq<string>): map<string, string> {
    Import(c, d.files, Plan(d, top, items, entities), map[])
  }

  /**
   * `run()` as written: the old database file is unlinked and `sqlite3.connect`
   * is called before `.data` is checked, so without `.data` the connection
   * cannot be opened and the migration raises; the branch meant for a fresh
   * installation is never reached.
   */
  function MigrateDiskAsWritten(c: Codec, d: Disk, top: seq<string>, items: seq<string>, entities: seq<string>): (r: Step)
    ensures r.disk.files == d.files && r.disk.dirs == d.dirs
    ensures DATA !in d.dirs ==> r.outcome == Failed(CannotOpenDatabase) && !r.disk.dbExists
  {
    var unlinked := d.(dbExists := false, hasTable := false, db := map[]);
    if DATA !in d.dirs then Step(unlinked, Failed(CannotOpenDatabase))
    else Step(unlinked.(dbExists := true, hasTable := true, db := MigratedTable(c, d, top, items, entities)), Done)
  }

  /**
   * `run()` with the directory check first: a fresh installation has nothing to
   * migrate and the migration returns quietly; otherwise it is the same as written.
   */
  function MigrateDisk(c: Codec, d: Disk, top: seq<string>, items: seq<string>, entities: seq<string>): (r: Step)
    ensures WellFormed(d) ==> WellFormed(r.disk)
    ensures r.outcome == Done
    ensures r.disk.files == d.files && r.disk.dirs == d.dirs
    ensures DATA !in d.dirs ==> r.disk == d
    ensures DATA in d.dirs ==>
              && r.disk.dbExists && r.disk.hasTable
              && r.disk.db == MigratedTable(c, d, top, items, entities)
  {
    if DATA !in d.dirs then Step(d, Done)
    else Step(d.(dbExists := true, hasTable := true, db := MigratedTable(c, d, top, items, entities)), Done)
  }

  // ---------------------------------------------------------------------------
  // Properties of the import loop
  // ---------------------------------------------------------------------------

  lemma {:induction false} ImportAppend(c: Codec, files: map<string, string>, a: seq<Entry>, b: seq<Entry>, table: map<string, string>)
    ensures Import(c, files, a + b, table) == Import(c, files, b, Import(c, files, a, table))
    decreases |a|
  {
    if a == [] {
      assert a + b == b;
    } else {
      assert (a + b)[1..] == a[1..] + b;
      var table' := if Imports(c, files, a[0]) then table[a[0].key := files[a[0].path]] else table;
      ImportAppend(c, files, a[1..], b, table');
    }
  }

  /** A key ends up in the table exactly when it was there already or some entry that parses carries it. */
  lemma {:induction false} ImportKeys(c: Codec, files: map<string, string>, es: seq<Entry>, table: map<string, string>, k: string)
    ensures k in Import(c, files, es, table) <==>
              k in table || exists i :: 0 <= i < |es| && es[i].key == k && Imports(c, files, es[i])
    decreases |es|
  {
    if es != [] {
      var table' := if Imports(c, files, es[0]) then table[es[0].key := files[es[0].path]] else table;
      ImportKeys(c, files, es[1..], table', k);
      if exists i :: 0 <= i < |es[1..]| && es[1..][i].key == k && Imports(c, files, es[1..][i]) {
        var i :| 0 <= i < |es[1..]| && es[1..][i].key == k && Imports(c, files, es[1..][i]);
        assert es[i + 1] == es[1..][i];
      }
      if exists i :: 0 <= i < |es| && es[i].key == k && Imports(c, files, es[i]) {
        var i :| 0 <= i < |es| && es[i].key == k && Imports(c, files, es[i]);
        if i > 0 {
          assert es[1..][i - 1] == es[i];
        }
      }
    }
  }

  /** The row of a key is the raw text of the last entry with that key that parses. */
  lemma {:induction false} ImportLastWins(c: Codec, files: map<string, string>, es: seq<Entry>, table: map<string, string>, i: nat)
    requires i < |es| && Imports(c, files, es[i])
    requires forall j :: i < j < |es| && es[j].key == es[i].key ==> !Imports(c, files, es[j])
    ensures es[i].key in Import(c, files, es, table)
    ensures Import(c, files, es, table)[es[i].key] == files[es[i].path]
    decreases |es|
  {
    var table' := if Imports(c, files, es[0]) then table[es[0].key := files[es[0].path]] else table;
    if i == 0 {
      ImportUntouched(c, files, es[1..], table', es[0].key);
    } else {
      forall j | i - 1 < j < |es| - 1 && es[1..][j].key == es[1..][i - 1].key
        ensures !Imports(c, files, es[1..][j])
      {
        assert es[1..][j] == es[j + 1];
      }
      ImportLastWins(c, files, es[1..], table', i - 1);
    }
  }

  /** Entries that do not parse leave the table alone: a key no parsing entry carries keeps its row. */
  lemma {:induction false} ImportUntouched(c: Codec, files: map<string, string>, es: seq<Entry>, table: map<string, string>, k: string)
    requires forall j :: 0 <= j < |es| && es[j].key == k ==> !Imports(c, files, es[j])
    ensures k in Import(c, files, es, table) <==> k in table
    ensures k in table ==> Import(c, files, es, table)[k] == table[k]
    decreases |es|
  {
    if es != [] {
      var table' := if Imports(c, files, es[0]) then table[es[0].key := files[es[0].path]] else table;
      forall j | 0 <= j < |es| - 1 && es[1..][j].key == k ensures !Imports(c, files, es[1..][j]) {
        assert es[1..][j] == es[j + 1];
      }
      ImportUntouched(c, files, es[1..], table', k);
    }
  }

  // ---------------------------------------------------------------------------
  // Properties of the migration
  // ---------------------------------------------------------------------------

  /** A legacy file that the migration copies: a `*.json` file of `.data`, `items/` or `entities/` that parses. */
  predicate Migrates(c: Codec, d: Disk, p: string) {
    && p in d.files
    && Parent(p) in {DATA, ITEMS_DIR, ENTITIES_DIR}
    && IsJsonName(Name(p))
    && Parses(c, d.files[p])
  }

  /**
   * An empty legacy file, which `load` answers with the default instance, is
   * skipped by the migration: `json.loads` rejects it.
   */
  lemma EmptyFileNotMigrated(c: Codec, d: Disk, p: string)
    requires Lawful(c)
    requires p in d.files && d.files[p] == ""
    ensures !Migrates(c, d, p)
  {
  }

  /** The key a legacy file is stored under. */
  function KeyOf(p: string): string {
    if Parent(p) == DATA then Stem(Name(p))
    else if Parent(p) == ITEMS_DIR then "items/" + Stem(Name(p))
    else "entities/" + Stem(Name(p))
  }

  /** The listings the migration is given are the three directories' `*.json` files. */
  ghost predicate Listed(d: Disk, top: seq<string>, items: seq<string>, entities: seq<string>) {
    && IsListing(d.files, DATA, top)
    && IsListing(d.files, ITEMS_DIR, items)
    && IsListing(d.files, ENTITIES_DIR, entities)
  }

  /** The entries of one directory's listing are its `*.json` files, each under `prefix + stem`. */
  lemma ListingEntries(files: map<string, string>, dir: string, prefix: string, listing: seq<string>, e: Entry)
    requires IsListing(files, dir, listing)
    ensures e in Entries(prefix, listing) <==>
              && e.path in files && Parent(e.path) == dir && IsJsonName(Name(e.path))
              && e.key == prefix + Stem(Name(e.path))
  {
    var es := Entries(prefix, listing);
    if e in es {
      var i :| 0 <= i < |es| && es[i] == e;
      assert e.path == listing[i];
    }
    if e.path in files && Parent(e.path) == dir && IsJsonName(Name(e.path)) && e.key == prefix + Stem(Name(e.path)) {
      var i :| 0 <= i < |listing| && listing[i] == e.path;
      assert es[i] == e;
    }
  }

  /** The entries of the plan are the listed files, each under `KeyOf` of its path. */
  lemma PlanEntries(d: Disk, top: seq<string>, items: seq<string>, entities: seq<string>, e: Entry)
    requires WellFormed(d) && Listed(d, top, items, entities)
    ensures e in Plan(d, top, items, entities) <==>
              && e.path in d.files && e.key == KeyOf(e.path)
              && Parent(e.path) in {DATA, ITEMS_DIR, ENTITIES_DIR} && IsJsonName(Name(e.path))
  {
    ListingEntries(d.files, DATA, "", top, e);
    ListingEntries(d.files, ITEMS_DIR, "items/", items, e);
    ListingEntries(d.files, ENTITIES_DIR, "entities/", entities, e);
    assert "" + Stem(Name(e.path)) == Stem(Name(e.path));
  }

  /**
   * Completeness and nothing else: the table has a row for a key exactly when
   * some legacy file that parses is stored under that key.
   */
  lemma MigratedKeys(c: Codec, d: Disk, top: seq<string>, items: seq<string>, entities: seq<string>, k: string)
    requires WellFormed(d) && Listed(d, top, items, entities)
    ensures k in MigratedTable(c, d, top, items, entities) <==> exists p :: Migrates(c, d, p) && KeyOf(p) == k
  {
    var es := Plan(d, top, items, entities);
    ImportKeys(c, d.files, es, map[], k);
    if exists i :: 0 <= i < |es| && es[i].key == k && Imports(c, d.files, es[i]) {
      var i :| 0 <= i < |es| && es[i].key == k && Imports(c, d.files, es[i]);
      PlanEntries(d, top, items, entities, es[i]);
      assert Migrates(c, d, es[i].path);
    }
    if exists p :: Migrates(c, d, p) && KeyOf(p) == k {
      var p :| Migrates(c, d, p) && KeyOf(p) == k;
      PlanEntries(d, top, items, entities, Entry(k, p));
      var i :| 0 <= i < |es| && es[i] == Entry(k, p);
      assert Imports(c, d.files, es[i]);
    }
  }

  /** Top-level keys contain no '/'; those of `items/` and `entities/` start with their prefix. */
  lemma KeyShape(p: string)
    ensures '/' !in Stem(Name(p))
    ensures Parent(p) == DATA ==> '/' !in KeyOf(p)
    ensures Parent(p) != DATA && Parent(p) == ITEMS_DIR ==> '/' in KeyOf(p) && KeyOf(p)[0] == 'i'
    ensures Parent(p) != DATA && Parent(p) != ITEMS_DIR ==> '/' in KeyOf(p) && KeyOf(p)[0] == 'e'
  {
    var s := Stem(Name(p));
    if Parent(p) == DATA {
    } else if Parent(p) == ITEMS_DIR {
      assert KeyOf(p)[5] == '/';
    } else {
      assert KeyOf(p)[8] == '/';
    }
  }

  /**
   * Two different legacy files are stored under different keys, except through
   * the stem of a file named ".json": top-level keys contain no '/', and the
   * two subdirectories' keys have different prefixes.
   */
  lemma KeyOfInjective(p: string, q: string)
    requires Parent(p) in {DATA, ITEMS_DIR, ENTITIES_DIR} && IsJsonName(Name(p)) && Name(p) != ".json"
    requires Parent(q) in {DATA, ITEMS_DIR, ENTITIES_DIR} && IsJsonName(Name(q)) && Name(q) != ".json"
    requires KeyOf(p) == KeyOf(q)
    ensures p == q
  {
    var sp, sq := Stem(Name(p)), Stem(Name(q));
    KeyShape(p);
    KeyShape(q);
    assert Parent(p) == Parent(q);
    if Parent(p) == DATA {
      assert sp == sq;
    } else if Parent(p) == ITEMS_DIR {
      assert sp == KeyOf(p)[|"items/"|..] && sq == KeyOf(q)[|"items/"|..];
    } else {
      assert sp == KeyOf(p)[|"entities/"|..] && sq == KeyOf(q)[|"entities/"|..];
    }
    StemInjective(Name(p), Name(q));
    if '/' !in p { NoSlashNoParent(p); }
    if '/' !in q { NoSlashNoParent(q); }
    SplitJoins(p);
    SplitJoins(q);
  }

  /**
   * Byte-for-byte copy: a legacy file that parses, and whose key no other such
   * file shares, is stored with its text unchanged.
   */
  lemma MigratedText(c: Codec, d: Disk, top: seq<string>, items: seq<string>, entities: seq<string>, p: string)
    requires WellFormed(d) && Listed(d, top, items, entities)
    requires Migrates(c, d, p)
    requires forall q :: Migrates(c, d, q) && KeyOf(q) == KeyOf(p) ==> q == p
    ensures KeyOf(p) in MigratedTable(c, d, top, items, entities)
    ensures MigratedTable(c, d, top, items, entities)[KeyOf(p)] == d.files[p]
  {
    var es := Plan(d, top, items, entities);
    PlanEntries(d, top, items, entities, Entry(KeyOf(p), p));
    var i :| 0 <= i < |es| && es[i] == Entry(KeyOf(p), p);
    forall j | i < j < |es| && es[j].key == es[i].key ensures !Imports(c, d.files, es[j]) {
      PlanEntries(d, top, items, entities, es[j]);
      if Imports(c, d.files, es[j]) {
        assert Migrates(c, d, es[j].path);
        PlanDistinctPaths(d, top, items, entities, i, j);
      }
    }
    ImportLastWins(c, d.files, es, map[], i);
  }

  /** No file appears twice in the plan. */
  lemma PlanDistinctPaths(d: Disk, top: seq<string>, items: seq<string>, entities: seq<string>, i: nat, j: nat)
    requires WellFormed(d) && Listed(d, top, items, entities)
    requires i < j < |Plan(d, top, items, entities)|
    ensures Plan(d, top, items, entities)[i].path != Plan(d, top, items, entities)[j].path
  {
    var es := Plan(d, top, items, entities);
    var t := Entries("", top);
    var it := if ITEMS_DIR in d.dirs then Entries("items/", items) else [];
    var en := if ENTITIES_DIR in d.dirs then Entries("entities/", entities) else [];
    assert es == t + it + en;
    // Within one listing the paths are distinct; across listings the parents differ.
    if j < |t| {
      assert es[i].path == top[i] && es[j].path == top[j];
    } else if i < |t| {
      assert es[i].path in top;
      assert Parent(es[i].path) == DATA;
      if j < |t| + |it| {
        assert es[j].path in items;
      } else {
        assert es[j].path in entities;
      }
    } else if j < |t| + |it| {
      assert es[i].path == items[i - |t|] && es[j].path == items[j - |t|];
    } else if i < |t| + |it| {
      assert es[i].path in items && es[j].path in entities;
    } else {
      assert es[i].path == entities[i - |t| - |it|] && es[j].path == entities[j - |t| - |it|];
    }
  }

  /** Without a file named ".json", every legacy file that parses gets its own row holding its text. */
  lemma MigratedFile(c: Codec, d: Disk, top: seq<string>, items: seq<string>, entities: seq<string>, p: string)
    requires WellFormed(d) && Listed(d, top, items, entities)
    requires forall q :: q in d.files ==> Name(q) != ".json"
    requires Migrates(c, d, p)
    ensures KeyOf(p) in MigratedTable(c, d, top, items, entities)
    ensures MigratedTable(c, d, top, items, entities)[KeyOf(p)] == d.files[p]
  {
    forall q | Migrates(c, d, q) && KeyOf(q) == KeyOf(p) ensures q == p {
      KeyOfInjective(p, q);
    }
    MigratedText(c, d, top, items, entities, p);
  }

  /** Restart safety: migrating again, with no writes in between, rebuilds the same table. */
  lemma MigrateTwice(c: Codec, d: Disk, top: seq<string>, items: seq<string>, entities: seq<string>)
    ensures var once := MigrateDisk(c, d, top, items, entities).disk;
            MigrateDisk(c, once, top, items, entities).disk == once
  {
  }

  /**
   * After the migration the database is the backend: a legacy file's record
   * loads from the table under the key `load` builds for it, whatever the
   * legacy files say afterwards.
   */
  lemma MigratedRecordLoads(c: Codec, d: Disk, top: seq<string>, items: seq<string>, entities: seq<string>,
                            p: string, subfolder: string, fileName: string)
    requires WellFormed(d) && Listed(d, top, items, entities) && DATA in d.dirs
    requires forall q :: q in d.files ==> Name(q) != ".json"
    requires Migrates(c, d, p) && KeyOf(p) == FullKey(subfolder, fileName)
    ensures LoadDisk(MigrateDisk(c, d, top, items, entities).disk, c, fileName, subfolder)
            == Ok(Payload(c.parse(d.files[p]).value))
  {
    MigratedFile(c, d, top, items, entities, p);
  }

  // ---------------------------------------------------------------------------
  // The migration as a procedure over the store's state
  // ---------------------------------------------------------------------------

  /** The upsert loop over one sequence of entries. */
  method ImportEntries(fm: FileManager, es: seq<Entry>)
    requires fm.Valid() && fm.dbExists && fm.hasTable
    modifies fm
    ensures fm.Valid() && fm.backup == old(fm.backup)
    ensures fm.Root() == old(fm.Root()).(db := Import(fm.json, fm.files, es, old(fm.db)))
  {
    for i := 0 to |es|
      invariant fm.Valid() && fm.dbExists && fm.hasTable && fm.backup == old(fm.backup)
      invariant fm.Root() == old(fm.Root()).(db := fm.db)
      invariant Import(fm.json, fm.files, es[i..], fm.db) == Import(fm.json, fm.files, es, old(fm.db))
    {
      assert es[i..][1..] == es[i + 1..];
      var e := es[i];
      if e.path in fm.files {
        var raw := fm.files[e.path];
        if fm.json.parse(raw).Some? {
          fm.db := fm.db[e.key := raw];
        }
      }
    }
  }

  /** The part of `run()` after the connection is open. */
  method CreateAndImport(fm: FileManager, top: seq<string>, items: seq<string>, entities: seq<string>)
    requires fm.Valid() && DATA in fm.dirs
    modifies fm
    ensures fm.Valid() && fm.backup == old(fm.backup)
    ensures fm.Root() == old(fm.Root()).(dbExists := true, hasTable := true,
                                          db := MigratedTable(fm.json, old(fm.Root()), top, items, entities))
  {
    // Unlink any earlier database, then create the file and its table.
    fm.dbExists, fm.hasTable, fm.db := false, false, map[];
    fm.dbExists, fm.hasTable := true, true;
    ghost var d := old(fm.Root());
    ImportEntries(fm, Entries("", top));
    if ITEMS_DIR in fm.dirs {
      ImportEntries(fm, Entries("items/", items));
    }
    if ENTITIES_DIR in fm.dirs {
      ImportEntries(fm, Entries("entities/", entities));
    }
    var t := Entries("", top);
    var it := if ITEMS_DIR in d.dirs then Entries("items/", items) else [];
    var en := if ENTITIES_DIR in d.dirs then Entries("entities/", entities) else [];
    ImportAppend(fm.json, d.files, t, it, map[]);
    ImportAppend(fm.json, d.files, t + it, en, map[]);
  }

  /** `run()` with the directory check before the database is touched. */
  method Run(fm: FileManager, top: seq<string>, items: seq<string>, entities: seq<string>) returns (o: Outcome)
    requires fm.Valid() && Listed(fm.Root(), top, items, entities)
    modifies fm
    ensures fm.Valid() && fm.backup == old(fm.backup)
    ensures Step(fm.Root(), o) == MigrateDisk(fm.json, old(fm.Root()), top, items, entities)
  {
    if DATA !in fm.dirs {
      return Done;
    }
    CreateAndImport(fm, top, items, entities);
    o := Done;
  }

  /** `run()` as written: the database file is deleted and reopened before `.data` is checked. */
  method RunAsWritten(fm: FileManager, top: seq<string>, items: seq<string>, entities: seq<string>) returns (o: Outcome)
    requires fm.Valid() && Listed(fm.Root(), top, items, entities)
    modifies fm
    ensures fm.Valid() && fm.backup == old(fm.backup)
    ensures Step(fm.Root(), o) == MigrateDiskAsWritten(fm.json, old(fm.Root()), top, items, entities)
  {
    if fm.dbExists {
      fm.dbExists, fm.hasTable, fm.db := false, false, map[];
    }
    if DATA !in fm.dirs {
      // sqlite3.connect(".data/myning.db") fails before the check at line 24 is reached.
      return Failed(CannotOpenDatabase);
    }
    CreateAndImport(fm, top, items, entities);
    o := Done;
  }

  /**
   * The discrepancy: on a fresh installation (no `.data`) the migration as
   * written fails, where the corrected one succeeds and leaves the disk as it was.
   */
  lemma FreshInstallFails(c: Codec)
    ensures MigrateDiskAsWritten(c, EMPTY_DISK, [], [], []).outcome == Failed(CannotOpenDatabase)
    ensures MigrateDisk(c, EMPTY_DISK, [], [], []) == Step(EMPTY_DISK, Done)
  {
  }
}
