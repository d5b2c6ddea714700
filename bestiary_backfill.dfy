/**
 * The bestiary backfill of myning/migrations/bestiary_backfill.py: every boss
 * of a completed mine that is not yet in the stats' defeated bosses is
 * recorded, and the stats are saved once at the end.
 *
 * The completed mines and the stats object are parameters: `Player` and
 * `Stats.initialize` are not part of this model.
 */
module BestiaryBackfill {
  import opened Wrappers
  import opened Json
  import opened Objects
  import opened FileManager

  datatype Boss = Boss(name: string)

  /** A completed mine; `boss` is falsy when the mine has none. */
  datatype Mine = Mine(name: string, boss: Option<Boss>)

  /** The stats' storage key. */
  const STATS_FILE := "stats"

  predicate NoDuplicates(s: seq<string>) {
    forall i, j :: 0 <= i < j < |s| ==> s[i] != s[j]
  }

  /** `Stats.record_boss_defeat(name)`: the name is appended unless it is there already. */
  function Recorded(bosses: seq<string>, name: string): (r: seq<string>)
    ensures name in r
    ensures forall x :: x in r <==> x in bosses || x == name
    ensures |bosses| <= |r| && r[..|bosses|] == bosses
    ensures NoDuplicates(bosses) ==> NoDuplicates(r)
  {
    if name in bosses then bosses else bosses + [name]
  }

  /** Recording a defeat twice records it once. */
  lemma RecordIdempotent(bosses: seq<string>, name: string)
    ensures Recorded(Recorded(bosses, name), name) == Recorded(bosses, name)
    ensures multiset(Recorded(bosses, name))[name] == (if name in bosses then multiset(bosses)[name] else 1)
  {
    if name !in bosses {
      assert multiset(bosses)[name] == 0;
      assert multiset(bosses + [name]) == multiset(bosses) + multiset{name};
    }
  }

  /**
   * One turn of the loop: a mine with a boss not yet defeated records it. The
   * loop's own membership test is the one `record_boss_defeat` makes anyway.
   */
  function Visit(bosses: seq<string>, mine: Mine): (r: seq<string>)
    ensures r == if mine.boss.Some? then Recorded(bosses, mine.boss.value.name) else bosses
  {
    if mine.boss.Some? && mine.boss.value.name !in bosses then Recorded(bosses, mine.boss.value.name)
    else bosses
  }

  /** The defeated bosses after the loop has visited `mines` in order. */
  function Backfilled(bosses: seq<string>, mines: seq<Mine>): seq<string>
    decreases |mines|
  {
    if mines == [] then bosses
    else Visit(Backfilled(bosses, mines[..|mines| - 1]), mines[|mines| - 1])
  }

  /** The names of the bosses of the given mines; boss-less mines add nothing. */
  function BossNames(mines: seq<Mine>): set<string> {
    set j | 0 <= j < |mines| && mines[j].boss.Some? :: mines[j].boss.value.name
  }

  lemma BossNamesSnoc(mines: seq<Mine>, m: Mine)
    ensures BossNames(mines + [m]) == BossNames(mines) + (if m.boss.Some? then {m.boss.value.name} else {})
  {
    var ms := mines + [m];
    forall x | x in BossNames(ms) ensures x in BossNames(mines) || (m.boss.Some? && x == m.boss.value.name) {
      var j :| 0 <= j < |ms| && ms[j].boss.Some? && ms[j].boss.value.name == x;
      if j < |mines| {
        assert ms[j] == mines[j];
      }
    }
    forall x | x in BossNames(mines) ensures x in BossNames(ms) {
      var j :| 0 <= j < |mines| && mines[j].boss.Some? && mines[j].boss.value.name == x;
      assert ms[j] == mines[j];
    }
    if m.boss.Some? {
      assert ms[|mines|] == m;
    }
  }

  /**
   * After the backfill the defeated bosses are exactly the earlier ones plus
   * the bosses of the completed mines.
   */
  lemma {:induction false} BackfilledNames(bosses: seq<string>, mines: seq<Mine>, x: string)
    ensures x in Backfilled(bosses, mines) <==> x in bosses || x in BossNames(mines)
    decreases |mines|
  {
    if mines != [] {
      var init, last := mines[..|mines| - 1], mines[|mines| - 1];
      assert mines == init + [last];
      BackfilledNames(bosses, init, x);
      BossNamesSnoc(init, last);
    }
  }

  /** The backfill only appends: the earlier entries keep their places. */
  lemma {:induction false} BackfilledExtends(bosses: seq<string>, mines: seq<Mine>)
    ensures |bosses| <= |Backfilled(bosses, mines)|
    ensures Backfilled(bosses, mines)[..|bosses|] == bosses
    decreases |mines|
  {
    if mines != [] {
      BackfilledExtends(bosses, mines[..|mines| - 1]);
    }
  }

  /** No name is recorded twice. */
  lemma {:induction false} BackfilledNoDuplicates(bosses: seq<string>, mines: seq<Mine>)
    requires NoDuplicates(bosses)
    ensures NoDuplicates(Backfilled(bosses, mines))
    decreases |mines|
  {
    if mines != [] {
      BackfilledNoDuplicates(bosses, mines[..|mines| - 1]);
    }
  }

  /** When every boss is already recorded the backfill changes nothing. */
  lemma {:induction false} BackfilledNoop(bosses: seq<string>, mines: seq<Mine>)
    requires BossNames(mines) <= set x | x in bosses
    ensures Backfilled(bosses, mines) == bosses
    decreases |mines|
  {
    if mines != [] {
      var init, last := mines[..|mines| - 1], mines[|mines| - 1];
      assert mines == init + [last];
      BossNamesSnoc(init, last);
      BackfilledNoop(bosses, init);
    }
  }

  /** Running the backfill a second time changes nothing. */
  lemma BackfillIdempotent(bosses: seq<string>, mines: seq<Mine>)
    ensures Backfilled(Backfilled(bosses, mines), mines) == Backfilled(bosses, mines)
  {
    var once := Backfilled(bosses, mines);
    forall x | x in BossNames(mines) ensures x in once {
      BackfilledNames(bosses, mines, x);
    }
    BackfilledNoop(once, mines);
  }

  /** The names as `to_dict` writes `defeated_bosses`: a JSON list of strings. */
  function NamesJson(names: seq<string>): (j: JValue)
    ensures j.JArr? && |j.elems| == |names|
    ensures forall i :: 0 <= i < |names| ==> j.elems[i] == JStr(names[i])
  {
    JArr(seq(|names|, i requires 0 <= i < |names| => JStr(names[i])))
  }

  /**
   * The part of `Stats` the backfill uses. The other statistics are kept as
   * the JSON they are stored as.
   */
  class Stats {
    var defeatedBosses: seq<string>
    var otherStats: map<string, JValue>

    constructor (defeatedBosses: seq<string>, otherStats: map<string, JValue>)
      ensures this.defeatedBosses == defeatedBosses && this.otherStats == otherStats
    {
      this.defeatedBosses := defeatedBosses;
      this.otherStats := otherStats;
    }

    method RecordBossDefeat(name: string)
      modifies this
      ensures defeatedBosses == Recorded(old(defeatedBosses), name)
      ensures otherStats == old(otherStats)
    {
      if name !in defeatedBosses {
        defeatedBosses := defeatedBosses + [name];
      }
    }

    /** What the store sees: key "stats" and the `defeated_bosses` list beside the other statistics. */
    function AsEntity(): (e: Entity)
      reads this
      ensures e.fileName == STATS_FILE && e.dict.JObj?
      ensures "defeated_bosses" in e.dict.fields && e.dict.fields["defeated_bosses"] == NamesJson(defeatedBosses)
    {
      Entity(STATS_FILE, JObj(otherStats["defeated_bosses" := NamesJson(defeatedBosses)]))
    }
  }

  /**
   * `run()`: record the missing bosses of the completed mines, then save the
   * stats once.
   */
  method Run(minesCompleted: seq<Mine>, stats: Stats, fm: FileManager) returns (o: Outcome)
    requires fm.Valid()
    modifies stats, fm
    ensures stats.defeatedBosses == Backfilled(old(stats.defeatedBosses), minesCompleted)
    ensures stats.otherStats == old(stats.otherStats)
    ensures fm.Valid() && fm.backup == old(fm.backup)
    ensures Step(fm.Root(), o) == SaveDisk(old(fm.Root()), fm.json, stats.AsEntity())
  {
    for i := 0 to |minesCompleted|
      invariant stats.defeatedBosses == Backfilled(old(stats.defeatedBosses), minesCompleted[..i])
      invariant stats.otherStats == old(stats.otherStats)
      invariant fm.Valid() && fm.Root() == old(fm.Root()) && fm.backup == old(fm.backup)
    {
      assert minesCompleted[..i + 1][..i] == minesCompleted[..i];
      var mine := minesCompleted[i];
      if mine.boss.Some? && mine.boss.value.name !in stats.defeatedBosses {
        stats.RecordBossDefeat(mine.boss.value.name);
      }
    }
    assert minesCompleted[..|minesCompleted|] == minesCompleted;
    o := fm.Save(stats.AsEntity());
  }
}
