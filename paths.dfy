/**
 * The on-disk layout under the storage root `.data` (myning/utilities/file_manager.py:14,
 * 55-59, 77, 94-97), with the few `pathlib` operations the store and the
 * migration use, written out over plain strings.
 */
module Paths {

  const DATA := ".data"
  const ITEMS_DIR := ".data/items"
  const ENTITIES_DIR := ".data/entities"
  const DB_PATH := ".data/myning.db"
  const JSON_SUFFIX := ".json"

  /** `Path(p).parent` for the paths used here: everything before the last '/', or "" if there is none. */
  function Parent(p: string): string
    decreases |p|
  {
    if |p| == 0 then ""
    else if p[|p| - 1] == '/' then p[..|p| - 1]
    else Parent(p[..|p| - 1])
  }

  /** `Path(p).name`: everything after the last '/'. */
  function Name(p: string): (n: string)
    ensures '/' !in n
    decreases |p|
  {
    if |p| == 0 || p[|p| - 1] == '/' then ""
    else Name(p[..|p| - 1]) + [p[|p| - 1]]
  }

  lemma {:induction false} JoinSplits(dir: string, name: string)
    requires '/' !in name
    ensures Parent(dir + "/" + name) == dir
    ensures Name(dir + "/" + name) == name
    decreases |name|
  {
    var p := dir + "/" + name;
    if |name| == 0 {
      assert p[..|p| - 1] == dir;
    } else {
      var q := dir + "/" + name[..|name| - 1];
      assert p[..|p| - 1] == q;
      assert p[|p| - 1] == name[|name| - 1];
      JoinSplits(dir, name[..|name| - 1]);
      assert name[..|name| - 1] + [name[|name| - 1]] == name;
    }
  }

  /** The path is `dir + "/" + Name(p)` whenever its parent is a non-empty directory. */
  lemma {:induction false} SplitJoins(p: string)
    requires '/' in p
    ensures p == Parent(p) + "/" + Name(p)
    decreases |p|
  {
    var last := p[|p| - 1];
    if last == '/' {
      assert p == p[..|p| - 1] + "/" + "";
    } else {
      var q := p[..|p| - 1];
      assert '/' in q by {
        var i :| 0 <= i < |p| && p[i] == '/';
        assert i < |p| - 1 && q[i] == '/';
      }
      SplitJoins(q);
      assert p == q + [last];
    }
  }

  /** A path without '/' has no directory part. */
  lemma {:induction false} NoSlashNoParent(p: string)
    requires '/' !in p
    ensures Parent(p) == ""
    decreases |p|
  {
    if |p| > 0 {
      assert '/' !in p[..|p| - 1];
      NoSlashNoParent(p[..|p| - 1]);
    }
  }

  /** `f".data/{key}.json"`: the legacy file of a record. */
  function LegacyPath(key: string): string {
    DATA + "/" + key + JSON_SUFFIX
  }

  /** Distinct keys live in distinct legacy files. */
  lemma LegacyPathInjective(k1: string, k2: string)
    requires LegacyPath(k1) == LegacyPath(k2)
    ensures k1 == k2
  {
    var n := |DATA + "/"|;
    assert |k1| == |k2|;
    assert k1 == LegacyPath(k1)[n..n + |k1|];
    assert k2 == LegacyPath(k2)[n..n + |k2|];
  }

  /** No legacy record file is the database file. */
  lemma LegacyPathIsNotDb(key: string)
    ensures LegacyPath(key) != DB_PATH
  {
    var p := LegacyPath(key);
    assert p[|p| - 1] == 'n';
  }

  /** `f"{subfolder}/{file_name}" if subfolder else file_name`: the fully-qualified key. */
  function FullKey(subfolder: string, fileName: string): string {
    if subfolder != "" then subfolder + "/" + fileName else fileName
  }

  /** The glob pattern `*.json`: names that end in ".json" (hidden names included). */
  predicate IsJsonName(n: string) {
    |n| >= |JSON_SUFFIX| && n[|n| - |JSON_SUFFIX|..] == JSON_SUFFIX
  }

  /**
   * `Path(n).stem` for a name matching `*.json`: the name without its suffix,
   * except that pathlib treats a name consisting only of ".json" as having no
   * suffix, so its stem is the whole name.
   */
  function Stem(n: string): (s: string)
    ensures '/' in s ==> '/' in n
  {
    if IsJsonName(n) && |n| > |JSON_SUFFIX| then n[..|n| - |JSON_SUFFIX|] else n
  }

  /** Two different `*.json` names in one directory share a stem only through the ".json" special case. */
  lemma StemInjective(n1: string, n2: string)
    requires IsJsonName(n1) && IsJsonName(n2)
    requires n1 != ".json" && n2 != ".json"
    requires Stem(n1) == Stem(n2)
    ensures n1 == n2
  {
    assert n1 == Stem(n1) + JSON_SUFFIX;
    assert n2 == Stem(n2) + JSON_SUFFIX;
  }
}
