/** The backup directory (app.py:100-114, app.py:440-441): snapshot names,
    the prune to the newest ten, and the newest-first listing. The
    directory maps each file name to the store contents copied into it. */
module Backups {
  import opened Text
  import opened Progress

  const Prefix := "peekaboo_backup_"
  const Suffix := ".db"
  /** How many snapshots backup_database keeps. */
  const Keep := 10

  type Dir = map<string, Db>

  /** Names matched by the glob peekaboo_backup_*.db. */
  predicate IsBackupName(n: string)
  {
    |n| >= |Prefix| + |Suffix| && n[..|Prefix|] == Prefix && n[|n| - |Suffix|..] == Suffix
  }

  /** peekaboo_backup_<stamp>.db, stamp being the %Y%m%d_%H%M%S text. */
  function BackupName(stamp: string): (n: string)
    ensures IsBackupName(n)
  {
    var n := Prefix + stamp + Suffix;
    assert n[..|Prefix|] == Prefix && n[|n| - |Suffix|..] == Suffix;
    n
  }

  function Matching(names: set<string>): (m: set<string>)
    ensures forall n :: n in m <==> n in names && IsBackupName(n)
  {
    set n | n in names && IsBackupName(n)
  }

  /** The first i names of l. */
  function Oldest(l: seq<string>, i: nat): set<string>
    requires i <= |l|
  {
    set j | 0 <= j < i :: l[j]
  }

  lemma OldestStep(l: seq<string>, i: nat)
    requires i < |l|
    ensures Oldest(l, i + 1) == Oldest(l, i) + {l[i]}
  {
    assert forall n :: n in Oldest(l, i + 1) <==> n in Oldest(l, i) || n == l[i];
  }

  /** The length of the slice l[:-Keep]. */
  function DoomedCount(n: nat): nat
  {
    if n > Keep then n - Keep else 0
  }

  /** The names unlinked: the sorted matches but the last Keep. */
  function Doomed(names: set<string>): set<string>
  {
    var l := SortedNames(Matching(names));
    Oldest(l, DoomedCount(|l|))
  }

  /** The prune only unlinks: every file left is one of dir with its
      contents, and every file outside the pattern is left. */
  function Prune(dir: Dir): (r: Dir)
    ensures r.Keys <= dir.Keys
    ensures forall n :: n in r ==> r[n] == dir[n]
    ensures forall n :: n in dir && !IsBackupName(n) ==> n in r
  {
    dir - Doomed(dir.Keys)
  }

  /** Matching names that sort after n. */
  function Above(n: string, names: set<string>): set<string>
  {
    set m | m in Matching(names) && LexLess(n, m)
  }

  /** backup_database on a live store holding live, at time stamp. */
  function SnapshotDir(dir: Dir, stamp: string, live: Db): Dir
  {
    Prune(dir[BackupName(stamp) := live])
  }

  lemma {:induction false} SuffixCard(l: seq<string>, i: nat)
    requires StrictlyIncreasing(l) && i <= |l|
    ensures |set j | i <= j < |l| :: l[j]| == |l| - i
    decreases |l| - i
  {
    if i < |l| {
      SuffixCard(l, i + 1);
      var rest := set j | i + 1 <= j < |l| :: l[j];
      assert l[i] !in rest by {
        forall j | i + 1 <= j < |l| ensures l[j] != l[i] { StrictlyIncreasingDistinct(l, i, j); }
      }
      assert (set j | i <= j < |l| :: l[j]) == {l[i]} + rest;
    }
  }

  /** Index of a name in a strictly increasing listing that holds it. */
  lemma IndexOf(l: seq<string>, n: string) returns (i: nat)
    requires StrictlyIncreasing(l) && n in l
    ensures i < |l| && l[i] == n
    ensures forall j :: 0 <= j < |l| && l[j] == n ==> j == i
  {
    i :| 0 <= i < |l| && l[i] == n;
    forall j | 0 <= j < |l| && l[j] == n ensures j == i {
      if j != i { StrictlyIncreasingDistinct(l, i, j); }
    }
  }

  /** A name at position i of the sorted matches has exactly the names
      after it above it. */
  lemma AboveIsSuffix(names: set<string>, i: nat)
    requires i < |SortedNames(Matching(names))|
    ensures var l := SortedNames(Matching(names));
      Above(l[i], names) == set j | i + 1 <= j < |l| :: l[j]
  {
    var l := SortedNames(Matching(names));
    forall m | m in Above(l[i], names) ensures m in set j | i + 1 <= j < |l| :: l[j] {
      var j :| 0 <= j < |l| && l[j] == m;
      if j <= i {
        if j == i { LexIrreflexive(m); } else { LexAsymmetric(l[j], l[i]); }
      }
    }
  }

  /** The prune keeps every name outside the pattern, and keeps a matching
      name exactly when fewer than Keep matching names sort after it. */
  lemma PruneKeepsNewest(dir: Dir, n: string)
    ensures n in Prune(dir) <==> n in dir && (!IsBackupName(n) || |Above(n, dir.Keys)| < Keep)
  {
    assert n in Prune(dir) <==> n in dir && n !in Doomed(dir.Keys);
    if n in dir && IsBackupName(n) {
      var l := SortedNames(Matching(dir.Keys));
      var i := IndexOf(l, n);
      AboveIsSuffix(dir.Keys, i);
      SuffixCard(l, i + 1);
      DoomedAt(dir.Keys, i);
    } else {
      DoomedMatch(dir.Keys, n);
    }
  }

  lemma DoomedMatch(names: set<string>, n: string)
    ensures n in Doomed(names) ==> n in Matching(names)
  {
  }

  /** The name at position i of the sorted matches is unlinked exactly when
      i lies in the slice l[:-Keep]. */
  lemma DoomedAt(names: set<string>, i: nat)
    requires i < |SortedNames(Matching(names))|
    ensures var l := SortedNames(Matching(names));
      l[i] in Doomed(names) <==> i < DoomedCount(|l|)
  {
    var l := SortedNames(Matching(names));
    if l[i] in Doomed(names) {
      var j :| 0 <= j < DoomedCount(|l|) && l[j] == l[i];
      if j != i { StrictlyIncreasingDistinct(l, i, j); }
    }
  }

  /** Only the oldest are removed: every deleted snapshot sorts before
      every surviving one. */
  lemma PruneRemovesOldest(dir: Dir, gone: string, kept: string)
    requires gone in dir && gone !in Prune(dir)
    requires kept in Prune(dir) && IsBackupName(kept)
    ensures LexLess(gone, kept)
  {
    var l := SortedNames(Matching(dir.Keys));
    var g :| 0 <= g < |l| - Keep && l[g] == gone;
    var k := IndexOf(l, kept);
  }

  /** After a prune at most Keep snapshots remain, and exactly Keep when
      there were more. */
  lemma PruneCount(dir: Dir)
    ensures |Matching(Prune(dir).Keys)| == if |Matching(dir.Keys)| > Keep then Keep else |Matching(dir.Keys)|
  {
    var l := SortedNames(Matching(dir.Keys));
    var lo := if |l| > Keep then |l| - Keep else 0;
    assert Matching(Prune(dir).Keys) == set j | lo <= j < |l| :: l[j] by {
      forall n | n in Matching(Prune(dir).Keys) ensures n in set j | lo <= j < |l| :: l[j] {
        var i := IndexOf(l, n);
      }
      forall n | n in set j | lo <= j < |l| :: l[j] ensures n in Matching(Prune(dir).Keys) {
        var i :| lo <= i < |l| && l[i] == n;
        if n in Doomed(dir.Keys) {
          var j :| 0 <= j < |l| - Keep && l[j] == n;
          StrictlyIncreasingDistinct(l, i, j);
        }
      }
    }
    SuffixCard(l, lo);
  }

  /** Pruning twice removes nothing more. */
  lemma PruneIdempotent(dir: Dir)
    ensures Prune(Prune(dir)) == Prune(dir)
  {
    PruneCount(dir);
    assert Doomed(Prune(dir).Keys) == {};
  }

  /** With timestamps that only grow, a fresh snapshot is always kept and
      holds the live store. */
  lemma NewestSnapshotKept(dir: Dir, stamp: string, live: Db)
    requires forall n :: n in dir && IsBackupName(n) ==> LexLess(n, BackupName(stamp))
    ensures BackupName(stamp) in SnapshotDir(dir, stamp, live)
    ensures SnapshotDir(dir, stamp, live)[BackupName(stamp)] == live
  {
    var name := BackupName(stamp);
    var d := dir[name := live];
    forall m | m in Above(name, d.Keys) ensures false {
      if m == name { LexIrreflexive(m); } else { LexAsymmetric(m, name); }
    }
    assert Above(name, d.Keys) == {};
    PruneKeepsNewest(d, name);
  }

  /** The safety snapshot can delete the very file it was taken for: when
      the target is the oldest of at least Keep snapshots and the new one
      sorts after it, the target does not survive. */
  lemma SafetySnapshotEvictsOldest(dir: Dir, stamp: string, live: Db, target: string)
    requires target in dir && IsBackupName(target)
    requires BackupName(stamp) !in dir
    requires |Matching(dir.Keys)| >= Keep
    requires forall n :: n in dir && IsBackupName(n) && n != target ==> LexLess(target, n)
    requires LexLess(target, BackupName(stamp))
    ensures target !in SnapshotDir(dir, stamp, live)
  {
    var name := BackupName(stamp);
    var d := dir[name := live];
    var above := Above(target, d.Keys);
    var newer := (Matching(dir.Keys) - {target}) + {name};
    assert newer <= above;
    assert |Matching(dir.Keys) - {target}| == |Matching(dir.Keys)| - 1;
    assert |newer| == |Matching(dir.Keys)|;
    assert above == newer + (above - newer);
    PruneKeepsNewest(d, target);
  }

  /** The export page's list: newest first, at most Keep names. */
  function ListBackups(names: set<string>): (r: seq<string>)
    ensures |r| == if |Matching(names)| > Keep then Keep else |Matching(names)|
    ensures forall i :: 0 <= i < |r| ==> r[i] in Matching(names)
    ensures forall i, j :: 0 <= i < j < |r| ==> LexLess(r[j], r[i])
  {
    var l := SortedNames(Matching(names));
    var n := if |l| > Keep then Keep else |l|;
    seq(n, i requires 0 <= i < n => l[|l| - 1 - i])
  }

  /** Every listed name survives a prune. */
  lemma ListedSurvives(dir: Dir, i: nat)
    requires i < |ListBackups(dir.Keys)|
    ensures ListBackups(dir.Keys)[i] in Matching(Prune(dir).Keys)
  {
    var l := SortedNames(Matching(dir.Keys));
    var p := |l| - 1 - i;
    assert ListBackups(dir.Keys)[i] == l[p];
    AboveIsSuffix(dir.Keys, p);
    SuffixCard(l, p + 1);
    PruneKeepsNewest(dir, l[p]);
  }

  /** Every survivor of a prune is listed. */
  lemma SurvivorListed(dir: Dir, n: string)
    requires n in Matching(Prune(dir).Keys)
    ensures n in ListBackups(dir.Keys)
  {
    var l := SortedNames(Matching(dir.Keys));
    PruneKeepsNewest(dir, n);
    var i := IndexOf(l, n);
    AboveIsSuffix(dir.Keys, i);
    SuffixCard(l, i + 1);
    assert ListBackups(dir.Keys)[|l| - 1 - i] == n;
  }

  /** The list shows exactly the snapshots a prune would keep. */
  lemma ListingShowsSurvivors(dir: Dir, n: string)
    ensures n in ListBackups(dir.Keys) <==> n in Matching(Prune(dir).Keys)
  {
    if n in ListBackups(dir.Keys) {
      var i :| 0 <= i < |ListBackups(dir.Keys)| && ListBackups(dir.Keys)[i] == n;
      ListedSurvives(dir, i);
    }
    if n in Matching(Prune(dir).Keys) {
      SurvivorListed(dir, n);
    }
  }
}
