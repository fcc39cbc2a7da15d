/** The mutable state behind the routes: the live store file (its two
    tables and whether it exists) and the backup directory, with the
    operations that change them: save_progress (app.py:368-390),
    backup_database (app.py:100-114), reset_data (app.py:578-594) and
    restore_backup (app.py:605-622). Clock readings are parameters:
    now is the isoformat() text of a write, stamp the %Y%m%d_%H%M%S text. */
module Store {
  import opened Basics
  import opened Text
  import opened Progress
  import opened Backups

  /** An exception caught by a route and answered with success false. */
  datatype StoreError = StorageError

  datatype RestoreReply = Restored | NotFound | RestoreFailed

  class Tracker {
    var progress: Table
    var sessions: map<Key, Completion>
    /** Whether the store file exists. */
    var liveExists: bool
    var backups: Dir

    ghost predicate Valid()
      reads this
    {
      !liveExists ==> progress == map[] && sessions == map[]
    }

    function Live(): Db
      reads this
    {
      Db(progress, sessions)
    }

    /** The state after init_db on startup: a store with db's contents and
        the backup directory as found. */
    constructor (db: Db, dir: Dir)
      ensures Valid() && liveExists && Live() == db && backups == dir
    {
      progress, sessions := db.progress, db.sessions;
      liveExists := true;
      backups := dir;
    }

    /** backup_database: copy the live store to a stamped file, then unlink
        the oldest matching files until Keep remain. */
    method Snapshot(stamp: string) returns (path: Option<string>)
      requires Valid()
      modifies this
      ensures Valid() && Live() == old(Live()) && liveExists == old(liveExists)
      ensures !liveExists ==> path == None && backups == old(backups)
      ensures liveExists ==>
        path == Some(BackupName(stamp)) && backups == SnapshotDir(old(backups), stamp, Live())
    {
      if !liveExists {
        return None;
      }
      var name := BackupName(stamp);
      backups := backups[name := Live()];
      var listing := SortedNames(Matching(backups.Keys));
      UnlinkOldest(listing, DoomedCount(|listing|));
      path := Some(name);
    }

    /** Unlink the first count names of listing from the backup directory. */
    method UnlinkOldest(listing: seq<string>, count: nat)
      requires count <= |listing|
      modifies this
      ensures backups == old(backups) - Oldest(listing, count)
      ensures progress == old(progress) && sessions == old(sessions) && liveExists == old(liveExists)
    {
      assert Oldest(listing, 0) == {};
      var i := 0;
      while i < count
        invariant 0 <= i <= count
        invariant backups == old(backups) - Oldest(listing, i)
        invariant progress == old(progress) && sessions == old(sessions) && liveExists == old(liveExists)
      {
        OldestStep(listing, i);
        backups := backups - {listing[i]};
        i := i + 1;
      }
    }

    /** save_progress: insert or replace the record, then snapshot. A
        missing store has no progress table, so the insert fails. */
    method SaveProgress(week: int, day: int, fluidity: int, endurance: int, power: int,
                        notes: NotesField, now: string, stamp: string)
      returns (r: Result<(), StoreError>)
      requires Valid()
      modifies this
      ensures Valid() && liveExists == old(liveExists)
      ensures r.Success? <==> old(liveExists)
      ensures r.Failure? ==> Live() == old(Live()) && backups == old(backups)
      ensures r.Success? ==>
        && progress == Upsert(old(progress), week, day, fluidity, endurance, power, notes, now)
        && sessions == old(sessions)
        && backups == SnapshotDir(old(backups), stamp, Live())
    {
      if !liveExists {
        return Failure(StorageError);
      }
      progress := Upsert(progress, week, day, fluidity, endurance, power, notes, now);
      var _ := Snapshot(stamp);
      r := Success(());
    }

    /** reset_data: snapshot, then delete every row of both tables. */
    method Reset(stamp: string) returns (r: Result<Option<string>, StoreError>)
      requires Valid()
      modifies this
      ensures Valid() && liveExists == old(liveExists)
      ensures r.Success? <==> old(liveExists)
      ensures r.Failure? ==> Live() == old(Live()) && backups == old(backups)
      ensures r.Success? ==>
        && r.value == Some(BackupName(stamp))
        && backups == SnapshotDir(old(backups), stamp, old(Live()))
        && progress == map[] && sessions == map[]
    {
      if !liveExists {
        return Failure(StorageError);
      }
      var path := Snapshot(stamp);
      progress, sessions := map[], map[];
      r := Success(path);
    }

    /** restore_backup as written: a safety snapshot, then copy the named
        file over the store. The snapshot prunes, so the file may be gone
        by the time it is copied; the copy then raises. */
    method Restore(filename: string, stamp: string) returns (r: RestoreReply)
      requires Valid()
      modifies this
      ensures Valid()
      ensures filename !in old(backups) ==>
        r == NotFound && Live() == old(Live()) && liveExists == old(liveExists) && backups == old(backups)
      ensures filename in old(backups) ==>
        backups == (if old(liveExists) then SnapshotDir(old(backups), stamp, old(Live())) else old(backups))
      ensures filename in old(backups) ==> r != NotFound
      ensures filename in old(backups) ==> (r == Restored <==> filename in backups)
      ensures r == Restored ==> liveExists && Live() == backups[filename]
      ensures r == RestoreFailed ==> liveExists == old(liveExists) && Live() == old(Live())
    {
      if filename !in backups {
        return NotFound;
      }
      var _ := Snapshot(stamp);
      if filename !in backups {
        return RestoreFailed;
      }
      var db := backups[filename];
      progress, sessions, liveExists := db.progress, db.sessions, true;
      r := Restored;
    }

    /** restore_backup as intended: the named file's contents are taken
        before the safety snapshot, so the restore of an existing backup
        always succeeds and the live store becomes what that file held. */
    method RestoreIntended(filename: string, stamp: string) returns (r: RestoreReply)
      requires Valid()
      modifies this
      ensures Valid()
      ensures r != RestoreFailed
      ensures filename !in old(backups) ==>
        r == NotFound && Live() == old(Live()) && liveExists == old(liveExists) && backups == old(backups)
      ensures filename in old(backups) ==>
        && r == Restored
        && liveExists && Live() == old(backups)[filename]
        && backups == (if old(liveExists) then SnapshotDir(old(backups), stamp, old(Live())) else old(backups))
    {
      if filename !in backups {
        return NotFound;
      }
      var saved := backups[filename];
      var _ := Snapshot(stamp);
      progress, sessions, liveExists := saved.progress, saved.sessions, true;
      r := Restored;
    }
  }
}
