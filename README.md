# Peek-a-Boo Boxing tracker: a verified model of its core

The Peek-a-Boo Boxing app is a small Flask tracker for a fixed six-week
programme of boxing sessions (weeks 1..6, days 1..5). A user rates each
session they train. The app stores those ratings in an SQLite file, keeps
rolling backups of that file, and exports the data.

This project models the logic under the web and storage plumbing of
`PeekABoo_Boxing_App/app.py`:

- **Settings** (`settings.dfy`): the defaults and the merge `load_settings`
  performs.
- **Progress table** (`progress.dfy`): a map from `(week, day)` to a
  record. It has an insert-or-replace write, and a listing in
  `(week, day)` order (`ORDER BY week, day`).
- **Backups** (`backups.dfy`): a directory maps file names to the store
  contents copied into them.
  - Snapshot names are `peekaboo_backup_<stamp>.db`.
  - The prune keeps the ten names that sort last.
  - The export page lists the directory newest first, at most ten names.
- **Live state** (`store.dfy`): the class `Store.Tracker` holds the live
  store's two tables, whether its file exists, and the backup directory.
  Its methods are `backup_database`, `save_progress`, `reset_data` and
  `restore_backup`. Each method states its whole new state as functions
  of the old one.
- **Statistics** (`stats.dfy`): the overall and per-week means of the
  progress page.
  - The method `ComputeStats` has the two loops of the route.
  - It is proved equal to the specification `StatsOf`.
- **Exports** (`export.dfy`, `program_text.dfy`):
  - the progress CSV;
  - the calendar CSV, with the duration parse and the end-time clock
    arithmetic;
  - the complete-program text;
  - the chart data;
  - the session page lookup.

  Each export that builds its output in a loop is a method. Its
  postcondition ties the result to a specification function, and lemmas
  state what that function promises.
- **Catalog** (`catalog.dfy`): `TRAINING_DATA`, read only. Each session
  keeps its real focus and duration text.

`basics.dfy` has `Option`/`Result`. `text.dfy` has:

- decimal text of integers;
- `int()` on digit strings;
- `split(sep)[0]`;
- the code-point order Python uses to compare and sort strings;
- `sorted()` of a set of names.

`clock.dfy` models `strptime('%H:%M')`, `strftime('%H:%M')` and the
duration parse.

Clock readings are parameters, not calls:

- `now` is the `isoformat()` text of a write;
- `stamp` is the `%Y%m%d_%H%M%S` text of a backup;
- `anchor` is the day number of an export.

## Model

| member | source | states |
|---|---|---|
| Settings.Load | PeekABoo_Boxing_App/app.py:45-55 | A missing file, or one that is not valid JSON, gives exactly the defaults. A file whose reading raises (bytes not in the locale's encoding, or an OS error) fails, because only `JSONDecodeError` is caught. A decoded object gives every default key plus every stored key: a stored value wins, otherwise the default is used. A decoded non-object fails, because the merge raises. |
| Settings.SaveThenLoad | PeekABoo_Boxing_App/app.py:45-60 | Saving a settings map that holds every default key and loading it back returns the same map. |
| Settings.LoadIdempotent | PeekABoo_Boxing_App/app.py:45-55 | Saving what was loaded and loading it again changes nothing. |
| Settings.TrainingTime | PeekABoo_Boxing_App/app.py:475 | `settings.get('training_time', '09:00')`: the stored value when the key is present, "09:00" otherwise. |
| Settings.LoadedTrainingTime | PeekABoo_Boxing_App/app.py:474-475 | After a successful load, the training time is the stored one, or "09:00" when the file has none. |
| Text.DigitsRoundTrip | PeekABoo_Boxing_App/app.py:491 | `int()` of the decimal text of a natural number gives that number back. |
| Text.IntToStringInjective | PeekABoo_Boxing_App/app.py:681 | Different integers have different decimal text. |
| Text.SortedNames | PeekABoo_Boxing_App/app.py:108 | `sorted()` of a set of names: the same names, each once, in strictly increasing code-point order. |
| Clock.ParseDuration | PeekABoo_Boxing_App/app.py:490-491 | Specification of `int(duration.split('-')[0])` on plain ASCII digits: the value of the digits before the first '-', or an error where `int()` raises. Its properties are stated by `Clock.ParseDurationOfRange` and `Export.ProgramDuration`. |
| Clock.ParseDurationOfRange | PeekABoo_Boxing_App/app.py:490-491 | A duration "lo-..." parses to lo. |
| Clock.SixtyToSeventyFive | PeekABoo_Boxing_App/app.py:490-491 | "60-75 minutes" parses to 60. |
| Clock.ParseClock | PeekABoo_Boxing_App/app.py:494 | An accepted `%H:%M` time is a minute of the day, below 1440. |
| Clock.ClockRoundTrip | PeekABoo_Boxing_App/app.py:494 | Printing a time of day with `%H:%M` and parsing it back gives the same minute. |
| Clock.EndTime | PeekABoo_Boxing_App/app.py:494 | The printed end time reads back as start plus duration, modulo one day. |
| Clock.EndTimeExamples | PeekABoo_Boxing_App/app.py:494 | 09:00 plus 60 minutes prints "10:00". 23:30 plus 75 minutes wraps to "00:45". |
| Catalog.Slot | PeekABoo_Boxing_App/app.py:483-484 | Each programme session has a position below 30 in week-major order. |
| Catalog.TrainingDataDomain | PeekABoo_Boxing_App/app.py:117-310 | The catalog has a session exactly for weeks 1..6 and days 1..5. |
| Progress.StoredNotes | PeekABoo_Boxing_App/app.py:377 | Specification of `data.get('notes', '')`: an absent member becomes "", a null stays null. Its use is stated by `Progress.Upsert` and `Export.ViewAfterSave`. |
| Progress.Upsert | PeekABoo_Boxing_App/app.py:380-383 | After a save, the key holds exactly the given ratings, the write time and the stored notes (absent notes become ""). Every other key is unchanged and no key is lost. |
| Progress.UpsertLastWriteWins | PeekABoo_Boxing_App/app.py:74-82 | With `(week, day)` as the primary key, a second save of a key replaces the first outright. |
| Progress.SortedKeys | PeekABoo_Boxing_App/app.py:397 | The table's keys, each once, in strictly increasing `(week, day)` order. |
| Progress.Listing | PeekABoo_Boxing_App/app.py:450 | `ORDER BY week, day`: one row per stored record, with that record, in strictly increasing key order. |
| Progress.SavedRecordIsListed | PeekABoo_Boxing_App/app.py:380-383 | After a save, the listing holds exactly the saved row. |
| Backups.BackupName | PeekABoo_Boxing_App/app.py:103-104 | A snapshot name matches the `peekaboo_backup_*.db` pattern. |
| Backups.Matching | PeekABoo_Boxing_App/app.py:108 | The glob keeps exactly the names of the directory that match the pattern. |
| Backups.Prune | PeekABoo_Boxing_App/app.py:107-111 | The prune only unlinks: every file left was in the directory with the same contents, and every file outside the pattern is left. Which matching files survive is stated by `Backups.PruneKeepsNewest`, `Backups.PruneCount` and `Backups.PruneRemovesOldest`. |
| Backups.SnapshotDir | PeekABoo_Boxing_App/app.py:103-111 | Specification of `backup_database` on a live store: the copy under the stamped name, then the prune. It is what `Store.Tracker.Snapshot` is proved to compute; `Backups.NewestSnapshotKept` and `Backups.SafetySnapshotEvictsOldest` state its properties. |
| Backups.PruneKeepsNewest | PeekABoo_Boxing_App/app.py:107-111 | The prune keeps every non-matching file. It keeps a matching file exactly when fewer than ten matching names sort after it. |
| Backups.PruneRemovesOldest | PeekABoo_Boxing_App/app.py:108-111 | Every deleted file sorts before every surviving snapshot. |
| Backups.PruneCount | PeekABoo_Boxing_App/app.py:107-111 | After the prune, ten snapshots remain if there were more, otherwise all of them. |
| Backups.PruneIdempotent | PeekABoo_Boxing_App/app.py:107-111 | A second prune removes nothing. |
| Backups.NewestSnapshotKept | PeekABoo_Boxing_App/app.py:103-111 | When the new stamp sorts after every existing snapshot, the new snapshot survives its own prune and holds the live store. |
| Backups.SafetySnapshotEvictsOldest | PeekABoo_Boxing_App/app.py:615-618 | The safety snapshot can delete the file being restored, for example when that file is the oldest of at least ten and the new name sorts after it. The exact survival condition is `Backups.PruneKeepsNewest`. |
| Backups.ListBackups | PeekABoo_Boxing_App/app.py:440-441 | The export page lists only matching names, newest first, at most ten. |
| Backups.ListingShowsSurvivors | PeekABoo_Boxing_App/app.py:440-441 | A name is listed exactly when it would survive a prune. |
| Store.Tracker.constructor | PeekABoo_Boxing_App/app.py:68-94 | Startup leaves a live store with the given tables and the backup directory as found. |
| Store.Tracker.Snapshot | PeekABoo_Boxing_App/app.py:100-114 | With no live store it returns null and changes nothing. Otherwise it returns the new name, and the directory is the old one plus the copy, then pruned. The live store is unchanged. |
| Store.Tracker.UnlinkOldest | PeekABoo_Boxing_App/app.py:110-111 | The unlink loop removes exactly the first names of the sorted listing and touches nothing else. |
| Store.Tracker.SaveProgress | PeekABoo_Boxing_App/app.py:368-390 | It succeeds exactly when the store exists. Then the progress table is the upsert, the sessions table is unchanged, and a snapshot of the new store is taken. On failure nothing changes. |
| Store.Tracker.Reset | PeekABoo_Boxing_App/app.py:578-594 | It succeeds exactly when the store exists. Then it snapshots the old store, returns the new name and empties both tables. On failure nothing changes. |
| Store.Tracker.Restore | PeekABoo_Boxing_App/app.py:605-622 | An absent name gives not-found (404) and changes nothing. Otherwise the answer is never not-found, and the safety snapshot is taken. The restore succeeds exactly when the named file survived that snapshot, and then the live store is its contents. Otherwise the copy raises (500) and the live store is unchanged. |
| Store.Tracker.RestoreIntended | PeekABoo_Boxing_App/app.py:605-622 | Corrected restore: an existing backup is always restored. The live store becomes what that file held before the safety snapshot. |
| Stats.StatsOf | PeekABoo_Boxing_App/app.py:402-427 | Specification of the progress page's numbers: zeros and no weeks for no rows, otherwise the row count, the overall means and the means of each present week's rows. `Stats.ComputeStats` is proved to compute it; `Stats.MeanBounds`, `Stats.WeekRowsNonEmpty`, `Stats.WeekRowsCarryWeek` and `Stats.OneWeekMatchesOverall` state its properties. |
| Stats.ComputeStats | PeekABoo_Boxing_App/app.py:402-427 | The progress route's two loops compute `StatsOf`. No rows give zeros and no weeks. Otherwise they give the row count, the overall means, and the means of the rows of each present week. |
| Stats.GatherRatings | PeekABoo_Boxing_App/app.py:409-416 | The gathering loop maps each present week to the ratings of its rows, in order. |
| Stats.WeeklyMeans | PeekABoo_Boxing_App/app.py:418-423 | The rewriting loop maps each present week to the three means of its rows. |
| Stats.GatheredStep | PeekABoo_Boxing_App/app.py:410-416 | One pass of the gathering loop appends the row's ratings to its week, creating the week's lists when it is new. |
| Stats.MeanBounds | PeekABoo_Boxing_App/app.py:403-405 | A mean of ratings within [lo, hi] lies within [lo, hi]. |
| Stats.WeekRowsNonEmpty | PeekABoo_Boxing_App/app.py:418-423 | A week has rows exactly when it is present, so no weekly mean divides by zero. |
| Stats.WeekRowsCarryWeek | PeekABoo_Boxing_App/app.py:410-416 | A week's rows are exactly the input rows carrying that week, and there are as many of them as input rows carrying that week, so each is appended once. |
| Stats.OneWeekMatchesOverall | PeekABoo_Boxing_App/app.py:402-423 | When all rows are of one week, the weekly stats hold just that week, with the overall means. |
| Export.RecordLine | PeekABoo_Boxing_App/app.py:459-461 | Specification of one CSV line: week, day, the three ratings, the date, and the notes with null written as "". `Export.ExportProgressCsv` and `Export.ListedLinesCoverTable` state how the lines cover the table. |
| Export.ExportProgressCsv | PeekABoo_Boxing_App/app.py:448-461 | The header, then exactly one line per stored record (with a null note written as ""), every line a record of the table, in strictly increasing `(week, day)` order. |
| Export.WriteRecords | PeekABoo_Boxing_App/app.py:456-461 | The writing loop writes the header and then the line of each row, in order. |
| Export.ListedLinesCoverTable | PeekABoo_Boxing_App/app.py:456-461 | Writing the line of each listed row, in order, gives a progress CSV of the table. |
| Export.ReadTime | PeekABoo_Boxing_App/app.py:494 | The training time is read when it is text that `strptime('%H:%M')` accepts. Anything else is the error `strptime` raises. |
| Export.SessionLine | PeekABoo_Boxing_App/app.py:486-506 | Specification of one calendar line: the duration parsed first, then the training time, each failure being the error raised. Its fields are stated by `Export.SessionLineFields`. |
| Export.Calendar | PeekABoo_Boxing_App/app.py:474-507 | Specification of the calendar export: the header and the line of each catalog session in week-then-day order, or the first error. `Export.ExportCalendar` is proved to compute it; `Export.FullProgramCalendar` and `Export.FullProgramBadTime` state its properties. |
| Export.SlotRoundTrip | PeekABoo_Boxing_App/app.py:483-484 | The slot order and the week-then-day loop agree. |
| Export.CalendarFailureSticks | PeekABoo_Boxing_App/app.py:491-494 | Once a line raises, the export fails with that error however many slots follow. |
| Export.CalendarStep | PeekABoo_Boxing_App/app.py:485-506 | One slot adds nothing when the catalog lacks the session. Otherwise it adds its line or fails with that line's error. |
| Export.ExportDay | PeekABoo_Boxing_App/app.py:485-506 | One pass of the day loop extends the calendar by that slot, or gives the error of the whole export. |
| Export.ExportWeek | PeekABoo_Boxing_App/app.py:484-506 | The day loop of one week extends the calendar by its five slots, or gives the error of the whole export. |
| Export.ExportCalendar | PeekABoo_Boxing_App/app.py:474-507 | The nested loops compute `Calendar`: the header, then the line of each catalog session in week-then-day order, or the first error. |
| Export.SessionLineFields | PeekABoo_Boxing_App/app.py:486-506 | When the duration and the training time parse, the line holds: the subject "Peek-a-Boo Boxing W{w}D{d}: focus"; the date 7(w-1)+(d-1) days after the anchor as both dates; the training time text; and start plus duration, modulo a day, as end time. |
| Export.ProgramDuration | PeekABoo_Boxing_App/app.py:490-491 | Every programme duration parses to the lower bound of its range. |
| Export.TrainingDataIsFullProgram | PeekABoo_Boxing_App/app.py:117-310 | The catalog has all 30 sessions, and each duration parses. |
| Export.FullProgramCalendar | PeekABoo_Boxing_App/app.py:483-506 | With an accepted training time, the calendar of the full programme has 31 lines: the header, then the line of session (w, d) at position 5(w-1)+(d-1)+1. |
| Export.FullProgramBadTime | PeekABoo_Boxing_App/app.py:494 | A training time `strptime` rejects makes the calendar export fail. |
| Export.Label | PeekABoo_Boxing_App/app.py:681 | Specification of `f"W{week}D{day}"`. `Export.LabelInjective` states that it tells sessions apart. |
| Export.LabelInjective | PeekABoo_Boxing_App/app.py:681 | Different sessions get different `W{w}D{d}` labels. |
| Export.ChartOf | PeekABoo_Boxing_App/app.py:680-685 | The four chart lists have one entry per row, and entry i is row i's label and ratings. |
| Export.ChartOfTable | PeekABoo_Boxing_App/app.py:674-685 | The chart of the table has one point per record. Its labels are all different, each point carries the ratings stored under its label's key, and point i is the i-th row of the `ORDER BY week, day` listing. |
| Export.SessionView | PeekABoo_Boxing_App/app.py:337-366 | A missing session is "Session not found". Otherwise the page has the week, the day, the catalog plan and the settings. It shows existing ratings exactly when the key is stored, and then they are the stored ratings and notes. |
| Export.ProgramSessionView | PeekABoo_Boxing_App/app.py:337-338 | Against the programme, a session page exists exactly for weeks 1..6 and days 1..5. |
| Export.ViewAfterSave | PeekABoo_Boxing_App/app.py:342-357 | After a save, the session page shows exactly the saved ratings and notes. |
| ProgramText.ProgramText | PeekABoo_Boxing_App/app.py:519-547 | Specification of the complete-program text: the title, then each week's banner followed by the blocks of its catalog sessions. `ProgramText.ExportFullProgram` is proved to compute it; `ProgramText.ProgramBullets`, `ProgramText.SameShownSameText`, `ProgramText.MissingSameAsEmpty` and `ProgramText.OtherKeysIgnored` state its properties. |
| ProgramText.ExportFullProgram | PeekABoo_Boxing_App/app.py:519-547 | The nested week and day loops write `ProgramText`: the title, then each week's banner followed by the blocks of its catalog sessions. |
| ProgramText.WriteSession | PeekABoo_Boxing_App/app.py:532-547 | One session block: the day header lines, the six sections in their fixed order, then the closing rule. |
| ProgramText.WriteSectionIfShown | PeekABoo_Boxing_App/app.py:541-545 | A section is written only when the session has it and it is non-empty. |
| ProgramText.WriteSection | PeekABoo_Boxing_App/app.py:542-545 | A section is its title line, then one bullet line per item, in order. |
| ProgramText.SameShownSameText | PeekABoo_Boxing_App/app.py:538-543 | Two sessions print the same block when they have the same header fields and show the same items under the six keys. |
| ProgramText.MissingSameAsEmpty | PeekABoo_Boxing_App/app.py:542 | A missing section key prints exactly like one that is present and empty. |
| ProgramText.OtherKeysIgnored | PeekABoo_Boxing_App/app.py:538-542 | Keys other than the six section keys are never printed. |
| ProgramText.BulletsCount | PeekABoo_Boxing_App/app.py:544-545 | A section's item lines have exactly one bullet per item. |
| ProgramText.SessionCount | PeekABoo_Boxing_App/app.py:532-547 | A session block has exactly one bullet per shown item. |
| ProgramText.ProgramBullets | PeekABoo_Boxing_App/app.py:524-547 | When no catalog text has a bullet of its own, the export has exactly one bullet per shown item of every session. |

## Left out

- Flask routing, templates, `send_file`, `jsonify`, redirects, the error pages and the context processor are not modelled. The `/api/stats` route and the `/splash` and `/` views are left out too: they are SQL and template plumbing.
- SQLite and the file system are abstracted. A table is a map and the store file is a pair of maps. The backup directory is a map from names to copied contents. `copy2` and `unlink` are map updates, and `glob` is the set of matching names (`Backups.Matching`). The creation of the data and backup directories (`mkdir`) is not modelled: both are taken to exist.
- `sqlite3.connect` creating an empty store file is not modelled. A save or a reset without a store file fails before any table exists, so the model reports the failure and keeps the file absent.
- File mtimes and the `%Y-%m-%d %H:%M:%S` date text on the export page are not modelled. Only the listed names are.
- The backup directory prefix of a path is not modelled. Backup names are file names.
- `datetime.now()` is not called. The write time, the backup stamp and the export anchor day are parameters.
- Date formatting is not modelled. A date cell holds a day number. A time cell holds minutes after midnight, and its `%H:%M` text is `Clock.ClockText` (proved to read back in `Clock.ClockRoundTrip`).
- `Stats.ComputeStats`: means are exact rational quotients. Python's float division and `round(…, 2)` are not modelled.
- `csv.writer` quoting and the UTF-8 encoding are not modelled. A CSV row is its list of cells, and the text export is a string.
- JSON decoding is not modelled: the settings file is given as what reading and decoding it yields (a read error, invalid JSON, or a document). The `json.dump` side of `save_settings` is the map itself.
- A settings value is text, a boolean, an integer or null. JSON floats, arrays and nested objects, which `json.load` can also yield as values, are not modelled; the merge treats every value alike, so only the training time's type matters, and any non-text value there is an error in `Export.ReadTime`.
- The catalog's prose is not modelled. Each session keeps its focus and duration. Its description is empty and it has no exercise sections, so the complete-program text of the real catalog has no bullet lines in this model. The text export is modelled and proved for any catalog.
- `Clock.ParseDuration`: `int()` accepts only ASCII digits here. Surrounding whitespace, a sign, underscores and non-ASCII digits are not modelled; every programme duration is plain digits.
- `Clock.ParseClock`: `strptime('%H:%M')` accepts one- or two-digit fields here. Whitespace handling and non-ASCII digits are not modelled.
- The `else 75` branch of the duration parse is not modelled: `split` never returns an empty list.
- `Store.Tracker.SaveProgress`: the request body is taken as five unbounded integers plus the notes member. A body that is not a JSON object, a missing `week`, `day`, `fluidity`, `endurance` or `power` (a `KeyError`), and an integer beyond SQLite's 64-bit range (an `OverflowError` at the insert) are not modelled; in each the source answers 500 and writes nothing. Non-integer values, which SQLite stores by column affinity or rejects, are not modelled either.
- The sessions table is modelled only as a map that reset empties and restore replaces. Its auto-increment id is not modelled, and no modelled route adds rows to it.
- The startup prints and `app.run` are not modelled.

## Findings

| source | as written | input that shows it | evidently intended | confidence | as-written member | corrected member |
|---|---|---|---|---|---|---|
| PeekABoo_Boxing_App/app.py:615-618 | `restore_backup` takes the safety snapshot, which prunes to ten files, and only then copies the named backup over the store. | Ten backups stamped 20240101_000000 … 20240110_000000; restore `peekaboo_backup_20240101_000000.db` at stamp 20240111_000000. The snapshot deletes that file, `copy2` raises, the route answers 500 and the backup is gone. | Restoring an existing backup always succeeds. The backup's contents become the live store, and the pre-restore store is kept as a snapshot. | not executed | Store.Tracker.Restore, Backups.SafetySnapshotEvictsOldest | Store.Tracker.RestoreIntended |
