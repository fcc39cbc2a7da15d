/** The progress table (app.py:74-82) keyed by (week, day), its
    insert-or-replace write (app.py:380-383) and its listing in
    (week, day) order (app.py:397, app.py:450). */
module Progress {
  import opened Basics

  type Key = (int, int)

  /** One stored self-rating; date is the ISO timestamp text of the write. */
  datatype Record = Record(fluidity: int, endurance: int, power: int,
                           date: string, notes: Option<string>)

  /** A row of the sessions (completion) table; its auto-increment id is
      not modelled. */
  datatype Completion = Completion(completedDate: string, duration: int)

  type Table = map<Key, Record>

  /** The whole store file: both tables. */
  datatype Db = Db(progress: Table, sessions: map<Key, Completion>)

  /** The notes member of the request body: absent, JSON null, or text. */
  datatype NotesField = Omitted | JsonNull | Given(text: string)

  /** data.get('notes', ''): an absent member becomes '', null stays null. */
  function StoredNotes(n: NotesField): Option<string>
  {
    match n
    case Omitted => Some("")
    case JsonNull => None
    case Given(t) => Some(t)
  }

  /** INSERT OR REPLACE of one record stamped with the write time now. */
  function Upsert(t: Table, week: int, day: int, fluidity: int, endurance: int,
                  power: int, notes: NotesField, now: string): (r: Table)
    ensures r.Keys == t.Keys + {(week, day)}
    ensures r[(week, day)] == Record(fluidity, endurance, power, now, StoredNotes(notes))
    ensures forall k :: k in t && k != (week, day) ==> r[k] == t[k]
  {
    t[(week, day) := Record(fluidity, endurance, power, now, StoredNotes(notes))]
  }

  /** Re-saving a key replaces the earlier write outright: the table is as
      if only the last save happened. With identical ratings the only
      difference a repeat makes is the timestamp. */
  lemma UpsertLastWriteWins(t: Table, week: int, day: int,
                            f1: int, e1: int, p1: int, n1: NotesField, now1: string,
                            f2: int, e2: int, p2: int, n2: NotesField, now2: string)
    ensures Upsert(Upsert(t, week, day, f1, e1, p1, n1, now1), week, day, f2, e2, p2, n2, now2)
         == Upsert(t, week, day, f2, e2, p2, n2, now2)
  {
  }

  datatype Row = Row(week: int, day: int, rec: Record)

  function KeyOf(r: Row): Key
  {
    (r.week, r.day)
  }

  /** ORDER BY week, day */
  predicate KeyLess(a: Key, b: Key)
  {
    a.0 < b.0 || (a.0 == b.0 && a.1 < b.1)
  }

  predicate IsLeastKey(m: Key, s: set<Key>)
  {
    m in s && forall x :: x in s && x != m ==> KeyLess(m, x)
  }

  lemma {:induction false} LeastKeyExists(s: set<Key>)
    requires s != {}
    ensures exists m :: IsLeastKey(m, s)
    decreases |s|
  {
    var x :| x in s;
    if s == {x} {
      assert IsLeastKey(x, s);
    } else {
      LeastKeyExists(s - {x});
      var m :| IsLeastKey(m, s - {x});
      if KeyLess(m, x) {
        assert IsLeastKey(m, s);
      } else {
        assert KeyLess(x, m);
        forall y | y in s && y != x ensures KeyLess(x, y) {
          if y != m { assert KeyLess(m, y); }
        }
        assert IsLeastKey(x, s);
      }
    }
  }

  function SortedKeys(s: set<Key>): (r: seq<Key>)
    ensures |r| == |s|
    ensures forall k :: k in r <==> k in s
    ensures forall i, j :: 0 <= i < j < |r| ==> KeyLess(r[i], r[j])
    decreases |s|
  {
    if s == {} then []
    else
      LeastKeyExists(s);
      var m :| IsLeastKey(m, s);
      var rest := SortedKeys(s - {m});
      PrependLeastKey(m, s, rest);
      [m] + rest
  }

  /** The least key of s put before the sorted rest sorts s. */
  lemma PrependLeastKey(m: Key, s: set<Key>, rest: seq<Key>)
    requires IsLeastKey(m, s)
    requires |rest| == |s - {m}| && (forall k :: k in rest <==> k in s - {m})
    requires forall i, j :: 0 <= i < j < |rest| ==> KeyLess(rest[i], rest[j])
    ensures |[m] + rest| == |s|
    ensures forall k :: k in [m] + rest <==> k in s
    ensures forall i, j :: 0 <= i < j < |[m] + rest| ==> KeyLess(([m] + rest)[i], ([m] + rest)[j])
  {
    var r := [m] + rest;
    forall i, j | 0 <= i < j < |r| ensures KeyLess(r[i], r[j]) {
      if i == 0 {
        assert r[j] == rest[j - 1] && r[j] in rest;
      } else {
        assert r[i] == rest[i - 1] && r[j] == rest[j - 1];
      }
    }
  }

  /** SELECT week, day, fluidity, endurance, power, date, notes FROM progress
      ORDER BY week, day: every stored record once, in key order. */
  function Listing(t: Table): (rows: seq<Row>)
    ensures |rows| == |t|
    ensures forall i :: 0 <= i < |rows| ==> KeyOf(rows[i]) in t && rows[i].rec == t[KeyOf(rows[i])]
    ensures forall k :: k in t ==> exists i :: 0 <= i < |rows| && KeyOf(rows[i]) == k
    ensures forall i, j :: 0 <= i < j < |rows| ==> KeyLess(KeyOf(rows[i]), KeyOf(rows[j]))
  {
    var keys := SortedKeys(t.Keys);
    KeysIndexed(t, keys);
    var rows := RowsFor(t, keys);
    RowsOfKeys(t, keys, rows);
    rows
  }

  lemma KeysIndexed(t: Table, keys: seq<Key>)
    requires forall k :: k in keys <==> k in t
    ensures forall i :: 0 <= i < |keys| ==> keys[i] in t
    ensures forall k :: k in t ==> exists i :: 0 <= i < |keys| && keys[i] == k
  {
    assert forall i :: 0 <= i < |keys| ==> keys[i] in keys;
  }

  /** The row of each key, in the order of keys. */
  function RowsFor(t: Table, keys: seq<Key>): (rows: seq<Row>)
    requires forall i :: 0 <= i < |keys| ==> keys[i] in t
    ensures |rows| == |keys|
    ensures forall i :: 0 <= i < |rows| ==> rows[i] == Row(keys[i].0, keys[i].1, t[keys[i]])
  {
    seq(|keys|, i requires 0 <= i < |keys| => Row(keys[i].0, keys[i].1, t[keys[i]]))
  }

  /** One row per sorted key, holding the key's record, lists the table. */
  lemma RowsOfKeys(t: Table, keys: seq<Key>, rows: seq<Row>)
    requires forall k :: k in t ==> exists i :: 0 <= i < |keys| && keys[i] == k
    requires forall i, j :: 0 <= i < j < |keys| ==> KeyLess(keys[i], keys[j])
    requires |rows| == |keys|
    requires forall i :: 0 <= i < |rows| ==> keys[i] in t && rows[i] == Row(keys[i].0, keys[i].1, t[keys[i]])
    ensures forall i :: 0 <= i < |rows| ==> KeyOf(rows[i]) in t && rows[i].rec == t[KeyOf(rows[i])]
    ensures forall k :: k in t ==> exists i :: 0 <= i < |rows| && KeyOf(rows[i]) == k
    ensures forall i, j :: 0 <= i < j < |rows| ==> KeyLess(KeyOf(rows[i]), KeyOf(rows[j]))
  {
    assert forall i :: 0 <= i < |rows| ==> KeyOf(rows[i]) == keys[i];
    forall k | k in t ensures exists i :: 0 <= i < |rows| && KeyOf(rows[i]) == k {
      var i :| 0 <= i < |keys| && keys[i] == k;
      assert KeyOf(rows[i]) == k;
    }
  }

  /** After a save, fetching that key gives back exactly what was saved. */
  lemma SavedRecordIsListed(t: Table, week: int, day: int, fluidity: int, endurance: int,
                            power: int, notes: NotesField, now: string)
    ensures var rows := Listing(Upsert(t, week, day, fluidity, endurance, power, notes, now));
      exists i :: 0 <= i < |rows| && rows[i] == Row(week, day, Record(fluidity, endurance, power, now, StoredNotes(notes)))
  {
    var u := Upsert(t, week, day, fluidity, endurance, power, notes, now);
    var rows := Listing(u);
    assert (week, day) in u;
    var i :| 0 <= i < |rows| && KeyOf(rows[i]) == (week, day);
    assert rows[i] == Row(week, day, Record(fluidity, endurance, power, now, StoredNotes(notes)));
  }
}
