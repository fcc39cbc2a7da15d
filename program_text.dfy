/** The complete-program text export (export_full_program, app.py:516-555):
    a title, then for each week a banner and, for each of its catalog
    sessions, a block with the focus, duration, description, the non-empty
    exercise sections in their fixed order as bullet lines, and a closing
    rule. */
module ProgramText {
  import opened Text
  import opened Catalog

  /** The section keys looked up in a session, and the title each is
      printed under, in printing order. */
  const SectionKeys: seq<string> := ["warmup", "technical", "combos", "bagwork", "conditioning", "recovery"]
  const SectionTitles: seq<string> :=
    ["WARM-UP", "TECHNICAL WORK", "COMBINATIONS", "BAG WORK", "CONDITIONING", "RECOVERY"]

  /** The bullet character every exercise item is printed after. */
  const Bullet: char := '\U{2022}'

  /** c * n */
  function Repeat(c: char, n: nat): (s: string)
    ensures |s| == n && forall i :: 0 <= i < n ==> s[i] == c
  {
    seq(n, _ => c)
  }

  /** "=" * 80 and "-" * 80. */
  const Rule: string := Repeat('=', 80)
  const Dashes: string := Repeat('-', 80)

  const Title: string := "PEEK-A-BOO BOXING TRAINING PROGRAM\n" + Rule + "\n\n"

  /** The items a section key shows: its list, or nothing when the session
      has no such key. */
  function Shown(e: Entry, k: nat): seq<string>
    requires k < 6
  {
    if SectionKeys[k] in e.sections then e.sections[SectionKeys[k]] else []
  }

  function BulletLine(item: string): string
  {
    "  " + [Bullet] + " " + item + "\n"
  }

  function Bullets(items: seq<string>): string
  {
    if items == [] then "" else Bullets(items[..|items| - 1]) + BulletLine(items[|items| - 1])
  }

  function SectionHead(k: nat): string
    requires k < 6
  {
    "\n" + SectionTitles[k] + ":\n"
  }

  /** Section k of a session: skipped when missing or empty. */
  function SectionText(e: Entry, k: nat): string
    requires k < 6
  {
    if Shown(e, k) == [] then "" else SectionHead(k) + Bullets(Shown(e, k))
  }

  /** The first k sections of a session. */
  function SectionsText(e: Entry, k: nat): string
    requires k <= 6
  {
    if k == 0 then "" else SectionsText(e, k - 1) + SectionText(e, k - 1)
  }

  function SessionHead(day: int, e: Entry): string
  {
    "\nDAY " + IntToString(day) + ": " + e.focus + "\n" + Dashes + "\n"
    + "Duration: " + e.duration + "\n" + "Description: " + e.description + "\n\n"
  }

  const SessionTail: string := "\n" + Rule + "\n"

  function SessionText(day: int, e: Entry): string
  {
    SessionHead(day, e) + SectionsText(e, 6) + SessionTail
  }

  function WeekHeader(week: int): string
  {
    "\n" + Rule + "\n" + "WEEK " + IntToString(week) + "\n" + Rule + "\n\n"
  }

  /** The blocks of days 1..d of a week that the catalog has. */
  function DaysText(cat: Catalog, week: int, d: nat): string
    requires d <= 5
  {
    if d == 0 then ""
    else DaysText(cat, week, d - 1) + (if (week, d) in cat then SessionText(d, cat[(week, d)]) else "")
  }

  /** Weeks 1..w, each a banner followed by its sessions. */
  function WeeksText(cat: Catalog, w: nat): string
    requires w <= 6
  {
    if w == 0 then "" else WeeksText(cat, w - 1) + WeekHeader(w) + DaysText(cat, w, 5)
  }

  function ProgramText(cat: Catalog): string
  {
    Title + WeeksText(cat, 6)
  }

  // ---------------------------------------------------------------- the writer

  /** export_full_program's loops over weeks 1..6 and days 1..5. */
  method ExportFullProgram(cat: Catalog) returns (out: string)
    ensures out == ProgramText(cat)
  {
    out := Title;
    for week := 1 to 7
      invariant out == Title + WeeksText(cat, week - 1)
    {
      out := out + WeekHeader(week);
      for day := 1 to 6
        invariant out == Title + WeeksText(cat, week - 1) + WeekHeader(week) + DaysText(cat, week, day - 1)
      {
        if (week, day) in cat {
          var block := WriteSession(day, cat[(week, day)]);
          Append3(Title + WeeksText(cat, week - 1) + WeekHeader(week), DaysText(cat, week, day - 1), block);
          out := out + block;
        } else {
          assert DaysText(cat, week, day) == DaysText(cat, week, day - 1) + [];
        }
      }
      Append3(Title + WeeksText(cat, week - 1), WeekHeader(week), DaysText(cat, week, 5));
      Append3(Title, WeeksText(cat, week - 1), WeekHeader(week) + DaysText(cat, week, 5));
      Append3(WeeksText(cat, week - 1), WeekHeader(week), DaysText(cat, week, 5));
    }
  }

  /** The block of one session: its header lines, the loop over the six
      sections and their items, and the closing rule. */
  method WriteSession(day: int, e: Entry) returns (text: string)
    ensures text == SessionText(day, e)
  {
    var head := SessionHead(day, e);
    text := head;
    assert text == head + SectionsText(e, 0);
    for k := 0 to 6
      invariant text == head + SectionsText(e, k)
    {
      var section := WriteSectionIfShown(e, k);
      Append3(head, SectionsText(e, k), section);
      text := text + section;
    }
    text := text + SessionTail;
  }

  /** One pass of the loop over the six sections: the section when the
      session has it and it is non-empty, nothing otherwise. */
  method WriteSectionIfShown(e: Entry, k: nat) returns (text: string)
    requires k < 6
    ensures text == SectionText(e, k)
  {
    var key := SectionKeys[k];
    if key in e.sections && e.sections[key] != [] {
      text := WriteSection(k, e.sections[key]);
    } else {
      text := "";
    }
  }

  /** A present, non-empty section: its title line, then one bullet line per
      item. */
  method WriteSection(k: nat, items: seq<string>) returns (text: string)
    requires k < 6
    ensures text == SectionHead(k) + Bullets(items)
  {
    text := SectionHead(k);
    for j := 0 to |items|
      invariant text == SectionHead(k) + Bullets(items[..j])
    {
      assert items[..j + 1][..j] == items[..j];
      text := text + BulletLine(items[j]);
    }
    assert items[..|items|] == items;
  }

  lemma Append3(a: string, b: string, c: string)
    ensures (a + b) + c == a + (b + c)
  {
  }

  // ---------------------------------------------------------------- sections

  /** Only the six known keys are printed, and only through what they
      show: two sessions with the same header fields that show the same
      items under each of the six keys print the same block. */
  lemma SameShownSameText(day: int, e1: Entry, e2: Entry)
    requires e1.focus == e2.focus && e1.duration == e2.duration && e1.description == e2.description
    requires forall k :: 0 <= k < 6 ==> Shown(e1, k) == Shown(e2, k)
    ensures SessionText(day, e1) == SessionText(day, e2)
  {
    SameShownSections(e1, e2, 6);
  }

  lemma {:induction false} SameShownSections(e1: Entry, e2: Entry, n: nat)
    requires n <= 6
    requires forall k :: 0 <= k < n ==> Shown(e1, k) == Shown(e2, k)
    ensures SectionsText(e1, n) == SectionsText(e2, n)
  {
    if n > 0 {
      SameShownSections(e1, e2, n - 1);
      assert SectionText(e1, n - 1) == SectionText(e2, n - 1);
    }
  }

  /** A section key that is missing prints exactly as one that is present
      with no items. */
  lemma MissingSameAsEmpty(day: int, e: Entry, key: string)
    ensures SessionText(day, e.(sections := e.sections - {key}))
         == SessionText(day, e.(sections := e.sections[key := []]))
  {
    var e1, e2 := e.(sections := e.sections - {key}), e.(sections := e.sections[key := []]);
    forall k | 0 <= k < 6 ensures Shown(e1, k) == Shown(e2, k) {
    }
    SameShownSameText(day, e1, e2);
  }

  /** Keys other than the six are never printed. */
  lemma OtherKeysIgnored(day: int, e: Entry, key: string, items: seq<string>)
    requires key !in SectionKeys
    ensures SessionText(day, e.(sections := e.sections[key := items])) == SessionText(day, e)
  {
    var e1 := e.(sections := e.sections[key := items]);
    forall k | 0 <= k < 6 ensures Shown(e1, k) == Shown(e, k) {
      assert SectionKeys[k] != key;
    }
    SameShownSameText(day, e1, e);
  }

  // ---------------------------------------------------------------- bullets

  /** How often c occurs in s. */
  function Count(s: string, c: char): nat
  {
    if s == [] then 0 else Count(s[..|s| - 1], c) + (if s[|s| - 1] == c then 1 else 0)
  }

  lemma {:induction false} CountConcat(a: string, b: string, c: char)
    ensures Count(a + b, c) == Count(a, c) + Count(b, c)
  {
    if b != [] {
      assert (a + b)[..|a + b| - 1] == a + b[..|b| - 1];
      assert (a + b)[|a + b| - 1] == b[|b| - 1];
      CountConcat(a, b[..|b| - 1], c);
    } else {
      assert a + b == a;
    }
  }

  lemma {:induction false} CountAbsent(s: string, c: char)
    requires c !in s
    ensures Count(s, c) == 0
  {
    if s != [] {
      assert s[..|s| - 1] <= s;
      CountAbsent(s[..|s| - 1], c);
    }
  }

  /** Text that holds no bullet character of its own. */
  predicate Plain(s: string)
  {
    Bullet !in s
  }

  /** Every text field and item of every catalog session is plain. */
  predicate PlainEntry(e: Entry)
  {
    && Plain(e.focus) && Plain(e.duration) && Plain(e.description)
    && forall key :: key in e.sections ==> forall i :: 0 <= i < |e.sections[key]| ==> Plain(e.sections[key][i])
  }

  /** The items shown by the first n sections. */
  function SectionItems(e: Entry, n: nat): nat
    requires n <= 6
  {
    if n == 0 then 0 else SectionItems(e, n - 1) + |Shown(e, n - 1)|
  }

  /** The items of the sessions of days 1..d of a week. */
  function DayItems(cat: Catalog, week: int, d: nat): nat
    requires d <= 5
  {
    if d == 0 then 0
    else DayItems(cat, week, d - 1) + (if (week, d) in cat then SectionItems(cat[(week, d)], 6) else 0)
  }

  function WeekItems(cat: Catalog, w: nat): nat
    requires w <= 6
  {
    if w == 0 then 0 else WeekItems(cat, w - 1) + DayItems(cat, w, 5)
  }

  lemma BulletLineCount(item: string)
    requires Plain(item)
    ensures Count(BulletLine(item), Bullet) == 1
  {
    var mark, rest := "  " + [Bullet], " " + item + "\n";
    assert BulletLine(item) == mark + rest;
    CountConcat(mark, rest, Bullet);
    CountAbsent(rest, Bullet);
    assert mark[..2] == "  ";
    CountAbsent("  ", Bullet);
  }

  lemma {:induction false} BulletsCount(items: seq<string>)
    requires forall i :: 0 <= i < |items| ==> Plain(items[i])
    ensures Count(Bullets(items), Bullet) == |items|
  {
    if items != [] {
      var prefix, last := items[..|items| - 1], items[|items| - 1];
      BulletsCount(prefix);
      BulletLineCount(last);
      CountConcat(Bullets(prefix), BulletLine(last), Bullet);
    }
  }

  lemma SectionCount(e: Entry, k: nat)
    requires k < 6 && PlainEntry(e)
    ensures Count(SectionText(e, k), Bullet) == |Shown(e, k)|
  {
    if Shown(e, k) != [] {
      var items := Shown(e, k);
      assert forall i :: 0 <= i < |items| ==> Plain(items[i]);
      BulletsCount(items);
      CountConcat(SectionHead(k), Bullets(items), Bullet);
      CountAbsent(SectionHead(k), Bullet);
    }
  }

  lemma {:induction false} SectionsCount(e: Entry, n: nat)
    requires n <= 6 && PlainEntry(e)
    ensures Count(SectionsText(e, n), Bullet) == SectionItems(e, n)
  {
    if n > 0 {
      SectionsCount(e, n - 1);
      SectionCount(e, n - 1);
      CountConcat(SectionsText(e, n - 1), SectionText(e, n - 1), Bullet);
    }
  }

  lemma HeadPlain(day: int, e: Entry)
    requires PlainEntry(e)
    ensures Count(SessionHead(day, e), Bullet) == 0
  {
    var s := IntToString(day);
    assert Bullet !in s by {
      forall i | 0 <= i < |s| ensures s[i] != Bullet { }
    }
    assert Bullet !in Dashes;
    CountAbsent(SessionHead(day, e), Bullet);
  }

  /** A session block holds one bullet per shown item. */
  lemma SessionCount(day: int, e: Entry)
    requires PlainEntry(e)
    ensures Count(SessionText(day, e), Bullet) == SectionItems(e, 6)
  {
    HeadPlain(day, e);
    SectionsCount(e, 6);
    assert Bullet !in Rule;
    CountAbsent(SessionTail, Bullet);
    CountConcat(SessionHead(day, e), SectionsText(e, 6), Bullet);
    CountConcat(SessionHead(day, e) + SectionsText(e, 6), SessionTail, Bullet);
  }

  lemma {:induction false} DaysCount(cat: Catalog, week: int, d: nat)
    requires d <= 5
    requires forall k :: k in cat ==> PlainEntry(cat[k])
    ensures Count(DaysText(cat, week, d), Bullet) == DayItems(cat, week, d)
  {
    if d > 0 {
      DaysCount(cat, week, d - 1);
      var block := if (week, d) in cat then SessionText(d, cat[(week, d)]) else "";
      if (week, d) in cat {
        SessionCount(d, cat[(week, d)]);
      }
      CountConcat(DaysText(cat, week, d - 1), block, Bullet);
    }
  }

  lemma WeekHeaderPlain(week: int)
    ensures Count(WeekHeader(week), Bullet) == 0
  {
    var s := IntToString(week);
    assert Bullet !in s by {
      forall i | 0 <= i < |s| ensures s[i] != Bullet { }
    }
    assert Bullet !in Rule;
    CountAbsent(WeekHeader(week), Bullet);
  }

  lemma {:induction false} WeeksCount(cat: Catalog, w: nat)
    requires w <= 6
    requires forall k :: k in cat ==> PlainEntry(cat[k])
    ensures Count(WeeksText(cat, w), Bullet) == WeekItems(cat, w)
  {
    if w > 0 {
      var prev, banner, days := WeeksText(cat, w - 1), WeekHeader(w), DaysText(cat, w, 5);
      WeeksCount(cat, w - 1);
      WeekHeaderPlain(w);
      DaysCount(cat, w, 5);
      CountConcat(prev, banner, Bullet);
      CountConcat(prev + banner, days, Bullet);
      assert WeeksText(cat, w) == prev + banner + days;
    }
  }

  /** When no catalog text holds a bullet character of its own, the
      exported text has exactly one bullet per item of a present section of
      a session in weeks 1..6, days 1..5: every shown item is printed once,
      and nothing else is printed as an item. */
  lemma ProgramBullets(cat: Catalog)
    requires forall k :: k in cat ==> PlainEntry(cat[k])
    ensures Count(ProgramText(cat), Bullet) == WeekItems(cat, 6)
  {
    assert Bullet !in Rule;
    CountAbsent(Title, Bullet);
    WeeksCount(cat, 6);
    CountConcat(Title, WeeksText(cat, 6), Bullet);
  }
}
