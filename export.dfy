/** The read-only views over the store and the catalog: the progress CSV
    (app.py:445-469), the calendar CSV (app.py:471-514), the chart data
    (app.py:671-687) and the session page lookup (app.py:334-366). A CSV
    row is its list of cells; csv quoting and the byte encoding are not
    modelled; a date cell holds a day number rather than its %m/%d/%Y
    text, and a time cell holds minutes after midnight, whose %H:%M text
    is Clock.ClockText of it (Clock.EndTime for an end time). */
module Export {
  import opened Basics
  import opened Text
  import opened Progress
  import opened Catalog
  import opened Clock
  import Settings

  datatype Cell = Str(s: string) | Num(n: int) | Day(ordinal: int) | Time(minute: int)

  type CsvRow = seq<Cell>

  // ---------------------------------------------------------------- progress CSV

  const ProgressHeader: CsvRow :=
    [Str("Week"), Str("Day"), Str("Fluidity"), Str("Endurance"), Str("Power"), Str("Date"), Str("Notes")]

  /** The line written for the record stored under key; a null note is
      written as the empty string. */
  function RecordLine(key: Key, rec: Record): CsvRow
  {
    [Num(key.0), Num(key.1), Num(rec.fluidity), Num(rec.endurance), Num(rec.power),
     Str(rec.date), Str(OrElse(rec.notes, ""))]
  }

  /** The (week, day) a record line starts with. */
  function LineKey(line: CsvRow): Key
  {
    if |line| >= 2 && line[0].Num? && line[1].Num? then (line[0].n, line[1].n) else (0, 0)
  }

  /** out is a progress CSV of t: the header, then exactly one line per
      stored record, in (week, day) order. */
  ghost predicate IsProgressCsv(out: seq<CsvRow>, t: Table)
  {
    && |out| == |t| + 1
    && out[0] == ProgressHeader
    && (forall k :: k in t ==> exists i :: 1 <= i < |out| && out[i] == RecordLine(k, t[k]))
    && (forall i :: 1 <= i < |out| ==> exists k :: k in t && out[i] == RecordLine(k, t[k]))
    && (forall i, j :: 1 <= i < j < |out| ==> KeyLess(LineKey(out[i]), LineKey(out[j])))
  }

  /** Writing one line per listed row, in listing order, gives a progress
      CSV of the table. */
  lemma ListedLinesCoverTable(t: Table, out: seq<CsvRow>)
    requires |out| == |t| + 1 && out[0] == ProgressHeader
    requires forall i :: 0 <= i < |t| ==> out[i + 1] == RecordLine(KeyOf(Listing(t)[i]), Listing(t)[i].rec)
    ensures IsProgressCsv(out, t)
  {
    EveryRecordWritten(t, out);
    OnlyRecordsWritten(t, out);
    LinesInKeyOrder(t, out);
  }

  lemma EveryRecordWritten(t: Table, out: seq<CsvRow>)
    requires |out| == |t| + 1
    requires forall i :: 0 <= i < |t| ==> out[i + 1] == RecordLine(KeyOf(Listing(t)[i]), Listing(t)[i].rec)
    ensures forall k :: k in t ==> exists i :: 1 <= i < |out| && out[i] == RecordLine(k, t[k])
  {
    var rows := Listing(t);
    forall k | k in t ensures exists i :: 1 <= i < |out| && out[i] == RecordLine(k, t[k]) {
      var i :| 0 <= i < |rows| && KeyOf(rows[i]) == k;
      assert out[i + 1] == RecordLine(k, t[k]);
    }
  }

  lemma OnlyRecordsWritten(t: Table, out: seq<CsvRow>)
    requires |out| == |t| + 1
    requires forall i :: 0 <= i < |t| ==> out[i + 1] == RecordLine(KeyOf(Listing(t)[i]), Listing(t)[i].rec)
    ensures forall i :: 1 <= i < |out| ==> exists k :: k in t && out[i] == RecordLine(k, t[k])
  {
    var rows := Listing(t);
    forall i | 1 <= i < |out| ensures exists k :: k in t && out[i] == RecordLine(k, t[k]) {
      var k := KeyOf(rows[i - 1]);
      assert k in t && out[i] == RecordLine(k, t[k]);
    }
  }

  lemma LineKeyOfRecord(key: Key, rec: Record)
    ensures LineKey(RecordLine(key, rec)) == key
  {
  }

  lemma LinesInKeyOrder(t: Table, out: seq<CsvRow>)
    requires |out| == |t| + 1
    requires forall i :: 0 <= i < |t| ==> out[i + 1] == RecordLine(KeyOf(Listing(t)[i]), Listing(t)[i].rec)
    ensures forall i, j :: 1 <= i < j < |out| ==> KeyLess(LineKey(out[i]), LineKey(out[j]))
  {
    var rows := Listing(t);
    forall i, j | 1 <= i < j < |out|
      ensures KeyLess(LineKey(out[i]), LineKey(out[j]))
    {
      LineKeyOfRecord(KeyOf(rows[i - 1]), rows[i - 1].rec);
      LineKeyOfRecord(KeyOf(rows[j - 1]), rows[j - 1].rec);
      assert out[i] == RecordLine(KeyOf(rows[i - 1]), rows[i - 1].rec);
      assert out[j] == RecordLine(KeyOf(rows[j - 1]), rows[j - 1].rec);
    }
  }

  /** export_progress_csv: select the rows in key order and write one line each. */
  method ExportProgressCsv(t: Table) returns (out: seq<CsvRow>)
    ensures IsProgressCsv(out, t)
  {
    out := WriteRecords(Listing(t));
    ListedLinesCoverTable(t, out);
  }

  /** The writing loop: the header, then one line per row, in order. */
  method WriteRecords(rows: seq<Row>) returns (out: seq<CsvRow>)
    ensures |out| == |rows| + 1 && out[0] == ProgressHeader
    ensures forall j :: 0 <= j < |rows| ==> out[j + 1] == RecordLine(KeyOf(rows[j]), rows[j].rec)
  {
    out := [ProgressHeader];
    var i := 0;
    while i < |rows|
      invariant 0 <= i <= |rows|
      invariant |out| == i + 1 && out[0] == ProgressHeader
      invariant forall j :: 0 <= j < i ==> out[j + 1] == RecordLine(KeyOf(rows[j]), rows[j].rec)
    {
      out := out + [RecordLine(KeyOf(rows[i]), rows[i].rec)];
      i := i + 1;
    }
  }

  // ---------------------------------------------------------------- calendar CSV

  const CalendarHeader: CsvRow :=
    [Str("Subject"), Str("Start Date"), Str("Start Time"), Str("End Date"), Str("End Time"),
     Str("Description"), Str("Location")]

  function Subject(week: int, day: int, plan: Entry): string
  {
    "Peek-a-Boo Boxing W" + IntToString(week) + "D" + IntToString(day) + ": " + plan.focus
  }

  /** Days from the anchor date: timedelta(weeks=week-1, days=day-1). */
  function DayOffset(week: int, day: int): int
  {
    7 * (week - 1) + (day - 1)
  }

  /** The training_time setting as written and as strptime(..., '%H:%M')
      reads it, in minutes after midnight; a value that is not a string
      fails as well. strptime is a pure function of the setting, so
      reading it once gives what every iteration of the export reads. */
  type StartTime = Result<(string, nat), ClockError>

  function ReadTime(time: Settings.Value): (r: StartTime)
    ensures r.Success? <==> time.Text? && ParseClock(time.s).Success?
    ensures r.Success? ==> time == Settings.Text(r.value.0) && ParseClock(r.value.0) == Success(r.value.1)
    ensures r.Failure? ==> r.error == BadTime
  {
    if !time.Text? then Failure(BadTime)
    else
      match ParseClock(time.s)
      case Failure(e) => Failure(e)
      case Success(start) => Success((time.s, start))
  }

  /** The line for one catalog session, failing where int() raises on the
      duration or, after it, strptime() on the training time. */
  function SessionLine(week: int, day: int, plan: Entry, clock: StartTime, anchor: int): Result<CsvRow, ClockError>
  {
    match ParseDuration(plan.duration)
    case Failure(e) => Failure(e)
    case Success(minutes) =>
      match clock
      case Failure(e) => Failure(e)
      case Success(time) =>
        var date := Day(anchor + DayOffset(week, day));
        Success([Str(Subject(week, day, plan)), date, Str(time.0), date, Time((time.1 + minutes) % MinutesPerDay),
                 Str(plan.description + "\n\nFocus: " + plan.focus), Str("Training Location")])
  }

  /** The week of the n-th slot of the week 1..6, day 1..5 iteration. */
  function SlotWeek(n: nat): int { n / 5 + 1 }
  function SlotDay(n: nat): int { n % 5 + 1 }

  /** Slot numbering and the (week, day) iteration agree. */
  lemma SlotRoundTrip(week: int, day: int)
    requires InProgram(week, day)
    ensures SlotWeek(Slot(week, day)) == week && SlotDay(Slot(week, day)) == day
  {
  }

  /** The lines written for the first n slots, or the first error. */
  function CalendarUpTo(cat: Catalog, clock: StartTime, anchor: int, n: nat): Result<seq<CsvRow>, ClockError>
    requires n <= 30
  {
    if n == 0 then Success([])
    else
      var prev := CalendarUpTo(cat, clock, anchor, n - 1);
      var w, d := SlotWeek(n - 1), SlotDay(n - 1);
      if prev.Failure? || (w, d) !in cat then prev
      else
        match SessionLine(w, d, cat[(w, d)], clock, anchor)
        case Failure(e) => Failure(e)
        case Success(line) => Success(prev.value + [line])
  }

  function Calendar(cat: Catalog, settings: Settings.Settings, anchor: int): Result<seq<CsvRow>, ClockError>
  {
    match CalendarUpTo(cat, ReadTime(Settings.TrainingTime(settings)), anchor, 30)
    case Failure(e) => Failure(e)
    case Success(lines) => Success([CalendarHeader] + lines)
  }

  lemma {:induction false} CalendarFailureSticks(cat: Catalog, clock: StartTime, anchor: int, n: nat, m: nat)
    requires n <= m <= 30
    requires CalendarUpTo(cat, clock, anchor, n).Failure?
    ensures CalendarUpTo(cat, clock, anchor, m) == CalendarUpTo(cat, clock, anchor, n)
    decreases m - n
  {
    if n < m {
      CalendarFailureSticks(cat, clock, anchor, n, m - 1);
    }
  }

  /** One step of the calendar fold, from a prefix that has not failed. */
  lemma CalendarStep(cat: Catalog, clock: StartTime, anchor: int, n: nat, week: int, day: int)
    requires n < 30
    requires week == SlotWeek(n) && day == SlotDay(n)
    requires CalendarUpTo(cat, clock, anchor, n).Success?
    ensures (week, day) !in cat ==> CalendarUpTo(cat, clock, anchor, n + 1) == CalendarUpTo(cat, clock, anchor, n)
    ensures (week, day) in cat && SessionLine(week, day, cat[(week, day)], clock, anchor).Failure? ==>
              CalendarUpTo(cat, clock, anchor, n + 1) == Failure(SessionLine(week, day, cat[(week, day)], clock, anchor).error)
    ensures (week, day) in cat && SessionLine(week, day, cat[(week, day)], clock, anchor).Success? ==>
              CalendarUpTo(cat, clock, anchor, n + 1)
              == Success(CalendarUpTo(cat, clock, anchor, n).value + [SessionLine(week, day, cat[(week, day)], clock, anchor).value])
  {
  }

  /** The inner loop of export_calendar_csv for one week: out, which holds
      the header and the lines of the weeks before, gets the lines of this
      week's catalog sessions, or the first error. */
  method ExportWeek(cat: Catalog, clock: StartTime, anchor: int, week: int, out: seq<CsvRow>)
    returns (r: Result<seq<CsvRow>, ClockError>)
    requires 1 <= week <= WeekCount
    requires |out| >= 1 && out[0] == CalendarHeader
    requires CalendarUpTo(cat, clock, anchor, 5 * (week - 1)) == Success(out[1..])
    ensures r.Success? ==> |r.value| >= 1 && r.value[0] == CalendarHeader
    ensures r.Success? ==> CalendarUpTo(cat, clock, anchor, 5 * week) == Success(r.value[1..])
    ensures r.Failure? ==> CalendarUpTo(cat, clock, anchor, 30) == Failure(r.error)
  {
    var lines := out;
    ghost var n: nat := 5 * (week - 1);
    for day := 1 to DayCount + 1
      invariant n == 5 * (week - 1) + (day - 1)
      invariant |lines| >= 1 && lines[0] == CalendarHeader && CalendarUpTo(cat, clock, anchor, n) == Success(lines[1..])
    {
      var next := ExportDay(cat, clock, anchor, n, week, day, lines);
      if next.Failure? {
        return next;
      }
      lines := next.value;
      n := n + 1;
    }
    r := Success(lines);
  }

  /** The body of the inner loop: the line of session (week, day), the n-th
      slot, appended when the catalog has that session. */
  method ExportDay(cat: Catalog, clock: StartTime, anchor: int, ghost n: nat, week: int, day: int, lines: seq<CsvRow>)
    returns (r: Result<seq<CsvRow>, ClockError>)
    requires n < 30 && week == SlotWeek(n) && day == SlotDay(n)
    requires |lines| >= 1 && lines[0] == CalendarHeader
    requires CalendarUpTo(cat, clock, anchor, n) == Success(lines[1..])
    ensures r.Success? ==> |r.value| >= 1 && r.value[0] == CalendarHeader
    ensures r.Success? ==> CalendarUpTo(cat, clock, anchor, n + 1) == Success(r.value[1..])
    ensures r.Failure? ==> CalendarUpTo(cat, clock, anchor, 30) == Failure(r.error)
  {
    CalendarStep(cat, clock, anchor, n, week, day);
    if (week, day) !in cat {
      return Success(lines);
    }
    var line := SessionLine(week, day, cat[(week, day)], clock, anchor);
    if line.Failure? {
      CalendarFailureSticks(cat, clock, anchor, n + 1, 30);
      return Failure(line.error);
    }
    assert (lines + [line.value])[1..] == lines[1..] + [line.value];
    r := Success(lines + [line.value]);
  }

  /** export_calendar_csv: the header, then for week 1..6 and day 1..5 the
      line of each catalog session; the anchor is the day of the export. */
  method ExportCalendar(cat: Catalog, settings: Settings.Settings, anchor: int)
    returns (r: Result<seq<CsvRow>, ClockError>)
    ensures r == Calendar(cat, settings, anchor)
  {
    var clock := ReadTime(Settings.TrainingTime(settings));
    var out := [CalendarHeader];
    assert CalendarUpTo(cat, clock, anchor, 0) == Success([]);
    assert out[1..] == [];
    for week := 1 to WeekCount + 1
      invariant |out| >= 1 && out[0] == CalendarHeader
      invariant CalendarUpTo(cat, clock, anchor, 5 * (week - 1)) == Success(out[1..])
    {
      var next := ExportWeek(cat, clock, anchor, week, out);
      if next.Failure? {
        return Failure(next.error);
      }
      out := next.value;
    }
    assert out == [CalendarHeader] + out[1..];
    r := Success(out);
  }

  /** cat holds exactly the sessions of weeks 1..6, days 1..5, and every
      duration of it starts with an integer. */
  ghost predicate FullProgram(cat: Catalog)
  {
    && (forall w, d :: (w, d) in cat <==> InProgram(w, d))
    && (forall k :: k in cat ==> ParseDuration(cat[k].duration).Success?)
  }

  /** Every program session's duration parses to the lower bound of its
      range. */
  lemma ProgramDuration(week: int, day: int)
    requires InProgram(week, day)
    ensures (week, day) in TrainingData
    ensures ParseDuration(TrainingData[(week, day)].duration) == Success(Minutes[Slot(week, day)].0)
  {
    TrainingDataDomain(week, day);
    var range := Minutes[Slot(week, day)];
    assert DurationText(range.0, range.1) == NatToString(range.0) + "-" + (NatToString(range.1) + " minutes");
    ParseDurationOfRange(range.0, NatToString(range.1) + " minutes");
  }

  lemma TrainingDataIsFullProgram()
    ensures FullProgram(TrainingData)
  {
    forall w, d ensures (w, d) in TrainingData <==> InProgram(w, d) {
      TrainingDataDomain(w, d);
    }
    forall k | k in TrainingData ensures ParseDuration(TrainingData[k].duration).Success? {
      TrainingDataDomain(k.0, k.1);
      ProgramDuration(k.0, k.1);
    }
  }

  /** What a session line holds once the duration and the training time
      parse: the subject, the date 7*(week-1)+(day-1) days after the anchor
      as start and end date, the training time text as start time, and
      the start plus the duration's lower bound, modulo a day, as end
      time. */
  lemma SessionLineFields(week: int, day: int, plan: Entry, clock: StartTime, anchor: int, minutes: nat)
    requires ParseDuration(plan.duration) == Success(minutes)
    requires clock.Success?
    ensures SessionLine(week, day, plan, clock, anchor).Success?
    ensures var line := SessionLine(week, day, plan, clock, anchor).value;
      && |line| == |CalendarHeader|
      && line[0] == Str("Peek-a-Boo Boxing W" + IntToString(week) + "D" + IntToString(day) + ": " + plan.focus)
      && line[1] == Day(anchor + 7 * (week - 1) + (day - 1)) && line[3] == line[1]
      && line[2] == Str(clock.value.0)
      && line[4] == Time((clock.value.1 + minutes) % MinutesPerDay)
  {
  }

  /** The line a full program gives at slot n for a training time strptime
      accepts. */
  function SlotLine(cat: Catalog, clock: StartTime, anchor: int, n: nat): CsvRow
    requires FullProgram(cat) && clock.Success?
    requires n < 30
  {
    var w, d := SlotWeek(n), SlotDay(n);
    assert InProgram(w, d);
    SessionLine(w, d, cat[(w, d)], clock, anchor).value
  }

  /** One step of the calendar fold over a full program. */
  lemma FullProgramStep(cat: Catalog, clock: StartTime, anchor: int, n: nat)
    requires FullProgram(cat) && clock.Success?
    requires n < 30
    requires CalendarUpTo(cat, clock, anchor, n).Success?
    ensures CalendarUpTo(cat, clock, anchor, n + 1)
         == Success(CalendarUpTo(cat, clock, anchor, n).value + [SlotLine(cat, clock, anchor, n)])
  {
    assert InProgram(SlotWeek(n), SlotDay(n));
    CalendarStep(cat, clock, anchor, n, SlotWeek(n), SlotDay(n));
  }

  lemma {:induction false} FullProgramUpTo(cat: Catalog, clock: StartTime, anchor: int, n: nat)
    requires FullProgram(cat) && clock.Success?
    requires n <= 30
    ensures CalendarUpTo(cat, clock, anchor, n).Success?
    ensures |CalendarUpTo(cat, clock, anchor, n).value| == n
    ensures forall i :: 0 <= i < n ==> CalendarUpTo(cat, clock, anchor, n).value[i] == SlotLine(cat, clock, anchor, i)
  {
    if n > 0 {
      FullProgramUpTo(cat, clock, anchor, n - 1);
      FullProgramStep(cat, clock, anchor, n - 1);
    }
  }

  /** With a training time strptime accepts, the calendar of a full
      program has the header and one line per session, in (week, day)
      order. */
  lemma FullProgramCalendar(cat: Catalog, settings: Settings.Settings, anchor: int)
    requires FullProgram(cat)
    requires ReadTime(Settings.TrainingTime(settings)).Success?
    ensures Calendar(cat, settings, anchor).Success?
    ensures var out := Calendar(cat, settings, anchor).value;
      && |out| == 30 + 1
      && out[0] == CalendarHeader
      && forall w, d {:trigger Slot(w, d)} :: InProgram(w, d) ==>
           out[Slot(w, d) + 1] == SessionLine(w, d, cat[(w, d)], ReadTime(Settings.TrainingTime(settings)), anchor).value
  {
    var clock := ReadTime(Settings.TrainingTime(settings));
    FullProgramUpTo(cat, clock, anchor, 30);
    var lines := CalendarUpTo(cat, clock, anchor, 30).value;
    var out := [CalendarHeader] + lines;
    forall w, d | InProgram(w, d)
      ensures out[Slot(w, d) + 1] == SessionLine(w, d, cat[(w, d)], clock, anchor).value
    {
      SlotRoundTrip(w, d);
      assert out[Slot(w, d) + 1] == lines[Slot(w, d)] == SlotLine(cat, clock, anchor, Slot(w, d));
    }
  }

  /** A training time strptime rejects makes the calendar export of a full
      program fail. */
  lemma FullProgramBadTime(cat: Catalog, settings: Settings.Settings, anchor: int)
    requires FullProgram(cat)
    requires !Settings.TrainingTime(settings).Text? || ParseClock(Settings.TrainingTime(settings).s).Failure?
    ensures Calendar(cat, settings, anchor) == Failure(BadTime)
  {
    var clock := ReadTime(Settings.TrainingTime(settings));
    assert InProgram(1, 1);
    assert CalendarUpTo(cat, clock, anchor, 0) == Success([]);
    CalendarStep(cat, clock, anchor, 0, 1, 1);
    CalendarFailureSticks(cat, clock, anchor, 1, 30);
  }

  // ---------------------------------------------------------------- chart data

  /** f"W{week}D{day}" */
  function Label(week: int, day: int): string
  {
    "W" + IntToString(week) + "D" + IntToString(day)
  }

  /** The marker cannot sit earlier on one side than the other when the
      other side's prefix is free of it. */
  lemma MarkerNotEarlier(a1: string, b1: string, a2: string, b2: string, c: char)
    requires forall i :: 0 <= i < |a1| ==> a1[i] != c
    requires a1 + [c] + b1 == a2 + [c] + b2
    ensures |a1| <= |a2|
  {
    var s := a1 + [c] + b1;
    assert s[|a2|] == c;
    assert forall i :: 0 <= i < |a1| ==> s[i] != c;
  }

  /** Two strings cut at the first marker character agree on both sides. */
  lemma SplitAtMarker(a1: string, b1: string, a2: string, b2: string, c: char)
    requires forall i :: 0 <= i < |a1| ==> a1[i] != c
    requires forall i :: 0 <= i < |a2| ==> a2[i] != c
    requires a1 + [c] + b1 == a2 + [c] + b2
    ensures a1 == a2 && b1 == b2
  {
    MarkerNotEarlier(a1, b1, a2, b2, c);
    MarkerNotEarlier(a2, b2, a1, b1, c);
    var s := a1 + [c] + b1;
    assert a1 == s[..|a1|];
    assert a2 == (a2 + [c] + b2)[..|a2|];
    assert b1 == s[|a1| + 1..];
    assert b2 == (a2 + [c] + b2)[|a2| + 1..];
  }

  /** Different sessions get different labels. */
  lemma LabelInjective(w1: int, d1: int, w2: int, d2: int)
    requires Label(w1, d1) == Label(w2, d2)
    ensures w1 == w2 && d1 == d2
  {
    var a1, a2 := IntToString(w1), IntToString(w2);
    var b1, b2 := IntToString(d1), IntToString(d2);
    assert Label(w1, d1) == "W" + (a1 + ['D'] + b1);
    assert Label(w2, d2) == "W" + (a2 + ['D'] + b2);
    assert a1 + ['D'] + b1 == a2 + ['D'] + b2 by {
      assert ("W" + (a1 + ['D'] + b1))[1..] == a1 + ['D'] + b1;
      assert ("W" + (a2 + ['D'] + b2))[1..] == a2 + ['D'] + b2;
    }
    SplitAtMarker(a1, b1, a2, b2, 'D');
    IntToStringInjective(w1, w2);
    IntToStringInjective(d1, d2);
  }

  datatype Chart = Chart(labels: seq<string>, fluidity: seq<int>, endurance: seq<int>, power: seq<int>)

  /** The four parallel lists of api_progress_chart. */
  function ChartOf(rows: seq<Row>): (c: Chart)
    ensures |c.labels| == |c.fluidity| == |c.endurance| == |c.power| == |rows|
    ensures forall i :: 0 <= i < |rows| ==> PointIs(c, i, KeyOf(rows[i]), rows[i].rec)
  {
    Chart(seq(|rows|, i requires 0 <= i < |rows| => Label(rows[i].week, rows[i].day)),
          seq(|rows|, i requires 0 <= i < |rows| => rows[i].rec.fluidity),
          seq(|rows|, i requires 0 <= i < |rows| => rows[i].rec.endurance),
          seq(|rows|, i requires 0 <= i < |rows| => rows[i].rec.power))
  }

  /** The chart of the stored table has one point per record, every label
      different, and each label's values are that session's ratings. */
  lemma ChartOfTable(t: Table)
    ensures |ChartOf(Listing(t)).labels| == |t|
    ensures DistinctLabels(ChartOf(Listing(t)))
    ensures PointsFrom(ChartOf(Listing(t)), t)
    ensures forall i :: 0 <= i < |t| ==> PointIs(ChartOf(Listing(t)), i, KeyOf(Listing(t)[i]), Listing(t)[i].rec)
  {
    ChartLabelsDistinct(Listing(t));
    ChartPointsFromTable(Listing(t), t);
  }

  /** No two points of c share a label. */
  ghost predicate DistinctLabels(c: Chart)
  {
    forall i, j :: 0 <= i < j < |c.labels| ==> c.labels[i] != c.labels[j]
  }

  /** Every point of c is the label and the ratings of a record of t. */
  ghost predicate PointsFrom(c: Chart, t: Table)
    requires |c.labels| == |c.fluidity| == |c.endurance| == |c.power|
  {
    forall i :: 0 <= i < |c.labels| ==> PointFromTable(c, i, t)
  }

  ghost predicate PointFromTable(c: Chart, i: nat, t: Table)
    requires i < |c.labels| == |c.fluidity| == |c.endurance| == |c.power|
  {
    exists k :: k in t && PointIs(c, i, k, t[k])
  }

  /** Point i of c is the label and the ratings of rec stored under k. */
  ghost predicate PointIs(c: Chart, i: nat, k: Key, rec: Record)
    requires i < |c.labels| == |c.fluidity| == |c.endurance| == |c.power|
  {
    && c.labels[i] == Label(k.0, k.1)
    && c.fluidity[i] == rec.fluidity && c.endurance[i] == rec.endurance && c.power[i] == rec.power
  }

  lemma ChartLabelsDistinct(rows: seq<Row>)
    requires forall i, j :: 0 <= i < j < |rows| ==> KeyLess(KeyOf(rows[i]), KeyOf(rows[j]))
    ensures DistinctLabels(ChartOf(rows))
  {
    var c := ChartOf(rows);
    forall i, j | 0 <= i < j < |c.labels| ensures c.labels[i] != c.labels[j] {
      if c.labels[i] == c.labels[j] {
        LabelInjective(rows[i].week, rows[i].day, rows[j].week, rows[j].day);
      }
    }
  }

  lemma ChartPointsFromTable(rows: seq<Row>, t: Table)
    requires forall i :: 0 <= i < |rows| ==> KeyOf(rows[i]) in t && rows[i].rec == t[KeyOf(rows[i])]
    ensures PointsFrom(ChartOf(rows), t)
  {
    var c := ChartOf(rows);
    forall i | 0 <= i < |c.labels| ensures PointFromTable(c, i, t) {
      var k := KeyOf(rows[i]);
      assert k in t && PointIs(c, i, k, t[k]);
    }
  }

  // ---------------------------------------------------------------- session page

  /** The stored ratings the session page shows. */
  datatype Existing = Existing(fluidity: int, endurance: int, power: int, notes: Option<string>)

  datatype View = View(week: int, day: int, plan: Entry, progress: Option<Existing>,
                       settings: Settings.Settings)

  /** "Session not found", 404 */
  datatype ViewError = SessionNotFound

  function SessionView(cat: Catalog, t: Table, settings: Settings.Settings, week: int, day: int)
    : (r: Result<View, ViewError>)
    ensures r.Failure? <==> (week, day) !in cat
    ensures r.Success? ==> r.value.plan == cat[(week, day)] && r.value.settings == settings
    ensures r.Success? ==> r.value.week == week && r.value.day == day
    ensures r.Success? ==> (r.value.progress.Some? <==> (week, day) in t)
    ensures r.Success? && (week, day) in t ==>
      var rec := t[(week, day)];
      r.value.progress == Some(Existing(rec.fluidity, rec.endurance, rec.power, rec.notes))
  {
    if (week, day) !in cat then Failure(SessionNotFound)
    else
      var existing :=
        if (week, day) in t
        then var rec := t[(week, day)]; Some(Existing(rec.fluidity, rec.endurance, rec.power, rec.notes))
        else None;
      Success(View(week, day, cat[(week, day)], existing, settings))
  }

  /** Against the program, a session page exists exactly for weeks 1..6
      and days 1..5. */
  lemma ProgramSessionView(t: Table, settings: Settings.Settings, week: int, day: int)
    ensures SessionView(TrainingData, t, settings, week, day).Failure? <==> !InProgram(week, day)
  {
    TrainingDataDomain(week, day);
  }

  /** Saving a session and opening its page shows exactly what was saved. */
  lemma ViewAfterSave(cat: Catalog, t: Table, settings: Settings.Settings, week: int, day: int,
                      fluidity: int, endurance: int, power: int, notes: NotesField, now: string)
    requires (week, day) in cat
    ensures SessionView(cat, Upsert(t, week, day, fluidity, endurance, power, notes, now), settings, week, day)
         == Success(View(week, day, cat[(week, day)],
                         Some(Existing(fluidity, endurance, power, StoredNotes(notes))), settings))
  {
  }
}
