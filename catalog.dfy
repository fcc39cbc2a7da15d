/** The fixed six-week curriculum (TRAINING_DATA, app.py:117-310) as a
    read-only lookup keyed by (week, day). Each entry keeps its focus and
    duration text; the descriptions and exercise lists are not reproduced. */
module Catalog {
  import Text

  /** One session plan; sections maps a section key ("warmup", ...) to its
      exercise list. */
  datatype Entry = Entry(focus: string, duration: string, description: string,
                         sections: map<string, seq<string>>)

  type Catalog = map<(int, int), Entry>

  /** The program runs WeekCount weeks of DayCount sessions; slot
      arithmetic below writes DayCount and WeekCount * DayCount as the
      numerals 5 and 30 so that it stays linear. */
  const WeekCount := 6
  const DayCount := 5

  predicate InProgram(week: int, day: int)
  {
    1 <= week <= WeekCount && 1 <= day <= DayCount
  }

  /** Position of a session in week-major order. */
  function Slot(week: int, day: int): (i: nat)
    requires InProgram(week, day)
    ensures i < 30
  {
    5 * (week - 1) + (day - 1)
  }

  /** The text "lo-hi minutes" every session duration is written as. */
  function DurationText(lo: nat, hi: nat): string
  {
    Text.NatToString(lo) + "-" + Text.NatToString(hi) + " minutes"
  }

  const Focus: seq<string> := [
    "Rhythm & Form", "Head Movement Fundamentals", "Power Generation from Low Position",
    "Combination Flow & Rhythm", "Sparring Simulation & Pressure",
    "Speed & Snap Development", "Advanced Head Movement", "Body Attack Mastery",
    "Pressure Fighting", "Week 2 Integration",
    "Counter-Punching Excellence", "Inside Fighting", "Footwork & Angles",
    "Power Punching Session", "Week 3 Mastery Test",
    "Speed Endurance", "Advanced Defense", "Combination Complexity",
    "Fight Simulation", "Week 4 Peak",
    "Mental Toughness", "Precision Under Fatigue", "Power Endurance",
    "Championship Rounds", "Week 5 Completion",
    "Peak Speed", "Peak Power", "Peak Defense", "Final Preparation", "Graduation Day"
  ]

  /** The (lo, hi) minutes of each session, in the same order as Focus. */
  const Minutes: seq<(nat, nat)> := [
    (60, 75), (60, 75), (70, 80), (65, 75), (75, 85),
    (65, 75), (70, 80), (70, 80), (75, 85), (80, 90),
    (70, 80), (70, 80), (65, 75), (75, 85), (80, 90),
    (70, 80), (70, 80), (75, 85), (80, 90), (85, 95),
    (75, 85), (75, 85), (80, 90), (85, 95), (90, 100),
    (75, 85), (75, 85), (75, 85), (80, 90), (90, 120)
  ]

  function PlanAt(week: int, day: int): Entry
    requires InProgram(week, day)
  {
    var i := Slot(week, day);
    Entry(Focus[i], DurationText(Minutes[i].0, Minutes[i].1), "", map[])
  }

  /** Every (week, day) of the program. */
  const Sessions: set<(int, int)> :=
    set w: int, d: int | 1 <= w <= WeekCount && 1 <= d <= DayCount :: (w, d)

  const TrainingData: Catalog :=
    map k | k in Sessions && InProgram(k.0, k.1) :: PlanAt(k.0, k.1)

  lemma TrainingDataDomain(week: int, day: int)
    ensures (week, day) in TrainingData <==> InProgram(week, day)
    ensures InProgram(week, day) ==> TrainingData[(week, day)] == PlanAt(week, day)
  {
    if InProgram(week, day) {
      assert (week, day) in Sessions;
    }
  }
}
