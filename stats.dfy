/** The statistics of the progress page (app.py:402-427): overall means
    of the three ratings and per-week means. Means are exact quotients;
    the display rounding to two decimals is not modelled. */
module Stats {
  import opened Progress

  function Sum(xs: seq<int>): int
  {
    if xs == [] then 0 else Sum(xs[..|xs| - 1]) + xs[|xs| - 1]
  }

  /** sum(xs) / len(xs), and 0 for no values. */
  function Mean(xs: seq<int>): real
  {
    if xs == [] then 0.0 else Sum(xs) as real / |xs| as real
  }

  function Fluidities(rows: seq<Row>): seq<int>
  {
    if rows == [] then [] else Fluidities(rows[..|rows| - 1]) + [rows[|rows| - 1].rec.fluidity]
  }

  function Endurances(rows: seq<Row>): seq<int>
  {
    if rows == [] then [] else Endurances(rows[..|rows| - 1]) + [rows[|rows| - 1].rec.endurance]
  }

  function Powers(rows: seq<Row>): seq<int>
  {
    if rows == [] then [] else Powers(rows[..|rows| - 1]) + [rows[|rows| - 1].rec.power]
  }

  /** The rows of one week, in their original order. */
  function WeekRows(rows: seq<Row>, week: int): seq<Row>
  {
    if rows == [] then []
    else WeekRows(rows[..|rows| - 1], week) + (if rows[|rows| - 1].week == week then [rows[|rows| - 1]] else [])
  }

  function Weeks(rows: seq<Row>): set<int>
  {
    set i | 0 <= i < |rows| :: rows[i].week
  }

  datatype Averages = Averages(fluidity: real, endurance: real, power: real)

  function AveragesOf(rows: seq<Row>): Averages
  {
    Averages(Mean(Fluidities(rows)), Mean(Endurances(rows)), Mean(Powers(rows)))
  }

  datatype Stats = Stats(total: nat, overall: Averages, weekly: map<int, Averages>)

  /** What the page shows for the listed rows. */
  function StatsOf(rows: seq<Row>): Stats
  {
    if rows == [] then Stats(0, Averages(0.0, 0.0, 0.0), map[])
    else Stats(|rows|, AveragesOf(rows), map w | w in Weeks(rows) :: AveragesOf(WeekRows(rows, w)))
  }

  /** The three rating lists gathered for one week. */
  datatype Ratings = Ratings(fluidity: seq<int>, endurance: seq<int>, power: seq<int>)

  function RatingsOf(rows: seq<Row>): Ratings
  {
    Ratings(Fluidities(rows), Endurances(rows), Powers(rows))
  }

  /** weekly_stats after the gathering loop has seen rows. */
  function Gathered(rows: seq<Row>): map<int, Ratings>
  {
    map w | w in Weeks(rows) :: RatingsOf(WeekRows(rows, w))
  }

  function Appended(r: Ratings, row: Row): Ratings
  {
    Ratings(r.fluidity + [row.rec.fluidity], r.endurance + [row.rec.endurance], r.power + [row.rec.power])
  }

  lemma WeeksSnoc(rows: seq<Row>, i: nat)
    requires i < |rows|
    ensures Weeks(rows[..i + 1]) == Weeks(rows[..i]) + {rows[i].week}
  {
    var p, q := rows[..i], rows[..i + 1];
    forall w | w in Weeks(q) ensures w in Weeks(p) + {rows[i].week} {
      var j :| 0 <= j < |q| && q[j].week == w;
      if j < i { assert p[j] == q[j]; }
    }
    forall w | w in Weeks(p) ensures w in Weeks(q) {
      var j :| 0 <= j < |p| && p[j].week == w;
      assert q[j] == p[j];
    }
  }

  lemma GatheredStep(rows: seq<Row>, i: nat)
    requires i < |rows|
    ensures var g := Gathered(rows[..i]); var w := rows[i].week;
      Gathered(rows[..i + 1]) == g[w := Appended(if w in g then g[w] else Ratings([], [], []), rows[i])]
  {
    var p, q := rows[..i], rows[..i + 1];
    assert q[..|q| - 1] == p;
    WeeksSnoc(rows, i);
    var w := rows[i].week;
    if w !in Weeks(p) {
      WeekRowsEmpty(p, w);
    }
    assert WeekRows(q, w) == WeekRows(p, w) + [rows[i]];
    RatingsOfSnoc(WeekRows(p, w), rows[i]);
    var g := Gathered(p);
    var rhs := g[w := Appended(if w in g then g[w] else Ratings([], [], []), rows[i])];
    assert Gathered(q).Keys == rhs.Keys;
    forall v | v in rhs ensures Gathered(q)[v] == rhs[v] {
      if v != w { assert WeekRows(q, v) == WeekRows(p, v); }
    }
  }

  lemma RatingsOfSnoc(rows: seq<Row>, row: Row)
    ensures RatingsOf(rows + [row]) == Appended(RatingsOf(rows), row)
  {
    assert (rows + [row])[..|rows|] == rows;
  }

  lemma {:induction false} WeekRowsEmpty(rows: seq<Row>, week: int)
    requires week !in Weeks(rows)
    ensures WeekRows(rows, week) == []
  {
    if rows != [] {
      var p := rows[..|rows| - 1];
      assert Weeks(p) <= Weeks(rows) by {
        forall w | w in Weeks(p) ensures w in Weeks(rows) {
          var j :| 0 <= j < |p| && p[j].week == w;
          assert rows[j] == p[j];
        }
      }
      assert rows[|rows| - 1].week in Weeks(rows);
      WeekRowsEmpty(p, week);
    }
  }

  /** The progress route's computation: the gathering loop, then the loop
      that turns each week's lists into means. */
  method ComputeStats(rows: seq<Row>) returns (s: Stats)
    ensures s == StatsOf(rows)
  {
    if |rows| == 0 {
      return Stats(0, Averages(0.0, 0.0, 0.0), map[]);
    }
    var gathered := GatherRatings(rows);
    var weekly := WeeklyMeans(rows, gathered);
    s := Stats(|rows|, AveragesOf(rows), weekly);
  }

  /** The first loop: each row's ratings appended to its week's lists. */
  method GatherRatings(rows: seq<Row>) returns (gathered: map<int, Ratings>)
    ensures gathered == Gathered(rows)
  {
    gathered := map[];
    var i := 0;
    while i < |rows|
      invariant 0 <= i <= |rows|
      invariant gathered == Gathered(rows[..i])
    {
      GatheredStep(rows, i);
      var row := rows[i];
      if row.week !in gathered {
        gathered := gathered[row.week := Ratings([], [], [])];
      }
      gathered := gathered[row.week := Appended(gathered[row.week], row)];
      i := i + 1;
    }
    assert rows[..|rows|] == rows;
  }

  /** The second loop: the three means of each gathered week. */
  method WeeklyMeans(rows: seq<Row>, gathered: map<int, Ratings>) returns (weekly: map<int, Averages>)
    requires gathered == Gathered(rows)
    ensures weekly == map w | w in Weeks(rows) :: AveragesOf(WeekRows(rows, w))
  {
    weekly := map[];
    var pending := gathered.Keys;
    while pending != {}
      invariant pending <= gathered.Keys
      invariant weekly == map w | w in gathered.Keys - pending :: AveragesOf(WeekRows(rows, w))
      decreases pending
    {
      var w :| w in pending;
      var r := gathered[w];
      weekly := weekly[w := Averages(Mean(r.fluidity), Mean(r.endurance), Mean(r.power))];
      pending := pending - {w};
    }
  }

  lemma {:induction false} SumBounds(xs: seq<int>, lo: int, hi: int)
    requires forall i :: 0 <= i < |xs| ==> lo <= xs[i] <= hi
    ensures lo * |xs| <= Sum(xs) <= hi * |xs|
  {
    if xs != [] {
      SumBounds(xs[..|xs| - 1], lo, hi);
    }
  }

  /** A mean of ratings that all lie in [lo, hi] lies in [lo, hi] too. */
  lemma MeanBounds(xs: seq<int>, lo: int, hi: int)
    requires xs != []
    requires forall i :: 0 <= i < |xs| ==> lo <= xs[i] <= hi
    ensures lo as real <= Mean(xs) <= hi as real
  {
    var n, total := |xs|, Sum(xs);
    SumBounds(xs, lo, hi);
    MulAsReal(lo, n);
    MulAsReal(hi, n);
    QuotientBounds(lo as real, total as real, hi as real, n as real);
  }

  lemma QuotientBounds(a: real, b: real, c: real, n: real)
    requires n > 0.0 && a * n <= b <= c * n
    ensures a <= b / n <= c
  {
  }

  lemma MulAsReal(a: int, b: int)
    ensures (a * b) as real == a as real * b as real
  {
  }

  /** Each listed week has at least one row, so no weekly mean is taken
      over nothing, and only listed weeks have rows. */
  lemma {:induction false} WeekRowsNonEmpty(rows: seq<Row>, week: int)
    ensures WeekRows(rows, week) != [] <==> week in Weeks(rows)
  {
    if week !in Weeks(rows) {
      WeekRowsEmpty(rows, week);
    } else if rows != [] {
      var p := rows[..|rows| - 1];
      if rows[|rows| - 1].week != week {
        var j :| 0 <= j < |rows| && rows[j].week == week;
        assert p[j] == rows[j];
        WeekRowsNonEmpty(p, week);
      }
    }
  }

  /** The rows of a week are exactly those of the input carrying that week,
      each taken once. */
  lemma {:induction false} WeekRowsCarryWeek(rows: seq<Row>, week: int)
    ensures forall r :: r in WeekRows(rows, week) <==> r in rows && r.week == week
    ensures |WeekRows(rows, week)| == |WeekIndices(rows, week)|
  {
    WeekRowsCount(rows, week);
    if rows != [] {
      var p := rows[..|rows| - 1];
      WeekRowsCarryWeek(p, week);
      assert rows == p + [rows[|rows| - 1]];
    }
  }

  /** The indices of the rows carrying week. */
  function WeekIndices(rows: seq<Row>, week: int): set<nat>
  {
    set i: nat | i < |rows| && rows[i].week == week
  }

  /** Each row of a week is taken exactly once: the week's rows are as many
      as the input rows carrying that week. */
  lemma {:induction false} WeekRowsCount(rows: seq<Row>, week: int)
    ensures |WeekRows(rows, week)| == |WeekIndices(rows, week)|
  {
    if rows == [] {
      assert WeekIndices(rows, week) == {};
    } else {
      var p, n := rows[..|rows| - 1], |rows| - 1;
      WeekRowsCount(p, week);
      var before := WeekIndices(p, week);
      assert n !in before;
      if rows[n].week == week {
        assert WeekIndices(rows, week) == before + {n};
      } else {
        assert WeekIndices(rows, week) == before;
      }
    }
  }

  /** When every row belongs to one week, that week's means are the
      overall means. */
  lemma {:induction false} OneWeekMatchesOverall(rows: seq<Row>, week: int)
    requires rows != []
    requires forall i :: 0 <= i < |rows| ==> rows[i].week == week
    ensures StatsOf(rows).weekly == map[week := StatsOf(rows).overall]
  {
    SameWeekRows(rows, week);
    OnlyWeek(rows, week);
    WeeklyOfOne(rows, week);
  }

  lemma WeeklyOfOne(rows: seq<Row>, week: int)
    requires Weeks(rows) == {week}
    ensures (map w | w in Weeks(rows) :: AveragesOf(WeekRows(rows, w))) == map[week := AveragesOf(WeekRows(rows, week))]
  {
  }

  lemma OnlyWeek(rows: seq<Row>, week: int)
    requires rows != []
    requires forall i :: 0 <= i < |rows| ==> rows[i].week == week
    ensures Weeks(rows) == {week}
  {
    assert rows[0].week in Weeks(rows);
  }

  lemma {:induction false} SameWeekRows(rows: seq<Row>, week: int)
    requires forall i :: 0 <= i < |rows| ==> rows[i].week == week
    ensures WeekRows(rows, week) == rows
  {
    if rows != [] {
      SameWeekRows(rows[..|rows| - 1], week);
    }
  }
}
