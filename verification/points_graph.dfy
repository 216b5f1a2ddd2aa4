/** The "Points Accumulation" chart: match dates against the running total
    of points, in row (date) order. */
module PointsGraph {
  import opened Matches

  /** The chart as drawn: one line-with-markers trace, no legend. */
  datatype Chart = Chart(
    title: string,
    dates: seq<string>,
    totals: seq<int>,
    mode: string,
    showLegend: bool)

  const ChartTitle: string := "Points Accumulation"
  const ChartMode: string := "lines+markers"

  /** Running totals of POINTS, continuing from `start`. */
  function RunningTotals(rows: seq<MatchRow>, start: int): (totals: seq<int>)
    ensures |totals| == |rows|
    ensures forall i :: 0 <= i < |rows| ==> totals[i] == start + SumPoints(rows[..i + 1])
  {
    if rows == [] then []
    else
      var next := start + rows[0].points;
      var rest := RunningTotals(rows[1..], next);
      assert forall i :: 0 <= i < |rows| ==> rows[..i + 1][1..] == rows[1..][..i];
      [next] + rest
  }

  /** The cumulative-points series: element `i` is the inclusive prefix sum
      of POINTS up to row `i`. */
  function CumulativePoints(rows: seq<MatchRow>): (totals: seq<int>)
    ensures |totals| == |rows|
    ensures forall i :: 0 <= i < |rows| ==> totals[i] == SumPoints(rows[..i + 1])
  {
    RunningTotals(rows, 0)
  }

  /** The figure built from the match rows. */
  function DrawSeasonPointsGraph(rows: seq<MatchRow>): (c: Chart)
    ensures |c.dates| == |rows| && |c.totals| == |rows|
    ensures forall i :: 0 <= i < |rows| ==> c.dates[i] == rows[i].date
    ensures forall i :: 0 <= i < |rows| ==> c.totals[i] == SumPoints(rows[..i + 1])
    ensures c.title == "Points Accumulation" && c.mode == "lines+markers" && !c.showLegend
  {
    Chart(ChartTitle, seq(|rows|, i requires 0 <= i < |rows| => rows[i].date),
          CumulativePoints(rows), ChartMode, false)
  }

  /** The last point of the series is the season's total. */
  lemma CumulativeEndsAtTotal(rows: seq<MatchRow>)
    requires rows != []
    ensures CumulativePoints(rows)[|rows| - 1] == SumPoints(rows)
  {
    assert rows[..|rows|] == rows;
  }

  /** The series starts at the first match's points and each later point
      adds exactly that match's points. */
  lemma CumulativeStep(rows: seq<MatchRow>)
    ensures rows != [] ==> CumulativePoints(rows)[0] == rows[0].points
    ensures forall i :: 0 <= i < |rows| - 1 ==>
      CumulativePoints(rows)[i + 1] == CumulativePoints(rows)[i] + rows[i + 1].points
  {
    var totals := CumulativePoints(rows);
    if rows != [] {
      assert rows[..1] == [rows[0]];
    }
    forall i | 0 <= i < |rows| - 1
      ensures totals[i + 1] == totals[i] + rows[i + 1].points
    {
      assert rows[..i + 2] == rows[..i + 1] + [rows[i + 1]];
      SumPointsAppend(rows[..i + 1], [rows[i + 1]]);
    }
  }

  /** While points are non-negative the series never decreases. */
  lemma CumulativeMonotone(rows: seq<MatchRow>)
    requires forall i :: 0 <= i < |rows| ==> rows[i].points >= 0
    ensures forall i, j :: 0 <= i <= j < |rows| ==> CumulativePoints(rows)[i] <= CumulativePoints(rows)[j]
  {
    var totals := CumulativePoints(rows);
    forall i, j | 0 <= i <= j < |rows|
      ensures totals[i] <= totals[j]
    {
      var prefix := rows[..j + 1];
      assert prefix[..i + 1] == rows[..i + 1];
      SumPointsPrefixBound(prefix, i + 1);
    }
  }
}
