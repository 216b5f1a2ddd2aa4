/** The match-results rows fetched for one (division, season, team) and the
    column-wise views of them that the aggregations read. */
module Matches {

  /** One row of the match-results query: columns DATEG, TEAM, OPPONENT,
      GOALS, GOALS_OPP, RESULT and POINTS, in that order. The RESULT column
      is free text in the store; 'W', 'L' and 'D' are the codes the summary
      looks for. */
  datatype MatchRow = MatchRow(
    date: string,
    team: string,
    opponent: string,
    goals: int,
    goalsOpp: int,
    result: string,
    points: int)

  const Win: string := "W"
  const Loss: string := "L"
  const Draw: string := "D"

  /** The RESULT column. */
  function Codes(rows: seq<MatchRow>): (codes: seq<string>)
    ensures |codes| == |rows|
    ensures forall i :: 0 <= i < |rows| ==> codes[i] == rows[i].result
  {
    seq(|rows|, i requires 0 <= i < |rows| => rows[i].result)
  }

  /** The TEAM column. */
  function Teams(rows: seq<MatchRow>): (teams: seq<string>)
    ensures |teams| == |rows|
    ensures forall i :: 0 <= i < |rows| ==> teams[i] == rows[i].team
  {
    seq(|rows|, i requires 0 <= i < |rows| => rows[i].team)
  }

  /** Reference definition: how many rows carry outcome code `code`. */
  function Count(rows: seq<MatchRow>, code: string): nat
  {
    multiset(Codes(rows))[code]
  }

  /** The sum of the POINTS column. */
  function SumPoints(rows: seq<MatchRow>): int
  {
    if rows == [] then 0 else rows[0].points + SumPoints(rows[1..])
  }

  lemma {:induction false} CodesCons(rows: seq<MatchRow>)
    requires rows != []
    ensures Codes(rows) == [rows[0].result] + Codes(rows[1..])
  {
    assert Codes(rows) == [rows[0].result] + Codes(rows[1..]);
  }

  /** A code is counted at least once exactly when some row carries it. */
  lemma CountPositive(rows: seq<MatchRow>, code: string)
    ensures Count(rows, code) > 0 <==> exists i :: 0 <= i < |rows| && rows[i].result == code
  {
    var codes := Codes(rows);
    if Count(rows, code) > 0 {
      assert code in codes;
      var i :| 0 <= i < |codes| && codes[i] == code;
      assert rows[i].result == code;
    }
    if exists i :: 0 <= i < |rows| && rows[i].result == code {
      var i :| 0 <= i < |rows| && rows[i].result == code;
      assert codes[i] == code;
    }
  }

  /** Summing points distributes over concatenation of row sequences. */
  lemma {:induction false} SumPointsAppend(a: seq<MatchRow>, b: seq<MatchRow>)
    ensures SumPoints(a + b) == SumPoints(a) + SumPoints(b)
  {
    if a == [] {
      assert a + b == b;
    } else {
      assert (a + b)[1..] == a[1..] + b;
      SumPointsAppend(a[1..], b);
    }
  }

  /** With non-negative points, the total never falls below a prefix's total. */
  lemma SumPointsPrefixBound(rows: seq<MatchRow>, k: nat)
    requires k <= |rows|
    requires forall i :: 0 <= i < |rows| ==> rows[i].points >= 0
    ensures SumPoints(rows[..k]) <= SumPoints(rows)
  {
    assert rows == rows[..k] + rows[k..];
    SumPointsAppend(rows[..k], rows[k..]);
    SumPointsNonNegative(rows[k..]);
  }

  lemma {:induction false} SumPointsNonNegative(rows: seq<MatchRow>)
    requires forall i :: 0 <= i < |rows| ==> rows[i].points >= 0
    ensures SumPoints(rows) >= 0
  {
    if rows != [] {
      SumPointsNonNegative(rows[1..]);
    }
  }
}
