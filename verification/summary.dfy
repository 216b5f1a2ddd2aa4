/** The season summary: wins, draws, losses and total points of the fetched
    match rows, laid out as a one-row-per-team table. */
module Summary {
  import opened Wrappers
  import opened Matches

  /** The lookup failure raised when an outcome code has no group. */
  datatype KeyError = KeyError(key: string)

  /** The summary's columns, in display order. */
  const SummaryColumns: seq<string> := ["W", "D", "L", "Points"]

  /** One summary line: the four column values. */
  datatype Record = Record(w: nat, d: nat, l: nat, points: int)

  /** The summary table: its column names, its index (one entry per team)
      and one record per index entry. */
  datatype SeasonSummary = SeasonSummary(
    columns: seq<string>,
    index: seq<string>,
    records: seq<Record>)

  /** Group-and-count over the RESULT column: one key per outcome code that
      occurs, mapped to the number of rows carrying it. */
  function Tally(rows: seq<MatchRow>): (groups: map<string, nat>)
    ensures forall c :: c in groups <==> c in Codes(rows)
    ensures forall c :: c in groups ==> groups[c] == Count(rows, c)
  {
    if rows == [] then map[]
    else
      var rest := Tally(rows[1..]);
      var c := rows[0].result;
      CodesCons(rows);
      rest[c := (if c in rest then rest[c] else 0) + 1]
  }

  /** Index of the first occurrence of `x` in `s`. */
  function FirstIndex(s: seq<string>, x: string): (k: nat)
    requires x in s
    ensures k < |s| && s[k] == x
    ensures forall j :: 0 <= j < k ==> s[j] != x
  {
    if s[0] == x then 0 else 1 + FirstIndex(s[1..], x)
  }

  lemma FirstIndexInPrefix(s: seq<string>, n: nat, x: string)
    requires n <= |s|
    requires x in s[..n]
    ensures x in s && FirstIndex(s, x) == FirstIndex(s[..n], x)
  {
    var k := FirstIndex(s[..n], x);
    assert s[k] == x;
    assert forall j :: 0 <= j < k ==> s[j] == s[..n][j];
  }

  /** Distinct values of `s` in order of first appearance. */
  function Unique(s: seq<string>): (u: seq<string>)
    ensures forall x :: x in u <==> x in s
    ensures forall i, j :: 0 <= i < j < |u| ==> u[i] != u[j]
    ensures forall i, j :: 0 <= i < j < |u| ==> FirstIndex(s, u[i]) < FirstIndex(s, u[j])
  {
    if |s| == 0 then []
    else
      var init := s[..|s| - 1];
      var u := Unique(init);
      var last := s[|s| - 1];
      assert s == init + [last];
      if last in u then u
      else
        assert forall x :: x in u ==> FirstIndex(s, x) == FirstIndex(init, x) < |init| by {
          forall x | x in u
            ensures FirstIndex(s, x) == FirstIndex(init, x) < |init|
          {
            FirstIndexInPrefix(s, |init|, x);
          }
        }
        assert FirstIndex(s, last) == |init|;
        u + [last]
  }

  /** The season summary of `rows`. Mirrors the source: group and count the
      outcome codes, then look up 'W', 'L' and 'D' in that order, failing on
      the first one that has no group; otherwise every team in the index
      receives the same totals. */
  function CalculateSeasonSummary(rows: seq<MatchRow>): (r: Result<SeasonSummary, KeyError>)
    ensures r.Success? <==> Win in Codes(rows) && Loss in Codes(rows) && Draw in Codes(rows)
    ensures r.Failure? ==>
      r.error.key == (if Win !in Codes(rows) then Win else if Loss !in Codes(rows) then Loss else Draw)
    ensures r.Success? ==> r.value.columns == ["W", "D", "L", "Points"]
    ensures r.Success? ==> r.value.index == Unique(Teams(rows))
    ensures r.Success? ==> |r.value.records| == |r.value.index|
    ensures r.Success? ==> forall i :: 0 <= i < |r.value.records| ==>
      r.value.records[i] == Record(Count(rows, Win), Count(rows, Draw), Count(rows, Loss), SumPoints(rows))
  {
    var record := Tally(rows);
    if Win !in record then Failure(KeyError(Win))
    else if Loss !in record then Failure(KeyError(Loss))
    else if Draw !in record then Failure(KeyError(Draw))
    else
      var totals := Record(record[Win], record[Draw], record[Loss], SumPoints(rows));
      var index := Unique(Teams(rows));
      Success(SeasonSummary(SummaryColumns, index, seq(|index|, _ => totals)))
  }

  /** Every row with one of the three codes is counted exactly once: the
      three counts never exceed the row count, and they add up to it when
      every row carries one of 'W', 'D' or 'L'. */
  lemma {:induction false} OutcomeCountsCoverRows(rows: seq<MatchRow>)
    ensures Count(rows, Win) + Count(rows, Draw) + Count(rows, Loss) <= |rows|
    ensures (forall i :: 0 <= i < |rows| ==> rows[i].result in [Win, Draw, Loss]) ==>
      Count(rows, Win) + Count(rows, Draw) + Count(rows, Loss) == |rows|
  {
    if rows != [] {
      CodesCons(rows);
      OutcomeCountsCoverRows(rows[1..]);
      if forall i :: 0 <= i < |rows| ==> rows[i].result in [Win, Draw, Loss] {
        assert forall i :: 0 <= i < |rows[1..]| ==> rows[1..][i].result in [Win, Draw, Loss] by {
          forall i | 0 <= i < |rows[1..]|
            ensures rows[1..][i].result in [Win, Draw, Loss]
          {
            assert rows[1..][i] == rows[i + 1];
          }
        }
      }
    }
  }

  /** The summary succeeds on a season with at least one win, draw and loss,
      and then reports the row count split by outcome. */
  lemma SummaryOfCompleteSeason(rows: seq<MatchRow>)
    requires forall i :: 0 <= i < |rows| ==> rows[i].result in [Win, Draw, Loss]
    requires exists i :: 0 <= i < |rows| && rows[i].result == Win
    requires exists i :: 0 <= i < |rows| && rows[i].result == Draw
    requires exists i :: 0 <= i < |rows| && rows[i].result == Loss
    ensures var s := CalculateSeasonSummary(rows);
      s.Success? && forall rec :: rec in s.value.records ==> rec.w + rec.d + rec.l == |rows|
  {
    CountPositive(rows, Win);
    CountPositive(rows, Draw);
    CountPositive(rows, Loss);
    OutcomeCountsCoverRows(rows);
  }
}
