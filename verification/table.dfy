/** The HTML results table: a header row of column names followed by the
    first rows of a data frame, one cell per column. */
module Table {
  import opened Wrappers
  import opened Matches

  /** A data-frame cell value. */
  datatype Value = Text(text: string) | Number(number: int)

  /** A data frame: named columns and rows of cell values, by position. */
  datatype Frame = Frame(columns: seq<string>, rows: seq<seq<Value>>)

  /** Every row has one value per column, as in any data frame. */
  predicate Rectangular(f: Frame)
  {
    forall i :: 0 <= i < |f.rows| ==> |f.rows[i]| == |f.columns|
  }

  /** Table cells: `Th` in the header row, `Td` in the body. */
  datatype Cell = Th(heading: string) | Td(value: Value)
  datatype Tr = Tr(cells: seq<Cell>)
  datatype Html = Table(trs: seq<Tr>)

  /** Row cap of the match-results view. */
  const MatchViewMaxRows: int := 50

  /** How many body rows are shown: `min(count, maxRows)`, and none when
      that is negative, as an empty `range` gives. */
  function ShownRows(count: nat, maxRows: int): (k: nat)
    ensures k <= count
    ensures maxRows < 0 ==> k == 0
    ensures maxRows >= count ==> k == count
    ensures 0 <= maxRows < count ==> k == maxRows
  {
    if count <= maxRows then count else if maxRows < 0 then 0 else maxRows
  }

  function HeaderRow(columns: seq<string>): Tr
  {
    Tr(seq(|columns|, j requires 0 <= j < |columns| => Th(columns[j])))
  }

  function BodyRow(values: seq<Value>, width: nat): Tr
    requires |values| == width
  {
    Tr(seq(width, j requires 0 <= j < width => Td(values[j])))
  }

  /** The rendered table: the header, then the first `ShownRows` rows. */
  function GenerateTable(f: Frame, maxRows: int): (t: Html)
    requires Rectangular(f)
    ensures |t.trs| == 1 + ShownRows(|f.rows|, maxRows)
    ensures forall i :: 0 <= i < |t.trs| ==> |t.trs[i].cells| == |f.columns|
  {
    var k := ShownRows(|f.rows|, maxRows);
    Table([HeaderRow(f.columns)] +
          seq(k, i requires 0 <= i < k => BodyRow(f.rows[i], |f.columns|)))
  }

  /** Inverse of rendering: recovers the frame a table shows, or `None` when
      it is not a header row of `Th` cells over body rows of `Td` cells of
      the same width. */
  function ReadTable(t: Html): Option<Frame>
  {
    if |t.trs| == 0 then None
    else
      var header := t.trs[0].cells;
      var width := |header|;
      if (forall j :: 0 <= j < width ==> header[j].Th?)
         && (forall i :: 1 <= i < |t.trs| ==> |t.trs[i].cells| == width)
         && (forall i, j :: 1 <= i < |t.trs| && 0 <= j < |t.trs[i].cells| ==> t.trs[i].cells[j].Td?)
      then
        Some(Frame(
          seq(width, j requires 0 <= j < width => header[j].heading),
          seq(|t.trs| - 1, i requires 0 <= i < |t.trs| - 1 =>
            seq(width, j requires 0 <= j < width => t.trs[i + 1].cells[j].value))))
      else None
  }

  /** The frame cut to its first `ShownRows` rows. */
  function Truncate(f: Frame, maxRows: int): Frame
  {
    Frame(f.columns, f.rows[..ShownRows(|f.rows|, maxRows)])
  }

  /** Rendering round-trips: reading the table back gives the same columns
      and exactly the first `min(len, maxRows)` rows, in their order. */
  lemma GenerateTableRoundTrip(f: Frame, maxRows: int)
    requires Rectangular(f)
    ensures ReadTable(GenerateTable(f, maxRows)) == Some(Truncate(f, maxRows))
  {
    var t := GenerateTable(f, maxRows);
    var k := ShownRows(|f.rows|, maxRows);
    var r := ReadTable(t);
    assert r.Some?;
    assert r.value.columns == f.columns;
    assert |r.value.rows| == k;
    forall i | 0 <= i < k
      ensures r.value.rows[i] == f.rows[i]
    {
      assert t.trs[i + 1] == BodyRow(f.rows[i], |f.columns|);
    }
    assert r.value.rows == f.rows[..k];
  }

  /** The match-results columns, in query order. */
  const MatchColumns: seq<string> := ["DATEG", "TEAM", "OPPONENT", "GOALS", "GOALS_OPP", "RESULT", "POINTS"]

  function MatchValues(m: MatchRow): seq<Value>
  {
    [Text(m.date), Text(m.team), Text(m.opponent), Number(m.goals),
     Number(m.goalsOpp), Text(m.result), Number(m.points)]
  }

  /** The match rows as a data frame. */
  function MatchFrame(rows: seq<MatchRow>): (f: Frame)
    ensures Rectangular(f)
    ensures f.columns == ["DATEG", "TEAM", "OPPONENT", "GOALS", "GOALS_OPP", "RESULT", "POINTS"]
    ensures |f.rows| == |rows|
    ensures forall i :: 0 <= i < |rows| ==> f.rows[i] == MatchValues(rows[i])
  {
    Frame(MatchColumns, seq(|rows|, i requires 0 <= i < |rows| => MatchValues(rows[i])))
  }
}
