/** The dashboard's reactive callbacks: cascading dropdown options, the
    submit-driven payload cache, and the three views fed from the cache.
    Database queries and the JSON codec are parameters: their behaviour
    lives outside this model. */
module Callbacks {
  import opened Wrappers
  import opened Matches
  import Summary
  import PointsGraph
  import Table

  /** The current values of the division, season and team dropdowns. */
  datatype Selection = Selection(division: Option<string>, season: Option<string>, team: Option<string>)

  /** All three dropdowns hold a value. */
  predicate Complete(sel: Selection)
  {
    sel.division.Some? && sel.season.Some? && sel.team.Some?
  }

  /** An exception a callback lets escape, other than PreventUpdate. */
  datatype CallbackError = Escaped(cause: Summary.KeyError) | ValueError

  /** What a callback hands back to the framework: `Prevented` when it raises
      PreventUpdate, `NoUpdate` when it returns the no-update sentinel (both
      leave the output unchanged), `Updated` with a new output value, or
      `Raised` when another exception escapes. */
  datatype Response<+T> = Prevented | NoUpdate | Updated(value: T) | Raised(error: CallbackError)

  /** A dropdown entry. */
  datatype DropdownOption = DropdownOption(labelText: string, value: string)

  /** A figure output: the empty list, the summary table, or the chart. */
  datatype Figure = NoFigure | SummaryTable(summary: Summary.SeasonSummary) | PointsChart(chart: PointsGraph.Chart)

  /** One `{label: v, value: v}` entry per fetched value, in order. */
  function ToOptions(values: seq<string>): (opts: seq<DropdownOption>)
    ensures |opts| == |values|
    ensures forall i :: 0 <= i < |opts| ==> opts[i].labelText == opts[i].value
  {
    seq(|values|, i requires 0 <= i < |values| => DropdownOption(values[i], values[i]))
  }

  /** The values a list of dropdown entries selects. */
  function OptionValues(opts: seq<DropdownOption>): (values: seq<string>)
    ensures |values| == |opts|
  {
    seq(|opts|, i requires 0 <= i < |opts| => opts[i].value)
  }

  /** Building options loses nothing: their values are the fetched values. */
  lemma OptionsRoundTrip(values: seq<string>)
    ensures OptionValues(ToOptions(values)) == values
  {
  }

  /** The division dropdown's options at page load. */
  function DivisionOptions(divisions: seq<string>): (opts: seq<DropdownOption>)
    ensures OptionValues(opts) == divisions
    ensures forall i :: 0 <= i < |opts| ==> opts[i].labelText == opts[i].value
  {
    OptionsRoundTrip(divisions);
    ToOptions(divisions)
  }

  /** Season options for the chosen division; prevented while none is
      chosen. `getSeasons` stands for the seasons query. */
  function PopulateSeasonSelector(division: Option<string>, getSeasons: string -> seq<string>):
    (r: Response<seq<DropdownOption>>)
    ensures r.Prevented? <==> division.None?
    ensures division.Some? ==> r.Updated? && OptionValues(r.value) == getSeasons(division.value)
    ensures r.Updated? ==> forall i :: 0 <= i < |r.value| ==> r.value[i].labelText == r.value[i].value
  {
    if division.None? then Prevented
    else
      OptionsRoundTrip(getSeasons(division.value));
      Updated(ToOptions(getSeasons(division.value)))
  }

  /** Team options for the chosen division and season; prevented while
      either is missing. `getTeams` stands for the teams query. */
  function PopulateTeamSelector(division: Option<string>, season: Option<string>,
                                getTeams: (string, string) -> seq<string>):
    (r: Response<seq<DropdownOption>>)
    ensures r.Prevented? <==> division.None? || season.None?
    ensures division.Some? && season.Some? ==>
      r.Updated? && OptionValues(r.value) == getTeams(division.value, season.value)
    ensures r.Updated? ==> forall i :: 0 <= i < |r.value| ==> r.value[i].labelText == r.value[i].value
  {
    if division.None? || season.None? then Prevented
    else
      OptionsRoundTrip(getTeams(division.value, season.value));
      Updated(ToOptions(getTeams(division.value, season.value)))
  }

  /** The submit handler: fetches the match rows of the selection and stores
      them as JSON text. No update before the first click; prevented while
      the selection is incomplete. */
  function LoadCache(nClicks: int, sel: Selection,
                     getMatchResults: (string, string, string) -> seq<MatchRow>,
                     toJson: seq<MatchRow> -> string): (r: Response<string>)
    ensures r.NoUpdate? <==> nClicks < 1
    ensures r.Prevented? <==> nClicks >= 1 && !Complete(sel)
    ensures r.Updated? <==> nClicks >= 1 && Complete(sel)
    ensures r.Updated? ==>
      r.value == toJson(getMatchResults(sel.division.value, sel.season.value, sel.team.value))
  {
    if nClicks < 1 then NoUpdate
    else if sel.division.None? || sel.season.None? || sel.team.None? then Prevented
    else Updated(toJson(getMatchResults(sel.division.value, sel.season.value, sel.team.value)))
  }

  /** The results table, refreshed when the payload changes: at most the
      first 50 match rows. `readJson` stands for the JSON decoder and yields
      `None` where it would raise. */
  function LoadMatchResults(payload: string, sel: Selection,
                            readJson: string -> Option<seq<MatchRow>>): (r: Response<Table.Html>)
    ensures r.Prevented? <==> !Complete(sel)
    ensures r.Raised? <==> Complete(sel) && readJson(payload).None?
    ensures r.Updated? <==> Complete(sel) && readJson(payload).Some?
    ensures r.Updated? ==>
      var rows := readJson(payload).value;
      Table.ReadTable(r.value) ==
        Some(Table.Frame(Table.MatchColumns, Table.MatchFrame(rows).rows[..Table.ShownRows(|rows|, 50)]))
    ensures r.Updated? ==> |r.value.trs| <= 1 + 50
    ensures Complete(sel) && readJson(payload).None? ==> r == Raised(ValueError)
  {
    if sel.division.None? || sel.season.None? || sel.team.None? then Prevented
    else match readJson(payload)
      case None => Raised(ValueError)
      case Some(rows) =>
        var frame := Table.MatchFrame(rows);
        Table.GenerateTableRoundTrip(frame, Table.MatchViewMaxRows);
        Updated(Table.GenerateTable(frame, Table.MatchViewMaxRows))
  }

  /** The season-summary view: an empty figure for empty payload text, the
      summary table otherwise, and the summary's KeyError escapes when an
      outcome code never occurs. */
  function LoadSeasonSummary(payload: string, sel: Selection,
                             readJson: string -> Option<seq<MatchRow>>): (r: Response<Figure>)
    ensures r.Prevented? <==> !Complete(sel)
    ensures Complete(sel) && |payload| == 0 ==> r == Updated(NoFigure)
    ensures Complete(sel) && |payload| > 0 && readJson(payload).Some? ==>
      var s := Summary.CalculateSeasonSummary(readJson(payload).value);
      r == (if s.Success? then Updated(SummaryTable(s.value)) else Raised(Escaped(s.error)))
    ensures Complete(sel) && |payload| > 0 && readJson(payload).None? ==> r == Raised(ValueError)
  {
    if sel.division.None? || sel.season.None? || sel.team.None? then Prevented
    else if |payload| == 0 then Updated(NoFigure)
    else match readJson(payload)
      case None => Raised(ValueError)
      case Some(rows) =>
        match Summary.CalculateSeasonSummary(rows)
        case Failure(e) => Raised(Escaped(e))
        case Success(s) => Updated(SummaryTable(s))
  }

  /** The points-accumulation view: an empty figure for empty payload text,
      the chart otherwise. */
  function LoadSeasonPointsGraph(payload: string, sel: Selection,
                                 readJson: string -> Option<seq<MatchRow>>): (r: Response<Figure>)
    ensures r.Prevented? <==> !Complete(sel)
    ensures Complete(sel) && |payload| == 0 ==> r == Updated(NoFigure)
    ensures Complete(sel) && |payload| > 0 && readJson(payload).Some? ==>
      r == Updated(PointsChart(PointsGraph.DrawSeasonPointsGraph(readJson(payload).value)))
    ensures Complete(sel) && |payload| > 0 && readJson(payload).None? ==> r == Raised(ValueError)
  {
    if sel.division.None? || sel.season.None? || sel.team.None? then Prevented
    else if |payload| == 0 then Updated(NoFigure)
    else match readJson(payload)
      case None => Raised(ValueError)
      case Some(rows) => Updated(PointsChart(PointsGraph.DrawSeasonPointsGraph(rows)))
  }

  /** No cache-fed view changes until all three selections are made. */
  lemma ViewsWaitForSelection(payload: string, sel: Selection, readJson: string -> Option<seq<MatchRow>>)
    requires !Complete(sel)
    ensures LoadMatchResults(payload, sel, readJson) == Prevented
    ensures LoadSeasonSummary(payload, sel, readJson) == Prevented
    ensures LoadSeasonPointsGraph(payload, sel, readJson) == Prevented
  {
  }

  /** End to end: once a submit has stored the fetched rows, and the codec
      decodes what it encodes, the summary's Points and the chart's last
      point are both the season's total. */
  lemma SummaryAgreesWithChart(nClicks: int, sel: Selection,
                               getMatchResults: (string, string, string) -> seq<MatchRow>,
                               toJson: seq<MatchRow> -> string,
                               readJson: string -> Option<seq<MatchRow>>)
    requires nClicks >= 1 && Complete(sel)
    requires var rows := getMatchResults(sel.division.value, sel.season.value, sel.team.value);
      |toJson(rows)| > 0 && readJson(toJson(rows)) == Some(rows)
    requires var rows := getMatchResults(sel.division.value, sel.season.value, sel.team.value);
      Win in Codes(rows) && Loss in Codes(rows) && Draw in Codes(rows)
    ensures var payload := LoadCache(nClicks, sel, getMatchResults, toJson);
      var summary := LoadSeasonSummary(payload.value, sel, readJson);
      var chart := LoadSeasonPointsGraph(payload.value, sel, readJson);
      && payload.Updated? && summary.Updated? && summary.value.SummaryTable?
      && chart.Updated? && chart.value.PointsChart? && |chart.value.chart.totals| > 0
      && forall k :: 0 <= k < |summary.value.summary.records| ==>
           summary.value.summary.records[k].points == chart.value.chart.totals[|chart.value.chart.totals| - 1]
  {
    var rows := getMatchResults(sel.division.value, sel.season.value, sel.team.value);
    assert rows != [];
    PointsGraph.CumulativeEndsAtTotal(rows);
  }
}
