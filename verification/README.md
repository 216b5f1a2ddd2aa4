# Soccer results dashboard — Dafny model

A model of the logic inside `football.py`, a small Dash dashboard over an Oracle
`results` table. The user picks a division, then a season, then a team from
cascading dropdowns and presses Submit. The dashboard then shows the team's
match rows (at most 50), a season summary (W, D, L, Points) and a
"Points Accumulation" chart of the running points total.

The model has these modules:

- `Matches` (`matches.dfy`): the match row (DATEG, TEAM, OPPONENT, GOALS,
  GOALS_OPP, RESULT, POINTS), its RESULT and TEAM columns, and the reference
  definitions. `Count` is the multiset count of an outcome code, and
  `SumPoints` is the sum of POINTS.
- `Summary` (`summary.dfy`): `calculate_season_summary`. It groups and counts
  the RESULT column (`Tally`), looks up 'W', 'L' and 'D' in that order, and
  raises a KeyError on the first code that has no group. It builds one record
  per distinct team, in order of first appearance. Because the source builds
  the frame from scalars, every team's record carries the same season totals.
- `PointsGraph` (`points_graph.dfy`): the inclusive prefix sum of POINTS,
  plus the chart that pairs it with the match dates.
- `Table` (`table.dfy`): `generate_table`. It emits a header row of column
  names, then the first `min(len, max_rows)` rows with one cell per column.
  `ReadTable` is its inverse, used to state the round trip.
- `Callbacks` (`callbacks.dfy`): the Dash callbacks.
  - A callback that raises PreventUpdate returns `Prevented`.
  - A callback that returns `dash.no_update` returns `NoUpdate`.
  - Any other escaping exception becomes `Raised`.
  - The database queries (`get_seasons`, `get_teams`, `get_match_results`)
    and the pandas JSON codec (`to_json`, `read_json`) are function
    parameters. `readJson` yields `None` where the decoder would raise.

Two behaviours of the code are easy to miss, and the model keeps both:

- A season with no wins, no draws or no losses makes the summary fail with a
  KeyError. It does not report zero.
- The summary and chart callbacks test the length of the cached JSON text,
  not the number of match rows. A payload that encodes zero rows is
  non-empty text, so the summary then raises `KeyError('W')`.

## Model

| member | source | states |
|---|---|---|
| Summary.Tally | football.py:141 | Group-and-count of RESULT: a code has a group exactly when some row carries it, and the group's size is the number of rows carrying it |
| Summary.Unique | football.py:150 | The summary index: each team in the input appears exactly once, no other value appears, and teams are ordered by first appearance |
| Summary.CalculateSeasonSummary | football.py:140-152 | Succeeds exactly when 'W', 'L' and 'D' all occur. Otherwise it fails with the KeyError of the first missing code in W, L, D lookup order. On success the columns are W, D, L, Points, the index is the distinct teams in order of first appearance, there is one record per team, and each record holds the W, D and L counts and the POINTS total |
| Summary.OutcomeCountsCoverRows | football.py:141-146 | The W, D and L counts never exceed the row count, and they add up to it when every row carries one of the three codes |
| Summary.SummaryOfCompleteSeason | football.py:141-147 | A season whose rows are all W, D or L, with each code present, summarises without failing, and every record's W + D + L equals the number of matches |
| PointsGraph.RunningTotals | football.py:157 | A running total that continues from a start value: element i is the start plus the points of rows 0..i |
| PointsGraph.CumulativePoints | football.py:157 | The cumulative series has one element per row, and element i is the sum of POINTS over rows 0..i |
| PointsGraph.DrawSeasonPointsGraph | football.py:155-169 | The chart pairs each row's date with the running total at that row, titled "Points Accumulation", drawn as lines+markers, with no legend |
| PointsGraph.CumulativeEndsAtTotal | football.py:157 | The last point of the series equals the season's total points |
| PointsGraph.CumulativeStep | football.py:157 | The series starts at the first match's points, and each later element adds exactly that match's points |
| PointsGraph.CumulativeMonotone | football.py:157 | The series never decreases while all points are non-negative |
| Table.ShownRows | football.py:185 | The number of body rows is min(len, max_rows), and none when max_rows is negative |
| Table.GenerateTable | football.py:175-186 | One header row plus ShownRows body rows, each with one cell per column |
| Table.GenerateTableRoundTrip | football.py:178-186 | Reading the rendered table back gives the frame's columns and exactly its first min(len, max_rows) rows, in order |
| Table.MatchFrame | football.py:128 | The match rows as a rectangular frame whose columns are the seven query columns DATEG, TEAM, OPPONENT, GOALS, GOALS_OPP, RESULT, POINTS in that order, with one row per match holding that match's values in column order |
| Callbacks.ToOptions | football.py:305-308 | One dropdown entry per fetched value, with label equal to value |
| Callbacks.OptionsRoundTrip | football.py:305-308 | The entries' values are exactly the fetched values, in order |
| Callbacks.DivisionOptions | football.py:189-196 | The division dropdown lists every division in order, with label equal to value |
| Callbacks.PopulateSeasonSelector | football.py:301-308 | Prevented exactly when no division is chosen. Otherwise the options select exactly the fetched seasons, in order |
| Callbacks.PopulateTeamSelector | football.py:319-326 | Prevented exactly when the division or season is missing. Otherwise the options select exactly the fetched teams, in order |
| Callbacks.LoadCache | football.py:340-347 | No update exactly while n_clicks < 1. Prevented exactly when clicked with an incomplete selection. Otherwise it stores the encoding of the rows fetched for the selection |
| Callbacks.LoadMatchResults | football.py:361-366 | Prevented exactly when the selection is incomplete, and raises the decoder's ValueError when the payload does not decode. Otherwise the table shows the match columns and the first min(len, 50) decoded rows |
| Callbacks.LoadSeasonSummary | football.py:381-390 | Prevented exactly when the selection is incomplete. Empty payload text gives the empty figure. A decoded payload shows the season summary of the decoded rows when W, L and D all occur, and otherwise the summary's KeyError escapes. A payload that does not decode raises |
| Callbacks.LoadSeasonPointsGraph | football.py:405-413 | Prevented exactly when the selection is incomplete. Empty payload text gives the empty figure. A decodable payload gives the full season-points chart of the decoded rows (dates, running totals, title, mode, no legend), whose point i is the points total of rows 0..i. A payload that does not decode raises |
| Callbacks.ViewsWaitForSelection | football.py:361-413 | None of the three cache-fed views changes while any selection is missing |
| Callbacks.SummaryAgreesWithChart | football.py:381-413 | When a submit has stored the fetched rows and the summary view updates, every summary record's Points equals the chart's last point |

## Left out

- Database access: the `mydb` class, `cx_Oracle`, the session settings and
  `fetch_data` (football.py:29-66). They are I/O. Each query's result is a
  function parameter instead.
- The SQL text of `get_divisions`, `get_seasons`, `get_teams` and
  `get_match_results` (football.py:72-137). Their result sets depend on the
  external store. The raw string interpolation is an injection risk, not
  stateable logic.
- The pandas JSON round trip (`to_json`, `read_json`). It is a library codec,
  modelled as the `toJson` and `readJson` parameters.
- The internals of `groupby`, `ff.create_table` and Plotly figure
  construction. The summary view's output is the `SeasonSummary` itself, and
  the chart is the `Chart` record.
- Dash layout, app and config setup, `configparser`, `run_server`, and the
  `printf` and `printException` helpers (football.py:17-23, 199-288,
  417-423). These are UI and process plumbing.
- The payload before the first submit (the hidden div's initial `None`). The
  cache-fed callbacks only see it at page load, while every selection is
  still unset, so the PreventUpdate guard fires first. The payload is
  therefore modelled as text.
- Clearing a dropdown's value when its options change. This is done by the
  UI library, not by the source. The cascading state machine has no code of its own beyond the guards modelled here.
- Table.GenerateTable: cells are taken by column position. This equals the
  source's lookup by column name whenever column names are distinct, as the
  match columns are.
- POINTS, GOALS and GOALS_OPP are unbounded integers. The source sums
  POINTS as 64-bit integers (`sum` and `cumsum`), which wrap on overflow;
  no season's points come near that bound.
- Null cells (NaN) and pandas' `count` skipping null TEAM values. Rows here
  have no nulls.
