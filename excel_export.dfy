/**
 * The row and percentage logic of export_to_excel (data_analysis.py). The
 * worksheet is a map from (column letter, row number) to a cell value; every
 * section writes its cells in order, advancing a row counter, and a later
 * write to a cell replaces an earlier one. Merged ranges are formatting
 * only here, so every section's cells reach the saved sheet; module
 * ExcelMerges runs the same writes with openpyxl's read-only merged cells.
 */
module ExcelExport {
  import opened Wrappers
  import opened ContentAnalysis

  /** A cell value. Percentages and metric values are kept as numbers; their text formatting is not modelled. */
  datatype Value = Text(text: string) | Count(count: int) | Percent(percent: real) | Number(number: real)
                 | HourOfDay(hour: int)

  type Cell = (char, nat)

  /** One assignment ws[f'{col}{row}'] = value. */
  datatype Write = Write(col: char, row: nat, value: Value)

  /** The worksheet (openpyxl's active sheet), reduced to its cell values. */
  class Sheet {
    var cells: map<Cell, Value>

    constructor()
      ensures cells == map[]
    {
      cells := map[];
    }

    method Put(col: char, row: nat, value: Value)
      modifies this
      ensures cells == old(cells)[(col, row) := value]
    {
      cells := cells[(col, row) := value];
    }
  }

  /** The cells after performing `ws` in order on `cells`. */
  function Apply(cells: map<Cell, Value>, ws: seq<Write>): map<Cell, Value> {
    if ws == [] then cells
    else
      var w := ws[|ws| - 1];
      Apply(cells, ws[..|ws| - 1])[(w.col, w.row) := w.value]
  }

  lemma ApplySnoc(cells: map<Cell, Value>, ws: seq<Write>, w: Write)
    ensures Apply(cells, ws + [w]) == Apply(cells, ws)[(w.col, w.row) := w.value]
  {
    assert (ws + [w])[..|ws|] == ws;
  }

  /** Performing three writes of one row. */
  lemma ApplyRow(cells: map<Cell, Value>, ws: seq<Write>, a: Write, b: Write, c: Write)
    ensures Apply(cells, ws + [a, b, c])
         == Apply(cells, ws)[(a.col, a.row) := a.value][(b.col, b.row) := b.value][(c.col, c.row) := c.value]
  {
    ApplySnoc(cells, ws, a);
    ApplySnoc(cells, ws + [a], b);
    ApplySnoc(cells, ws + [a] + [b], c);
    assert ws + [a] + [b] + [c] == ws + [a, b, c];
  }

  /** Performing two writes of one row. */
  lemma ApplyPair(cells: map<Cell, Value>, ws: seq<Write>, a: Write, b: Write)
    ensures Apply(cells, ws + [a, b]) == Apply(cells, ws)[(a.col, a.row) := a.value][(b.col, b.row) := b.value]
  {
    ApplySnoc(cells, ws, a);
    ApplySnoc(cells, ws + [a], b);
    assert ws + [a] + [b] == ws + [a, b];
  }

  lemma {:induction false} ApplyConcat(cells: map<Cell, Value>, a: seq<Write>, b: seq<Write>)
    ensures Apply(cells, a + b) == Apply(Apply(cells, a), b)
  {
    if b == [] {
      assert a + b == a;
    } else {
      var b' := b[..|b| - 1];
      assert (a + b)[..|a + b| - 1] == a + b';
      ApplyConcat(cells, a, b');
    }
  }

  /** No write of `ws` is to cell `k`. */
  predicate Untouched(ws: seq<Write>, k: Cell) {
    forall i :: 0 <= i < |ws| ==> (ws[i].col, ws[i].row) != k
  }

  /** A cell that no write touches keeps its value (or stays empty). */
  lemma {:induction false} ApplyUntouched(cells: map<Cell, Value>, ws: seq<Write>, k: Cell)
    requires Untouched(ws, k)
    ensures k in Apply(cells, ws) <==> k in cells
    ensures k in cells ==> Apply(cells, ws)[k] == cells[k]
  {
    if ws != [] {
      var p := ws[..|ws| - 1];
      assert forall i :: 0 <= i < |p| ==> p[i] == ws[i];
      ApplyUntouched(cells, p, k);
    }
  }

  /** The rows that a list of writes touches. */
  predicate RowsWithin(ws: seq<Write>, lo: nat, hi: nat) {
    forall i :: 0 <= i < |ws| ==> lo <= ws[i].row <= hi
  }

  // ----- user engagement (rows 5 on) -----

  /** (count / total) * 100. */
  function Percentage(count: nat, total: nat): real
    requires total > 0
  {
    (count as real / total as real) * 100.0
  }

  function EngagementRow(row: nat, e: Entry, total: nat): seq<Write>
    requires total > 0
  {
    [Write('A', row, Text(e.0)), Write('B', row, Count(e.1)), Write('C', row, Percent(Percentage(e.1, total)))]
  }

  /** The writes of the first `n` engagement levels, from row 5 on. */
  function EngagementRows(dist: seq<Entry>, n: nat): (ws: seq<Write>)
    requires n <= |dist| && (n == 0 || Total(dist) > 0)
    ensures |ws| == 3 * n
  {
    if n == 0 then []
    else EngagementRows(dist, n - 1) + EngagementRow(5 + n - 1, dist[n - 1], Total(dist))
  }

  /**
   * The engagement section: None when the percentage divides by a zero total
   * (the ZeroDivisionError that aborts the export), else its writes.
   */
  function EngagementWrites(dist: seq<Entry>): (r: Option<seq<Write>>)
    ensures r.None? <==> dist != [] && Total(dist) == 0
  {
    if dist != [] && Total(dist) == 0 then None else Some(EngagementRows(dist, |dist|))
  }

  /** The loop over engagement_distribution. */
  method WriteEngagement(sheet: Sheet, dist: seq<Entry>) returns (ok: bool)
    modifies sheet
    ensures ok <==> EngagementWrites(dist).Some?
    ensures ok ==> sheet.cells == Apply(old(sheet.cells), EngagementWrites(dist).value)
    ensures !ok ==> sheet.cells == old(sheet.cells)[('A', 5) := Text(dist[0].0)][('B', 5) := Count(dist[0].1)]
  {
    var row := 5;
    var i := 0;
    while i < |dist|
      invariant 0 <= i <= |dist| && row == 5 + i
      invariant i == 0 || Total(dist) > 0
      invariant sheet.cells == Apply(old(sheet.cells), EngagementRows(dist, i))
    {
      var total := Total(dist);
      var level := dist[i].0;
      var count := dist[i].1;
      sheet.Put('A', row, Text(level));
      sheet.Put('B', row, Count(count));
      if total == 0 {
        return false;
      }
      sheet.Put('C', row, Percent((count as real / total as real) * 100.0));
      ApplyRow(old(sheet.cells), EngagementRows(dist, i), Write('A', row, Text(level)), Write('B', row, Count(count)),
               Write('C', row, Percent(Percentage(count, total))));
      row := row + 1;
      i := i + 1;
    }
    return true;
  }

  /** The percentages of the engagement section, one per level. */
  function Percentages(dist: seq<Entry>): (ps: seq<real>)
    requires Total(dist) > 0
    ensures |ps| == |dist| && forall i :: 0 <= i < |dist| ==> ps[i] == Percentage(dist[i].1, Total(dist))
  {
    seq(|dist|, i requires 0 <= i < |dist| => Percentage(dist[i].1, Total(dist)))
  }

  lemma PercentagesAdd(a: real, b: real, total: real)
    requires total > 0.0
    ensures (a / total) * 100.0 + (b / total) * 100.0 == ((a + b) / total) * 100.0
  {
  }

  lemma {:induction false} PercentagePrefix(dist: seq<Entry>, n: nat)
    requires Total(dist) > 0 && n <= |dist|
    ensures Grouping.SumReal(Percentages(dist)[..n]) == (Total(dist[..n]) as real / Total(dist) as real) * 100.0
  {
    var ps := Percentages(dist);
    if n == 0 {
      assert CountsOf(dist[..0]) == [];
    } else {
      PercentagePrefix(dist, n - 1);
      assert ps[..n][..n - 1] == ps[..n - 1];
      assert dist[..n] == dist[..n - 1] + [dist[n - 1]];
      TotalConcat(dist[..n - 1], [dist[n - 1]]);
      TotalCons(dist[n - 1], []);
      assert [dist[n - 1]] + [] == [dist[n - 1]];
      PercentagesAdd(Total(dist[..n - 1]) as real, dist[n - 1].1 as real, Total(dist) as real);
    }
  }

  /** The engagement percentages add up to 100 (percent of all users with a level). */
  lemma PercentagesSumTo100(dist: seq<Entry>)
    requires Total(dist) > 0
    ensures Grouping.SumReal(Percentages(dist)) == 100.0
  {
    PercentagePrefix(dist, |dist|);
    assert Percentages(dist)[..|dist|] == Percentages(dist);
    assert dist[..|dist|] == dist;
    WholePercent(Total(dist) as real);
  }

  lemma WholePercent(total: real)
    requires total > 0.0
    ensures (total / total) * 100.0 == 100.0
  {
  }

  /** The engagement rows of n levels are rows 5 to 4 + n. */
  lemma {:induction false} EngagementShape(dist: seq<Entry>, n: nat)
    requires n <= |dist| && (n == 0 || Total(dist) > 0)
    ensures RowsWithin(EngagementRows(dist, n), 5, 4 + n)
  {
    if n > 0 {
      EngagementShape(dist, n - 1);
      var prev := EngagementRows(dist, n - 1);
      var ws := EngagementRows(dist, n);
      assert forall j :: 0 <= j < |prev| ==> ws[j] == prev[j];
    }
  }

  /** Level i (from 0) is written to row 5 + i, with its count and percentage. */
  lemma {:induction false} EngagementRowAt(dist: seq<Entry>, n: nat, i: nat)
    requires n <= |dist| && Total(dist) > 0 && i < n
    ensures EngagementRows(dist, n)[3 * i..3 * i + 3]
         == [Write('A', 5 + i, Text(dist[i].0)), Write('B', 5 + i, Count(dist[i].1)),
             Write('C', 5 + i, Percent(Percentages(dist)[i]))]
  {
    var ws := EngagementRows(dist, n);
    var prev := EngagementRows(dist, n - 1);
    if i < n - 1 {
      EngagementRowAt(dist, n - 1, i);
      assert ws[..|prev|] == prev;
      assert ws[3 * i..3 * i + 3] == prev[3 * i..3 * i + 3];
    }
  }

  // ----- content performance (rows 10 to 12) -----

  /** genre_completion.get(genre, 0). */
  function CompletionOf(completion: map<string, real>, genre: string): real {
    if genre in completion then completion[genre] else 0.0
  }

  function GenreRow(row: nat, e: Entry, completion: map<string, real>): seq<Write> {
    [Write('A', row, Text(e.0)), Write('B', row, Count(e.1)), Write('C', row, Percent(CompletionOf(completion, e.0) * 100.0))]
  }

  const GenreRowLimit: nat := 13

  /** The writes of the first `n` genres: a genre is written only while the row counter is below 13. */
  function GenreRows(pop: seq<Entry>, completion: map<string, real>, n: nat): (ws: seq<Write>)
    requires n <= |pop|
  {
    if n == 0 then []
    else if 10 + (n - 1) < GenreRowLimit then
      GenreRows(pop, completion, n - 1) + GenreRow(10 + (n - 1), pop[n - 1], completion)
    else GenreRows(pop, completion, n - 1)
  }

  /** The loop over genre_popularity with its `row < 13` guard. */
  method WriteGenres(sheet: Sheet, pop: seq<Entry>, completion: map<string, real>)
    modifies sheet
    ensures sheet.cells == Apply(old(sheet.cells), GenreRows(pop, completion, |pop|))
  {
    var row := 10;
    var i := 0;
    while i < |pop|
      invariant 0 <= i <= |pop|
      invariant row == 10 + (if i < 3 then i else 3)
      invariant sheet.cells == Apply(old(sheet.cells), GenreRows(pop, completion, i))
    {
      var genre := pop[i].0;
      var count := pop[i].1;
      if row < 13 {
        sheet.Put('A', row, Text(genre));
        sheet.Put('B', row, Count(count));
        sheet.Put('C', row, Percent(CompletionOf(completion, genre) * 100.0));
        ApplyRow(old(sheet.cells), GenreRows(pop, completion, i), Write('A', row, Text(genre)),
                 Write('B', row, Count(count)), Write('C', row, Percent(CompletionOf(completion, genre) * 100.0)));
        row := row + 1;
      }
      i := i + 1;
    }
  }

  /** At most three genres are written, in rows 10 to 12. */
  lemma {:induction false} GenreShape(pop: seq<Entry>, completion: map<string, real>, n: nat)
    requires n <= |pop|
    ensures |GenreRows(pop, completion, n)| == 3 * (if n < 3 then n else 3)
    ensures RowsWithin(GenreRows(pop, completion, n), 10, 12)
  {
    if n > 0 {
      GenreShape(pop, completion, n - 1);
    }
  }

  /**
   * The first three genres are the ones written, genre i (from 0) in row
   * 10 + i with its count and its completion rate as a percentage (0 for a
   * genre without one).
   */
  lemma {:induction false} GenreRowAt(pop: seq<Entry>, completion: map<string, real>, n: nat, i: nat)
    requires i < n <= |pop| && i < 3
    ensures 3 * i + 3 <= |GenreRows(pop, completion, n)|
    ensures GenreRows(pop, completion, n)[3 * i..3 * i + 3] == GenreRow(10 + i, pop[i], completion)
  {
    GenreShape(pop, completion, n);
    var prev := GenreRows(pop, completion, n - 1);
    GenreShape(pop, completion, n - 1);
    if i < n - 1 {
      GenreRowAt(pop, completion, n - 1, i);
      var ws := GenreRows(pop, completion, n);
      assert ws[..|prev|] == prev;
      assert ws[3 * i..3 * i + 3] == prev[3 * i..3 * i + 3];
    }
  }

  // ----- user activity (rows 15 to 18) -----

  /** The four activity metrics with their labels. */
  function ActivityMetrics(avgDau: real, avgWau: real, stickiness: real, peakHour: int): seq<(string, Value)> {
    [("Average Daily Active Users", Number(avgDau)),
     ("Average Weekly Active Users", Number(avgWau)),
     ("Platform Stickiness (DAU/WAU)", Number(stickiness)),
     ("Peak Viewing Hour", HourOfDay(peakHour))]
  }

  /** The writes of the first `n` metrics, from row 15 on. */
  function MetricRows(metrics: seq<(string, Value)>, n: nat): (ws: seq<Write>)
    requires n <= |metrics|
    ensures |ws| == 2 * n
  {
    if n == 0 then []
    else MetricRows(metrics, n - 1) + [Write('A', 15 + n - 1, Text(metrics[n - 1].0)), Write('B', 15 + n - 1, metrics[n - 1].1)]
  }

  method WriteActivity(sheet: Sheet, metrics: seq<(string, Value)>)
    modifies sheet
    ensures sheet.cells == Apply(old(sheet.cells), MetricRows(metrics, |metrics|))
  {
    var row := 15;
    var i := 0;
    while i < |metrics|
      invariant 0 <= i <= |metrics| && row == 15 + i
      invariant sheet.cells == Apply(old(sheet.cells), MetricRows(metrics, i))
    {
      var (metric, value) := metrics[i];
      sheet.Put('A', row, Text(metric));
      sheet.Put('B', row, value);
      ApplyPair(old(sheet.cells), MetricRows(metrics, i), Write('A', row, Text(metric)), Write('B', row, value));
      row := row + 1;
      i := i + 1;
    }
  }

  lemma {:induction false} MetricLayout(metrics: seq<(string, Value)>, n: nat)
    requires n <= |metrics|
    ensures RowsWithin(MetricRows(metrics, n), 15, 15 + n - 1)
  {
    if n > 0 {
      MetricLayout(metrics, n - 1);
    }
  }

  // ----- regional trends (rows 20 to 23) -----

  const RegionRowLimit: nat := 24

  /** The writes of the first `n` countries: a country is written only while the row counter is below 24. */
  function RegionRows(top: seq<(string, string)>, n: nat): (ws: seq<Write>)
    requires n <= |top|
  {
    if n == 0 then []
    else if 20 + (n - 1) < RegionRowLimit then
      RegionRows(top, n - 1) + [Write('A', 20 + (n - 1), Text(top[n - 1].0)), Write('B', 20 + (n - 1), Text(top[n - 1].1))]
    else RegionRows(top, n - 1)
  }

  /** The loop over top_genre_by_country with its `row < 24` guard. */
  method WriteRegions(sheet: Sheet, top: seq<(string, string)>)
    modifies sheet
    ensures sheet.cells == Apply(old(sheet.cells), RegionRows(top, |top|))
  {
    var row := 20;
    var i := 0;
    while i < |top|
      invariant 0 <= i <= |top|
      invariant row == 20 + (if i < 4 then i else 4)
      invariant sheet.cells == Apply(old(sheet.cells), RegionRows(top, i))
    {
      var (country, genre) := top[i];
      if row < 24 {
        sheet.Put('A', row, Text(country));
        sheet.Put('B', row, Text(genre));
        ApplyPair(old(sheet.cells), RegionRows(top, i), Write('A', row, Text(country)), Write('B', row, Text(genre)));
        row := row + 1;
      }
      i := i + 1;
    }
  }

  /** At most four countries are written, in rows 20 to 23. */
  lemma {:induction false} RegionShape(top: seq<(string, string)>, n: nat)
    requires n <= |top|
    ensures |RegionRows(top, n)| == 2 * (if n < 4 then n else 4)
    ensures RowsWithin(RegionRows(top, n), 20, 23)
  {
    if n > 0 {
      RegionShape(top, n - 1);
    }
  }

  /** The first four countries are the ones written, country i (from 0) in row 20 + i with its top genre. */
  lemma {:induction false} RegionRowAt(top: seq<(string, string)>, n: nat, i: nat)
    requires i < n <= |top| && i < 4
    ensures 2 * i + 2 <= |RegionRows(top, n)|
    ensures RegionRows(top, n)[2 * i..2 * i + 2] == [Write('A', 20 + i, Text(top[i].0)), Write('B', 20 + i, Text(top[i].1))]
  {
    RegionShape(top, n);
    var prev := RegionRows(top, n - 1);
    RegionShape(top, n - 1);
    if i < n - 1 {
      RegionRowAt(top, n - 1, i);
      var ws := RegionRows(top, n);
      assert ws[..|prev|] == prev;
      assert ws[2 * i..2 * i + 2] == prev[2 * i..2 * i + 2];
    }
  }

  // ----- recommendations (rows 25 on) -----

  const RecommendationLimit: nat := 8

  /** f"{i+1}. {rec}" for a position below 8, so i + 1 is one digit. */
  function Numbered(i: nat, rec: string): (s: string)
    requires i < RecommendationLimit
    ensures |s| == |rec| + 3
    ensures s[0] == "12345678"[i] && s[1..3] == ". " && s[3..] == rec
  {
    [('1' as int + i) as char] + ". " + rec
  }

  /** A numbered line gives back its position and its recommendation. */
  lemma NumberedInjective(i: nat, rec: string, j: nat, rec': string)
    requires i < RecommendationLimit && j < RecommendationLimit
    requires Numbered(i, rec) == Numbered(j, rec')
    ensures i == j && rec == rec'
  {
    var s, s' := Numbered(i, rec), Numbered(j, rec');
    assert "12345678"[i] == s[0] == s'[0] == "12345678"[j];
    assert rec == s[3..] == s'[3..] == rec';
  }

  /** The writes of the first `n` of report['recommendations'][:8], from row 25 on. */
  function RecommendationRows(recs: seq<string>, n: nat): (ws: seq<Write>)
    requires n <= |recs| && n <= RecommendationLimit
    ensures |ws| == n
  {
    if n == 0 then []
    else RecommendationRows(recs, n - 1) + [Write('A', 25 + n - 1, Text(Numbered(n - 1, recs[n - 1])))]
  }

  function RecommendationCount(recs: seq<string>): nat {
    if |recs| < RecommendationLimit then |recs| else RecommendationLimit
  }

  method WriteRecommendations(sheet: Sheet, recs: seq<string>)
    modifies sheet
    ensures sheet.cells == Apply(old(sheet.cells), RecommendationRows(recs, RecommendationCount(recs)))
  {
    var firstEight := if |recs| < 8 then recs else recs[..8];
    var row := 25;
    var i := 0;
    while i < |firstEight|
      invariant 0 <= i <= |firstEight| && row == 25 + i
      invariant sheet.cells == Apply(old(sheet.cells), RecommendationRows(recs, i))
    {
      var text := Numbered(i, firstEight[i]);
      sheet.Put('A', row, Text(text));
      ApplySnoc(old(sheet.cells), RecommendationRows(recs, i), Write('A', row, Text(text)));
      row := row + 1;
      i := i + 1;
    }
  }

  /** At most eight recommendations are written, numbered from 1, in rows 25 to 32. */
  lemma {:induction false} RecommendationLayout(recs: seq<string>, n: nat)
    requires n <= |recs| && n <= RecommendationLimit
    ensures RowsWithin(RecommendationRows(recs, n), 25, 32)
    ensures forall i :: 0 <= i < n ==>
              RecommendationRows(recs, n)[i] == Write('A', 25 + i, Text(Numbered(i, recs[i])))
  {
    if n > 0 {
      RecommendationLayout(recs, n - 1);
    }
  }

  // ----- the whole export -----

  /** The parts of the analysis report the summary sheet shows. */
  datatype Report = Report(engagementDistribution: seq<Entry>, genrePopularity: seq<Entry>,
                           genreCompletion: map<string, real>, avgDau: real, avgWau: real, stickiness: real,
                           peakHour: int, topGenreByCountry: seq<(string, string)>, recommendations: seq<string>)

  /** The title, the five section headers and the column labels of the first section. */
  function Preamble(): seq<Write> {
    [Write('A', 1, Text("Movie Streaming Platform - Analytics Executive Summary")),
     Write('A', 3, Text("User Engagement Metrics")),
     Write('A', 8, Text("Content Performance Metrics")),
     Write('A', 13, Text("User Activity Metrics")),
     Write('A', 18, Text("Regional Trends")),
     Write('A', 24, Text("Key Recommendations")),
     Write('A', 4, Text("Engagement Level")), Write('B', 4, Text("User Count")), Write('C', 4, Text("Percentage"))]
  }

  function GenreLabels(): seq<Write> {
    [Write('A', 9, Text("Top Genres")), Write('B', 9, Text("Watch Count")), Write('C', 9, Text("Completion Rate"))]
  }

  function ActivityLabels(): seq<Write> {
    [Write('A', 14, Text("Metric")), Write('B', 14, Text("Value"))]
  }

  function RegionLabels(): seq<Write> {
    [Write('A', 19, Text("Country")), Write('B', 19, Text("Top Genre"))]
  }

  function GenreSection(report: Report): seq<Write> {
    GenreRows(report.genrePopularity, report.genreCompletion, |report.genrePopularity|)
  }

  function ActivitySection(report: Report): seq<Write> {
    MetricRows(ActivityMetrics(report.avgDau, report.avgWau, report.stickiness, report.peakHour), 4)
  }

  function RegionSection(report: Report): seq<Write> {
    RegionRows(report.topGenreByCountry, |report.topGenreByCountry|)
  }

  function RecommendationSection(report: Report): seq<Write> {
    RecommendationRows(report.recommendations, RecommendationCount(report.recommendations))
  }

  /** Every write of a successful export, in order, given the engagement section's writes. */
  function AllWrites(report: Report, engagement: seq<Write>): seq<Write> {
    Preamble() + engagement + GenreLabels() + GenreSection(report) + ActivityLabels() + ActivitySection(report)
    + RegionLabels() + RegionSection(report) + RecommendationSection(report)
  }

  /** The saved sheet, or None when the export fails and nothing is saved. */
  function ExportedCells(report: Report): Option<map<Cell, Value>> {
    match EngagementWrites(report.engagementDistribution)
    case None => None
    case Some(engagement) => Some(Apply(map[], AllWrites(report, engagement)))
  }

  method WritePreamble(sheet: Sheet)
    modifies sheet
    ensures sheet.cells == Apply(old(sheet.cells), Preamble())
  {
    var headers := [(3, "User Engagement Metrics"), (8, "Content Performance Metrics"), (13, "User Activity Metrics"),
                    (18, "Regional Trends"), (24, "Key Recommendations")];
    sheet.Put('A', 1, Text("Movie Streaming Platform - Analytics Executive Summary"));
    var i := 0;
    while i < |headers|
      invariant 0 <= i <= |headers|
      invariant sheet.cells == Apply(old(sheet.cells), Preamble()[..1 + i])
    {
      var (row, title) := headers[i];
      sheet.Put('A', row, Text(title));
      ApplySnoc(old(sheet.cells), Preamble()[..1 + i], Write('A', row, Text(title)));
      assert Preamble()[..1 + i] + [Write('A', row, Text(title))] == Preamble()[..2 + i];
      i := i + 1;
    }
    sheet.Put('A', 4, Text("Engagement Level"));
    sheet.Put('B', 4, Text("User Count"));
    sheet.Put('C', 4, Text("Percentage"));
    ApplyRow(old(sheet.cells), Preamble()[..6], Preamble()[6], Preamble()[7], Preamble()[8]);
    assert Preamble()[..6] + [Preamble()[6], Preamble()[7], Preamble()[8]] == Preamble();
  }

  /** Performs a fixed list of cell assignments, such as a section's column labels. */
  method WriteLabels(sheet: Sheet, labels: seq<Write>)
    modifies sheet
    ensures sheet.cells == Apply(old(sheet.cells), labels)
  {
    for i := 0 to |labels|
      invariant sheet.cells == Apply(old(sheet.cells), labels[..i])
    {
      ApplySnoc(old(sheet.cells), labels[..i], labels[i]);
      assert labels[..i + 1] == labels[..i] + [labels[i]];
      sheet.Put(labels[i].col, labels[i].row, labels[i].value);
    }
    assert labels[..|labels|] == labels;
  }

  /**
   * export_to_excel with merged ranges as formatting only: the cells of the
   * saved summary sheet, or None when the percentage divides by zero. The
   * fourth metric's label still lands in A18, over the "Regional Trends"
   * header (ExportedPeakHour).
   */
  method ExportToExcel(report: Report) returns (saved: Option<map<Cell, Value>>)
    ensures saved == ExportedCells(report)
  {
    var sheet := new Sheet();
    WritePreamble(sheet);
    var ok := WriteEngagement(sheet, report.engagementDistribution);
    if !ok {
      return None;
    }
    var engagement := EngagementWrites(report.engagementDistribution).value;
    var done := Preamble();
    ApplyConcat(map[], done, engagement);
    done := done + engagement;
    assert sheet.cells == Apply(map[], done);

    WriteLabels(sheet, GenreLabels());
    ApplyConcat(map[], done, GenreLabels());
    done := done + GenreLabels();
    var genres := GenreSection(report);
    WriteGenres(sheet, report.genrePopularity, report.genreCompletion);
    ApplyConcat(map[], done, genres);
    done := done + genres;

    WriteLabels(sheet, ActivityLabels());
    ApplyConcat(map[], done, ActivityLabels());
    done := done + ActivityLabels();
    var metrics := ActivityMetrics(report.avgDau, report.avgWau, report.stickiness, report.peakHour);
    WriteActivity(sheet, metrics);
    ApplyConcat(map[], done, ActivitySection(report));
    done := done + ActivitySection(report);

    WriteLabels(sheet, RegionLabels());
    ApplyConcat(map[], done, RegionLabels());
    done := done + RegionLabels();
    var regions := RegionSection(report);
    WriteRegions(sheet, report.topGenreByCountry);
    ApplyConcat(map[], done, regions);
    done := done + regions;

    var recs := RecommendationSection(report);
    WriteRecommendations(sheet, report.recommendations);
    ApplyConcat(map[], done, recs);
    done := done + recs;
    assert done == AllWrites(report, engagement);
    saved := Some(sheet.cells);
  }

  // ----- what the saved sheet shows -----

  /** A cell that the writes after `a` do not touch shows what it showed after `a`. */
  lemma ApplyThenUntouched(cells: map<Cell, Value>, a: seq<Write>, b: seq<Write>, k: Cell)
    requires Untouched(b, k)
    ensures k in Apply(cells, a + b) <==> k in Apply(cells, a)
    ensures k in Apply(cells, a) ==> Apply(cells, a + b)[k] == Apply(cells, a)[k]
  {
    ApplyConcat(cells, a, b);
    ApplyUntouched(Apply(cells, a), b, k);
  }

  /** A write that no later write overrides is what the sheet shows. */
  lemma WriteSurvives(cells: map<Cell, Value>, a: seq<Write>, w: Write, b: seq<Write>)
    requires Untouched(b, (w.col, w.row))
    ensures (w.col, w.row) in Apply(cells, a + [w] + b)
    ensures Apply(cells, a + [w] + b)[(w.col, w.row)] == w.value
  {
    ApplySnoc(cells, a, w);
    ApplyThenUntouched(cells, a + [w], b, (w.col, w.row));
  }

  /**
   * Write t of `row`, inside a section `prefix + row + more` that sits between
   * `before` and `after`, is what the sheet shows when nothing after it
   * writes to the same cell.
   */
  lemma SectionWriteSurvives(cells: map<Cell, Value>, before: seq<Write>, prefix: seq<Write>, row: seq<Write>,
                             more: seq<Write>, after: seq<Write>, t: nat)
    requires t < |row|
    requires Untouched(row[t + 1..], (row[t].col, row[t].row))
    requires Untouched(more, (row[t].col, row[t].row)) && Untouched(after, (row[t].col, row[t].row))
    ensures (row[t].col, row[t].row) in Apply(cells, before + (prefix + row + more) + after)
    ensures Apply(cells, before + (prefix + row + more) + after)[(row[t].col, row[t].row)] == row[t].value
  {
    var k := (row[t].col, row[t].row);
    var rest := row[t + 1..];
    assert row == row[..t] + [row[t]] + rest;
    UntouchedConcat(rest, more, k);
    UntouchedConcat(rest + more, after, k);
    assert before + (prefix + row + more) + after == (before + prefix + row[..t]) + [row[t]] + (rest + more + after);
    WriteSurvives(cells, before + prefix + row[..t], row[t], rest + more + after);
  }

  lemma UntouchedConcat(a: seq<Write>, b: seq<Write>, k: Cell)
    requires Untouched(a, k) && Untouched(b, k)
    ensures Untouched(a + b, k)
  {
  }

  /** Writes confined to rows lo to hi do not touch a cell outside them. */
  lemma UntouchedOutside(ws: seq<Write>, lo: nat, hi: nat, k: Cell)
    requires RowsWithin(ws, lo, hi) && (k.1 < lo || hi < k.1)
    ensures Untouched(ws, k)
  {
  }

  /** Extending the genre loop from m to n genres only adds writes to rows m + 10 .. 12. */
  lemma {:induction false} GenreRowsExtend(pop: seq<Entry>, completion: map<string, real>, m: nat, n: nat)
    returns (more: seq<Write>)
    requires m <= n <= |pop|
    ensures GenreRows(pop, completion, n) == GenreRows(pop, completion, m) + more
    ensures RowsWithin(more, 10 + m, 12)
  {
    if n == m {
      more := [];
    } else {
      more := GenreRowsExtend(pop, completion, m, n - 1);
      if 10 + (n - 1) < GenreRowLimit {
        more := more + GenreRow(10 + (n - 1), pop[n - 1], completion);
      }
    }
  }

  /** Extending the region loop from m to n countries only adds writes to rows m + 20 .. 23. */
  lemma {:induction false} RegionRowsExtend(top: seq<(string, string)>, m: nat, n: nat) returns (more: seq<Write>)
    requires m <= n <= |top|
    ensures RegionRows(top, n) == RegionRows(top, m) + more
    ensures RowsWithin(more, 20 + m, 23)
  {
    if n == m {
      more := [];
    } else {
      more := RegionRowsExtend(top, m, n - 1);
      if 20 + (n - 1) < RegionRowLimit {
        more := more + [Write('A', 20 + (n - 1), Text(top[n - 1].0)), Write('B', 20 + (n - 1), Text(top[n - 1].1))];
      }
    }
  }

  function BeforeGenres(engagement: seq<Write>): seq<Write> {
    Preamble() + engagement + GenreLabels()
  }

  function AfterGenres(report: Report): seq<Write> {
    ActivityLabels() + ActivitySection(report) + RegionLabels() + RegionSection(report) + RecommendationSection(report)
  }

  function BeforeRegions(report: Report, engagement: seq<Write>): seq<Write> {
    BeforeGenres(engagement) + GenreSection(report) + ActivityLabels() + ActivitySection(report) + RegionLabels()
  }

  function BeforeActivity(report: Report, engagement: seq<Write>): seq<Write> {
    BeforeGenres(engagement) + GenreSection(report) + ActivityLabels()
  }

  function AfterActivity(report: Report): seq<Write> {
    RegionLabels() + RegionSection(report) + RecommendationSection(report)
  }

  /** The export's writes around the genre, the activity and the region sections. */
  lemma AllWritesSplit(report: Report, engagement: seq<Write>)
    ensures AllWrites(report, engagement) == BeforeActivity(report, engagement) + ActivitySection(report) + AfterActivity(report)
    ensures AllWrites(report, engagement) == BeforeGenres(engagement) + GenreSection(report) + AfterGenres(report)
    ensures AllWrites(report, engagement) == BeforeRegions(report, engagement) + RegionSection(report) + RecommendationSection(report)
  {
  }

  /** The writes after the genre section stay in rows 14 to 32. */
  lemma AfterGenresRows(report: Report)
    ensures RowsWithin(AfterGenres(report), 14, 32)
  {
    MetricLayout(ActivityMetrics(report.avgDau, report.avgWau, report.stickiness, report.peakHour), 4);
    RegionShape(report.topGenreByCountry, |report.topGenreByCountry|);
    RecommendationLayout(report.recommendations, RecommendationCount(report.recommendations));
  }

  /** Cell t (0 to 2: columns A to C) of genre row i of the genre section is what the saved sheet shows there. */
  lemma GenreCellShown(report: Report, engagement: seq<Write>, i: nat, t: nat)
    requires i < |report.genrePopularity| && i < 3 && t < 3
    ensures var w := GenreRow(10 + i, report.genrePopularity[i], report.genreCompletion)[t];
            (w.col, w.row) in Apply(map[], AllWrites(report, engagement))
            && Apply(map[], AllWrites(report, engagement))[(w.col, w.row)] == w.value
  {
    var pop, completion := report.genrePopularity, report.genreCompletion;
    var before := BeforeGenres(engagement);
    var after := AfterGenres(report);
    AllWritesSplit(report, engagement);
    var prefix := GenreRows(pop, completion, i);
    var more := GenreRowsExtend(pop, completion, i + 1, |pop|);
    var row := GenreRow(10 + i, pop[i], completion);
    assert GenreSection(report) == prefix + row + more;
    var k := (row[t].col, row[t].row);
    var rest := row[t + 1..];
    assert Untouched(rest, k) by {
      forall j | 0 <= j < |rest| ensures (rest[j].col, rest[j].row) != k {
        assert rest[j] == row[t + 1 + j];
      }
    }
    AfterGenresRows(report);
    UntouchedOutside(more, 10 + (i + 1), 12, k);
    UntouchedOutside(after, 14, 32, k);
    SectionWriteSurvives(map[], before, prefix, row, more, after, t);
  }

  /**
   * In a saved sheet, row 10 + i (i < 3) shows genre i of genre_popularity
   * with its watch count and completion percentage: no later section writes
   * to rows 10 to 12.
   */
  lemma ExportedGenreRow(report: Report, i: nat)
    requires ExportedCells(report).Some?
    requires i < |report.genrePopularity| && i < 3
    ensures var cells := ExportedCells(report).value;
            var e := report.genrePopularity[i];
            ('A', 10 + i) in cells && cells[('A', 10 + i)] == Text(e.0)
            && ('B', 10 + i) in cells && cells[('B', 10 + i)] == Count(e.1)
            && ('C', 10 + i) in cells && cells[('C', 10 + i)] == Percent(CompletionOf(report.genreCompletion, e.0) * 100.0)
  {
    var engagement := EngagementWrites(report.engagementDistribution).value;
    GenreCellShown(report, engagement, i, 0);
    GenreCellShown(report, engagement, i, 1);
    GenreCellShown(report, engagement, i, 2);
  }

  /** Cell t (0 or 1: columns A and B) of region row i is what the saved sheet shows there. */
  lemma RegionCellShown(report: Report, engagement: seq<Write>, i: nat, t: nat)
    requires i < |report.topGenreByCountry| && i < 4 && t < 2
    ensures var p := report.topGenreByCountry[i];
            var w := [Write('A', 20 + i, Text(p.0)), Write('B', 20 + i, Text(p.1))][t];
            (w.col, w.row) in Apply(map[], AllWrites(report, engagement))
            && Apply(map[], AllWrites(report, engagement))[(w.col, w.row)] == w.value
  {
    var top := report.topGenreByCountry;
    var before := BeforeRegions(report, engagement);
    var after := RecommendationSection(report);
    AllWritesSplit(report, engagement);
    var prefix := RegionRows(top, i);
    var more := RegionRowsExtend(top, i + 1, |top|);
    var row := [Write('A', 20 + i, Text(top[i].0)), Write('B', 20 + i, Text(top[i].1))];
    assert RegionSection(report) == prefix + row + more;
    var k := (row[t].col, row[t].row);
    var rest := row[t + 1..];
    assert Untouched(rest, k) by {
      forall j | 0 <= j < |rest| ensures (rest[j].col, rest[j].row) != k {
        assert rest[j] == row[t + 1 + j];
      }
    }
    RecommendationLayout(report.recommendations, RecommendationCount(report.recommendations));
    UntouchedOutside(more, 20 + (i + 1), 23, k);
    UntouchedOutside(after, 25, 32, k);
    SectionWriteSurvives(map[], before, prefix, row, more, after, t);
  }

  /**
   * In a saved sheet, row 20 + i (i < 4) shows country i of
   * top_genre_by_country with its top genre: the recommendations start below
   * row 24.
   */
  lemma ExportedRegionRow(report: Report, i: nat)
    requires ExportedCells(report).Some?
    requires i < |report.topGenreByCountry| && i < 4
    ensures var cells := ExportedCells(report).value;
            var p := report.topGenreByCountry[i];
            ('A', 20 + i) in cells && cells[('A', 20 + i)] == Text(p.0)
            && ('B', 20 + i) in cells && cells[('B', 20 + i)] == Text(p.1)
  {
    var engagement := EngagementWrites(report.engagementDistribution).value;
    RegionCellShown(report, engagement, i, 0);
    RegionCellShown(report, engagement, i, 1);
  }

  /** The writes after the activity section stay in rows 19 to 32. */
  lemma AfterActivityRows(report: Report)
    ensures RowsWithin(AfterActivity(report), 19, 32)
  {
    RegionShape(report.topGenreByCountry, |report.topGenreByCountry|);
    RecommendationLayout(report.recommendations, RecommendationCount(report.recommendations));
  }

  /** Cell t (0 or 1: columns A and B) of the fourth metric row is what the saved sheet shows there. */
  lemma PeakHourCellShown(report: Report, engagement: seq<Write>, t: nat)
    requires t < 2
    ensures var metrics := ActivityMetrics(report.avgDau, report.avgWau, report.stickiness, report.peakHour);
            var w := [Write('A', 18, Text(metrics[3].0)), Write('B', 18, metrics[3].1)][t];
            (w.col, w.row) in Apply(map[], AllWrites(report, engagement))
            && Apply(map[], AllWrites(report, engagement))[(w.col, w.row)] == w.value
  {
    var metrics := ActivityMetrics(report.avgDau, report.avgWau, report.stickiness, report.peakHour);
    var before := BeforeActivity(report, engagement);
    var after := AfterActivity(report);
    AllWritesSplit(report, engagement);
    var prefix := MetricRows(metrics, 3);
    var row := [Write('A', 18, Text(metrics[3].0)), Write('B', 18, metrics[3].1)];
    assert ActivitySection(report) == prefix + row + [];
    var k := (row[t].col, row[t].row);
    var rest := row[t + 1..];
    assert Untouched(rest, k) by {
      forall j | 0 <= j < |rest| ensures (rest[j].col, rest[j].row) != k {
        assert rest[j] == row[t + 1 + j];
      }
    }
    AfterActivityRows(report);
    UntouchedOutside(after, 19, 32, k);
    SectionWriteSurvives(map[], before, prefix, row, [], after, t);
  }

  /**
   * In a saved sheet, row 18 shows the fourth activity metric: the label
   * "Peak Viewing Hour" in A18, over the "Regional Trends" header, and the
   * peak hour in B18.
   */
  lemma ExportedPeakHour(report: Report)
    requires ExportedCells(report).Some?
    ensures var cells := ExportedCells(report).value;
            ('A', 18) in cells && cells[('A', 18)] == Text("Peak Viewing Hour")
            && ('B', 18) in cells && cells[('B', 18)] == HourOfDay(report.peakHour)
  {
    var engagement := EngagementWrites(report.engagementDistribution).value;
    PeakHourCellShown(report, engagement, 0);
    PeakHourCellShown(report, engagement, 1);
  }
}
