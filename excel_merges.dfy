/**
 * export_to_excel (data_analysis.py) as openpyxl runs it, merged ranges
 * included. ws.merge_cells('A{r}:G{r}') turns B{r} to G{r} into read-only
 * merged cells and clears their values; a later assignment to one of them
 * raises, the except clause catches the error and no workbook is saved.
 */
module ExcelMerges {
  import opened Wrappers
  import opened ExcelExport

  /** One step of the export: a cell assignment, or the merge of columns A to G of a row. */
  datatype Op = Assign(w: Write) | MergeRow(row: nat)

  /** A worksheet: its cell values and the cells a merge covers other than a range's top-left one. */
  datatype Book = Book(cells: map<Cell, Value>, covered: set<Cell>)

  /** The cells of A{row}:G{row} that merging makes read-only: all but the top-left A{row}. */
  function CoveredBy(row: nat): (s: set<Cell>)
    ensures ('A', row) !in s && ('B', row) in s
    ensures forall k :: k in s ==> k.1 == row
  {
    {('B', row), ('C', row), ('D', row), ('E', row), ('F', row), ('G', row)}
  }

  /** The cells that the merges among `ops` cover. */
  function MergedBy(ops: seq<Op>): set<Cell> {
    if ops == [] then {}
    else
      var op := ops[|ops| - 1];
      MergedBy(ops[..|ops| - 1]) + (if op.MergeRow? then CoveredBy(op.row) else {})
  }

  /** One step: an assignment to a covered cell raises; a merge clears and covers B to G of its row. */
  function Step(b: Book, op: Op): (r: Option<Book>)
    ensures r.None? <==> op.Assign? && (op.w.col, op.w.row) in b.covered
    ensures r.Some? && op.Assign? ==> r.value.cells == b.cells[(op.w.col, op.w.row) := op.w.value]
    ensures r.Some? && op.MergeRow? ==> forall k :: k in CoveredBy(op.row) ==> k !in r.value.cells
    ensures r.Some? ==> r.value.covered == b.covered + (if op.MergeRow? then CoveredBy(op.row) else {})
  {
    match op
    case Assign(w) =>
      if (w.col, w.row) in b.covered then None else Some(b.(cells := b.cells[(w.col, w.row) := w.value]))
    case MergeRow(row) => Some(Book(b.cells - CoveredBy(row), b.covered + CoveredBy(row)))
  }

  /** The steps performed in order on a new sheet; None once one raises. */
  function Run(ops: seq<Op>): (r: Option<Book>)
    ensures r.Some? ==> r.value.covered == MergedBy(ops)
  {
    if ops == [] then Some(Book(map[], {}))
    else
      match Run(ops[..|ops| - 1])
      case None => None
      case Some(b) => Step(b, ops[|ops| - 1])
  }

  /** Once a step has raised, nothing after it runs. */
  lemma {:induction false} RunStaysFailed(a: seq<Op>, b: seq<Op>)
    requires Run(a).None?
    ensures Run(a + b).None?
  {
    if b == [] {
      assert a + b == a;
    } else {
      var b' := b[..|b| - 1];
      assert (a + b)[..|a + b| - 1] == a + b';
      RunStaysFailed(a, b');
    }
  }

  lemma {:induction false} MergedByConcat(a: seq<Op>, b: seq<Op>)
    ensures MergedBy(a + b) == MergedBy(a) + MergedBy(b)
  {
    if b == [] {
      assert a + b == a;
    } else {
      var b' := b[..|b| - 1];
      assert (a + b)[..|a + b| - 1] == a + b';
      assert (a + b)[|a + b| - 1] == b[|b| - 1];
      MergedByConcat(a, b');
    }
  }

  /** An assignment to a cell that an earlier merge covers makes the whole run fail. */
  lemma BlockedAssign(a: seq<Op>, w: Write, b: seq<Op>)
    requires (w.col, w.row) in MergedBy(a)
    ensures Run(a + [Assign(w)] + b).None?
  {
    assert (a + [Assign(w)])[..|a|] == a;
    RunStaysFailed(a + [Assign(w)], b);
  }

  /** Each write as an assignment step. */
  function Assigns(ws: seq<Write>): (ops: seq<Op>)
    ensures |ops| == |ws| && forall i :: 0 <= i < |ws| ==> ops[i] == Assign(ws[i])
  {
    seq(|ws|, i requires 0 <= i < |ws| => Assign(ws[i]))
  }

  /** The title and the five section headers, each merged over columns A to G, then the engagement labels. */
  function PreambleOps(): seq<Op> {
    var p := Preamble();
    [Assign(p[0]), MergeRow(1),
     Assign(p[1]), MergeRow(3), Assign(p[2]), MergeRow(8), Assign(p[3]), MergeRow(13),
     Assign(p[4]), MergeRow(18), Assign(p[5]), MergeRow(24),
     Assign(p[6]), Assign(p[7]), Assign(p[8])]
  }

  /** The first `n` recommendation lines, each merged over columns A to G after it is written. */
  function RecommendationOps(recs: seq<string>, n: nat): (ops: seq<Op>)
    requires n <= |recs| && n <= RecommendationLimit
    ensures |ops| == 2 * n
  {
    if n == 0 then []
    else RecommendationOps(recs, n - 1) + [Assign(Write('A', 25 + n - 1, Text(Numbered(n - 1, recs[n - 1])))), MergeRow(25 + n - 1)]
  }

  /** The cell assignments between the preamble and the recommendations. */
  function SectionWrites(report: Report, engagement: seq<Write>): seq<Write> {
    engagement + GenreLabels() + GenreSection(report) + ActivityLabels() + ActivitySection(report)
    + RegionLabels() + RegionSection(report)
  }

  /** The steps of export_to_excel in the source's order. */
  function AsWrittenOps(report: Report, engagement: seq<Write>): seq<Op> {
    PreambleOps() + Assigns(SectionWrites(report, engagement))
    + RecommendationOps(report.recommendations, RecommendationCount(report.recommendations))
  }

  /** The workbook export_to_excel saves as the source is written, or None when the try block raises. */
  function ExportAsWritten(report: Report): Option<map<Cell, Value>> {
    match EngagementWrites(report.engagementDistribution)
    case None => None
    case Some(engagement) =>
      match Run(AsWrittenOps(report, engagement))
      case None => None
      case Some(book) => Some(book.cells)
  }

  /** The header merge of row 18 covers B18. */
  lemma PreambleCoversB18()
    ensures ('B', 18) in MergedBy(PreambleOps())
  {
    var ops := PreambleOps();
    var upTo := ops[..10];
    assert upTo[..9] + [MergeRow(18)] == upTo;
    assert ('B', 18) in MergedBy(upTo);
    assert ops == upTo + ops[10..];
    MergedByConcat(upTo, ops[10..]);
  }

  /** The peak-hour value is the eighth activity write, to B18. */
  lemma PeakHourWrite(report: Report)
    ensures |ActivitySection(report)| == 8
    ensures ActivitySection(report)[7] == Write('B', 18, HourOfDay(report.peakHour))
  {
    var metrics := ActivityMetrics(report.avgDau, report.avgWau, report.stickiness, report.peakHour);
    assert MetricRows(metrics, 4) == MetricRows(metrics, 3) + [Write('A', 18, Text(metrics[3].0)), Write('B', 18, metrics[3].1)];
  }

  /** Where the peak-hour value sits among the section writes. */
  lemma PeakHourIndex(report: Report, engagement: seq<Write>) returns (k: nat)
    ensures k < |SectionWrites(report, engagement)|
    ensures SectionWrites(report, engagement)[k] == Write('B', 18, HourOfDay(report.peakHour))
  {
    PeakHourWrite(report);
    var before := engagement + GenreLabels() + GenreSection(report) + ActivityLabels();
    k := |before| + 7;
  }

  lemma AssignsAround(ws: seq<Write>, k: nat)
    requires k < |ws|
    ensures Assigns(ws) == Assigns(ws)[..k] + [Assign(ws[k])] + Assigns(ws)[k + 1..]
  {
  }

  /**
   * As written, export_to_excel never saves a workbook: the fourth activity
   * metric goes to B18, which the "Regional Trends" header merge A18:G18 has
   * made read-only, so the assignment raises.
   */
  lemma ExportAsWrittenNeverSaves(report: Report)
    ensures ExportAsWritten(report) == None
  {
    match EngagementWrites(report.engagementDistribution)
    case None =>
    case Some(engagement) =>
      var writes := SectionWrites(report, engagement);
      var k := PeakHourIndex(report, engagement);
      var w := writes[k];
      var pre := PreambleOps();
      var assigns := Assigns(writes);
      var recs := RecommendationOps(report.recommendations, RecommendationCount(report.recommendations));
      AssignsAround(writes, k);
      var a := pre + assigns[..k];
      assert AsWrittenOps(report, engagement) == a + [Assign(w)] + (assigns[k + 1..] + recs);
      PreambleCoversB18();
      MergedByConcat(pre, assigns[..k]);
      BlockedAssign(a, w, assigns[k + 1..] + recs);
  }
}
