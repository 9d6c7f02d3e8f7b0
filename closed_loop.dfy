/** The RQ3 comparison bookkeeping: the closed-loop / open-loop split of
    the AI-authored PRs, the proportion and merge counts with their zero
    guards, which descriptive and test rows are emitted, and the four-row
    summary table with its "N/A" markers. The statistics themselves
    (medians, means, Mann-Whitney U, chi-square, Cliff's delta) are library
    calls on floats; the model records which of them is computed and shown,
    never their values. */
module ClosedLoop {
  import opened Frames

  datatype Loop = ClosedLoop | OpenLoop

  datatype Metric = ReviewDuration | NumComments | MergeRate

  predicate IsClosed(p: PullRequest) { p.closedLoop == Some(1) }

  predicate IsOpen(p: PullRequest) { p.closedLoop == Some(0) }

  predicate IsExcluded(p: PullRequest) { !IsClosed(p) && !IsOpen(p) }

  /** `rq3_data[rq3_data["closed_loop"] == 1]` and `== 0`. */
  function Cohort(rq3: seq<PullRequest>, g: Loop): (r: seq<PullRequest>)
    ensures |r| <= |rq3|
    ensures forall i :: 0 <= i < |r| ==> r[i].closedLoop == Some(if g == ClosedLoop then 1 else 0)
  {
    var r := if g == ClosedLoop then Filter(rq3, IsClosed) else Filter(rq3, IsOpen);
    assert forall i :: 0 <= i < |r| ==> r[i] in r;
    r
  }

  /** The two cohorts are disjoint, every row of a cohort has that cohort's
      flag, and together with the rows whose flag is missing or any other
      value they account for every row exactly once. */
  lemma {:induction false} CohortsPartition(rq3: seq<PullRequest>)
    ensures forall p :: p in Cohort(rq3, ClosedLoop) ==> p in rq3 && p.closedLoop == Some(1)
    ensures forall p :: p in Cohort(rq3, OpenLoop) ==> p in rq3 && p.closedLoop == Some(0)
    ensures |Cohort(rq3, ClosedLoop)| + |Cohort(rq3, OpenLoop)| + |Filter(rq3, IsExcluded)| == |rq3|
    ensures |Cohort(rq3, ClosedLoop)| + |Cohort(rq3, OpenLoop)| <= |rq3|
    decreases |rq3|
  {
    if rq3 != [] {
      CohortsPartition(rq3[1..]);
    }
  }

  /** `closed_loop_proportion`: the closed share of all rows, 0 without rows. */
  function Proportion(rq3: seq<PullRequest>): (r: real)
    ensures 0.0 <= r <= 1.0
    ensures |rq3| == 0 ==> r == 0.0
    ensures |rq3| > 0 ==> r * (|rq3| as real) == |Cohort(rq3, ClosedLoop)| as real
  {
    if |rq3| > 0 then Share(|Cohort(rq3, ClosedLoop)|, |rq3|) else 0.0
  }

  /** `part / whole` as a real, for a part no larger than the whole. */
  function Share(part: nat, whole: nat): (r: real)
    requires 0 < whole && part <= whole
    ensures 0.0 <= r <= 1.0
    ensures r * (whole as real) == part as real
  {
    part as real / whole as real
  }

  predicate HasDuration(p: PullRequest) { p.reviewDurationHours.Some? }

  predicate HasCommentCount(p: PullRequest) { p.nComments.Some? }

  /** `.dropna()` of the review durations of a cohort. */
  function Durations(ps: seq<PullRequest>): (r: seq<real>)
    ensures |r| <= |ps|
    ensures |r| == 0 <==> forall i :: 0 <= i < |ps| ==> ps[i].reviewDurationHours.None?
    decreases |ps|
  {
    if ps == [] then []
    else
      var rest := Durations(ps[1..]);
      assert forall i :: 1 <= i < |ps| ==> ps[i] == ps[1..][i - 1];
      match ps[0].reviewDurationHours
      case Some(d) => [d] + rest
      case None => rest
  }

  /** `.dropna()` of the comment counts of a cohort. */
  function CommentCounts(ps: seq<PullRequest>): (r: seq<int>)
    ensures |r| <= |ps|
    ensures |r| == 0 <==> forall i :: 0 <= i < |ps| ==> ps[i].nComments.None?
    decreases |ps|
  {
    if ps == [] then []
    else
      var rest := CommentCounts(ps[1..]);
      assert forall i :: 1 <= i < |ps| ==> ps[i] == ps[1..][i - 1];
      match ps[0].nComments
      case Some(n) => [n] + rest
      case None => rest
  }

  /** The durations are those of the PRs that have one, in order, so the
      `count` of a duration row is the number of such PRs. */
  lemma {:induction false} DurationsArePresent(ps: seq<PullRequest>)
    ensures |Durations(ps)| == |Filter(ps, HasDuration)|
    ensures forall k :: 0 <= k < |Durations(ps)| ==>
      Filter(ps, HasDuration)[k].reviewDurationHours == Some(Durations(ps)[k])
    decreases |ps|
  {
    if ps != [] {
      DurationsArePresent(ps[1..]);
    }
  }

  /** The comment counts are those of the PRs that have one, in order, so
      the `count` of a comment row is the number of such PRs. */
  lemma {:induction false} CommentCountsArePresent(ps: seq<PullRequest>)
    ensures |CommentCounts(ps)| == |Filter(ps, HasCommentCount)|
    ensures forall k :: 0 <= k < |CommentCounts(ps)| ==>
      Filter(ps, HasCommentCount)[k].nComments == Some(CommentCounts(ps)[k])
    decreases |ps|
  {
    if ps != [] {
      CommentCountsArePresent(ps[1..]);
    }
  }

  /** Size of the sample a metric is computed on for one cohort. */
  function SampleSize(rq3: seq<PullRequest>, m: Metric, g: Loop): nat
  {
    match m
    case ReviewDuration => |Durations(Cohort(rq3, g))|
    case NumComments => |CommentCounts(Cohort(rq3, g))|
    case MergeRate => |Cohort(rq3, g)|
  }

  /** Both cohorts have a non-empty sample for `m`. */
  predicate BothNonEmpty(rq3: seq<PullRequest>, m: Metric)
  {
    SampleSize(rq3, m, ClosedLoop) > 0 && SampleSize(rq3, m, OpenLoop) > 0
  }

  /** `merged.sum()`. */
  function MergedSum(ps: seq<PullRequest>): int
    decreases |ps|
  {
    if ps == [] then 0 else ps[0].merged + MergedSum(ps[1..])
  }

  /** `merged.mean()` guarded to 0 for an empty cohort. */
  function MergeRateOf(ps: seq<PullRequest>): (r: real)
    ensures |ps| == 0 ==> r == 0.0
    ensures |ps| > 0 ==> r * (|ps| as real) == MergedSum(ps) as real
  {
    if |ps| > 0 then MergedSum(ps) as real / |ps| as real else 0.0
  }

  /** With every `merged` flag 0 or 1, the merged count lies between 0 and
      the cohort size and the merge rate between 0 and 1. */
  lemma {:induction false} MergedBounded(ps: seq<PullRequest>)
    requires forall i :: 0 <= i < |ps| ==> ps[i].merged == 0 || ps[i].merged == 1
    ensures 0 <= MergedSum(ps) <= |ps|
    ensures 0.0 <= MergeRateOf(ps) <= 1.0
    decreases |ps|
  {
    if ps != [] {
      assert forall i :: 1 <= i < |ps| ==> ps[i] == ps[1..][i - 1];
      MergedBounded(ps[1..]);
      assert 0 <= MergedSum(ps) <= |ps|;
      RatioBounded(MergedSum(ps), |ps|);
    }
  }

  lemma RatioBounded(part: int, whole: int)
    requires 0 <= part <= whole && 0 < whole
    ensures 0.0 <= part as real / whole as real <= 1.0
  {
  }

  /** The set of `closed_loop` values among rows where it is present. */
  function ClosedLoopValues(rq3: seq<PullRequest>): set<int>
  {
    set p | p in rq3 && p.closedLoop.Some? :: p.closedLoop.value
  }

  /** The set of `merged` values among rows where `closed_loop` is present. */
  function MergedValues(rq3: seq<PullRequest>): set<int>
  {
    set p | p in rq3 && p.closedLoop.Some? :: p.merged
  }

  /** `pd.crosstab(closed_loop, merged).size`: one cell per pair of a
      `closed_loop` value and a `merged` value seen together. The chi-square
      guard `size > 0` therefore holds as soon as one row has a closed-loop
      flag: it does not ask for two cohorts, so a table with a single cohort
      still runs the test. */
  function CrosstabSize(rq3: seq<PullRequest>): (r: nat)
    ensures r > 0 <==> exists p :: p in rq3 && p.closedLoop.Some?
  {
    FlaggedValues(rq3);
    |ClosedLoopValues(rq3)| * |MergedValues(rq3)|
  }

  lemma FlaggedValues(rq3: seq<PullRequest>)
    ensures |ClosedLoopValues(rq3)| > 0 <==> exists p :: p in rq3 && p.closedLoop.Some?
    ensures |MergedValues(rq3)| > 0 <==> exists p :: p in rq3 && p.closedLoop.Some?
  {
    if exists p :: p in rq3 && p.closedLoop.Some? {
      var p :| p in rq3 && p.closedLoop.Some?;
      assert p.closedLoop.value in ClosedLoopValues(rq3);
      assert p.merged in MergedValues(rq3);
    } else {
      assert ClosedLoopValues(rq3) == {};
      assert MergedValues(rq3) == {};
    }
  }

  /** One entry of `results`. Values computed by library calls are left out;
      the row says which statistic was computed and on what counts. */
  datatype ResultRow =
    | ProportionRow(value: real, closedCount: nat, openCount: nat, total: nat)
    | DescriptiveRow(metric: Metric, group: Loop, count: nat)
    | MergeRateRow(group: Loop, value: real, count: nat, merged: int)
    | RankSumRow(metric: Metric)
    | ChiSquareRow

  /** The row that belongs in `results` exactly when `cond` holds. */
  function When(cond: bool, row: ResultRow): seq<ResultRow>
  {
    if cond then [row] else []
  }

  /** The descriptive rows of one sampled metric: one per non-empty cohort. */
  function Described(rq3: seq<PullRequest>, m: Metric): seq<ResultRow>
  {
    When(SampleSize(rq3, m, ClosedLoop) > 0, DescriptiveRow(m, ClosedLoop, SampleSize(rq3, m, ClosedLoop)))
    + When(SampleSize(rq3, m, OpenLoop) > 0, DescriptiveRow(m, OpenLoop, SampleSize(rq3, m, OpenLoop)))
  }

  function MergeRow(rq3: seq<PullRequest>, g: Loop): ResultRow
  {
    MergeRateRow(g, MergeRateOf(Cohort(rq3, g)), |Cohort(rq3, g)|, MergedSum(Cohort(rq3, g)))
  }

  function ProportionOf(rq3: seq<PullRequest>): ResultRow
  {
    ProportionRow(Proportion(rq3), |Cohort(rq3, ClosedLoop)|, |Cohort(rq3, OpenLoop)|, |rq3|)
  }

  /** The test rows: rank-sum on durations, chi-square on merges, rank-sum on comments. */
  function Tests(rq3: seq<PullRequest>): seq<ResultRow>
  {
    When(BothNonEmpty(rq3, ReviewDuration), RankSumRow(ReviewDuration))
    + When(CrosstabSize(rq3) > 0, ChiSquareRow)
    + When(BothNonEmpty(rq3, NumComments), RankSumRow(NumComments))
  }

  /** The whole `results` list in emission order. */
  function Emitted(rq3: seq<PullRequest>): seq<ResultRow>
  {
    [ProportionOf(rq3)] + Described(rq3, ReviewDuration)
    + [MergeRow(rq3, ClosedLoop), MergeRow(rq3, OpenLoop)]
    + Described(rq3, NumComments) + Tests(rq3)
  }

  /** Which rows the RQ3 step reports, independently of their order: the
      proportion, a descriptive row per non-empty duration or comment
      sample, both merge-rate rows unconditionally, a rank-sum row per
      metric whose two samples are non-empty, and the chi-square row when
      the contingency table has a cell. */
  predicate Expected(rq3: seq<PullRequest>, row: ResultRow)
  {
    match row
    case ProportionRow(_, _, _, _) => row == ProportionOf(rq3)
    case DescriptiveRow(m, g, n) => m != MergeRate && n == SampleSize(rq3, m, g) && n > 0
    case MergeRateRow(g, _, _, _) => row == MergeRow(rq3, g)
    case RankSumRow(m) => m != MergeRate && BothNonEmpty(rq3, m)
    case ChiSquareRow => CrosstabSize(rq3) > 0
  }

  lemma DescribedRows(rq3: seq<PullRequest>, m: Metric, row: ResultRow)
    requires m != MergeRate
    ensures row in Described(rq3, m) <==> row.DescriptiveRow? && row.metric == m && Expected(rq3, row)
  {
    assert row in Described(rq3, m) <==>
      row in When(SampleSize(rq3, m, ClosedLoop) > 0, DescriptiveRow(m, ClosedLoop, SampleSize(rq3, m, ClosedLoop)))
      || row in When(SampleSize(rq3, m, OpenLoop) > 0, DescriptiveRow(m, OpenLoop, SampleSize(rq3, m, OpenLoop)));
  }

  lemma TestRows(rq3: seq<PullRequest>, row: ResultRow)
    ensures row in Tests(rq3) <==> (row.RankSumRow? || row.ChiSquareRow?) && Expected(rq3, row)
  {
    var a := When(BothNonEmpty(rq3, ReviewDuration), RankSumRow(ReviewDuration));
    var b := When(CrosstabSize(rq3) > 0, ChiSquareRow);
    var c := When(BothNonEmpty(rq3, NumComments), RankSumRow(NumComments));
    assert Tests(rq3) == a + b + c;
    assert row in a + b + c <==> row in a || row in b || row in c;
  }

  /** The emitted list holds exactly the expected rows. */
  lemma EmittedIsExpected(rq3: seq<PullRequest>, row: ResultRow)
    ensures row in Emitted(rq3) <==> Expected(rq3, row)
  {
    var p := [ProportionOf(rq3)];
    var d1 := Described(rq3, ReviewDuration);
    var mr := [MergeRow(rq3, ClosedLoop), MergeRow(rq3, OpenLoop)];
    var d2 := Described(rq3, NumComments);
    var t := Tests(rq3);
    assert Emitted(rq3) == p + d1 + mr + d2 + t;
    assert row in p + d1 + mr + d2 + t <==>
      row in p || row in d1 || row in mr || row in d2 || row in t;
    DescribedRows(rq3, ReviewDuration, row);
    DescribedRows(rq3, NumComments, row);
    TestRows(rq3, row);
  }

  lemma EmittedAreExpected(rq3: seq<PullRequest>)
    ensures forall row :: row in Emitted(rq3) <==> Expected(rq3, row)
  {
    forall row ensures row in Emitted(rq3) <==> Expected(rq3, row) {
      EmittedIsExpected(rq3, row);
    }
  }

  /** The `results` list, appended to in source order under the source's guards. */
  method Results(rq3: seq<PullRequest>) returns (results: seq<ResultRow>)
    ensures |results| >= 3
    ensures results[0] == ProportionOf(rq3)
    ensures forall row :: row in results <==> Expected(rq3, row)
    ensures results == Emitted(rq3)
  {
    var closed, open := Cohort(rq3, ClosedLoop), Cohort(rq3, OpenLoop);
    results := [ProportionRow(Proportion(rq3), |closed|, |open|, |rq3|)];

    var closedDuration, openDuration := Durations(closed), Durations(open);
    results := AppendDescribed(results, ReviewDuration, |closedDuration|, |openDuration|);
    ghost var head := results;
    assert head == [ProportionOf(rq3)] + Described(rq3, ReviewDuration);

    results := results + [MergeRateRow(ClosedLoop, MergeRateOf(closed), |closed|, MergedSum(closed))];
    results := results + [MergeRateRow(OpenLoop, MergeRateOf(open), |open|, MergedSum(open))];
    ghost var merges := results;
    assert merges == head + [MergeRow(rq3, ClosedLoop), MergeRow(rq3, OpenLoop)];

    var closedComments, openComments := CommentCounts(closed), CommentCounts(open);
    results := AppendDescribed(results, NumComments, |closedComments|, |openComments|);
    ghost var described := results;
    assert described == merges + Described(rq3, NumComments);

    results := AppendTests(results, |closedDuration| > 0 && |openDuration| > 0, CrosstabSize(rq3) > 0,
                           |closedComments| > 0 && |openComments| > 0);
    assert results == described + Tests(rq3);
    EmittedAreExpected(rq3);
    EmittedStartsWithProportion(rq3);
  }

  /** The descriptive rows of one metric: a row per cohort whose sample is
      non-empty, closed-loop first. */
  method AppendDescribed(results: seq<ResultRow>, m: Metric, closedSize: nat, openSize: nat)
    returns (out: seq<ResultRow>)
    ensures out == results + (When(closedSize > 0, DescriptiveRow(m, ClosedLoop, closedSize))
      + When(openSize > 0, DescriptiveRow(m, OpenLoop, openSize)))
  {
    out := results;
    if closedSize > 0 {
      out := out + [DescriptiveRow(m, ClosedLoop, closedSize)];
    }
    if openSize > 0 {
      out := out + [DescriptiveRow(m, OpenLoop, openSize)];
    }
  }

  /** The test rows: the duration rank-sum test, the chi-square test on
      merges and the comment rank-sum test, each under its guard. */
  method AppendTests(results: seq<ResultRow>, durationsCompared: bool, crosstabHasCell: bool, commentsCompared: bool)
    returns (out: seq<ResultRow>)
    ensures out == results + (When(durationsCompared, RankSumRow(ReviewDuration))
      + When(crosstabHasCell, ChiSquareRow) + When(commentsCompared, RankSumRow(NumComments)))
  {
    out := results;
    if durationsCompared {
      out := out + [RankSumRow(ReviewDuration)];
    }
    if crosstabHasCell {
      out := out + [ChiSquareRow];
    }
    if commentsCompared {
      out := out + [RankSumRow(NumComments)];
    }
  }

  lemma EmittedStartsWithProportion(rq3: seq<PullRequest>)
    ensures |Emitted(rq3)| >= 3 && Emitted(rq3)[0] == ProportionOf(rq3)
  {
  }

  /** What a summary cell shows, when it is not "N/A". */
  datatype Quantity =
    | ProportionPercent
    | MedianOf(metric: Metric, group: Loop)
    | MeanOf(metric: Metric, group: Loop)
    | MergeRatePercent(group: Loop)
    | PValueOf(metric: Metric)
    | EffectSizeOf(metric: Metric)

  /** One summary cell: the explicit "N/A" marker or a formatted quantity. */
  datatype SummaryCell = NotApplicable | Shows(q: Quantity)

  /** The metric a quantity belongs to (the proportion belongs to none). */
  function MetricOf(q: Quantity): Option<Metric>
  {
    match q
    case ProportionPercent => None
    case MedianOf(m, _) => Some(m)
    case MeanOf(m, _) => Some(m)
    case MergeRatePercent(_) => Some(MergeRate)
    case PValueOf(m) => Some(m)
    case EffectSizeOf(m) => Some(m)
  }

  /** The `summary` dict: its seven column lists. */
  datatype Summary = Summary(
    metric: seq<string>,
    closedMedian: seq<SummaryCell>,
    openMedian: seq<SummaryCell>,
    closedMean: seq<SummaryCell>,
    openMean: seq<SummaryCell>,
    pValue: seq<SummaryCell>,
    effectSize: seq<SummaryCell>)

  /** Every column of the summary holds `n` entries. */
  predicate Shaped(s: Summary, n: nat)
  {
    && |s.metric| == n && |s.closedMedian| == n && |s.openMedian| == n
    && |s.closedMean| == n && |s.openMean| == n && |s.pValue| == n && |s.effectSize| == n
  }

  /** The six value cells of summary row `k`, read across the columns. */
  function SummaryRow(s: Summary, k: nat): (r: seq<SummaryCell>)
    requires Shaped(s, |s.metric|) && k < |s.metric|
    ensures |r| == 6
  {
    [s.closedMedian[k], s.openMedian[k], s.closedMean[k], s.openMean[k], s.pValue[k], s.effectSize[k]]
  }

  const SummaryMetrics: seq<string> :=
    ["Closed-Loop Proportion", "Review Duration (hours)", "Merge Rate", "Number of Comments"]

  /** Six "N/A" cells. */
  const Unavailable: seq<SummaryCell> :=
    [NotApplicable, NotApplicable, NotApplicable, NotApplicable, NotApplicable, NotApplicable]

  /** The cells of a compared metric: both medians, both means, p-value, effect size. */
  function Compared(m: Metric): seq<SummaryCell>
  {
    [Shows(MedianOf(m, ClosedLoop)), Shows(MedianOf(m, OpenLoop)), Shows(MeanOf(m, ClosedLoop)),
     Shows(MeanOf(m, OpenLoop)), Shows(PValueOf(m)), Shows(EffectSizeOf(m))]
  }

  /** Every quantity a row shows belongs to the metric `m` of the row. */
  predicate CellsOf(cells: seq<SummaryCell>, m: Option<Metric>)
  {
    forall j :: 0 <= j < |cells| && cells[j].Shows? ==> MetricOf(cells[j].q) == m
  }

  /** The summary row of a compared metric: its four descriptive cells,
      p-value and effect size when both samples are non-empty, six "N/A"
      cells otherwise. */
  method AppendComparedRow(s: Summary, name: string, m: Metric, compared: bool) returns (t: Summary)
    requires Shaped(s, |s.metric|)
    ensures Shaped(t, |s.metric| + 1)
    ensures t.metric == s.metric + [name]
    ensures forall k :: 0 <= k < |s.metric| ==> SummaryRow(t, k) == SummaryRow(s, k)
    ensures SummaryRow(t, |s.metric|) == if compared then Compared(m) else Unavailable
  {
    if compared {
      t := s.(metric := s.metric + [name]);
      t := t.(closedMedian := t.closedMedian + [Shows(MedianOf(m, ClosedLoop))]);
      t := t.(openMedian := t.openMedian + [Shows(MedianOf(m, OpenLoop))]);
      t := t.(closedMean := t.closedMean + [Shows(MeanOf(m, ClosedLoop))]);
      t := t.(openMean := t.openMean + [Shows(MeanOf(m, OpenLoop))]);
      t := t.(pValue := t.pValue + [Shows(PValueOf(m))]);
      t := t.(effectSize := t.effectSize + [Shows(EffectSizeOf(m))]);
    } else {
      t := s.(metric := s.metric + [name]);
      t := t.(closedMedian := t.closedMedian + [NotApplicable]);
      t := t.(openMedian := t.openMedian + [NotApplicable]);
      t := t.(closedMean := t.closedMean + [NotApplicable]);
      t := t.(openMean := t.openMean + [NotApplicable]);
      t := t.(pValue := t.pValue + [NotApplicable]);
      t := t.(effectSize := t.effectSize + [NotApplicable]);
    }
  }

  /** The cells of the proportion row: the proportion, then five "N/A". */
  const ProportionCells: seq<SummaryCell> := [Shows(ProportionPercent)] + Unavailable[1..]

  /** The cells of the merge-rate row: both merge rates, the chi-square
      p-value when the test ran, "N/A" elsewhere. */
  function MergeCells(mergeTested: bool): seq<SummaryCell>
  {
    [Shows(MergeRatePercent(ClosedLoop)), Shows(MergeRatePercent(OpenLoop)), NotApplicable, NotApplicable,
     if mergeTested then Shows(PValueOf(MergeRate)) else NotApplicable, NotApplicable]
  }

  /** The first summary row, written into the empty summary. */
  method ProportionSummary() returns (s: Summary)
    ensures s.metric == ["Closed-Loop Proportion"]
    ensures Shaped(s, 1)
    ensures SummaryRow(s, 0) == ProportionCells
  {
    s := Summary([], [], [], [], [], [], []);
    s := s.(metric := s.metric + ["Closed-Loop Proportion"]);
    s := s.(closedMedian := s.closedMedian + [Shows(ProportionPercent)]);
    s := s.(openMedian := s.openMedian + [NotApplicable]);
    s := s.(closedMean := s.closedMean + [NotApplicable]);
    s := s.(openMean := s.openMean + [NotApplicable]);
    s := s.(pValue := s.pValue + [NotApplicable]);
    s := s.(effectSize := s.effectSize + [NotApplicable]);
  }

  /** Appends the merge-rate row. */
  method AppendMergeRow(s: Summary, mergeTested: bool) returns (t: Summary)
    requires Shaped(s, |s.metric|)
    ensures Shaped(t, |s.metric| + 1)
    ensures t.metric == s.metric + ["Merge Rate"]
    ensures forall k :: 0 <= k < |s.metric| ==> SummaryRow(t, k) == SummaryRow(s, k)
    ensures SummaryRow(t, |s.metric|) == MergeCells(mergeTested)
  {
    t := s.(metric := s.metric + ["Merge Rate"]);
    t := t.(closedMedian := t.closedMedian + [Shows(MergeRatePercent(ClosedLoop))]);
    t := t.(openMedian := t.openMedian + [Shows(MergeRatePercent(OpenLoop))]);
    t := t.(closedMean := t.closedMean + [NotApplicable]);
    t := t.(openMean := t.openMean + [NotApplicable]);
    t := t.(pValue := t.pValue + [if mergeTested then Shows(PValueOf(MergeRate)) else NotApplicable]);
    t := t.(effectSize := t.effectSize + [NotApplicable]);
  }

  /** The formatted summary for the three guards it depends on: four rows in
      a fixed order, every column of equal length, each row as the source
      writes it; so the compared rows hold "N/A" exactly when their
      comparison did not run, and every shown quantity sits in the row of
      its own metric. */
  method SummaryFor(durationCompared: bool, mergeTested: bool, commentsCompared: bool) returns (s: Summary)
    ensures s.metric == SummaryMetrics
    ensures Shaped(s, 4)
    ensures SummaryRow(s, 0) == ProportionCells
    ensures SummaryRow(s, 1) == if durationCompared then Compared(ReviewDuration) else Unavailable
    ensures SummaryRow(s, 2) == MergeCells(mergeTested)
    ensures SummaryRow(s, 3) == if commentsCompared then Compared(NumComments) else Unavailable
    ensures NotApplicable in SummaryRow(s, 1) <==> !durationCompared
    ensures NotApplicable in SummaryRow(s, 3) <==> !commentsCompared
    ensures s.pValue[2] == NotApplicable <==> !mergeTested
    ensures CellsOf(SummaryRow(s, 0), None) && CellsOf(SummaryRow(s, 1), Some(ReviewDuration))
      && CellsOf(SummaryRow(s, 2), Some(MergeRate)) && CellsOf(SummaryRow(s, 3), Some(NumComments))
  {
    s := ProportionSummary();
    s := AppendComparedRow(s, "Review Duration (hours)", ReviewDuration, durationCompared);
    s := AppendMergeRow(s, mergeTested);
    s := AppendComparedRow(s, "Number of Comments", NumComments, commentsCompared);
    ComparedAllOrNothing(ReviewDuration, durationCompared, SummaryRow(s, 1));
    ComparedAllOrNothing(NumComments, commentsCompared, SummaryRow(s, 3));
    FixedRowsFacts(mergeTested);
    assert s.pValue[2] == SummaryRow(s, 2)[4];
  }

  /** The proportion row shows only the proportion, and the merge-rate row
      only merge quantities, its p-value being "N/A" iff the test did not run. */
  lemma FixedRowsFacts(mergeTested: bool)
    ensures CellsOf(ProportionCells, None)
    ensures CellsOf(MergeCells(mergeTested), Some(MergeRate))
    ensures MergeCells(mergeTested)[4] == NotApplicable <==> !mergeTested
  {
    assert forall j :: 1 <= j < 6 ==> ProportionCells[j] == NotApplicable;
  }

  /** A compared row is either fully filled or fully "N/A": no cell is
      "N/A" when the comparison ran, every cell is when it did not. */
  lemma ComparedAllOrNothing(m: Metric, compared: bool, cells: seq<SummaryCell>)
    requires cells == if compared then Compared(m) else Unavailable
    ensures NotApplicable in cells <==> !compared
    ensures !compared ==> forall j :: 0 <= j < |cells| ==> cells[j] == NotApplicable
    ensures CellsOf(cells, Some(m))
  {
    if compared {
      assert forall j :: 0 <= j < |cells| ==> cells[j].Shows?;
    }
  }

  /** The summary of an RQ3 table: the duration and comment rows are filled
      exactly when both cohorts have a sample, the merge p-value exactly when
      the chi-square test ran, and every shown quantity sits in the row of
      its own metric. */
  method BuildSummary(rq3: seq<PullRequest>) returns (s: Summary)
    ensures s.metric == SummaryMetrics
    ensures Shaped(s, 4)
    ensures NotApplicable in SummaryRow(s, 1) <==> !BothNonEmpty(rq3, ReviewDuration)
    ensures NotApplicable in SummaryRow(s, 3) <==> !BothNonEmpty(rq3, NumComments)
    ensures !BothNonEmpty(rq3, ReviewDuration) ==> SummaryRow(s, 1) == Unavailable
    ensures !BothNonEmpty(rq3, NumComments) ==> SummaryRow(s, 3) == Unavailable
    ensures SummaryRow(s, 0) == ProportionCells
    ensures s.pValue[2] == NotApplicable <==> CrosstabSize(rq3) == 0
    ensures CellsOf(SummaryRow(s, 0), None) && CellsOf(SummaryRow(s, 1), Some(ReviewDuration))
      && CellsOf(SummaryRow(s, 2), Some(MergeRate)) && CellsOf(SummaryRow(s, 3), Some(NumComments))
  {
    s := SummaryFor(BothNonEmpty(rq3, ReviewDuration), CrosstabSize(rq3) > 0, BothNonEmpty(rq3, NumComments));
  }
}
