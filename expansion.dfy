/** The RQ2 fan-out: every classified comment becomes one row per category
    label (a comment without labels becomes one "other" row), and the
    per-category and per-(category, sentiment) counts taken over those rows. */
module CommentExpansion {
  import opened Text
  import opened Frames
  import opened CommentClassifier
  import opened Preprocess

  /** One comment with the two derived columns the classifier adds. */
  datatype ClassifiedComment = ClassifiedComment(
    prId: Cell,
    commentId: Cell,
    categories: seq<Category>,
    sentiment: Sentiment)

  /** One row of the expanded table. */
  datatype ExpandedRow = ExpandedRow(
    prId: Cell,
    commentId: Cell,
    category: Category,
    sentiment: Sentiment,
    hasMultipleCategories: bool)

  /** `row.get("id", idx)`: the `id` cell when the table has that column,
      the row's index label otherwise. */
  function CommentIdOf(t: Table, row: Row): Cell
  {
    if "id" in t.columns then Get(row, "id") else Num(row.index)
  }

  /** The comment table with `categories` and `sentiment` computed from
      column `col`; the comment id is the `id` cell when the table has that
      column and the row's index label otherwise. */
  function Classified(t: Table, col: string): (r: seq<ClassifiedComment>)
    ensures |r| == |t.rows|
    ensures forall i :: 0 <= i < |r| ==>
      && r[i].prId == Get(t.rows[i], "pr_id")
      && r[i].commentId == CommentIdOf(t, t.rows[i])
      && r[i].categories == Categorize(TextOf(Get(t.rows[i], col)))
      && r[i].sentiment == AnalyzeSentiment(TextOf(Get(t.rows[i], col)))
      && (r[i].categories == [] <==> Get(t.rows[i], col) == Null)
      && (Get(t.rows[i], col) == Null ==> r[i].sentiment == Neutral)
  {
    seq(|t.rows|, i requires 0 <= i < |t.rows| =>
      var row := t.rows[i];
      var text := TextOf(Get(row, col));
      ClassifiedComment(
        Get(row, "pr_id"),
        CommentIdOf(t, row),
        Categorize(text),
        AnalyzeSentiment(text)))
  }

  /** The rows one comment contributes. */
  function RowsFor(c: ClassifiedComment): seq<ExpandedRow>
  {
    if |c.categories| > 0 then
      seq(|c.categories|, j requires 0 <= j < |c.categories| =>
        ExpandedRow(c.prId, c.commentId, c.categories[j], c.sentiment, |c.categories| > 1))
    else
      [ExpandedRow(c.prId, c.commentId, Other, c.sentiment, false)]
  }

  /** The expanded table for a sequence of comments, in comment order. */
  function Expansion(cs: seq<ClassifiedComment>): seq<ExpandedRow>
    decreases |cs|
  {
    if cs == [] then [] else Expansion(cs[..|cs| - 1]) + RowsFor(cs[|cs| - 1])
  }

  /** The expansion loop: walks the comments in order and appends one row
      per category, or a single "other" row for an empty category list. */
  method Expand(cs: seq<ClassifiedComment>) returns (rows: seq<ExpandedRow>)
    ensures rows == Expansion(cs)
  {
    rows := [];
    var i := 0;
    while i < |cs|
      invariant 0 <= i <= |cs|
      invariant rows == Expansion(cs[..i])
    {
      var c := cs[i];
      if |c.categories| > 0 {
        var j := 0;
        while j < |c.categories|
          invariant 0 <= j <= |c.categories|
          invariant rows == Expansion(cs[..i]) + RowsFor(c)[..j]
        {
          rows := rows + [ExpandedRow(c.prId, c.commentId, c.categories[j], c.sentiment, |c.categories| > 1)];
          j := j + 1;
        }
      } else {
        rows := rows + [ExpandedRow(c.prId, c.commentId, Other, c.sentiment, false)];
      }
      assert cs[..i + 1][..i] == cs[..i];
      i := i + 1;
    }
    assert cs[..i] == cs;
  }

  /** Rows a comment contributes: one per label, at least one. */
  function RowCount(c: ClassifiedComment): nat
  {
    if |c.categories| > 1 then |c.categories| else 1
  }

  /** Total rows the expansion should produce. */
  function TotalRows(cs: seq<ClassifiedComment>): nat
    decreases |cs|
  {
    if cs == [] then 0 else TotalRows(cs[..|cs| - 1]) + RowCount(cs[|cs| - 1])
  }

  /** Each comment yields max(1, |categories|) rows, so the expanded table
      has at least as many rows as there are comments. */
  lemma {:induction false} ExpansionSize(cs: seq<ClassifiedComment>)
    ensures |Expansion(cs)| == TotalRows(cs)
    ensures |Expansion(cs)| >= |cs|
    decreases |cs|
  {
    if cs != [] {
      ExpansionSize(cs[..|cs| - 1]);
    }
  }

  /** Row `row` is one of the rows comment `c` gives rise to. */
  predicate RowOf(row: ExpandedRow, c: ClassifiedComment)
  {
    && row.prId == c.prId
    && row.commentId == c.commentId
    && row.sentiment == c.sentiment
    && row.hasMultipleCategories == (|c.categories| > 1)
    && (if c.categories == [] then row.category == Other else row.category in c.categories)
  }

  /** Every expanded row carries the pr id, comment id and sentiment of a
      comment it came from, one of that comment's labels ("other" for an
      empty list) and the multi-label flag exactly when it has several. */
  lemma {:induction false} ExpansionTraces(cs: seq<ClassifiedComment>)
    ensures forall row :: row in Expansion(cs) ==> exists c :: c in cs && RowOf(row, c)
    decreases |cs|
  {
    if cs != [] {
      var front, last := cs[..|cs| - 1], cs[|cs| - 1];
      ExpansionTraces(front);
      forall row | row in Expansion(cs)
        ensures exists c :: c in cs && RowOf(row, c)
      {
        if row in Expansion(front) {
          var c :| c in front && RowOf(row, c);
          assert c in cs;
        } else {
          assert row in RowsFor(last);
          assert RowOf(row, last);
        }
      }
    }
  }

  /** Every row of one comment carries its pr id, comment id and sentiment. */
  lemma RowsForShareIds(c: ClassifiedComment)
    ensures |RowsFor(c)| == RowCount(c)
    ensures forall k :: 0 <= k < |RowsFor(c)| ==> RowOf(RowsFor(c)[k], c)
  {
  }

  /** `groupby("category").count()`. */
  function CategoryCount(rows: seq<ExpandedRow>, c: Category): (r: nat)
    ensures r <= |rows|
    ensures r == 0 <==> forall i :: 0 <= i < |rows| ==> rows[i].category != c
    decreases |rows|
  {
    if rows == [] then 0
    else CategoryCount(rows[..|rows| - 1], c) + (if rows[|rows| - 1].category == c then 1 else 0)
  }

  /** `groupby(["category", "sentiment"]).size()`. */
  function SentimentCount(rows: seq<ExpandedRow>, c: Category, s: Sentiment): (r: nat)
    ensures r <= |rows|
    ensures r == 0 <==> forall i :: 0 <= i < |rows| ==> rows[i].category != c || rows[i].sentiment != s
    decreases |rows|
  {
    if rows == [] then 0
    else
      var last := rows[|rows| - 1];
      SentimentCount(rows[..|rows| - 1], c, s) + (if last.category == c && last.sentiment == s then 1 else 0)
  }

  /** A category's sentiment counts add up to that category's count. */
  lemma {:induction false} SentimentsPartitionCategory(rows: seq<ExpandedRow>, c: Category)
    ensures SentimentCount(rows, c, Positive) + SentimentCount(rows, c, Negative)
      + SentimentCount(rows, c, Neutral) == CategoryCount(rows, c)
    decreases |rows|
  {
    if rows != [] {
      SentimentsPartitionCategory(rows[..|rows| - 1], c);
    }
  }

  /** The category counts add up to the number of expanded rows. */
  lemma {:induction false} CategoriesPartitionRows(rows: seq<ExpandedRow>)
    ensures CategoryCount(rows, Corrective) + CategoryCount(rows, Style)
      + CategoryCount(rows, Security) + CategoryCount(rows, Testing)
      + CategoryCount(rows, Other) == |rows|
    decreases |rows|
  {
    if rows != [] {
      CategoriesPartitionRows(rows[..|rows| - 1]);
    }
  }

  lemma {:induction false} CategoryCountAppend(a: seq<ExpandedRow>, b: seq<ExpandedRow>, c: Category)
    ensures CategoryCount(a + b, c) == CategoryCount(a, c) + CategoryCount(b, c)
    decreases |b|
  {
    if b == [] {
      assert a + b == a;
    } else {
      assert (a + b)[..|a + b| - 1] == a + b[..|b| - 1];
      assert (a + b)[|a + b| - 1] == b[|b| - 1];
      CategoryCountAppend(a, b[..|b| - 1], c);
    }
  }

  /** The comment carries label `c`; a comment without labels counts as "other". */
  predicate Carries(comment: ClassifiedComment, c: Category)
  {
    if comment.categories == [] then c == Other else c in comment.categories
  }

  /** Number of comments that carry label `c`. */
  function CommentsCarrying(cs: seq<ClassifiedComment>, c: Category): nat
    decreases |cs|
  {
    if cs == [] then 0
    else CommentsCarrying(cs[..|cs| - 1], c) + (if Carries(cs[|cs| - 1], c) then 1 else 0)
  }

  /** Among labels listed without repetition, `c` is counted once if present. */
  lemma {:induction false} LabelRowsCount(comment: ClassifiedComment, n: nat, c: Category)
    requires Ordered(comment.categories)
    requires 0 < n <= |comment.categories|
    ensures CategoryCount(RowsFor(comment)[..n], c) == if c in comment.categories[..n] then 1 else 0
    decreases n
  {
    var rows := RowsFor(comment);
    assert rows[..n][..n - 1] == rows[..n - 1];
    if n > 1 {
      LabelRowsCount(comment, n - 1, c);
      assert comment.categories[..n] == comment.categories[..n - 1] + [comment.categories[n - 1]];
      if comment.categories[n - 1] == c {
        assert c !in comment.categories[..n - 1];
      }
    }
  }

  /** One comment contributes exactly one row to each label it carries. */
  lemma RowsForCount(comment: ClassifiedComment, c: Category)
    requires Ordered(comment.categories)
    ensures CategoryCount(RowsFor(comment), c) == if Carries(comment, c) then 1 else 0
  {
    var rows := RowsFor(comment);
    if comment.categories == [] {
      assert rows[..0] == [];
    } else {
      LabelRowsCount(comment, |comment.categories|, c);
      assert rows[..|rows|] == rows;
      assert comment.categories[..|comment.categories|] == comment.categories;
    }
  }

  /** Because the classifier lists each label at most once, the count of a
      category in the expanded table is the number of comments carrying it. */
  lemma {:induction false} CategoryCountIsCommentCount(cs: seq<ClassifiedComment>, c: Category)
    requires forall i :: 0 <= i < |cs| ==> Ordered(cs[i].categories)
    ensures CategoryCount(Expansion(cs), c) == CommentsCarrying(cs, c)
    decreases |cs|
  {
    if cs != [] {
      var front := cs[..|cs| - 1];
      CategoryCountIsCommentCount(front, c);
      CategoryCountAppend(Expansion(front), RowsFor(cs[|cs| - 1]), c);
      RowsForCount(cs[|cs| - 1], c);
    }
  }

  /** Classified comment tables satisfy the premise of the lemma above. */
  lemma ClassifiedIsOrdered(t: Table, col: string)
    ensures forall i :: 0 <= i < |Classified(t, col)| ==> Ordered(Classified(t, col)[i].categories)
  {
  }

  /** The comment id of one RQ2 row: the PR id when the comment table has no
      `id` column of its own (the join brought the PR's `id` in), the row's
      position in the join when it has one (the join renamed it `id_x`). */
  lemma Rq2RowCommentId(comments: Table, prClean: seq<PullRequest>, row: Row)
    requires "author_type" !in comments.columns
    requires row in Rq2Data(comments, prClean).rows
    ensures "id" !in comments.columns ==> CommentIdOf(Rq2Data(comments, prClean), row) == Get(row, "pr_id")
    ensures "id" in comments.columns ==> CommentIdOf(Rq2Data(comments, prClean), row) == Num(row.index)
    ensures CommentIdOf(Rq2Data(comments, prClean), row).Num?
  {
    var t := Rq2Data(comments, prClean);
    assert "id" in t.columns <==> "id" !in comments.columns;
    var _, _ := Rq2RowSource(comments, prClean, row);
  }

  /** On the RQ2 table the comment id is never missing, so counting
      `comment_id` per category counts every expanded row; without an `id`
      column of its own a comment's "comment id" is its PR id. */
  lemma Rq2CommentIds(comments: Table, prClean: seq<PullRequest>, col: string)
    requires "author_type" !in comments.columns
    ensures forall c :: c in Classified(Rq2Data(comments, prClean), col) ==> c.commentId.Num?
    ensures "id" !in comments.columns ==>
      forall c :: c in Classified(Rq2Data(comments, prClean), col) ==> c.commentId == c.prId
    ensures forall row :: row in Expansion(Classified(Rq2Data(comments, prClean), col)) ==> row.commentId.Num?
  {
    var t := Rq2Data(comments, prClean);
    var cs := Classified(t, col);
    forall c | c in cs
      ensures c.commentId.Num? && ("id" !in comments.columns ==> c.commentId == c.prId)
    {
      var i :| 0 <= i < |cs| && cs[i] == c;
      assert c.commentId == CommentIdOf(t, t.rows[i]) && c.prId == Get(t.rows[i], "pr_id");
      Rq2RowCommentId(comments, prClean, t.rows[i]);
    }
    ExpansionTraces(cs);
  }

  /** Position of a category when the labels are sorted alphabetically,
      the order in which `groupby` lists them. */
  function NameOrder(c: Category): nat
  {
    match c
    case Corrective => 0
    case Other => 1
    case Security => 2
    case Style => 3
    case Testing => 4
  }

  /** One row of `category_stats`: the category, its `comment_id` count,
      and its `sentiment_distribution`. */
  datatype CategoryStat = CategoryStat(category: Category, count: nat, sentiments: map<Sentiment, nat>)

  /** `x.value_counts().to_dict()` over the sentiments of a category's rows:
      one entry per sentiment that occurs, with its number of rows. */
  function Distribution(rows: seq<ExpandedRow>, c: Category): (d: map<Sentiment, nat>)
    ensures forall s :: s in d <==> SentimentCount(rows, c, s) > 0
    ensures forall s :: s in d ==> d[s] == SentimentCount(rows, c, s)
  {
    map s | s in {Positive, Negative, Neutral} && SentimentCount(rows, c, s) > 0 :: SentimentCount(rows, c, s)
  }

  /** The sum of the values of a sentiment distribution. */
  function DistributionTotal(d: map<Sentiment, nat>): nat
  {
    (if Positive in d then d[Positive] else 0) + (if Negative in d then d[Negative] else 0)
      + (if Neutral in d then d[Neutral] else 0)
  }

  /** A category's sentiment distribution accounts for each of its rows once. */
  lemma DistributionSumsToCount(rows: seq<ExpandedRow>, c: Category)
    ensures DistributionTotal(Distribution(rows, c)) == CategoryCount(rows, c)
  {
    SentimentsPartitionCategory(rows, c);
  }

  /** `NameOrder` is the alphabetical order of the labels the pipeline writes. */
  lemma NameOrderIsAlphabetical(a: Category, b: Category)
    ensures NameOrder(a) < NameOrder(b) <==> LexLess(CategoryName(a), CategoryName(b))
  {
    match (a, b)
    case (Corrective, Corrective) =>
      LexLessIrreflexive("corrective");
    case (Corrective, Other) =>
      assert LexLess("corrective", "other");
    case (Corrective, Security) =>
      assert LexLess("corrective", "security");
    case (Corrective, Style) =>
      assert LexLess("corrective", "style");
    case (Corrective, Testing) =>
      assert LexLess("corrective", "testing");
    case (Other, Corrective) =>
      assert !LexLess("other", "corrective");
    case (Other, Other) =>
      LexLessIrreflexive("other");
    case (Other, Security) =>
      assert LexLess("other", "security");
    case (Other, Style) =>
      assert LexLess("other", "style");
    case (Other, Testing) =>
      assert LexLess("other", "testing");
    case (Security, Corrective) =>
      assert !LexLess("security", "corrective");
    case (Security, Other) =>
      assert !LexLess("security", "other");
    case (Security, Security) =>
      LexLessIrreflexive("security");
    case (Security, Style) =>
      assert LexLess("security", "style") by { assert LexLess("ecurity", "tyle"); }
    case (Security, Testing) =>
      assert LexLess("security", "testing");
    case (Style, Corrective) =>
      assert !LexLess("style", "corrective");
    case (Style, Other) =>
      assert !LexLess("style", "other");
    case (Style, Security) =>
      assert !LexLess("style", "security") by { assert !LexLess("tyle", "ecurity"); }
    case (Style, Style) =>
      LexLessIrreflexive("style");
    case (Style, Testing) =>
      assert LexLess("style", "testing");
    case (Testing, Corrective) =>
      assert !LexLess("testing", "corrective");
    case (Testing, Other) =>
      assert !LexLess("testing", "other");
    case (Testing, Security) =>
      assert !LexLess("testing", "security");
    case (Testing, Style) =>
      assert !LexLess("testing", "style");
    case (Testing, Testing) =>
      LexLessIrreflexive("testing");
  }

  /** The `category_stats` entry of one category: present only when it has rows. */
  function StatsEntry(rows: seq<ExpandedRow>, c: Category): (r: seq<CategoryStat>)
    ensures r == [] || r == [CategoryStat(c, CategoryCount(rows, c), Distribution(rows, c))]
    ensures r != [] <==> CategoryCount(rows, c) > 0
  {
    var n := CategoryCount(rows, c);
    if n > 0 then [CategoryStat(c, n, Distribution(rows, c))] else []
  }

  /** The `category_stats` entries: one entry per category that has rows,
      in label order, with its count and sentiment distribution. */
  function StatsEntries(rows: seq<ExpandedRow>): (r: seq<CategoryStat>)
    ensures forall i, j :: 0 <= i < j < |r| ==> NameOrder(r[i].category) < NameOrder(r[j].category)
  {
    StatsEntry(rows, Corrective) + StatsEntry(rows, Other) + StatsEntry(rows, Security)
      + StatsEntry(rows, Style) + StatsEntry(rows, Testing)
  }

  /** Every entry carries its category's row count and sentiment distribution. */
  lemma StatsEntriesFacts(rows: seq<ExpandedRow>)
    ensures forall e :: e in StatsEntries(rows) ==> e.count == CategoryCount(rows, e.category) > 0
    ensures forall e :: e in StatsEntries(rows) ==> e.sentiments == Distribution(rows, e.category)
  {
    var e0, e1, e2 := StatsEntry(rows, Corrective), StatsEntry(rows, Other), StatsEntry(rows, Security);
    var e3, e4 := StatsEntry(rows, Style), StatsEntry(rows, Testing);
    assert StatsEntries(rows) == e0 + e1 + e2 + e3 + e4;
    forall e | e in StatsEntries(rows)
      ensures e.count == CategoryCount(rows, e.category) > 0 && e.sentiments == Distribution(rows, e.category)
    {
      assert e in e0 || e in e1 || e in e2 || e in e3 || e in e4;
    }
  }

  /** `category_stats`. An empty expansion builds a frame without a
      `category` column, and `groupby("category")` on it raises KeyError:
      that failure is `None`. */
  function CategoryStats(rows: seq<ExpandedRow>): (r: Option<seq<CategoryStat>>)
    ensures r.None? <==> rows == []
    ensures r.Some? ==> forall e :: e in r.value ==> e.count == CategoryCount(rows, e.category) > 0
    ensures r.Some? ==> forall e :: e in r.value ==> e.sentiments == Distribution(rows, e.category)
    ensures r.Some? ==> forall i, j :: 0 <= i < j < |r.value| ==>
      NameOrder(r.value[i].category) < NameOrder(r.value[j].category)
  {
    if rows == [] then None
    else
      StatsEntriesFacts(rows);
      Some(StatsEntries(rows))
  }

  /** Every category with rows has its entry in `category_stats`. */
  lemma CategoryStatsCovers(rows: seq<ExpandedRow>, c: Category)
    requires rows != []
    ensures CategoryStats(rows).Some?
    ensures CategoryCount(rows, c) > 0 <==>
      exists i :: 0 <= i < |CategoryStats(rows).value| && CategoryStats(rows).value[i].category == c
  {
    var r := StatsEntries(rows);
    if CategoryCount(rows, c) > 0 {
      var e := CategoryStat(c, CategoryCount(rows, c), Distribution(rows, c));
      assert StatsEntry(rows, c) == [e];
      assert e in r;
    }
  }

  /** Sum of the counts of a list of entries. */
  function SumCounts(entries: seq<CategoryStat>): nat
  {
    if entries == [] then 0 else entries[0].count + SumCounts(entries[1..])
  }

  lemma {:induction false} SumCountsAppend(a: seq<CategoryStat>, b: seq<CategoryStat>)
    ensures SumCounts(a + b) == SumCounts(a) + SumCounts(b)
    decreases |a|
  {
    if a == [] {
      assert a + b == b;
    } else {
      assert (a + b)[1..] == a[1..] + b;
      SumCountsAppend(a[1..], b);
    }
  }

  /** The counts in `category_stats` add up to the number of expanded rows. */
  lemma CategoryStatsTotal(rows: seq<ExpandedRow>)
    requires rows != []
    ensures CategoryStats(rows).Some? && SumCounts(CategoryStats(rows).value) == |rows|
  {
    EntriesTotal(rows);
  }

  lemma EntriesTotal(rows: seq<ExpandedRow>)
    ensures SumCounts(StatsEntries(rows)) == |rows|
  {
    var e0, e1, e2 := StatsEntry(rows, Corrective), StatsEntry(rows, Other), StatsEntry(rows, Security);
    var e3, e4 := StatsEntry(rows, Style), StatsEntry(rows, Testing);
    var s1 := e0 + e1;
    var s2 := s1 + e2;
    var s3 := s2 + e3;
    assert StatsEntries(rows) == s3 + e4;
    SumCountsAppend(e0, e1);
    SumCountsAppend(s1, e2);
    SumCountsAppend(s2, e3);
    SumCountsAppend(s3, e4);
    CategoriesPartitionRows(rows);
  }

  /** The per-category statistics of the RQ2 comments fail exactly when
      there is no comment: every comment yields at least one expanded row. */
  lemma StatsFailOnlyWithoutComments(t: Table, col: string)
    ensures CategoryStats(Expansion(Classified(t, col))).None? <==> t.rows == []
  {
    var cs := Classified(t, col);
    ExpansionSize(cs);
    if cs == [] {
      assert Expansion(cs) == [];
    }
  }

  /** A comment table with a "body" column keeps it through the join, so the
      RQ2 text is read from "body". */
  lemma Rq2TextColumn(comments: Table, prClean: seq<PullRequest>)
    requires "author_type" !in comments.columns
    requires "body" in comments.columns
    ensures CommentColumn(Rq2Data(comments, prClean).columns) == Some("body")
  {
  }
}
