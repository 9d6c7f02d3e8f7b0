/** Keyword-driven classification of one review comment (RQ2): a multi-label
    category list and a three-way sentiment, both by case-insensitive
    substring search over fixed keyword lists; and the rule that picks which
    column of the comment table holds the text. */
module CommentClassifier {
  import opened Text
  import opened Frames

  datatype Category = Corrective | Style | Security | Testing | Other

  datatype Sentiment = Positive | Negative | Neutral

  /** The label the pipeline writes for a category. */
  function CategoryName(c: Category): string
  {
    match c
    case Corrective => "corrective"
    case Style => "style"
    case Security => "security"
    case Testing => "testing"
    case Other => "other"
  }

  const CorrectiveKeywords: seq<string> := [
    "bug", "error", "fix", "wrong", "incorrect", "mistake", "issue", "problem",
    "broken", "fails", "exception", "crash", "null", "undefined"]

  const StyleKeywords: seq<string> := [
    "style", "format", "indent", "spacing", "naming", "convention", "lint",
    "pep8", "pylint", "formatting", "whitespace", "semicolon", "brace"]

  const SecurityKeywords: seq<string> := [
    "security", "vulnerability", "xss", "sql injection", "csrf", "auth",
    "authentication", "authorization", "password", "token", "secret", "key",
    "encrypt", "hash", "sanitize", "escape", "injection"]

  const TestingKeywords: seq<string> := [
    "test", "testing", "coverage", "unit test", "integration", "mock",
    "assert", "should test", "missing test", "test case", "scenario"]

  const PositiveWords: seq<string> := [
    "good", "great", "nice", "excellent", "perfect", "thanks", "thank you",
    "approved", "looks good", "well done", "lgtm"]

  const NegativeWords: seq<string> := [
    "bad", "wrong", "incorrect", "should not", "don't", "cannot", "error",
    "issue", "problem", "concern", "worried", "disappointed"]

  /** The keyword list behind each topical category; "other" has none. */
  function KeywordsOf(c: Category): seq<string>
  {
    match c
    case Corrective => CorrectiveKeywords
    case Style => StyleKeywords
    case Security => SecurityKeywords
    case Testing => TestingKeywords
    case Other => []
  }

  /** Position of a category in the order the classifier tests them. */
  function Rank(c: Category): nat
  {
    match c
    case Corrective => 0
    case Style => 1
    case Security => 2
    case Testing => 3
    case Other => 4
  }

  /** Some keyword of `c` occurs in the (already lower-cased) text. */
  predicate Matches(c: Category, lowered: string)
  {
    ContainsAny(lowered, KeywordsOf(c))
  }

  /** Some keyword of one of the four topical lists occurs in the text. */
  predicate AnyTopicalMatch(lowered: string)
  {
    Matches(Corrective, lowered) || Matches(Style, lowered)
    || Matches(Security, lowered) || Matches(Testing, lowered)
  }

  /** Labels appear at most once, in the classifier's fixed order. */
  predicate Ordered(labels: seq<Category>)
  {
    forall i, j :: 0 <= i < j < |labels| ==> Rank(labels[i]) < Rank(labels[j])
  }

  /** The label list for the four keyword verdicts, in the fixed order,
      with "other" standing alone when no verdict holds. */
  function Labels(corrective: bool, style: bool, security: bool, testing: bool): (r: seq<Category>)
    ensures r != []
    ensures Corrective in r <==> corrective
    ensures Style in r <==> style
    ensures Security in r <==> security
    ensures Testing in r <==> testing
    ensures Other in r <==> !(corrective || style || security || testing)
    ensures Other in r ==> r == [Other]
    ensures Ordered(r)
  {
    var found :=
      (if corrective then [Corrective] else [])
      + (if style then [Style] else [])
      + (if security then [Security] else [])
      + (if testing then [Testing] else []);
    if found == [] then [Other] else found
  }

  /** `categorize_comment`: the labels whose keyword list hits the
      lower-cased text, in the fixed order; "other" alone when none hits;
      the empty list for a missing text. */
  function Categorize(text: Option<string>): (r: seq<Category>)
    ensures text.None? ==> r == []
    ensures text.Some? ==> r != []
    ensures text.Some? ==> (Corrective in r <==> Matches(Corrective, Lower(text.value)))
    ensures text.Some? ==> (Style in r <==> Matches(Style, Lower(text.value)))
    ensures text.Some? ==> (Security in r <==> Matches(Security, Lower(text.value)))
    ensures text.Some? ==> (Testing in r <==> Matches(Testing, Lower(text.value)))
    ensures text.Some? ==> (Other in r <==> !AnyTopicalMatch(Lower(text.value)))
    ensures Other in r ==> r == [Other]
    ensures Ordered(r)
  {
    match text
    case None => []
    case Some(t) =>
      var lowered := Lower(t);
      Labels(Matches(Corrective, lowered), Matches(Style, lowered),
             Matches(Security, lowered), Matches(Testing, lowered))
  }

  /** Number of distinct positive phrases in the text. */
  function PositiveCount(t: string): (r: nat)
    ensures r <= 11
  {
    CountContained(Lower(t), PositiveWords)
  }

  /** Number of distinct negative phrases in the text. */
  function NegativeCount(t: string): (r: nat)
    ensures r <= 12
  {
    CountContained(Lower(t), NegativeWords)
  }

  /** `analyze_sentiment`: the side with strictly more distinct phrases wins;
      any tie (0-0 included) and a missing text are neutral. */
  function AnalyzeSentiment(text: Option<string>): (r: Sentiment)
    ensures text.None? ==> r == Neutral
    ensures text.Some? ==> (r == Positive <==> PositiveCount(text.value) > NegativeCount(text.value))
    ensures text.Some? ==> (r == Negative <==> NegativeCount(text.value) > PositiveCount(text.value))
    ensures text.Some? ==> (r == Neutral <==> PositiveCount(text.value) == NegativeCount(text.value))
  {
    match text
    case None => Neutral
    case Some(t) =>
      var pos := PositiveCount(t);
      var neg := NegativeCount(t);
      if pos > neg then Positive
      else if neg > pos then Negative
      else Neutral
  }

  /** A text with no sentiment phrase at all is neutral. */
  lemma NoPhraseIsNeutral(t: string)
    requires forall i :: 0 <= i < |PositiveWords| ==> !Contains(Lower(t), PositiveWords[i])
    requires forall i :: 0 <= i < |NegativeWords| ==> !Contains(Lower(t), NegativeWords[i])
    ensures AnalyzeSentiment(Some(t)) == Neutral
  {
    assert PositiveCount(t) == 0;
    assert NegativeCount(t) == 0;
  }

  /** Overlapping phrases each count: a text containing "looks good" also
      contains "good", so it scores at least two positive phrases. */
  lemma LooksGoodCountsTwice(t: string)
    requires Contains(Lower(t), "looks good")
    ensures PositiveCount(t) >= 2
  {
    var lowered := Lower(t);
    assert OccursAt("looks good", "good", 6);
    ContainsIffOccurs("looks good", "good");
    ContainsTransitive(lowered, "looks good", "good");
    assert PositiveWords[0] == "good" && PositiveWords[8] == "looks good";
    CountIsMatchedPositions(lowered, PositiveWords);
    var both: set<nat> := {0, 8};
    assert both <= Matched(lowered, PositiveWords);
    assert |both| == 2;
    SubsetCardinality(both, Matched(lowered, PositiveWords));
  }

  lemma SubsetCardinality(a: set<nat>, b: set<nat>)
    requires a <= b
    ensures |a| <= |b|
  {
    assert b == a + (b - a);
  }

  /** `"comment|text|content"` searched case-insensitively in a column name. */
  predicate LooksLikeText(column: string)
  {
    var l := Lower(column);
    Contains(l, "comment") || Contains(l, "text") || Contains(l, "content")
  }

  /** Index of the first column whose name looks like a text column. */
  function FirstTextLike(columns: seq<string>): (r: Option<nat>)
    ensures r.Some? ==> r.value < |columns| && LooksLikeText(columns[r.value])
    ensures r.Some? ==> forall j :: 0 <= j < r.value ==> !LooksLikeText(columns[j])
    ensures r.None? ==> forall j :: 0 <= j < |columns| ==> !LooksLikeText(columns[j])
    decreases |columns|
  {
    if columns == [] then None
    else if LooksLikeText(columns[0]) then Some(0)
    else match FirstTextLike(columns[1..])
      case None => None
      case Some(k) => Some(k + 1)
  }

  /** The column whose values are classified: "body" when present, else the
      first text-like column, else (after a warning) the first column; there
      is none only for a table without columns, where the source fails. */
  function CommentColumn(columns: seq<string>): (r: Option<string>)
    ensures r.None? <==> |columns| == 0
    ensures "body" in columns ==> r == Some("body")
    ensures r.Some? && r.value != "body" ==> "body" !in columns
    ensures "body" !in columns && r.Some? ==>
      exists i :: 0 <= i < |columns| && r.value == columns[i]
        && (forall j :: 0 <= j < i ==> !LooksLikeText(columns[j]))
        && (LooksLikeText(columns[i]) || (i == 0 && forall j :: 0 <= j < |columns| ==> !LooksLikeText(columns[j])))
  {
    if "body" in columns then Some("body")
    else match FirstTextLike(columns)
      case Some(i) => Some(columns[i])
      case None => if |columns| > 0 then Some(columns[0]) else None
  }
}
