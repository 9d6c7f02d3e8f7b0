/** The preprocessing step: which login and PR-link columns to read, the
    per-PR reviewer type folded from reviews and then comments (a bot login
    wins and sticks, other evidence only fills absent entries, no evidence
    means "none"), and the row selections that build the per-question
    datasets. */
module Preprocess {
  import opened Text
  import opened Frames

  datatype ReviewerType = Bot | Human | NoReviewer

  const BotKeywords: seq<string> := ["copilot", "cursor", "codex", "claude", "devin"]

  const ReviewLoginCandidates: seq<string> :=
    ["author_login", "user_login", "login", "reviewer_login", "actor_login"]

  const CommentLoginCandidates: seq<string> :=
    ["author_login", "user_login", "login", "commenter_login", "actor_login", "user"]

  /** A login naming a bot: some bot keyword occurs in it, ignoring case. */
  predicate IsBotLogin(login: string)
  {
    ContainsAny(Lower(login), BotKeywords)
  }

  /** None of the first `k` candidates is a column. */
  predicate FirstK(candidates: seq<string>, columns: seq<string>, k: int)
  {
    forall j :: 0 <= j < k && j < |candidates| ==> candidates[j] !in columns
  }

  /** `c` is candidate `k` and no earlier candidate is a column. */
  predicate FirstKAt(candidates: seq<string>, columns: seq<string>, k: int, c: string)
  {
    0 <= k < |candidates| && candidates[k] == c && FirstK(candidates, columns, k)
  }

  /** The first candidate, in list order, that is a column. */
  function FirstPresent(candidates: seq<string>, columns: seq<string>): (r: Option<string>)
    ensures r.Some? ==> r.value in columns
    ensures r.Some? ==> exists k :: FirstKAt(candidates, columns, k, r.value)
    ensures r.None? <==> forall j :: 0 <= j < |candidates| ==> candidates[j] !in columns
    decreases |candidates|
  {
    if candidates == [] then None
    else if candidates[0] in columns then
      assert FirstKAt(candidates, columns, 0, candidates[0]);
      Some(candidates[0])
    else
      var r := FirstPresent(candidates[1..], columns);
      if r.None? then r
      else
        var k :| FirstKAt(candidates[1..], columns, k, r.value);
        assert forall j :: 1 <= j < |candidates| ==> candidates[j] == candidates[1..][j - 1];
        assert FirstKAt(candidates, columns, k + 1, r.value);
        r
  }

  /** `_pick_login_col`: scans the candidates in order and returns the first
      one that is a column of the table, or nothing. */
  method PickLoginCol(columns: seq<string>, candidates: seq<string>) returns (r: Option<string>)
    ensures r == FirstPresent(candidates, columns)
    ensures r.Some? ==> r.value in columns && r.value in candidates
    ensures r.None? <==> forall j :: 0 <= j < |candidates| ==> candidates[j] !in columns
  {
    var i := 0;
    while i < |candidates|
      invariant 0 <= i <= |candidates|
      invariant forall j :: 0 <= j < i ==> candidates[j] !in columns
      invariant FirstPresent(candidates[i..], columns) == FirstPresent(candidates, columns)
    {
      if candidates[i] in columns {
        return Some(candidates[i]);
      }
      assert candidates[i..][1..] == candidates[i + 1..];
      i := i + 1;
    }
    return None;
  }

  /** The column that links a row to its pull request. */
  function PrIdColumn(columns: seq<string>): (r: Option<string>)
    ensures "pr_id" in columns ==> r == Some("pr_id")
    ensures "pr_id" !in columns && "pull_request_id" in columns ==> r == Some("pull_request_id")
    ensures r.None? <==> "pr_id" !in columns && "pull_request_id" !in columns
  {
    if "pr_id" in columns then Some("pr_id")
    else if "pull_request_id" in columns then Some("pull_request_id")
    else None
  }

  /** The logins `groupby(pr).apply(list)` collects for one PR. */
  datatype Group = Group(key: Cell, logins: seq<string>)

  /** Distinct non-missing values of column `prCol`, in first-appearance order. */
  function Keys(rows: seq<Row>, prCol: string): (r: seq<Cell>)
    ensures forall k :: k in r <==> k != Null && exists i :: 0 <= i < |rows| && Get(rows[i], prCol) == k
    ensures forall i, j :: 0 <= i < j < |r| ==> r[i] != r[j]
    decreases |rows|
  {
    if rows == [] then []
    else
      var front := rows[..|rows| - 1];
      assert forall i :: 0 <= i < |front| ==> front[i] == rows[i];
      var ks := Keys(front, prCol);
      var k := Get(rows[|rows| - 1], prCol);
      if k == Null || k in ks then ks else ks + [k]
  }

  /** Logins (missing ones read as "") of the rows whose PR column is `key`, in row order. */
  function LoginsFor(rows: seq<Row>, prCol: string, loginCol: string, key: Cell): seq<string>
    decreases |rows|
  {
    if rows == [] then []
    else
      var last := rows[|rows| - 1];
      LoginsFor(rows[..|rows| - 1], prCol, loginCol, key)
        + (if Get(last, prCol) == key then [FilledText(Get(last, loginCol))] else [])
  }

  /** A PR that has a row has at least one login in its group. */
  lemma {:induction false} LoginsForNonEmpty(rows: seq<Row>, prCol: string, loginCol: string, key: Cell, j: int)
    requires 0 <= j < |rows| && Get(rows[j], prCol) == key
    ensures |LoginsFor(rows, prCol, loginCol, key)| > 0
    decreases |rows|
  {
    if j < |rows| - 1 {
      LoginsForNonEmpty(rows[..|rows| - 1], prCol, loginCol, key, j);
    }
  }

  /** `groupby(prCol)[loginCol].apply(list)` after `fillna("")`: one group per
      PR that has rows; rows whose PR cell is missing are dropped. */
  function Grouped(t: Table, prCol: string, loginCol: string): (r: seq<Group>)
    ensures forall i :: 0 <= i < |r| ==> r[i].key != Null
    ensures forall i, j :: 0 <= i < j < |r| ==> r[i].key != r[j].key
    ensures forall i :: 0 <= i < |r| ==> |r[i].logins| > 0
  {
    var ks := Keys(t.rows, prCol);
    assert forall i :: 0 <= i < |ks| ==> ks[i] in ks;
    forall k | k in ks
      ensures |LoginsFor(t.rows, prCol, loginCol, k)| > 0
    {
      var j :| 0 <= j < |t.rows| && Get(t.rows[j], prCol) == k;
      LoginsForNonEmpty(t.rows, prCol, loginCol, k, j);
    }
    seq(|ks|, i requires 0 <= i < |ks| => Group(ks[i], LoginsFor(t.rows, prCol, loginCol, ks[i])))
  }

  /** `any(any(k in l.lower() for k in BOT_KEYWORDS) for l in logins)`. */
  predicate AnyBot(logins: seq<string>)
  {
    exists i :: 0 <= i < |logins| && IsBotLogin(logins[i])
  }

  /** One loop iteration: "bot" is written unconditionally, "human" only
      through `setdefault`. */
  function Step(types: map<Cell, ReviewerType>, g: Group): map<Cell, ReviewerType>
  {
    if AnyBot(g.logins) then types[g.key := Bot]
    else if g.key in types then types
    else types[g.key := Human]
  }

  /** The map after one pass over `groups`, in order. */
  function Pass(types: map<Cell, ReviewerType>, groups: seq<Group>): map<Cell, ReviewerType>
    decreases |groups|
  {
    if groups == [] then types
    else Step(Pass(types, groups[..|groups| - 1]), groups[|groups| - 1])
  }

  /** Some group of the pass is about `key`. */
  predicate InGroups(groups: seq<Group>, key: Cell)
  {
    exists i :: 0 <= i < |groups| && groups[i].key == key
  }

  /** Some group of the pass about `key` holds a bot login. */
  predicate BotInGroups(groups: seq<Group>, key: Cell)
  {
    exists i :: 0 <= i < |groups| && groups[i].key == key && AnyBot(groups[i].logins)
  }

  /** What one pass does to one PR: it gains an entry iff a group is about
      it; the entry is "bot" iff it was "bot" before or a group about it has
      a bot login (so "bot" is never overwritten); otherwise an entry it had
      is kept and a new one is "human". */
  lemma {:induction false} PassAt(types: map<Cell, ReviewerType>, groups: seq<Group>, key: Cell)
    ensures key in Pass(types, groups) <==> key in types || InGroups(groups, key)
    ensures key in Pass(types, groups) ==>
      (Pass(types, groups)[key] == Bot <==> (key in types && types[key] == Bot) || BotInGroups(groups, key))
    ensures key in Pass(types, groups) && !BotInGroups(groups, key) ==>
      Pass(types, groups)[key] == if key in types then types[key] else Human
    decreases |groups|
  {
    if groups != [] {
      var front, g := groups[..|groups| - 1], groups[|groups| - 1];
      PassAt(types, front, key);
      assert InGroups(groups, key) <==> InGroups(front, key) || g.key == key by {
        if InGroups(groups, key) {
          var i :| 0 <= i < |groups| && groups[i].key == key;
          if i < |front| { assert front[i] == groups[i]; }
        }
        if InGroups(front, key) {
          var i :| 0 <= i < |front| && front[i].key == key;
          assert groups[i] == front[i];
        }
      }
      assert BotInGroups(groups, key) <==> BotInGroups(front, key) || (g.key == key && AnyBot(g.logins)) by {
        if BotInGroups(groups, key) {
          var i :| 0 <= i < |groups| && groups[i].key == key && AnyBot(groups[i].logins);
          if i < |front| { assert front[i] == groups[i]; }
        }
        if BotInGroups(front, key) {
          var i :| 0 <= i < |front| && front[i].key == key && AnyBot(front[i].logins);
          assert groups[i] == front[i];
        }
      }
    }
  }

  /** The loop over one grouped source: applies `Step` to each group in turn. */
  method FoldPass(types: map<Cell, ReviewerType>, groups: seq<Group>) returns (out: map<Cell, ReviewerType>)
    ensures out == Pass(types, groups)
    ensures forall k :: k in types && types[k] == Bot ==> k in out && out[k] == Bot
  {
    out := types;
    var i := 0;
    while i < |groups|
      invariant 0 <= i <= |groups|
      invariant out == Pass(types, groups[..i])
    {
      var g := groups[i];
      if AnyBot(g.logins) {
        out := out[g.key := Bot];
      } else if g.key !in out {
        out := out[g.key := Human];
      }
      assert groups[..i + 1][..i] == groups[..i];
      i := i + 1;
    }
    assert groups[..i] == groups;
    forall k | k in types && types[k] == Bot
      ensures k in out && out[k] == Bot
    {
      PassAt(types, groups, k);
    }
  }

  /** `map_reviewer_type`: a PR without an entry is "none". */
  function Lookup(types: map<Cell, ReviewerType>, key: Cell): (r: ReviewerType)
    ensures key in types ==> r == types[key]
    ensures key !in types ==> r == NoReviewer
  {
    if key in types then types[key] else NoReviewer
  }

  /** The label the two passes should give, stated on the groups alone. */
  function GroupLabel(reviews: seq<Group>, comments: seq<Group>, key: Cell): ReviewerType
  {
    if BotInGroups(reviews, key) || BotInGroups(comments, key) then Bot
    else if InGroups(reviews, key) || InGroups(comments, key) then Human
    else NoReviewer
  }

  /** Reviews then comments, starting from the empty map, give `GroupLabel`. */
  lemma TwoPassLabel(reviews: seq<Group>, comments: seq<Group>, key: Cell)
    ensures Lookup(Pass(Pass(map[], reviews), comments), key) == GroupLabel(reviews, comments, key)
  {
    PassAt(map[], reviews, key);
    PassAt(Pass(map[], reviews), comments, key);
  }

  /** A pass depends only on which groups it folds, not on their order:
      pandas sorts the group keys, the model takes them in first-appearance
      order, and both give the same map. */
  lemma GroupOrderIrrelevant(types: map<Cell, ReviewerType>, groups: seq<Group>, reordered: seq<Group>)
    requires forall g :: g in groups <==> g in reordered
    ensures Pass(types, groups) == Pass(types, reordered)
  {
    var a, b := Pass(types, groups), Pass(types, reordered);
    forall k
      ensures (k in a <==> k in b) && (k in a ==> a[k] == b[k])
    {
      PassAt(types, groups, k);
      PassAt(types, reordered, k);
      SameGroupsAt(groups, reordered, k);
      SameGroupsAt(reordered, groups, k);
    }
  }

  lemma SameGroupsAt(groups: seq<Group>, reordered: seq<Group>, key: Cell)
    requires forall g :: g in groups ==> g in reordered
    ensures InGroups(groups, key) ==> InGroups(reordered, key)
    ensures BotInGroups(groups, key) ==> BotInGroups(reordered, key)
  {
    if InGroups(groups, key) {
      var i :| 0 <= i < |groups| && groups[i].key == key;
      assert groups[i] in reordered;
    }
    if BotInGroups(groups, key) {
      var i :| 0 <= i < |groups| && groups[i].key == key && AnyBot(groups[i].logins);
      assert groups[i] in reordered;
    }
  }

  /** The final map does not depend on which source is folded first. */
  lemma PassOrderIrrelevant(reviews: seq<Group>, comments: seq<Group>)
    ensures Pass(Pass(map[], reviews), comments) == Pass(Pass(map[], comments), reviews)
  {
    var a := Pass(Pass(map[], reviews), comments);
    var b := Pass(Pass(map[], comments), reviews);
    forall k
      ensures (k in a <==> k in b) && (k in a ==> a[k] == b[k])
    {
      PassAt(map[], reviews, k);
      PassAt(Pass(map[], reviews), comments, k);
      PassAt(map[], comments, k);
      PassAt(Pass(map[], comments), reviews, k);
    }
  }

  /** Row `row` names PR `key` and its login names a bot. */
  predicate BotRow(row: Row, prCol: string, loginCol: string, key: Cell)
  {
    Get(row, prCol) == key && IsBotLogin(FilledText(Get(row, loginCol)))
  }

  lemma AnyBotAppend(a: seq<string>, b: seq<string>)
    ensures AnyBot(a + b) <==> AnyBot(a) || AnyBot(b)
  {
    if AnyBot(a + b) {
      var i :| 0 <= i < |a + b| && IsBotLogin((a + b)[i]);
      if i >= |a| { assert b[i - |a|] == (a + b)[i]; }
    }
    if AnyBot(a) {
      var i :| 0 <= i < |a| && IsBotLogin(a[i]);
      assert (a + b)[i] == a[i];
    }
    if AnyBot(b) {
      var i :| 0 <= i < |b| && IsBotLogin(b[i]);
      assert (a + b)[|a| + i] == b[i];
    }
  }

  /** Some row names PR `key` with a bot login. */
  predicate SomeBotRow(rows: seq<Row>, prCol: string, loginCol: string, key: Cell)
  {
    exists i :: 0 <= i < |rows| && BotRow(rows[i], prCol, loginCol, key)
  }

  lemma SomeBotRowSplit(rows: seq<Row>, prCol: string, loginCol: string, key: Cell)
    requires rows != []
    ensures SomeBotRow(rows, prCol, loginCol, key) <==>
      SomeBotRow(rows[..|rows| - 1], prCol, loginCol, key) || BotRow(rows[|rows| - 1], prCol, loginCol, key)
  {
    var front := rows[..|rows| - 1];
    if SomeBotRow(rows, prCol, loginCol, key) {
      var i :| 0 <= i < |rows| && BotRow(rows[i], prCol, loginCol, key);
      if i < |front| { assert front[i] == rows[i]; }
    }
    if SomeBotRow(front, prCol, loginCol, key) {
      var i :| 0 <= i < |front| && BotRow(front[i], prCol, loginCol, key);
      assert rows[i] == front[i];
    }
  }

  /** The logins collected for a PR hold a bot login iff one of its rows does. */
  lemma {:induction false} LoginsForBot(rows: seq<Row>, prCol: string, loginCol: string, key: Cell)
    ensures AnyBot(LoginsFor(rows, prCol, loginCol, key)) <==> SomeBotRow(rows, prCol, loginCol, key)
    decreases |rows|
  {
    if rows != [] {
      var front, last := rows[..|rows| - 1], rows[|rows| - 1];
      LoginsForBot(front, prCol, loginCol, key);
      var extra := if Get(last, prCol) == key then [FilledText(Get(last, loginCol))] else [];
      assert LoginsFor(rows, prCol, loginCol, key) == LoginsFor(front, prCol, loginCol, key) + extra;
      AnyBotAppend(LoginsFor(front, prCol, loginCol, key), extra);
      assert AnyBot(extra) <==> BotRow(last, prCol, loginCol, key) by {
        if extra != [] { assert extra[0] == FilledText(Get(last, loginCol)); }
      }
      SomeBotRowSplit(rows, prCol, loginCol, key);
    }
  }

  /** Grouping keeps exactly the information the fold needs: a PR has a group
      iff some row names it, and its group holds a bot login iff some row
      naming it does. */
  lemma GroupedFacts(t: Table, prCol: string, loginCol: string, key: Cell)
    ensures InGroups(Grouped(t, prCol, loginCol), key) <==>
      key != Null && exists i :: 0 <= i < |t.rows| && Get(t.rows[i], prCol) == key
    ensures BotInGroups(Grouped(t, prCol, loginCol), key) <==>
      key != Null && SomeBotRow(t.rows, prCol, loginCol, key)
  {
    var gs := Grouped(t, prCol, loginCol);
    var ks := Keys(t.rows, prCol);
    LoginsForBot(t.rows, prCol, loginCol, key);
    if InGroups(gs, key) {
      var i :| 0 <= i < |gs| && gs[i].key == key;
      assert ks[i] == key;
    }
    if key in ks {
      var i :| 0 <= i < |ks| && ks[i] == key;
      assert gs[i].key == key;
    }
    if BotInGroups(gs, key) {
      var i :| 0 <= i < |gs| && gs[i].key == key && AnyBot(gs[i].logins);
      assert gs[i].logins == LoginsFor(t.rows, prCol, loginCol, key);
    }
  }

  /** The grouped source a pass reads, or nothing when the table lacks a
      PR-link column or a login column. */
  function PassGroups(t: Table, candidates: seq<string>): seq<Group>
  {
    match (PrIdColumn(t.columns), FirstPresent(candidates, t.columns))
    case (Some(prCol), Some(loginCol)) => Grouped(t, prCol, loginCol)
    case _ => []
  }

  /** Some row of a readable table names PR `key`. */
  predicate Seen(t: Table, candidates: seq<string>, key: Cell)
  {
    match (PrIdColumn(t.columns), FirstPresent(candidates, t.columns))
    case (Some(prCol), Some(_)) =>
      key != Null && exists i :: 0 <= i < |t.rows| && Get(t.rows[i], prCol) == key
    case _ => false
  }

  /** Some row of a readable table names PR `key` with a bot login. */
  predicate BotSeen(t: Table, candidates: seq<string>, key: Cell)
  {
    match (PrIdColumn(t.columns), FirstPresent(candidates, t.columns))
    case (Some(prCol), Some(loginCol)) =>
      key != Null && SomeBotRow(t.rows, prCol, loginCol, key)
    case _ => false
  }

  /** The reviewer type of a PR, stated directly on the two raw tables. */
  function ReviewerLabel(reviews: Table, comments: Table, key: Cell): ReviewerType
  {
    if BotSeen(reviews, ReviewLoginCandidates, key) || BotSeen(comments, CommentLoginCandidates, key) then Bot
    else if Seen(reviews, ReviewLoginCandidates, key) || Seen(comments, CommentLoginCandidates, key) then Human
    else NoReviewer
  }

  lemma PassGroupsFacts(t: Table, candidates: seq<string>, key: Cell)
    ensures InGroups(PassGroups(t, candidates), key) <==> Seen(t, candidates, key)
    ensures BotInGroups(PassGroups(t, candidates), key) <==> BotSeen(t, candidates, key)
  {
    match (PrIdColumn(t.columns), FirstPresent(candidates, t.columns))
    case (Some(prCol), Some(loginCol)) => GroupedFacts(t, prCol, loginCol, key);
    case _ =>
  }

  /** The reviewer-type detection: picks the columns of both tables, folds
      the reviews and then the comments into the per-PR map. */
  method DetectReviewerTypes(reviews: Table, comments: Table) returns (types: map<Cell, ReviewerType>)
    ensures forall key :: Lookup(types, key) == ReviewerLabel(reviews, comments, key)
    ensures PassGroups(reviews, ReviewLoginCandidates) == [] && PassGroups(comments, CommentLoginCandidates) == []
      ==> types == map[]
  {
    var reviewsLogin := PickLoginCol(reviews.columns, ReviewLoginCandidates);
    var commentsLogin := PickLoginCol(comments.columns, CommentLoginCandidates);
    var reviewsPr := PrIdColumn(reviews.columns);
    var commentsPr := PrIdColumn(comments.columns);

    types := map[];
    if reviewsPr.Some? && reviewsLogin.Some? {
      types := FoldPass(types, Grouped(reviews, reviewsPr.value, reviewsLogin.value));
    }
    if commentsPr.Some? && commentsLogin.Some? {
      types := FoldPass(types, Grouped(comments, commentsPr.value, commentsLogin.value));
    }

    var rs, cs := PassGroups(reviews, ReviewLoginCandidates), PassGroups(comments, CommentLoginCandidates);
    assert types == Pass(Pass(map[], rs), cs);
    forall key
      ensures Lookup(types, key) == ReviewerLabel(reviews, comments, key)
    {
      TwoPassLabel(rs, cs, key);
      PassGroupsFacts(reviews, ReviewLoginCandidates, key);
      PassGroupsFacts(comments, CommentLoginCandidates, key);
    }
  }

  /** A bot login such as "copilot-bot" makes its PR "bot" whatever else
      reviewed it. */
  lemma BotLoginWins(reviews: Table, comments: Table, key: Cell)
    requires BotSeen(reviews, ReviewLoginCandidates, key) || BotSeen(comments, CommentLoginCandidates, key)
    ensures ReviewerLabel(reviews, comments, key) == Bot
  {
  }

  /** `pr_clean`: the PRs with a present, non-negative review duration. */
  predicate HasValidDuration(p: PullRequest)
  {
    p.reviewDurationHours.Some? && p.reviewDurationHours.value >= 0.0
  }

  function PrClean(prs: seq<PullRequest>): (r: seq<PullRequest>)
    ensures forall p :: p in r <==> p in prs && HasValidDuration(p)
    ensures |r| <= |prs|
  {
    Filter(prs, HasValidDuration)
  }

  /** `status`: merged 1 is "merged", 0 is "closed", anything else missing. */
  function Status(merged: int): (r: Option<string>)
    ensures r == Some("merged") <==> merged == 1
    ensures r == Some("closed") <==> merged == 0
    ensures r.None? <==> merged != 0 && merged != 1
  {
    if merged == 1 then Some("merged")
    else if merged == 0 then Some("closed")
    else None
  }

  /** `is_ai`: 1 for an AI-authored PR, else 0. */
  function IsAi(authorType: string): (r: int)
    ensures r == 1 <==> authorType == "ai"
    ensures r == 0 <==> authorType != "ai"
  {
    if authorType == "ai" then 1 else 0
  }

  predicate IsAiAuthored(p: PullRequest)
  {
    p.authorType == "ai"
  }

  /** The RQ3 dataset: the AI-authored PRs of `pr_clean`. */
  function Rq3Data(prClean: seq<PullRequest>): (r: seq<PullRequest>)
    ensures forall p :: p in r <==> p in prClean && p.authorType == "ai"
    ensures |r| <= |prClean|
  {
    Filter(prClean, IsAiAuthored)
  }

  /** The PRs of `prClean` whose id equals the comment's `pr_id` cell. */
  function MatchingPrs(row: Row, prClean: seq<PullRequest>): (r: seq<PullRequest>)
    ensures forall p :: p in r <==> p in prClean && Get(row, "pr_id") == Num(p.id)
  {
    Filter(prClean, (p: PullRequest) => Get(row, "pr_id") == Num(p.id))
  }

  /** The columns of the comment/PR join. The PR side brings `id` and
      `author_type`; when the comment table has an `id` column of its own
      the two clash and are renamed `id_x` (comment) and `id_y` (PR). */
  function JoinedColumns(columns: seq<string>): (r: seq<string>)
    ensures "author_type" in r
    ensures "id" in r <==> "id" !in columns
    ensures "id" in columns ==> "id_x" in r && "id_y" in r
    ensures forall c :: c in columns && c != "id" ==> c in r
  {
    if "id" in columns then
      var renamed := seq(|columns|, i requires 0 <= i < |columns| => if columns[i] == "id" then "id_x" else columns[i]);
      RenamedHasIdX(columns, renamed);
      renamed + ["id_y", "author_type"]
    else
      columns + ["id", "author_type"]
  }

  lemma RenamedHasIdX(columns: seq<string>, renamed: seq<string>)
    requires "id" in columns
    requires |renamed| == |columns|
    requires forall i :: 0 <= i < |columns| ==> renamed[i] == if columns[i] == "id" then "id_x" else columns[i]
    ensures "id_x" in renamed && "id" !in renamed
    ensures forall c :: c in columns && c != "id" ==> c in renamed
  {
    var j :| 0 <= j < |columns| && columns[j] == "id";
    assert renamed[j] == "id_x";
    forall c | c in columns && c != "id"
      ensures c in renamed
    {
      var k :| 0 <= k < |columns| && columns[k] == c;
      assert renamed[k] == c;
    }
  }

  /** The cells of the joined row for comment `row` and PR `p`. */
  function JoinedCells(clash: bool, row: Row, p: PullRequest): map<string, Cell>
  {
    if clash then
      (row.cells - {"id"})["id_x" := Get(row, "id")]["id_y" := Num(p.id)]["author_type" := Str(p.authorType)]
    else
      row.cells["id" := Num(p.id)]["author_type" := Str(p.authorType)]
  }

  /** The joined cells, comment by comment, each comment once per matching PR. */
  function JoinedCellMaps(clash: bool, rows: seq<Row>, prClean: seq<PullRequest>): seq<map<string, Cell>>
    decreases |rows|
  {
    if rows == [] then []
    else
      var ms := MatchingPrs(rows[0], prClean);
      seq(|ms|, k requires 0 <= k < |ms| => JoinedCells(clash, rows[0], ms[k]))
      + JoinedCellMaps(clash, rows[1..], prClean)
  }

  /** Comment `c` and PR `p` belong together in the inner join. */
  predicate Pairs(c: Row, p: PullRequest)
  {
    Get(c, "pr_id") == Num(p.id)
  }

  /** A joined row keeps the comment's `pr_id`, which equals the PR's id;
      without a clash its `id` is the PR's id too. */
  lemma JoinedRowIds(clash: bool, c: Row, p: PullRequest, row: Row)
    requires Pairs(c, p) && row.cells == JoinedCells(clash, c, p)
    ensures Get(row, "pr_id") == Get(c, "pr_id") == Num(p.id)
    ensures !clash ==> Get(row, "id") == Num(p.id)
    ensures Get(row, "author_type") == Str(p.authorType)
  {
  }

  /** The joined cell maps are exactly the cells of the matching
      (comment, PR) pairs: nothing else, and every such pair. */
  lemma {:induction false} JoinedCellMapsArePairs(clash: bool, rows: seq<Row>, prClean: seq<PullRequest>)
    ensures forall m :: m in JoinedCellMaps(clash, rows, prClean) ==>
      exists c, p :: c in rows && p in prClean && Pairs(c, p) && m == JoinedCells(clash, c, p)
    ensures forall c, p :: c in rows && p in prClean && Pairs(c, p) ==>
      JoinedCells(clash, c, p) in JoinedCellMaps(clash, rows, prClean)
    decreases |rows|
  {
    if rows != [] {
      JoinedCellMapsArePairs(clash, rows[1..], prClean);
      var ms := MatchingPrs(rows[0], prClean);
      var head := seq(|ms|, k requires 0 <= k < |ms| => JoinedCells(clash, rows[0], ms[k]));
      assert JoinedCellMaps(clash, rows, prClean) == head + JoinedCellMaps(clash, rows[1..], prClean);
      forall c, p | c in rows && p in prClean && Pairs(c, p)
        ensures JoinedCells(clash, c, p) in JoinedCellMaps(clash, rows, prClean)
      {
        if c == rows[0] {
          assert p in ms;
          var k :| 0 <= k < |ms| && ms[k] == p;
          assert head[k] == JoinedCells(clash, c, p);
        } else {
          assert c in rows[1..];
        }
      }
      forall m | m in JoinedCellMaps(clash, rows, prClean)
        ensures exists c, p :: c in rows && p in prClean && Pairs(c, p) && m == JoinedCells(clash, c, p)
      {
        if m in head {
          var k :| 0 <= k < |ms| && head[k] == m;
          assert ms[k] in ms;
          assert rows[0] in rows && ms[k] in prClean && Pairs(rows[0], ms[k]);
        } else {
          var c, p :| c in rows[1..] && p in prClean && Pairs(c, p) && m == JoinedCells(clash, c, p);
          assert c in rows;
        }
      }
    }
  }

  /** `rq2_pr_comments`: the inner join of the comments with `pr_clean` on
      comment `pr_id` = PR `id`, with a fresh positional index. A comment
      table that already has an `author_type` column makes the later
      selection fail, so it is excluded. */
  function Rq2Join(comments: Table, prClean: seq<PullRequest>): (r: Table)
    requires "author_type" !in comments.columns
    ensures r.columns == JoinedColumns(comments.columns)
    ensures forall i :: 0 <= i < |r.rows| ==> r.rows[i].index == i
    ensures forall row :: row in r.rows ==>
      exists c, p :: c in comments.rows && p in prClean && Pairs(c, p)
        && row.cells == JoinedCells("id" in comments.columns, c, p)
  {
    var clash := "id" in comments.columns;
    var ms := JoinedCellMaps(clash, comments.rows, prClean);
    JoinedCellMapsArePairs(clash, comments.rows, prClean);
    var rows := seq(|ms|, i requires 0 <= i < |ms| => Row(i, ms[i]));
    assert forall row :: row in rows ==> row.cells in ms;
    Table(JoinedColumns(comments.columns), rows)
  }

  /** Every matching (comment, PR) pair gives a row of the join. */
  lemma JoinKeepsPairs(comments: Table, prClean: seq<PullRequest>, c: Row, p: PullRequest)
    requires "author_type" !in comments.columns
    requires c in comments.rows && p in prClean && Pairs(c, p)
    ensures exists row :: && row in Rq2Join(comments, prClean).rows
                          && row.cells == JoinedCells("id" in comments.columns, c, p)
  {
    var clash := "id" in comments.columns;
    var ms := JoinedCellMaps(clash, comments.rows, prClean);
    JoinedCellMapsArePairs(clash, comments.rows, prClean);
    var i :| 0 <= i < |ms| && ms[i] == JoinedCells(clash, c, p);
    assert Rq2Join(comments, prClean).rows[i].cells == ms[i];
  }

  predicate OnAiPr(row: Row)
  {
    Get(row, "author_type") == Str("ai")
  }

  /** `rq2_data`: the joined comments whose PR is AI-authored, keeping the
      join's index labels. */
  function Rq2Data(comments: Table, prClean: seq<PullRequest>): (r: Table)
    requires "author_type" !in comments.columns
    ensures r.columns == JoinedColumns(comments.columns)
    ensures forall row :: row in r.rows <==> row in Rq2Join(comments, prClean).rows && OnAiPr(row)
  {
    var joined := Rq2Join(comments, prClean);
    Table(joined.columns, Filter(joined.rows, OnAiPr))
  }

  /** Every RQ2 row comes from a comment and an AI-authored PR of
      `pr_clean` it matches, and keeps that comment's `pr_id`; without an
      `id` column in the comment table the row's `id` is the PR's id. */
  lemma Rq2RowSource(comments: Table, prClean: seq<PullRequest>, row: Row) returns (c: Row, p: PullRequest)
    requires "author_type" !in comments.columns
    requires row in Rq2Data(comments, prClean).rows
    ensures c in comments.rows && p in prClean && Pairs(c, p) && p.authorType == "ai"
    ensures row.cells == JoinedCells("id" in comments.columns, c, p)
    ensures Get(row, "pr_id") == Get(c, "pr_id") == Num(p.id)
    ensures "id" !in comments.columns ==> Get(row, "id") == Num(p.id)
  {
    var clash := "id" in comments.columns;
    assert row in Rq2Join(comments, prClean).rows;
    c, p :| c in comments.rows && p in prClean && Pairs(c, p) && row.cells == JoinedCells(clash, c, p);
    JoinedRowIds(clash, c, p, row);
  }

  /** Every comment on an AI-authored PR of `pr_clean` is in the RQ2 data. */
  lemma Rq2KeepsAiComments(comments: Table, prClean: seq<PullRequest>, c: Row, p: PullRequest)
    requires "author_type" !in comments.columns
    requires c in comments.rows && p in prClean && Pairs(c, p) && p.authorType == "ai"
    ensures exists row :: && row in Rq2Data(comments, prClean).rows
                          && row.cells == JoinedCells("id" in comments.columns, c, p)
  {
    JoinKeepsPairs(comments, prClean, c, p);
    var row :| row in Rq2Join(comments, prClean).rows && row.cells == JoinedCells("id" in comments.columns, c, p);
    JoinedRowIds("id" in comments.columns, c, p, row);
    assert OnAiPr(row);
  }

  /** One row of the RQ1 dataset. */
  datatype Rq1Row = Rq1Row(
    id: int,
    authorType: string,
    reviewDurationHours: Option<real>,
    merged: int,
    status: Option<string>,
    nComments: Option<int>,
    reviewerType: ReviewerType,
    isAi: int)

  /** The RQ1 dataset: every PR of `pr_clean` with its status, its reviewer
      type from the detected map, and the AI flag. */
  function Rq1Data(prClean: seq<PullRequest>, types: map<Cell, ReviewerType>): (r: seq<Rq1Row>)
    ensures |r| == |prClean|
    ensures forall i :: 0 <= i < |r| ==>
      && r[i].id == prClean[i].id
      && r[i].authorType == prClean[i].authorType
      && r[i].reviewDurationHours == prClean[i].reviewDurationHours
      && r[i].merged == prClean[i].merged
      && r[i].nComments == prClean[i].nComments
      && (r[i].status == Some("merged") <==> prClean[i].merged == 1)
      && (r[i].status == Some("closed") <==> prClean[i].merged == 0)
      && (r[i].status.None? <==> prClean[i].merged != 0 && prClean[i].merged != 1)
      && (r[i].isAi == 1 <==> prClean[i].authorType == "ai")
      && (r[i].isAi == 0 <==> prClean[i].authorType != "ai")
      && r[i].reviewerType == Lookup(types, Num(prClean[i].id))
  {
    seq(|prClean|, i requires 0 <= i < |prClean| =>
      var p := prClean[i];
      Rq1Row(p.id, p.authorType, p.reviewDurationHours, p.merged, Status(p.merged),
             p.nComments, Lookup(types, Num(p.id)), IsAi(p.authorType)))
  }

  /** With the map the detection builds, every RQ1 row carries the reviewer
      type the reviews and comments of its PR call for, and "none" when
      neither table mentions it. */
  lemma Rq1ReviewerTypes(prClean: seq<PullRequest>, reviews: Table, comments: Table, types: map<Cell, ReviewerType>)
    requires forall key :: Lookup(types, key) == ReviewerLabel(reviews, comments, key)
    ensures forall i :: 0 <= i < |prClean| ==>
      Rq1Data(prClean, types)[i].reviewerType == ReviewerLabel(reviews, comments, Num(prClean[i].id))
  {
  }
}
