/** The tabular values the pipeline scripts pass between each other: table
    cells that may be missing, rows keyed by column name, the pull-request
    record, and the boolean-mask row selection used throughout. */
module Frames {
  import opened Text

  datatype Option<T> = None | Some(value: T)

  /** One table cell: missing (NaN/None), a number, or a string. */
  datatype Cell = Null | Num(n: int) | Str(s: string)

  /** One row: its index label and its cells by column name. */
  datatype Row = Row(index: int, cells: map<string, Cell>)

  /** A table: its column names in order, and its rows. */
  datatype Table = Table(columns: seq<string>, rows: seq<Row>)

  /** The cell of `row` in column `col`; a column the row lacks reads as missing. */
  function Get(row: Row, col: string): Cell
  {
    if col in row.cells then row.cells[col] else Null
  }

  /** `pd.isna(v)` / `str(v)`: the text of a cell, absent when it is missing. */
  function TextOf(c: Cell): Option<string>
  {
    match c
    case Null => None
    case Num(n) => Some(IntToString(n))
    case Str(s) => Some(s)
  }

  /** `.fillna("").astype(str)`: a missing cell becomes the empty string. */
  function FilledText(c: Cell): string
  {
    match TextOf(c)
    case None => ""
    case Some(s) => s
  }

  /** One pull request as the cleaned PR table carries it. */
  datatype PullRequest = PullRequest(
    id: int,
    authorType: string,
    merged: int,
    reviewDurationHours: Option<real>,
    nComments: Option<int>,
    closedLoop: Option<int>)

  /** `df[mask]`: the rows that satisfy `keep`, each as often as it occurs,
      in their original order. */
  function Filter<T(==,!new)>(s: seq<T>, keep: T -> bool): (r: seq<T>)
    ensures |r| <= |s|
    ensures forall x :: x in r <==> x in s && keep(x)
    decreases |s|
  {
    if s == [] then []
    else
      var rest := Filter(s[1..], keep);
      assert forall i :: 1 <= i < |s| ==> s[i] == s[1..][i - 1];
      if keep(s[0]) then [s[0]] + rest else rest
  }

  /** A selection keeps every satisfying row once per occurrence, and drops
      every other row. */
  lemma {:induction false} FilterCounts<T(!new)>(s: seq<T>, keep: T -> bool, x: T)
    ensures multiset(Filter(s, keep))[x] == if keep(x) then multiset(s)[x] else 0
    decreases |s|
  {
    if s != [] {
      assert s == [s[0]] + s[1..];
      FilterCounts(s[1..], keep, x);
    }
  }

  /** The kept rows appear in `Filter` in the order they have in `s`: the
      result is `s` with the other rows taken out, so filtering a prefix
      gives a prefix of the result. */
  lemma {:induction false} FilterAppend<T(!new)>(a: seq<T>, b: seq<T>, keep: T -> bool)
    ensures Filter(a + b, keep) == Filter(a, keep) + Filter(b, keep)
    decreases |a|
  {
    if a == [] {
      assert a + b == b;
    } else {
      assert (a + b)[1..] == a[1..] + b;
      FilterAppend(a[1..], b, keep);
    }
  }
}
