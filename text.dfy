/** Case-insensitive substring matching as the pipeline uses it: Python's
    `str.lower()` followed by the `in` operator on strings, and the
    `any(...)` / `sum(1 for ...)` idioms over a fixed keyword list. */
module Text {

  /** `str.lower()` on one character (ASCII letters; see README). */
  function LowerChar(ch: char): char
  {
    if 'A' <= ch <= 'Z' then (ch as int + 32) as char else ch
  }

  /** `str.lower()` on a whole string. */
  function Lower(s: string): string
  {
    seq(|s|, i requires 0 <= i < |s| => LowerChar(s[i]))
  }

  /** `needle in hay` for Python strings: the empty needle occurs everywhere. */
  predicate Contains(hay: string, needle: string)
    decreases |hay|
  {
    needle <= hay || (|hay| > 0 && Contains(hay[1..], needle))
  }

  /** `needle` occurs in `hay` starting at position `i`. */
  predicate OccursAt(hay: string, needle: string, i: int)
  {
    0 <= i && i + |needle| <= |hay| && hay[i..i + |needle|] == needle
  }

  /** `Contains` is exactly "occurs at some position". */
  lemma {:induction false} ContainsIffOccurs(hay: string, needle: string)
    ensures Contains(hay, needle) <==> exists i :: OccursAt(hay, needle, i)
    decreases |hay|
  {
    if Contains(hay, needle) {
      if needle <= hay {
        assert OccursAt(hay, needle, 0);
      } else {
        ContainsIffOccurs(hay[1..], needle);
        var j :| OccursAt(hay[1..], needle, j);
        var window := hay[j + 1..j + 1 + |needle|];
        assert forall k :: 0 <= k < |window| ==> window[k] == hay[1..][j..j + |needle|][k];
        assert OccursAt(hay, needle, j + 1);
      }
    }
    if exists i :: OccursAt(hay, needle, i) {
      var i :| OccursAt(hay, needle, i);
      if i == 0 {
        assert needle == hay[..|needle|];
      } else {
        var window := hay[1..][i - 1..i - 1 + |needle|];
        assert forall k :: 0 <= k < |window| ==> window[k] == hay[i..i + |needle|][k];
        assert OccursAt(hay[1..], needle, i - 1);
        ContainsIffOccurs(hay[1..], needle);
      }
    }
  }

  /** Substring containment is transitive: every phrase inside a matched
      phrase matches too ("looks good" contains "good"). */
  lemma ContainsTransitive(a: string, b: string, c: string)
    requires Contains(a, b) && Contains(b, c)
    ensures Contains(a, c)
  {
    ContainsIffOccurs(a, b);
    ContainsIffOccurs(b, c);
    var i :| OccursAt(a, b, i);
    var j :| OccursAt(b, c, j);
    var window := a[i + j..i + j + |c|];
    assert forall k :: 0 <= k < |window| ==> window[k] == a[i..i + |b|][j + k] == b[j..j + |c|][k];
    assert OccursAt(a, c, i + j);
    ContainsIffOccurs(a, c);
  }

  /** `any(k in text for k in keywords)`. */
  predicate ContainsAny(text: string, keywords: seq<string>)
  {
    exists i :: 0 <= i < |keywords| && Contains(text, keywords[i])
  }

  /** Positions of the keywords that occur in `text`. */
  ghost function Matched(text: string, keywords: seq<string>): set<nat>
  {
    set i: nat | i < |keywords| && Contains(text, keywords[i])
  }

  /** `sum(1 for k in keywords if k in text)`: each keyword of the list adds
      at most one, however often it occurs. */
  function CountContained(text: string, keywords: seq<string>): (r: nat)
    ensures r <= |keywords|
    ensures r == 0 <==> !ContainsAny(text, keywords)
    decreases |keywords|
  {
    if keywords == [] then 0
    else
      var front := keywords[..|keywords| - 1];
      assert forall i :: 0 <= i < |front| ==> front[i] == keywords[i];
      CountContained(text, front)
        + (if Contains(text, keywords[|keywords| - 1]) then 1 else 0)
  }

  /** The count is the number of distinct keyword positions that match. */
  lemma {:induction false} CountIsMatchedPositions(text: string, keywords: seq<string>)
    ensures CountContained(text, keywords) == |Matched(text, keywords)|
    decreases |keywords|
  {
    if keywords != [] {
      var n := |keywords| - 1;
      var front := keywords[..n];
      CountIsMatchedPositions(text, front);
      if Contains(text, keywords[n]) {
        assert Matched(text, keywords) == Matched(text, front) + {n};
        assert n !in Matched(text, front);
      } else {
        assert Matched(text, keywords) == Matched(text, front);
      }
    }
  }

  /** Decimal rendering of a natural number, as `str()` prints it. */
  function NatToString(n: nat): string
    decreases n
  {
    var digit := ['0' + (n % 10) as char];
    if n < 10 then digit else NatToString(n / 10) + digit
  }

  /** `str()` of an integer. */
  function IntToString(n: int): string
  {
    if n < 0 then "-" + NatToString(-n) else NatToString(n)
  }

  /** Python's `a < b` on strings: the first differing character decides,
      and a proper prefix comes first. */
  predicate LexLess(a: string, b: string)
    decreases |a|
  {
    if a == [] then b != []
    else if b == [] then false
    else if a[0] != b[0] then a[0] < b[0]
    else LexLess(a[1..], b[1..])
  }

  lemma {:induction false} LexLessIrreflexive(a: string)
    ensures !LexLess(a, a)
    decreases |a|
  {
    if a != [] {
      LexLessIrreflexive(a[1..]);
    }
  }
}
