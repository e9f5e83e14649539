/** The global replacement of the pattern `@\w+\s*\(\d+-\d+\)\s*` (flag
    `g`) by the empty string, which removes tool-reference markers such as
    `@bash (1-3) ` from a delta.

    The pattern is matched by a hand-written greedy parse. Because `\w`,
    `\s`, `(`, `\d`, `-` and `)` never overlap where the pattern puts them
    side by side, backtracking can never rescue a failed greedy parse, so
    the greedy parse finds exactly the match a backtracking engine finds:
    `MarkerEndIsRegexMatch` proves this against the pattern's grammar. */
module Markers {
  import opened Wrappers
  import opened Text

  datatype CharClass = Word | Space | Digit

  predicate InClass(c: char, k: CharClass) {
    match k
    case Word => IsWordChar(c)
    case Space => IsSpace(c)
    case Digit => IsDigit(c)
  }

  /** Every character of `s[i..j]` is in class `k`. */
  predicate AllIn(s: string, k: CharClass, i: int, j: int)
    requires 0 <= i <= j <= |s|
  {
    forall m :: i <= m < j ==> InClass(s[m], k)
  }

  /** The end of the longest run of class-`k` characters starting at
      `from`: what a greedy `\w`, `\s` or `\d` repetition consumes. */
  function Span(s: string, k: CharClass, from: nat): (e: nat)
    requires from <= |s|
    ensures from <= e <= |s|
    ensures AllIn(s, k, from, e)
    ensures e == |s| || !InClass(s[e], k)
    decreases |s| - from
  {
    if from < |s| && InClass(s[from], k) then Span(s, k, from + 1) else from
  }

  /** A run of class-`k` characters that stops before a character outside
      the class is exactly the greedy span. */
  lemma SpanIsForced(s: string, k: CharClass, from: nat, e: nat)
    requires from <= e <= |s|
    requires AllIn(s, k, from, e)
    requires e == |s| || !InClass(s[e], k)
    ensures Span(s, k, from) == e
  {
  }

  /** The grammar of the pattern, split at its fixed points: `@` at 0, the
      word run `s[1..a]`, spaces `s[a..b]`, `(` at `b`, digits `s[b+1..c]`,
      `-` at `c`, digits `s[c+1..d]`, `)` at `d`, spaces `s[d+1..e]`. */
  ghost predicate MarkerSplit(s: string, a: int, b: int, c: int, d: int, e: int) {
    && 1 < a <= b && b + 1 < c && c + 1 < d && d < e <= |s|
    && s[0] == '@'
    && AllIn(s, Word, 1, a)
    && AllIn(s, Space, a, b)
    && s[b] == '('
    && AllIn(s, Digit, b + 1, c)
    && s[c] == '-'
    && AllIn(s, Digit, c + 1, d)
    && s[d] == ')'
    && AllIn(s, Space, d + 1, e)
  }

  /** The pattern matches the prefix `s[..e]`. */
  ghost predicate MatchesMarker(s: string, e: int) {
    exists a, b, c, d :: MarkerSplit(s, a, b, c, d, e)
  }

  /** The end of the marker that starts at the beginning of `s`, if one
      does. */
  function MarkerEnd(s: string): (r: Option<nat>)
    ensures r.Some? ==> 7 <= r.value <= |s| && s[0] == '@'
  {
    if |s| == 0 || s[0] != '@' then None
    else
      var a := Span(s, Word, 1);
      var b := Span(s, Space, a);
      if a == 1 || b == |s| || s[b] != '(' then None
      else
        var c := Span(s, Digit, b + 1);
        if c == b + 1 || c == |s| || s[c] != '-' then None
        else
          var d := Span(s, Digit, c + 1);
          if d == c + 1 || d == |s| || s[d] != ')' then None
          else Some(Span(s, Space, d + 1))
  }

  /** `MarkerEnd` finds a match exactly when the pattern matches at the start
      of `s`, and then it reports the end the backtracking engine reports:
      the one whose trailing white-space run is longest. */
  lemma MarkerEndIsRegexMatch(s: string)
    ensures MarkerEnd(s).Some? ==> MatchesMarker(s, MarkerEnd(s).value)
    ensures MarkerEnd(s).Some? ==> var e := MarkerEnd(s).value; e == |s| || !IsSpace(s[e])
    ensures forall e :: MatchesMarker(s, e) ==> MarkerEnd(s).Some? && e <= MarkerEnd(s).value
  {
    MarkerEndIsSound(s);
    forall e | MatchesMarker(s, e)
      ensures MarkerEnd(s).Some? && e <= MarkerEnd(s).value
    {
      MarkerEndIsComplete(s, e);
    }
  }

  /** A marker `MarkerEnd` reports is a match of the pattern, and its
      trailing white-space run cannot grow. */
  lemma MarkerEndIsSound(s: string)
    ensures MarkerEnd(s).Some? ==> MatchesMarker(s, MarkerEnd(s).value)
    ensures MarkerEnd(s).Some? ==> var e := MarkerEnd(s).value; e == |s| || !IsSpace(s[e])
  {
    if MarkerEnd(s).Some? {
      var a := Span(s, Word, 1);
      var b := Span(s, Space, a);
      var c := Span(s, Digit, b + 1);
      var d := Span(s, Digit, c + 1);
      assert MarkerSplit(s, a, b, c, d, MarkerEnd(s).value);
    }
  }

  /** Every match of the pattern at the start of `s` is found by
      `MarkerEnd`, and ends no later than the one it reports. */
  lemma MarkerEndIsComplete(s: string, e: int)
    requires MatchesMarker(s, e)
    ensures MarkerEnd(s).Some? && e <= MarkerEnd(s).value
  {
    var a, b, c, d :| MarkerSplit(s, a, b, c, d, e);
    SpanIsForced(s, Word, 1, a);
    SpanIsForced(s, Space, a, b);
    SpanIsForced(s, Digit, b + 1, c);
    SpanIsForced(s, Digit, c + 1, d);
  }

  /** The global replacement: scanning left to right, a marker starting at
      the current position is dropped and scanning resumes after it;
      otherwise the current character is kept. */
  function StripMarkers(s: string): (r: string)
    ensures |r| <= |s|
    ensures multiset(r) <= multiset(s)
    decreases |s|
  {
    if s == [] then []
    else
      match MarkerEnd(s)
      case Some(e) =>
        assert s == s[..e] + s[e..];
        StripMarkers(s[e..])
      case None =>
        assert s == [s[0]] + s[1..];
        [s[0]] + StripMarkers(s[1..])
  }

  /** `r` can be obtained from `s` by deleting characters: the characters
      of `r` appear in `s` in the same order. */
  predicate IsSubsequence(r: string, s: string)
    decreases |s|
  {
    r == [] || (s != [] && ((r[0] == s[0] && IsSubsequence(r[1..], s[1..])) || IsSubsequence(r, s[1..])))
  }

  /** Putting more text in front keeps a subsequence a subsequence. */
  lemma {:induction false} SubsequenceOfLonger(r: string, p: string, t: string)
    requires IsSubsequence(r, t)
    ensures IsSubsequence(r, p + t)
    decreases |p|
  {
    if p == [] {
      assert p + t == t;
    } else {
      SubsequenceOfLonger(r, p[1..], t);
      assert (p + t)[1..] == p[1..] + t;
    }
  }

  /** The replacement only deletes: what is left keeps the order of the
      input. */
  lemma {:induction false} StripIsSubsequence(s: string)
    ensures IsSubsequence(StripMarkers(s), s)
    decreases |s|
  {
    if s != [] {
      match MarkerEnd(s)
      case Some(e) =>
        StripIsSubsequence(s[e..]);
        SubsequenceOfLonger(StripMarkers(s[e..]), s[..e], s[e..]);
        assert s[..e] + s[e..] == s;
      case None =>
        StripIsSubsequence(s[1..]);
        var r := StripMarkers(s);
        assert r == [s[0]] + StripMarkers(s[1..]);
        assert r[0] == s[0] && r[1..] == StripMarkers(s[1..]);
    }
  }

  /** An `@` that opens no marker, as in `user@example.com`, is kept and
      scanning goes on at the next character. */
  lemma StripKeepsFailedAt(s: string)
    requires s != []
    requires forall e :: !MatchesMarker(s, e)
    ensures StripMarkers(s) == [s[0]] + StripMarkers(s[1..])
  {
    MarkerEndIsRegexMatch(s);
  }

  /** A character that cannot open a marker is copied through. */
  lemma StripCopiesNonAt(s: string)
    requires s != [] && s[0] != '@'
    ensures StripMarkers(s) == [s[0]] + StripMarkers(s[1..])
  {
    assert MarkerEnd(s) == None;
  }

  /** Text before the first `@` is never touched: it is copied ahead of the
      filtered rest. */
  lemma {:induction false} StripKeepsPlainPrefix(a: string, b: string)
    requires '@' !in a
    ensures StripMarkers(a + b) == a + StripMarkers(b)
    decreases |a|
  {
    if a != [] {
      var t := a[1..];
      assert '@' !in t;
      assert (a + b)[1..] == t + b;
      StripCopiesNonAt(a + b);
      StripKeepsPlainPrefix(t, b);
      assert a == [a[0]] + t;
    } else {
      assert a + b == b;
    }
  }

  /** A delta with no `@` is left exactly as it was. */
  lemma StripWithoutAtIsIdentity(s: string)
    requires '@' !in s
    ensures StripMarkers(s) == s
  {
    StripKeepsPlainPrefix(s, []);
    assert s + [] == s;
  }

  /** A marker at the front, with all the white space after it, disappears
      and the rest is filtered on its own. */
  lemma StripDropsLeadingMarker(s: string, e: nat)
    requires MatchesMarker(s, e)
    requires e == |s| || !IsSpace(s[e])
    ensures StripMarkers(s) == StripMarkers(s[e..])
  {
    var a, b, c, d :| MarkerSplit(s, a, b, c, d, e);
    MarkerEndOfSplit(s, a, b, c, d, e);
  }

  /** A match whose trailing white space cannot grow is the one `MarkerEnd`
      reports. */
  lemma MarkerEndOfSplit(s: string, a: int, b: int, c: int, d: int, e: int)
    requires MarkerSplit(s, a, b, c, d, e)
    requires e == |s| || !IsSpace(s[e])
    ensures MarkerEnd(s) == Some(e)
  {
    SpanIsForced(s, Word, 1, a);
    SpanIsForced(s, Space, a, b);
    SpanIsForced(s, Digit, b + 1, c);
    SpanIsForced(s, Digit, c + 1, d);
    SpanIsForced(s, Space, d + 1, e);
  }

  /** A marker between two runs of text without `@` is removed together
      with the white space after it, and nothing else changes. */
  lemma StripOneMarker(a: string, m: string, b: string)
    requires '@' !in a && '@' !in b
    requires MatchesMarker(m + b, |m|)
    requires b == [] || !IsSpace(b[0])
    ensures StripMarkers(a + m + b) == a + b
  {
    StripKeepsPlainPrefix(a, m + b);
    assert a + m + b == a + (m + b);
    assert (m + b)[|m|..] == b;
    StripDropsLeadingMarker(m + b, |m|);
    StripWithoutAtIsIdentity(b);
  }
}
