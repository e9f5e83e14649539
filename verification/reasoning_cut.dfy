/** The single (non-global) replacement
    `s.replace(/.*<\/?(?:redacted_)?reasoning>/, '')` applied when a delta
    closes a reasoning block.

    The pattern's tail matches one of four literal tags. `.` matches any
    character except a line terminator, and `.*` is greedy, so the engine
    removes everything from the start of the first line that holds a tag up
    to and including the LAST tag on that line. Earlier lines, later lines
    and the rest of that line after the last tag are kept.
    `CutReasoningIsRegexReplace` proves the hand-written scan against this
    leftmost-then-greedy reading of the pattern. */
module ReasoningCut {
  import opened Wrappers
  import opened Text

  /** The literal alternatives of `<\/?(?:redacted_)?reasoning>`, in the
      order a backtracking engine tries them (optional parts taken first). */
  const ReasoningTags: seq<string> :=
    ["</redacted_reasoning>", "</reasoning>", "<redacted_reasoning>", "<reasoning>"]

  /** The length of the tag that starts at index `j` of `s`, or 0 when none
      does. */
  function TagLenAt(s: string, j: nat): (n: nat)
    requires j <= |s|
    ensures n > 0 ==> j + n <= |s| && s[j] == '<'
  {
    if MatchesAt(s, j, ReasoningTags[0]) then |ReasoningTags[0]|
    else if MatchesAt(s, j, ReasoningTags[1]) then |ReasoningTags[1]|
    else if MatchesAt(s, j, ReasoningTags[2]) then |ReasoningTags[2]|
    else if MatchesAt(s, j, ReasoningTags[3]) then |ReasoningTags[3]|
    else 0
  }

  /** `TagLenAt` recognises exactly the four tags: it reports the length
      of the tag found at `j`, and 0 only when no tag starts there. */
  lemma TagLenAtIsTag(s: string, j: nat)
    requires j <= |s|
    ensures TagLenAt(s, j) > 0 ==> s[j..j + TagLenAt(s, j)] in ReasoningTags
    ensures TagLenAt(s, j) == 0 <==> forall k :: 0 <= k < |ReasoningTags| ==> !OccursAt(s, ReasoningTags[k], j)
  {
    forall k | 0 <= k < |ReasoningTags|
      ensures MatchesAt(s, j, ReasoningTags[k]) <==> OccursAt(s, ReasoningTags[k], j)
    {
      MatchesAtIsOccurrence(s, j, ReasoningTags[k]);
    }
  }

  /** No reasoning tag occurs anywhere in `s`. */
  predicate NoReasoningTag(s: string) {
    forall j :: 0 <= j <= |s| ==> TagLenAt(s, j) == 0
  }

  /** Every tag has an `r` as its second or third character. */
  lemma TagHasR(s: string, j: nat)
    requires j <= |s|
    ensures TagLenAt(s, j) > 0 ==> j + 2 < |s| && (s[j + 1] == 'r' || s[j + 2] == 'r')
  {
    var n := TagLenAt(s, j);
    if n > 0 {
      TagLenAtIsTag(s, j);
      var t := s[j..j + n];
      assert t[1] == s[j + 1] && t[2] == s[j + 2];
    }
  }

  /** Text without an `r` holds no tag. */
  lemma NoTagWithoutR(s: string)
    requires 'r' !in s
    ensures NoReasoningTag(s)
  {
    forall j | 0 <= j <= |s| ensures TagLenAt(s, j) == 0 {
      TagHasR(s, j);
    }
  }

  /** No line terminator occurs in `s[i..j]`: the span `.*` can cover. */
  predicate LineFree(s: string, i: int, j: int)
    requires 0 <= i <= j <= |s|
  {
    forall k :: i <= k < j ==> !IsLineTerminator(s[k])
  }

  /** The pattern matches `s[i..j + TagLenAt(s, j)]`: `.*` covers `s[i..j]`
      and a tag starts at `j`. */
  ghost predicate RegexMatch(s: string, i: int, j: int) {
    0 <= i <= j <= |s| && LineFree(s, i, j) && TagLenAt(s, j) > 0
  }

  /** The match the engine reports: the leftmost start, then the longest
      `.*`. */
  ghost predicate LeftmostGreedy(s: string, i: int, j: int) {
    && RegexMatch(s, i, j)
    && (forall i', j' :: RegexMatch(s, i', j') ==> i <= i')
    && (forall j' :: RegexMatch(s, i, j') ==> j' <= j)
  }

  /** The start of the line holding index `j`. */
  function LineStart(s: string, j: nat): (i: nat)
    requires j <= |s|
    ensures i <= j && LineFree(s, i, j)
    ensures i == 0 || IsLineTerminator(s[i - 1])
    decreases j
  {
    if j == 0 || IsLineTerminator(s[j - 1]) then j else LineStart(s, j - 1)
  }

  /** The first index at or after `k` where a tag starts. */
  function FirstTag(s: string, k: nat): (r: Option<nat>)
    requires k <= |s|
    ensures r.Some? ==> k <= r.value < |s| && TagLenAt(s, r.value) > 0
    ensures forall m :: k <= m <= |s| && (r.None? || m < r.value) ==> TagLenAt(s, m) == 0
    decreases |s| - k
  {
    if k == |s| then None
    else if TagLenAt(s, k) > 0 then Some(k)
    else FirstTag(s, k + 1)
  }

  /** Scanning forward from `j` to the end of the line, the last index where
      a tag starts; `best` is the last one seen before `j`. */
  function LastTagInLine(s: string, j: nat, best: nat): (l: nat)
    requires best < j <= |s|
    requires TagLenAt(s, best) > 0 && LineFree(s, best, j)
    ensures best <= l < |s| && TagLenAt(s, l) > 0 && LineFree(s, best, l)
    decreases |s| - j
  {
    if j == |s| || IsLineTerminator(s[j]) then best
    else
      var best' := if TagLenAt(s, j) > 0 then j else best;
      assert LineFree(s, best', j + 1);
      var l := LastTagInLine(s, j + 1, best');
      assert LineFree(s, best, l) by {
        assert LineFree(s, best, best') && LineFree(s, best', l);
      }
      l
  }

  /** No tag starts later on the line than the one `LastTagInLine` finds,
      provided none starts between `best` and `j`. */
  lemma {:induction false} LastTagInLineIsLast(s: string, j: nat, best: nat)
    requires best < j <= |s|
    requires TagLenAt(s, best) > 0 && LineFree(s, best, j)
    requires forall m :: best < m < j ==> TagLenAt(s, m) == 0
    ensures forall m :: LastTagInLine(s, j, best) < m <= |s| && LineFree(s, LastTagInLine(s, j, best), m)
                        ==> TagLenAt(s, m) == 0
    decreases |s| - j
  {
    var l := LastTagInLine(s, j, best);
    if j == |s| || IsLineTerminator(s[j]) {
      assert l == best;
      assert TagLenAt(s, j) == 0;
    } else {
      var best' := if TagLenAt(s, j) > 0 then j else best;
      assert LineFree(s, best', j + 1);
      LastTagInLineIsLast(s, j + 1, best');
      forall m | l < m <= |s| && LineFree(s, l, m) ensures TagLenAt(s, m) == 0 {
        assert LastTagInLine(s, j, best) == LastTagInLine(s, j + 1, best');
      }
    }
  }

  /** The replacement: text without a tag is returned unchanged, and text
      with one always loses at least that tag. */
  function CutReasoning(s: string): (r: string)
    ensures NoReasoningTag(s) ==> r == s
    ensures !NoReasoningTag(s) ==> |r| < |s|
  {
    match FirstTag(s, 0)
    case None => s
    case Some(j) =>
      assert !NoReasoningTag(s) by { assert TagLenAt(s, j) > 0; }
      CutLine(s, j)
  }

  /** Removes the line of the tag at `j` from its start up to the end of
      the last tag on that line. */
  function CutLine(s: string, j: nat): (r: string)
    requires j < |s| && TagLenAt(s, j) > 0
    ensures |r| < |s|
  {
    var i := LineStart(s, j);
    var l := LastTagInLine(s, j + 1, j);
    assert i <= l < l + TagLenAt(s, l) <= |s|;
    s[..i] + s[l + TagLenAt(s, l)..]
  }

  /** The scan performs exactly the replacement the pattern describes:
      with no match the text is unchanged; when there is a match, the
      leftmost greedy one exists and exactly it is removed, with everything
      around it kept. */
  lemma CutReasoningIsRegexReplace(s: string)
    ensures (forall i, j :: !RegexMatch(s, i, j)) ==> CutReasoning(s) == s
    ensures (exists i, j :: RegexMatch(s, i, j)) ==> exists i, j :: LeftmostGreedy(s, i, j)
    ensures forall i, j :: LeftmostGreedy(s, i, j) ==>
              CutReasoning(s) == s[..i] + s[j + TagLenAt(s, j)..]
  {
    if forall i, j :: !RegexMatch(s, i, j) {
      NoMatchNoCut(s);
    } else {
      var i, j :| RegexMatch(s, i, j);
      LeftmostGreedyExists(s, j);
    }
    forall i, j | LeftmostGreedy(s, i, j)
      ensures CutReasoning(s) == s[..i] + s[j + TagLenAt(s, j)..]
    {
      LeftmostGreedyIsCut(s, i, j);
    }
  }

  /** Without a match the text is unchanged. */
  lemma NoMatchNoCut(s: string)
    requires forall i, j :: !RegexMatch(s, i, j)
    ensures CutReasoning(s) == s
  {
    forall j | 0 <= j <= |s| ensures TagLenAt(s, j) == 0 {
      assert !RegexMatch(s, j, j);
    }
  }

  /** A tag anywhere gives a leftmost greedy match. */
  lemma LeftmostGreedyExists(s: string, j: int)
    requires 0 <= j <= |s| && TagLenAt(s, j) > 0
    ensures exists i, j :: LeftmostGreedy(s, i, j)
  {
    var j0 := FirstTag(s, 0).value;
    MatchFromLineStart(s, j0, LineStart(s, j0), LastTagInLine(s, j0 + 1, j0));
  }

  /** The leftmost greedy match is the one the scan removes. */
  lemma LeftmostGreedyIsCut(s: string, i: int, j: int)
    requires LeftmostGreedy(s, i, j)
    ensures CutReasoning(s) == s[..i] + s[j + TagLenAt(s, j)..]
  {
    var j0 := FirstTagOfMatch(s, i, j);
    var i0, l := ScanMatch(s, j0);
    LeftmostGreedyIsUnique(s, i, j, i0, l);
  }

  /** Once the first tag is known, the scan removes a leftmost greedy
      match. */
  lemma ScanMatch(s: string, j0: nat) returns (i0: nat, l: nat)
    requires FirstTag(s, 0) == Some(j0)
    ensures LeftmostGreedy(s, i0, l)
    ensures l + TagLenAt(s, l) <= |s|
    ensures CutReasoning(s) == s[..i0] + s[l + TagLenAt(s, l)..]
  {
    i0 := LineStart(s, j0);
    l := LastTagInLine(s, j0 + 1, j0);
    assert LeftmostGreedy(s, i0, l) by {
      MatchFromLineStart(s, j0, i0, l);
    }
    assert CutReasoning(s) == s[..i0] + s[l + TagLenAt(s, l)..] by {
      CutAtFirstTag(s, j0);
      CutLineRemoves(s, j0);
    }
  }

  /** A match means some tag exists, so the scan finds a first one. */
  lemma FirstTagOfMatch(s: string, i: int, j: int) returns (j0: nat)
    requires RegexMatch(s, i, j)
    ensures FirstTag(s, 0) == Some(j0)
  {
    j0 := FirstTag(s, 0).value;
  }

  /** There is only one leftmost greedy match. */
  lemma LeftmostGreedyIsUnique(s: string, i: int, j: int, i': int, j': int)
    requires LeftmostGreedy(s, i, j) && LeftmostGreedy(s, i', j')
    ensures i == i' && j == j'
  {
  }

  /** What the scan removes once the first tag is known. */
  lemma CutAtFirstTag(s: string, j0: nat)
    requires FirstTag(s, 0) == Some(j0)
    ensures CutReasoning(s) == CutLine(s, j0)
  {
  }

  /** The text `CutLine` keeps. */
  lemma CutLineRemoves(s: string, j: nat)
    requires j < |s| && TagLenAt(s, j) > 0
    ensures CutLine(s, j) == s[..LineStart(s, j)] + s[LastTagInLine(s, j + 1, j) + TagLenAt(s, LastTagInLine(s, j + 1, j))..]
  {
  }

  /** The start of the line of the first tag, with the last tag of that
      line, is the leftmost greedy match. */
  lemma MatchFromLineStart(s: string, j0: nat, i0: nat, l: nat)
    requires FirstTag(s, 0) == Some(j0)
    requires i0 == LineStart(s, j0)
    requires l == LastTagInLine(s, j0 + 1, j0)
    ensures LeftmostGreedy(s, i0, l)
  {
    LastTagInLineIsLast(s, j0 + 1, j0);
    assert LineFree(s, i0, l) by {
      assert LineFree(s, i0, j0) && LineFree(s, j0, l);
    }
    assert RegexMatch(s, i0, l);
    forall i', j' | RegexMatch(s, i', j') ensures i0 <= i' {
      assert j0 <= j';
    }
    forall j' | RegexMatch(s, i0, j') ensures j' <= l {
      assert j0 <= j';
    }
  }
}
