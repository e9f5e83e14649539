/** Concrete streams run through the Cerebras reasoning filter.

    The lemmas about concrete text take that text as a parameter pinned by
    `requires s == "..."` rather than writing the literal in the body.
    Applied to a literal, a recursive function such as `StripMarkers` or
    `Contains` is unrolled by the verifier all the way down, and that cost
    explodes; applied to a parameter it is unfolded only as far as the
    proof asks. */
module CerebrasExamples {
  import opened Wrappers
  import opened Text
  import opened Chat
  import opened Streams
  import opened Markers
  import opened ReasoningCut
  import opened Cerebras

  /** A chunk whose first choice carries only the content `t`. */
  function ContentChunk(t: string): CerebrasChunk {
    CerebrasChunk(Some([Choice(Some(Delta(Some(t), None)))]))
  }

  /** A chunk whose first choice carries the reasoning text `t`. */
  function ReasoningChunk(t: string): CerebrasChunk {
    CerebrasChunk(Some([Choice(Some(Delta(None, Some(t))))]))
  }

  /** "</think>Hello" holds a closing tag but no opening one. */
  lemma ThinkCloserTags(s: string)
    requires s == "</think>Hello"
    ensures !HasOpeningTag(s) && HasClosingTag(s)
  {
    NoOpeningTagWithoutPair(s);
    assert OccursAt(s, "</think>", 0);
  }

  /** "</think>Hello" holds no reasoning tag. */
  lemma ThinkCloserUncut(s: string)
    requires s == "</think>Hello"
    ensures NoReasoningTag(s)
  {
    NoTagWithoutR(s);
  }

  /** "</think>Hello" holds no marker and is not blank. */
  lemma ThinkCloserPlain(s: string)
    requires s == "</think>Hello"
    ensures '@' !in s && !IsBlank(s)
  {
    assert !IsSpace(s[0]);
  }

  /** Inside a block, the delta "</think>Hello" ends the block and is
      emitted whole, closing tag included. */
  lemma ThinkCloserIsEmitted()
    ensures Step(InReasoningBlock, ContentChunk("</think>Hello"))
            == Stepped(Normal, Some("</think>Hello"))
  {
    var s := "</think>Hello";
    var c := ContentChunk(s);
    assert Classify(c) == ContentDelta(s);
    ThinkCloserTags(s);
    ThinkCloserUncut(s);
    ThinkCloserPlain(s);
    ClosingWithoutReasoningTagKeepsText(c);
    StripWithoutAtIsIdentity(s);
  }

  /** "<think>plan</think>" followed by "Hello": the answer is lost, and the
      stream ends inside a block. */
  lemma SelfClosedBlockLosesAnswer()
    ensures Filter([ContentChunk("<think>plan</think>"), ContentChunk("Hello")]) == []
    ensures Run(Normal, [ContentChunk("<think>plan</think>"), ContentChunk("Hello")]).state
            == InReasoningBlock
  {
    var c1 := ContentChunk("<think>plan</think>");
    var c2 := ContentChunk("Hello");
    assert Classify(c1) == ContentDelta("<think>plan</think>");
    assert OccursAt("<think>plan</think>", "<think>", 0);
    assert Classify(c2) == ContentDelta("Hello");
    NoClosingTagWithoutSlash("Hello");
    OneDeltaBlockSilencesRest(Normal, c1, [c2]);
    assert [c1] + [c2] == [c1, c2];
  }

  // ---------------------------------------------------------------------
  // A mixed stream: a reasoning-field delta, an inline block closed by a
  // reasoning tag, a tool marker inside the answer and a blank delta

  /** The tag that closes the block in the mixed stream. */
  const CloseTag: string := "</reasoning>"

  /** The mixed stream: reasoning `r` in its own field, a block opened by
      `<think>` with body `p`, the closing delta carrying the answer `a`,
      the marker `m` and the rest `b`, and a blank delta `w`. */
  function MixedStream(r: string, p: string, a: string, m: string, b: string, w: string): seq<CerebrasChunk> {
    [ReasoningChunk(r), ContentChunk("<think>"), ContentChunk(p),
     ContentChunk(CloseTag + a + m + b), ContentChunk(w)]
  }

  /** The answer in the closing delta: a marker `m` between text `a` and
      text `b`, none of it holding `<`, no `@` outside the marker, `b` not
      starting with white space, and something visible left once the marker
      is gone. */
  ghost predicate MarkedAnswer(a: string, m: string, b: string) {
    && '@' !in a && '@' !in b && '<' !in a + m + b
    && MatchesMarker(m + b, |m|) && (b == [] || !IsSpace(b[0]))
    && !IsBlank(a + b)
  }

  /** The closing delta starts with a 12-character reasoning tag. */
  lemma CloseTagLen(x: string)
    ensures TagLenAt(CloseTag + x, 0) == 12
  {
    var s := CloseTag + x;
    MatchesAtIsOccurrence(s, 0, ReasoningTags[0]);
    assert !OccursAt(s, ReasoningTags[0], 0) by {
      if |s| >= 21 { assert s[..21][4] != ReasoningTags[0][4]; }
    }
    MatchesAtIsOccurrence(s, 0, ReasoningTags[1]);
    assert s[0..12] == ReasoningTags[1];
  }

  /** Text that begins with a reasoning tag and holds no other `<` loses
      exactly that tag to the cut. */
  lemma LeadingTagCut(s: string, n: nat)
    requires 0 < n && TagLenAt(s, 0) == n
    requires forall m :: 0 < m < |s| ==> s[m] != '<'
    ensures CutReasoning(s) == s[n..]
  {
    assert FirstTag(s, 0) == Some(0);
    CutAtFirstTag(s, 0);
    CutLineRemoves(s, 0);
    assert LastTagInLine(s, 1, 0) == 0;
  }

  /** The closing delta read as text: no opening tag, a closing tag, and
      after the cut the answer with its marker. */
  lemma CloserText(x: string)
    requires '<' !in x
    ensures !HasOpeningTag(CloseTag + x) && HasClosingTag(CloseTag + x)
    ensures CutReasoning(CloseTag + x) == x
  {
    var s := CloseTag + x;
    assert forall i :: 0 < i < |s| ==> s[i] != '<' by {
      forall i | 0 < i < |s| ensures s[i] != '<' {
        if i >= 12 { assert s[i] == x[i - 12]; }
      }
    }
    NoOpeningTagWithoutPair(s);
    assert OccursAt(s, "</reasoning>", 0);
    CloseTagLen(x);
    LeadingTagCut(s, 12);
    assert s[12..] == x;
  }

  /** Inside the block, the closing delta emits the answer without its
      marker. */
  lemma CloserStep(a: string, m: string, b: string)
    requires MarkedAnswer(a, m, b)
    ensures Step(InReasoningBlock, ContentChunk(CloseTag + a + m + b)) == Stepped(Normal, Some(a + b))
  {
    var x := a + m + b;
    assert CloseTag + a + m + b == CloseTag + x;
    var c := ContentChunk(CloseTag + x);
    assert Classify(c) == ContentDelta(CloseTag + x);
    CloserText(x);
    ClosingTagLeavesBlock(c);
    StripOneMarker(a, m, b);
  }

  /** The chunks before the closing delta leave the filter inside the block
      with nothing emitted. */
  lemma MixedOpening(r: string, p: string, a: string, m: string, b: string, w: string)
    requires r != "" && p != "" && !HasClosingTag(p)
    ensures Run(Normal, MixedStream(r, p, a, m, b, w)[..3]) == Folded(InReasoningBlock, [])
  {
    var cs := MixedStream(r, p, a, m, b, w);
    var c1, c2, c3 := cs[0], cs[1], cs[2];
    ReasoningDeltaDropped(Normal, c1);
    assert Classify(c2) == ContentDelta("<think>");
    assert OccursAt("<think>", "<think>", 0);
    OpeningTagEntersBlock(Normal, c2);
    assert Classify(c3) == ContentDelta(p);
    UnclosedDeltaDropped(c3);
    FoldCons(Step, Normal, c1, [c2, c3]);
    FoldCons(Step, Normal, c2, [c3]);
    FoldCons(Step, InReasoningBlock, c3, []);
    assert cs[..3] == [c1] + [c2, c3];
    assert [c2, c3] == [c2] + [c3];
    assert [c3] == [c3] + [];
  }

  /** A blank delta emits nothing. */
  lemma BlankStep(w: string)
    requires w != "" && IsBlank(w)
    ensures Step(Normal, ContentChunk(w)) == Stepped(Normal, None)
  {
    var c := ContentChunk(w);
    assert Classify(c) == ContentDelta(w);
    BlankLacks(w, '<');
    NoOpeningTagWithoutPair(w);
    NormalDeltaStripped(c);
    BlankLacks(w, '@');
    StripWithoutAtIsIdentity(w);
  }

  /** A character that is not white space does not occur in blank text. */
  lemma BlankLacks(w: string, ch: char)
    requires IsBlank(w) && !IsSpace(ch)
    ensures ch !in w
  {
  }

  /** Of a stream mixing a reasoning-field delta, an inline block, a marker
      inside the answer and a blank delta, only the answer comes out,
      without its marker, and the blank delta adds no empty fragment. */
  lemma MixedStreamKeepsOnlyAnswer(r: string, p: string, a: string, m: string, b: string, w: string)
    requires r != "" && p != "" && !HasClosingTag(p)
    requires MarkedAnswer(a, m, b)
    requires w != "" && IsBlank(w)
    ensures Filter(MixedStream(r, p, a, m, b, w)) == [a + b]
    ensures Run(Normal, MixedStream(r, p, a, m, b, w)).state == Normal
  {
    var cs := MixedStream(r, p, a, m, b, w);
    MixedOpening(r, p, a, m, b, w);
    MixedClosing(a, m, b, w);
    RunAppend(Normal, cs[..3], cs[3..]);
    assert cs == cs[..3] + cs[3..];
  }

  /** From inside the block, the closing delta and the blank delta emit the
      answer alone and leave the filter outside the block. */
  lemma MixedClosing(a: string, m: string, b: string, w: string)
    requires MarkedAnswer(a, m, b)
    requires w != "" && IsBlank(w)
    ensures Run(InReasoningBlock, [ContentChunk(CloseTag + a + m + b), ContentChunk(w)])
            == Folded(Normal, [a + b])
  {
    var c4, c5 := ContentChunk(CloseTag + a + m + b), ContentChunk(w);
    CloserStep(a, m, b);
    BlankStep(w);
    FoldCons(Step, InReasoningBlock, c4, [c5]);
    FoldCons(Step, Normal, c5, []);
    assert [c4, c5] == [c4] + [c5];
    assert [c5] == [c5] + [];
  }

  /** "Hi ", "@tool(1-3) " and "there" make a marked answer. */
  lemma ToolAnswer(a: string, m: string, b: string)
    requires a == "Hi " && m == "@tool(1-3) " && b == "there"
    ensures MarkedAnswer(a, m, b)
  {
    ToolMarker(m, b);
    assert !IsSpace((a + b)[0]);
  }

  /** The pieces spell the closing delta, and what is left of it. */
  lemma ToolAnswerText(a: string, m: string, b: string)
    requires a == "Hi " && m == "@tool(1-3) " && b == "there"
    ensures CloseTag + a + m + b == "</reasoning>Hi @tool(1-3) there"
    ensures a + b == "Hi there"
  {
  }

  /** "@tool(1-3) " is a marker, and "there" does not extend it. */
  lemma ToolMarker(m: string, b: string)
    requires m == "@tool(1-3) " && b == "there"
    ensures MatchesMarker(m + b, |m|)
  {
    assert MarkerSplit(m + b, 5, 5, 7, 9, 11);
  }

  /** The concrete instance: after "weighing options" in the reasoning
      field, "<think>" and "plan", the delta "</reasoning>Hi @tool(1-3) there"
      closes the block, and "Hi there" is the only fragment. */
  lemma ToolMarkerExample(a: string, m: string, b: string)
    requires a == "Hi " && m == "@tool(1-3) " && b == "there"
    ensures Filter(MixedStream("weighing options", "plan", a, m, b, " ")) == ["Hi there"]
  {
    ToolAnswer(a, m, b);
    ToolAnswerText(a, m, b);
    NoClosingTagWithoutSlash("plan");
    MixedStreamKeepsOnlyAnswer("weighing options", "plan", a, m, b, " ");
  }
}
