/** The Cerebras adapter (services/cerebras.ts): the role conversion, the
    streaming request it sends, and the per-stream reasoning filter that
    turns raw upstream chunks into the fragments the caller receives. */
module Cerebras {
  import opened Wrappers
  import opened Text
  import opened Chat
  import opened Markers
  import opened ReasoningCut
  import opened Streams

  // ---------------------------------------------------------------------
  // Request translation

  /** The three message roles the Cerebras request type accepts. */
  datatype CerebrasRole = SystemRole | AssistantRole | UserRole

  datatype CerebrasMessage = CerebrasMessage(role: CerebrasRole, content: string)

  /** "system" and "assistant" keep their role; every other role string
      becomes the user role. */
  function ConvertRole(role: string): (r: CerebrasRole)
    ensures r == SystemRole <==> role == "system"
    ensures r == AssistantRole <==> role == "assistant"
    ensures r == UserRole <==> role != "system" && role != "assistant"
  {
    if role == "system" then SystemRole
    else if role == "assistant" then AssistantRole
    else UserRole
  }

  /** The role string a Cerebras role stands for. */
  function RoleName(r: CerebrasRole): string {
    match r
    case SystemRole => "system"
    case AssistantRole => "assistant"
    case UserRole => "user"
  }

  /** The conversion is a bijection between the declared roles and the
      Cerebras roles. */
  lemma RoleRoundTrip(role: string, r: CerebrasRole)
    ensures IsDeclaredRole(role) ==> RoleName(ConvertRole(role)) == role
    ensures ConvertRole(RoleName(r)) == r
  {
  }

  /** The message-by-message conversion of a conversation. */
  function ConvertMessages(ms: seq<ChatMessage>): (r: seq<CerebrasMessage>)
    ensures |r| == |ms|
    ensures forall i :: 0 <= i < |ms| ==>
              r[i].content == ms[i].content && r[i].role == ConvertRole(ms[i].role)
  {
    if ms == [] then []
    else [CerebrasMessage(ConvertRole(ms[0].role), ms[0].content)] + ConvertMessages(ms[1..])
  }

  /** Reads a converted conversation back as role strings: every role read
      back is one of the declared ones, and the contents are kept. */
  function RestoreMessages(r: seq<CerebrasMessage>): (ms: seq<ChatMessage>)
    ensures |ms| == |r|
    ensures forall i :: 0 <= i < |r| ==> IsDeclaredRole(ms[i].role) && ms[i].content == r[i].content
  {
    seq(|r|, i requires 0 <= i < |r| => ChatMessage(RoleName(r[i].role), r[i].content))
  }

  /** The conversion loses nothing for well-typed conversations: the same
      messages, in the same order, with the same contents and roles come
      back. */
  lemma {:induction false} ConvertMessagesRoundTrip(ms: seq<ChatMessage>)
    requires forall i :: 0 <= i < |ms| ==> IsDeclaredRole(ms[i].role)
    ensures RestoreMessages(ConvertMessages(ms)) == ms
  {
    var back := RestoreMessages(ConvertMessages(ms));
    forall i | 0 <= i < |ms| ensures back[i] == ms[i] {
      RoleRoundTrip(ms[i].role, UserRole);
    }
  }

  /** The other direction: every Cerebras conversation is the conversion
      of the conversation read back from it. */
  lemma RestoreMessagesRoundTrip(r: seq<CerebrasMessage>)
    ensures ConvertMessages(RestoreMessages(r)) == r
  {
    var there := ConvertMessages(RestoreMessages(r));
    forall i | 0 <= i < |r| ensures there[i] == r[i] {
      RoleRoundTrip("", r[i].role);
    }
  }

  const DefaultModel: string := "qwen-3-32b"

  /** The streaming request the adapter sends; the sampling parameters and
      token limit are fixed numbers not modelled here. */
  datatype CerebrasRequest = CerebrasRequest(
    messages: seq<CerebrasMessage>,
    model: string,
    stream: bool,
    reasoningFormat: string,
    disableReasoning: bool)

  function BuildRequest(messages: seq<ChatMessage>, hint: Option<string>): (r: CerebrasRequest)
    ensures r.stream
    ensures r.messages == ConvertMessages(messages)
    ensures r.model != ""
    ensures hint.Some? && hint.value != "" ==> r.model == hint.value
    ensures hint.None? || hint.value == "" ==> r.model == DefaultModel
    ensures r.reasoningFormat == "hidden" && r.disableReasoning
  {
    CerebrasRequest(ConvertMessages(messages), ChooseModel(hint, DefaultModel), true, "hidden", true)
  }

  // ---------------------------------------------------------------------
  // Raw chunks

  /** A raw item of the upstream stream. `choices` is None when the item
      has no `choices` array (an error chunk, for instance). */
  datatype CerebrasChunk = CerebrasChunk(choices: Option<seq<Choice>>)

  /** The `delta` of the first choice, when there is a non-empty `choices`
      array whose first entry has a delta. */
  function FirstDelta(c: CerebrasChunk): Option<Delta> {
    match c.choices
    case None => None
    case Some(cs) => if |cs| > 0 then cs[0].delta else None
  }

  /** What a raw chunk means to the filter. */
  datatype Event = ContentDelta(text: string) | ReasoningDelta | Other

  /** A delta with a truthy `reasoning` field is a reasoning delta even if
      it also carries content; one with truthy `content` is a content
      delta; everything else is ignored. */
  function Classify(c: CerebrasChunk): (ev: Event)
    ensures ev.ContentDelta? ==> ev.text != ""
    ensures ev.ContentDelta? ==> FirstDelta(c).Some? && FirstDelta(c).value.content == Some(ev.text)
    ensures ev.ReasoningDelta? <==> FirstDelta(c).Some? && Truthy(FirstDelta(c).value.reasoning)
    ensures ev.ContentDelta? <==>
              FirstDelta(c).Some? && !Truthy(FirstDelta(c).value.reasoning) && Truthy(FirstDelta(c).value.content)
  {
    match FirstDelta(c)
    case None => Other
    case Some(d) =>
      if Truthy(d.reasoning) then ReasoningDelta
      else if Truthy(d.content) then ContentDelta(d.content.value)
      else Other
  }

  // ---------------------------------------------------------------------
  // The reasoning filter

  datatype FilterState = Normal | InReasoningBlock

  /** A delta that opens a reasoning block. */
  predicate HasOpeningTag(t: string): (b: bool)
    ensures b <==> exists i: nat :: OccursAt(t, "<think>", i) || OccursAt(t, "<thinking>", i) || OccursAt(t, "<reasoning>", i)
  {
    Contains(t, "<think>") || Contains(t, "<thinking>") || Contains(t, "<reasoning>")
  }

  /** A delta that closes a reasoning block. */
  predicate HasClosingTag(t: string): (b: bool)
    ensures b <==> exists i: nat :: OccursAt(t, "</think>", i) || OccursAt(t, "</thinking>", i) || OccursAt(t, "</reasoning>", i)
  {
    Contains(t, "</think>") || Contains(t, "</thinking>") || Contains(t, "</reasoning>")
  }

  /** Every opening tag begins with `<t` or `<r`, so text where `<` is
      never followed by `t` or `r` opens no block. */
  lemma NoOpeningTagWithoutPair(t: string)
    requires forall i :: 0 <= i < |t| - 1 ==> t[i] == '<' ==> t[i + 1] != 't' && t[i + 1] != 'r'
    ensures !HasOpeningTag(t)
  {
    AbsentByLeadingPair(t, "<think>");
    AbsentByLeadingPair(t, "<thinking>");
    AbsentByLeadingPair(t, "<reasoning>");
  }

  /** Every closing tag begins with `</`, so text where `<` is never
      followed by `/` closes no block. */
  lemma NoClosingTagWithoutSlash(t: string)
    requires forall i :: 0 <= i < |t| - 1 ==> t[i] == '<' ==> t[i + 1] != '/'
    ensures !HasClosingTag(t)
  {
    AbsentByLeadingPair(t, "</think>");
    AbsentByLeadingPair(t, "</thinking>");
    AbsentByLeadingPair(t, "</reasoning>");
  }

  /** The final test `if (filtered.trim()) yield filtered`: the untrimmed
      text is yielded exactly when it is not all white space. */
  function Emit(f: string): (r: Option<string>)
    ensures r.Some? <==> !IsBlank(f)
    ensures r.Some? ==> r.value == f
  {
    TrimEmptyIffBlank(f);
    if Trim(f) != [] then Some(f) else None
  }

  type StepResult = Stepped<FilterState, string>

  /** One turn of the loop body on an already classified chunk. */
  function Transition(st: FilterState, ev: Event): (r: StepResult)
    ensures r.out.Some? ==> !IsBlank(r.out.value)
    ensures !ev.ContentDelta? ==> r == Stepped(st, None)
  {
    match ev
    case ContentDelta(text) =>
      if HasOpeningTag(text) then Stepped(InReasoningBlock, None)
      else if st == InReasoningBlock && !HasClosingTag(text) then Stepped(InReasoningBlock, None)
      else
        var kept := if st == InReasoningBlock then CutReasoning(text) else text;
        Stepped(Normal, Emit(StripMarkers(kept)))
    case _ => Stepped(st, None)
  }

  /** One turn of the loop body on a raw chunk. */
  function Step(st: FilterState, c: CerebrasChunk): (r: StepResult)
    ensures r.out.Some? ==> !IsBlank(r.out.value) && r.state == Normal
    ensures (FirstDelta(c).None? || Truthy(FirstDelta(c).value.reasoning) || !Truthy(FirstDelta(c).value.content))
              ==> r == Stepped(st, None)
    ensures Classify(c).ContentDelta? && HasOpeningTag(Classify(c).text) ==> r == Stepped(InReasoningBlock, None)
  {
    Transition(st, Classify(c))
  }

  /** The loop over the whole upstream stream, from state `st`. */
  function Run(st: FilterState, cs: seq<CerebrasChunk>): Folded<FilterState, string> {
    Fold(Step, st, cs)
  }

  /** At most one fragment comes out per chunk, and none is blank. */
  lemma RunFragmentsNonBlank(st: FilterState, cs: seq<CerebrasChunk>)
    ensures |Run(st, cs).out| <= |cs|
    ensures forall i :: 0 <= i < |Run(st, cs).out| ==> !IsBlank(Run(st, cs).out[i])
  {
    FoldOutputsSatisfy(Step, (f: string) => !IsBlank(f), st, cs);
  }

  /** The fragments the generator yields: the run from the normal state. */
  function Filter(cs: seq<CerebrasChunk>): (fs: seq<string>)
    ensures |fs| <= |cs|
    ensures forall i :: 0 <= i < |fs| ==> !IsBlank(fs[i])
  {
    RunFragmentsNonBlank(Normal, cs);
    Run(Normal, cs).out
  }

  // ---------------------------------------------------------------------
  // Properties of one step

  /** A truthy `reasoning` field hides the chunk, whatever else it holds,
      and leaves the state alone. */
  lemma ReasoningDeltaDropped(st: FilterState, c: CerebrasChunk)
    requires FirstDelta(c).Some? && Truthy(FirstDelta(c).value.reasoning)
    ensures Step(st, c) == Stepped(st, None)
  {
  }

  /** Chunks without choices, without a delta, or with empty or absent
      content produce nothing and leave the state alone. */
  lemma ContentlessChunkDropped(st: FilterState, c: CerebrasChunk)
    requires FirstDelta(c).None? || !Truthy(FirstDelta(c).value.content)
    ensures Step(st, c) == Stepped(st, None)
  {
  }

  /** A content delta with an opening tag enters the block and is dropped
      whole, from either state, even when it also holds a closing tag. */
  lemma OpeningTagEntersBlock(st: FilterState, c: CerebrasChunk)
    requires Classify(c).ContentDelta? && HasOpeningTag(Classify(c).text)
    ensures Step(st, c) == Stepped(InReasoningBlock, None)
  {
  }

  /** Inside a block, a content delta without a closing tag is dropped and
      the block goes on. */
  lemma UnclosedDeltaDropped(c: CerebrasChunk)
    requires Classify(c).ContentDelta? && !HasClosingTag(Classify(c).text)
    ensures Step(InReasoningBlock, c) == Stepped(InReasoningBlock, None)
  {
  }

  /** Inside a block, a content delta with a closing tag and no opening tag
      ends the block; what survives the reasoning-tag cut and the marker
      strip is emitted when it is not blank. */
  lemma ClosingTagLeavesBlock(c: CerebrasChunk)
    requires Classify(c).ContentDelta?
    requires !HasOpeningTag(Classify(c).text) && HasClosingTag(Classify(c).text)
    ensures Step(InReasoningBlock, c)
            == Stepped(Normal, Emit(StripMarkers(CutReasoning(Classify(c).text))))
  {
  }

  /** Outside a block, a content delta without an opening tag is only
      stripped of markers. */
  lemma NormalDeltaStripped(c: CerebrasChunk)
    requires Classify(c).ContentDelta? && !HasOpeningTag(Classify(c).text)
    ensures Step(Normal, c) == Stepped(Normal, Emit(StripMarkers(Classify(c).text)))
  {
  }

  /** A block closed by `</think>` or `</thinking>` is left as it was by
      the cut, which only recognises the `reasoning` tags: the closing tag
      and the text before it are emitted. */
  lemma ClosingWithoutReasoningTagKeepsText(c: CerebrasChunk)
    requires Classify(c).ContentDelta?
    requires !HasOpeningTag(Classify(c).text) && HasClosingTag(Classify(c).text)
    requires NoReasoningTag(Classify(c).text)
    ensures Step(InReasoningBlock, c)
            == Stepped(Normal, Emit(StripMarkers(Classify(c).text)))
  {
  }

  // ---------------------------------------------------------------------
  // Properties of the whole stream

  /** Filtering is incremental: the stream can be cut anywhere, the second
      part filtered from the state the first part ends in, and the
      fragments joined in order. */
  lemma RunAppend(st: FilterState, a: seq<CerebrasChunk>, b: seq<CerebrasChunk>)
    ensures Run(st, a + b)
            == Folded(Run(Run(st, a).state, b).state, Run(st, a).out + Run(Run(st, a).state, b).out)
  {
    FoldAppend(Step, st, a, b);
  }

  /** A chunk the filter ignores can be removed from anywhere in the
      stream without changing the fragments or the final state. */
  lemma IgnoredChunkIsInvisible(st: FilterState, a: seq<CerebrasChunk>, c: CerebrasChunk, b: seq<CerebrasChunk>)
    requires !Classify(c).ContentDelta?
    ensures Run(st, a + [c] + b) == Run(st, a + b)
  {
    FoldSkipsSilentChunk(Step, st, a, c, b);
  }

  /** Within a block nothing is buffered: as long as no delta carries a
      closing tag every delta is dropped and the block never ends. */
  lemma BlockSwallowsUnclosedDeltas(cs: seq<CerebrasChunk>)
    requires forall i :: 0 <= i < |cs| ==>
               !Classify(cs[i]).ContentDelta? || !HasClosingTag(Classify(cs[i]).text)
    ensures Run(InReasoningBlock, cs) == Folded(InReasoningBlock, [])
  {
    FoldStaysSilent(Step, InReasoningBlock, cs);
  }

  /** A delta that opens and closes a block at once still only opens it:
      from then on every delta is dropped until one carries a closing tag. */
  lemma OneDeltaBlockSilencesRest(st: FilterState, c: CerebrasChunk, rest: seq<CerebrasChunk>)
    requires Classify(c).ContentDelta? && HasOpeningTag(Classify(c).text)
    requires forall i :: 0 <= i < |rest| ==>
               !Classify(rest[i]).ContentDelta? || !HasClosingTag(Classify(rest[i]).text)
    ensures Run(st, [c] + rest) == Folded(InReasoningBlock, [])
  {
    OpeningTagEntersBlock(st, c);
    FoldCons(Step, st, c, rest);
    BlockSwallowsUnclosedDeltas(rest);
  }
}
