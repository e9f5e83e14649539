/** The Groq adapter (services/groq.ts): messages go upstream as they are,
    and every upstream chunk becomes exactly one fragment, possibly empty. */
module Groq {
  import opened Wrappers
  import opened Chat

  const DefaultModel: string := "moonshotai/kimi-k2-instruct-0905"

  /** The streaming request the adapter sends; the sampling parameters,
      token limit and stop setting are fixed values not modelled here. */
  datatype GroqRequest = GroqRequest(messages: seq<ChatMessage>, model: string, stream: bool)

  function BuildRequest(messages: seq<ChatMessage>, hint: Option<string>): (r: GroqRequest)
    ensures r.messages == messages
    ensures r.stream
    ensures r.model != ""
    ensures hint.Some? && hint.value != "" ==> r.model == hint.value
    ensures hint.None? || hint.value == "" ==> r.model == DefaultModel
  {
    GroqRequest(messages, ChooseModel(hint, DefaultModel), true)
  }

  /** A raw item of the upstream stream; the SDK always supplies the
      `choices` array, which may be empty. */
  datatype GroqChunk = GroqChunk(choices: seq<Choice>)

  /** `choices[0]?.delta?.content || ''`. */
  function Fragment(c: GroqChunk): (f: string)
    ensures f != "" ==> |c.choices| > 0 && c.choices[0].delta.Some?
                        && c.choices[0].delta.value.content == Some(f)
  {
    if |c.choices| > 0 && c.choices[0].delta.Some? then
      c.choices[0].delta.value.content.GetOr("")
    else ""
  }

  /** The fragment is empty exactly when the chunk carries no non-empty
      content in its first choice; otherwise it is that content. */
  lemma FragmentIsContent(c: GroqChunk)
    ensures Fragment(c) == "" <==>
              (|c.choices| == 0 || c.choices[0].delta.None? || !Truthy(c.choices[0].delta.value.content))
  {
  }

  /** The generator: one fragment per chunk, in order. */
  function Stream(cs: seq<GroqChunk>): (fs: seq<string>)
    ensures |fs| == |cs|
    ensures forall i :: 0 <= i < |cs| ==> fs[i] == Fragment(cs[i])
  {
    if cs == [] then [] else [Fragment(cs[0])] + Stream(cs[1..])
  }

  /** The stream maps over concatenation: each part of the input streams on
      its own. */
  lemma {:induction false} StreamAppend(a: seq<GroqChunk>, b: seq<GroqChunk>)
    ensures Stream(a + b) == Stream(a) + Stream(b)
    decreases |a|
  {
    if a == [] {
      assert a + b == b;
    } else {
      assert (a + b)[0] == a[0];
      assert (a + b)[1..] == a[1..] + b;
      StreamAppend(a[1..], b);
    }
  }

  /** Empty fragments do reach the caller: a chunk with an empty `choices`
      array yields "". */
  lemma EmptyFragmentPassesThrough(cs: seq<GroqChunk>)
    requires exists i :: 0 <= i < |cs| && cs[i].choices == []
    ensures "" in Stream(cs)
  {
    var i :| 0 <= i < |cs| && cs[i].choices == [];
    assert Stream(cs)[i] == "";
  }
}
