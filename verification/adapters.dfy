/** How the two adapters compare on the same upstream stream. */
module Adapters {
  import opened Wrappers
  import opened Text
  import opened Chat
  import opened Streams
  import Cerebras
  import Groq
  import Markers

  /** The same raw chunk as the Cerebras SDK delivers it. */
  function AsCerebras(g: Groq.GroqChunk): Cerebras.CerebrasChunk {
    Cerebras.CerebrasChunk(Some(g.choices))
  }

  /** A chunk both adapters treat alike: no reasoning field, and content
      that is not blank, opens no reasoning block and holds no `@`. */
  predicate Plain(g: Groq.GroqChunk) {
    var f := Groq.Fragment(g);
    && |g.choices| > 0 && g.choices[0].delta.Some?
    && !Truthy(g.choices[0].delta.value.reasoning)
    && !IsBlank(f)
    && !Cerebras.HasOpeningTag(f)
    && '@' !in f
  }

  /** A plain chunk goes through the filter untouched and leaves it in the
      normal state. */
  lemma PlainStep(g: Groq.GroqChunk)
    requires Plain(g)
    ensures Cerebras.Step(Cerebras.Normal, AsCerebras(g))
            == Stepped(Cerebras.Normal, Some(Groq.Fragment(g)))
  {
    var f := Groq.Fragment(g);
    assert Cerebras.Classify(AsCerebras(g)) == Cerebras.ContentDelta(f);
    Markers.StripWithoutAtIsIdentity(f);
  }

  /** On a stream of plain chunks the reasoning filter is invisible: the
      Cerebras adapter yields exactly what the Groq adapter yields. */
  lemma PlainStreamsAgree(gs: seq<Groq.GroqChunk>)
    requires forall i :: 0 <= i < |gs| ==> Plain(gs[i])
    ensures Cerebras.Run(Cerebras.Normal, seq(|gs|, i requires 0 <= i < |gs| => AsCerebras(gs[i])))
            == Folded(Cerebras.Normal, Groq.Stream(gs))
  {
    var cs := seq(|gs|, i requires 0 <= i < |gs| => AsCerebras(gs[i]));
    var fs := Groq.Stream(gs);
    forall i | 0 <= i < |cs|
      ensures Cerebras.Step(Cerebras.Normal, cs[i]) == Stepped(Cerebras.Normal, Some(fs[i]))
    {
      PlainStep(gs[i]);
    }
    FoldIsMap(Cerebras.Step, Cerebras.Normal, cs, fs);
  }
}
