/** A stream adapter as a fold: a step function reads one upstream chunk in
    a state and returns the next state and at most one fragment; running it
    over the chunks in order yields the fragment stream. The generator
    bodies of both adapters have this shape. */
module Streams {
  import opened Wrappers

  datatype Stepped<S, F> = Stepped(state: S, out: Option<F>)

  datatype Folded<S, F> = Folded(state: S, out: seq<F>)

  /** Runs `step` over `cs` from state `st`, collecting the fragments. */
  function Fold<S, C, F>(step: (S, C) -> Stepped<S, F>, st: S, cs: seq<C>): (r: Folded<S, F>)
    ensures |r.out| <= |cs|
    decreases |cs|
  {
    if cs == [] then Folded(st, [])
    else
      var x := step(st, cs[0]);
      var rest := Fold(step, x.state, cs[1..]);
      Folded(rest.state, x.out.ToSeq() + rest.out)
  }

  /** The fold on a stream is the step on its first chunk followed by the
      fold on the rest from the state that step leaves. */
  lemma FoldCons<S, C, F>(step: (S, C) -> Stepped<S, F>, st: S, c: C, rest: seq<C>)
    ensures Fold(step, st, [c] + rest)
            == Folded(Fold(step, step(st, c).state, rest).state,
                      step(st, c).out.ToSeq() + Fold(step, step(st, c).state, rest).out)
  {
    assert ([c] + rest)[0] == c && ([c] + rest)[1..] == rest;
  }

  /** Folding is incremental: the stream can be cut anywhere, the second
      part run from the state the first part ends in, and the fragments
      joined in order. */
  lemma {:induction false} FoldAppend<S, C, F>(step: (S, C) -> Stepped<S, F>, st: S, a: seq<C>, b: seq<C>)
    ensures Fold(step, st, a + b)
            == Folded(Fold(step, Fold(step, st, a).state, b).state,
                      Fold(step, st, a).out + Fold(step, Fold(step, st, a).state, b).out)
    decreases |a|
  {
    if a == [] {
      assert a + b == b;
    } else {
      var x := step(st, a[0]);
      var ra := Fold(step, x.state, a[1..]);
      var rb := Fold(step, ra.state, b);
      assert (a + b)[0] == a[0];
      assert (a + b)[1..] == a[1..] + b;
      FoldAppend(step, x.state, a[1..], b);
      assert x.out.ToSeq() + (ra.out + rb.out) == (x.out.ToSeq() + ra.out) + rb.out;
    }
  }

  /** A chunk that leaves every state alone and produces nothing can be
      removed from anywhere in the stream without changing the result. */
  lemma FoldSkipsSilentChunk<S, C, F>(step: (S, C) -> Stepped<S, F>, st: S, a: seq<C>, c: C, b: seq<C>)
    requires forall s :: step(s, c) == Stepped(s, None)
    ensures Fold(step, st, a + [c] + b) == Fold(step, st, a + b)
  {
    assert a + [c] + b == a + ([c] + b);
    FoldAppend(step, st, a, [c] + b);
    FoldAppend(step, st, a, b);
    var mid := Fold(step, st, a).state;
    assert ([c] + b)[0] == c && ([c] + b)[1..] == b;
    assert Fold(step, mid, [c] + b) == Fold(step, mid, b);
  }

  /** A state that every chunk of `cs` keeps, silently, is never left. */
  lemma {:induction false} FoldStaysSilent<S, C, F>(step: (S, C) -> Stepped<S, F>, st: S, cs: seq<C>)
    requires forall i :: 0 <= i < |cs| ==> step(st, cs[i]) == Stepped(st, None)
    ensures Fold(step, st, cs) == Folded(st, [])
    decreases |cs|
  {
    if cs != [] {
      FoldStaysSilent(step, st, cs[1..]);
    }
  }

  /** Every fragment of the stream is one the step can produce: a property
      of all single-step fragments holds of the whole output. */
  lemma {:induction false} FoldOutputsSatisfy<S, C, F>(step: (S, C) -> Stepped<S, F>, ok: F -> bool, st: S, cs: seq<C>)
    requires forall s, c :: step(s, c).out.Some? ==> ok(step(s, c).out.value)
    ensures forall i :: 0 <= i < |Fold(step, st, cs).out| ==> ok(Fold(step, st, cs).out[i])
    decreases |cs|
  {
    if cs != [] {
      var x := step(st, cs[0]);
      FoldOutputsSatisfy(step, ok, x.state, cs[1..]);
    }
  }

  /** A state every chunk keeps while emitting one fragment each turns the
      fold into a plain map from chunks to fragments. */
  lemma {:induction false} FoldIsMap<S, C, F>(step: (S, C) -> Stepped<S, F>, st: S, cs: seq<C>, out: seq<F>)
    requires |out| == |cs|
    requires forall i :: 0 <= i < |cs| ==> step(st, cs[i]) == Stepped(st, Some(out[i]))
    ensures Fold(step, st, cs) == Folded(st, out)
    decreases |cs|
  {
    if cs != [] {
      FoldIsMap(step, st, cs[1..], out[1..]);
      assert out == [out[0]] + out[1..];
    }
  }
}
