/** Dispatching a sequence of actions through a reducer, left to right, as a
    Redux store does. */
module Traces {

  function Run<S, A>(step: (S, A) -> S, s: S, acts: seq<A>): S
    decreases |acts|
  {
    if |acts| == 0 then s else Run(step, step(s, acts[0]), acts[1..])
  }

  /** Dispatching one more action after a trace is one more reducer step. */
  lemma {:induction false} RunSnoc<S, A>(step: (S, A) -> S, s: S, acts: seq<A>, a: A)
    ensures Run(step, s, acts + [a]) == step(Run(step, s, acts), a)
    decreases |acts|
  {
    if |acts| == 0 {
      assert acts + [a] == [a];
      assert Run(step, step(s, a), []) == step(s, a);
    } else {
      assert (acts + [a])[1..] == acts[1..] + [a];
      RunSnoc(step, step(s, acts[0]), acts[1..], a);
    }
  }
}
