/** Runs of a transition system given by a partial step function. */
module Runs {
  import opened Options

  /** The state after a sequence of events, if each of them could happen. */
  function Run<S, E>(step: (S, E) -> Option<S>, s: S, es: seq<E>): Option<S>
    decreases |es|
  {
    if es == [] then Some(s)
    else
      var next := step(s, es[0]);
      if next.None? then None else Run(step, next.value, es[1..])
  }

  /** Some run goes from one state to the other. */
  ghost predicate Leads<S, E(!new)>(step: (S, E) -> Option<S>, s: S, s': S)
  {
    exists es: seq<E> :: Run(step, s, es) == Some(s')
  }

  lemma {:induction false} RunConcat<S, E>(step: (S, E) -> Option<S>, s: S, es: seq<E>, fs: seq<E>)
    requires Run(step, s, es).Some?
    ensures Run(step, s, es + fs) == Run(step, Run(step, s, es).value, fs)
    decreases |es|
  {
    if es == [] {
      assert es + fs == fs;
    } else {
      assert (es + fs)[0] == es[0] && (es + fs)[1..] == es[1..] + fs;
      RunConcat(step, step(s, es[0]).value, es[1..], fs);
    }
  }

  lemma LeadsNowhere<S, E(!new)>(step: (S, E) -> Option<S>, s: S)
    ensures Leads(step, s, s)
  {
    var none: seq<E> := [];
    assert Run(step, s, none) == Some(s);
  }

  /** A run and one more event. */
  lemma Then<S, E(!new)>(step: (S, E) -> Option<S>, s0: S, s: S, e: E)
    requires Leads(step, s0, s) && step(s, e).Some?
    ensures Leads(step, s0, step(s, e).value)
  {
    var s' := step(s, e).value;
    var es: seq<E> :| Run(step, s0, es) == Some(s);
    RunConcat(step, s0, es, [e]);
    assert Run(step, s', []) == Some(s');
    assert Run(step, s0, es + [e]) == Some(s');
  }
}
