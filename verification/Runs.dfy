/** Runs of a labelled transition system. `next` gives the state after an event, or nothing where the event cannot
    happen. The last event of a run is the last of its trace. */
module Runs {
  import opened Wrappers

  predicate Fires<S, E>(next: (S, E) -> Option<S>, start: S, trace: seq<E>)
    decreases |trace|, 0
  {
    trace == [] ||
      var n := |trace| - 1;
      Fires(next, start, trace[..n]) && next(Run(next, start, trace[..n]), trace[n]).Some?
  }

  function Run<S, E>(next: (S, E) -> Option<S>, start: S, trace: seq<E>): S
    requires Fires(next, start, trace)
    decreases |trace|, 1
  {
    if trace == [] then start
    else next(Run(next, start, trace[..|trace| - 1]), trace[|trace| - 1]).value
  }

  lemma Snoc<S, E>(next: (S, E) -> Option<S>, start: S, trace: seq<E>, e: E)
    ensures Fires(next, start, trace + [e]) <==>
      Fires(next, start, trace) && next(Run(next, start, trace), e).Some?
    ensures Fires(next, start, trace + [e]) ==>
      Run(next, start, trace + [e]) == next(Run(next, start, trace), e).value
  {
    assert (trace + [e])[..|trace|] == trace;
  }

  /** A run that goes on from where another one ended. */
  lemma {:induction false} Concat<S, E>(next: (S, E) -> Option<S>, start: S, t: seq<E>, u: seq<E>)
    ensures Fires(next, start, t + u) <==> Fires(next, start, t) && Fires(next, Run(next, start, t), u)
    ensures Fires(next, start, t + u) ==> Run(next, start, t + u) == Run(next, Run(next, start, t), u)
    decreases |u|
  {
    if u == [] {
      assert t + u == t;
    } else {
      var n := |u| - 1;
      Concat(next, start, t, u[..n]);
      Snoc(next, start, t + u[..n], u[n]);
      assert t + u == t + u[..n] + [u[n]];
    }
  }

  /** What holds at the start and is kept by every step holds at the end of every run. */
  lemma {:induction false} Invariant<S(!new), E(!new)>(
      next: (S, E) -> Option<S>, inv: S -> bool, start: S, trace: seq<E>)
    requires inv(start)
    requires forall s, e :: inv(s) && next(s, e).Some? ==> inv(next(s, e).value)
    requires Fires(next, start, trace)
    ensures inv(Run(next, start, trace))
  {
    if trace != [] {
      Invariant(next, inv, start, trace[..|trace| - 1]);
    }
  }
}
