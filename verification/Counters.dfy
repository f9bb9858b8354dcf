/** Dependency counters, as both the compiler and the scheduler keep them. */
module Counters {
  import opened Collections
  import opened Graphs

  ghost predicate Counts(g: Graph, done: set<StepId>, remaining: map<StepId, nat>) {
    remaining.Keys == g.Keys && forall s :: CountAt(g, done, remaining, s)
  }

  ghost predicate CountAt(g: Graph, done: set<StepId>, remaining: map<StepId, nat>, s: StepId) {
    s in g && s in remaining ==> remaining[s] == |g[s] - done|
  }

  ghost predicate Lists(g: Graph, outgoing: map<StepId, seq<StepId>>) {
    outgoing.Keys == g.Keys && forall d :: ListsAt(g, outgoing, d)
  }

  ghost predicate ListsAt(g: Graph, outgoing: map<StepId, seq<StepId>>, d: StepId) {
    d in g && d in outgoing ==> ListsSuccessors(g, d, outgoing[d])
  }

  ghost predicate ListsSuccessors(g: Graph, d: StepId, successors: seq<StepId>) {
    Ascends(successors) && Elements(successors) == Successors(g, d)
  }

  /** Members of `among` with no dependency outside `done`. */
  ghost function Unlocked(g: Graph, done: set<StepId>, among: set<StepId>): set<StepId> {
    set s | s in among && s in g && g[s] <= done
  }

  /** `ready'` adds the successors of `step` that `done` unlocks. */
  ghost predicate Admits(g: Graph, done: set<StepId>, step: StepId, ready: set<StepId>, ready': set<StepId>) {
    ready' == ready + Unlocked(g, done, Successors(g, step))
  }

  /** Counters of `seen` steps already account for `step`; the others do not yet. */
  ghost predicate PartlyCounted(g: Graph, done: set<StepId>, step: StepId, seen: set<StepId>,
                                remaining: map<StepId, nat>) {
    && remaining.Keys == g.Keys
    && forall s :: CountAt(g, if s in seen then done + {step} else done, remaining, s)
  }

  /** How far a release has got: the first `i` successors are counted and, if unlocked, ready. */
  ghost predicate Releasing(g: Graph, done: set<StepId>, step: StepId, successors: seq<StepId>, i: nat,
                            ready: set<StepId>, remaining': map<StepId, nat>, ready': set<StepId>) {
    && i <= |successors|
    && PartlyCounted(g, done, step, Elements(successors[..i]), remaining')
    && ready' == ready + Unlocked(g, done + {step}, Elements(successors[..i]))
  }

  /** Decrement the counter of every successor of a finished step, admitting those that reach zero.
      `nat` counters make an underflow a verification error. */
  method ReleaseSuccessors(ghost g: Graph, ghost done: set<StepId>, step: StepId,
                           outgoing: map<StepId, seq<StepId>>, remaining: map<StepId, nat>, ready: set<StepId>)
    returns (remaining': map<StepId, nat>, ready': set<StepId>)
    requires step in g && step !in done
    requires Counts(g, done, remaining) && Lists(g, outgoing)
    ensures Counts(g, done + {step}, remaining')
    ensures Admits(g, done + {step}, step, ready, ready')
  {
    remaining', ready' := remaining, ready;
    var successors := outgoing[step];
    assert ListsAt(g, outgoing, step);
    for i := 0 to |successors|
      invariant Releasing(g, done, step, successors, i, ready, remaining', ready')
    {
      CountNext(g, done, step, successors, i, ready, remaining', ready');
      var s := successors[i];
      remaining' := remaining'[s := remaining'[s] - 1];
      if remaining'[s] == 0 {
        ready' := ready' + {s};
      }
    }
    ReleaseEnds(g, done, step, successors, ready, remaining', ready');
  }

  lemma ReleaseEnds(g: Graph, done: set<StepId>, step: StepId, successors: seq<StepId>, ready: set<StepId>,
                    remaining': map<StepId, nat>, ready': set<StepId>)
    requires Releasing(g, done, step, successors, |successors|, ready, remaining', ready')
    requires ListsSuccessors(g, step, successors)
    ensures Counts(g, done + {step}, remaining') && Admits(g, done + {step}, step, ready, ready')
  {
    assert successors[..|successors|] == successors;
    AllCounted(g, done, step, remaining');
  }

  lemma CountNext(g: Graph, done: set<StepId>, step: StepId, successors: seq<StepId>, i: nat,
                  ready: set<StepId>, remaining': map<StepId, nat>, ready': set<StepId>)
    requires Releasing(g, done, step, successors, i, ready, remaining', ready')
    requires step !in done && ListsSuccessors(g, step, successors) && i < |successors|
    ensures successors[i] in remaining' && remaining'[successors[i]] > 0
    ensures var s := successors[i];
      var left := remaining'[s] - 1;
      Releasing(g, done, step, successors, i + 1, ready, remaining'[s := left],
                if left == 0 then ready' + {s} else ready')
  {
    NextSuccessor(g, step, successors, i);
    CountOne(g, done, step, Elements(successors[..i]), remaining', successors[i]);
  }

  lemma NextSuccessor(g: Graph, step: StepId, successors: seq<StepId>, i: nat)
    requires ListsSuccessors(g, step, successors) && i < |successors|
    ensures successors[i] in Successors(g, step) && successors[i] !in Elements(successors[..i])
    ensures Elements(successors[..i + 1]) == Elements(successors[..i]) + {successors[i]}
  {
    assert successors[i] in Elements(successors);
    assert successors[..i + 1] == successors[..i] + [successors[i]];
    ElementsAppend(successors[..i], successors[i]);
  }

  lemma CountOne(g: Graph, done: set<StepId>, step: StepId, seen: set<StepId>, remaining: map<StepId, nat>, s: StepId)
    requires PartlyCounted(g, done, step, seen, remaining)
    requires step !in done && s in Successors(g, step) && s !in seen
    ensures remaining[s] > 0
    ensures PartlyCounted(g, done, step, seen + {s}, remaining[s := remaining[s] - 1])
    ensures Unlocked(g, done + {step}, seen + {s})
         == Unlocked(g, done + {step}, seen) + (if remaining[s] == 1 then {s} else {})
  {
    assert CountAt(g, done, remaining, s);
    assert g[s] - done == (g[s] - (done + {step})) + {step};
    ZeroLeft(g[s], done + {step});
    var remaining' := remaining[s := remaining[s] - 1];
    forall x ensures CountAt(g, if x in seen + {s} then done + {step} else done, remaining', x) {
      assert CountAt(g, if x in seen then done + {step} else done, remaining, x);
    }
  }

  lemma AllCounted(g: Graph, done: set<StepId>, step: StepId, remaining: map<StepId, nat>)
    requires PartlyCounted(g, done, step, Successors(g, step), remaining)
    ensures Counts(g, done + {step}, remaining)
  {
    forall s ensures CountAt(g, done + {step}, remaining, s) {
      assert CountAt(g, if s in Successors(g, step) then done + {step} else done, remaining, s);
      if s in g && step !in g[s] {
        assert g[s] - (done + {step}) == g[s] - done;
      }
    }
  }

  lemma ZeroLeft(needs: set<StepId>, done: set<StepId>)
    ensures |needs - done| == 0 <==> needs <= done
  {
    if |needs - done| == 0 {
      assert forall x | x in needs :: x in needs - done || x in done;
    }
  }
}
