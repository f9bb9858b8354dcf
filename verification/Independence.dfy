/** Exactly which orderings between two steps the scheduler guarantees: those the graph demands. */
module Independence {
  import opened Collections
  import opened Graphs
  import opened Scheduler

  /** Nothing has gone wrong, and `x` has no output yet. */
  ghost predicate Calm<O, E>(s: State<O, E>, x: StepId) {
    && s.stop.None? && !s.cancelled && !s.expired && s.failures == [] && s.notCalled == {} && x !in s.outputs
  }

  ghost predicate CalmRun<O, E>(g: Graph, x: StepId, states: seq<State<O, E>>, events: seq<Event<O, E>>) {
    Run(g, |g|, states, events) && Calm(states[|events|], x)
  }

  lemma RoomForOneMore<O, E>(g: Graph, s: State<O, E>, y: StepId)
    requires Inv(g, |g|, s) && y in g && y !in Dispatched(s)
    ensures |s.inFlight| < |g|
  {
    forall x | x in s.inFlight ensures x in g.Keys - {y} {
      assert OneFate(s, x);
      var i :| 0 <= i < |s.calls| && Order(s.calls)[i] == x;
      assert CallSoundAt(g, s.outputs, s.calls, i);
    }
    SubsetCount(s.inFlight, g.Keys - {y});
    assert g.Keys == (g.Keys - {y}) + {y} && |g.Keys| == |g|;
  }

  lemma AncestorOfNeed(g: Graph, z: StepId, d: StepId, y: StepId)
    requires y in g && d in g && d in g[y]
    ensures Ancestor(g, d, y)
    ensures Ancestor(g, z, d) ==> Ancestor(g, z, y)
  {
    assert Walk(g, [y, d]);
    if Ancestor(g, z, d) {
      var p: seq<StepId> :| Walk(g, p) && |p| > 1 && p[0] == d && p[|p| - 1] == z;
      assert Walk(g, [y] + p);
    }
  }

  /** When nothing is waiting, an undispatched step is held up by an ancestor in flight. */
  lemma {:induction false} HeldUp<O, E>(g: Graph, order: seq<StepId>, s: State<O, E>, x: StepId, i: nat)
    returns (z: StepId)
    requires Greedy(g, order) && Elements(order) == g.Keys && i < |order|
    requires Inv(g, |g|, s) && Calm(s, x) && Waiting(g, s) == {} && order[i] !in Dispatched(s)
    ensures z in s.inFlight && Ancestor(g, z, order[i])
  {
    var y := order[i];
    assert y in Elements(order);
    assert y !in Waiting(g, s);
    var d := Outsider(g[y], s.outputs.Keys);
    GreedySound(g, order);
    assert d in Elements(order[..i]);
    var k :| 0 <= k < i && order[..i][k] == d;
    assert d == order[k] && d in Elements(order) && OneFate(s, d);
    if d in Dispatched(s) {
      assert FailedSteps(s.failures) == [];
      AncestorOfNeed(g, d, d, y);
      z := d;
    } else {
      z := HeldUp(g, order, s, x, k);
      AncestorOfNeed(g, z, d, y);
    }
  }

  /** With room for every step, a step can be dispatched while one it does not depend on, directly or
      transitively, still has no output. */
  lemma {:induction false} DispatchWithout<O, E>(g: Graph, order: seq<StepId>, x: StepId, i: nat, o: O,
                                                 states: seq<State<O, E>>, events: seq<Event<O, E>>)
    returns (states': seq<State<O, E>>, events': seq<Event<O, E>>)
    requires Greedy(g, order) && Elements(order) == g.Keys && i < |order| && !Ancestor(g, x, order[i])
    requires CalmRun(g, x, states, events)
    ensures CalmRun(g, x, states', events') && order[i] in Dispatched(states'[|events'|])
    decreases Remaining(g, states[|events|])
  {
    var s, y := states[|events|], order[i];
    RunKeepsInv(g, |g|, states, events, |events|);
    if y in Dispatched(s) {
      states', events' := states, events;
    } else {
      var e: Event<O, E>;
      if Waiting(g, s) != {} {
        assert y in Elements(order);
        RoomForOneMore(g, s, y);
        e := Dispatch;
      } else {
        var z := HeldUp(g, order, s, x, i);
        e := SettleOk(z, o);
      }
      assert Calm(After(g, |g|, s, e), x);
      RunExtends(g, |g|, states, events, e);
      EventsRunOut(g, |g|, s, e, After(g, |g|, s, e));
      states', events' := DispatchWithout(g, order, x, i, o, states + [After(g, |g|, s, e)], events + [e]);
    }
  }

  /** Whenever `y` has been dispatched, `x` has an output. */
  ghost predicate Waits<O, E>(s: State<O, E>, x: StepId, y: StepId) {
    y in Dispatched(s) ==> x in s.outputs
  }

  ghost predicate AlwaysWaits<O(!new), E(!new)>(g: Graph, x: StepId, y: StepId) {
    forall max: nat, states: seq<State<O, E>>, events: seq<Event<O, E>>, i: nat
      | Run(g, max, states, events) && i < |states| ::
      Waits(states[i], x, y)
  }

  /** In every run, under every bound, one step waits for another exactly when the other is among its
      direct or transitive dependencies: the runner orders what the graph orders, and nothing else. */
  lemma WaitsIffAncestor<O(!new), E(!new)>(g: Graph, order: seq<StepId>, x: StepId, y: StepId, o: O)
    requires Greedy(g, order) && Elements(order) == g.Keys && x in g && y in g
    ensures AlwaysWaits<O, E>(g, x, y) <==> Ancestor(g, x, y)
  {
    if Ancestor(g, x, y) {
      var p: seq<StepId> :| Walk(g, p) && |p| > 1 && p[0] == y && p[|p| - 1] == x;
      forall max: nat, states: seq<State<O, E>>, events: seq<Event<O, E>>, i: nat
        | Run(g, max, states, events) && i < |states|
        ensures Waits(states[i], x, y)
      {
        RunKeepsInv(g, max, states, events, i);
        if y in Dispatched(states[i]) {
          AncestorsComplete(g, max, states[i], p);
        }
      }
    } else {
      var i := PositionOf(order, y);
      var start: State<O, E> := State([], {}, map[], [], {}, None, false, false);
      var states, events := DispatchWithout(g, order, x, i, o, [start], []);
      assert !Waits(states[|events|], x, y);
    }
  }

  lemma PositionOf(order: seq<StepId>, y: StepId) returns (i: nat)
    requires y in Elements(order)
    ensures i < |order| && order[i] == y
  {
    i :| i < |order| && order[i] == y;
  }
}
