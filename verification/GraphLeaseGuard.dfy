/** When the protocol between threads is safe after all (agent/core.py): exactly
    while nobody else is concerned with a graph that a thread decides to close. */
module GraphLeaseGuard {
  import opened Wrappers
  import opened GraphLeaseThreads
  import GraphLease

  // -------------------------------------------------------------- the guard

  /** A thread that has graph `g` or is going to look at it. */
  predicate Concerned(pc: Pc, g: Graph) { pc == Got(g) || pc == Using(g) || WillLook(pc, g) }

  /** The thread is about to decide that graph `g` is to be closed: it counted no
      holder of a replaced graph, or found another graph in the cache. */
  predicate Decides(s: State, t: Thread, g: Graph) {
    (At(s, t) == Counting(g) && Holders(s, g) == 0) || (At(s, t) == Checking(g) && s.agent != Some(g))
  }

  /** Nobody else is concerned with the graph. */
  ghost predicate Alone(s: State, t: Thread, g: Graph) { forall u :: Concerned(At(s, u), g) ==> u == t }

  ghost predicate Guarded(s: State, e: Event) {
    e.move.Advance? ==> forall g: Graph :: Decides(s, e.thread, g) ==> Alone(s, e.thread, g)
  }

  ghost predicate GuardedRuns(s: State, events: seq<Event>, end: State)
    decreases |events|
  {
    if events == [] then end == s
    else Can(s, events[0]) && Guarded(s, events[0]) && GuardedRuns(Next(s, events[0]), events[1..], end)
  }

  /** A graph is in somebody's hands and closed, or was closed twice. */
  ghost predicate Broken(s: State) {
    (exists t: Thread, g: Graph :: At(s, t) == Using(g) && g in s.closes)
    || exists g: Graph :: multiset(s.closes)[g] > 1
  }

  // ------------------------------------------------- what every run keeps

  /** Who is concerned with which graphs, whatever the interleaving. */
  ghost predicate Known(s: State) {
    && (s.agent.Some? ==> s.agent.value < s.built)
    && (forall t: Thread, g: Graph :: Concerned(At(s, t), g) ==> g < s.built)
    && (forall t: Thread, g: Graph :: Replacing(At(s, t), g) ==> s.agent != Some(g))
    && (forall g: Graph :: g in s.closes ==> g < s.built && s.agent != Some(g))
  }

  /** The thread's graph has left the cache for good. */
  predicate Replacing(pc: Pc, g: Graph) { pc == Counting(g) || pc == ClosingReplaced(g) || pc == ClosingReleased(g) }

  lemma OthersStay(s: State, e: Event)
    requires Can(s, e)
    ensures forall u :: u != e.thread ==> At(Next(s, e), u) == At(s, u)
  {
  }

  lemma StepKeepsConcerned(s: State, e: Event, u: Thread, g: Graph)
    requires Inv(s) && Known(s) && Can(s, e) && Concerned(At(Next(s, e), u), g)
    ensures g < Next(s, e).built
    ensures Replacing(At(Next(s, e), u), g) ==> Next(s, e).agent != Some(g)
  {
    OthersStay(s, e);
    if u == e.thread {
      NewConcern(s, e, g);
    }
  }

  lemma StepKeepsClosed(s: State, e: Event, g: Graph)
    requires Inv(s) && Known(s) && Can(s, e) && g in Next(s, e).closes
    ensures g < Next(s, e).built && Next(s, e).agent != Some(g)
  {
    var t, s1 := e.thread, Next(s, e);
    assert g in s.closes || Replacing(At(s, t), g);
    assert Replacing(At(s, t), g) ==> Concerned(At(s, t), g);
    assert g < s.built && s.agent != Some(g);
    assert s1.agent == s.agent || s1.agent == Some(s.built);
  }

  lemma StepKeepsKnown(s: State, e: Event)
    requires Inv(s) && Known(s) && Can(s, e)
    ensures Known(Next(s, e))
  {
    var s1 := Next(s, e);
    assert s1.agent.Some? ==> s1.agent.value < s1.built;
    forall u: Thread, g: Graph | Concerned(At(s1, u), g) ensures g < s1.built { StepKeepsConcerned(s, e, u, g); }
    forall u: Thread, g: Graph | Replacing(At(s1, u), g) ensures s1.agent != Some(g) { StepKeepsConcerned(s, e, u, g); }
    forall g: Graph | g in s1.closes ensures g < s1.built && s1.agent != Some(g) { StepKeepsClosed(s, e, g); }
  }

  lemma {:induction false} RunsKeepKnown(s: State, events: seq<Event>, end: State)
    requires Inv(s) && Known(s) && Runs(s, events, end)
    ensures Inv(end) && Known(end)
    decreases |events|
  {
    if events != [] {
      StepKeepsInv(s, events[0]);
      StepKeepsKnown(s, events[0]);
      RunsKeepKnown(Next(s, events[0]), events[1..], end);
    }
  }

  lemma ReachedIsKnown(events: seq<Event>, s: State)
    requires Runs(INIT, events, s)
    ensures Inv(s) && Known(s)
  {
    assert forall x: Graph :: Users(INIT, x) == {};
    RunsKeepKnown(INIT, events, s);
  }

  // ----------------------------------------------------- enough: the guard

  predicate Closing(pc: Pc, g: Graph) { pc == ClosingReplaced(g) || pc == ClosingReleased(g) }

  /** Nobody is concerned with a closed graph, and whoever closes a graph is the
      only one concerned with it. */
  ghost predicate Apart(s: State, g: Graph) {
    && multiset(s.closes)[g] <= 1
    && (g in s.closes ==> forall t :: !Concerned(At(s, t), g))
    && (forall t :: Closing(At(s, t), g) ==> Alone(s, t, g))
  }

  /** The closing step itself: it was due, and nobody else was concerned. */
  lemma ClosingKeepsApart(s: State, e: Event, g: Graph)
    requires Apart(s, g) && Can(s, e) && e.move.Advance? && Closing(At(s, e.thread), g)
    ensures Apart(Next(s, e), g)
  {
    OthersStay(s, e);
    var t, s1 := e.thread, Next(s, e);
    assert Concerned(At(s, t), g) && g !in s.closes && Alone(s, t, g);
    assert s1.closes == s.closes + [g];
    forall u: Thread ensures !Concerned(At(s1, u), g) {
      if u != t { assert !Concerned(At(s, u), g); }
    }
  }

  /** Any other step: it closes nothing, and brings the graph to nobody while it
      is closed or being closed. */
  lemma OtherStepKeepsApart(s: State, e: Event, g: Graph)
    requires Inv(s) && Known(s) && Apart(s, g) && Can(s, e) && Guarded(s, e)
    requires !(e.move.Advance? && Closing(At(s, e.thread), g))
    ensures Apart(Next(s, e), g)
  {
    OthersStay(s, e);
    ClosesOfOthers(s, e, g);
    var t, s1 := e.thread, Next(s, e);
    forall u: Thread | Concerned(At(s1, u), g) ensures Concerned(At(s, u), g) || (u == t && s.agent == Some(g)) {
      if u == t { NewConcern(s, e, g); }
    }
    forall u: Thread | Closing(At(s1, u), g) ensures Alone(s1, u, g) { ClosingStaysAlone(s, e, g, u); }
  }

  lemma ClosingStaysAlone(s: State, e: Event, g: Graph, u: Thread)
    requires Inv(s) && Known(s) && Apart(s, g) && Can(s, e) && Guarded(s, e)
    requires !(e.move.Advance? && Closing(At(s, e.thread), g)) && Closing(At(Next(s, e), u), g)
    ensures Alone(Next(s, e), u, g)
  {
    OthersStay(s, e);
    var t, s1 := e.thread, Next(s, e);
    if u == t {
      assert Decides(s, t, g) && Alone(s, t, g);
    } else {
      assert Closing(At(s, u), g) && Alone(s, u, g) && Replacing(At(s, u), g);
    }
    forall v: Thread | Concerned(At(s1, v), g) ensures v == u {
      if v == t { NewConcern(s, e, g); }
    }
  }

  lemma GuardedStepKeepsApart(s: State, e: Event, g: Graph)
    requires Inv(s) && Known(s) && Apart(s, g) && Can(s, e) && Guarded(s, e)
    ensures Apart(Next(s, e), g)
  {
    if e.move.Advance? && Closing(At(s, e.thread), g) {
      ClosingKeepsApart(s, e, g);
    } else {
      OtherStepKeepsApart(s, e, g);
    }
  }

  lemma ClosesOfOthers(s: State, e: Event, g: Graph)
    requires Can(s, e) && !(e.move.Advance? && Closing(At(s, e.thread), g))
    ensures multiset(Next(s, e).closes)[g] == multiset(s.closes)[g]
    ensures g in Next(s, e).closes <==> g in s.closes
  {
    var s1 := Next(s, e);
    assert s1.closes == s.closes || (s1.closes == s.closes + [s1.closes[|s.closes|]] && s1.closes[|s.closes|] != g);
  }

  /** A thread comes by a graph only from the cache, where nobody closes it. */
  lemma NewConcern(s: State, e: Event, g: Graph)
    requires Inv(s) && Known(s) && Can(s, e) && Concerned(At(Next(s, e), e.thread), g)
    ensures Concerned(At(s, e.thread), g) || s.agent == Some(g)
  {
  }

  ghost predicate AllApart(s: State) { forall g: Graph :: Apart(s, g) }

  lemma {:induction false} GuardedRunsKeepApart(s: State, events: seq<Event>, end: State)
    requires Inv(s) && Known(s) && AllApart(s) && GuardedRuns(s, events, end)
    ensures AllApart(end)
    decreases |events|
  {
    if events != [] {
      var s1 := Next(s, events[0]);
      forall g: Graph ensures Apart(s1, g) { GuardedStepKeepsApart(s, events[0], g); }
      StepKeepsInv(s, events[0]);
      StepKeepsKnown(s, events[0]);
      GuardedRunsKeepApart(s1, events[1..], end);
    }
  }

  /** Over every run whose decisions meet the guard a graph in somebody's hands is
      never closed, and no graph is closed twice. */
  lemma GuardedRunsAreSafe(events: seq<Event>, end: State, g: Graph)
    requires GuardedRuns(INIT, events, end)
    ensures forall t :: At(end, t) == Using(g) ==> g !in end.closes
    ensures multiset(end.closes)[g] <= 1
  {
    ReachedIsKnown([], INIT);
    GuardedRunsKeepApart(INIT, events, end);
    assert Apart(end, g);
  }

  // ----------------------------------------------------- needed: the guard

  predicate By(events: seq<Event>, t: Thread) { forall i :: 0 <= i < |events| ==> events[i].thread == t }

  lemma Step(s: State, events: seq<Event>, mid: State, t: Thread) returns (more: seq<Event>, end: State)
    requires Runs(s, events, mid) && Can(mid, Event(t, Advance))
    ensures more == events + [Event(t, Advance)] && end == Next(mid, Event(t, Advance)) && Runs(s, more, end)
  {
    Extend(s, events, mid, Event(t, Advance));
    more, end := events + [Event(t, Advance)], Next(mid, Event(t, Advance));
  }

  /** The deciding thread goes through with it: the graph is closed, and nothing
      else has changed. */
  lemma CarryOut(s: State, t: Thread, g: Graph) returns (events: seq<Event>, end: State)
    requires Decides(s, t, g)
    ensures Runs(s, events, end) && |events| == 2 && events[0] == Event(t, Advance)
    ensures end.agent == s.agent && end.holders == s.holders && end.closes == s.closes + [g]
    ensures forall u :: u != t ==> At(end, u) == At(s, u)
  {
    events, end := Step(s, [], s, t);
    assert Closing(At(end, t), g);
    events, end := Step(s, events, end, t);
  }

  lemma HolderExists(s: State, g: Graph) returns (u: Thread)
    requires Inv(s) && Holders(s, g) > 0
    ensures At(s, u) == Using(g)
  {
    assert Holders(s, g) == |Users(s, g)|;
    u :| u in Users(s, g);
  }

  lemma ClosedTwice(s: State, g: Graph)
    requires s.closes != [] && s.closes[|s.closes| - 1] == g && g in s.closes[..|s.closes| - 1]
    ensures Broken(s)
  {
    assert s.closes == s.closes[..|s.closes| - 1] + [g];
    assert multiset(s.closes)[g] > 1;
  }

  /** The other thread's next steps after the graph was closed under it. */
  lemma OtherSuffers(s: State, events: seq<Event>, mid: State, u: Thread, g: Graph)
    returns (more: seq<Event>, end: State)
    requires Runs(s, events, mid) && g in mid.closes && mid.agent != Some(g) && events != []
    requires Concerned(At(mid, u), g) && (At(mid, u) == Counting(g) ==> Holders(mid, g) == 0)
    ensures Runs(s, more, end) && Broken(end) && more != [] && more[0] == events[0]
  {
    more, end := events, mid;
    if At(mid, u) == Counting(g) || At(mid, u) == Checking(g) {
      more, end := Step(s, more, end, u);
      assert Closing(At(end, u), g) && end.closes == mid.closes;
    }
    if Closing(At(end, u), g) {
      more, end := Step(s, more, end, u);
      ClosedTwice(end, g);
    } else if At(end, u) == Got(g) {
      more, end := Step(s, more, end, u);
      assert At(end, u) == Using(g) && g in end.closes;
    }
  }

  /** The guard is the weakest there is: from any reachable state a decision that
      breaks it can be continued to a held graph that is closed, or to a graph
      closed twice. */
  lemma UnguardedCanBreak(before: seq<Event>, s: State, e: Event) returns (events: seq<Event>, end: State)
    requires Runs(INIT, before, s) && Can(s, e) && !Guarded(s, e)
    ensures Runs(s, events, end) && events != [] && events[0] == e && Broken(end)
  {
    ReachedIsKnown(before, s);
    var t := e.thread;
    var g: Graph :| Decides(s, t, g) && !Alone(s, t, g);
    var u :| Concerned(At(s, u), g) && u != t;
    assert At(s, t) == Counting(g) ==> Replacing(At(s, t), g);
    events, end := CarryOut(s, t, g);
    if At(s, u) == Counting(g) && Holders(s, g) > 0 {
      var v := HolderExists(s, g);
      assert At(end, v) == Using(g) && g in end.closes;
    } else {
      events, end := OtherSuffers(s, events, end, u, g);
    }
  }

  // --------------------------------------------- one loop meets the guard

  /** Between two suspensions: neither idle, nor using a graph, nor building. */
  predicate MidWindow(pc: Pc) { !pc.Idle? && !pc.Using? && !pc.Building? }

  /** The discipline of one event loop: a thread in the middle of a window is the
      only one to step. */
  ghost predicate Uninterrupted(s: State, e: Event) { forall u :: MidWindow(At(s, u)) ==> u == e.thread }

  ghost predicate LoopRuns(s: State, events: seq<Event>, end: State)
    decreases |events|
  {
    if events == [] then end == s
    else Can(s, events[0]) && Uninterrupted(s, events[0]) && LoopRuns(Next(s, events[0]), events[1..], end)
  }

  /** One window at a time, and nobody holds a graph whose last hold was just
      dropped. */
  ghost predicate OneWindow(s: State) {
    && (forall t, u :: MidWindow(At(s, t)) && MidWindow(At(s, u)) ==> t == u)
    && (forall t, g: Graph :: At(s, t) == Checking(g) ==> Holders(s, g) == 0)
  }

  lemma StepKeepsOneWindow(s: State, e: Event)
    requires OneWindow(s) && Can(s, e) && Uninterrupted(s, e)
    ensures OneWindow(Next(s, e))
  {
    OthersStay(s, e);
    var t, s1 := e.thread, Next(s, e);
    forall u, g: Graph | At(s1, u) == Checking(g) ensures Holders(s1, g) == 0 {
      assert u == t;
    }
  }

  lemma UninterruptedIsGuarded(s: State, e: Event)
    requires Inv(s) && OneWindow(s) && Can(s, e) && Uninterrupted(s, e)
    ensures Guarded(s, e)
  {
    forall g: Graph, u | Decides(s, e.thread, g) && Concerned(At(s, u), g) ensures u == e.thread {
      assert Holders(s, g) == |Users(s, g)| == 0;
      assert u !in Users(s, g);
    }
  }

  lemma {:induction false} LoopRunsAreGuarded(s: State, events: seq<Event>, end: State)
    requires Inv(s) && OneWindow(s) && LoopRuns(s, events, end)
    ensures GuardedRuns(s, events, end)
    decreases |events|
  {
    if events != [] {
      UninterruptedIsGuarded(s, events[0]);
      StepKeepsInv(s, events[0]);
      StepKeepsOneWindow(s, events[0]);
      LoopRunsAreGuarded(Next(s, events[0]), events[1..], end);
    }
  }

  /** So on one event loop every decision meets the guard, and no held graph is
      closed, none twice. */
  lemma OneLoopIsSafe(events: seq<Event>, end: State)
    requires LoopRuns(INIT, events, end)
    ensures GuardedRuns(INIT, events, end) && !Broken(end)
  {
    ReachedIsKnown([], INIT);
    LoopRunsAreGuarded(INIT, events, end);
    forall g: Graph ensures (forall t :: At(end, t) == Using(g) ==> g !in end.closes) && multiset(end.closes)[g] <= 1 {
      GuardedRunsAreSafe(events, end, g);
    }
  }

  // -------------------------------- the steps of the one-loop model refined

  /** What the threads share, as the one-loop model sees it. */
  function Shared(s: State, loop: int): GraphLease.Cache {
    GraphLease.Cache(s.agent, loop, s.holders, s.closes, s.built)
  }

  ghost predicate Settled(s: State) { forall t :: !MidWindow(At(s, t)) }

  /** `end` is reached from `s` by thread `t` alone, in one window. */
  ghost predicate Window(s: State, t: Thread, events: seq<Event>, end: State) {
    && Runs(s, events, end) && By(events, t) && LoopRuns(s, events, end)
    && Settled(end) && forall u :: u != t ==> At(end, u) == At(s, u)
  }

  lemma {:induction false} AloneIsLoop(s: State, t: Thread, events: seq<Event>, end: State)
    requires Runs(s, events, end) && By(events, t) && forall u :: u != t ==> !MidWindow(At(s, u))
    ensures LoopRuns(s, events, end) && forall u :: u != t ==> At(end, u) == At(s, u)
    decreases |events|
  {
    if events != [] {
      assert events[0].thread == t;
      OthersStay(s, events[0]);
      assert forall i :: 0 <= i < |events[1..]| ==> events[1..][i] == events[i + 1];
      AloneIsLoop(Next(s, events[0]), t, events[1..], end);
    }
  }

  lemma Begin(s: State, e: Event) returns (events: seq<Event>, end: State)
    requires Can(s, e)
    ensures events == [e] && end == Next(s, e) && Runs(s, events, end)
  {
    events, end := [e], Next(s, e);
    assert events[1..] == [];
  }

  /** Leasing the cached graph: found, returned and held in one window. */
  lemma LeaseIsOneWindow(s: State, t: Thread, loop: int) returns (events: seq<Event>, end: State)
    requires Settled(s) && Can(s, Event(t, LeaseCached))
    ensures Window(s, t, events, end) && At(end, t) == Using(s.agent.value)
    ensures Shared(end, loop) == GraphLease.Hold(Shared(s, loop), s.agent.value)
  {
    events, end := Begin(s, Event(t, LeaseCached));
    events, end := Step(s, events, end, t);
    AloneIsLoop(s, t, events, end);
  }

  /** The end of a build: swapped, the old graph counted and perhaps closed, the
      new one returned and held in one window. */
  lemma BuildEndIsOneWindow(s: State, t: Thread, loop: int) returns (events: seq<Event>, end: State)
    requires Settled(s) && At(s, t) == Building(s.agent) && (s.agent.Some? ==> s.agent.value < s.built)
    ensures Window(s, t, events, end) && At(end, t) == Using(s.built)
    ensures Shared(end, loop) == GraphLease.Hold(GraphLease.Replace(Shared(s, loop), loop), s.built)
  {
    events, end := SwapAndClose(s, t, loop);
    events, end := Step(s, events, end, t);
    events, end := Step(s, events, end, t);
    AloneIsLoop(s, t, events, end);
  }

  lemma SwapAndClose(s: State, t: Thread, loop: int) returns (events: seq<Event>, end: State)
    requires At(s, t) == Building(s.agent) && (s.agent.Some? ==> s.agent.value < s.built)
    ensures Runs(s, events, end) && By(events, t) && At(end, t) == Returning && end.agent == Some(s.built)
    ensures Shared(end, loop) == GraphLease.Replace(Shared(s, loop), loop)
  {
    events, end := Begin(s, Event(t, Advance));
    if At(end, t).Counting? {
      events, end := Step(s, events, end, t);
      if At(end, t).ClosingReplaced? { events, end := Step(s, events, end, t); }
    }
  }

  /** The release: the hold dropped, and the graph closed when it was the last one
      and the cache holds another, in one window. */
  lemma ReleaseIsOneWindow(s: State, t: Thread, g: Graph, loop: int) returns (events: seq<Event>, end: State)
    requires Settled(s) && At(s, t) == Using(g)
    ensures Window(s, t, events, end) && At(end, t) == Idle
    ensures Shared(end, loop) == GraphLease.Release(Shared(s, loop), g)
  {
    events, end := Begin(s, Event(t, Advance));
    if At(end, t).Checking? {
      events, end := Step(s, events, end, t);
      if At(end, t).ClosingReleased? { events, end := Step(s, events, end, t); }
    }
    AloneIsLoop(s, t, events, end);
  }
}
