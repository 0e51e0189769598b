/** The same protocol between threads (agent/core.py): `release_agent` drops the
    holders lock before it looks at the cache, and a rebuild counts the holders
    after it has released the build lock. Every such gap is a step of its own. */
module GraphLeaseThreads {
  import opened Wrappers

  type Graph = nat
  type Thread = nat

  datatype Pc =
    | Idle
    | Building(previous: Option<Graph>) // holds the build lock
    | Counting(graph: Graph)            // swapped; about to count the holders of the replaced graph
    | ClosingReplaced(graph: Graph)     // counted none
    | Returning                         // about to return whatever the cache holds
    | Got(graph: Graph)                 // returned, not yet held
    | Using(graph: Graph)               // held
    | Checking(graph: Graph)            // dropped the last hold; about to read the cache
    | ClosingReleased(graph: Graph)     // found another graph there

  datatype State = State(agent: Option<Graph>, holders: map<Graph, nat>, closes: seq<Graph>, built: nat,
                         threads: map<Thread, Pc>)

  /** `Drop` is a caller that asked for a graph without a lease. */
  datatype Move = LeaseCached | BeginBuild | FailBuild | Drop | Advance
  datatype Event = Event(thread: Thread, move: Move)

  const INIT: State := State(None, map[], [], 0, map[])

  function At(s: State, t: Thread): Pc { if t in s.threads then s.threads[t] else Idle }
  function Holders(s: State, g: Graph): nat { if g in s.holders then s.holders[g] else 0 }
  function Go(s: State, t: Thread, pc: Pc): State { s.(threads := s.threads[t := pc]) }

  /** The build lock is free. */
  predicate LockFree(s: State) { forall t :: t in s.threads ==> !s.threads[t].Building? }

  predicate Can(s: State, e: Event) {
    match e.move
    case LeaseCached => At(s, e.thread).Idle? && LockFree(s) && s.agent.Some?
    case BeginBuild => At(s, e.thread).Idle? && LockFree(s)
    case FailBuild => At(s, e.thread).Building?
    case Drop => At(s, e.thread).Got?
    case Advance => !At(s, e.thread).Idle? && (At(s, e.thread).Returning? ==> s.agent.Some?)
  }

  function Next(s: State, e: Event): State
    requires Can(s, e)
  {
    var t := e.thread;
    match e.move
    case LeaseCached => Go(s, t, Got(s.agent.value))
    case BeginBuild => Go(s, t, Building(s.agent))
    case FailBuild => Go(s, t, Idle)
    case Drop => Go(s, t, Idle)
    case Advance =>
      match At(s, t)
      case Building(previous) =>
        Go(s, t, if previous.Some? then Counting(previous.value) else Returning)
        .(agent := Some(s.built), built := s.built + 1)
      case Counting(g) => Go(s, t, if Holders(s, g) == 0 then ClosingReplaced(g) else Returning)
      case ClosingReplaced(g) => Go(s, t, Returning).(closes := s.closes + [g])
      case Returning => Go(s, t, Got(s.agent.value))
      case Got(g) => Go(s, t, Using(g)).(holders := s.holders[g := Holders(s, g) + 1])
      case Using(g) =>
        if Holders(s, g) > 1 then Go(s, t, Idle).(holders := s.holders[g := Holders(s, g) - 1])
        else Go(s, t, Checking(g)).(holders := s.holders - {g})
      case Checking(g) => Go(s, t, if s.agent == Some(g) then Idle else ClosingReleased(g))
      case ClosingReleased(g) => Go(s, t, Idle).(closes := s.closes + [g])
  }

  ghost predicate Runs(s: State, events: seq<Event>, end: State)
    decreases |events|
  {
    if events == [] then end == s
    else Can(s, events[0]) && Runs(Next(s, events[0]), events[1..], end)
  }

  // ------------------------------------------------------------ never leaked

  function Users(s: State, g: Graph): set<Thread> { set t | t in s.threads && s.threads[t] == Using(g) }

  /** A thread that is still going to look at graph `g`. */
  predicate WillLook(pc: Pc, g: Graph) {
    pc == Counting(g) || pc == ClosingReplaced(g) || pc == Checking(g) || pc == ClosingReleased(g)
  }

  ghost predicate Inv(s: State) {
    && (forall g: Graph :: Holders(s, g) == |Users(s, g)|)
    && (forall t :: At(s, t).Building? ==> At(s, t).previous == s.agent)
    && (forall t, u :: At(s, t).Building? && At(s, u).Building? ==> t == u)
    && (forall g: Graph :: g < s.built ==> LookedAfter(s, g))
  }

  ghost predicate LookedAfter(s: State, g: Graph) {
    s.agent == Some(g) || g in s.closes || Holders(s, g) > 0 || exists t :: WillLook(At(s, t), g)
  }

  lemma UsersAfterMove(s: State, s1: State, t: Thread, g: Graph)
    requires s1.threads == s.threads[t := At(s1, t)]
    ensures |Users(s1, g)| == |Users(s, g)|
            - (if At(s, t) == Using(g) then 1 else 0) + (if At(s1, t) == Using(g) then 1 else 0)
  {
    var rest := Users(s, g) - {t};
    assert Users(s, g) == if At(s, t) == Using(g) then rest + {t} else rest;
    assert Users(s1, g) == if At(s1, t) == Using(g) then rest + {t} else rest;
  }

  lemma HoldersAfterMove(s: State, e: Event, g: Graph)
    requires Can(s, e)
    ensures var s1, t := Next(s, e), e.thread;
            s1.threads == s.threads[t := At(s1, t)]
            && (Holders(s, g) > 0 || At(s, t) != Using(g) ==>
                  Holders(s1, g) == Holders(s, g)
                    - (if At(s, t) == Using(g) then 1 else 0) + (if At(s1, t) == Using(g) then 1 else 0))
  {
  }

  lemma StepKeepsUsers(s: State, e: Event, g: Graph)
    requires Inv(s) && Can(s, e)
    ensures Holders(Next(s, e), g) == |Users(Next(s, e), g)|
  {
    assert Holders(s, g) == |Users(s, g)|;
    if At(s, e.thread) == Using(g) { assert e.thread in Users(s, g); }
    HoldersAfterMove(s, e, g);
    UsersAfterMove(s, Next(s, e), e.thread, g);
  }

  lemma StepKeepsLookedAfter(s: State, e: Event, g: Graph)
    requires Inv(s) && Can(s, e) && g < Next(s, e).built
    ensures LookedAfter(Next(s, e), g)
  {
    var t, s1 := e.thread, Next(s, e);
    assert g < s.built ==> LookedAfter(s, g);
    if !(WillLook(At(s1, t), g) || s1.agent == Some(g) || g in s1.closes || Holders(s1, g) > 0) {
      OthersLook(s, e, g);
    }
  }

  /** When the moving thread has nothing more to do with an unheld, uncached graph,
      somebody else had. */
  lemma OthersLook(s: State, e: Event, g: Graph)
    requires Inv(s) && Can(s, e) && g < s.built && LookedAfter(s, g)
    requires var s1 := Next(s, e);
             !WillLook(At(s1, e.thread), g) && s1.agent != Some(g) && g !in s1.closes && Holders(s1, g) == 0
    ensures exists u :: WillLook(At(Next(s, e), u), g)
  {
    NothingToLose(s, e, g);
    NotItsHolder(s, e, g);
    var u :| WillLook(At(s, u), g);
    assert u != e.thread && At(Next(s, e), u) == At(s, u);
  }

  /** It has not taken the graph from the cache, nor closed it, by this step. */
  lemma NothingToLose(s: State, e: Event, g: Graph)
    requires Inv(s) && Can(s, e)
    requires var s1 := Next(s, e); !WillLook(At(s1, e.thread), g) && s1.agent != Some(g) && g !in s1.closes
    ensures s.agent != Some(g) && g !in s.closes
  {
  }

  /** Nor was it the last to hold it, or about to look at it. */
  lemma NotItsHolder(s: State, e: Event, g: Graph)
    requires Inv(s) && Can(s, e) && s.agent != Some(g) && g !in s.closes
    requires var s1 := Next(s, e); !WillLook(At(s1, e.thread), g) && g !in s1.closes && Holders(s1, g) == 0
    ensures Holders(s, g) == 0 && !WillLook(At(s, e.thread), g)
  {
  }

  lemma StepKeepsInv(s: State, e: Event)
    requires Inv(s) && Can(s, e)
    ensures Inv(Next(s, e))
  {
    var t, s1 := e.thread, Next(s, e);
    assert forall u :: u != t ==> At(s1, u) == At(s, u);
    assert LockFree(s) ==> forall u :: !At(s, u).Building?;
    forall g: Graph ensures Holders(s1, g) == |Users(s1, g)| { StepKeepsUsers(s, e, g); }
    forall g: Graph | g < s1.built ensures LookedAfter(s1, g) { StepKeepsLookedAfter(s, e, g); }
  }

  lemma {:induction false} RunsKeepInv(s: State, events: seq<Event>, end: State)
    requires Inv(s) && Runs(s, events, end)
    ensures Inv(end)
    decreases |events|
  {
    if events != [] {
      StepKeepsInv(s, events[0]);
      RunsKeepInv(Next(s, events[0]), events[1..], end);
    }
  }

  predicate Quiet(s: State) { forall t :: t in s.threads ==> s.threads[t].Idle? || s.threads[t].Using? }

  /** Never leaked: under every interleaving, once no thread is mid-step, each
      graph that was built, is no longer cached and is in nobody's hands has
      been closed. */
  lemma NothingLeaks(events: seq<Event>, end: State, g: Graph)
    requires Runs(INIT, events, end) && Quiet(end)
    requires g < end.built && end.agent != Some(g) && Users(end, g) == {}
    ensures g in end.closes
  {
    assert forall x: Graph :: Users(INIT, x) == {};
    RunsKeepInv(INIT, events, end);
    assert LookedAfter(end, g);
  }

  // ----------------------------------------- what the gaps do not guarantee

  lemma {:induction false} Extend(s: State, events: seq<Event>, mid: State, e: Event)
    requires Runs(s, events, mid) && Can(mid, e)
    ensures Runs(s, events + [e], Next(mid, e))
    decreases |events|
  {
    if events == [] {
      assert [e][1..] == [];
      assert Runs(Next(s, e), [], Next(mid, e));
    } else {
      assert (events + [e])[1..] == events[1..] + [e];
      Extend(Next(s, events[0]), events[1..], mid, e);
    }
  }

  lemma Do(events: seq<Event>, s: State, t: Thread, m: Move) returns (more: seq<Event>, s1: State)
    requires Runs(INIT, events, s) && Can(s, Event(t, m))
    ensures more == events + [Event(t, m)] && s1 == Next(s, Event(t, m)) && Runs(INIT, more, s1)
  {
    Extend(INIT, events, s, Event(t, m));
    more, s1 := events + [Event(t, m)], Next(s, Event(t, m));
  }

  /** Thread 0 has built graph 0 and got it, but not registered its hold. */
  lemma GotGraph() returns (events: seq<Event>, s: State)
    ensures Runs(INIT, events, s)
    ensures s == State(Some(0), map[], [], 1, map[0 := Got(0)])
  {
    events, s := Do([], INIT, 0, BeginBuild);
    events, s := Do(events, s, 0, Advance);
    events, s := Do(events, s, 0, Advance);
  }

  /** Thread 1 replaces graph 0, counts no holder and closes it. */
  lemma Overtaken() returns (events: seq<Event>, s: State)
    ensures Runs(INIT, events, s)
    ensures s == State(Some(1), map[], [0], 2, map[0 := Got(0), 1 := Returning])
  {
    events, s := GotGraph();
    events, s := Do(events, s, 1, BeginBuild);
    events, s := Do(events, s, 1, Advance);
    events, s := Do(events, s, 1, Advance);
    events, s := Do(events, s, 1, Advance);
  }

  /** Between threads a held graph can be closed: the hold comes too late. */
  lemma HeldGraphClosed() returns (events: seq<Event>, s: State)
    ensures Runs(INIT, events, s)
    ensures s == State(Some(1), map[0 := 1], [0], 2, map[0 := Using(0), 1 := Returning])
    ensures At(s, 0) == Using(0) && 0 in s.closes
  {
    events, s := Overtaken();
    events, s := Do(events, s, 0, Advance);
  }

  /** ... and letting go of it closes it a second time. */
  lemma GraphClosedTwice() returns (events: seq<Event>, s: State)
    ensures Runs(INIT, events, s) && multiset(s.closes)[0] == 2
    ensures s.agent == Some(1) && At(s, 0).Idle? && At(s, 1).Returning?
  {
    events, s := HeldGraphClosed();
    events, s := Do(events, s, 0, Advance);
    events, s := Do(events, s, 0, Advance);
    events, s := Do(events, s, 0, Advance);
  }

  /** The gap in the release is enough: thread 0 drops its hold of graph 0 while
      it is cached, thread 1 takes it, thread 2 replaces it and sees the holder;
      then thread 0 finds another graph in the cache and closes graph 0 although
      thread 1 still holds it and every hold was registered in time. */
  lemma ReleaseClosesHeldGraph() returns (events: seq<Event>, s: State)
    ensures Runs(INIT, events, s) && At(s, 1) == Using(0) && 0 in s.closes
  {
    events, s := DroppedWhileCached();
    events, s := Do(events, s, 2, BeginBuild);
    events, s := Do(events, s, 2, Advance);
    events, s := Do(events, s, 2, Advance);
    assert At(s, 2) == Returning;
    events, s := Do(events, s, 0, Advance);
    events, s := Do(events, s, 0, Advance);
  }

  lemma DroppedWhileCached() returns (events: seq<Event>, s: State)
    ensures Runs(INIT, events, s)
    ensures s == State(Some(0), map[0 := 1], [], 1, map[0 := Checking(0), 1 := Using(0)])
  {
    events, s := GotGraph();
    events, s := Do(events, s, 0, Advance);
    events, s := Do(events, s, 0, Advance);
    assert s == State(Some(0), map[], [], 1, map[0 := Checking(0)]);
    events, s := Do(events, s, 1, LeaseCached);
    events, s := Do(events, s, 1, Advance);
  }
}
