/** The graph cache and its leases on one event loop (agent/core.py). A step is
    what runs between two suspensions, so a build's end, the close of the graph
    it replaces and the hold of the new graph are one step. */
module GraphLease {
  import opened Wrappers

  /** Graphs are numbered in the order they are built. */
  type Graph = nat

  /** `closes` logs the calls of `close_agent_graph`; `built` is the next number. */
  datatype Cache = Cache(agent: Option<Graph>, loop: int, holders: map<Graph, nat>, closes: seq<Graph>, built: nat)

  function Holders(c: Cache, g: Graph): nat { if g in c.holders then c.holders[g] else 0 }

  function Hold(c: Cache, g: Graph): Cache { c.(holders := c.holders[g := Holders(c, g) + 1]) }

  function Close(c: Cache, g: Graph): Cache { c.(closes := c.closes + [g]) }

  function Release(c: Cache, g: Graph): Cache {
    if Holders(c, g) > 1 then c.(holders := c.holders[g := Holders(c, g) - 1])
    else
      var c1 := c.(holders := c.holders - {g});
      if c.agent == Some(g) then c1 else Close(c1, g)
  }

  /** A finished build replaces the cached graph. */
  function Replace(c: Cache, loop: int): Cache {
    var c1 := c.(agent := Some(c.built), loop := loop, built := c.built + 1);
    if c.agent.Some? && Holders(c, c.agent.value) == 0 then Close(c1, c.agent.value) else c1
  }

  predicate Reusable(c: Cache, loop: int, force: bool) { c.agent.Some? && c.loop == loop && !force }

  // ------------------------------------------------------------- the module

  /** The module's state: `_agent`, `_agent_loop` and `_agent_holders`. */
  class AgentCache {
    var agent: Option<Graph>
    var loop: int
    var holders: map<Graph, nat>
    var closes: seq<Graph>
    var built: nat

    function View(): Cache
      reads this
    {
      Cache(agent, loop, holders, closes, built)
    }

    constructor ()
      ensures View() == Cache(None, 0, map[], [], 0)
    {
      agent, loop, holders, closes, built := None, 0, map[], [], 0;
    }

    method HoldAgent(graph: Option<Graph>)
      modifies this
      ensures View() == if graph.None? then old(View()) else Hold(old(View()), graph.value)
    {
      if graph.None? { return; }
      var count := if graph.value in holders then holders[graph.value] else 0;
      holders := holders[graph.value := count + 1];
    }

    method ReleaseAgent(graph: Option<Graph>)
      modifies this
      ensures View() == if graph.None? then old(View()) else Release(old(View()), graph.value)
    {
      if graph.None? { return; }
      var key := graph.value;
      var count: int := if key in holders then holders[key] else 0;
      var remaining := count - 1;
      if remaining > 0 {
        holders := holders[key := remaining];
        return;
      }
      holders := holders - {key};
      if agent == graph { return; }
      CloseAgentGraph(key);
    }

    method CloseAgentGraph(graph: Graph)
      modifies this
      ensures View() == Close(old(View()), graph)
    {
      closes := closes + [graph];
    }

    /** `built_agent` up to its only suspension: the graph to reuse, or else the
        one that the build about to start replaces. */
    method CheckCache(currentLoop: int, force: bool) returns (found: Option<Graph>, previous: Option<Graph>)
      ensures found == if agent.Some? && loop == currentLoop && !force then agent else None
      ensures found.None? ==> previous == agent
    {
      if agent.Some? && loop == currentLoop && !force { return agent, None; }
      return None, agent;
    }

    /** The rest of `built_agent`, after holds and releases of others in between;
        the build lock has kept other builds out, so the cache is as it was. */
    method FinishBuild(currentLoop: int, previous: Option<Graph>, ok: bool) returns (graph: Option<Graph>)
      requires previous == agent
      modifies this
      ensures View() == if ok then Replace(old(View()), currentLoop) else old(View())
      ensures graph == if ok then Some(old(built)) else None
    {
      if !ok { return None; }
      agent := Some(built);
      built := built + 1;
      loop := currentLoop;
      if previous.Some? {
        var count := if previous.value in holders then holders[previous.value] else 0;
        if count == 0 { CloseAgentGraph(previous.value); }
      }
      return agent;
    }

    /** `built_agent` when nothing else runs during the build; `ok` says whether a
        build succeeds. */
    method BuiltAgent(currentLoop: int, force: bool, ok: bool) returns (graph: Option<Graph>)
      modifies this
      ensures var c := old(View());
              if c.agent.Some? && c.loop == currentLoop && !force then View() == c && graph == c.agent
              else if ok then View() == Replace(c, currentLoop) && graph == Some(c.built)
              else View() == c && graph.None?
      ensures graph.Some? ==> graph == agent && loop == currentLoop
      ensures ok && force ==> graph == Some(old(built)) && built == old(built) + 1
    {
      var previous;
      graph, previous := CheckCache(currentLoop, force);
      if graph.None? { graph := FinishBuild(currentLoop, previous, ok); }
    }

    /** Entering `agent_lease`: nothing suspends between the build and the hold. */
    method EnterLease(currentLoop: int, force: bool, ok: bool) returns (graph: Option<Graph>)
      modifies this
      ensures var c := old(View());
              if c.agent.Some? && c.loop == currentLoop && !force then
                View() == Hold(c, c.agent.value) && graph == c.agent
              else if ok then View() == Hold(Replace(c, currentLoop), c.built) && graph == Some(c.built)
              else View() == c && graph.None?
      ensures graph.Some? ==> graph == agent && loop == currentLoop && agent.value in holders
    {
      graph := BuiltAgent(currentLoop, force, ok);
      HoldAgent(graph);
    }
  }

  // --------------------------------------------------------------- the runs

  /** A run's state: the cache, the leases out and the loop a build is under way
      on (it holds the build lock, so no other caller passes it meanwhile); and two
      logs, the loop each graph was built on and the graphs handed out, each with
      the loop of the caller. */
  datatype State = State(cache: Cache, leases: multiset<Graph>, building: Option<int>,
                         builtOn: seq<int>, given: seq<(Graph, int)>)

  /** Most callers hold the graph they get; some ask for it without a lease. */
  datatype Event =
    | Reuse(loop: int, held: bool)
    | BeginBuild(loop: int, force: bool)
    | FailBuild
    | EndBuild(held: bool)
    | EndLease(graph: Graph)

  const INIT: State := State(Cache(None, 0, map[], [], 0), multiset{}, None, [], [])

  predicate Can(s: State, e: Event) {
    match e
    case Reuse(loop, _) => s.building.None? && Reusable(s.cache, loop, false)
    case BeginBuild(loop, force) => s.building.None? && !Reusable(s.cache, loop, force)
    case FailBuild => s.building.Some?
    case EndBuild(_) => s.building.Some?
    case EndLease(g) => g in s.leases
  }

  /** Handing a graph to a caller on a loop, with or without a lease. */
  function Give(s: State, g: Graph, loop: int, held: bool): State {
    var t := s.(given := s.given + [(g, loop)]);
    if held then t.(cache := Hold(s.cache, g), leases := s.leases + multiset{g}) else t
  }

  function Built(s: State): State
    requires s.building.Some?
  {
    s.(cache := Replace(s.cache, s.building.value), building := None, builtOn := s.builtOn + [s.building.value])
  }

  function Next(s: State, e: Event): State
    requires Can(s, e)
  {
    match e
    case Reuse(loop, held) => Give(s, s.cache.agent.value, loop, held)
    case BeginBuild(loop, _) => s.(building := Some(loop))
    case FailBuild => s.(building := None)
    case EndBuild(held) => Give(Built(s), s.cache.built, s.building.value, held)
    case EndLease(g) => s.(cache := Release(s.cache, g), leases := s.leases - multiset{g})
  }

  ghost predicate Runs(s: State, events: seq<Event>, end: State)
    decreases |events|
  {
    if events == [] then end == s
    else Can(s, events[0]) && Runs(Next(s, events[0]), events[1..], end)
  }

  // ------------------------------------------------------------- invariants

  function TimesClosed(c: Cache, g: Graph): nat { multiset(c.closes)[g] }

  predicate Cached(s: State, g: Graph) { s.cache.agent == Some(g) }
  predicate ReplacedAndHeld(s: State, g: Graph) { s.cache.agent != Some(g) && g in s.leases }

  /** Each built graph is exactly one of cached, replaced but held, or closed
      once; the holder counts are the leases out. */
  ghost predicate Inv(s: State) { forall g: Graph :: GraphOk(s, g) }

  ghost predicate GraphOk(s: State, g: Graph) {
    && Holders(s.cache, g) == s.leases[g]
    && TimesClosed(s.cache, g) == (if g >= s.cache.built || Cached(s, g) || g in s.leases then 0 else 1)
    && (g >= s.cache.built ==> g !in s.leases && !Cached(s, g))
  }

  lemma CloseCounts(c: Cache, x: Graph, g: Graph)
    ensures TimesClosed(Close(c, x), g) == TimesClosed(c, g) + if g == x then 1 else 0
  {
  }

  lemma GiveKeepsInv(s: State, x: Graph, loop: int, held: bool)
    requires Inv(s) && x < s.cache.built && TimesClosed(s.cache, x) == 0
    ensures Inv(Give(s, x, loop, held))
  {
    var t := Give(s, x, loop, held);
    forall g: Graph ensures GraphOk(t, g) { assert GraphOk(s, g); }
  }

  lemma BuiltKeepsInv(s: State)
    requires Inv(s) && s.building.Some?
    ensures Inv(Built(s)) && TimesClosed(Built(s).cache, s.cache.built) == 0
  {
    var t := Built(s);
    forall g: Graph ensures GraphOk(t, g) {
      assert GraphOk(s, g);
      if s.cache.agent.Some? {
        assert GraphOk(s, s.cache.agent.value);
        var c := s.cache.(agent := Some(s.cache.built), loop := s.building.value, built := s.cache.built + 1);
        CloseCounts(c, s.cache.agent.value, g);
      }
    }
    assert GraphOk(t, s.cache.built) && GraphOk(s, s.cache.built);
  }

  lemma EndLeaseKeepsInv(s: State, x: Graph)
    requires Inv(s) && x in s.leases
    ensures Inv(s.(cache := Release(s.cache, x), leases := s.leases - multiset{x}))
  {
    var t := s.(cache := Release(s.cache, x), leases := s.leases - multiset{x});
    forall g: Graph ensures GraphOk(t, g) {
      assert GraphOk(s, g) && GraphOk(s, x);
      CloseCounts(s.cache.(holders := s.cache.holders - {x}), x, g);
    }
  }

  lemma StepKeepsInv(s: State, e: Event)
    requires Inv(s) && Can(s, e)
    ensures Inv(Next(s, e))
  {
    match e
    case Reuse(loop, held) =>
      assert GraphOk(s, s.cache.agent.value);
      GiveKeepsInv(s, s.cache.agent.value, loop, held);
    case BeginBuild(_, _) =>
      assert forall g: Graph :: GraphOk(s, g) ==> GraphOk(Next(s, e), g);
    case FailBuild =>
      assert forall g: Graph :: GraphOk(s, g) ==> GraphOk(Next(s, e), g);
    case EndBuild(held) =>
      BuiltKeepsInv(s);
      GiveKeepsInv(Built(s), s.cache.built, s.building.value, held);
    case EndLease(x) => EndLeaseKeepsInv(s, x);
  }

  lemma {:induction false} RunsKeepInv(s: State, events: seq<Event>, end: State)
    requires Inv(s) && Runs(s, events, end)
    ensures Inv(end)
    decreases |events|
  {
    if events != [] {
      StepKeepsInv(s, events[0]);
      RunsKeepInv(Next(s, events[0]), events[1..], end);
    }
  }

  /** Over every run: a leased graph is never closed, nor is the cached one; and
      every built graph is exactly one of cached, replaced but held, or closed -
      and then closed once. */
  lemma LeasesAreSafe(events: seq<Event>, end: State, g: Graph)
    requires Runs(INIT, events, end)
    ensures g in end.leases ==> g !in end.cache.closes && Holders(end.cache, g) == end.leases[g] > 0
    ensures Cached(end, g) ==> g !in end.cache.closes
    ensures g < end.cache.built ==>
              TimesClosed(end.cache, g) <= 1
              && (Cached(end, g) || ReplacedAndHeld(end, g) || TimesClosed(end.cache, g) == 1)
              && !(Cached(end, g) && ReplacedAndHeld(end, g))
              && !((Cached(end, g) || ReplacedAndHeld(end, g)) && TimesClosed(end.cache, g) == 1)
  {
    assert Inv(INIT) by { assert forall x: Graph :: GraphOk(INIT, x); }
    RunsKeepInv(INIT, events, end);
    assert GraphOk(end, g);
    assert g in end.cache.closes <==> TimesClosed(end.cache, g) > 0;
  }

  // ------------------------------------------------- a graph and its loop

  /** The cached graph is the last one built, and on the loop the cache names. */
  ghost predicate CacheOnLoop(s: State) {
    && |s.builtOn| == s.cache.built
    && (if s.builtOn == [] then s.cache.agent.None?
        else s.cache.agent == Some(|s.builtOn| - 1) && s.cache.loop == s.builtOn[|s.builtOn| - 1])
  }

  ghost predicate OnLoop(s: State, g: Graph, loop: int) { g < |s.builtOn| && s.builtOn[g] == loop }

  ghost predicate WasGiven(s: State, g: Graph) { exists l :: (g, l) in s.given }

  ghost predicate LoopsOk(s: State) {
    && CacheOnLoop(s)
    && (forall g, l :: (g, l) in s.given ==> OnLoop(s, g, l))
    && (forall g :: g in s.leases ==> WasGiven(s, g))
  }

  lemma GiveKeepsLoops(s: State, x: Graph, loop: int, held: bool)
    requires LoopsOk(s) && OnLoop(s, x, loop)
    ensures LoopsOk(Give(s, x, loop, held))
  {
    var t := Give(s, x, loop, held);
    assert CacheOnLoop(t);
    forall g, l | (g, l) in t.given ensures OnLoop(t, g, l) { assert OnLoop(s, g, l); }
    forall g | g in t.leases ensures WasGiven(t, g) {
      if g == x {
        assert (x, loop) in t.given;
      } else {
        var l :| (g, l) in s.given;
        assert (g, l) in t.given;
      }
    }
  }

  lemma BuiltKeepsLoops(s: State)
    requires LoopsOk(s) && s.building.Some?
    ensures LoopsOk(Built(s)) && OnLoop(Built(s), s.cache.built, s.building.value)
  {
    var t := Built(s);
    assert CacheOnLoop(t);
    forall g, l | (g, l) in t.given ensures OnLoop(t, g, l) { assert OnLoop(s, g, l); }
    forall g | g in t.leases ensures WasGiven(t, g) { assert WasGiven(s, g); }
  }

  lemma StepKeepsLoops(s: State, e: Event)
    requires LoopsOk(s) && Can(s, e)
    ensures LoopsOk(Next(s, e))
  {
    match e
    case Reuse(loop, held) => GiveKeepsLoops(s, s.cache.agent.value, loop, held);
    case BeginBuild(_, _) => SameLoops(s, Next(s, e));
    case FailBuild => SameLoops(s, Next(s, e));
    case EndBuild(held) =>
      BuiltKeepsLoops(s);
      GiveKeepsLoops(Built(s), s.cache.built, s.building.value, held);
    case EndLease(g) => SameLoops(s, Next(s, e));
  }

  lemma SameLoops(s: State, t: State)
    requires LoopsOk(s) && CacheOnLoop(t) && t.builtOn == s.builtOn && t.given == s.given
    requires forall g :: g in t.leases ==> g in s.leases
    ensures LoopsOk(t)
  {
    forall g, l | (g, l) in t.given ensures OnLoop(t, g, l) { assert OnLoop(s, g, l); }
    forall g | g in t.leases ensures WasGiven(t, g) { assert WasGiven(s, g); }
  }

  lemma {:induction false} RunsKeepLoops(s: State, events: seq<Event>, end: State)
    requires LoopsOk(s) && Runs(s, events, end)
    ensures LoopsOk(end)
    decreases |events|
  {
    if events != [] {
      StepKeepsLoops(s, events[0]);
      RunsKeepLoops(Next(s, events[0]), events[1..], end);
    }
  }

  /** Over every run: whoever is handed a graph, new or cached, gets one built on
      its own loop; and an unforced caller reuses the cached graph, instead of
      building, exactly when the last graph was built on its loop. */
  lemma GraphsStayOnTheirLoop(events: seq<Event>, end: State, loop: int)
    requires Runs(INIT, events, end)
    ensures |end.builtOn| == end.cache.built
    ensures forall g, l :: (g, l) in end.given ==> g < |end.builtOn| && end.builtOn[g] == l
    ensures forall g :: g in end.leases ==> exists l :: (g, l) in end.given
    ensures var last := |end.builtOn| - 1;
            end.building.None? ==>
              (if last >= 0 && end.builtOn[last] == loop then
                 Can(end, Reuse(loop, true)) && !Can(end, BeginBuild(loop, false))
                 && Next(end, Reuse(loop, true)).given == end.given + [(last, loop)]
               else !Can(end, Reuse(loop, true)) && Can(end, BeginBuild(loop, false)))
              && Can(end, BeginBuild(loop, true))
  {
    RunsKeepLoops(INIT, events, end);
    forall g, l | (g, l) in end.given ensures g < |end.builtOn| && end.builtOn[g] == l { assert OnLoop(end, g, l); }
    forall g | g in end.leases ensures exists l :: (g, l) in end.given { assert WasGiven(end, g); }
  }

  function OpenGraphs(s: State): set<Graph> {
    set g: Graph | 0 <= g < s.cache.built && g !in s.cache.closes
  }

  lemma {:induction false} SupportIsSmall(a: set<Graph>, m: multiset<Graph>)
    requires forall g :: g in a ==> g in m
    ensures |a| <= |m|
    decreases |a|
  {
    if a != {} {
      var g :| g in a;
      SupportIsSmall(a - {g}, m[g := 0]);
      assert m == m[g := 0] + multiset{g}[g := m[g]];
      assert |a| == |a - {g}| + 1;
    }
  }

  /** No connection leaks: at most one graph beyond the leases out is open. */
  lemma OpenGraphsAreBounded(events: seq<Event>, end: State)
    requires Runs(INIT, events, end)
    ensures |OpenGraphs(end)| <= 1 + |end.leases|
  {
    assert Inv(INIT) by { assert forall x: Graph :: GraphOk(INIT, x); }
    RunsKeepInv(INIT, events, end);
    var open := OpenGraphs(end);
    forall g | g in open ensures Cached(end, g) || g in end.leases {
      assert GraphOk(end, g) && TimesClosed(end.cache, g) == 0;
    }
    if end.cache.agent.Some? {
      var rest := open - {end.cache.agent.value};
      SupportIsSmall(rest, end.leases);
      Subset(open, rest + {end.cache.agent.value});
    } else {
      SupportIsSmall(open, end.leases);
    }
  }

  lemma {:induction false} Subset(a: set<Graph>, b: set<Graph>)
    requires a <= b
    ensures |a| <= |b|
    decreases |a|
  {
    if a != {} {
      var g :| g in a;
      Subset(a - {g}, b - {g});
    }
  }
}
