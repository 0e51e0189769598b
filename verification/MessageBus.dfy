/** The bounded message bus (bus/core.py) and the one consumer each of its
    directions has (channels/manager.py). */
module MessageBus {
  import opened Wrappers

  datatype Msg = Msg(channel: string, content: string)

  // -------------------------------------------------------------- the bus

  class Queue {
    var items: seq<Msg>
    const maxsize: nat

    ghost predicate Valid()
      reads this
    {
      0 < maxsize && |items| <= maxsize
    }

    constructor (maxsize: nat)
      requires 0 < maxsize
      ensures Valid() && items == [] && this.maxsize == maxsize
    {
      items := [];
      this.maxsize := maxsize;
    }

    /** `put`: a publisher that finds the queue full keeps waiting. */
    method Put(msg: Msg) returns (stored: bool)
      requires Valid()
      modifies this
      ensures Valid() && stored == (|old(items)| < maxsize)
      ensures items == if stored then old(items) + [msg] else old(items)
    {
      stored := |items| < maxsize;
      if stored { items := items + [msg]; }
    }

    /** `get`: a consumer that finds the queue empty keeps waiting. */
    method Get() returns (msg: Option<Msg>)
      requires Valid()
      modifies this
      ensures Valid() && (msg.None? <==> old(items) == [])
      ensures msg.None? ==> items == old(items)
      ensures msg.Some? ==> [msg.value] + items == old(items)
    {
      if items == [] { return None; }
      msg := Some(items[0]);
      items := items[1..];
    }
  }

  class Bus {
    const inbound: Queue
    const outbound: Queue

    constructor (maxsize: nat)
      requires 0 < maxsize
      ensures fresh(inbound) && fresh(outbound) && inbound != outbound
      ensures inbound.Valid() && inbound.items == [] && inbound.maxsize == maxsize
      ensures outbound.Valid() && outbound.items == [] && outbound.maxsize == maxsize
    {
      inbound := new Queue(maxsize);
      outbound := new Queue(maxsize);
    }
  }

  /** The constructor's guard: a size that would make the queues unbounded fails. */
  method MakeBus(maxsize: int) returns (r: Result<Bus, string>)
    ensures r.Ok? <==> maxsize > 0
    ensures r.Ok? ==> r.value.inbound.maxsize == r.value.outbound.maxsize == maxsize
  {
    if maxsize <= 0 { return Err("maxsize must be positive"); }
    var bus := new Bus(maxsize);
    r := Ok(bus);
  }

  // ------------------------------------------------- one direction, as steps

  /** Outbound errors are caught and logged; inbound errors are not. */
  datatype Direction = Inbound | Outbound

  datatype Setup = Setup(direction: Direction, max: nat, channels: set<string>, hasConsumer: bool)

  /** Where the direction's only consumer stands. `Stopped` remembers a message
      it was working on when it was cancelled or killed by an error. */
  datatype Phase = Waiting | Consumer(m: Msg) | Sending(m: Msg) | Stopped(lost: Option<Msg>)

  /** `handled` is what the consumer is done with, `attempts` the sends (or, for
      inbound, the callbacks) it started, `effects` the outbound side effects; all
      oldest first. */
  datatype State = State(queue: seq<Msg>, published: seq<Msg>, handled: seq<Msg>, attempts: seq<Msg>,
                         effects: seq<Msg>, phase: Phase)

  datatype Event = Publish(msg: Msg) | Take | Timeout | ConsumerEnds(ok: bool) | SendEnds(ok: bool) | Cancel

  const INIT: State := State([], [], [], [], [], Waiting)

  predicate Can(u: Setup, s: State, e: Event) {
    match e
    case Publish(_) => |s.queue| < u.max
    case Take => s.phase.Waiting? && s.queue != []
    case Timeout => s.phase.Waiting? && u.direction.Outbound?
    case ConsumerEnds(_) => s.phase.Consumer?
    case SendEnds(_) => s.phase.Sending?
    case Cancel => !s.phase.Stopped?
  }

  /** What happens to a message the consumer took. */
  function Dispatch(u: Setup, s: State, m: Msg): State {
    if m.channel !in u.channels then s.(handled := s.handled + [m])
    else if u.direction.Inbound? then
      if !u.hasConsumer then s.(handled := s.handled + [m]) else s.(phase := Consumer(m), attempts := s.attempts + [m])
    else if u.hasConsumer then s.(phase := Consumer(m), effects := s.effects + [m])
    else s.(phase := Sending(m), attempts := s.attempts + [m])
  }

  function Next(u: Setup, s: State, e: Event): State
    requires Can(u, s, e)
  {
    match e
    case Publish(m) => s.(queue := s.queue + [m], published := s.published + [m])
    case Take => Dispatch(u, s.(queue := s.queue[1..]), s.queue[0])
    case Timeout => s
    case ConsumerEnds(ok) =>
      if u.direction.Outbound? then s.(phase := Sending(s.phase.m), attempts := s.attempts + [s.phase.m])
      else if ok then s.(phase := Waiting, handled := s.handled + [s.phase.m])
      else s.(phase := Stopped(Some(s.phase.m)))
    case SendEnds(_) => s.(phase := Waiting, handled := s.handled + [s.phase.m])
    case Cancel => s.(phase := Stopped(if s.phase.Waiting? then None else Some(s.phase.m)))
  }

  ghost predicate Runs(u: Setup, s: State, events: seq<Event>, end: State)
    decreases |events|
  {
    if events == [] then end == s
    else Can(u, s, events[0]) && Runs(u, Next(u, s, events[0]), events[1..], end)
  }

  // ------------------------------------------------------------ invariants

  function InFlight(p: Phase): seq<Msg> {
    match p
    case Waiting => []
    case Consumer(m) => [m]
    case Sending(m) => [m]
    case Stopped(lost) => if lost.Some? then [lost.value] else []
  }

  /** The messages that name a channel, in order. */
  function Naming(ms: seq<Msg>, channels: set<string>): seq<Msg> {
    if ms == [] then []
    else Naming(ms[..|ms| - 1], channels) + if ms[|ms| - 1].channel in channels then [ms[|ms| - 1]] else []
  }

  lemma {:induction false} NamingConcat(a: seq<Msg>, b: seq<Msg>, channels: set<string>)
    ensures Naming(a + b, channels) == Naming(a, channels) + Naming(b, channels)
  {
    if b == [] {
      assert a + b == a;
    } else {
      assert (a + b)[..|a + b| - 1] == a + b[..|b| - 1];
      NamingConcat(a, b[..|b| - 1], channels);
    }
  }

  /** Whether the message being worked on has had its send or callback started. */
  ghost predicate StartedOn(u: Setup, s: State) {
    match s.phase
    case Waiting => false
    case Consumer(_) => u.direction.Inbound?
    case Sending(_) => true
    case Stopped(_) => |s.attempts| > |Naming(s.handled, u.channels)|
  }

  predicate Delivers(u: Setup) { u.direction.Outbound? || u.hasConsumer }

  ghost predicate Inv(u: Setup, s: State) {
    && |s.queue| <= u.max
    && s.published == s.handled + InFlight(s.phase) + s.queue
    && (forall k :: 0 <= k < |InFlight(s.phase)| ==> InFlight(s.phase)[k].channel in u.channels)
    && (Delivers(u) ==>
          s.attempts == Naming(s.handled, u.channels) + (if StartedOn(u, s) then InFlight(s.phase) else []))
    && s.effects == if u.direction.Outbound? && u.hasConsumer then Naming(s.handled, u.channels) + InFlight(s.phase)
                    else []
  }

  lemma DispatchKeepsInv(u: Setup, s: State)
    requires Inv(u, s) && Can(u, s, Take)
    ensures Inv(u, Next(u, s, Take))
  {
    var m := s.queue[0];
    TakeShape(s.handled, m, s.queue);
    assert s.attempts + [] == s.attempts;
    var s2 := Next(u, s, Take);
    assert s2.published == s2.handled + InFlight(s2.phase) + s2.queue;
  }

  /** A taken message moves from the head of the queue to behind the handled. */
  lemma TakeShape(h: seq<Msg>, m: Msg, q: seq<Msg>)
    requires q != [] && q[0] == m
    ensures h + [] + q == h + [m] + q[1..] == h + [m] + [] + q[1..]
  {
    assert q == [m] + q[1..];
  }

  /** The message worked on is done with. */
  lemma DoneKeepsInv(u: Setup, s: State, m: Msg)
    requires Inv(u, s) && InFlight(s.phase) == [m] && StartedOn(u, s)
    ensures Inv(u, s.(phase := Waiting, handled := s.handled + [m]))
  {
    NamingOneMore(s.handled, m, u.channels);
    var t := s.(phase := Waiting, handled := s.handled + [m]);
    assert m.channel in u.channels by { assert InFlight(s.phase)[0] == m; }
    assert t.handled + [] == t.handled;
    assert Naming(t.handled, u.channels) + [] == Naming(t.handled, u.channels);
  }

  lemma NamingOneMore(ms: seq<Msg>, m: Msg, channels: set<string>)
    ensures Naming(ms + [m], channels) == Naming(ms, channels) + if m.channel in channels then [m] else []
  {
    assert (ms + [m])[..|ms|] == ms;
  }

  lemma StepKeepsInv(u: Setup, s: State, e: Event)
    requires Inv(u, s) && Can(u, s, e)
    ensures Inv(u, Next(u, s, e))
  {
    match e
    case Publish(m) => assert s.published + [m] == s.handled + InFlight(s.phase) + (s.queue + [m]);
    case Take => DispatchKeepsInv(u, s);
    case ConsumerEnds(ok) => if u.direction.Inbound? && ok { DoneKeepsInv(u, s, s.phase.m); }
    case SendEnds(_) => DoneKeepsInv(u, s, s.phase.m);
    case _ =>
  }

  lemma {:induction false} RunsKeepInv(u: Setup, s: State, events: seq<Event>, end: State)
    requires Inv(u, s) && Runs(u, s, events, end)
    ensures Inv(u, end)
    decreases |events|
  {
    if events != [] {
      StepKeepsInv(u, s, events[0]);
      RunsKeepInv(u, Next(u, s, events[0]), events[1..], end);
    }
  }

  /** In every reachable state the queue is bounded, and the published messages
      are, in publish order, those handled, the one in flight and those queued. */
  lemma NothingDroppedOrReordered(u: Setup, events: seq<Event>, end: State)
    requires Runs(u, INIT, events, end)
    ensures |end.queue| <= u.max
    ensures end.published == end.handled + InFlight(end.phase) + end.queue
    ensures |InFlight(end.phase)| <= 1
  {
    assert Inv(u, INIT);
    RunsKeepInv(u, INIT, events, end);
  }

  lemma {:induction false} NamingNarrower(ms: seq<Msg>, wide: set<string>, narrow: set<string>)
    requires narrow <= wide
    ensures Naming(Naming(ms, wide), narrow) == Naming(ms, narrow)
  {
    if ms != [] {
      var init, last := ms[..|ms| - 1], ms[|ms| - 1];
      NamingNarrower(init, wide, narrow);
      NamingConcat(Naming(init, wide), if last.channel in wide then [last] else [], narrow);
    }
  }

  /** The sends attempted on a known channel are, in publish order, the published
      messages that name it: all of them once the consumer has caught up, and
      always an initial stretch - failing sends and side effects included. */
  lemma SendsFollowPublishOrder(u: Setup, events: seq<Event>, end: State, c: string)
    requires Runs(u, INIT, events, end) && u.direction.Outbound? && c in u.channels
    ensures Naming(end.attempts, {c}) <= Naming(end.published, {c})
    ensures end.phase.Waiting? && end.queue == [] ==> Naming(end.attempts, {c}) == Naming(end.published, {c})
  {
    assert Inv(u, INIT);
    RunsKeepInv(u, INIT, events, end);
    var started := if StartedOn(u, end) then InFlight(end.phase) else [];
    var later := if StartedOn(u, end) then end.queue else InFlight(end.phase) + end.queue;
    assert end.published == end.handled + started + later;
    NamingConcat(end.handled + started, later, {c});
    NamingConcat(end.handled, started, {c});
    NamingConcat(Naming(end.handled, u.channels), started, {c});
    NamingNarrower(end.handled, u.channels, {c});
  }

  /** Outbound, the side effect runs once for each message that names a channel,
      in order, before its send is attempted and whether or not it raises; without
      a side-effect consumer nothing runs. */
  lemma SideEffectFirst(u: Setup, events: seq<Event>, end: State)
    requires Runs(u, INIT, events, end) && u.direction.Outbound?
    ensures if u.hasConsumer then
              && end.attempts <= end.effects && |end.effects| <= |end.attempts| + 1
              && end.effects == Naming(end.handled, u.channels) + InFlight(end.phase)
              && end.effects <= Naming(end.published, u.channels)
            else end.effects == []
  {
    assert Inv(u, INIT);
    RunsKeepInv(u, INIT, events, end);
    NamingInFront(end.handled, InFlight(end.phase), end.queue, u.channels);
    assert |InFlight(end.phase)| <= 1;
    assert Naming(end.handled, u.channels) + [] == Naming(end.handled, u.channels);
  }

  lemma NamingInFront(h: seq<Msg>, f: seq<Msg>, q: seq<Msg>, channels: set<string>)
    requires forall k :: 0 <= k < |f| ==> f[k].channel in channels
    ensures Naming(h, channels) + f <= Naming(h + f + q, channels)
  {
    NamingConcat(h + f, q, channels);
    NamingConcat(h, f, channels);
    NamingNamed(f, channels);
  }

  lemma {:induction false} NamingNamed(ms: seq<Msg>, channels: set<string>)
    requires forall k :: 0 <= k < |ms| ==> ms[k].channel in channels
    ensures Naming(ms, channels) == ms
  {
    if ms != [] {
      NamingNamed(ms[..|ms| - 1], channels);
      assert ms == ms[..|ms| - 1] + [ms[|ms| - 1]];
    }
  }

  /** Over any run the consumer has stopped exactly when it was cancelled or,
      inbound, a callback raised: no outbound error ever stops it. */
  lemma {:induction false} StoppedExactly(u: Setup, s: State, events: seq<Event>, end: State)
    requires Runs(u, s, events, end)
    ensures end.phase.Stopped?
            <==> s.phase.Stopped? || Cancel in events || (u.direction.Inbound? && ConsumerEnds(false) in events)
    decreases |events|
  {
    if events != [] {
      StoppedExactly(u, Next(u, s, events[0]), events[1..], end);
      assert events == [events[0]] + events[1..];
    }
  }

  /** A stopped consumer stays stopped: whatever is published, nothing is handled
      or started any more. */
  lemma {:induction false} InboundErrorIsFinal(u: Setup, s: State, events: seq<Event>, end: State)
    requires s.phase.Stopped? && Runs(u, s, events, end)
    ensures end.phase == s.phase && end.handled == s.handled && end.attempts == s.attempts
    decreases |events|
  {
    if events != [] { InboundErrorIsFinal(u, Next(u, s, events[0]), events[1..], end); }
  }

  lemma {:induction false} RunsConcat(u: Setup, s: State, a: seq<Event>, mid: State, b: seq<Event>, end: State)
    requires Runs(u, s, a, mid) && Runs(u, mid, b, end)
    ensures Runs(u, s, a + b, end)
    decreases |a|
  {
    if a == [] {
      assert a + b == b;
    } else {
      assert (a + b)[1..] == a[1..] + b;
      RunsConcat(u, Next(u, s, a[0]), a[1..], mid, b, end);
    }
  }

  /** The message whose inbound callback raises is lost: from any reachable state
      in a callback, after the error it is neither handled nor queued, however the
      run goes on, and what was handled before is all that ever is. */
  lemma InboundErrorLosesMessage(u: Setup, before: seq<Event>, s: State, after: seq<Event>, end: State)
    requires u.direction.Inbound? && Runs(u, INIT, before, s) && s.phase.Consumer?
    requires Runs(u, Next(u, s, ConsumerEnds(false)), after, end)
    ensures end.phase == Stopped(Some(s.phase.m)) && end.handled == s.handled
    ensures end.published == s.handled + [s.phase.m] + end.queue
  {
    var t := Next(u, s, ConsumerEnds(false));
    InboundErrorIsFinal(u, t, after, end);
    assert [ConsumerEnds(false)][1..] == [];
    assert Runs(u, s, [ConsumerEnds(false)], t);
    RunsConcat(u, INIT, before, s, [ConsumerEnds(false)], t);
    RunsConcat(u, INIT, before + [ConsumerEnds(false)], t, after, end);
    NothingDroppedOrReordered(u, before + [ConsumerEnds(false)] + after, end);
  }

  /** Such a run from the start: one message is lost to a raising callback, and the
      one published behind it is never handled. */
  lemma InboundErrorHappens(u: Setup, m: Msg) returns (events: seq<Event>, end: State)
    requires u.direction.Inbound? && u.hasConsumer && u.max > 0 && m.channel in u.channels
    ensures Runs(u, INIT, events, end) && Cancel !in events
    ensures end == State([m], [m, m], [], [m], [], Stopped(Some(m)))
  {
    events := [Publish(m), Take, ConsumerEnds(false), Publish(m)];
    var s1 := Next(u, INIT, Publish(m));
    var s2 := Next(u, s1, Take);
    var s3 := Next(u, s2, ConsumerEnds(false));
    end := Next(u, s3, Publish(m));
    assert s1 == State([m], [m], [], [], [], Waiting);
    assert s2 == State([], [m], [], [m], [], Consumer(m));
    assert events[1..][1..][1..][1..] == [];
    assert Runs(u, s3, events[3..], end) && events[3..] == events[2..][1..];
    assert Runs(u, s2, events[2..], end) && events[2..] == events[1..][1..];
    assert Runs(u, s1, events[1..], end);
  }

  // -------------------------------------------- one consumer per direction

  /** The manager's lifecycle. `dispatchers` and `inboundLoops` count the tasks
      ever created. */
  datatype Manager = Manager(started: bool, hasLoop: bool, channels: nat, dispatchers: nat,
                             inboundLoops: nat, starters: nat)

  function Start(m: Manager): Manager {
    if m.started || m.channels == 0 || !m.hasLoop then m
    else m.(started := true, dispatchers := m.dispatchers + 1, inboundLoops := m.inboundLoops + 1,
            starters := m.starters + m.channels)
  }

  function Stop(m: Manager): Manager { m.(started := false, hasLoop := false) }

  class ChannelManager {
    var started: bool
    var hasLoop: bool
    var channels: seq<string>
    var dispatchers: nat
    var inboundLoops: nat
    var starters: nat

    function View(): Manager
      reads this
    {
      Manager(started, hasLoop, |channels|, dispatchers, inboundLoops, starters)
    }

    constructor (channels: seq<string>, hasLoop: bool)
      ensures View() == Manager(false, hasLoop, |channels|, 0, 0, 0)
    {
      started, dispatchers, inboundLoops, starters := false, 0, 0, 0;
      this.hasLoop := hasLoop;
      this.channels := channels;
    }

    method StartService()
      modifies this
      ensures View() == Start(old(View()))
    {
      if started { return; }
      if channels == [] { return; }
      if !hasLoop { return; }
      started := true;
      dispatchers := dispatchers + 1;
      inboundLoops := inboundLoops + 1;
      for k := 0 to |channels|
        invariant starters == old(starters) + k
        invariant started && hasLoop && channels == old(channels)
        invariant dispatchers == old(dispatchers) + 1 && inboundLoops == old(inboundLoops) + 1
      {
        starters := starters + 1;
      }
    }

    method StopService()
      modifies this
      ensures View() == Stop(old(View()))
    {
      if hasLoop { hasLoop := false; }
      started := false;
    }
  }

  ghost predicate LifecycleRuns(m: Manager, starts: seq<bool>, end: Manager)
    decreases |starts|
  {
    if starts == [] then end == m
    else LifecycleRuns(if starts[0] then Start(m) else Stop(m), starts[1..], end)
  }

  /** A manager that is started, or has no loop or no channels, creates nothing. */
  lemma {:induction false} NothingMoreIsCreated(m: Manager, starts: seq<bool>, end: Manager)
    requires LifecycleRuns(m, starts, end) && (m.started || !m.hasLoop || m.channels == 0)
    ensures end.dispatchers == m.dispatchers && end.inboundLoops == m.inboundLoops && end.starters == m.starters
    decreases |starts|
  {
    if starts != [] { NothingMoreIsCreated(if starts[0] then Start(m) else Stop(m), starts[1..], end); }
  }

  /** Whatever the order of starts and stops, a manager creates one consumer per
      direction and one starter per channel in its life when it has a channel and
      a loop and the first call is a start, and nothing otherwise. */
  lemma OneConsumerPerDirection(channels: nat, hasLoop: bool, starts: seq<bool>, end: Manager)
    requires LifecycleRuns(Manager(false, hasLoop, channels, 0, 0, 0), starts, end)
    ensures var runs := channels >= 1 && hasLoop && starts != [] && starts[0];
            && end.dispatchers == end.inboundLoops == (if runs then 1 else 0)
            && end.starters == if runs then channels else 0
  {
    var m := Manager(false, hasLoop, channels, 0, 0, 0);
    if starts == [] {
    } else {
      NothingMoreIsCreated(if starts[0] then Start(m) else Stop(m), starts[1..], end);
    }
  }
}
