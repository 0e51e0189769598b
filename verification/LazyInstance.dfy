/** Double-checked lazy construction (models/utils.py), any number of threads. */
module LazyInstance {
  import opened Wrappers

  type Thread = nat
  type Instance = nat

  /** `_resolve`, one step a shared access. */
  datatype Pc =
    | Idle
    | Waiting                          // the unlocked read found nothing
    | Locked                           // has the lock, about to read again
    | Calling                          // has the lock, in the factory
    | Leaving                          // about to read the result
    | Returned(result: Option<Instance>)
    | Raised

  /** `made` numbers the instances built; `failures` counts the factory calls
      that raised or returned nothing. */
  datatype State = State(instance: Option<Instance>, lock: Option<Thread>, threads: map<Thread, Pc>,
                         calls: nat, made: nat, failures: nat)

  datatype Move = Access | Acquire | ReadAgain | Build | BuildNone | Raise | ReadResult
  datatype Event = Event(thread: Thread, move: Move)

  const INIT: State := State(None, None, map[], 0, 0, 0)

  function At(s: State, t: Thread): Pc { if t in s.threads then s.threads[t] else Idle }
  function Go(s: State, t: Thread, pc: Pc): State { s.(threads := s.threads[t := pc]) }

  predicate Can(s: State, e: Event) {
    var pc := At(s, e.thread);
    match e.move
    case Access => pc.Idle? || pc.Returned? || pc.Raised?
    case Acquire => pc.Waiting? && s.lock.None?
    case ReadAgain => pc.Locked?
    case Build => pc.Calling?
    case BuildNone => pc.Calling?
    case Raise => pc.Calling?
    case ReadResult => pc.Leaving?
  }

  function Next(s: State, e: Event): State
    requires Can(s, e)
  {
    var t := e.thread;
    match e.move
    case Access => Go(s, t, if s.instance.None? then Waiting else Leaving)
    case Acquire => Go(s, t, Locked).(lock := Some(t))
    case ReadAgain =>
      if s.instance.None? then Go(s, t, Calling).(calls := s.calls + 1)
      else Go(s, t, Leaving).(lock := None)
    case Build => Go(s, t, Leaving).(lock := None, instance := Some(s.made), made := s.made + 1)
    case BuildNone => Go(s, t, Leaving).(lock := None, failures := s.failures + 1)
    case Raise => Go(s, t, Raised).(lock := None, failures := s.failures + 1)
    case ReadResult => Go(s, t, Returned(s.instance))
  }

  ghost predicate Runs(s: State, events: seq<Event>, end: State)
    decreases |events|
  {
    if events == [] then end == s
    else Can(s, events[0]) && Runs(Next(s, events[0]), events[1..], end)
  }

  predicate Inside(pc: Pc) { pc.Locked? || pc.Calling? }

  ghost predicate Inv(s: State) {
    && (forall t: Thread :: Inside(At(s, t)) <==> s.lock == Some(t))
    && s.made <= 1 && s.instance == (if s.made == 0 then None else Some(0))
    && (forall t: Thread :: At(s, t).Calling? ==> s.made == 0)
    && s.calls == s.made + s.failures + (if s.lock.Some? && At(s, s.lock.value).Calling? then 1 else 0)
    && (forall t: Thread :: At(s, t).Returned? && At(s, t).result.Some? ==> At(s, t).result == s.instance)
    && (s.failures == 0 ==> forall t: Thread ::
          (At(s, t).Leaving? ==> s.made == 1) && (At(s, t).Returned? ==> At(s, t).result.Some?))
    && (s.failures == 0 ==> forall t: Thread :: !At(s, t).Raised?)
  }

  lemma StepKeepsInv(s: State, e: Event)
    requires Inv(s) && Can(s, e)
    ensures Inv(Next(s, e))
  {
    var t, s1 := e.thread, Next(s, e);
    assert forall u: Thread :: u != t ==> At(s1, u) == At(s, u);
  }

  lemma {:induction false} RunsKeepInv(s: State, events: seq<Event>, end: State)
    requires Inv(s) && Runs(s, events, end)
    ensures Inv(end)
    decreases |events|
  {
    if events != [] {
      StepKeepsInv(s, events[0]);
      RunsKeepInv(Next(s, events[0]), events[1..], end);
    }
  }

  /** However the threads interleave, at most one instance is ever built, all
      callers that get one get that one, and every other factory call failed. */
  lemma OneInstance(events: seq<Event>, end: State, t: Thread, u: Thread)
    requires Runs(INIT, events, end)
    ensures end.made <= 1 && end.calls <= end.failures + 1
    ensures At(end, t).Returned? && At(end, u).Returned? && At(end, t).result.Some? && At(end, u).result.Some?
            ==> At(end, t).result == At(end, u).result == end.instance
  {
    RunsKeepInv(INIT, events, end);
  }

  /** A factory that neither raises nor returns nothing is called at most once,
      and every caller that returns gets the instance. */
  lemma FactoryCalledOnce(events: seq<Event>, end: State, t: Thread)
    requires Runs(INIT, events, end) && end.failures == 0
    ensures end.calls <= 1 && !At(end, t).Raised?
    ensures At(end, t).Returned? ==> At(end, t).result == Some(0) == end.instance && end.calls == 1
  {
    RunsKeepInv(INIT, events, end);
  }
}
