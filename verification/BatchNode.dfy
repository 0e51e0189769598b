/** The planner and the node together: what the node's two forms schedule, when
    that is serializable, and how the outputs come back in call order. */
module BatchNode {
  import opened Wrappers
  import opened ParallelSafety
  import opened SafeToolNode

  // ------------------------------------------- the lanes of the two forms

  function Singles(indices: seq<nat>): (ls: Lanes)
    ensures |ls| == |indices|
  {
    seq(|indices|, k requires 0 <= k < |indices| => [indices[k]])
  }

  /** `run_group`: a concurrent group of several calls starts them all at once. */
  function GroupLanes(g: BatchGroup): Lanes {
    if g.concurrent && |g.indices| > 1 then Singles(g.indices) else [g.indices]
  }

  /** The event-loop form gathers the groups. */
  function AsyncLanes(groups: seq<BatchGroup>): Lanes {
    if groups == [] then [] else GroupLanes(groups[0]) + AsyncLanes(groups[1..])
  }

  function SingleIndices(groups: seq<BatchGroup>): seq<nat> {
    if groups == [] then []
    else SingleIndices(groups[..|groups| - 1])
         + (if groups[|groups| - 1].concurrent then groups[|groups| - 1].indices else [])
  }

  function SequentialLanes(groups: seq<BatchGroup>): Lanes {
    if groups == [] then []
    else SequentialLanes(groups[..|groups| - 1])
         + (if groups[|groups| - 1].concurrent then [] else [groups[|groups| - 1].indices])
  }

  /** The thread-pool form submits one future a concurrent call, then one a
      sequential group. */
  function PoolLanes(groups: seq<BatchGroup>): Lanes {
    Singles(SingleIndices(groups)) + SequentialLanes(groups)
  }

  /** Two calls the plan orders: same sequential group, in that order. */
  ghost predicate PlanOrders(groups: seq<BatchGroup>, i: nat, j: nat) {
    exists g :: g in groups && !g.concurrent && InLane(g.indices, i, j)
  }

  lemma {:induction false} AsyncLaneOfGroup(groups: seq<BatchGroup>, lane: seq<nat>)
    ensures lane in AsyncLanes(groups) <==> exists g :: g in groups && lane in GroupLanes(g)
  {
    if groups != [] {
      AsyncLaneOfGroup(groups[1..], lane);
      assert groups == [groups[0]] + groups[1..];
      assert groups[0] in groups;
    }
  }

  lemma {:induction false} SequentialLaneOfGroup(groups: seq<BatchGroup>, lane: seq<nat>)
    ensures lane in SequentialLanes(groups) <==> exists g :: g in groups && !g.concurrent && lane == g.indices
  {
    if groups != [] {
      SequentialLaneOfGroup(groups[..|groups| - 1], lane);
      assert groups == groups[..|groups| - 1] + [groups[|groups| - 1]];
    }
  }

  lemma {:induction false} SingleIndexOfGroup(groups: seq<BatchGroup>, i: nat)
    ensures i in SingleIndices(groups) <==> exists g :: g in groups && g.concurrent && i in g.indices
  {
    if groups != [] {
      SingleIndexOfGroup(groups[..|groups| - 1], i);
      assert groups == groups[..|groups| - 1] + [groups[|groups| - 1]];
    }
  }

  /** Both forms order exactly the pairs the plan orders. */
  lemma FormsOrderAlike(groups: seq<BatchGroup>, i: nat, j: nat)
    ensures Before(AsyncLanes(groups), i, j) <==> PlanOrders(groups, i, j)
    ensures Before(PoolLanes(groups), i, j) <==> PlanOrders(groups, i, j)
  {
    if Before(AsyncLanes(groups), i, j) {
      var lane :| lane in AsyncLanes(groups) && InLane(lane, i, j);
      AsyncLaneOfGroup(groups, lane);
    }
    if Before(PoolLanes(groups), i, j) {
      var lane :| lane in PoolLanes(groups) && InLane(lane, i, j);
      assert lane in SequentialLanes(groups);
      SequentialLaneOfGroup(groups, lane);
    }
    if PlanOrders(groups, i, j) {
      var g :| g in groups && !g.concurrent && InLane(g.indices, i, j);
      assert g.indices in GroupLanes(g);
      AsyncLaneOfGroup(groups, g.indices);
      SequentialLaneOfGroup(groups, g.indices);
      assert g.indices in PoolLanes(groups);
    }
  }

  lemma FormsCoverAlike(groups: seq<BatchGroup>, g: BatchGroup, i: nat)
    requires g in groups && i in g.indices
    ensures Covered(AsyncLanes(groups), i) && Covered(PoolLanes(groups), i)
  {
    var k :| 0 <= k < |g.indices| && g.indices[k] == i;
    var lane := if g.concurrent && |g.indices| > 1 then [i] else g.indices;
    assert lane in GroupLanes(g) by {
      if g.concurrent && |g.indices| > 1 { assert Singles(g.indices)[k] == lane; }
    }
    AsyncLaneOfGroup(groups, lane);
    if g.concurrent {
      SingleIndexOfGroup(groups, i);
      var m :| 0 <= m < |SingleIndices(groups)| && SingleIndices(groups)[m] == i;
      assert PoolLanes(groups)[m] == [i] && i in [i];
    } else {
      SequentialLaneOfGroup(groups, g.indices);
      assert g.indices in PoolLanes(groups);
    }
  }

  // ------------------------------------------------ every call exactly once

  /** How often call `i` occurs in the lanes. */
  function Times(lanes: Lanes, i: nat): nat {
    if lanes == [] then 0 else multiset(lanes[0])[i] + Times(lanes[1..], i)
  }

  lemma {:induction false} TimesConcat(a: Lanes, b: Lanes, i: nat)
    ensures Times(a + b, i) == Times(a, i) + Times(b, i)
  {
    if a == [] {
      assert a + b == b;
    } else {
      assert (a + b)[1..] == a[1..] + b;
      TimesConcat(a[1..], b, i);
    }
  }

  lemma TimesOfOne(lane: seq<nat>, i: nat)
    ensures Times([lane], i) == multiset(lane)[i]
  {
    assert [lane][1..] == [];
  }

  lemma {:induction false} TimesOfSingles(indices: seq<nat>, i: nat)
    ensures Times(Singles(indices), i) == multiset(indices)[i]
  {
    if indices != [] {
      TimesOfSingles(indices[1..], i);
      assert Singles(indices)[1..] == Singles(indices[1..]);
      assert indices == [indices[0]] + indices[1..];
    }
  }

  function IndexLanes(groups: seq<BatchGroup>): Lanes {
    seq(|groups|, a requires 0 <= a < |groups| => groups[a].indices)
  }

  lemma GroupTimes(g: BatchGroup, i: nat)
    ensures Times(GroupLanes(g), i) == multiset(g.indices)[i]
  {
    TimesOfSingles(g.indices, i);
    TimesOfOne(g.indices, i);
  }

  lemma {:induction false} AsyncTimes(groups: seq<BatchGroup>, i: nat)
    ensures Times(AsyncLanes(groups), i) == Times(IndexLanes(groups), i)
  {
    if groups != [] {
      var g, rest := groups[0], groups[1..];
      AsyncTimes(rest, i);
      GroupTimes(g, i);
      TimesConcat(GroupLanes(g), AsyncLanes(rest), i);
      IndexTimesFirst(g, rest, i);
      assert groups == [g] + rest;
    }
  }

  lemma IndexTimesFirst(g: BatchGroup, rest: seq<BatchGroup>, i: nat)
    ensures Times(IndexLanes([g] + rest), i) == multiset(g.indices)[i] + Times(IndexLanes(rest), i)
  {
    assert IndexLanes([g] + rest) == [g.indices] + IndexLanes(rest);
    TimesConcat([g.indices], IndexLanes(rest), i);
    TimesOfOne(g.indices, i);
  }

  lemma PoolTimesSplit(groups: seq<BatchGroup>, i: nat)
    ensures Times(PoolLanes(groups), i) == multiset(SingleIndices(groups))[i] + Times(SequentialLanes(groups), i)
  {
    TimesConcat(Singles(SingleIndices(groups)), SequentialLanes(groups), i);
    TimesOfSingles(SingleIndices(groups), i);
  }

  lemma PoolTimesStep(groups: seq<BatchGroup>, i: nat)
    requires groups != []
    ensures var init, last := groups[..|groups| - 1], groups[|groups| - 1];
            Times(PoolLanes(groups), i) == Times(PoolLanes(init), i) + multiset(last.indices)[i]
  {
    var init, last := groups[..|groups| - 1], groups[|groups| - 1];
    PoolTimesSplit(groups, i);
    PoolTimesSplit(init, i);
    if last.concurrent {
      assert SequentialLanes(groups) == SequentialLanes(init);
      assert SingleIndices(groups) == SingleIndices(init) + last.indices;
    } else {
      assert SingleIndices(groups) == SingleIndices(init);
      TimesConcat(SequentialLanes(init), [last.indices], i);
      TimesOfOne(last.indices, i);
    }
  }

  lemma IndexTimesStep(groups: seq<BatchGroup>, i: nat)
    requires groups != []
    ensures var init, last := groups[..|groups| - 1], groups[|groups| - 1];
            Times(IndexLanes(groups), i) == Times(IndexLanes(init), i) + multiset(last.indices)[i]
  {
    var init, last := groups[..|groups| - 1], groups[|groups| - 1];
    assert IndexLanes(groups) == IndexLanes(init) + [last.indices];
    TimesConcat(IndexLanes(init), [last.indices], i);
    TimesOfOne(last.indices, i);
  }

  lemma {:induction false} PoolTimes(groups: seq<BatchGroup>, i: nat)
    ensures Times(PoolLanes(groups), i) == Times(IndexLanes(groups), i)
    decreases |groups|
  {
    if groups == [] {
      PoolTimesSplit(groups, i);
    } else {
      PoolTimesStep(groups, i);
      IndexTimesStep(groups, i);
      PoolTimes(groups[..|groups| - 1], i);
    }
  }

  lemma {:induction false} CountInAscending(s: seq<nat>, i: nat)
    requires forall a, b :: 0 <= a < b < |s| ==> s[a] < s[b]
    ensures multiset(s)[i] == if i in s then 1 else 0
  {
    if s != [] {
      CountInAscending(s[1..], i);
      assert s == [s[0]] + s[1..];
    }
  }

  lemma {:induction false} TimesInGroups(groups: seq<BatchGroup>, i: nat)
    requires forall a :: 0 <= a < |groups| ==> multiset(groups[a].indices)[i] == if i in groups[a].indices then 1 else 0
    requires forall a, b :: 0 <= a < b < |groups| ==> !(i in groups[a].indices && i in groups[b].indices)
    ensures Times(IndexLanes(groups), i) == if exists g :: g in groups && i in g.indices then 1 else 0
  {
    if groups != [] {
      assert IndexLanes(groups)[1..] == IndexLanes(groups[1..]);
      TimesInGroups(groups[1..], i);
      assert groups == [groups[0]] + groups[1..];
      if exists g :: g in groups[1..] && i in g.indices {
        var g :| g in groups[1..] && i in g.indices;
        assert i !in groups[0].indices;
      }
    }
  }

  /** The groups partition the batch. */
  lemma PlanPartitions(ks: seq<Kind>, plan: BatchPlan, i: nat)
    requires IsPlan(ks, plan)
    ensures Times(IndexLanes(plan.groups), i) == if i < |ks| then 1 else 0
    ensures i < |ks| <==> exists g :: g in plan.groups && i in g.indices
  {
    var groups := plan.groups;
    if plan.barrier {
      var whole := WholeBatch(|ks|);
      CountInAscending(whole.indices, i);
      if i < |ks| { assert whole.indices[i] == i; }
      TimesInGroups(groups, i);
      assert whole in groups;
    } else {
      forall a | 0 <= a < |groups|
        ensures multiset(groups[a].indices)[i] == if i in groups[a].indices then 1 else 0
        ensures i in groups[a].indices ==> i < |ks| && GroupAt(ks, i) == groups[a]
      {
        GroupAtSound(ks, groups[a].indices[0]);
        CountInAscending(groups[a].indices, i);
      }
      TimesInGroups(groups, i);
      if i < |ks| { GroupAtSound(ks, i); }
    }
  }

  /** Under both forms every call of the batch runs exactly once. */
  lemma EveryCallOnce(ks: seq<Kind>, plan: BatchPlan, i: nat)
    requires IsPlan(ks, plan)
    ensures Times(AsyncLanes(plan.groups), i) == Times(PoolLanes(plan.groups), i) == if i < |ks| then 1 else 0
  {
    AsyncTimes(plan.groups, i);
    PoolTimes(plan.groups, i);
    PlanPartitions(ks, plan, i);
  }

  // ------------------------------------------------ planner and interleaving

  lemma GroupsAscend(ks: seq<Kind>, plan: BatchPlan, i: nat, j: nat)
    requires IsPlan(ks, plan) && PlanOrders(plan.groups, i, j)
    ensures i < j < |ks|
  {
    var g :| g in plan.groups && !g.concurrent && InLane(g.indices, i, j);
    if !plan.barrier {
      assert g == GroupAt(ks, g.indices[0]);
      GroupAtSound(ks, g.indices[0]);
      assert j in g.indices;
    }
  }

  lemma PlanSchedules(ks: seq<Kind>, plan: BatchPlan)
    requires IsPlan(ks, plan)
    ensures Schedules(AsyncLanes(plan.groups), |ks|) && Schedules(PoolLanes(plan.groups), |ks|)
    ensures forall i: nat, j: nat :: Before(AsyncLanes(plan.groups), i, j) ==> i < j
    ensures forall i: nat, j: nat :: Before(PoolLanes(plan.groups), i, j) ==> i < j
  {
    forall i: nat, j: nat
      ensures Before(AsyncLanes(plan.groups), i, j) ==> i < j < |ks|
      ensures Before(PoolLanes(plan.groups), i, j) ==> i < j < |ks|
    {
      FormsOrderAlike(plan.groups, i, j);
      if PlanOrders(plan.groups, i, j) { GroupsAscend(ks, plan, i, j); }
    }
    forall i: nat | i < |ks| ensures Covered(AsyncLanes(plan.groups), i) && Covered(PoolLanes(plan.groups), i) {
      PlanPartitions(ks, plan, i);
      var g :| g in plan.groups && i in g.indices;
      FormsCoverAlike(plan.groups, g, i);
    }
  }

  /** What the planner may assume of the calls: a file call touches its own path
      and writes it only in write mode. Nothing is assumed of the other calls. */
  ghost predicate FileFootprints(ks: seq<Kind>, fs: seq<Footprint>) {
    && |fs| == |ks|
    && (forall i :: 0 <= i < |ks| ==> fs[i].writes <= fs[i].touches)
    && (forall i :: 0 <= i < |ks| && ks[i].File? ==>
          fs[i] == Footprint(iset{ks[i].path}, if ks[i].mode == Write then iset{ks[i].path} else iset{}))
  }

  /** No safe call shares with another call a path that either writes. */
  ghost predicate SafeCallsIsolated(ks: seq<Kind>, fs: seq<Footprint>)
    requires |fs| == |ks|
  {
    forall i, j :: 0 <= i < j < |ks| && (ks[i].Safe? || ks[j].Safe?) ==> !Conflict(fs[i], fs[j])
  }

  lemma PlanOrdersFileConflict(ks: seq<Kind>, plan: BatchPlan, fs: seq<Footprint>, i: nat, j: nat)
    requires IsPlan(ks, plan) && FileFootprints(ks, fs) && i < j < |ks| && Conflict(fs[i], fs[j])
    requires plan.barrier || (ks[i].File? && ks[j].File?)
    ensures PlanOrders(plan.groups, i, j)
  {
    if plan.barrier {
      var whole := WholeBatch(|ks|);
      assert whole.indices[i] == i && whole.indices[j] == j;
      assert InLane(whole.indices, i, j) && whole in plan.groups;
    } else {
      var p := ks[i].path;
      assert ks[j].path == p;
      assert OnPath(ks[i], p) && OnPath(ks[j], p);
      var g := GroupAt(ks, i);
      GroupAtSound(ks, i);
      IndicesOfSound(ks, p);
      assert i in g.indices && j in g.indices;
      assert InLane(g.indices, i, j) by {
        var a :| 0 <= a < |g.indices| && g.indices[a] == i;
        var b :| 0 <= b < |g.indices| && g.indices[b] == j;
        assert a < b;
      }
    }
  }

  lemma SafeCallIsUnordered(ks: seq<Kind>, plan: BatchPlan, i: nat, j: nat)
    requires IsPlan(ks, plan) && !plan.barrier && i < |ks| && j < |ks| && (ks[i].Safe? || ks[j].Safe?)
    ensures !PlanOrders(plan.groups, i, j)
  {
    forall g | g in plan.groups && !g.concurrent ensures !InLane(g.indices, i, j) {
      assert g == GroupAt(ks, g.indices[0]);
      GroupAtSound(ks, g.indices[0]);
      assert i in g.indices ==> GroupAt(ks, i) == g;
      assert j in g.indices ==> GroupAt(ks, j) == g;
    }
  }

  /** The planner orders every conflict exactly when it raised the barrier or
      the safe calls are isolated. */
  lemma PlanOrdersConflicts(ks: seq<Kind>, plan: BatchPlan, fs: seq<Footprint>)
    requires IsPlan(ks, plan) && FileFootprints(ks, fs)
    ensures (forall i: nat, j: nat :: i < j < |fs| && Conflict(fs[i], fs[j]) ==> PlanOrders(plan.groups, i, j))
            <==> plan.barrier || SafeCallsIsolated(ks, fs)
  {
    forall i: nat, j: nat | i < j < |fs| && Conflict(fs[i], fs[j])
      ensures plan.barrier || (ks[i].File? && ks[j].File?) ==> PlanOrders(plan.groups, i, j)
      ensures !plan.barrier && (ks[i].Safe? || ks[j].Safe?) ==> !PlanOrders(plan.groups, i, j)
    {
      if plan.barrier || (ks[i].File? && ks[j].File?) {
        PlanOrdersFileConflict(ks, plan, fs, i, j);
      } else if ks[i].Safe? || ks[j].Safe? {
        SafeCallIsUnordered(ks, plan, i, j);
      }
    }
    if !plan.barrier {
      assert forall i :: 0 <= i < |ks| ==> !Blocks(ks[i]);
    }
  }

  /** Serializability, end to end: for every batch, whatever the calls do and
      however either form interleaves them, the files and all outputs come out
      as if the calls ran one after another - exactly when the planner raised
      the barrier or the safe calls are isolated. */
  lemma BatchIsSerializable(ks: seq<Kind>, plan: BatchPlan, fs: seq<Footprint>)
    requires IsPlan(ks, plan) && FileFootprints(ks, fs)
    ensures Serializable(AsyncLanes(plan.groups), fs) <==> plan.barrier || SafeCallsIsolated(ks, fs)
    ensures Serializable(PoolLanes(plan.groups), fs) <==> plan.barrier || SafeCallsIsolated(ks, fs)
  {
    PlanSchedules(ks, plan);
    forall i: nat, j: nat
      ensures Before(AsyncLanes(plan.groups), i, j) <==> PlanOrders(plan.groups, i, j)
      ensures Before(PoolLanes(plan.groups), i, j) <==> PlanOrders(plan.groups, i, j)
    {
      FormsOrderAlike(plan.groups, i, j);
    }
    PlanOrdersConflicts(ks, plan, fs);
    SerializableIffOrdered(AsyncLanes(plan.groups), fs);
    SerializableIffOrdered(PoolLanes(plan.groups), fs);
  }

  /** A search beside a write is planned as two concurrent groups, so the two
      calls are not serializable: the search may or may not see the new file. */
  lemma SearchRacesWrite(plan: BatchPlan)
    requires IsPlan([Safe, File("a", Write)], plan)
    ensures Classify(ToolCall("search_files", NoPath), map[], (t: string) => Some(t)) == Safe
    ensures Classify(ToolCall("write_file", PathArg("a")), map[], (t: string) => Some(t)) == File("a", Write)
    ensures !Serializable(AsyncLanes(plan.groups), [Footprint(iset{"a"}, iset{}), Footprint(iset{"a"}, iset{"a"})])
  {
    SafeRacesWrite([Safe, File("a", Write)], plan, "a", iset{"a"});
  }

  /** The same for any safe call that touches the path another call writes. */
  lemma SafeRacesWrite(ks: seq<Kind>, plan: BatchPlan, p: Path, touched: iset<Path>)
    requires ks == [Safe, File(p, Write)] && IsPlan(ks, plan) && p in touched
    ensures !Serializable(AsyncLanes(plan.groups), [Footprint(touched, iset{}), Footprint(iset{p}, iset{p})])
  {
    var fs := [Footprint(touched, iset{}), Footprint(iset{p}, iset{p})];
    assert p in fs[0].touches && p in fs[1].writes;
    assert Conflict(fs[0], fs[1]);
    assert !SafeCallsIsolated(ks, fs);
    BatchIsSerializable(ks, plan, fs);
  }

  // ----------------------------- what holds without the isolation condition

  ghost predicate SafeCallsOnlyRead(ks: seq<Kind>, fs: seq<Footprint>)
    requires |fs| == |ks|
  {
    forall i :: 0 <= i < |ks| && ks[i].Safe? ==> fs[i].writes == iset{}
  }

  /** The batch with its safe calls blanked out. */
  function Mask(ks: seq<Kind>, ps: seq<Prog>): (r: seq<Prog>)
    requires |ks| == |ps|
    ensures |r| == |ps|
  {
    seq(|ps|, i requires 0 <= i < |ps| => if ks[i].Safe? then Idle() else ps[i])
  }

  ghost function MaskFootprints(ks: seq<Kind>, fs: seq<Footprint>): (r: seq<Footprint>)
    requires |ks| == |fs|
    ensures |r| == |fs|
  {
    seq(|fs|, i requires 0 <= i < |fs| => if ks[i].Safe? then Footprint(iset{}, iset{}) else fs[i])
  }

  lemma ReadStepKeepsStore(p: Prog, f: Footprint, s: Store)
    requires p.todo != [] && Fits(p, f) && f.writes == iset{}
    ensures StepStore(p, s) == s
  {
    assert p.todo[0].path(p.seen) !in f.writes;
  }

  lemma {:induction false} ReaderKeepsStore(p: Prog, f: Footprint, s: Store)
    requires Fits(p, f) && f.writes == iset{}
    ensures Finish(p, s).1 == s
    decreases |p.todo|
  {
    if p.todo != [] {
      ReadStepKeepsStore(p, f, s);
      var p1 := StepProg(p, s);
      assert forall k :: 0 <= k < |p1.todo| ==> p1.todo[k] == p.todo[k + 1];
      ReaderKeepsStore(p1, f, s);
    }
  }

  lemma MaskFirst(ks: seq<Kind>, ps: seq<Prog>)
    requires |ks| == |ps| && ps != []
    ensures Mask(ks, ps)[0] == (if ks[0].Safe? then Idle() else ps[0])
    ensures Mask(ks, ps)[1..] == Mask(ks[1..], ps[1..])
  {
  }

  lemma {:induction false} MaskKeepsSerial(ks: seq<Kind>, ps: seq<Prog>, fs: seq<Footprint>, s: Store)
    requires |ks| == |fs| && FitsAll(ps, fs) && SafeCallsOnlyRead(ks, fs)
    ensures SerialStore(Mask(ks, ps), s) == SerialStore(ps, s)
    ensures forall i :: 0 <= i < |ks| && !ks[i].Safe? ==> SerialOutputs(Mask(ks, ps), s)[i] == SerialOutputs(ps, s)[i]
    decreases |ps|
  {
    if ps != [] {
      if ks[0].Safe? { ReaderKeepsStore(ps[0], fs[0], s); }
      MaskFirst(ks, ps);
      var t := Finish(ps[0], s).1;
      MaskKeepsSerial(ks[1..], ps[1..], fs[1..], t);
      var a, b := SerialOutputs(Mask(ks, ps), s), SerialOutputs(ps, s);
      assert a[1..] == SerialOutputs(Mask(ks[1..], ps[1..]), t) && b[1..] == SerialOutputs(ps[1..], t);
      forall i | 0 <= i < |ks| && !ks[i].Safe? ensures a[i] == b[i] {
        if i > 0 { assert a[i] == a[1..][i - 1] && b[i] == b[1..][i - 1]; }
      }
    }
  }

  lemma {:induction false} MaskedRun(lanes: Lanes, ks: seq<Kind>, c: Config,
                            fs: seq<Footprint>, moves: seq<nat>, end: Config)
    returns (masked: seq<nat>)
    requires |ks| == |fs| && FitsAll(c.progs, fs) && SafeCallsOnlyRead(ks, fs) && IsRun(lanes, c, moves, end)
    ensures |end.progs| == |c.progs|
    ensures IsRun(lanes, Config(Mask(ks, c.progs), c.store), masked, Config(Mask(ks, end.progs), end.store))
    decreases |moves|
  {
    masked := [];
    if moves != [] {
      var j := moves[0];
      var c1 := Exec(c, j);
      masked := MaskedRun(lanes, ks, c1, fs, moves[1..], end);
      var m := Config(Mask(ks, c.progs), c.store);
      if ks[j].Safe? {
        ReadStepKeepsStore(c.progs[j], fs[j], c.store);
        assert Mask(ks, c1.progs) == Mask(ks, c.progs);
      } else {
        assert Enabled(lanes, m, j);
        assert Exec(m, j) == Config(Mask(ks, c1.progs), c1.store);
        assert ([j] + masked)[1..] == masked;
        masked := [j] + masked;
      }
    }
  }

  /** Safe calls that only read never disturb the files: whatever they overlap
      with, the final files and every file call's output are the serial ones. */
  lemma FilesStaySerial(ks: seq<Kind>, plan: BatchPlan, fs: seq<Footprint>, ps: seq<Prog>, s: Store,
                        moves: seq<nat>, end: Config)
    requires IsPlan(ks, plan) && FileFootprints(ks, fs) && FitsAll(ps, fs) && SafeCallsOnlyRead(ks, fs)
    requires IsRun(AsyncLanes(plan.groups), Config(ps, s), moves, end)
             || IsRun(PoolLanes(plan.groups), Config(ps, s), moves, end)
    requires Done(end) && !plan.barrier
    ensures end.store == SerialStore(ps, s)
    ensures |end.progs| == |ps|
    ensures forall i :: 0 <= i < |ks| && ks[i].File? ==> Outputs(end)[i] == SerialOutputs(ps, s)[i]
  {
    MaskedPlanIsOrdered(ks, plan, fs);
    if IsRun(AsyncLanes(plan.groups), Config(ps, s), moves, end) {
      MaskedRunIsSerial(AsyncLanes(plan.groups), ks, fs, ps, s, moves, end);
    } else {
      MaskedRunIsSerial(PoolLanes(plan.groups), ks, fs, ps, s, moves, end);
    }
  }

  lemma MaskedPlanIsOrdered(ks: seq<Kind>, plan: BatchPlan, fs: seq<Footprint>)
    requires IsPlan(ks, plan) && FileFootprints(ks, fs) && !plan.barrier
    ensures Ordered(AsyncLanes(plan.groups), MaskFootprints(ks, fs))
            && Ordered(PoolLanes(plan.groups), MaskFootprints(ks, fs))
  {
    var mf := MaskFootprints(ks, fs);
    forall i: nat, j: nat | i < j < |mf| && Conflict(mf[i], mf[j])
      ensures Before(AsyncLanes(plan.groups), i, j) && Before(PoolLanes(plan.groups), i, j)
    {
      assert !Blocks(ks[i]) && !Blocks(ks[j]);
      PlanOrdersFileConflict(ks, plan, fs, i, j);
      FormsOrderAlike(plan.groups, i, j);
    }
  }

  lemma MaskedRunIsSerial(lanes: Lanes, ks: seq<Kind>, fs: seq<Footprint>, ps: seq<Prog>, s: Store,
                          moves: seq<nat>, end: Config)
    requires |ks| == |fs| && FitsAll(ps, fs) && SafeCallsOnlyRead(ks, fs)
    requires Ordered(lanes, MaskFootprints(ks, fs)) && IsRun(lanes, Config(ps, s), moves, end) && Done(end)
    ensures |end.progs| == |ps| && end.store == SerialStore(ps, s)
    ensures forall i :: 0 <= i < |ks| && ks[i].File? ==> Outputs(end)[i] == SerialOutputs(ps, s)[i]
  {
    var masked := MaskedRun(lanes, ks, Config(ps, s), fs, moves, end);
    var mend := Config(Mask(ks, end.progs), end.store);
    MaskedEndsSerially(lanes, ks, fs, ps, s, masked, mend);
    MaskKeepsSerial(ks, ps, fs, s);
    forall i | 0 <= i < |ks| && ks[i].File? ensures Outputs(end)[i] == SerialOutputs(ps, s)[i] {
      assert Outputs(mend)[i] == Outputs(end)[i];
    }
  }

  lemma MaskedEndsSerially(lanes: Lanes, ks: seq<Kind>, fs: seq<Footprint>, ps: seq<Prog>, s: Store,
                           masked: seq<nat>, mend: Config)
    requires |ks| == |fs| && FitsAll(ps, fs) && Ordered(lanes, MaskFootprints(ks, fs))
    requires IsRun(lanes, Config(Mask(ks, ps), s), masked, mend) && Done(mend)
    ensures mend.store == SerialStore(Mask(ks, ps), s) && Outputs(mend) == SerialOutputs(Mask(ks, ps), s)
  {
    OrderedIsSerializable(lanes, MaskFootprints(ks, fs));
    assert EndsSerially(lanes, Mask(ks, ps), s, masked, mend);
  }

  // ------------------------------------------------- progress and termination

  function Work(ps: seq<Prog>): nat {
    if ps == [] then 0 else |ps[0].todo| + Work(ps[1..])
  }

  lemma {:induction false} StepDoesWork(ps: seq<Prog>, j: nat, p: Prog)
    requires j < |ps| && |p.todo| < |ps[j].todo|
    ensures Work(ps[j := p]) + |ps[j].todo| == Work(ps) + |p.todo|
  {
    if j > 0 {
      assert ps[j := p][1..] == ps[1..][j - 1 := p];
      StepDoesWork(ps[1..], j - 1, p);
    } else {
      assert ps[j := p][1..] == ps[1..];
    }
  }

  /** No interleaving gets stuck, and none runs longer than the work there is:
      from every state some interleaving completes the batch. */
  lemma {:induction false} BatchCompletes(lanes: Lanes, c: Config) returns (moves: seq<nat>, end: Config)
    requires Schedules(lanes, |c.progs|) && forall i: nat, j: nat :: Before(lanes, i, j) ==> i < j
    ensures IsRun(lanes, c, moves, end) && Done(end) && |moves| == Work(c.progs)
    decreases Work(c.progs)
  {
    if Done(c) {
      NoWorkLeft(c.progs);
      moves, end := [], c;
    } else {
      var j := FirstPending(c);
      assert Enabled(lanes, c, j);
      StepDoesWork(c.progs, j, StepProg(c.progs[j], c.store));
      moves, end := BatchCompletes(lanes, Exec(c, j));
      assert ([j] + moves)[1..] == moves;
      moves := [j] + moves;
    }
  }

  lemma {:induction false} NoWorkLeft(ps: seq<Prog>)
    requires forall i :: 0 <= i < |ps| ==> ps[i].todo == []
    ensures Work(ps) == 0
  {
    if ps != [] { NoWorkLeft(ps[1..]); }
  }

  lemma FirstPending(c: Config) returns (j: nat)
    requires !Done(c)
    ensures j < |c.progs| && c.progs[j].todo != [] && forall i :: 0 <= i < j ==> c.progs[i].todo == []
  {
    j := 0;
    while c.progs[j].todo == []
      invariant j < |c.progs| && forall i :: 0 <= i < j ==> c.progs[i].todo == []
      decreases |c.progs| - j
    {
      j := j + 1;
    }
  }

  // ------------------------------------------------- outputs in call order

  ghost predicate Listed(groups: seq<BatchGroup>, i: nat) { exists g :: g in groups && i in g.indices }

  ghost predicate InRange(groups: seq<BatchGroup>, n: nat) {
    forall g, i: nat :: g in groups && i in g.indices ==> i < n
  }

  /** `Err(i)` is the lookup that fails: no group returned an output for call `i`. */
  ghost predicate CallOrder(groups: seq<BatchGroup>, outs: seq<string>, r: Result<seq<string>, nat>) {
    match r
    case Ok(os) => os == outs && forall i: nat :: i < |outs| ==> Listed(groups, i)
    case Err(i) => i < |outs| && !Listed(groups, i)
  }

  /** The final comprehension over `by_index`. */
  method ReadBack(byIndex: map<nat, string>, n: nat) returns (r: Result<seq<string>, nat>)
    ensures match r
            case Ok(os) => |os| == n && forall i :: 0 <= i < n ==> i in byIndex && os[i] == byIndex[i]
            case Err(i) => i < n && i !in byIndex
  {
    var outputs: seq<string> := [];
    for i := 0 to n
      invariant |outputs| == i && forall k :: 0 <= k < i ==> k in byIndex && outputs[k] == byIndex[k]
    {
      if i !in byIndex { return Err(i); }
      outputs := outputs + [byIndex[i]];
    }
    r := Ok(outputs);
  }

  /** The pairs a task returns: the output of each of its calls, tagged. */
  ghost predicate Tagged(pairs: seq<(nat, string)>, indices: seq<nat>, outs: seq<string>) {
    |pairs| == |indices|
    && forall k :: 0 <= k < |pairs| ==> indices[k] < |outs| && pairs[k] == (indices[k], outs[indices[k]])
  }

  method RunGroup(indices: seq<nat>, outs: seq<string>) returns (pairs: seq<(nat, string)>)
    requires forall i :: i in indices ==> i < |outs|
    ensures Tagged(pairs, indices, outs)
  {
    pairs := [];
    for k := 0 to |indices|
      invariant Tagged(pairs, indices[..k], outs)
    {
      assert indices[k] in indices;
      pairs := pairs + [(indices[k], outs[indices[k]])];
    }
  }

  /** Adds one task's pairs to the dictionary. */
  method Merge(byIndex: map<nat, string>, pairs: seq<(nat, string)>, ghost indices: seq<nat>, ghost outs: seq<string>)
    returns (merged: map<nat, string>)
    requires Tagged(pairs, indices, outs)
    requires forall i :: i in byIndex ==> i < |outs| && byIndex[i] == outs[i]
    ensures forall i :: i in merged <==> i in byIndex || i in indices
    ensures forall i :: i in merged ==> i < |outs| && merged[i] == outs[i]
  {
    merged := byIndex;
    for k := 0 to |pairs|
      invariant forall i :: i in merged <==> i in byIndex || i in indices[..k]
      invariant forall i :: i in merged ==> i < |outs| && merged[i] == outs[i]
    {
      assert indices[..k + 1] == indices[..k] + [indices[k]];
      merged := merged[pairs[k].0 := pairs[k].1];
    }
    assert indices[..|pairs|] == indices;
  }

  /** The event-loop form: gather the groups, fill the dictionary, read it back.
      `outs[i]` is what call `i` returned. */
  method AsyncOutputs(groups: seq<BatchGroup>, outs: seq<string>) returns (r: Result<seq<string>, nat>)
    requires InRange(groups, |outs|)
    ensures CallOrder(groups, outs, r)
  {
    var groupResults: seq<seq<(nat, string)>> := [];
    for a := 0 to |groups|
      invariant |groupResults| == a && forall b :: 0 <= b < a ==> Tagged(groupResults[b], groups[b].indices, outs)
    {
      assert groups[a] in groups;
      var pairs := RunGroup(groups[a].indices, outs);
      groupResults := groupResults + [pairs];
    }
    var byIndex: map<nat, string> := map[];
    for a := 0 to |groups|
      invariant forall i :: i in byIndex <==> exists b :: 0 <= b < a && i in groups[b].indices
      invariant forall i :: i in byIndex ==> i < |outs| && byIndex[i] == outs[i]
    {
      assert groups[a] in groups;
      byIndex := Merge(byIndex, groupResults[a], groups[a].indices, outs);
    }
    r := ReadBack(byIndex, |outs|);
    assert forall i: nat :: i in byIndex <==> Listed(groups, i) by {
      forall i: nat ensures i in byIndex <==> Listed(groups, i) {
        if Listed(groups, i) {
          var g :| g in groups && i in g.indices;
          var b :| 0 <= b < |groups| && groups[b] == g;
        }
      }
    }
  }

  /** The submit loop of the thread-pool form. */
  method Submit(groups: seq<BatchGroup>) returns (singles: seq<nat>, sequential: seq<seq<nat>>)
    ensures singles == SingleIndices(groups) && sequential == SequentialLanes(groups)
  {
    singles, sequential := [], [];
    for a := 0 to |groups|
      invariant singles == SingleIndices(groups[..a]) && sequential == SequentialLanes(groups[..a])
    {
      assert groups[..a + 1][..a] == groups[..a];
      if groups[a].concurrent {
        for k := 0 to |groups[a].indices|
          invariant singles == SingleIndices(groups[..a]) + groups[a].indices[..k]
        {
          singles := singles + [groups[a].indices[k]];
        }
      } else {
        sequential := sequential + [groups[a].indices];
      }
    }
    assert groups[..|groups|] == groups;
  }

  /** The thread-pool form: the single futures first, then the group futures. */
  method PoolOutputs(groups: seq<BatchGroup>, outs: seq<string>) returns (r: Result<seq<string>, nat>)
    requires InRange(groups, |outs|)
    ensures CallOrder(groups, outs, r)
  {
    var singles, sequential := Submit(groups);
    forall i: nat ensures i in singles ==> i < |outs| { SingleIndexOfGroup(groups, i); }
    var pairs := RunGroup(singles, outs);
    var byIndex := Merge(map[], pairs, singles, outs);
    for a := 0 to |sequential|
      invariant forall i :: i in byIndex <==> i in singles || exists b :: 0 <= b < a && i in sequential[b]
      invariant forall i :: i in byIndex ==> i < |outs| && byIndex[i] == outs[i]
    {
      assert sequential[a] in sequential;
      SequentialLaneOfGroup(groups, sequential[a]);
      var group := RunGroup(sequential[a], outs);
      byIndex := Merge(byIndex, group, sequential[a], outs);
    }
    r := ReadBack(byIndex, |outs|);
    forall i: nat ensures i in byIndex <==> Listed(groups, i) { PoolLists(groups, i); }
  }

  lemma PoolLists(groups: seq<BatchGroup>, i: nat)
    ensures Listed(groups, i) <==>
            i in SingleIndices(groups)
            || exists b :: 0 <= b < |SequentialLanes(groups)| && i in SequentialLanes(groups)[b]
  {
    var lanes := SequentialLanes(groups);
    SingleIndexOfGroup(groups, i);
    if Listed(groups, i) {
      var g :| g in groups && i in g.indices;
      if !g.concurrent {
        SequentialLaneOfGroup(groups, g.indices);
        var b :| 0 <= b < |lanes| && lanes[b] == g.indices;
      }
    }
    if b :| 0 <= b < |lanes| && i in lanes[b] {
      SequentialLaneOfGroup(groups, lanes[b]);
    }
  }

  /** For every plan the final lookup succeeds, in both forms. */
  lemma PlanNeverMissesAnOutput(ks: seq<Kind>, plan: BatchPlan, outs: seq<string>, r: Result<seq<string>, nat>)
    requires IsPlan(ks, plan) && |outs| == |ks| && CallOrder(plan.groups, outs, r)
    ensures InRange(plan.groups, |outs|) && r == Ok(outs)
  {
    forall i: nat ensures i < |ks| <==> Listed(plan.groups, i) { PlanPartitions(ks, plan, i); }
    forall g, i: nat | g in plan.groups && i in g.indices ensures i < |outs| { assert Listed(plan.groups, i); }
  }

  /** A complete run of the batch under one of the two forms. */
  ghost predicate CompleteRun(plan: BatchPlan, ps: seq<Prog>, s: Store, moves: seq<nat>, end: Config) {
    Done(end)
    && (IsRun(AsyncLanes(plan.groups), Config(ps, s), moves, end)
        || IsRun(PoolLanes(plan.groups), Config(ps, s), moves, end))
  }

  /** Planner, interleaving and collection together: over every complete run of
      either form the node returns the outputs of the calls run one after another,
      in call order, and leaves the files they leave - under the barrier or with
      isolated safe calls. `r` is what collecting the run's outputs returns. */
  lemma NodeReturnsSerialOutputs(ks: seq<Kind>, plan: BatchPlan, fs: seq<Footprint>, ps: seq<Prog>, s: Store,
                                 moves: seq<nat>, end: Config, r: Result<seq<string>, nat>)
    requires IsPlan(ks, plan) && FileFootprints(ks, fs) && FitsAll(ps, fs)
    requires plan.barrier || SafeCallsIsolated(ks, fs)
    requires CompleteRun(plan, ps, s, moves, end) && CallOrder(plan.groups, Outputs(end), r)
    ensures r == Ok(SerialOutputs(ps, s)) && end.store == SerialStore(ps, s)
  {
    BatchIsSerializable(ks, plan, fs);
    if IsRun(AsyncLanes(plan.groups), Config(ps, s), moves, end) {
      assert EndsSerially(AsyncLanes(plan.groups), ps, s, moves, end);
    } else {
      assert EndsSerially(PoolLanes(plan.groups), ps, s, moves, end);
    }
    assert |Outputs(end)| == |SerialOutputs(ps, s)| == |ks|;
    PlanNeverMissesAnOutput(ks, plan, Outputs(end), r);
  }

  lemma {:induction false} RunKeepsCount(lanes: Lanes, c: Config, moves: seq<nat>, end: Config)
    requires IsRun(lanes, c, moves, end)
    ensures |end.progs| == |c.progs|
    decreases |moves|
  {
    if moves != [] { RunKeepsCount(lanes, Exec(c, moves[0]), moves[1..], end); }
  }

  lemma PlanInRange(ks: seq<Kind>, plan: BatchPlan)
    requires IsPlan(ks, plan)
    ensures InRange(plan.groups, |ks|)
  {
    forall g, i: nat | g in plan.groups && i in g.indices ensures i < |ks| { PlanPartitions(ks, plan, i); }
  }
}
