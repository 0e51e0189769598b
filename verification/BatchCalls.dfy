/** The batch-aware tool node from the calls as they are written: names, paths
    and metadata, not what the planner makes of them. */
module BatchCalls {
  import opened Wrappers
  import opened ParallelSafety
  import opened SafeToolNode
  import opened BatchNode

  /** What may be assumed of the calls: `read_file`, `write_file` and `patch_file`
      touch the one file they name and only the last two write it. Nothing is
      assumed of the other calls. */
  ghost predicate FollowCalls(calls: seq<ToolCall>, resolve: string -> Option<Path>, fs: seq<Footprint>) {
    && |fs| == |calls|
    && (forall i :: 0 <= i < |calls| ==> fs[i].writes <= fs[i].touches)
    && (forall i :: 0 <= i < |calls| && PathOf(calls[i], resolve).Some? ==>
          var p := PathOf(calls[i], resolve).value;
          fs[i] == Footprint(iset{p}, if calls[i].name == "read_file" then iset{} else iset{p}))
  }

  /** No call that is no file call shares with another call a path that either
      writes. */
  ghost predicate OtherCallsIsolated(calls: seq<ToolCall>, fs: seq<Footprint>)
    requires |fs| == |calls|
  {
    forall i, j :: 0 <= i < j < |calls| && !(IsFileCall(calls[i]) && IsFileCall(calls[j])) ==> !Conflict(fs[i], fs[j])
  }

  ghost predicate AnyStopsBatch(calls: seq<ToolCall>, tools: map<string, ToolMeta>, resolve: string -> Option<Path>) {
    exists c :: c in calls && StopsBatch(c, tools, resolve)
  }

  lemma CallsGiveFootprints(calls: seq<ToolCall>, tools: map<string, ToolMeta>, resolve: string -> Option<Path>,
                            fs: seq<Footprint>)
    requires FollowCalls(calls, resolve, fs)
    ensures FileFootprints(Kinds(calls, tools, resolve), fs)
  {
    KindsOfCalls(calls, tools, resolve);
    var ks := Kinds(calls, tools, resolve);
    forall i: nat | i < |ks| && ks[i].File?
      ensures fs[i] == Footprint(iset{ks[i].path}, if ks[i].mode == Write then iset{ks[i].path} else iset{})
    {
      assert Matches(calls[i], ks[i], resolve);
    }
  }

  lemma OtherCallsAreSafeCalls(calls: seq<ToolCall>, tools: map<string, ToolMeta>, resolve: string -> Option<Path>,
                               fs: seq<Footprint>)
    requires |fs| == |calls| && !AnyStopsBatch(calls, tools, resolve)
    ensures OtherCallsIsolated(calls, fs) <==> SafeCallsIsolated(Kinds(calls, tools, resolve), fs)
  {
    var ks := Kinds(calls, tools, resolve);
    forall i: nat | i < |calls| ensures ks[i].Safe? <==> !IsFileCall(calls[i]) {
      assert calls[i] in calls;
      KindOfCall(calls[i], tools, resolve);
    }
  }

  lemma InLaneIff(lane: seq<nat>, i: nat, j: nat)
    requires i < j && forall a, b :: 0 <= a < b < |lane| ==> lane[a] < lane[b]
    ensures InLane(lane, i, j) <==> i in lane && j in lane
  {
    if i in lane && j in lane {
      var a :| 0 <= a < |lane| && lane[a] == i;
      var b :| 0 <= b < |lane| && lane[b] == j;
      assert a < b;
    }
  }

  /** A plan without a barrier orders two calls exactly when they work on one file
      and some call of the batch writes that file. */
  lemma OrdersExactlyAroundWrites(calls: seq<ToolCall>, tools: map<string, ToolMeta>, resolve: string -> Option<Path>,
                                  plan: BatchPlan, i: nat, j: nat)
    requires IsPlan(Kinds(calls, tools, resolve), plan) && !plan.barrier && i < j < |calls|
    ensures PlanOrders(plan.groups, i, j) <==>
            SameFile(calls[i], calls[j], resolve)
            && exists k: nat :: k < |calls| && SameFile(calls[i], calls[k], resolve)
                                && calls[k].name in {"write_file", "patch_file"}
  {
    var ks := Kinds(calls, tools, resolve);
    PlanIsOfCalls(calls, tools, resolve, plan);
    PlanPartitions(ks, plan, i);
    var g :| g in plan.groups && i in g.indices;
    assert SharesGroup(calls, resolve, g, i) && StartsTogether(calls, g);
    GroupAtSound(ks, g.indices[0]);
    InLaneIff(g.indices, i, j);
    if h :| h in plan.groups && !h.concurrent && InLane(h.indices, i, j) {
      assert i in h.indices;
      GroupAtSound(ks, g.indices[0]);
      GroupAtSound(ks, h.indices[0]);
      assert h == GroupAt(ks, i) == g;
    }
  }

  /** Serializability, from the calls as they are written: under both forms every
      interleaving of every behaviour ends like the calls run one after another -
      exactly when some call stops the batch or the other calls keep apart. */
  lemma CallsAreSerializable(calls: seq<ToolCall>, tools: map<string, ToolMeta>, resolve: string -> Option<Path>,
                             plan: BatchPlan, fs: seq<Footprint>)
    requires IsPlan(Kinds(calls, tools, resolve), plan) && FollowCalls(calls, resolve, fs)
    ensures Serializable(AsyncLanes(plan.groups), fs) <==>
            AnyStopsBatch(calls, tools, resolve) || OtherCallsIsolated(calls, fs)
    ensures Serializable(PoolLanes(plan.groups), fs) <==>
            AnyStopsBatch(calls, tools, resolve) || OtherCallsIsolated(calls, fs)
  {
    PlanIsOfCalls(calls, tools, resolve, plan);
    CallsGiveFootprints(calls, tools, resolve, fs);
    if !AnyStopsBatch(calls, tools, resolve) { OtherCallsAreSafeCalls(calls, tools, resolve, fs); }
    BatchIsSerializable(Kinds(calls, tools, resolve), plan, fs);
  }

  /** Calls that are no file calls and only read disturb no file: the final files
      and every file call's output are the serial ones, whatever overlaps. */
  lemma FileCallsStaySerial(calls: seq<ToolCall>, tools: map<string, ToolMeta>, resolve: string -> Option<Path>,
                            plan: BatchPlan, fs: seq<Footprint>, ps: seq<Prog>, s: Store, moves: seq<nat>, end: Config)
    requires IsPlan(Kinds(calls, tools, resolve), plan) && FollowCalls(calls, resolve, fs) && FitsAll(ps, fs)
    requires forall i :: 0 <= i < |calls| && !IsFileCall(calls[i]) ==> fs[i].writes == iset{}
    requires !AnyStopsBatch(calls, tools, resolve) && CompleteRun(plan, ps, s, moves, end)
    ensures end.store == SerialStore(ps, s)
    ensures |end.progs| == |ps| == |calls|
    ensures forall i :: 0 <= i < |calls| && IsFileCall(calls[i]) ==> Outputs(end)[i] == SerialOutputs(ps, s)[i]
  {
    var ks := Kinds(calls, tools, resolve);
    PlanIsOfCalls(calls, tools, resolve, plan);
    CallsGiveFootprints(calls, tools, resolve, fs);
    forall i | 0 <= i < |calls| ensures if IsFileCall(calls[i]) then ks[i].File? else ks[i].Safe? {
      assert calls[i] in calls;
      KindOfCall(calls[i], tools, resolve);
    }
    FilesStaySerial(ks, plan, fs, ps, s, moves, end);
  }

  /** Planner, interleaving and collection together, from the calls. */
  lemma CallsReturnSerialOutputs(calls: seq<ToolCall>, tools: map<string, ToolMeta>, resolve: string -> Option<Path>,
                                 plan: BatchPlan, fs: seq<Footprint>, ps: seq<Prog>, s: Store,
                                 moves: seq<nat>, end: Config, r: Result<seq<string>, nat>)
    requires IsPlan(Kinds(calls, tools, resolve), plan) && FollowCalls(calls, resolve, fs) && FitsAll(ps, fs)
    requires AnyStopsBatch(calls, tools, resolve) || OtherCallsIsolated(calls, fs)
    requires CompleteRun(plan, ps, s, moves, end) && CallOrder(plan.groups, Outputs(end), r)
    ensures r == Ok(SerialOutputs(ps, s)) && end.store == SerialStore(ps, s)
  {
    PlanIsOfCalls(calls, tools, resolve, plan);
    CallsGiveFootprints(calls, tools, resolve, fs);
    if !AnyStopsBatch(calls, tools, resolve) { OtherCallsAreSafeCalls(calls, tools, resolve, fs); }
    NodeReturnsSerialOutputs(Kinds(calls, tools, resolve), plan, fs, ps, s, moves, end, r);
  }

  /** The event-loop form as a whole, for a run that ended with outputs `outs`. */
  method AsyncNode(calls: seq<ToolCall>, tools: map<string, ToolMeta>, resolve: string -> Option<Path>,
                   outs: seq<string>,
                   ghost fs: seq<Footprint>, ghost ps: seq<Prog>, ghost s: Store,
                   ghost moves: seq<nat>, ghost end: Config)
    returns (outputs: seq<string>)
    requires FollowCalls(calls, resolve, fs) && FitsAll(ps, fs)
    requires AnyStopsBatch(calls, tools, resolve) || OtherCallsIsolated(calls, fs)
    requires outs == Outputs(end) && Done(end)
    requires forall plan :: IsPlan(Kinds(calls, tools, resolve), plan) ==>
                              IsRun(AsyncLanes(plan.groups), Config(ps, s), moves, end)
    ensures outputs == SerialOutputs(ps, s)
  {
    var plan := PlanBatch(calls, tools, resolve);
    RunKeepsCount(AsyncLanes(plan.groups), Config(ps, s), moves, end);
    PlanInRange(Kinds(calls, tools, resolve), plan);
    var r := AsyncOutputs(plan.groups, outs);
    CallsReturnSerialOutputs(calls, tools, resolve, plan, fs, ps, s, moves, end, r);
    outputs := r.value;
  }

  /** The thread-pool form as a whole. */
  method PoolNode(calls: seq<ToolCall>, tools: map<string, ToolMeta>, resolve: string -> Option<Path>,
                  outs: seq<string>,
                  ghost fs: seq<Footprint>, ghost ps: seq<Prog>, ghost s: Store,
                  ghost moves: seq<nat>, ghost end: Config)
    returns (outputs: seq<string>)
    requires FollowCalls(calls, resolve, fs) && FitsAll(ps, fs)
    requires AnyStopsBatch(calls, tools, resolve) || OtherCallsIsolated(calls, fs)
    requires outs == Outputs(end) && Done(end)
    requires forall plan :: IsPlan(Kinds(calls, tools, resolve), plan) ==>
                              IsRun(PoolLanes(plan.groups), Config(ps, s), moves, end)
    ensures outputs == SerialOutputs(ps, s)
  {
    var plan := PlanBatch(calls, tools, resolve);
    RunKeepsCount(PoolLanes(plan.groups), Config(ps, s), moves, end);
    PlanInRange(Kinds(calls, tools, resolve), plan);
    var r := PoolOutputs(plan.groups, outs);
    CallsReturnSerialOutputs(calls, tools, resolve, plan, fs, ps, s, moves, end, r);
    outputs := r.value;
  }
}
