/** Static classification of tool calls and the file-aware batch plan
    (agent/tools/parallel_safety.py). */
module ParallelSafety {
  import opened Wrappers

  type Path = string

  const READ_ONLY_TOOLS: set<string> := {
    "read_file", "search_files", "explore", "callers", "callees", "impact",
    "semantic_code_search", "ast_grep_search", "lsp_goto_definition",
    "lsp_find_references", "lsp_workspace_symbol", "lsp_call_hierarchy",
    "lsp_diagnostics", "lsp_status", "web_search", "web_fetch",
    "message_search", "todoread", "taskflow_inspect", "terminal_bg",
    "skill_list", "skill_view", "agents_list", "subagents_list",
    "sessions_messages"
  }
  const FILE_READ_TOOLS: set<string> := {"read_file"}
  const FILE_WRITE_TOOLS: set<string> := {"write_file", "patch_file"}

  /** The `file_path` argument of a call: `NoPath` when the arguments are not a
      dictionary or hold no string under that name. */
  datatype FileArg = NoPath | PathArg(text: string)
  datatype ToolCall = ToolCall(name: string, file: FileArg)
  datatype ToolMeta = ToolMeta(destructive: bool, concurrentSafe: bool, scope: string)
  datatype Mode = Read | Write

  datatype BatchGroup = BatchGroup(indices: seq<nat>, concurrent: bool)
  datatype BatchPlan = BatchPlan(groups: seq<BatchGroup>, barrier: bool, reason: string, filePaths: seq<Path>)

  /** What the planner learns about one call. */
  datatype Kind = File(path: Path, mode: Mode) | Unresolved | Safe | Unsafe

  predicate IsFileTool(name: string) {
    name in FILE_READ_TOOLS || name in FILE_WRITE_TOOLS
  }

  function DisplayName(call: ToolCall): string {
    if call.name == "" then "unknown" else call.name
  }

  /** `resolve` stands for the canonicalisation of a raw path in the session's
      workspace; `None` is a path that cannot be resolved. */
  function FileResourceKey(call: ToolCall, resolve: string -> Option<Path>): Option<(Path, Mode)> {
    if !IsFileTool(call.name) || call.file.NoPath? then None
    else
      match resolve(call.file.text)
      case None => None
      case Some(p) => Some((p, if call.name in FILE_READ_TOOLS then Read else Write))
  }

  predicate ToolIsParallelSafe(name: string, tools: map<string, ToolMeta>) {
    name in READ_ONLY_TOOLS
    || (name in tools
        && !tools[name].destructive
        && (tools[name].concurrentSafe || tools[name].scope == "none"))
  }

  function Classify(call: ToolCall, tools: map<string, ToolMeta>, resolve: string -> Option<Path>): Kind {
    var name := DisplayName(call);
    if IsFileTool(name) then
      match FileResourceKey(call, resolve)
      case None => Unresolved
      case Some((p, m)) => File(p, m)
    else if ToolIsParallelSafe(name, tools) then Safe
    else Unsafe
  }

  function Kinds(calls: seq<ToolCall>, tools: map<string, ToolMeta>, resolve: string -> Option<Path>): (ks: seq<Kind>)
    ensures |ks| == |calls|
  {
    seq(|calls|, i requires 0 <= i < |calls| => Classify(calls[i], tools, resolve))
  }

  predicate Blocks(k: Kind) { k.Unresolved? || k.Unsafe? }

  predicate HasBarrier(ks: seq<Kind>) { exists i :: 0 <= i < |ks| && Blocks(ks[i]) }

  /** `destructive` overrides every other declaration of a tool, but not the list
      of read-only tools: among destructive tools that are no file tools exactly
      the listed ones are safe, and a batch of them has no barrier exactly when
      all are listed. */
  lemma DestructiveUnlessListed(calls: seq<ToolCall>, tools: map<string, ToolMeta>, resolve: string -> Option<Path>)
    requires forall c :: c in calls ==>
               var n := DisplayName(c); !IsFileTool(n) && n in tools && tools[n].destructive
    ensures forall n :: n in tools && tools[n].destructive ==> (ToolIsParallelSafe(n, tools) <==> n in READ_ONLY_TOOLS)
    ensures HasBarrier(Kinds(calls, tools, resolve)) <==>
            exists i :: 0 <= i < |calls| && DisplayName(calls[i]) !in READ_ONLY_TOOLS
  {
    var ks := Kinds(calls, tools, resolve);
    forall i | 0 <= i < |calls| ensures Blocks(ks[i]) <==> DisplayName(calls[i]) !in READ_ONLY_TOOLS {
      assert calls[i] in calls;
    }
    if HasBarrier(ks) {
      var i :| 0 <= i < |ks| && Blocks(ks[i]);
      assert DisplayName(calls[i]) !in READ_ONLY_TOOLS;
    }
  }

  /** A tool that calls itself destructive and is run beside anything. */
  lemma DestructiveYetSafe(resolve: string -> Option<Path>)
    ensures var tools := map["terminal_bg" := ToolMeta(true, false, "")];
            ToolIsParallelSafe("terminal_bg", tools)
            && !HasBarrier(Kinds([ToolCall("terminal_bg", NoPath)], tools, resolve))
  {
    var tools := map["terminal_bg" := ToolMeta(true, false, "")];
    DestructiveUnlessListed([ToolCall("terminal_bg", NoPath)], tools, resolve);
  }

  predicate OnPath(k: Kind, p: Path) { k.File? && k.path == p }

  /** The calls on one path, in call order. */
  function IndicesOf(ks: seq<Kind>, p: Path): seq<nat> {
    if ks == [] then []
    else
      var rest := IndicesOf(ks[..|ks| - 1], p);
      if OnPath(ks[|ks| - 1], p) then rest + [|ks| - 1] else rest
  }

  predicate HasWrite(ks: seq<Kind>, p: Path) {
    exists i :: 0 <= i < |ks| && OnPath(ks[i], p) && ks[i].mode == Write
  }

  /** The group call `i` belongs to: every call of its path, or itself alone. */
  function GroupAt(ks: seq<Kind>, i: nat): BatchGroup
    requires i < |ks|
  {
    match ks[i]
    case File(p, _) => BatchGroup(IndicesOf(ks, p), !HasWrite(ks, p))
    case _ => BatchGroup([i], true)
  }

  ghost predicate FirstsAscend(groups: seq<BatchGroup>) {
    && (forall a :: 0 <= a < |groups| ==> groups[a].indices != [])
    && (forall a, b :: 0 <= a < b < |groups| ==> groups[a].indices[0] < groups[b].indices[0])
  }

  /** The documented contract of a plan without a barrier. */
  ghost predicate IsFilePlan(ks: seq<Kind>, groups: seq<BatchGroup>) {
    && FirstsAscend(groups)
    && (forall a :: 0 <= a < |groups| ==> groups[a].indices[0] < |ks| && groups[a] == GroupAt(ks, groups[a].indices[0]))
    && (forall i :: 0 <= i < |ks| ==> GroupAt(ks, i) in groups)
  }

  function WholeBatch(n: nat): BatchGroup { BatchGroup(seq(n, i => i), false) }

  ghost predicate IsPlan(ks: seq<Kind>, plan: BatchPlan) {
    && (plan.barrier <==> HasBarrier(ks))
    && (if plan.barrier then plan.groups == [WholeBatch(|ks|)] else IsFilePlan(ks, plan.groups))
  }

  // ---------------------------------------------------------------- lemmas

  lemma {:induction false} IndicesOfSound(ks: seq<Kind>, p: Path)
    ensures forall k :: k in IndicesOf(ks, p) <==> 0 <= k < |ks| && OnPath(ks[k], p)
    ensures forall a, b :: 0 <= a < b < |IndicesOf(ks, p)| ==> IndicesOf(ks, p)[a] < IndicesOf(ks, p)[b]
  {
    if ks != [] {
      var init := ks[..|ks| - 1];
      IndicesOfSound(init, p);
      var rest := IndicesOf(init, p);
      forall a | 0 <= a < |rest| ensures rest[a] < |ks| - 1 { assert rest[a] in rest; }
      assert forall k: nat :: k < |init| ==> init[k] == ks[k];
      forall k ensures k in IndicesOf(ks, p) <==> 0 <= k < |ks| && OnPath(ks[k], p) {
        assert k in rest <==> 0 <= k < |init| && OnPath(init[k], p);
      }
    }
  }

  /** Group membership: a call is in the group of its path, or alone. */
  lemma GroupAtSound(ks: seq<Kind>, i: nat)
    requires i < |ks|
    ensures var g := GroupAt(ks, i);
            && i in g.indices
            && (forall k :: k in g.indices ==> k < |ks| && GroupAt(ks, k) == g)
            && (forall a, b :: 0 <= a < b < |g.indices| ==> g.indices[a] < g.indices[b])
  {
    if ks[i].File? { IndicesOfSound(ks, ks[i].path); }
  }

  /** The contract leaves nothing open: two plans for one batch are equal. */
  lemma PlanIsDetermined(ks: seq<Kind>, g: seq<BatchGroup>, h: seq<BatchGroup>)
    requires IsFilePlan(ks, g) && IsFilePlan(ks, h)
    ensures g == h
  {
    assert forall x :: x in g <==> x in h;
    AscendingUnique(g, h);
  }

  lemma {:induction false} AscendingUnique(g: seq<BatchGroup>, h: seq<BatchGroup>)
    requires FirstsAscend(g) && FirstsAscend(h)
    requires forall x :: x in g <==> x in h
    ensures g == h
    decreases |g|
  {
    if g == [] {
      assert forall b :: 0 <= b < |h| ==> h[b] in g;
    } else {
      assert g[0] in h;
      assert h != [];
      assert h[0] in g;
      assert g[0] == h[0];
      forall x ensures x in g[1..] <==> x in h[1..] {
        if x in g[1..] {
          assert x in g && x != g[0];
        }
        if x in h[1..] {
          assert x in h && x != h[0];
        }
      }
      AscendingUnique(g[1..], h[1..]);
    }
  }

  // ------------------------------------------------------------- the sort

  /** `groups.sort(key=first index)`: the library's stable sort, as insertion. */
  function InsertByFirst(x: BatchGroup, gs: seq<BatchGroup>): seq<BatchGroup>
    requires x.indices != [] && forall g :: g in gs ==> g.indices != []
  {
    if gs == [] || x.indices[0] < gs[0].indices[0] then [x] + gs
    else [gs[0]] + InsertByFirst(x, gs[1..])
  }

  function SortByFirst(gs: seq<BatchGroup>): (r: seq<BatchGroup>)
    requires forall g :: g in gs ==> g.indices != []
    ensures forall g :: g in r <==> g in gs
  {
    if gs == [] then []
    else
      var rest := SortByFirst(gs[..|gs| - 1]);
      InsertByFirstElements(gs[|gs| - 1], rest);
      InsertByFirst(gs[|gs| - 1], rest)
  }

  lemma {:induction false} InsertByFirstElements(x: BatchGroup, gs: seq<BatchGroup>)
    requires x.indices != [] && forall g :: g in gs ==> g.indices != []
    ensures forall g :: g in InsertByFirst(x, gs) <==> g == x || g in gs
  {
    if gs == [] || x.indices[0] < gs[0].indices[0] {
    } else {
      InsertByFirstElements(x, gs[1..]);
    }
  }

  lemma {:induction false} InsertByFirstAscends(x: BatchGroup, gs: seq<BatchGroup>)
    requires x.indices != [] && FirstsAscend(gs)
    requires forall g :: g in gs ==> g.indices != []
    requires forall g :: g in gs ==> g.indices[0] != x.indices[0]
    ensures FirstsAscend(InsertByFirst(x, gs))
  {
    if gs == [] || x.indices[0] < gs[0].indices[0] {
    } else {
      InsertByFirstAscends(x, gs[1..]);
      InsertByFirstElements(x, gs[1..]);
      var r := InsertByFirst(x, gs[1..]);
      forall b | 0 <= b < |r| ensures gs[0].indices[0] < r[b].indices[0] {
        assert r[b] in r;
        assert gs[0] in gs;
      }
    }
  }

  lemma {:induction false} SortByFirstAscends(gs: seq<BatchGroup>)
    requires forall g :: g in gs ==> g.indices != []
    requires forall a, b :: 0 <= a < b < |gs| ==> gs[a].indices[0] != gs[b].indices[0]
    ensures FirstsAscend(SortByFirst(gs))
  {
    if gs != [] {
      var init := gs[..|gs| - 1];
      SortByFirstAscends(init);
      forall g | g in SortByFirst(init) ensures g.indices[0] != gs[|gs| - 1].indices[0] {
        var a :| 0 <= a < |init| && init[a] == g;
      }
      InsertByFirstAscends(gs[|gs| - 1], SortByFirst(init));
    }
  }

  // ----------------------------------------------------------- the planner

  /** The distinct paths, in order of first appearance. */
  function DistinctPaths(ks: seq<Kind>): seq<Path> {
    if ks == [] then []
    else
      var rest := DistinctPaths(ks[..|ks| - 1]);
      match ks[|ks| - 1]
      case File(p, _) => if p in rest then rest else rest + [p]
      case _ => rest
  }

  lemma {:induction false} DistinctPathsSound(ks: seq<Kind>)
    ensures forall p :: p in DistinctPaths(ks) <==> exists i :: 0 <= i < |ks| && OnPath(ks[i], p)
    ensures forall a, b :: 0 <= a < b < |DistinctPaths(ks)| ==> DistinctPaths(ks)[a] != DistinctPaths(ks)[b]
  {
    if ks != [] {
      var init := ks[..|ks| - 1];
      DistinctPathsSound(init);
      forall p ensures p in DistinctPaths(ks) <==> exists i :: 0 <= i < |ks| && OnPath(ks[i], p) {
        if p in DistinctPaths(init) {
          var i :| 0 <= i < |init| && OnPath(init[i], p);
          assert OnPath(ks[i], p);
        }
        if i :| 0 <= i < |ks| && OnPath(ks[i], p) {
          if i < |init| { assert OnPath(init[i], p); }
        }
      }
    }
  }

  /** Some call on `p` stands before every call on `q`. */
  ghost predicate AppearsBefore(ks: seq<Kind>, p: Path, q: Path) {
    exists i :: 0 <= i < |ks| && OnPath(ks[i], p) && forall j :: 0 <= j <= i ==> !OnPath(ks[j], q)
  }

  lemma {:induction false} DistinctPathsInOrder(ks: seq<Kind>)
    ensures forall a, b :: 0 <= a < b < |DistinctPaths(ks)| ==>
              AppearsBefore(ks, DistinctPaths(ks)[a], DistinctPaths(ks)[b])
  {
    if ks != [] {
      var init := ks[..|ks| - 1];
      DistinctPathsInOrder(init);
      DistinctPathsSound(init);
      var ps, rest := DistinctPaths(ks), DistinctPaths(init);
      forall a, b | 0 <= a < b < |ps| ensures AppearsBefore(ks, ps[a], ps[b]) {
        assert ps[a] == rest[a] && rest[a] in rest;
        var i :| 0 <= i < |init| && OnPath(init[i], ps[a])
                 && (b < |rest| ==> forall j :: 0 <= j <= i ==> !OnPath(init[j], ps[b]));
        assert forall j :: 0 <= j < |init| ==> init[j] == ks[j];
        if b == |rest| { assert ps[b] !in rest; }
      }
    }
  }

  /** The safe calls, in call order. */
  function SafeIndices(ks: seq<Kind>): seq<nat> {
    if ks == [] then []
    else
      var rest := SafeIndices(ks[..|ks| - 1]);
      if ks[|ks| - 1].Safe? then rest + [|ks| - 1] else rest
  }

  lemma {:induction false} SafeIndicesSound(ks: seq<Kind>)
    ensures forall k :: k in SafeIndices(ks) <==> 0 <= k < |ks| && ks[k].Safe?
    ensures forall a, b :: 0 <= a < b < |SafeIndices(ks)| ==> SafeIndices(ks)[a] < SafeIndices(ks)[b]
  {
    if ks != [] {
      var init := ks[..|ks| - 1];
      SafeIndicesSound(init);
      var rest := SafeIndices(init);
      forall a | 0 <= a < |rest| ensures rest[a] < |ks| - 1 { assert rest[a] in rest; }
      forall k ensures k in SafeIndices(ks) <==> 0 <= k < |ks| && ks[k].Safe? {
        assert k in rest <==> 0 <= k < |init| && init[k].Safe?;
      }
    }
  }

  /** The group list before the sort: one group a path, then the safe calls. */
  function RawGroups(ks: seq<Kind>): seq<BatchGroup> {
    var paths, safe := DistinctPaths(ks), SafeIndices(ks);
    seq(|paths|, a requires 0 <= a < |paths| => BatchGroup(IndicesOf(ks, paths[a]), !HasWrite(ks, paths[a])))
    + seq(|safe|, a requires 0 <= a < |safe| => BatchGroup([safe[a]], true))
  }

  lemma RawGroupsSound(ks: seq<Kind>)
    requires !HasBarrier(ks)
    ensures forall g :: g in RawGroups(ks) ==> g.indices != [] && g.indices[0] < |ks| && g == GroupAt(ks, g.indices[0])
    ensures forall i :: 0 <= i < |ks| ==> GroupAt(ks, i) in RawGroups(ks)
    ensures forall a, b :: 0 <= a < b < |RawGroups(ks)| ==> RawGroups(ks)[a].indices[0] != RawGroups(ks)[b].indices[0]
  {
    var paths, safe, raw := DistinctPaths(ks), SafeIndices(ks), RawGroups(ks);
    DistinctPathsSound(ks);
    SafeIndicesSound(ks);
    forall a | 0 <= a < |raw|
      ensures var g := raw[a];
              && g.indices != [] && g.indices[0] < |ks| && g == GroupAt(ks, g.indices[0])
              && (a < |paths| ==> OnPath(ks[g.indices[0]], paths[a]))
              && (a >= |paths| ==> ks[g.indices[0]].Safe? && g.indices[0] == safe[a - |paths|])
    {
      if a < |paths| {
        IndicesOfSound(ks, paths[a]);
        assert paths[a] in paths;
        assert raw[a].indices[0] in raw[a].indices;
      } else {
        assert safe[a - |paths|] in safe;
      }
    }
    forall i | 0 <= i < |ks| ensures GroupAt(ks, i) in raw {
      assert !Blocks(ks[i]);
      if ks[i].File? {
        assert OnPath(ks[i], ks[i].path);
        assert ks[i].path in paths;
        var a :| 0 <= a < |paths| && paths[a] == ks[i].path;
        assert raw[a] == GroupAt(ks, i);
      } else {
        var a :| 0 <= a < |safe| && safe[a] == i;
        assert raw[|paths| + a] == GroupAt(ks, i);
      }
    }
  }

  lemma SortedRawIsPlan(ks: seq<Kind>)
    requires !HasBarrier(ks)
    requires forall g :: g in RawGroups(ks) ==> g.indices != []
    ensures IsFilePlan(ks, SortByFirst(RawGroups(ks)))
  {
    RawGroupsSound(ks);
    SortByFirstAscends(RawGroups(ks));
    var sorted := SortByFirst(RawGroups(ks));
    forall a | 0 <= a < |sorted|
      ensures sorted[a].indices[0] < |ks| && sorted[a] == GroupAt(ks, sorted[a].indices[0])
    {
      assert sorted[a] in sorted;
    }
  }

  /** What the planner's dictionaries hold after the calls `ks`. */
  ghost predicate Grouped(ks: seq<Kind>, groups: map<Path, seq<nat>>, hasWrite: map<Path, bool>, paths: seq<Path>) {
    && paths == DistinctPaths(ks)
    && (forall p :: p in groups <==> p in paths)
    && (forall p :: p in hasWrite <==> p in paths)
    && (forall p :: p in paths ==> groups[p] == IndicesOf(ks, p))
    && (forall p :: p in paths ==> hasWrite[p] == HasWrite(ks, p))
  }

  /** A barrier plan names the first call that blocks. */
  ghost predicate BlockedAt(calls: seq<ToolCall>, ks: seq<Kind>, plan: BatchPlan, i: nat)
    requires |ks| == |calls|
  {
    && i < |calls| && Blocks(ks[i]) && !HasBarrier(ks[..i])
    && plan.filePaths == DistinctPaths(ks[..i])
    && plan.reason == DisplayName(calls[i])
                      + (if IsFileTool(DisplayName(calls[i])) then " has an unresolvable file path"
                         else " is not parallel-safe")
  }

  // ------------------------------------- the plan, stated over the calls

  predicate IsFileCall(c: ToolCall) { c.name in {"read_file", "write_file", "patch_file"} }

  predicate IsWriteCall(c: ToolCall) { c.name in {"write_file", "patch_file"} }

  /** The file a call works on. */
  function PathOf(c: ToolCall, resolve: string -> Option<Path>): Option<Path> {
    if IsFileCall(c) && c.file.PathArg? then resolve(c.file.text) else None
  }

  /** A call that may not run beside another: a file call without a path that
      resolves, or another call that is neither listed as read-only nor declared
      free of side effects by a tool that is not destructive. */
  predicate StopsBatch(c: ToolCall, tools: map<string, ToolMeta>, resolve: string -> Option<Path>) {
    if IsFileCall(c) then c.file.NoPath? || resolve(c.file.text).None?
    else
      var n := if c.name == "" then "unknown" else c.name;
      n !in READ_ONLY_TOOLS
      && (n in tools ==> tools[n].destructive || (!tools[n].concurrentSafe && tools[n].scope != "none"))
  }

  predicate SameFile(c: ToolCall, d: ToolCall, resolve: string -> Option<Path>) {
    PathOf(c, resolve).Some? && PathOf(c, resolve) == PathOf(d, resolve)
  }

  /** The calls in call `i`'s group are itself and the calls on its file. */
  ghost predicate SharesGroup(calls: seq<ToolCall>, resolve: string -> Option<Path>, g: BatchGroup, i: nat) {
    && i < |calls|
    && (forall j: nat :: j in g.indices <==> j < |calls| && (j == i || SameFile(calls[i], calls[j], resolve)))
  }

  /** A group starts its calls together exactly when none of them writes. */
  ghost predicate StartsTogether(calls: seq<ToolCall>, g: BatchGroup) {
    g.concurrent <==> forall k: nat :: k in g.indices && k < |calls| ==> !IsWriteCall(calls[k])
  }

  ghost predicate GroupsFollowCalls(calls: seq<ToolCall>, resolve: string -> Option<Path>, groups: seq<BatchGroup>) {
    && (forall g, i: nat :: g in groups && i in g.indices ==> SharesGroup(calls, resolve, g, i))
    && (forall g :: g in groups ==> StartsTogether(calls, g))
  }

  ghost predicate PlanFollowsCalls(calls: seq<ToolCall>, tools: map<string, ToolMeta>,
                                   resolve: string -> Option<Path>, plan: BatchPlan)
  {
    && (plan.barrier <==> exists c :: c in calls && StopsBatch(c, tools, resolve))
    && (!plan.barrier ==> GroupsFollowCalls(calls, resolve, plan.groups))
  }

  /** What the planner learns about a call is what its name, its path and its
      tool's metadata say. */
  lemma KindOfCall(c: ToolCall, tools: map<string, ToolMeta>, resolve: string -> Option<Path>)
    ensures var k, p := Classify(c, tools, resolve), PathOf(c, resolve);
            && (Blocks(k) <==> StopsBatch(c, tools, resolve))
            && (k.File? <==> p.Some?)
            && (k.File? ==> k.path == p.value && (k.mode == Write <==> IsWriteCall(c)))
            && (k.Safe? <==> !IsFileCall(c) && !StopsBatch(c, tools, resolve))
  {
  }

  lemma KindsOfCalls(calls: seq<ToolCall>, tools: map<string, ToolMeta>, resolve: string -> Option<Path>)
    ensures forall k: nat :: k < |calls| ==> Matches(calls[k], Kinds(calls, tools, resolve)[k], resolve)
  {
    forall k: nat | k < |calls| ensures Matches(calls[k], Kinds(calls, tools, resolve)[k], resolve) {
      KindOfCall(calls[k], tools, resolve);
    }
  }

  predicate Matches(c: ToolCall, k: Kind, resolve: string -> Option<Path>) {
    && (k.File? <==> PathOf(c, resolve).Some?)
    && (k.File? ==> k.path == PathOf(c, resolve).value && (k.mode == Write <==> IsWriteCall(c)))
    && (k.Safe? ==> !IsFileCall(c))
  }

  lemma GroupIsShared(calls: seq<ToolCall>, ks: seq<Kind>, resolve: string -> Option<Path>, g: BatchGroup, i: nat)
    requires |ks| == |calls| && i < |ks| && g == GroupAt(ks, i)
    requires forall k: nat :: k < |calls| ==> Matches(calls[k], ks[k], resolve)
    ensures SharesGroup(calls, resolve, g, i)
  {
    assert Matches(calls[i], ks[i], resolve);
    if ks[i].File? {
      IndicesOfSound(ks, ks[i].path);
      forall j: nat ensures j in g.indices <==> j < |calls| && SameFile(calls[i], calls[j], resolve) {
        assert j < |calls| ==> Matches(calls[j], ks[j], resolve);
      }
    }
  }

  lemma GroupStartsTogether(calls: seq<ToolCall>, ks: seq<Kind>, resolve: string -> Option<Path>, i: nat)
    requires |ks| == |calls| && i < |ks| && !Blocks(ks[i])
    requires forall k: nat :: k < |calls| ==> Matches(calls[k], ks[k], resolve)
    ensures StartsTogether(calls, GroupAt(ks, i))
  {
    var g := GroupAt(ks, i);
    assert Matches(calls[i], ks[i], resolve);
    if ks[i].File? {
      var p := ks[i].path;
      IndicesOfSound(ks, p);
      if k: nat :| k < |ks| && OnPath(ks[k], p) && ks[k].mode == Write {
        assert Matches(calls[k], ks[k], resolve) && k in g.indices;
      }
      if k: nat :| k in g.indices && k < |calls| && IsWriteCall(calls[k]) {
        assert Matches(calls[k], ks[k], resolve) && OnPath(ks[k], p);
      }
    }
  }

  /** Barrier and groups of a plan, without the kinds. */
  lemma PlanIsOfCalls(calls: seq<ToolCall>, tools: map<string, ToolMeta>, resolve: string -> Option<Path>,
                      plan: BatchPlan)
    requires IsPlan(Kinds(calls, tools, resolve), plan)
    ensures PlanFollowsCalls(calls, tools, resolve, plan)
  {
    var ks := Kinds(calls, tools, resolve);
    forall i | 0 <= i < |calls| ensures Blocks(ks[i]) <==> StopsBatch(calls[i], tools, resolve) {
      KindOfCall(calls[i], tools, resolve);
    }
    if c :| c in calls && StopsBatch(c, tools, resolve) {
      var i :| 0 <= i < |calls| && calls[i] == c;
      assert Blocks(ks[i]);
    }
    if !plan.barrier {
      KindsOfCalls(calls, tools, resolve);
      forall g | g in plan.groups ensures StartsTogether(calls, g) {
        GroupStartsTogether(calls, ks, resolve, g.indices[0]);
      }
      forall g, i: nat | g in plan.groups && i in g.indices ensures SharesGroup(calls, resolve, g, i) {
        GroupAtSound(ks, g.indices[0]);
        GroupIsShared(calls, ks, resolve, g, i);
      }
    }
  }

  method PlanBatch(calls: seq<ToolCall>, tools: map<string, ToolMeta>, resolve: string -> Option<Path>)
    returns (plan: BatchPlan)
    ensures IsPlan(Kinds(calls, tools, resolve), plan)
    ensures PlanFollowsCalls(calls, tools, resolve, plan)
    ensures !plan.barrier ==> plan.reason == "" && plan.filePaths == DistinctPaths(Kinds(calls, tools, resolve))
    ensures plan.barrier ==> exists i :: BlockedAt(calls, Kinds(calls, tools, resolve), plan, i)
  {
    ghost var ks := Kinds(calls, tools, resolve);
    if calls == [] {
      plan := BatchPlan([], false, "", []);
      PlanIsOfCalls(calls, tools, resolve, plan);
      return;
    }
    var fileGroups: map<Path, seq<nat>> := map[];
    var fileHasWrite: map<Path, bool> := map[];
    var filePaths: seq<Path> := [];
    var safeIndices: seq<nat> := [];
    for index := 0 to |calls|
      invariant !HasBarrier(ks[..index])
      invariant Grouped(ks[..index], fileGroups, fileHasWrite, filePaths)
      invariant safeIndices == SafeIndices(ks[..index])
    {
      var call := calls[index];
      var name := DisplayName(call);
      ExtendBarrier(ks, index);
      if IsFileTool(name) {
        var key := FileResourceKey(call, resolve);
        if key.None? {
          plan := BatchPlan([WholeBatch(|calls|)], true, name + " has an unresolvable file path", filePaths);
          assert BlockedAt(calls, ks, plan, index);
          PlanIsOfCalls(calls, tools, resolve, plan);
          return;
        }
        var (path, mode) := key.value;
        AddFile(ks, index, fileGroups, fileHasWrite, filePaths);
        if path !in fileGroups {
          fileGroups := fileGroups[path := []];
          fileHasWrite := fileHasWrite[path := false];
          filePaths := filePaths + [path];
        }
        fileGroups := fileGroups[path := fileGroups[path] + [index]];
        fileHasWrite := fileHasWrite[path := fileHasWrite[path] || mode == Write];
      } else {
        if !ToolIsParallelSafe(name, tools) {
          plan := BatchPlan([WholeBatch(|calls|)], true, name + " is not parallel-safe", filePaths);
          assert BlockedAt(calls, ks, plan, index);
          PlanIsOfCalls(calls, tools, resolve, plan);
          return;
        }
        AddSafe(ks, index, fileGroups, fileHasWrite, filePaths);
        safeIndices := safeIndices + [index];
      }
    }
    assert ks[..|calls|] == ks;
    var groups := ListGroups(ks, fileGroups, fileHasWrite, filePaths, safeIndices);
    RawGroupsSound(ks);
    SortedRawIsPlan(ks);
    plan := BatchPlan(SortByFirst(groups), false, "", filePaths);
    PlanIsOfCalls(calls, tools, resolve, plan);
  }

  method ListGroups(ghost ks: seq<Kind>, fileGroups: map<Path, seq<nat>>, fileHasWrite: map<Path, bool>,
                    filePaths: seq<Path>, safeIndices: seq<nat>)
    returns (groups: seq<BatchGroup>)
    requires Grouped(ks, fileGroups, fileHasWrite, filePaths) && safeIndices == SafeIndices(ks)
    ensures groups == RawGroups(ks)
  {
    groups := [];
    for a := 0 to |filePaths|
      invariant groups == RawGroups(ks)[..a]
    {
      var p := filePaths[a];
      groups := groups + [BatchGroup(fileGroups[p], !fileHasWrite[p])];
    }
    for a := 0 to |safeIndices|
      invariant groups == RawGroups(ks)[..|filePaths| + a]
    {
      groups := groups + [BatchGroup([safeIndices[a]], true)];
    }
  }

  lemma AddFile(ks: seq<Kind>, index: nat, groups: map<Path, seq<nat>>, hasWrite: map<Path, bool>, paths: seq<Path>)
    requires index < |ks| && ks[index].File?
    requires Grouped(ks[..index], groups, hasWrite, paths)
    ensures var p := ks[index].path;
            var g1 := if p in groups then groups else groups[p := []];
            var w1 := if p in groups then hasWrite else hasWrite[p := false];
            Grouped(ks[..index + 1], g1[p := g1[p] + [index]], w1[p := w1[p] || ks[index].mode == Write],
                    if p in groups then paths else paths + [p])
            && SafeIndices(ks[..index + 1]) == SafeIndices(ks[..index])
  {
    NewPathIsUnseen(ks, index, ks[index].path);
    ExtendHasWrite(ks, index);
    assert ks[..index + 1][..index] == ks[..index];
  }

  lemma AddSafe(ks: seq<Kind>, index: nat, groups: map<Path, seq<nat>>, hasWrite: map<Path, bool>, paths: seq<Path>)
    requires index < |ks| && ks[index].Safe?
    requires Grouped(ks[..index], groups, hasWrite, paths)
    ensures Grouped(ks[..index + 1], groups, hasWrite, paths)
    ensures SafeIndices(ks[..index + 1]) == SafeIndices(ks[..index]) + [index]
  {
    ExtendHasWrite(ks, index);
    assert ks[..index + 1][..index] == ks[..index];
  }

  lemma NewPathIsUnseen(ks: seq<Kind>, index: nat, p: Path)
    requires index <= |ks|
    ensures p !in DistinctPaths(ks[..index]) ==> IndicesOf(ks[..index], p) == [] && !HasWrite(ks[..index], p)
  {
    DistinctPathsSound(ks[..index]);
    IndicesOfSound(ks[..index], p);
    if IndicesOf(ks[..index], p) != [] {
      var k := IndicesOf(ks[..index], p)[0];
      assert k in IndicesOf(ks[..index], p);
      assert OnPath(ks[..index][k], p);
    }
  }

  lemma ExtendHasWrite(ks: seq<Kind>, index: nat)
    requires index < |ks|
    ensures forall p :: HasWrite(ks[..index + 1], p) <==>
            HasWrite(ks[..index], p) || (OnPath(ks[index], p) && ks[index].mode == Write)
  {
    forall p ensures HasWrite(ks[..index + 1], p) <==>
          HasWrite(ks[..index], p) || (OnPath(ks[index], p) && ks[index].mode == Write) {
      if i :| 0 <= i < |ks[..index]| && OnPath(ks[..index][i], p) && ks[..index][i].mode == Write {
        assert OnPath(ks[..index + 1][i], p);
      }
      if OnPath(ks[index], p) { assert OnPath(ks[..index + 1][index], p); }
    }
  }

  lemma ExtendBarrier(ks: seq<Kind>, index: nat)
    requires index < |ks|
    ensures HasBarrier(ks[..index + 1]) <==> HasBarrier(ks[..index]) || Blocks(ks[index])
    ensures Blocks(ks[index]) ==> HasBarrier(ks)
  {
    if i :| 0 <= i < |ks[..index]| && Blocks(ks[..index][i]) { assert Blocks(ks[..index + 1][i]); }
    if Blocks(ks[index]) { assert Blocks(ks[..index + 1][index]); }
  }
}
