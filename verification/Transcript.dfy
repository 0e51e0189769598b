/** Repair of a session's transcript (agent/state_port.py): healing an
    interrupted turn, restoring its marker and truncating at a turn, all through
    the checkpoint's id-keyed reducer. */
module Transcript {
  import opened Wrappers
  import PyString

  /** `Fresh` ids are the unique ones other writers use; `Marker` and `Heal` are
      the deterministic ones derived from the number of human messages. */
  datatype Id = Fresh(n: nat) | Marker(turn: nat) | Heal(turn: nat, call: string)

  datatype Reason = Cancelled | HeartbeatTimeout

  /** A tool call of an AI message; an empty string stands for a missing field. */
  datatype Call = Call(id: string, name: string)

  datatype Msg =
    | Human(id: Option<Id>, internal: bool, text: string)
    | AI(id: Option<Id>, text: string, calls: seq<Call>, interrupted: Option<Reason>)
    | Tool(id: Option<Id>, callId: string, name: string, text: string)
    | Other(id: Option<Id>, text: string)

  datatype MarkerWrite = MarkerWrite(markerId: Id, wrote: bool, healedCalls: nat, turnSeq: nat)

  const MISSING_TOOL_RESULT := "tool result missing (not recorded; re-run the tool if you still need it)."

  // ------------------------------------------------------------ the reducer

  /** Where the reducer's index finds an id: its last occurrence. */
  function Find(ms: seq<Msg>, id: Id): Option<nat> {
    if ms == [] then None
    else if ms[|ms| - 1].id == Some(id) then Some(|ms| - 1)
    else Find(ms[..|ms| - 1], id)
  }

  function Upsert(ms: seq<Msg>, m: Msg): seq<Msg> {
    if m.id.None? then ms + [m]
    else
      FindSound(ms, m.id.value);
      match Find(ms, m.id.value)
      case Some(i) => ms[i := m]
      case None => ms + [m]
  }

  function Commit(ms: seq<Msg>, news: seq<Msg>): seq<Msg>
    decreases |news|
  {
    if news == [] then ms else Commit(Upsert(ms, news[0]), news[1..])
  }

  function Remove(ms: seq<Msg>, ids: set<Id>): seq<Msg> {
    if ms == [] then []
    else
      var m := ms[|ms| - 1];
      Remove(ms[..|ms| - 1], ids) + (if m.id.Some? && m.id.value in ids then [] else [m])
  }

  predicate HasId(ms: seq<Msg>, id: Id) { exists i :: 0 <= i < |ms| && ms[i].id == Some(id) }

  lemma {:induction false} FindSound(ms: seq<Msg>, id: Id)
    ensures Find(ms, id).Some? <==> HasId(ms, id)
    ensures Find(ms, id).Some? ==> Find(ms, id).value < |ms| && ms[Find(ms, id).value].id == Some(id)
  {
    if ms != [] {
      var init := ms[..|ms| - 1];
      FindSound(init, id);
      if HasId(init, id) {
        var i :| 0 <= i < |init| && init[i].id == Some(id);
        assert ms[i].id == Some(id);
      }
      if HasId(ms, id) && ms[|ms| - 1].id != Some(id) {
        var i :| 0 <= i < |ms| && ms[i].id == Some(id);
        assert init[i].id == Some(id);
      }
    }
  }

  // ----------------------------------------------------- specification: heal

  function CountHumans(ms: seq<Msg>): nat {
    if ms == [] then 0 else CountHumans(ms[..|ms| - 1]) + if ms[|ms| - 1].Human? then 1 else 0
  }

  /** The backward search for an AI message before position `n`. */
  function LastAIBefore(ms: seq<Msg>, n: nat): (r: Option<nat>)
    requires n <= |ms|
    ensures r.Some? ==> r.value < n && ms[r.value].AI?
  {
    if n == 0 then None else if ms[n - 1].AI? then Some(n - 1) else LastAIBefore(ms, n - 1)
  }

  function LastAI(ms: seq<Msg>): Option<nat> { LastAIBefore(ms, |ms|) }

  /** The call dictionary: identified calls in order of first appearance, each
      with the name given last. */
  function CallNames(calls: seq<Call>): seq<Call> { CallNamesUpTo(calls, |calls|) }

  function CallNamesUpTo(calls: seq<Call>, n: nat): seq<Call>
    requires n <= |calls|
  {
    if n == 0 then [] else PutCall(CallNamesUpTo(calls, n - 1), calls[n - 1])
  }

  /** Where the dictionary has a call from position `n` on, or its size. */
  function CallIndex(names: seq<Call>, id: string, n: nat): (i: nat)
    requires n <= |names|
    ensures n <= i <= |names| && (i < |names| ==> names[i].id == id)
    ensures forall j :: n <= j < i ==> names[j].id != id
    decreases |names| - n
  {
    if n == |names| || names[n].id == id then n else CallIndex(names, id, n + 1)
  }

  function PutCall(names: seq<Call>, c: Call): seq<Call> {
    var i := CallIndex(names, c.id, 0);
    if c.id == "" then names else if i < |names| then names[i := c] else names + [c]
  }

  predicate Answers(m: Msg, call: string) { m.Tool? && m.callId == call }

  /** Some message answers the call. */
  predicate Answered(after: seq<Msg>, call: string) {
    after != [] && (Answers(after[|after| - 1], call) || Answered(after[..|after| - 1], call))
  }

  function Placeholder(c: Call, turn: nat): Msg {
    Tool(Some(Heal(turn, c.id)), c.id, if c.name == "" then "unknown" else c.name, MISSING_TOOL_RESULT)
  }

  /** The placeholders for the first `n` calls of the dictionary. */
  function PlaceholdersUpTo(names: seq<Call>, n: nat, after: seq<Msg>, turn: nat): seq<Msg>
    requires n <= |names|
  {
    if n == 0 then []
    else
      PlaceholdersUpTo(names, n - 1, after, turn)
      + (if Answered(after, names[n - 1].id) then [] else [Placeholder(names[n - 1], turn)])
  }

  function PlaceholdersFor(names: seq<Call>, after: seq<Msg>, turn: nat): seq<Msg> {
    PlaceholdersUpTo(names, |names|, after, turn)
  }

  function Placeholders(ms: seq<Msg>, turn: nat): seq<Msg> {
    match LastAI(ms)
    case None => []
    case Some(k) => PlaceholdersFor(CallNames(ms[k].calls), ms[k + 1..], turn)
  }

  function MarkerMsg(turn: nat, partial: string, reason: Reason): Msg {
    AI(Some(Marker(turn)), PyString.StripSpace("[interrupted] " + partial), [], Some(reason))
  }

  function Healed(ms: seq<Msg>, partial: string, reason: Reason): seq<Msg> {
    var turn := CountHumans(ms);
    if HasId(ms, Marker(turn)) then ms
    else Commit(ms, Placeholders(ms, turn) + [MarkerMsg(turn, partial, reason)])
  }

  // ---------------------------------- specification: restore and truncate

  function Restored(ms: seq<Msg>, id: Id, content: string): seq<Msg> {
    if HasId(ms, id) then Commit(ms, [AI(Some(id), content, [], None)]) else ms
  }

  predicate StartsTurn(m: Msg) { m.Human? && !m.internal }

  function CountTurns(ms: seq<Msg>): nat {
    if ms == [] then 0 else CountTurns(ms[..|ms| - 1]) + if StartsTurn(ms[|ms| - 1]) then 1 else 0
  }

  /** The position of the k-th turn's human message. */
  function TurnStart(ms: seq<Msg>, k: int): Option<nat> {
    if ms == [] then None
    else
      var init := ms[..|ms| - 1];
      if TurnStart(init, k).Some? then TurnStart(init, k)
      else if StartsTurn(ms[|ms| - 1]) && CountTurns(init) + 1 == k then Some(|ms| - 1)
      else None
  }

  function Ids(ms: seq<Msg>): set<Id> { set m | m in ms && m.id.Some? :: m.id.value }

  function CountIds(ms: seq<Msg>): nat {
    if ms == [] then 0 else CountIds(ms[..|ms| - 1]) + if ms[|ms| - 1].id.Some? then 1 else 0
  }

  function Truncated(ms: seq<Msg>, k: int): seq<Msg> {
    TurnStartSound(ms, k);
    match TurnStart(ms, k)
    case None => ms
    case Some(cut) => Remove(ms, Ids(ms[cut..]))
  }

  function TruncateResult(ms: seq<Msg>, k: int): int {
    TurnStartSound(ms, k);
    match TurnStart(ms, k)
    case None => -1
    case Some(cut) => CountIds(ms[cut..])
  }

  lemma {:induction false} LastAIBeforeSound(ms: seq<Msg>, n: nat)
    requires n <= |ms|
    ensures match LastAIBefore(ms, n)
            case None => forall i :: 0 <= i < n ==> !ms[i].AI?
            case Some(k) => forall i :: k < i < n ==> !ms[i].AI?
  {
    if n > 0 { LastAIBeforeSound(ms, n - 1); }
  }

  lemma LastAISound(ms: seq<Msg>)
    ensures match LastAI(ms)
            case None => forall i :: 0 <= i < |ms| ==> !ms[i].AI?
            case Some(k) => k < |ms| && ms[k].AI? && forall i :: k < i < |ms| ==> !ms[i].AI?
  {
    LastAIBeforeSound(ms, |ms|);
  }

  lemma {:induction false} CountTurnsMonotone(ms: seq<Msg>, i: nat)
    requires i <= |ms|
    ensures CountTurns(ms[..i]) <= CountTurns(ms)
    ensures i < |ms| && StartsTurn(ms[i]) ==> CountTurns(ms[..i]) < CountTurns(ms)
  {
    if i < |ms| {
      CountTurnsMonotone(ms[..|ms| - 1], i);
      assert ms[..|ms| - 1][..i] == ms[..i];
    } else {
      assert ms[..i] == ms;
    }
  }

  /** The k-th turn starts at a human message with k-1 turns before it; there is
      none exactly when there are fewer turns. */
  lemma {:induction false} TurnStartSound(ms: seq<Msg>, k: int)
    ensures match TurnStart(ms, k)
            case None => k < 1 || CountTurns(ms) < k
            case Some(i) => i < |ms| && StartsTurn(ms[i]) && CountTurns(ms[..i]) + 1 == k && k <= CountTurns(ms)
  {
    if ms != [] {
      var init := ms[..|ms| - 1];
      TurnStartSound(init, k);
      if TurnStart(init, k).Some? { assert init[..TurnStart(init, k).value] == ms[..TurnStart(init, k).value]; }
    }
  }

  // ---------------------------------------------------------- the operations

  /** The live checkpoint of one session. */
  class Checkpoint {
    var messages: seq<Msg>

    constructor (ms: seq<Msg>)
      ensures messages == ms
    {
      messages := ms;
    }

    /** `aupdate_state` with messages to add or replace. */
    method Update(news: seq<Msg>)
      modifies this
      ensures messages == Commit(old(messages), news)
    {
      var start := messages;
      for k := 0 to |news|
        invariant Commit(messages, news[k..]) == Commit(start, news)
      {
        assert news[k..][1..] == news[k + 1..];
        FindSoundWhenIdentified(messages, news[k]);
        messages := Upsert(messages, news[k]);
      }
    }

    method HealInterruptedTurn(partial: string, reason: Reason) returns (w: MarkerWrite)
      modifies this
      ensures messages == Healed(old(messages), partial, reason)
      ensures w.turnSeq == CountHumans(old(messages)) && w.markerId == Marker(w.turnSeq)
      ensures w.wrote <==> !HasId(old(messages), w.markerId)
      ensures w.healedCalls == if w.wrote then |Placeholders(old(messages), w.turnSeq)| else 0
    {
      var turnSeq := 0;
      for i := 0 to |messages|
        invariant messages == old(messages) && turnSeq == CountHumans(messages[..i])
      {
        assert messages[..i + 1][..i] == messages[..i];
        if messages[i].Human? { turnSeq := turnSeq + 1; }
      }
      assert messages[..|messages|] == messages;
      if HasId(messages, Marker(turnSeq)) { return MarkerWrite(Marker(turnSeq), false, 0, turnSeq); }
      var placeholders := HealTrailingToolCalls(messages, turnSeq);
      Update(placeholders + [MarkerMsg(turnSeq, partial, reason)]);
      w := MarkerWrite(Marker(turnSeq), true, |placeholders|, turnSeq);
    }

    method RestoreInterruptMarker(id: Id, content: string) returns (ok: bool)
      modifies this
      ensures ok <==> HasId(old(messages), id)
      ensures messages == Restored(old(messages), id, content)
    {
      if !HasId(messages, id) { return false; }
      Update([AI(Some(id), content, [], None)]);
      ok := true;
    }

    method TruncateAfterTurn(turn: int) returns (removed: int)
      modifies this
      ensures messages == Truncated(old(messages), turn) && removed == TruncateResult(old(messages), turn)
    {
      var seen, cut: Option<nat> := 0, None;
      var index := 0;
      TurnStartSound(messages, turn);
      while index < |messages| && cut.None?
        invariant messages == old(messages) && index <= |messages|
        invariant cut == TurnStart(messages[..index], turn)
        invariant cut.None? ==> seen == CountTurns(messages[..index])
      {
        assert messages[..index + 1][..index] == messages[..index];
        if StartsTurn(messages[index]) {
          seen := seen + 1;
          if seen == turn { cut := Some(index); }
        }
        index := index + 1;
      }
      if cut.Some? {
        TurnStartOfPrefix(messages, index, turn);
      } else {
        assert messages[..|messages|] == messages;
        return -1;
      }
      var removals: seq<Id> := [];
      var tail := messages[cut.value..];
      for i := 0 to |tail|
        invariant messages == old(messages) && |removals| == CountIds(tail[..i])
        invariant forall id :: id in removals <==> id in Ids(tail[..i])
      {
        assert tail[..i + 1] == tail[..i] + [tail[i]];
        if tail[i].id.Some? { removals := removals + [tail[i].id.value]; }
      }
      assert tail[..|tail|] == tail;
      if removals == [] {
        NothingRemoved(messages);
        assert Ids(tail) == {};
        return 0;
      }
      var ids := set id | id in removals;
      assert ids == Ids(tail);
      messages := Remove(messages, ids);
      removed := |removals|;
    }
  }

  lemma FindSoundWhenIdentified(ms: seq<Msg>, m: Msg)
    ensures m.id.Some? ==> (Find(ms, m.id.value).Some? ==> Find(ms, m.id.value).value < |ms|)
  {
    if m.id.Some? { FindSound(ms, m.id.value); }
  }

  lemma {:induction false} TurnStartOfPrefix(ms: seq<Msg>, n: nat, k: int)
    requires n <= |ms| && TurnStart(ms[..n], k).Some?
    ensures TurnStart(ms, k) == TurnStart(ms[..n], k)
    decreases |ms|
  {
    if n < |ms| {
      assert ms[..|ms| - 1][..n] == ms[..n];
      TurnStartOfPrefix(ms[..|ms| - 1], n, k);
    } else {
      assert ms[..n] == ms;
    }
  }

  lemma {:induction false} NothingRemoved(ms: seq<Msg>)
    ensures Remove(ms, {}) == ms
  {
    if ms != [] {
      NothingRemoved(ms[..|ms| - 1]);
      InitAndLast(ms);
    }
  }

  lemma InitAndLast(ms: seq<Msg>)
    requires ms != []
    ensures ms == ms[..|ms| - 1] + [ms[|ms| - 1]]
  {
  }

  predicate Named(names: seq<Call>, id: string) { exists k :: 0 <= k < |names| && names[k].id == id }

  method AnsweredCalls(after: seq<Msg>, names: seq<Call>) returns (answered: set<string>)
    ensures forall c :: c in answered <==> Named(names, c) && Answered(after, c)
  {
    answered := {};
    for k := 0 to |after|
      invariant forall c :: c in answered <==> Named(names, c) && Answered(after[..k], c)
    {
      var m := after[k];
      assert after[..k + 1][..k] == after[..k];
      if m.Tool? && Named(names, m.callId) { answered := answered + {m.callId}; }
    }
    assert after[..|after|] == after;
  }

  /** The backward scan for the last AI message. */
  method ScanLastAI(ms: seq<Msg>) returns (i: int)
    ensures if LastAI(ms).None? then i == -1 else i == LastAI(ms).value
  {
    LastAISound(ms);
    i := |ms| - 1;
    while i >= 0 && !ms[i].AI?
      invariant -1 <= i < |ms| && forall j :: i < j < |ms| ==> !ms[j].AI?
    {
      i := i - 1;
    }
  }

  method CollectCalls(calls: seq<Call>) returns (names: seq<Call>)
    ensures names == CallNames(calls)
  {
    names := [];
    for k := 0 to |calls|
      invariant names == CallNamesUpTo(calls, k)
    {
      names := PutCall(names, calls[k]);
    }
  }

  method AppendPlaceholders(names: seq<Call>, after: seq<Msg>, answered: set<string>, turn: nat) returns (ps: seq<Msg>)
    requires forall c :: c in answered <==> Named(names, c) && Answered(after, c)
    ensures ps == PlaceholdersFor(names, after, turn)
  {
    ps := [];
    for k := 0 to |names|
      invariant ps == PlaceholdersUpTo(names, k, after, turn)
    {
      assert Named(names, names[k].id);
      if names[k].id !in answered { ps := ps + [Placeholder(names[k], turn)]; }
    }
  }

  /** Backward scan, call dictionary, forward scan, placeholders. */
  method HealTrailingToolCalls(ms: seq<Msg>, turn: nat) returns (placeholders: seq<Msg>)
    ensures placeholders == Placeholders(ms, turn)
  {
    var i := ScanLastAI(ms);
    if i < 0 { return []; }
    var names := CollectCalls(ms[i].calls);
    if names == [] { return []; }
    var after := ms[i + 1..];
    var answered := AnsweredCalls(after, names);
    placeholders := AppendPlaceholders(names, after, answered, turn);
  }
}
