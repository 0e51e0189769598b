/** What a healed transcript says (agent/state_port.py): the marker's text, and
    which calls get which placeholder. */
module TranscriptHeal {
  import opened Wrappers
  import opened Transcript
  import opened TranscriptRuns
  import PyString

  // ------------------------------------------------------------ the marker

  predicate HasText(s: string) { exists i :: 0 <= i < |s| && !PyString.IsSpace(s[i]) }

  /** The partial answer behind its label, without trailing white space; the bare
      label when there is no answer. */
  ghost predicate IsMarkerText(t: string, partial: string) {
    if HasText(partial) then
      exists n :: && 0 < n <= |partial| && !PyString.IsSpace(partial[n - 1])
                  && (forall i :: n <= i < |partial| ==> PyString.IsSpace(partial[i]))
                  && t == "[interrupted] " + partial[..n]
    else t == "[interrupted]"
  }

  const TAG: string := "[interrupted] "

  /** `t` is `s` without its trailing white space. */
  predicate IsStripped(t: string, s: string) {
    && |t| <= |s| && t == s[..|t|] && (t != [] ==> !PyString.IsSpace(t[|t| - 1]))
    && (forall i :: |t| <= i < |s| ==> PyString.IsSpace(s[i]))
  }

  lemma StrippedBehind(s: string)
    requires s != [] && !PyString.IsSpace(s[0])
    ensures IsStripped(PyString.StripSpace(s), s)
  {
    assert PyString.LStrip(s, PyString.IsSpace) == s;
    PyString.RStripSound(s, PyString.IsSpace);
  }

  lemma MarkerText(partial: string)
    ensures IsMarkerText(PyString.StripSpace(TAG + partial), partial)
  {
    var s := TAG + partial;
    assert s[0] == '[';
    StrippedBehind(s);
    var t := PyString.StripSpace(s);
    TagIsKept(t, s, partial);
    if HasText(partial) { TextIsKept(t, s, partial); } else { OnlyTagIsKept(t, s, partial); }
  }

  lemma TagIsKept(t: string, s: string, partial: string)
    requires s == TAG + partial && IsStripped(t, s)
    ensures |t| >= 13
  {
    assert s[12] == ']';
  }

  lemma TextIsKept(t: string, s: string, partial: string)
    requires s == TAG + partial && IsStripped(t, s) && |t| >= 13 && HasText(partial)
    ensures IsMarkerText(t, partial)
  {
    var i :| 0 <= i < |partial| && !PyString.IsSpace(partial[i]);
    BehindTag(s, partial, i);
    var n := |t| - 14;
    assert n > 0;
    BehindTag(s, partial, n - 1);
    assert t[|t| - 1] == s[|t| - 1] == partial[n - 1];
    assert s[..14 + n] == TAG + partial[..n];
    forall j | n <= j < |partial| ensures PyString.IsSpace(partial[j]) { BehindTag(s, partial, j); }
  }

  lemma BehindTag(s: string, partial: string, i: nat)
    requires s == TAG + partial && i < |partial|
    ensures s[14 + i] == partial[i]
  {
  }

  lemma OnlyTagIsKept(t: string, s: string, partial: string)
    requires s == TAG + partial && IsStripped(t, s) && |t| >= 13 && !HasText(partial)
    ensures t == "[interrupted]"
  {
    forall i | 13 <= i < |s| ensures PyString.IsSpace(s[i]) {
      if i > 13 { assert s[i] == partial[i - 14]; }
    }
    assert t[|t| - 1] == s[|t| - 1];
    assert t == TAG[..13];
  }

  lemma {:induction false} CommitAddsIds(ms: seq<Msg>, news: seq<Msg>, id: Id)
    requires !HasId(ms, id) && !HasId(news, id)
    ensures !HasId(Commit(ms, news), id)
    decreases |news|
  {
    if news != [] {
      assert news[0].id != Some(id);
      if news[0].id.Some? { FindSound(ms, news[0].id.value); }
      var ms1 := Upsert(ms, news[0]);
      assert forall i :: 0 <= i < |ms1| ==> ms1[i] == news[0] || (i < |ms| && ms1[i] == ms[i]);
      CommitAddsIds(ms1, news[1..], id);
    }
  }

  lemma {:induction false} CommitLast(ms: seq<Msg>, news: seq<Msg>, m: Msg)
    ensures Commit(ms, news + [m]) == Upsert(Commit(ms, news), m)
    decreases |news|
  {
    if news == [] {
      assert [] + [m] == [m] && [m][1..] == [];
      assert Commit(Upsert(ms, m), []) == Upsert(ms, m);
    } else {
      assert (news + [m])[1..] == news[1..] + [m];
      CommitLast(Upsert(ms, news[0]), news[1..], m);
    }
  }

  /** A heal that writes leaves the partial answer behind its label as the last
      message of any transcript: an answer without calls, marked with the reason. */
  lemma HealKeepsTheAnswer(ms: seq<Msg>, partial: string, reason: Reason)
    requires !HasId(ms, Marker(CountHumans(ms)))
    ensures var r := Healed(ms, partial, reason);
            r != []
            && var last := r[|r| - 1];
               && last.AI? && last.id == Some(Marker(CountHumans(ms)))
               && last.calls == [] && last.interrupted == Some(reason) && IsMarkerText(last.text, partial)
  {
    var turn := CountHumans(ms);
    var ps, m := Placeholders(ms, turn), MarkerMsg(turn, partial, reason);
    PlaceholdersSound(ms, turn);
    CommitAddsIds(ms, ps, Marker(turn));
    CommitLast(ms, ps, m);
    FindSound(Commit(ms, ps), Marker(turn));
    MarkerText(partial);
  }

  // ------------------------------------------------------ the placeholders

  /** The first appearance of an identified call. */
  predicate IsFirst(calls: seq<Call>, i: nat) {
    i < |calls| && calls[i].id != "" && forall j :: 0 <= j < i ==> calls[j].id != calls[i].id
  }

  function FirstsUpTo(calls: seq<Call>, n: nat): seq<nat>
    requires n <= |calls|
  {
    if n == 0 then [] else FirstsUpTo(calls, n - 1) + if IsFirst(calls, n - 1) then [n - 1] else []
  }

  /** The last of the first `n` calls with its id. */
  predicate IsLatest(calls: seq<Call>, n: nat, c: Call)
    requires n <= |calls|
  {
    exists j :: 0 <= j < n && calls[j] == c && forall l :: j < l < n ==> calls[l].id != c.id
  }

  lemma {:induction false} FirstsAscend(calls: seq<Call>, n: nat)
    requires n <= |calls|
    ensures forall x :: 0 <= x < |FirstsUpTo(calls, n)| ==> FirstsUpTo(calls, n)[x] < n
    ensures forall x, y :: 0 <= x < y < |FirstsUpTo(calls, n)| ==> FirstsUpTo(calls, n)[x] < FirstsUpTo(calls, n)[y]
    ensures forall i: nat :: i in FirstsUpTo(calls, n) <==> i < n && IsFirst(calls, i)
  {
    if n > 0 { FirstsAscend(calls, n - 1); }
  }

  /** The dictionary `names` lists the calls at `firsts`, each as given last. */
  ghost predicate Lists(names: seq<Call>, calls: seq<Call>, n: nat, firsts: seq<nat>)
    requires n <= |calls|
  {
    && |names| == |firsts|
    && (forall x :: 0 <= x < |names| ==> firsts[x] < |calls| && calls[firsts[x]].id == names[x].id)
    && (forall x :: 0 <= x < |names| ==> IsLatest(calls, n, names[x]))
  }

  lemma LatestOfOthers(calls: seq<Call>, n: nat, c: Call)
    requires n < |calls| && IsLatest(calls, n, c) && calls[n].id != c.id
    ensures IsLatest(calls, n + 1, c)
  {
    var j :| 0 <= j < n && calls[j] == c && forall l :: j < l < n ==> calls[l].id != c.id;
    assert calls[j] == c && forall l :: j < l < n + 1 ==> calls[l].id != c.id;
  }

  lemma {:induction false} CallNamesList(calls: seq<Call>, n: nat)
    requires n <= |calls|
    ensures Lists(CallNamesUpTo(calls, n), calls, n, FirstsUpTo(calls, n))
  {
    if n > 0 {
      CallNamesList(calls, n - 1);
      NextCallLists(calls, n - 1, CallNamesUpTo(calls, n - 1), FirstsUpTo(calls, n - 1));
    }
  }

  lemma NextCallLists(calls: seq<Call>, n: nat, names: seq<Call>, firsts: seq<nat>)
    requires n < |calls| && names == CallNamesUpTo(calls, n) && firsts == FirstsUpTo(calls, n)
    requires Lists(names, calls, n, firsts)
    ensures Lists(PutCall(names, calls[n]), calls, n + 1, firsts + if IsFirst(calls, n) then [n] else [])
  {
    CallNamesUpToSound(calls, n);
    FirstsAscend(calls, n);
    PutCallLists(names, calls, n, firsts);
  }

  lemma PutCallLists(names: seq<Call>, calls: seq<Call>, n: nat, firsts: seq<nat>)
    requires n < |calls| && Lists(names, calls, n, firsts) && DistinctCalls(names)
    requires forall x :: 0 <= x < |firsts| ==> firsts[x] < n
    requires forall id :: Named(names, id) <==> id != "" && Named(calls[..n], id)
    ensures Lists(PutCall(names, calls[n]), calls, n + 1, firsts + if IsFirst(calls, n) then [n] else [])
  {
    var c := calls[n];
    var i, r := CallIndex(names, c.id, 0), PutCall(names, c);
    forall x | 0 <= x < |names| && names[x].id != c.id ensures IsLatest(calls, n + 1, names[x]) {
      LatestOfOthers(calls, n, names[x]);
    }
    assert IsLatest(calls, n + 1, c) by { assert calls[n] == c; }
    if c.id != "" {
      if i < |names| {
        assert calls[firsts[i]].id == c.id;
      } else {
        assert !Named(names, c.id);
        forall j | 0 <= j < n ensures calls[j].id != c.id { assert calls[..n][j] == calls[j]; }
      }
    }
  }

  /** No tool message of `after` answers the call. */
  predicate Unanswered(after: seq<Msg>, call: string) {
    forall i :: 0 <= i < |after| && after[i].Tool? ==> after[i].callId != call
  }

  lemma {:induction false} AnsweredSound(after: seq<Msg>, call: string)
    ensures Answered(after, call) <==> !Unanswered(after, call)
  {
    if after != [] {
      AnsweredSound(after[..|after| - 1], call);
      assert forall i :: 0 <= i < |after| - 1 ==> after[..|after| - 1][i] == after[i];
    }
  }

  /** The placeholder for the call at `i`: under the call's id, with the name the
      call was given last, and with the text for a missing result. */
  ghost predicate IsPlaceholder(p: Msg, calls: seq<Call>, i: nat, turn: nat)
    requires i < |calls|
  {
    var id := calls[i].id;
    exists name :: IsLatest(calls, |calls|, Call(id, name))
                   && p == Tool(Some(Heal(turn, id)), id, if name == "" then "unknown" else name,
                                "tool result missing (not recorded; re-run the tool if you still need it).")
  }

  /** The placeholders `ps` are those of the calls at `at`, in order. */
  ghost predicate AreAt(ps: seq<Msg>, calls: seq<Call>, at: seq<nat>, turn: nat) {
    && |at| == |ps|
    && (forall x :: 0 <= x < |at| ==> at[x] < |calls| && IsPlaceholder(ps[x], calls, at[x], turn))
    && (forall x, y :: 0 <= x < y < |at| ==> at[x] < at[y])
  }

  lemma OneMore(ps: seq<Msg>, calls: seq<Call>, at: seq<nat>, turn: nat, p: Msg, i: nat)
    requires AreAt(ps, calls, at, turn) && i < |calls| && IsPlaceholder(p, calls, i, turn)
    requires forall j :: j in at ==> j < i
    ensures AreAt(ps + [p], calls, at + [i], turn)
  {
    var qs, bt := ps + [p], at + [i];
    forall x | 0 <= x < |at| ensures at[x] < i { assert at[x] in at; }
    assert forall x :: 0 <= x < |at| ==> bt[x] == at[x] && qs[x] == ps[x];
  }

  lemma PlaceholderOfName(calls: seq<Call>, i: nat, c: Call, turn: nat)
    requires i < |calls| && calls[i].id == c.id && IsLatest(calls, |calls|, c)
    ensures IsPlaceholder(Placeholder(c, turn), calls, i, turn)
  {
    assert c == Call(calls[i].id, c.name);
  }

  /** The first `n` of the calls at `firsts` that nobody answers. */
  function LostAmong(calls: seq<Call>, firsts: seq<nat>, n: nat, after: seq<Msg>): seq<nat>
    requires n <= |firsts| && forall x :: 0 <= x < |firsts| ==> firsts[x] < |calls|
  {
    if n == 0 then []
    else
      LostAmong(calls, firsts, n - 1, after)
      + if Unanswered(after, calls[firsts[n - 1]].id) then [firsts[n - 1]] else []
  }

  lemma {:induction false} LostAmongSound(calls: seq<Call>, firsts: seq<nat>, n: nat, after: seq<Msg>, i: nat)
    requires n <= |firsts| && forall x :: 0 <= x < |firsts| ==> firsts[x] < |calls|
    ensures i in LostAmong(calls, firsts, n, after) <==>
            i < |calls| && Unanswered(after, calls[i].id) && exists x :: 0 <= x < n && firsts[x] == i
  {
    if n > 0 { LostAmongSound(calls, firsts, n - 1, after, i); }
  }

  lemma LostIsBefore(calls: seq<Call>, firsts: seq<nat>, n: nat, after: seq<Msg>)
    requires n < |firsts| && forall x :: 0 <= x < |firsts| ==> firsts[x] < |calls|
    requires forall x, y :: 0 <= x < y < |firsts| ==> firsts[x] < firsts[y]
    ensures forall j :: j in LostAmong(calls, firsts, n, after) ==> j < firsts[n]
  {
    forall j | j in LostAmong(calls, firsts, n, after) ensures j < firsts[n] {
      LostAmongSound(calls, firsts, n, after, j);
    }
  }

  lemma NextPlaceholder(names: seq<Call>, n: nat, calls: seq<Call>, firsts: seq<nat>, after: seq<Msg>, turn: nat)
    requires n < |names| && Lists(names, calls, |calls|, firsts) && Unanswered(after, names[n].id)
    requires forall x, y :: 0 <= x < y < |firsts| ==> firsts[x] < firsts[y]
    requires AreAt(PlaceholdersUpTo(names, n, after, turn), calls, LostAmong(calls, firsts, n, after), turn)
    ensures AreAt(PlaceholdersUpTo(names, n, after, turn) + [Placeholder(names[n], turn)],
                  calls, LostAmong(calls, firsts, n, after) + [firsts[n]], turn)
  {
    var at := LostAmong(calls, firsts, n, after);
    LostIsBefore(calls, firsts, n, after);
    PlaceholderOfName(calls, firsts[n], names[n], turn);
    OneMore(PlaceholdersUpTo(names, n, after, turn), calls, at, turn, Placeholder(names[n], turn), firsts[n]);
  }

  lemma {:induction false} PlaceholdersList(names: seq<Call>, n: nat, calls: seq<Call>, firsts: seq<nat>,
                                            after: seq<Msg>, turn: nat)
    requires n <= |names| && Lists(names, calls, |calls|, firsts)
    requires forall x, y :: 0 <= x < y < |firsts| ==> firsts[x] < firsts[y]
    ensures AreAt(PlaceholdersUpTo(names, n, after, turn), calls, LostAmong(calls, firsts, n, after), turn)
  {
    if n > 0 {
      PlaceholdersList(names, n - 1, calls, firsts, after, turn);
      AnsweredSound(after, names[n - 1].id);
      if Unanswered(after, names[n - 1].id) { NextPlaceholder(names, n - 1, calls, firsts, after, turn); }
    }
  }

  /** The placeholders are for the identified calls of the last AI message that no
      later tool message answers, in the order in which they first appear. */
  lemma PlaceholdersExactly(ms: seq<Msg>, turn: nat, k: nat) returns (at: seq<nat>)
    requires k < |ms| && ms[k].AI? && forall i :: k < i < |ms| ==> !ms[i].AI?
    ensures var calls, ps := ms[k].calls, Placeholders(ms, turn);
            && AreAt(ps, calls, at, turn)
            && (forall i: nat :: i in at <==> IsFirst(calls, i) && Unanswered(ms[k + 1..], calls[i].id))
  {
    LastAISound(ms);
    assert LastAI(ms) == Some(k);
    var calls := ms[k].calls;
    var names, firsts := CallNames(calls), FirstsUpTo(calls, |calls|);
    CallNamesList(calls, |calls|);
    FirstsAscend(calls, |calls|);
    at := LostAmong(calls, firsts, |firsts|, ms[k + 1..]);
    PlaceholdersList(names, |names|, calls, firsts, ms[k + 1..], turn);
    forall i: nat ensures i in at <==> IsFirst(calls, i) && Unanswered(ms[k + 1..], calls[i].id) {
      LostAmongSound(calls, firsts, |firsts|, ms[k + 1..], i);
      if i in firsts { var x :| 0 <= x < |firsts| && firsts[x] == i; }
      assert i in firsts <==> i < |calls| && IsFirst(calls, i);
    }
  }

  /** Without an AI message there is nothing to answer. */
  lemma NoPlaceholders(ms: seq<Msg>, turn: nat)
    requires forall i :: 0 <= i < |ms| ==> !ms[i].AI?
    ensures Placeholders(ms, turn) == []
  {
    LastAISound(ms);
  }
}
