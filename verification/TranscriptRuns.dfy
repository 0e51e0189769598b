/** What transcript repair guarantees over any mix of appending messages,
    healing, restoring and truncating (agent/state_port.py). */
module TranscriptRuns {
  import opened Wrappers
  import opened Transcript

  // -------------------------------------------------------------- invariant

  ghost predicate DistinctIds(ms: seq<Msg>) {
    forall i, j :: 0 <= i < j < |ms| && ms[i].id.Some? ==> ms[i].id != ms[j].id
  }

  /** Marker n and its placeholders sit after exactly n human messages, and the
      placeholders never outlive their marker. */
  ghost predicate Placed(ms: seq<Msg>, i: nat)
    requires i < |ms|
  {
    match ms[i].id
    case Some(Marker(n)) => ms[i].AI? && CountHumans(ms[..i]) == n
    case Some(Heal(n, _)) => ms[i].Tool? && CountHumans(ms[..i]) == n && HasId(ms, Marker(n))
    case Some(Fresh(_)) => true
    case None => false
  }

  ghost predicate Inv(ms: seq<Msg>) {
    DistinctIds(ms) && forall i: nat :: i < |ms| ==> Placed(ms, i)
  }

  // ------------------------------------------------------- small list facts

  lemma {:induction false} CountHumansConcat(a: seq<Msg>, b: seq<Msg>)
    ensures CountHumans(a + b) == CountHumans(a) + CountHumans(b)
  {
    if b == [] {
      assert a + b == a;
    } else {
      CountHumansConcat(a, b[..|b| - 1]);
      assert (a + b)[..|a + b| - 1] == a + b[..|b| - 1];
    }
  }

  lemma {:induction false} NoHumans(ms: seq<Msg>)
    requires forall i :: 0 <= i < |ms| ==> !ms[i].Human?
    ensures CountHumans(ms) == 0
  {
    if ms != [] { NoHumans(ms[..|ms| - 1]); }
  }

  lemma {:induction false} SomeHuman(ms: seq<Msg>, i: nat)
    requires i < |ms| && ms[i].Human?
    ensures CountHumans(ms) > 0
  {
    if i < |ms| - 1 { SomeHuman(ms[..|ms| - 1], i); }
  }

  lemma HasIdConcat(a: seq<Msg>, b: seq<Msg>, id: Id)
    ensures HasId(a + b, id) <==> HasId(a, id) || HasId(b, id)
  {
    if HasId(a, id) {
      var i :| 0 <= i < |a| && a[i].id == Some(id);
      assert (a + b)[i].id == Some(id);
    }
    if HasId(b, id) {
      var i :| 0 <= i < |b| && b[i].id == Some(id);
      assert (a + b)[|a| + i].id == Some(id);
    }
    if HasId(a + b, id) {
      var i :| 0 <= i < |a + b| && (a + b)[i].id == Some(id);
      if i < |a| { assert a[i].id == Some(id); } else { assert b[i - |a|].id == Some(id); }
    }
  }

  /** New distinct ids are appended in order. */
  lemma {:induction false} CommitAppends(ms: seq<Msg>, news: seq<Msg>)
    requires DistinctIds(news) && AllNew(ms, news)
    ensures Commit(ms, news) == ms + news
    decreases |news|
  {
    if news == [] {
      assert ms + news == ms;
    } else {
      FindSound(ms, news[0].id.value);
      CommitAppends(ms + [news[0]], news[1..]);
      assert ms + [news[0]] + news[1..] == ms + news;
    }
  }

  ghost predicate AllNew(ms: seq<Msg>, news: seq<Msg>) {
    forall k :: 0 <= k < |news| ==> news[k].id.Some? && !HasId(ms, news[k].id.value)
  }

  // ------------------------------------------------------- call dictionary

  ghost predicate DistinctCalls(names: seq<Call>) {
    (forall i :: 0 <= i < |names| ==> names[i].id != "")
    && forall i, j :: 0 <= i < j < |names| ==> names[i].id != names[j].id
  }

  lemma PutCallSound(names: seq<Call>, c: Call)
    requires DistinctCalls(names)
    ensures DistinctCalls(PutCall(names, c))
    ensures forall id :: Named(PutCall(names, c), id) <==> Named(names, id) || (id == c.id && id != "")
  {
    var r, i := PutCall(names, c), CallIndex(names, c.id, 0);
    assert forall k :: 0 <= k < |names| ==> (c.id != "" ==> r[k].id == names[k].id);
    if c.id != "" {
      assert r[i].id == c.id;
      forall id ensures Named(r, id) <==> Named(names, id) || id == c.id {
        if Named(names, id) {
          var k :| 0 <= k < |names| && names[k].id == id;
          assert r[k].id == id;
        }
      }
    }
  }

  /** The dictionary's keys are exactly the identified calls, each once. */
  lemma CallNamesSound(calls: seq<Call>)
    ensures DistinctCalls(CallNames(calls))
    ensures forall id :: Named(CallNames(calls), id) <==> id != "" && Named(calls, id)
  {
    CallNamesUpToSound(calls, |calls|);
    assert calls[..|calls|] == calls;
  }

  lemma {:induction false} CallNamesUpToSound(calls: seq<Call>, n: nat)
    requires n <= |calls|
    ensures DistinctCalls(CallNamesUpTo(calls, n))
    ensures forall id :: Named(CallNamesUpTo(calls, n), id) <==> id != "" && Named(calls[..n], id)
  {
    if n > 0 {
      CallNamesUpToSound(calls, n - 1);
      PutCallSound(CallNamesUpTo(calls, n - 1), calls[n - 1]);
      assert calls[..n] == calls[..n - 1] + [calls[n - 1]];
      forall id ensures Named(calls[..n], id) <==> Named(calls[..n - 1], id) || calls[n - 1].id == id {
        NamedConcat(calls[..n - 1], [calls[n - 1]], id);
        assert Named([calls[n - 1]], id) <==> [calls[n - 1]][0].id == id;
      }
    }
  }

  lemma NamedConcat(a: seq<Call>, b: seq<Call>, id: string)
    ensures Named(a + b, id) <==> Named(a, id) || Named(b, id)
  {
    if Named(a, id) {
      var k :| 0 <= k < |a| && a[k].id == id;
      assert (a + b)[k].id == id;
    }
    if Named(b, id) {
      var k :| 0 <= k < |b| && b[k].id == id;
      assert (a + b)[|a| + k].id == id;
    }
    if Named(a + b, id) {
      var k :| 0 <= k < |a + b| && (a + b)[k].id == id;
      if k < |a| { assert a[k].id == id; } else { assert b[k - |a|].id == id; }
    }
  }

  lemma {:induction false} AnsweredConcat(a: seq<Msg>, b: seq<Msg>, call: string)
    ensures Answered(a + b, call) <==> Answered(a, call) || Answered(b, call)
  {
    if b == [] {
      assert a + b == a;
    } else {
      assert (a + b)[..|a + b| - 1] == a + b[..|b| - 1];
      AnsweredConcat(a, b[..|b| - 1], call);
    }
  }

  /** Every placeholder answers a named, unanswered call, under its own id. */
  ghost predicate AreFor(ps: seq<Msg>, names: seq<Call>, after: seq<Msg>, turn: nat) {
    forall k :: 0 <= k < |ps| ==>
      ps[k].Tool? && ps[k].id == Some(Heal(turn, ps[k].callId))
      && Named(names, ps[k].callId) && !Answered(after, ps[k].callId)
  }

  lemma {:induction false} PlaceholdersAreFor(names: seq<Call>, n: nat, after: seq<Msg>, turn: nat)
    requires DistinctCalls(names) && n <= |names|
    ensures AreFor(PlaceholdersUpTo(names, n, after, turn), names[..n], after, turn)
    ensures DistinctIds(PlaceholdersUpTo(names, n, after, turn))
  {
    if n > 0 {
      var init, last := names[..n - 1], names[n - 1];
      PlaceholdersAreFor(names, n - 1, after, turn);
      var qs := PlaceholdersUpTo(names, n - 1, after, turn);
      assert names[..n] == init + [last];
      assert Named([last], last.id) by { assert [last][0].id == last.id; }
      NamedConcat(init, [last], last.id);
      forall k | 0 <= k < |qs| ensures Named(names[..n], qs[k].callId) && qs[k].callId != last.id {
        NamedConcat(init, [last], qs[k].callId);
        var m :| 0 <= m < |init| && init[m].id == qs[k].callId;
        assert names[m].id != names[n - 1].id;
      }
    }
  }

  lemma {:induction false} PlaceholdersAnswer(names: seq<Call>, n: nat, after: seq<Msg>, turn: nat, k: nat)
    requires k < n <= |names|
    ensures Answered(after, names[k].id) || Answered(PlaceholdersUpTo(names, n, after, turn), names[k].id)
  {
    var id, last := names[k].id, names[n - 1];
    var p := [Placeholder(last, turn)];
    if k == n - 1 {
      assert Answers(p[0], id);
      AnsweredConcat(PlaceholdersUpTo(names, n - 1, after, turn), p, id);
    } else {
      PlaceholdersAnswer(names, n - 1, after, turn, k);
      AnsweredConcat(PlaceholdersUpTo(names, n - 1, after, turn), if Answered(after, last.id) then [] else p, id);
    }
  }

  // ----------------------------------------------------------------- heal

  ghost predicate HealWrites(ms: seq<Msg>) { !HasId(ms, Marker(CountHumans(ms))) }

  /** Distinct placeholders, each under the id of its call. */
  ghost predicate OfTurn(ps: seq<Msg>, turn: nat) {
    DistinctIds(ps) && forall k :: 0 <= k < |ps| ==> ps[k].Tool? && ps[k].id == Some(Heal(turn, ps[k].callId))
  }

  lemma PlaceholdersForOfTurn(calls: seq<Call>, after: seq<Msg>, turn: nat)
    ensures OfTurn(PlaceholdersFor(CallNames(calls), after, turn), turn)
  {
    CallNamesSound(calls);
    PlaceholdersAreFor(CallNames(calls), |CallNames(calls)|, after, turn);
  }

  lemma PlaceholdersSound(ms: seq<Msg>, turn: nat)
    ensures OfTurn(Placeholders(ms, turn), turn)
  {
    if LastAI(ms).Some? {
      var k := LastAI(ms).value;
      PlaceholdersForOfTurn(ms[k].calls, ms[k + 1..], turn);
    }
  }

  lemma MarkerIsNew(ms: seq<Msg>, turn: nat, id: Id)
    requires Inv(ms) && !HasId(ms, Marker(turn)) && (id == Marker(turn) || (id.Heal? && id.turn == turn))
    ensures !HasId(ms, id)
  {
    forall i: nat | i < |ms| ensures ms[i].id != Some(id) { assert Placed(ms, i); }
  }

  lemma DistinctConcat(a: seq<Msg>, b: seq<Msg>)
    requires DistinctIds(a) && DistinctIds(b) && AllNew(a, b)
    ensures DistinctIds(a + b)
  {
    var r := a + b;
    forall i, j | 0 <= i < j < |r| && r[i].id.Some? ensures r[i].id != r[j].id {
      if i < |a| <= j { assert !HasId(a, b[j - |a|].id.value); }
    }
  }

  /** Appending messages that are placed after the same number of humans. */
  lemma ConcatPlaced(ms: seq<Msg>, news: seq<Msg>)
    requires Inv(ms) && DistinctIds(ms + news)
    requires forall k :: 0 <= k < |news| ==> !news[k].Human? && news[k].id.Some?
    requires forall k :: 0 <= k < |news| ==>
               match news[k].id.value
               case Marker(n) => news[k].AI? && n == CountHumans(ms)
               case Heal(n, _) => news[k].Tool? && n == CountHumans(ms) && HasId(news, Marker(n))
               case Fresh(_) => true
    ensures Inv(ms + news) && CountHumans(ms + news) == CountHumans(ms)
  {
    var r := ms + news;
    forall i: nat | i < |r| ensures Placed(r, i) {
      if i < |ms| {
        assert r[..i] == ms[..i] && Placed(ms, i);
        if ms[i].id.value.Heal? { HasIdConcat(ms, news, Marker(ms[i].id.value.turn)); }
      } else {
        var k := i - |ms|;
        assert r[..i] == ms + news[..k];
        CountHumansConcat(ms, news[..k]);
        NoHumans(news[..k]);
        if news[k].id.value.Heal? { HasIdConcat(ms, news, Marker(news[k].id.value.turn)); }
      }
    }
    CountHumansConcat(ms, news);
    NoHumans(news);
  }

  /** A heal that writes only appends: the old transcript is an untouched prefix,
      then the placeholders, then the marker - last, and nowhere else. */
  lemma HealAppends(ms: seq<Msg>, partial: string, reason: Reason)
    requires Inv(ms) && HealWrites(ms)
    ensures var turn := CountHumans(ms);
            var r := Healed(ms, partial, reason);
            && r == ms + Placeholders(ms, turn) + [MarkerMsg(turn, partial, reason)]
            && (forall i :: 0 <= i < |r| - 1 ==> r[i].id != Some(Marker(turn)))
            && Inv(r) && CountHumans(r) == turn
  {
    var turn := CountHumans(ms);
    PlaceholdersSound(ms, turn);
    MarkedTurn(ms, turn, Placeholders(ms, turn), MarkerMsg(turn, partial, reason));
  }

  /** Committing placeholders of the turn and its marker appends them. */
  lemma MarkedTurn(ms: seq<Msg>, turn: nat, ps: seq<Msg>, marker: Msg)
    requires Inv(ms) && turn == CountHumans(ms) && !HasId(ms, Marker(turn)) && OfTurn(ps, turn)
    requires marker.AI? && marker.id == Some(Marker(turn))
    ensures var r := Commit(ms, ps + [marker]);
            && r == ms + ps + [marker] && (forall i :: 0 <= i < |r| - 1 ==> r[i].id != Some(Marker(turn)))
            && Inv(r) && CountHumans(r) == turn
  {
    var news := ps + [marker];
    assert news[|ps|].id == Some(Marker(turn));
    assert DistinctIds(news);
    forall k | 0 <= k < |news| ensures news[k].id.Some? && !HasId(ms, news[k].id.value) {
      MarkerIsNew(ms, turn, news[k].id.value);
    }
    CommitAppends(ms, news);
    DistinctConcat(ms, news);
    ConcatPlaced(ms, news);
    assert ms + news == ms + ps + [marker];
  }

  lemma DropConcat(a: seq<Msg>, b: seq<Msg>, k: nat)
    requires k <= |a|
    ensures (a + b)[k..] == a[k..] + b
  {
  }

  lemma PlaceholdersAt(ms: seq<Msg>, turn: nat)
    requires LastAI(ms).Some?
    ensures var k := LastAI(ms).value;
      k < |ms| && ms[k].AI? && Placeholders(ms, turn) == PlaceholdersFor(CallNames(ms[k].calls), ms[k + 1..], turn)
  {
    LastAISound(ms);
  }

  lemma AnsweredAfter(names: seq<Call>, after: seq<Msg>, turn: nat, call: string)
    requires Named(names, call)
    ensures Answered(after + PlaceholdersFor(names, after, turn), call)
  {
    var k :| 0 <= k < |names| && names[k].id == call;
    PlaceholdersAnswer(names, |names|, after, turn, k);
    AnsweredConcat(after, PlaceholdersFor(names, after, turn), call);
  }

  /** After the heal every identified call of the last AI message of the old
      transcript has a tool answer behind it. */
  lemma HealAnswersEveryCall(ms: seq<Msg>, partial: string, reason: Reason, call: string)
    requires Inv(ms) && HealWrites(ms)
    requires LastAI(ms).Some? && LastAI(ms).value < |ms| && ms[LastAI(ms).value].AI?
    requires call != "" && Named(ms[LastAI(ms).value].calls, call)
    ensures var k := LastAI(ms).value;
            k < |Healed(ms, partial, reason)| && Answered(Healed(ms, partial, reason)[k + 1..], call)
  {
    var turn := CountHumans(ms);
    HealAppends(ms, partial, reason);
    PlaceholdersAnswerCall(ms, turn, MarkerMsg(turn, partial, reason), call);
  }

  lemma PlaceholdersAnswerCall(ms: seq<Msg>, turn: nat, marker: Msg, call: string)
    requires LastAI(ms).Some? && LastAI(ms).value < |ms| && ms[LastAI(ms).value].AI?
    requires call != "" && Named(ms[LastAI(ms).value].calls, call)
    ensures Answered((ms + Placeholders(ms, turn) + [marker])[LastAI(ms).value + 1..], call)
  {
    PlaceholdersAt(ms, turn);
    AnsweredBehind(ms, LastAI(ms).value, turn, Placeholders(ms, turn), marker, call);
  }

  lemma AnsweredBehind(ms: seq<Msg>, k: nat, turn: nat, ps: seq<Msg>, marker: Msg, call: string)
    requires k < |ms| && ms[k].AI? && call != "" && Named(ms[k].calls, call)
    requires ps == PlaceholdersFor(CallNames(ms[k].calls), ms[k + 1..], turn)
    ensures Answered((ms + ps + [marker])[k + 1..], call)
  {
    var names, after := CallNames(ms[k].calls), ms[k + 1..];
    CallNamesSound(ms[k].calls);
    AnsweredAfter(names, after, turn, call);
    AnsweredConcat(after + ps, [marker], call);
    DropConcat(ms, ps, k + 1);
    DropConcat(ms + ps, [marker], k + 1);
  }

  lemma LastAIBeforeTools(ms: seq<Msg>, ts: seq<Msg>)
    requires forall k :: 0 <= k < |ts| ==> ts[k].Tool?
    ensures LastAI(ms + ts) == LastAI(ms)
  {
    var r := ms + ts;
    LastAISound(ms);
    LastAISound(r);
    assert forall i :: 0 <= i < |r| ==> r[i] == if i < |ms| then ms[i] else ts[i - |ms|];
  }

  lemma {:induction false} NothingUnanswered(names: seq<Call>, n: nat, after: seq<Msg>, turn: nat)
    requires n <= |names| && forall k :: 0 <= k < |names| ==> Answered(after, names[k].id)
    ensures PlaceholdersUpTo(names, n, after, turn) == []
  {
    if n > 0 { NothingUnanswered(names, n - 1, after, turn); }
  }

  /** Even without the marker a healed transcript needs no placeholder. */
  lemma NothingLeftToHeal(ms: seq<Msg>, ps: seq<Msg>, turn: nat)
    requires ps == Placeholders(ms, turn)
    ensures Placeholders(ms + ps, turn) == []
  {
    if LastAI(ms).None? {
      assert ms + ps == ms;
    } else {
      PlaceholdersAt(ms, turn);
      NothingLeftBehind(ms, LastAI(ms).value, ps, turn);
    }
  }

  lemma NothingLeftBehind(ms: seq<Msg>, k: nat, ps: seq<Msg>, turn: nat)
    requires LastAI(ms) == Some(k) && k < |ms| && ms[k].AI?
    requires ps == PlaceholdersFor(CallNames(ms[k].calls), ms[k + 1..], turn)
    ensures Placeholders(ms + ps, turn) == []
  {
    var names, after := CallNames(ms[k].calls), ms[k + 1..];
    CallNamesSound(ms[k].calls);
    PlaceholdersAreFor(names, |names|, after, turn);
    LastAIBeforeTools(ms, ps);
    AllAnsweredAfter(names, after, turn);
    DropConcat(ms, ps, k + 1);
    assert (ms + ps)[k] == ms[k];
    PlaceholdersAt(ms + ps, turn);
  }

  lemma AllAnsweredAfter(names: seq<Call>, after: seq<Msg>, turn: nat)
    ensures PlaceholdersFor(names, after + PlaceholdersFor(names, after, turn), turn) == []
  {
    var all := after + PlaceholdersFor(names, after, turn);
    forall i | 0 <= i < |names| ensures Answered(all, names[i].id) {
      assert Named(names, names[i].id);
      AnsweredAfter(names, after, turn, names[i].id);
    }
    NothingUnanswered(names, |names|, all, turn);
  }

  /** Healing once is healing for good: a second heal finds the marker and
      changes nothing. */
  lemma HealIsIdempotent(ms: seq<Msg>, partial: string, reason: Reason, partial2: string, reason2: Reason)
    requires Inv(ms)
    ensures Healed(Healed(ms, partial, reason), partial2, reason2) == Healed(ms, partial, reason)
    ensures !HealWrites(Healed(ms, partial, reason))
  {
    if HealWrites(ms) {
      HealAppends(ms, partial, reason);
      var r := Healed(ms, partial, reason);
      assert r[|r| - 1].id == Some(Marker(CountHumans(ms)));
    }
  }

  /** A heal is taken for a repeat exactly when the transcript holds a marker
      with no human message behind it. */
  lemma RepeatIffMarkerSinceLastHuman(ms: seq<Msg>)
    requires Inv(ms)
    ensures !HealWrites(ms) <==>
            exists i :: 0 <= i < |ms| && ms[i].id.Some? && ms[i].id.value.Marker?
              && forall j :: i <= j < |ms| ==> !ms[j].Human?
  {
    forall i: nat | i < |ms| && ms[i].id.Some? && ms[i].id.value.Marker?
      ensures ms[i].id == Some(Marker(CountHumans(ms))) <==> forall j :: i <= j < |ms| ==> !ms[j].Human?
    {
      assert Placed(ms, i);
      HumansBehind(ms, i);
    }
  }

  lemma HumansBehind(ms: seq<Msg>, i: nat)
    requires i <= |ms|
    ensures CountHumans(ms[..i]) == CountHumans(ms) <==> forall j :: i <= j < |ms| ==> !ms[j].Human?
  {
    assert ms == ms[..i] + ms[i..];
    CountHumansConcat(ms[..i], ms[i..]);
    if forall j :: i <= j < |ms| ==> !ms[j].Human? {
      NoHumans(ms[i..]);
    } else {
      var j :| i <= j < |ms| && ms[j].Human?;
      SomeHuman(ms[i..], j - i);
    }
  }

  // -------------------------------------------------------------- restore

  /** Restoring replaces exactly the message with the id, in place. */
  lemma RestoreReplacesOne(ms: seq<Msg>, id: Id, content: string, i: nat)
    requires DistinctIds(ms) && i < |ms| && ms[i].id == Some(id)
    ensures Restored(ms, id, content) == ms[i := AI(Some(id), content, [], None)]
  {
    FindSound(ms, id);
    assert HasId(ms, id);
    var m := AI(Some(id), content, [], None);
    assert Commit(ms, [m]) == Commit(Upsert(ms, m), []);
  }

  lemma RestoreKeepsInv(ms: seq<Msg>, n: nat, content: string)
    requires Inv(ms)
    ensures Inv(Restored(ms, Marker(n), content))
  {
    if HasId(ms, Marker(n)) {
      var i: nat :| i < |ms| && ms[i].id == Some(Marker(n));
      RestoreReplacesOne(ms, Marker(n), content, i);
      var r := Restored(ms, Marker(n), content);
      assert Placed(ms, i);
      forall j: nat | j < |r| ensures Placed(r, j) {
        assert Placed(ms, j);
        SameHumans(ms, r, j);
        if ms[j].id.value.Heal? {
          var k :| 0 <= k < |ms| && ms[k].id == Some(Marker(ms[j].id.value.turn));
          assert r[k].id == ms[k].id;
        }
      }
    }
  }

  lemma {:induction false} SameHumans(a: seq<Msg>, b: seq<Msg>, n: nat)
    requires n <= |a| == |b| && forall i :: 0 <= i < |a| ==> (a[i].Human? <==> b[i].Human?)
    ensures CountHumans(a[..n]) == CountHumans(b[..n])
  {
    if n > 0 {
      SameHumans(a, b, n - 1);
      assert a[..n][..n - 1] == a[..n - 1] && b[..n][..n - 1] == b[..n - 1];
    }
  }

  /** Heal, then restore: the original transcript, the placeholders, and one
      clean AI message under the marker's id. */
  lemma HealThenRestore(ms: seq<Msg>, partial: string, reason: Reason, content: string)
    requires Inv(ms) && HealWrites(ms)
    ensures var turn := CountHumans(ms);
            Restored(Healed(ms, partial, reason), Marker(turn), content)
            == ms + Placeholders(ms, turn) + [AI(Some(Marker(turn)), content, [], None)]
  {
    var turn := CountHumans(ms);
    HealAppends(ms, partial, reason);
    RestoreLast(ms + Placeholders(ms, turn), MarkerMsg(turn, partial, reason), Marker(turn), content);
  }

  lemma RestoreLast(front: seq<Msg>, marker: Msg, id: Id, content: string)
    requires DistinctIds(front + [marker]) && marker.id == Some(id)
    ensures Restored(front + [marker], id, content) == front + [AI(Some(id), content, [], None)]
  {
    var r := front + [marker];
    RestoreReplacesOne(r, id, content, |front|);
    assert r[|front| := AI(Some(id), content, [], None)] == front + [AI(Some(id), content, [], None)];
  }

  // ------------------------------------------------------------- truncate

  function Idless(ms: seq<Msg>): seq<Msg> {
    if ms == [] then []
    else Idless(ms[..|ms| - 1]) + if ms[|ms| - 1].id.None? then [ms[|ms| - 1]] else []
  }

  lemma {:induction false} RemoveNone(ms: seq<Msg>, ids: set<Id>)
    requires forall i :: 0 <= i < |ms| && ms[i].id.Some? ==> ms[i].id.value !in ids
    ensures Remove(ms, ids) == ms
  {
    if ms != [] {
      RemoveNone(ms[..|ms| - 1], ids);
      InitAndLast(ms);
    }
  }

  lemma {:induction false} RemoveAll(ms: seq<Msg>, ids: set<Id>)
    requires forall i :: 0 <= i < |ms| && ms[i].id.Some? ==> ms[i].id.value in ids
    ensures Remove(ms, ids) == Idless(ms)
  {
    if ms != [] { RemoveAll(ms[..|ms| - 1], ids); }
  }

  lemma {:induction false} RemoveConcat(a: seq<Msg>, b: seq<Msg>, ids: set<Id>)
    ensures Remove(a + b, ids) == Remove(a, ids) + Remove(b, ids)
  {
    if b == [] {
      assert a + b == a;
    } else {
      assert (a + b)[..|a + b| - 1] == a + b[..|b| - 1];
      RemoveConcat(a, b[..|b| - 1], ids);
    }
  }

  lemma RemoveTail(ms: seq<Msg>, cut: nat)
    requires DistinctIds(ms) && cut <= |ms|
    ensures Remove(ms, Ids(ms[cut..])) == ms[..cut] + Idless(ms[cut..])
  {
    var head, tail := ms[..cut], ms[cut..];
    assert ms == head + tail;
    HeadIdsDiffer(head, tail);
    TailIdsIn(tail);
    RemoveSplit(head, tail, Ids(tail));
  }

  lemma TailIdsIn(tail: seq<Msg>)
    ensures forall j :: 0 <= j < |tail| && tail[j].id.Some? ==> tail[j].id.value in Ids(tail)
  {
    forall j | 0 <= j < |tail| && tail[j].id.Some? ensures tail[j].id.value in Ids(tail) { assert tail[j] in tail; }
  }

  lemma RemoveSplit(head: seq<Msg>, tail: seq<Msg>, ids: set<Id>)
    requires forall i :: 0 <= i < |head| && head[i].id.Some? ==> head[i].id.value !in ids
    requires forall j :: 0 <= j < |tail| && tail[j].id.Some? ==> tail[j].id.value in ids
    ensures Remove(head + tail, ids) == head + Idless(tail)
  {
    RemoveConcat(head, tail, ids);
    RemoveNone(head, ids);
    RemoveAll(tail, ids);
  }

  lemma HeadIdsDiffer(head: seq<Msg>, tail: seq<Msg>)
    requires DistinctIds(head + tail)
    ensures forall i :: 0 <= i < |head| && head[i].id.Some? ==> head[i].id.value !in Ids(tail)
  {
    forall i | 0 <= i < |head| && head[i].id.Some? ensures head[i].id.value !in Ids(tail) {
      forall m | m in tail ensures m.id != head[i].id {
        var j :| 0 <= j < |tail| && tail[j] == m;
        assert (head + tail)[i] == head[i] && (head + tail)[|head| + j] == m;
      }
    }
  }

  lemma {:induction false} NoIdless(ms: seq<Msg>)
    requires forall i :: 0 <= i < |ms| ==> ms[i].id.Some?
    ensures Idless(ms) == [] && CountIds(ms) == |ms|
  {
    if ms != [] { NoIdless(ms[..|ms| - 1]); }
  }

  /** Truncating at turn k leaves what stands before its human message (and any
      message without an id, which cannot be removed); it fails, changing
      nothing, exactly when there is no such turn. */
  lemma TruncateCuts(ms: seq<Msg>, k: int)
    requires DistinctIds(ms)
    ensures TruncateResult(ms, k) == -1 <==> k < 1 || CountTurns(ms) < k
    ensures TruncateResult(ms, k) == -1 ==> Truncated(ms, k) == ms
    ensures TruncateResult(ms, k) != -1 ==>
              exists cut :: 0 <= cut < |ms| && StartsTurn(ms[cut]) && CountTurns(ms[..cut]) == k - 1
                            && Truncated(ms, k) == ms[..cut] + Idless(ms[cut..])
                            && TruncateResult(ms, k) == CountIds(ms[cut..])
  {
    TurnStartSound(ms, k);
    if TurnStart(ms, k).Some? {
      RemoveTail(ms, TurnStart(ms, k).value);
    }
  }

  /** In a reachable transcript nothing of the tail stays. */
  lemma TruncateLeavesPrefix(ms: seq<Msg>, k: int)
    requires Inv(ms)
    ensures match TurnStart(ms, k)
            case None => Truncated(ms, k) == ms
            case Some(cut) => cut < |ms| && Truncated(ms, k) == ms[..cut] && TruncateResult(ms, k) == |ms| - cut
                              && CountTurns(Truncated(ms, k)) == k - 1
  {
    TurnStartSound(ms, k);
    if TurnStart(ms, k).Some? {
      var cut := TurnStart(ms, k).value;
      RemoveTail(ms, cut);
      forall j | 0 <= j < |ms| - cut ensures ms[cut..][j].id.Some? { assert Placed(ms, cut + j); }
      NoIdless(ms[cut..]);
    }
  }

  /** A prefix has the turns that start inside it. */
  lemma {:induction false} TurnStartInPrefix(ms: seq<Msg>, n: nat, k: int)
    requires n <= |ms|
    ensures TurnStart(ms[..n], k) ==
            if TurnStart(ms, k).Some? && TurnStart(ms, k).value < n then TurnStart(ms, k) else None
    decreases |ms|
  {
    if n < |ms| {
      var init := ms[..|ms| - 1];
      assert init[..n] == ms[..n];
      TurnStartInPrefix(init, n, k);
    } else {
      assert ms[..n] == ms;
      TurnStartSound(ms, k);
    }
  }

  /** Truncating at a later turn first makes no difference - for turns that count
      from 1, or when there is no later turn. A turn number below 1 names no turn,
      so the second truncation then does nothing. */
  lemma TruncateComposes(ms: seq<Msg>, j: int, k: int)
    requires Inv(ms) && k <= j
    ensures Truncated(Truncated(ms, j), k) == Truncated(ms, k) <==> 1 <= k || TurnStart(ms, j).None?
  {
    TruncateLeavesPrefix(ms, j);
    if TurnStart(ms, j).Some? { PrefixThenTurn(ms, j, k, TurnStart(ms, j).value); }
  }

  lemma PrefixThenTurn(ms: seq<Msg>, j: int, k: int, cut: nat)
    requires Inv(ms) && k <= j && TurnStart(ms, j) == Some(cut) && cut < |ms|
    ensures Truncated(ms[..cut], k) == Truncated(ms, k) <==> 1 <= k
  {
    TurnStartSound(ms, j);
    PrefixKeepsInv(ms, cut);
    TruncateLeavesPrefix(ms, k);
    TruncateLeavesPrefix(ms[..cut], k);
    TurnStartInPrefix(ms, cut, k);
    if 1 <= k { EarlierTurn(ms, j, k); } else { TurnStartSound(ms, k); }
  }

  /** An earlier turn starts no later, and its prefix is a prefix of the later's. */
  lemma EarlierTurn(ms: seq<Msg>, j: int, k: int)
    requires 1 <= k <= j && TurnStart(ms, j).Some?
    ensures TurnStart(ms, k).Some? && TurnStart(ms, j).value < |ms| && TurnStart(ms, k).value <= TurnStart(ms, j).value
    ensures ms[..TurnStart(ms, j).value][..TurnStart(ms, k).value] == ms[..TurnStart(ms, k).value]
  {
    TurnStartSound(ms, j);
    TurnStartSound(ms, k);
    var cj, ck := TurnStart(ms, j).value, TurnStart(ms, k).value;
    TurnsGrow(ms, if cj < ck then cj else ck, ck);
  }

  lemma TurnsGrow(ms: seq<Msg>, a: nat, b: nat)
    requires a <= b <= |ms|
    ensures CountTurns(ms[..a]) <= CountTurns(ms[..b])
    ensures a < b && StartsTurn(ms[a]) ==> CountTurns(ms[..a]) < CountTurns(ms[..b])
  {
    assert ms[..b][..a] == ms[..a];
    CountTurnsMonotone(ms[..b], a);
  }

  /** Turn 0 after turn 1: the first truncation emptied the transcript, and turn 0
      alone would have left it. */
  lemma TurnZeroDoesNotCompose(m: Msg)
    requires StartsTurn(m) && m.id.Some? && m.id.value.Fresh?
    ensures Inv([m]) && Truncated(Truncated([m], 1), 0) != Truncated([m], 0)
  {
    var ms := [m];
    assert ms[..0] == [];
    assert TurnStart(ms, 1) == Some(0);
    assert Inv(ms);
    TruncateComposes(ms, 1, 0);
  }

  // ------------------------------------------------ reminders before a cut

  predicate IsReminder(m: Msg) { m.Human? && m.internal }

  /** Where the unbroken run of reminders in front of position `n` starts. */
  function ReminderStart(ms: seq<Msg>, n: nat): (i: nat)
    requires n <= |ms|
    ensures i <= n && (forall r :: i <= r < n ==> IsReminder(ms[r])) && (i > 0 ==> !IsReminder(ms[i - 1]))
  {
    if n > 0 && IsReminder(ms[n - 1]) then ReminderStart(ms, n - 1) else n
  }

  /** Reminders count to the turn they precede, yet truncating at a turn takes its
      reminders along exactly when it has none: otherwise they stay. */
  lemma RemindersStay(ms: seq<Msg>, k: int)
    requires Inv(ms) && TurnStart(ms, k).Some? && TurnStart(ms, k).value <= |ms|
    ensures var cut := TurnStart(ms, k).value;
            && (Truncated(ms, k) == ms[..ReminderStart(ms, cut)] <==> !(cut > 0 && IsReminder(ms[cut - 1])))
            && forall i :: ReminderStart(ms, cut) <= i < cut ==> i < |Truncated(ms, k)| && Truncated(ms, k)[i] == ms[i]
  {
    TruncateLeavesPrefix(ms, k);
    var cut := TurnStart(ms, k).value;
    if cut > 0 && IsReminder(ms[cut - 1]) {
      assert |ms[..ReminderStart(ms, cut)]| < |ms[..cut]|;
    }
  }

  /** A reminder and the only turn: truncating at turn 1 leaves the reminder. */
  lemma ReminderOutlivesTurn(reminder: Msg, m: Msg)
    requires IsReminder(reminder) && StartsTurn(m) && reminder.id == Some(Fresh(0)) && m.id == Some(Fresh(1))
    ensures Inv([reminder, m]) && Truncated([reminder, m], 1) == [reminder]
    ensures TurnStart([reminder, m], 1) == Some(1) && ReminderStart([reminder, m], 1) == 0
  {
    var ms := [reminder, m];
    assert ms[..1] == [reminder] && [reminder][..0] == [];
    assert CountTurns([]) == 0 && TurnStart([], 1) == None;
    assert CountTurns([reminder]) == 0;
    assert TurnStart([reminder], 1) == None;
    assert TurnStart(ms, 1) == Some(1);
    assert Inv(ms);
    TruncateLeavesPrefix(ms, 1);
  }

  /** A cut at a human message removes a marker together with its placeholders. */
  lemma PrefixKeepsInv(ms: seq<Msg>, cut: nat)
    requires Inv(ms) && cut < |ms| && StartsTurn(ms[cut])
    ensures Inv(ms[..cut])
  {
    var p := ms[..cut];
    forall i: nat | i < |p| ensures Placed(p, i) {
      assert Placed(ms, i) && p[..i] == ms[..i] && p[i] == ms[i];
      if ms[i].id.value.Heal? { MarkerBeforeCut(ms, cut, i); }
    }
  }

  lemma MarkerBeforeCut(ms: seq<Msg>, cut: nat, i: nat)
    requires Inv(ms) && i < cut < |ms| && ms[cut].Human? && ms[i].id.Some? && ms[i].id.value.Heal?
    ensures HasId(ms[..cut], Marker(ms[i].id.value.turn))
  {
    var n := ms[i].id.value.turn;
    assert Placed(ms, i);
    var k: nat :| k < |ms| && ms[k].id == Some(Marker(n));
    assert Placed(ms, k);
    if k <= cut {
      assert k != cut && ms[..cut][k].id == Some(Marker(n));
    } else {
      HumanBetween(ms, i, cut, k);
    }
  }

  lemma HumanBetween(ms: seq<Msg>, i: nat, cut: nat, k: nat)
    requires i < cut < k <= |ms| && ms[cut].Human?
    ensures CountHumans(ms[..i]) < CountHumans(ms[..k])
  {
    assert ms[..k] == ms[..i] + ms[i..k];
    CountHumansConcat(ms[..i], ms[i..k]);
    assert ms[i..k][cut - i] == ms[cut];
    SomeHuman(ms[i..k], cut - i);
  }

  lemma TruncateKeepsInv(ms: seq<Msg>, k: int)
    requires Inv(ms)
    ensures Inv(Truncated(ms, k))
  {
    TruncateLeavesPrefix(ms, k);
    TurnStartSound(ms, k);
    if TurnStart(ms, k).Some? { PrefixKeepsInv(ms, TurnStart(ms, k).value); }
  }

  /** Once a truncation has removed a marker, restoring it is refused and
      changes nothing. */
  lemma RestoreAfterTruncate(ms: seq<Msg>, k: int, n: nat, i: nat, content: string)
    requires Inv(ms) && i < |ms| && ms[i].id == Some(Marker(n))
    requires TurnStart(ms, k).Some? && TurnStart(ms, k).value <= i
    ensures !HasId(Truncated(ms, k), Marker(n))
    ensures Restored(Truncated(ms, k), Marker(n), content) == Truncated(ms, k)
  {
    TruncateLeavesPrefix(ms, k);
  }

  // -------------------------------------------------------------- all runs

  datatype Event =
    | Append(m: Msg)
    | HealTurn(partial: string, reason: Reason)
    | Restore(turn: nat, content: string)
    | Truncate(at: int)

  /** Other writers append messages under ids nobody has used. */
  predicate Can(ms: seq<Msg>, e: Event) {
    e.Append? ==> e.m.id.Some? && e.m.id.value.Fresh? && !HasId(ms, e.m.id.value)
  }

  function Next(ms: seq<Msg>, e: Event): seq<Msg> {
    match e
    case Append(m) => Commit(ms, [m])
    case HealTurn(partial, reason) => Healed(ms, partial, reason)
    case Restore(turn, content) => Restored(ms, Marker(turn), content)
    case Truncate(at) => Truncated(ms, at)
  }

  ghost predicate Runs(ms: seq<Msg>, events: seq<Event>, end: seq<Msg>)
    decreases |events|
  {
    if events == [] then end == ms
    else Can(ms, events[0]) && Runs(Next(ms, events[0]), events[1..], end)
  }

  lemma AppendKeepsInv(ms: seq<Msg>, m: Msg)
    requires Inv(ms) && Can(ms, Append(m))
    ensures Inv(Commit(ms, [m]))
  {
    CommitAppends(ms, [m]);
    var r := ms + [m];
    forall i: nat | i < |r| ensures Placed(r, i) {
      if i < |ms| {
        assert Placed(ms, i) && r[..i] == ms[..i];
        if ms[i].id.value.Heal? { HasIdConcat(ms, [m], Marker(ms[i].id.value.turn)); }
      }
    }
  }

  lemma StepKeepsInv(ms: seq<Msg>, e: Event)
    requires Inv(ms) && Can(ms, e)
    ensures Inv(Next(ms, e))
  {
    match e
    case Append(m) => AppendKeepsInv(ms, m);
    case HealTurn(partial, reason) => if HealWrites(ms) { HealAppends(ms, partial, reason); }
    case Restore(turn, content) => RestoreKeepsInv(ms, turn, content);
    case Truncate(at) => TruncateKeepsInv(ms, at);
  }

  /** Over every run from a new session ids stay distinct, and every marker and
      placeholder stays where its number says. */
  lemma {:induction false} RunsKeepInv(ms: seq<Msg>, events: seq<Event>, end: seq<Msg>)
    requires Inv(ms) && Runs(ms, events, end)
    ensures Inv(end)
    decreases |events|
  {
    if events != [] {
      StepKeepsInv(ms, events[0]);
      RunsKeepInv(Next(ms, events[0]), events[1..], end);
    }
  }

  lemma NewSessionIsSound(events: seq<Event>, end: seq<Msg>)
    requires Runs([], events, end)
    ensures Inv(end)
  {
    RunsKeepInv([], events, end);
  }
}
