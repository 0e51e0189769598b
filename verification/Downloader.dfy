/** Resumable streaming downloads (models/downloader.py). The server is an
    adversary that picks a status and the byte the transfer breaks at, within
    the range rules of RFC 9110 (sections 14.2, 15.3.7 and 15.5.17). */
module Downloader {
  import opened Wrappers

  type Bytes = seq<bv8>

  /** The `.part` file and the target file. */
  datatype Files = Files(part: Option<Bytes>, dest: Option<Bytes>)

  /** What one request yields: no response at all, or a status, a declared length
      (0 when absent) and chunks of body, after which the transfer may break. */
  datatype Reply = NoReply | Reply(status: nat, contentLength: nat, chunks: seq<Bytes>, broken: bool)

  datatype Outcome = Complete(bytes: nat) | Failed

  function Join(chunks: seq<Bytes>): Bytes {
    if chunks == [] then [] else Join(chunks[..|chunks| - 1]) + chunks[|chunks| - 1]
  }

  function PartSize(f: Files): nat { if f.part.Some? then |f.part.value| else 0 }

  /** The offset asked for; no Range header is sent for 0. */
  function ResumeFrom(f: Files): nat { PartSize(f) }

  predicate Success(status: nat) { 200 <= status < 300 }

  /** One attempt, as a function of the files and the reply. */
  function Attempt(f: Files, r: Reply): (Files, Outcome) {
    if r.NoReply? then (f, Failed)
    else if r.status == 416 then (f.(part := None), Failed)
    else if !Success(r.status) then (f, Failed)
    else
      var kept := if ResumeFrom(f) > 0 && r.status == 206 then f.part.value else [];
      var written := kept + Join(r.chunks);
      if r.broken then (f.(part := Some(written)), Failed)
      else (Files(None, Some(written)), Complete(|written|))
  }

  /** The progress reports so far: from the first count up to the last, growing,
      with one and the same total. */
  ghost predicate Reported(progress: seq<(nat, nat)>, first: nat, last: nat, total: nat) {
    && progress != [] && progress[0] == (first, total) && progress[|progress| - 1].0 == last
    && (forall i, j :: 0 <= i < j < |progress| ==> progress[i].0 < progress[j].0)
    && (forall i :: 0 <= i < |progress| ==> progress[i].1 == total)
  }

  class Target {
    var part: Option<Bytes>
    var dest: Option<Bytes>

    function View(): Files
      reads this
    {
      Files(part, dest)
    }

    constructor (f: Files)
      ensures View() == f
    {
      part, dest := f.part, f.dest;
    }

    /** The loop over the body, into the open part file. */
    method Receive(chunks: seq<Bytes>, total: nat) returns (downloaded: nat, progress: seq<(nat, nat)>)
      requires part.Some?
      modifies this
      ensures dest == old(dest) && part == Some(old(part).value + Join(chunks))
      ensures downloaded == |part.value| && Reported(progress, |old(part).value|, downloaded, total)
    {
      downloaded := |part.value|;
      progress := [(downloaded, total)];
      ghost var kept := part.value;
      for k := 0 to |chunks|
        invariant part.Some? && part.value == kept + Join(chunks[..k]) && dest == old(dest)
        invariant downloaded == |part.value| && Reported(progress, |kept|, downloaded, total)
      {
        assert chunks[..k + 1][..k] == chunks[..k];
        var chunk := chunks[k];
        if chunk == [] { continue; }
        part := Some(part.value + chunk);
        downloaded := downloaded + |chunk|;
        progress := progress + [(downloaded, total)];
      }
      assert chunks[..|chunks|] == chunks;
    }

    /** `progress` logs the callback's arguments. */
    method StreamDownload(r: Reply) returns (outcome: Outcome, progress: seq<(nat, nat)>)
      modifies this
      ensures (View(), outcome) == Attempt(old(View()), r)
      ensures progress == [] <==> r.NoReply? || !(200 <= r.status <= 299)
      ensures progress != [] ==>
                var first := if r.status == 206 then PartSize(old(View())) else 0;
                Reported(progress, first, first + |Join(r.chunks)|,
                         if r.contentLength > 0 then first + r.contentLength else 0)
      ensures outcome.Complete? ==> progress != [] && progress[|progress| - 1].0 == outcome.bytes
    {
      progress := [];
      var resumeFrom := if part.Some? then |part.value| else 0;
      if r.NoReply? { return Failed, progress; }
      if r.status == 416 {
        part := None;
        return Failed, progress;
      }
      if !Success(r.status) { return Failed, progress; }
      if resumeFrom > 0 && r.status != 206 { resumeFrom := 0; }
      var total := if r.contentLength > 0 then resumeFrom + r.contentLength else 0;
      if resumeFrom == 0 { part := Some([]); }
      var downloaded;
      downloaded, progress := Receive(r.chunks, total);
      if r.broken { return Failed, progress; }
      dest := part;
      part := None;
      outcome := Complete(downloaded);
    }
  }

  // ------------------------------------------------------------------ runs

  predicate Prefix(a: Bytes, b: Bytes) { |a| <= |b| && a == b[..|a|] }

  /** The body of a successful reply is the content from `offset`, whole unless
      the transfer breaks. */
  predicate Body(r: Reply, content: Bytes, offset: nat)
    requires r.Reply? && offset <= |content|
  {
    Prefix(Join(r.chunks), content[offset..]) && (!r.broken ==> Join(r.chunks) == content[offset..])
  }

  /** A server of the fixed content: 206 only for a satisfiable range, 416 only
      for one that starts at or behind the end, 200 with the whole body always,
      or any error status. */
  predicate Honest(f: Files, r: Reply, content: Bytes) {
    var offset := ResumeFrom(f);
    r.NoReply?
    || (r.status == 416 && offset > 0 && offset >= |content|)
    || (r.status == 206 && 0 < offset < |content| && Body(r, content, offset))
    || (r.status == 200 && Body(r, content, 0))
    || (r.status != 416 && !Success(r.status))
  }

  /** The server answers the request and the transfer does not break. */
  predicate FaultFree(r: Reply) { r.Reply? && (r.status == 416 || (Success(r.status) && !r.broken)) }

  predicate Sound(f: Files, content: Bytes, before: Option<Bytes>) {
    (f.part.Some? ==> Prefix(f.part.value, content)) && (f.dest == before || f.dest == Some(content))
  }

  lemma AttemptIsSound(f: Files, r: Reply, content: Bytes, before: Option<Bytes>)
    requires Sound(f, content, before) && Honest(f, r, content)
    ensures Sound(Attempt(f, r).0, content, before)
    ensures Attempt(f, r).1.Complete? ==>
              Attempt(f, r).0 == Files(None, Some(content)) && Attempt(f, r).1.bytes == |content|
    ensures Attempt(f, r).1.Failed? ==> Attempt(f, r).0.dest == f.dest
  {
    assert content[0..] == content;
    if r.Reply? { assert [] + Join(r.chunks) == Join(r.chunks); }
    if r.Reply? && r.status == 206 && 0 < ResumeFrom(f) < |content| {
      var p, body := f.part.value, Join(r.chunks);
      assert p + content[|p|..] == content;
      assert content[..|p + body|] == p + content[|p|..][..|body|];
      assert Attempt(f, r).0.part.Some? ==> Attempt(f, r).0.part.value == p + body;
    }
  }

  ghost predicate Runs(f: Files, replies: seq<Reply>, content: Bytes, end: Files)
    decreases |replies|
  {
    if replies == [] then end == f
    else Honest(f, replies[0], content) && Runs(Attempt(f, replies[0]).0, replies[1..], content, end)
  }

  /** Over any run of attempts, cut wherever and answered however, the part file
      is a prefix of the content, and the target is its old content or whole. */
  lemma {:induction false} NeverTruncated(f: Files, replies: seq<Reply>, content: Bytes,
                                     end: Files, before: Option<Bytes>)
    requires Sound(f, content, before) && Runs(f, replies, content, end)
    ensures Sound(end, content, before)
    decreases |replies|
  {
    if replies != [] {
      AttemptIsSound(f, replies[0], content, before);
      NeverTruncated(Attempt(f, replies[0]).0, replies[1..], content, end, before);
    }
  }

  /** A resumed transfer that breaks loses nothing that was already there. */
  lemma ResumeKeepsBytes(f: Files, r: Reply, content: Bytes)
    requires Sound(f, content, f.dest) && Honest(f, r, content) && r.Reply? && r.status == 206 && r.broken
    ensures Attempt(f, r).0.part.Some? && PartSize(f) <= PartSize(Attempt(f, r).0)
    ensures Prefix(f.part.value, Attempt(f, r).0.part.value)
  {
  }

  ghost predicate Interrupted(r: Reply) {
    r.NoReply? || (r.status == 206 && r.broken) || !(200 <= r.status <= 299 || r.status == 416)
  }

  /** What the resumed transfers of a run delivered, end to end. */
  function Delivered(replies: seq<Reply>): Bytes {
    if replies == [] then []
    else
      (if replies[0].Reply? && replies[0].status == 206 then Join(replies[0].chunks) else [])
      + Delivered(replies[1..])
  }

  ghost predicate Attempts(f: Files, replies: seq<Reply>, end: Files)
    decreases |replies|
  {
    if replies == [] then end == f else Attempts(Attempt(f, replies[0]).0, replies[1..], end)
  }

  /** Interruptions add up: over any run of attempts that got no response, an
      error status or part of a range, whatever the server sent, the part file
      holds what it held and then everything delivered, and the target is
      untouched. */
  lemma {:induction false} InterruptionsAddUp(f: Files, replies: seq<Reply>, end: Files)
    requires f.part.Some? && f.part.value != [] && Attempts(f, replies, end)
    requires forall k :: 0 <= k < |replies| ==> Interrupted(replies[k])
    ensures end == Files(Some(f.part.value + Delivered(replies)), f.dest)
    decreases |replies|
  {
    if replies == [] {
      assert f.part.value + [] == f.part.value;
    } else {
      var r, g := replies[0], Attempt(f, replies[0]).0;
      var got := if r.Reply? && r.status == 206 then Join(r.chunks) else [];
      assert f.part.value + [] == f.part.value;
      assert g == Files(Some(f.part.value + got), f.dest);
      InterruptionsAddUp(g, replies[1..], end);
      assert f.part.value + got + Delivered(replies[1..]) == f.part.value + (got + Delivered(replies[1..]));
    }
  }

  /** And the attempt that ends such a run completes the file from them. */
  lemma InterruptionsComplete(f: Files, replies: seq<Reply>, mid: Files, last: Reply)
    requires f.part.Some? && f.part.value != [] && Attempts(f, replies, mid)
    requires forall k :: 0 <= k < |replies| ==> Interrupted(replies[k])
    requires last.Reply? && last.status == 206 && !last.broken
    ensures var whole := f.part.value + Delivered(replies) + Join(last.chunks);
            Attempt(mid, last) == (Files(None, Some(whole)), Complete(|whole|))
  {
    InterruptionsAddUp(f, replies, mid);
  }

  /** Without faults one attempt completes, unless the whole content was already
      in the part file; then the rejected range clears it and the next attempt
      completes. */
  lemma TwoAttemptsFinish(f: Files, r1: Reply, r2: Reply, content: Bytes)
    requires Sound(f, content, f.dest)
    requires Honest(f, r1, content) && FaultFree(r1)
    requires var f1 := Attempt(f, r1).0; Honest(f1, r2, content) && FaultFree(r2)
    ensures var (f1, o1) := Attempt(f, r1);
            var (f2, o2) := Attempt(f1, r2);
            if o1.Complete? then f1 == Files(None, Some(content))
            else f.part == Some(content) && content != []
                 && o2 == Complete(|content|) && f2 == Files(None, Some(content))
  {
    AttemptIsSound(f, r1, content, f.dest);
    var (f1, o1) := Attempt(f, r1);
    if o1.Failed? {
      assert r1.status == 416 && f.part.value == content[..|f.part.value|] == content;
      AttemptIsSound(f1, r2, content, f.dest);
    }
  }
}
