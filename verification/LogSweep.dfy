/** The size cap on the log directory (logs/logger.py). */
module LogSweep {
  const QUIESCENCE_S := 300.0

  /** A log file; the flags say whether the system lets us stat and unlink it. */
  datatype LogFile = LogFile(mtime: real, size: nat, canStat: bool, canUnlink: bool)
  datatype Entry = Entry(mtime: real, path: string, file: LogFile)

  // ------------------------------------------------------- sorted entries

  /** Paths compare part by part, so the separator comes before every character. */
  predicate CharLess(a: char, b: char) { b != '/' && (a == '/' || a < b) }

  predicate PathLess(a: string, b: string) {
    if b == "" then false else if a == "" then true
    else if a[0] == b[0] then PathLess(a[1..], b[1..])
    else CharLess(a[0], b[0])
  }

  /** The tuple order: oldest first, ties by path. */
  predicate Older(a: Entry, b: Entry) { a.mtime < b.mtime || (a.mtime == b.mtime && PathLess(a.path, b.path)) }

  function Insert(e: Entry, es: seq<Entry>): seq<Entry> {
    if es == [] || Older(e, es[0]) then [e] + es else [es[0]] + Insert(e, es[1..])
  }

  function Sorted(es: seq<Entry>): seq<Entry> { if es == [] then [] else Insert(es[0], Sorted(es[1..])) }

  /** `a` is an initial stretch of `b`, or less where the two first differ. */
  ghost predicate Precedes(a: string, b: string) {
    exists n :: 0 <= n <= |a| && n < |b| && a[..n] == b[..n] && (n == |a| || CharLess(a[n], b[n]))
  }

  lemma SamePrefix(a: string, b: string, n: nat)
    requires n <= |a| && n <= |b| && a[..n] == b[..n]
    ensures forall k :: 0 <= k < n ==> a[k] == b[k]
  {
    forall k | 0 <= k < n ensures a[k] == b[k] { assert a[..n][k] == b[..n][k]; }
  }

  lemma {:induction false} PathLessIsPrecedes(a: string, b: string)
    ensures PathLess(a, b) <==> Precedes(a, b)
  {
    if a != [] && b != [] {
      PathLessIsPrecedes(a[1..], b[1..]);
      if a[0] == b[0] {
        if n :| 0 <= n <= |a[1..]| && n < |b[1..]| && a[1..][..n] == b[1..][..n]
                && (n == |a[1..]| || CharLess(a[1..][n], b[1..][n])) {
          assert a[..n + 1] == [a[0]] + a[1..][..n] && b[..n + 1] == [b[0]] + b[1..][..n];
        }
        if n :| 0 <= n <= |a| && n < |b| && a[..n] == b[..n] && (n == |a| || CharLess(a[n], b[n])) {
          assert n > 0;
          assert a[1..][..n - 1] == a[..n][1..] && b[1..][..n - 1] == b[..n][1..];
          assert n < |a| ==> a[1..][n - 1] == a[n] && b[1..][n - 1] == b[n];
        }
      } else {
        assert a[..0] == b[..0];
        if n :| 0 <= n <= |a| && n < |b| && a[..n] == b[..n] && (n == |a| || CharLess(a[n], b[n])) {
          SamePrefix(a, b, n);
        }
      }
    } else if b != [] {
      assert a[..0] == b[..0];
    }
  }

  lemma {:induction false} PathLessIsOrder(a: string, b: string, c: string)
    ensures !(PathLess(a, b) && PathLess(b, a))
    ensures PathLess(a, b) && PathLess(b, c) ==> PathLess(a, c)
    decreases |b|
  {
    if a != [] && b != [] && c != [] { PathLessIsOrder(a[1..], b[1..], c[1..]); }
    if a != [] && b != [] { PathLessIsOrder(a[1..], b[1..], []); }
  }

  /** `a` may come before `b`: it is not younger, nor as old with a later path. */
  ghost predicate InTurn(a: Entry, b: Entry) {
    a.mtime <= b.mtime && (a.mtime == b.mtime ==> !Precedes(b.path, a.path))
  }

  ghost predicate OldestFirst(es: seq<Entry>) { forall i, j :: 0 <= i < j < |es| ==> InTurn(es[i], es[j]) }

  lemma {:induction false} InsertInOrder(e: Entry, es: seq<Entry>)
    requires OldestFirst(es)
    ensures OldestFirst(Insert(e, es))
  {
    if es == [] {
    } else if Older(e, es[0]) {
      forall k | 0 <= k < |es| ensures InTurn(e, es[k]) {
        if k > 0 { assert InTurn(es[0], es[k]); }
        PathLessIsPrecedes(es[k].path, e.path);
        PathLessIsPrecedes(es[k].path, es[0].path);
        PathLessIsOrder(es[k].path, e.path, es[0].path);
      }
    } else {
      var r := Insert(e, es[1..]);
      InsertInOrder(e, es[1..]);
      InsertKeeps(e, es[1..]);
      PathLessIsPrecedes(e.path, es[0].path);
      forall j | 0 <= j < |r| ensures InTurn(es[0], r[j]) {
        assert r[j] in r;
        if r[j] != e { var k :| 0 <= k < |es[1..]| && es[1..][k] == r[j]; }
      }
    }
  }

  lemma {:induction false} InsertKeeps(e: Entry, es: seq<Entry>)
    ensures forall x :: x in Insert(e, es) <==> x == e || x in es
  {
    if es == [] || Older(e, es[0]) {
    } else {
      InsertKeeps(e, es[1..]);
      assert es == [es[0]] + es[1..];
    }
  }

  lemma {:induction false} InsertAdds(e: Entry, es: seq<Entry>)
    ensures multiset(Insert(e, es)) == multiset{e} + multiset(es)
  {
    if es == [] || Older(e, es[0]) {
      assert [e] + es == [e] + es[..];
    } else {
      InsertAdds(e, es[1..]);
      assert es == [es[0]] + es[1..];
    }
  }

  /** The sort puts the oldest first, and of equally old files the lesser path. */
  lemma {:induction false} SortedSound(es: seq<Entry>)
    ensures OldestFirst(Sorted(es)) && multiset(Sorted(es)) == multiset(es)
  {
    if es != [] {
      SortedSound(es[1..]);
      InsertInOrder(es[0], Sorted(es[1..]));
      InsertAdds(es[0], Sorted(es[1..]));
      assert es == [es[0]] + es[1..];
    }
  }

  // --------------------------------------------------------- specification

  function TotalSize(es: seq<Entry>): nat {
    if es == [] then 0 else TotalSize(es[..|es| - 1]) + es[|es| - 1].file.size
  }

  /** A file that the sweep may and can delete. */
  predicate Deletable(e: Entry, now: real) { now - e.mtime >= QUIESCENCE_S && e.file.canUnlink }

  function DeletableOf(es: seq<Entry>, now: real): seq<Entry> {
    if es == [] then []
    else DeletableOf(es[..|es| - 1], now) + if Deletable(es[|es| - 1], now) then [es[|es| - 1]] else []
  }

  /** The directory once the files of some entries are gone. */
  function Without(files: map<string, LogFile>, es: seq<Entry>): map<string, LogFile> {
    if es == [] then files else Without(files, es[..|es| - 1]) - {es[|es| - 1].path}
  }

  /** The deleted files are the shortest oldest-first run of deletable ones that
      brings the tree under the cap, or all of them when none does. */
  ghost predicate ShortestRun(deletable: seq<Entry>, k: nat, total: nat, cap: nat) {
    && k <= |deletable|
    && (forall i :: 0 <= i < k ==> total - TotalSize(deletable[..i]) > cap)
    && (k == |deletable| || total - TotalSize(deletable[..k]) <= cap)
  }

  lemma {:induction false} TotalGrows(es: seq<Entry>, i: nat, j: nat)
    requires i <= j <= |es|
    ensures TotalSize(es[..i]) <= TotalSize(es[..j])
  {
    if i < j {
      assert es[..j][..j - 1] == es[..j - 1];
      TotalGrows(es, i, j - 1);
    }
  }

  /** There is only one such run. */
  lemma ShortestRunUnique(deletable: seq<Entry>, k: nat, m: nat, total: nat, cap: nat)
    requires ShortestRun(deletable, k, total, cap) && ShortestRun(deletable, m, total, cap)
    ensures k == m
  {
  }

  /** No run of deletable files that brings the tree under the cap is shorter:
      an initial run reaches the cap exactly from length k on. */
  lemma RunIsMinimal(deletable: seq<Entry>, k: nat, total: nat, cap: nat, m: nat)
    requires ShortestRun(deletable, k, total, cap) && m <= |deletable|
    requires total - TotalSize(deletable) <= cap
    ensures total - TotalSize(deletable[..m]) <= cap <==> k <= m
  {
    assert deletable[..|deletable|] == deletable;
    if k <= m { TotalGrows(deletable, k, m); }
  }

  // -------------------------------------------------------------- the sweep

  class LogDir {
    var files: map<string, LogFile>

    constructor (files: map<string, LogFile>)
      ensures this.files == files
    {
      this.files := files;
    }

    /** `listing` is the order in which the directory walk yields the files. */
    method EnforceTotalSize(listing: seq<string>, now: real, capMb: int) returns (removed: nat)
      requires IsListing(listing, files)
      modifies this
      ensures capMb <= 0 ==> removed == 0 && files == old(files)
      ensures capMb > 0 ==>
                var entries := Entries(listing, old(files));
                var deletable := DeletableOf(Sorted(entries), now);
                if TotalSize(entries) <= capMb * 1024 * 1024 then removed == 0 && files == old(files)
                else ShortestRun(deletable, removed, TotalSize(entries), capMb * 1024 * 1024)
                     && files == Without(old(files), deletable[..removed])
    {
      if capMb <= 0 { return 0; }
      var cap := capMb * 1024 * 1024;
      var total, entries := 0, [];
      for k := 0 to |listing|
        invariant files == old(files)
        invariant entries == Entries(listing[..k], files) && total == TotalSize(entries)
      {
        assert listing[..k + 1][..k] == listing[..k];
        assert listing[k] in listing;
        var stat := files[listing[k]];
        if !stat.canStat { continue; }
        total := total + stat.size;
        ghost var before := entries;
        entries := entries + [Entry(stat.mtime, listing[k], stat)];
        assert entries[..|entries| - 1] == before;
      }
      assert listing[..|listing|] == listing;
      if total <= cap { return 0; }
      removed := DeleteOldest(Sorted(entries), total, now, cap);
    }

    method DeleteOldest(sorted: seq<Entry>, total: nat, now: real, cap: nat) returns (removed: nat)
      modifies this
      ensures ShortestRun(DeletableOf(sorted, now), removed, total, cap)
      ensures files == Without(old(files), DeletableOf(sorted, now)[..removed])
    {
      var left: int := total;
      removed := 0;
      var k := 0;
      while k < |sorted| && left > cap
        invariant SweptTo(sorted, now, k, removed, total, cap, left)
        invariant files == Without(old(files), DeletableOf(sorted, now)[..removed])
      {
        var e := sorted[k];
        SweepStep(sorted, now, k, removed, total, cap, left);
        k := k + 1;
        if now - e.mtime < QUIESCENCE_S { continue; }
        if !e.file.canUnlink { continue; }
        WithoutNext(old(files), DeletableOf(sorted, now), removed);
        files := files - {e.path};
        left := left - e.file.size;
        removed := removed + 1;
      }
      assert sorted[..|sorted|] == sorted;
    }
  }

  lemma WithoutNext(files: map<string, LogFile>, es: seq<Entry>, n: nat)
    requires n < |es|
    ensures Without(files, es[..n + 1]) == Without(files, es[..n]) - {es[n].path}
  {
    assert es[..n + 1][..n] == es[..n];
  }

  /** The loop has looked at the first `k` entries and removed the first `n`
      deletable files. */
  ghost predicate SweptTo(sorted: seq<Entry>, now: real, k: nat, n: nat, total: nat, cap: nat, left: int) {
    var all := DeletableOf(sorted, now);
    && k <= |sorted| && n <= |all| && all[..n] == DeletableOf(sorted[..k], now)
    && left == total - TotalSize(all[..n])
    && (forall i :: 0 <= i < n ==> total - TotalSize(all[..i]) > cap)
  }

  lemma SweepStep(sorted: seq<Entry>, now: real, k: nat, n: nat, total: nat, cap: nat, left: int)
    requires SweptTo(sorted, now, k, n, total, cap, left) && k < |sorted| && left > cap
    ensures var e, all := sorted[k], DeletableOf(sorted, now);
            if Deletable(e, now) then
              SweptTo(sorted, now, k + 1, n + 1, total, cap, left - e.file.size)
              && all[..n + 1][..n] == all[..n] && all[..n + 1][n] == e
            else SweptTo(sorted, now, k + 1, n, total, cap, left)
  {
    NextDeletable(sorted, k, now, n);
  }

  /** One more entry adds itself to the run exactly when it is deletable. */
  lemma NextDeletable(es: seq<Entry>, k: nat, now: real, n: nat)
    requires k < |es| && n <= |DeletableOf(es, now)| && DeletableOf(es, now)[..n] == DeletableOf(es[..k], now)
    ensures var all := DeletableOf(es, now);
            if Deletable(es[k], now) then
              n < |all| && all[..n + 1] == DeletableOf(es[..k + 1], now)
              && all[n] == es[k] && all[..n + 1][..n] == all[..n]
            else all[..n] == DeletableOf(es[..k + 1], now)
  {
    var all, more := DeletableOf(es, now), DeletableOf(es[..k + 1], now);
    assert es[..k + 1][..k] == es[..k];
    DeletableOfPrefix(es, k + 1, now);
    if Deletable(es[k], now) {
      assert more == all[..n] + [es[k]];
      assert all[..|more|] == more;
    }
  }

  lemma {:induction false} DeletableOfPrefix(es: seq<Entry>, k: nat, now: real)
    requires k <= |es|
    ensures DeletableOf(es[..k], now) <= DeletableOf(es, now)
    decreases |es|
  {
    if k < |es| {
      assert es[..|es| - 1][..k] == es[..k];
      DeletableOfPrefix(es[..|es| - 1], k, now);
    } else {
      assert es[..k] == es;
    }
  }

  /** The files the walk could stat. */
  function Entries(listing: seq<string>, files: map<string, LogFile>): seq<Entry>
    requires forall p :: p in listing ==> p in files
  {
    if listing == [] then []
    else
      var p := listing[|listing| - 1];
      Entries(listing[..|listing| - 1], files) + if files[p].canStat then [Entry(files[p].mtime, p, files[p])] else []
  }

  lemma {:induction false} DeletableOfSound(es: seq<Entry>, now: real)
    ensures forall e :: e in DeletableOf(es, now) <==> e in es && Deletable(e, now)
    ensures OldestFirst(es) ==> OldestFirst(DeletableOf(es, now))
  {
    if es != [] {
      DeletableOfSound(es[..|es| - 1], now);
      assert es == es[..|es| - 1] + [es[|es| - 1]];
      var init := DeletableOf(es[..|es| - 1], now);
      forall i | 0 <= i < |init| ensures init[i] in es[..|es| - 1] { assert init[i] in init; }
    }
  }

  // ------------------------------------------------- what the sweep leaves

  predicate IsListing(listing: seq<string>, files: map<string, LogFile>) {
    (forall p :: p in listing ==> p in files)
    && forall i, j :: 0 <= i < j < |listing| ==> listing[i] != listing[j]
  }

  function Paths(es: seq<Entry>): set<string> {
    if es == [] then {} else Paths(es[..|es| - 1]) + {es[|es| - 1].path}
  }

  /** The listed paths that are still there. */
  function Still(listing: seq<string>, left: map<string, LogFile>): (r: seq<string>)
    ensures forall p :: p in r <==> p in listing && p in left
  {
    if listing == [] then []
    else
      var p := listing[|listing| - 1];
      Still(listing[..|listing| - 1], left) + if p in left then [p] else []
  }

  /** The sizes of the listed files at the given paths. */
  function SizeAt(listing: seq<string>, files: map<string, LogFile>, ps: set<string>): nat
    requires forall p :: p in listing ==> p in files
  {
    if listing == [] then 0
    else
      var p := listing[|listing| - 1];
      SizeAt(listing[..|listing| - 1], files, ps) + if p in ps && files[p].canStat then files[p].size else 0
  }

  lemma {:induction false} WithoutIsMinus(files: map<string, LogFile>, es: seq<Entry>)
    ensures Without(files, es) == files - Paths(es)
  {
    if es != [] {
      var init, p := es[..|es| - 1], es[|es| - 1].path;
      WithoutIsMinus(files, init);
      assert files - Paths(init) - {p} == files - (Paths(init) + {p});
    }
  }

  lemma {:induction false} PathsSound(es: seq<Entry>, p: string)
    ensures p in Paths(es) <==> exists i :: 0 <= i < |es| && es[i].path == p
  {
    if es != [] {
      var init := es[..|es| - 1];
      PathsSound(init, p);
      if p in Paths(init) {
        var i :| 0 <= i < |init| && init[i].path == p;
        assert es[i].path == p;
      }
      if i :| 0 <= i < |es| && es[i].path == p {
        assert i < |init| ==> init[i].path == p;
      }
    }
  }

  /** An entry stands for a listed file... */
  lemma {:induction false} EntryIsFile(listing: seq<string>, files: map<string, LogFile>, e: Entry)
    requires IsListing(listing, files)
    ensures e in Entries(listing, files)
            <==> e.path in listing && files[e.path].canStat && e == Entry(files[e.path].mtime, e.path, files[e.path])
  {
    if listing != [] {
      var init, p := listing[..|listing| - 1], listing[|listing| - 1];
      assert listing == init + [p];
      EntryIsFile(init, files, e);
    }
  }

  /** ... and for exactly one. */
  lemma {:induction false} EntryOnce(listing: seq<string>, files: map<string, LogFile>, e: Entry)
    requires IsListing(listing, files)
    ensures multiset(Entries(listing, files))[e] <= 1
  {
    if listing != [] {
      var init := listing[..|listing| - 1];
      EntryOnce(init, files, e);
      EntryIsFile(init, files, e);
    }
  }

  /** What is listed is what is still there and what is gone. */
  lemma {:induction false} LeftAndGone(listing: seq<string>, files: map<string, LogFile>, gone: set<string>)
    requires forall p :: p in listing ==> p in files
    ensures var left := files - gone;
            TotalSize(Entries(Still(listing, left), left)) + SizeAt(listing, files, gone)
            == TotalSize(Entries(listing, files))
  {
    if listing != [] {
      var init, p, left := listing[..|listing| - 1], listing[|listing| - 1], files - gone;
      assert listing == init + [p];
      LeftAndGone(init, files, gone);
      OneMoreEntry(init, p, files);
      if p in left {
        assert Still(listing, left) == Still(init, left) + [p];
        OneMoreEntry(Still(init, left), p, left);
      } else {
        assert Still(listing, left) == Still(init, left);
      }
    }
  }

  lemma OneMoreEntry(listing: seq<string>, p: string, files: map<string, LogFile>)
    requires p in files && forall q :: q in listing ==> q in files
    ensures TotalSize(Entries(listing + [p], files))
            == TotalSize(Entries(listing, files)) + if files[p].canStat then files[p].size else 0
  {
    var all, before := Entries(listing + [p], files), Entries(listing, files);
    assert (listing + [p])[..|listing|] == listing && (listing + [p])[|listing|] == p;
    if files[p].canStat {
      assert all == before + [Entry(files[p].mtime, p, files[p])];
      assert all[..|all| - 1] == before;
    } else {
      assert all == before;
    }
  }

  lemma {:induction false} SizeAtOneMore(listing: seq<string>, files: map<string, LogFile>, ps: set<string>, p: string)
    requires IsListing(listing, files) && p !in ps
    ensures SizeAt(listing, files, ps + {p})
            == SizeAt(listing, files, ps) + if p in listing && files[p].canStat then files[p].size else 0
  {
    if listing != [] {
      var init, q := listing[..|listing| - 1], listing[|listing| - 1];
      assert listing == init + [q];
      SizeAtOneMore(init, files, ps, p);
    }
  }

  /** The removed entries weigh what their files do. */
  lemma {:induction false} GoneSize(listing: seq<string>, files: map<string, LogFile>, rs: seq<Entry>)
    requires IsListing(listing, files) && multiset(rs) <= multiset(Entries(listing, files))
    ensures SizeAt(listing, files, Paths(rs)) == TotalSize(rs)
  {
    if rs == [] {
      NothingGone(listing, files);
    } else {
      var init, last := rs[..|rs| - 1], rs[|rs| - 1];
      assert rs == init + [last];
      GoneSize(listing, files, init);
      EntryIsFile(listing, files, last);
      EntryOnce(listing, files, last);
      assert last in multiset(rs);
      forall i | 0 <= i < |init| ensures init[i].path != last.path {
        assert init[i] in multiset(rs) && init[i] in multiset(init);
        EntryIsFile(listing, files, init[i]);
        assert multiset(rs)[last] <= 1;
      }
      PathsSound(init, last.path);
      SizeAtOneMore(listing, files, Paths(init), last.path);
    }
  }

  lemma {:induction false} NothingGone(listing: seq<string>, files: map<string, LogFile>)
    requires forall p :: p in listing ==> p in files
    ensures SizeAt(listing, files, {}) == 0
  {
    if listing != [] { NothingGone(listing[..|listing| - 1], files); }
  }

  lemma {:induction false} DeletableOfWithin(es: seq<Entry>, now: real)
    ensures multiset(DeletableOf(es, now)) <= multiset(es)
  {
    if es != [] {
      DeletableOfWithin(es[..|es| - 1], now);
      assert es == es[..|es| - 1] + [es[|es| - 1]];
    }
  }

  /** The run removed consists of listed files, each once. */
  lemma RunWithin(entries: seq<Entry>, now: real, k: nat)
    requires k <= |DeletableOf(Sorted(entries), now)|
    ensures multiset(DeletableOf(Sorted(entries), now)[..k]) <= multiset(entries)
  {
    var d := DeletableOf(Sorted(entries), now);
    SortedSound(entries);
    DeletableOfWithin(Sorted(entries), now);
    assert d == d[..k] + d[k..];
  }

  /** A listed file is still there exactly when it is not in the run removed. */
  lemma Survivors(listing: seq<string>, files: map<string, LogFile>, rs: seq<Entry>, e: Entry)
    requires IsListing(listing, files) && multiset(rs) <= multiset(Entries(listing, files))
    ensures var left := Without(files, rs);
            e in Entries(Still(listing, left), left) <==> e in Entries(listing, files) && e !in rs
  {
    var left := Without(files, rs);
    WithoutIsMinus(files, rs);
    StillIsListing(listing, files, left);
    EntryIsFile(listing, files, e);
    EntryIsFile(Still(listing, left), left, e);
    PathsSound(rs, e.path);
    forall i | 0 <= i < |rs| ensures rs[i].path == e.path && e in Entries(listing, files) ==> rs[i] == e {
      assert rs[i] in multiset(rs);
      EntryIsFile(listing, files, rs[i]);
    }
  }

  lemma {:induction false} StillIsListing(listing: seq<string>, files: map<string, LogFile>, left: map<string, LogFile>)
    requires IsListing(listing, files)
    ensures IsListing(Still(listing, left), left)
  {
    if listing != [] { StillIsListing(listing[..|listing| - 1], files, left); }
  }

  /** The removed run is old and can be deleted, and once all of it is gone only
      the rest is left. */
  lemma RunIsDeletable(all: seq<Entry>, now: real, k: nat)
    requires k <= |DeletableOf(Sorted(all), now)|
    ensures var d := DeletableOf(Sorted(all), now);
            && OldestFirst(d)
            && (forall e :: e in d[..k] ==> Deletable(e, now))
            && (k == |d| ==> forall e :: e in all && Deletable(e, now) ==> e in d[..k])
  {
    var s := Sorted(all);
    var d := DeletableOf(s, now);
    SortedSound(all);
    DeletableOfSound(s, now);
    forall e | e in all ensures e in s { assert e in multiset(all) && e in multiset(s); }
    forall e | e in d[..k] ensures Deletable(e, now) { assert e in d; }
    if k == |d| { assert d[..k] == d; }
  }

  /** What is left in the directory, by size and one by one. */
  lemma WhatIsLeft(listing: seq<string>, files: map<string, LogFile>, rs: seq<Entry>)
    requires IsListing(listing, files) && multiset(rs) <= multiset(Entries(listing, files))
    ensures var left := Without(files, rs);
            var rest := Entries(Still(listing, left), left);
            && TotalSize(rest) + TotalSize(rs) == TotalSize(Entries(listing, files))
            && forall e :: e in rest <==> e in Entries(listing, files) && e !in rs
  {
    GoneSize(listing, files, rs);
    WithoutIsMinus(files, rs);
    LeftAndGone(listing, files, Paths(rs));
    var left := Without(files, rs);
    forall e ensures e in Entries(Still(listing, left), left) <==> e in Entries(listing, files) && e !in rs {
      Survivors(listing, files, rs, e);
    }
  }

  /** What a walk finds after the sweep: the listed files less the run removed, in
      number and in size. Fresh files are all there, an older deletable file went
      before a newer one, and the directory is under the cap unless everything
      left is fresh or cannot be deleted. */
  lemma SweepOutcome(listing: seq<string>, files: map<string, LogFile>, now: real, cap: nat, k: nat)
    requires IsListing(listing, files)
    requires var all := Entries(listing, files); ShortestRun(DeletableOf(Sorted(all), now), k, TotalSize(all), cap)
    ensures var all := Entries(listing, files);
            var d := DeletableOf(Sorted(all), now);
            var left := Without(files, d[..k]);
            var rest := Entries(Still(listing, left), left);
            && OldestFirst(d)
            && TotalSize(rest) + TotalSize(d[..k]) == TotalSize(all)
            && (forall e :: e in rest <==> e in all && e !in d[..k])
            && (forall e :: e in all && now - e.mtime < 300.0 ==> e in rest)
            && (TotalSize(rest) <= cap || forall e :: e in rest ==> now - e.mtime < 300.0 || !e.file.canUnlink)
  {
    var all := Entries(listing, files);
    RunWithin(all, now, k);
    RunIsDeletable(all, now, k);
    WhatIsLeft(listing, files, DeletableOf(Sorted(all), now)[..k]);
  }
}
