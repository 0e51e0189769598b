/** Step 6 of the sanitizer: when putting the phrases back gives every phrase its
    own place, and what is left over when it does not. */
module SanitizerRestore {
  import opened PyString
  import opened QuerySanitizer
  import opened SanitizerPieces

  predicate NulFree(s: string) { NUL !in s }

  predicate AllNulFree(ss: seq<string>) { forall i :: 0 <= i < |ss| ==> NulFree(ss[i]) }

  predicate AllQuoted(ss: seq<string>) { forall i :: 0 <= i < |ss| ==> IsPhrase(ss[i]) }

  /** The bare piece `m`, between two placeholders, reads like the label of a
      placeholder that is not one of its two neighbours' right marks. */
  predicate Clashes(bares: seq<string>, j: nat, m: nat) { j + 1 < m < |bares| - 1 && bares[m] == Label(j) }

  ghost predicate ClashBelow(bares: seq<string>, i: nat) { exists j: nat, m: nat :: j < i && Clashes(bares, j, m) }

  // ------------------------------------------------------ one replacement

  function Pattern(x: string): string { [NUL] + x + [NUL] }

  lemma {:induction false} SkipPlain(a: string, r: string, x: string, with: string)
    requires NulFree(a)
    ensures ReplaceAll(a + r, Pattern(x), with) == a + ReplaceAll(r, Pattern(x), with)
  {
    if a == [] {
      assert a + r == r;
    } else {
      var s := a + r;
      assert s[0] == a[0] && a[0] in a && Pattern(x)[0] == NUL;
      assert !(Pattern(x) <= s);
      assert s[1..] == a[1..] + r;
      SkipPlain(a[1..], r, x, with);
      Assoc([a[0]], a[1..], ReplaceAll(r, Pattern(x), with));
      assert a == [a[0]] + a[1..];
    }
  }

  /** Behind a mark, the text up to the next mark is all that decides a match. */
  lemma MatchAt(x: string, l: string, r: string)
    requires NulFree(x) && NulFree(l)
    ensures Pattern(x) <= [NUL] + (l + ([NUL] + r)) <==> x == l
    ensures !(Pattern(x) <= [NUL] + l)
  {
    var s, p, q := [NUL] + (l + ([NUL] + r)), Pattern(x), [NUL] + l;
    assert p[|x| + 1] == NUL;
    if |x| < |l| {
      assert l[|x|] in l && s[|x| + 1] == q[|x| + 1] == l[|x|];
    } else if |l| < |x| {
      assert x[|l|] in x && p[|l| + 1] == x[|l|] && s[|l| + 1] == NUL;
    } else if x == l {
      assert s == p + r;
    } else {
      var k :| 0 <= k < |x| && x[k] != l[k];
      assert p[k + 1] == x[k] && s[k + 1] == l[k];
    }
  }

  lemma PassMark(l: string, r: string, x: string, with: string)
    requires NulFree(x) && NulFree(l) && x != l
    ensures ReplaceAll([NUL] + (l + ([NUL] + r)), Pattern(x), with)
         == [NUL] + (l + ReplaceAll([NUL] + r, Pattern(x), with))
  {
    MatchAt(x, l, r);
    var s := [NUL] + (l + ([NUL] + r));
    assert s[1..] == l + ([NUL] + r);
    SkipPlain(l, [NUL] + r, x, with);
  }

  lemma TakeMark(r: string, x: string, with: string)
    ensures ReplaceAll([NUL] + (x + ([NUL] + r)), Pattern(x), with) == with + ReplaceAll(r, Pattern(x), with)
  {
    var s := [NUL] + (x + ([NUL] + r));
    assert s == Pattern(x) + r;
    assert s[|Pattern(x)|..] == r;
  }

  // ------------------------------------------------------ the woven text

  /** How a woven text reads behind a wall, up to its own first mark. */
  lemma WeaveHead(bares: seq<string>, n: nat) returns (r: string)
    requires bares != []
    ensures |bares| == 1 ==> Weave(bares, n) == bares[0]
    ensures |bares| > 1 ==>
              r == Label(n) + ([NUL] + Weave(bares[1..], n + 1)) && Weave(bares, n) == bares[0] + ([NUL] + r)
  {
    r := "";
    if |bares| > 1 {
      r := Label(n) + ([NUL] + Weave(bares[1..], n + 1));
      MarkShape(n, Weave(bares[1..], n + 1));
    }
  }

  /** Replacing the placeholder `x` behind a wall: nothing happens to a piece
      that is not `x`. */
  lemma PassBare(bares: seq<string>, n: nat, x: string, with: string)
    requires bares != [] && NulFree(x) && NulFree(bares[0]) && (|bares| > 1 ==> bares[0] != x)
    ensures ReplaceAll([NUL] + Weave(bares, n), Pattern(x), with)
            == [NUL] + ReplaceAll(Weave(bares, n), Pattern(x), with)
  {
    var r := WeaveHead(bares, n);
    var s := [NUL] + Weave(bares, n);
    MatchAt(x, bares[0], r);
    assert s[1..] == Weave(bares, n);
  }

  /** The first piece and the first placeholder are passed over. */
  lemma PassFirst(bares: seq<string>, n: nat, x: string, with: string)
    requires |bares| > 1 && NulFree(x) && NulFree(bares[0]) && x != Label(n)
    ensures var w := Weave(bares[1..], n + 1);
      ReplaceAll(Weave(bares, n), Pattern(x), with)
      == bares[0] + ([NUL] + (Label(n) + ReplaceAll([NUL] + w, Pattern(x), with)))
  {
    var w := Weave(bares[1..], n + 1);
    MarkShape(n, w);
    SkipPlain(bares[0], Mark(n) + w, x, with);
    LabelIsNulFree(n);
    PassMark(Label(n), w, x, with);
  }

  lemma LabelIsNulFree(n: nat)
    ensures NulFree(Label(n))
  {
    LabelIsAlnum(n);
  }

  /** No placeholder and no inner piece reads `x`: the pass changes nothing. */
  lemma {:induction false} NoMatch(bares: seq<string>, n: nat, x: string, with: string)
    requires bares != [] && AllNulFree(bares) && NulFree(x)
    requires forall t :: n <= t < n + |bares| - 1 ==> Label(t) != x
    requires forall m :: 0 < m < |bares| - 1 ==> bares[m] != x
    ensures ReplaceAll(Weave(bares, n), Pattern(x), with) == Weave(bares, n)
  {
    if |bares| == 1 {
      SkipPlain(bares[0], [], x, with);
      assert bares[0] + [] == bares[0];
    } else {
      var rest := bares[1..];
      assert rest[0] == bares[1] && forall m :: 0 < m < |rest| - 1 ==> rest[m] == bares[m + 1];
      assert AllNulFree(rest);
      PassFirst(bares, n, x, with);
      PassBare(rest, n + 1, x, with);
      NoMatch(rest, n + 1, x, with);
      MarkShape(n, Weave(rest, n + 1));
    }
  }

  // -------------------------------------------------- a stray placeholder

  function OddNuls(s: string): bool { if s == [] then false else (s[0] == NUL) != OddNuls(s[1..]) }

  /** A quote with an odd number of marks to its left (`odd` counts one more). */
  predicate Stray(s: string, odd: bool) {
    s != [] && ((odd && s[0] == '"') || Stray(s[1..], odd != (s[0] == NUL)))
  }

  lemma {:induction false} OddNulsConcat(a: string, b: string)
    ensures OddNuls(a + b) == (OddNuls(a) != OddNuls(b))
  {
    if a == [] {
      assert a + b == b;
    } else {
      assert (a + b)[1..] == a[1..] + b;
      OddNulsConcat(a[1..], b);
    }
  }

  lemma {:induction false} NulFreeIsEven(s: string)
    requires NulFree(s)
    ensures !OddNuls(s)
  {
    if s != [] {
      assert s[0] in s && forall c :: c in s[1..] ==> c in s;
      NulFreeIsEven(s[1..]);
    }
  }

  lemma PatternIsEven(x: string)
    requires NulFree(x)
    ensures !OddNuls(Pattern(x))
  {
    NulFreeIsEven(x);
    OddNulsConcat([NUL] + x, [NUL]);
    OddNulsConcat([NUL], x);
    assert OddNuls([NUL]);
  }

  lemma {:induction false} StrayBehind(a: string, b: string, odd: bool)
    ensures Stray(b, odd != OddNuls(a)) ==> Stray(a + b, odd)
    ensures '"' !in a ==> (Stray(b, odd != OddNuls(a)) <==> Stray(a + b, odd))
  {
    if a == [] {
      assert a + b == b;
    } else {
      assert (a + b)[1..] == a[1..] + b && a[0] in a;
      assert forall c :: c in a[1..] ==> c in a;
      StrayBehind(a[1..], b, odd != (a[0] == NUL));
    }
  }

  /** Once a quote is stray, no later pass mends it. */
  lemma {:induction false} StrayStays(s: string, x: string, with: string, odd: bool)
    requires Alnum(x) && NulFree(with) && Stray(s, odd)
    ensures Stray(ReplaceAll(s, Pattern(x), with), odd)
    decreases |s|
  {
    var p := Pattern(x);
    if p <= s {
      var rest := s[|p|..];
      assert s == p + rest;
      assert '"' !in p && NulFree(x);
      PatternIsEven(x);
      StrayBehind(p, rest, odd);
      StrayStays(rest, x, with, odd);
      NulFreeIsEven(with);
      StrayBehind(with, ReplaceAll(rest, p, with), odd);
    } else if !(odd && s[0] == '"') {
      StrayStays(s[1..], x, with, odd != (s[0] == NUL));
      var r := ReplaceAll(s, p, with);
      assert r[0] == s[0] && r[1..] == ReplaceAll(s[1..], p, with);
    }
  }

  lemma {:induction false} StrayHasNul(s: string)
    requires Stray(s, false)
    ensures NUL in s
  {
    if s[0] != NUL {
      StrayHasNul(s[1..]);
      assert forall c :: c in s[1..] ==> c in s;
    }
  }

  /** An inner piece that reads `x`: the phrase put there has a mark cut in half
      on its left. */
  lemma {:induction false} MatchGoesAstray(bares: seq<string>, n: nat, x: string, with: string, m: nat)
    requires AllNulFree(bares) && NulFree(x) && IsPhrase(with)
    requires forall t :: n <= t < n + |bares| - 1 ==> Label(t) != x
    requires 0 < m < |bares| - 1 && bares[m] == x
    ensures Stray(ReplaceAll(Weave(bares, n), Pattern(x), with), false)
  {
    var rest := bares[1..];
    var w, head := Weave(rest, n + 1), bares[0] + [NUL] + Label(n);
    assert AllNulFree(rest) && rest[0] == bares[1];
    PassFirst(bares, n, x, with);
    HeadIsOdd(bares[0], n);
    if rest[0] == x {
      var r := WeaveHead(rest, n + 1);
      TakeMark(r, x, with);
      var out := with + ReplaceAll(r, Pattern(x), with);
      assert out[0] == '"';
      StrayBehind(head, out, false);
      HeadShape(bares[0], Label(n), out);
    } else {
      MatchGoesAstray(rest, n + 1, x, with, m - 1);
      PassBare(rest, n + 1, x, with);
      var out := [NUL] + ReplaceAll(w, Pattern(x), with);
      assert out[1..] == ReplaceAll(w, Pattern(x), with);
      assert Stray(out, true);
      StrayBehind(head, out, false);
      HeadShape(bares[0], Label(n), out);
    }
  }

  lemma HeadShape(a: string, l: string, r: string)
    ensures a + ([NUL] + (l + r)) == a + [NUL] + l + r
  {
  }

  lemma HeadIsOdd(a: string, n: nat)
    requires NulFree(a)
    ensures OddNuls(a + [NUL] + Label(n))
  {
    LabelIsNulFree(n);
    NulFreeIsEven(Label(n));
    NulFreeIsEven(a);
    OddNulsConcat(a + [NUL], Label(n));
    OddNulsConcat(a, [NUL]);
    assert OddNuls([NUL]);
  }

  // ------------------------------------------------------------ all passes

  /** The text after the first `i` passes when each found its own placeholder. */
  function Partly(bares: seq<string>, phrases: seq<string>, i: nat, n: nat): string
    requires |bares| == |phrases| + 1 && i <= |phrases|
  {
    if phrases == [] then bares[0]
    else if i == 0 then Weave(bares, n)
    else bares[0] + (phrases[0] + Partly(bares[1..], phrases[1..], i - 1, n + 1))
  }

  lemma {:induction false} PartlyAll(bares: seq<string>, phrases: seq<string>, n: nat)
    requires |bares| == |phrases| + 1
    ensures Partly(bares, phrases, |phrases|, n) == WeaveText(bares, phrases)
  {
    if phrases != [] { PartlyAll(bares[1..], phrases[1..], n + 1); }
  }

  /** The piece `m` behind the next placeholder reads `x`. */
  ghost predicate Hits(bares: seq<string>, i: nat, x: string) {
    exists m :: i + 1 < m < |bares| - 1 && bares[m] == x
  }

  /** A pass over text behind a piece and a phrase that are in place. */
  lemma InPlace(a: string, b: string, y: string, x: string, with: string, hit: bool, done: string)
    requires NulFree(a) && NulFree(b) && PassDone(y, x, with, hit, done)
    ensures PassDone(a + (b + y), x, with, hit, a + (b + done))
  {
    var out := ReplaceAll(y, Pattern(x), with);
    SkipPlain(b, y, x, with);
    SkipPlain(a, b + y, x, with);
    NulFreeIsEven(b);
    NulFreeIsEven(a);
    StrayBehind(b, out, false);
    StrayBehind(a, b + out, false);
  }

  /** Pass `i` on a text whose first `i` phrases are in place. */
  lemma {:induction false} OnePass(bares: seq<string>, phrases: seq<string>, i: nat, n: nat, x: string)
    requires |bares| == |phrases| + 1 && i < |phrases| && x == Label(n + i)
    requires AllNulFree(bares) && AllNulFree(phrases) && AllQuoted(phrases)
    ensures PassDone(Partly(bares, phrases, i, n), x, phrases[i], Hits(bares, i, x), Partly(bares, phrases, i + 1, n))
    decreases i
  {
    if i == 0 {
      FirstPass(bares, phrases[0], n);
    } else {
      var rest, more := bares[1..], phrases[1..];
      assert AllNulFree(rest) && AllNulFree(more) && AllQuoted(more);
      OnePass(rest, more, i - 1, n + 1, x);
      InPlace(bares[0], phrases[0], Partly(rest, more, i - 1, n + 1), x, phrases[i],
              Hits(bares, i, x), Partly(rest, more, i, n + 1));
    }
  }

  /** What a pass over `s` leaves: a stray quote after a hit, `done` otherwise. */
  ghost predicate PassDone(s: string, x: string, with: string, hit: bool, done: string) {
    var out := ReplaceAll(s, Pattern(x), with);
    if hit then Stray(out, false) else out == done
  }

  lemma FirstPass(bares: seq<string>, phrase: string, n: nat)
    requires |bares| > 1 && AllNulFree(bares) && NulFree(phrase) && IsPhrase(phrase)
    ensures var out := ReplaceAll(Weave(bares, n), Pattern(Label(n)), phrase);
      if Hits(bares, 0, Label(n)) then Stray(out, false)
      else out == bares[0] + (phrase + Weave(bares[1..], n + 1))
  {
    var x, rest := Label(n), bares[1..];
    var w := Weave(rest, n + 1);
    MarkShape(n, w);
    SkipPlain(bares[0], Mark(n) + w, x, phrase);
    TakeMark(w, x, phrase);
    LabelIsNulFree(n);
    forall t | n + 1 <= t < n + |bares| - 1 ensures Label(t) != x { LabelsDiffer(t, n); }
    assert AllNulFree(rest);
    assert forall m :: 0 <= m < |rest| ==> rest[m] == bares[m + 1];
    if Hits(bares, 0, x) {
      var m :| 1 < m < |bares| - 1 && bares[m] == x;
      MatchGoesAstray(rest, n + 1, x, phrase, m - 1);
      var out := ReplaceAll(w, Pattern(x), phrase);
      NulFreeIsEven(phrase);
      NulFreeIsEven(bares[0]);
      StrayBehind(phrase, out, false);
      StrayBehind(bares[0], phrase + out, false);
    } else {
      NoMatch(rest, n + 1, x, phrase);
    }
  }

  lemma LastClash(bares: seq<string>, i: nat)
    requires i > 0 && !ClashBelow(bares, i - 1)
    ensures ClashBelow(bares, i) <==> Hits(bares, i - 1, Label(i - 1))
  {
    if ClashBelow(bares, i) {
      var j: nat, m: nat :| j < i && Clashes(bares, j, m);
      assert j == i - 1;
      assert bares[m] == Label(i - 1);
    }
    if Hits(bares, i - 1, Label(i - 1)) {
      var m :| i < m < |bares| - 1 && bares[m] == Label(i - 1);
      assert Clashes(bares, i - 1, m);
    }
  }

  /** After `i` passes: every one of the first `i` phrases is in its place, unless
      one of their labels was also the text of a piece behind it. */
  lemma {:induction false} Passes(bares: seq<string>, phrases: seq<string>, i: nat)
    requires |bares| == |phrases| + 1 && i <= |phrases|
    requires AllNulFree(bares) && AllNulFree(phrases) && AllQuoted(phrases)
    ensures var out := Restored(Weave(bares, 0), phrases, i);
      if ClashBelow(bares, i) then Stray(out, false) else out == Partly(bares, phrases, i, 0)
  {
    if i > 0 {
      var x, s := Label(i - 1), Restored(Weave(bares, 0), phrases, i - 1);
      assert Mark(i - 1) == Pattern(x);
      Passes(bares, phrases, i - 1);
      LabelIsAlnum(i - 1);
      if ClashBelow(bares, i - 1) {
        StrayStays(s, x, phrases[i - 1], false);
        var j: nat, m: nat :| j < i - 1 && Clashes(bares, j, m);
        assert j < i && Clashes(bares, j, m);
      } else {
        OnePass(bares, phrases, i - 1, 0, x);
        LastClash(bares, i);
      }
    }
  }
}
