/** What the sanitizer promises of its result, and exactly when it keeps it. */
module SanitizerProofs {
  import opened PyString
  import opened QuerySanitizer
  import opened SanitizerPieces
  import opened SanitizerRestore

  // ------------------------------------------------------------- the caps

  function NonEmpty(parts: seq<string>): seq<string> {
    if parts == [] then [] else (if parts[0] == [] then [] else [parts[0]]) + NonEmpty(parts[1..])
  }

  predicate AllSpaceless(parts: seq<string>) { forall i :: 0 <= i < |parts| ==> Spaceless(parts[i]) }

  lemma WordLengthIs(p: string, r: string)
    requires Spaceless(p) && (r == [] || IsSpace(r[0]))
    ensures WordLength(p + r) == |p|
  {
    var s, n := p + r, WordLength(p + r);
    assert forall k :: 0 <= k < |p| ==> s[k] == p[k];
    forall k | 0 <= k < n ensures !IsSpace(s[k]) { assert s[..n][k] == s[k]; }
    assert |p| < |s| ==> s[|p|] == r[0];
  }

  lemma SplitFirst(p: string, r: string)
    requires Spaceless(p) && (r == [] || IsSpace(r[0]))
    ensures Split(p + r) == (if p == [] then [] else [p]) + Split(r)
  {
    var s := p + r;
    if p == [] {
      assert s == r;
    } else {
      WordLengthIs(p, r);
      assert s[0] == p[0];
      CutBoth(p, r, |p|);
      assert p[..|p|] == p && p[|p|..] + r == r;
    }
  }

  /** Joining spaceless parts by single spaces and splitting again gives the
      parts that are not empty. */
  lemma {:induction false} SplitJoin(parts: seq<string>)
    requires AllSpaceless(parts)
    ensures Split(Join(" ", parts)) == NonEmpty(parts)
  {
    if |parts| == 1 {
      SplitFirst(parts[0], []);
      assert parts[0] + [] == parts[0];
    } else if parts != [] {
      var rest := Join(" ", parts[1..]);
      var r := " " + rest;
      assert r[1..] == rest;
      assert parts[0] + " " + rest == parts[0] + r;
      SplitFirst(parts[0], r);
      assert AllSpaceless(parts[1..]);
      SplitJoin(parts[1..]);
    }
  }

  lemma {:induction false} DroppedStars(tok: string)
    ensures var r := ReplaceChar(tok, '*', "");
      |r| <= |tok| && !HasStar(r) && forall c :: c in r ==> c in tok
  {
    if tok != [] {
      DroppedStars(tok[1..]);
      assert forall c :: c in tok[1..] ==> c in tok;
      assert tok[0] in tok;
    }
  }

  lemma CapTokenSound(tok: string, seen: nat, caps: Caps)
    ensures var r := CapToken(tok, seen, caps);
      |r| <= caps.chars && (forall c :: c in r ==> c in tok) && (HasStar(r) ==> HasStar(tok) && seen < caps.wildcards)
  {
    DroppedStars(tok);
    var t := if HasStar(tok) && seen + 1 > caps.wildcards then ReplaceChar(tok, '*', "") else tok;
    assert forall c :: c in Shorten(t, caps.chars) ==> c in t;
  }

  predicate CharsFrom(part: string, tok: string) { forall c :: c in part ==> c in tok }

  lemma {:induction false} CapTokensSound(toks: seq<string>, caps: Caps)
    ensures var r := CapTokens(toks, caps);
      |r| == |toks| && (forall i :: 0 <= i < |r| ==> |r[i]| <= caps.chars && CharsFrom(r[i], toks[i]))
  {
    if toks != [] {
      var init := toks[..|toks| - 1];
      CapTokensSound(init, caps);
      CapTokenSound(toks[|toks| - 1], StarTokens(init), caps);
    }
  }

  lemma {:induction false} CapTokensStars(toks: seq<string>, caps: Caps)
    ensures StarTokens(CapTokens(toks, caps)) <= caps.wildcards && StarTokens(CapTokens(toks, caps)) <= StarTokens(toks)
  {
    if toks != [] {
      var init, last := toks[..|toks| - 1], toks[|toks| - 1];
      var x := CapToken(last, StarTokens(init), caps);
      CapTokensStars(init, caps);
      CapTokenSound(last, StarTokens(init), caps);
      StarTokensLast(CapTokens(init, caps), x);
    }
  }

  lemma StarTokensLast(r: seq<string>, x: string)
    ensures StarTokens(r + [x]) == StarTokens(r) + if HasStar(x) then 1 else 0
  {
    assert (r + [x])[..|r|] == r;
  }

  /** The tokens with a star before the i-th. */
  function StarredBefore(toks: seq<string>, i: nat): set<nat>
    requires i <= |toks|
  {
    set j: nat | j < i && '*' in toks[j]
  }

  lemma {:induction false} StarTokensAreStarred(toks: seq<string>, i: nat)
    requires i <= |toks|
    ensures StarTokens(toks[..i]) == |StarredBefore(toks, i)|
  {
    if i > 0 {
      StarTokensAreStarred(toks, i - 1);
      assert toks[..i][..i - 1] == toks[..i - 1];
      StarredNext(toks, i);
    }
  }

  lemma StarredNext(toks: seq<string>, i: nat)
    requires 0 < i <= |toks|
    ensures |StarredBefore(toks, i)| == |StarredBefore(toks, i - 1)| + if HasStar(toks[i - 1]) then 1 else 0
  {
    assert StarredBefore(toks, i) == StarredBefore(toks, i - 1) + if '*' in toks[i - 1] then {i - 1} else {};
  }

  lemma {:induction false} CapTokensAt(toks: seq<string>, caps: Caps, i: nat)
    requires i < |toks|
    ensures |CapTokens(toks, caps)| == |toks|
    ensures CapTokens(toks, caps)[i] == CapToken(toks[i], StarTokens(toks[..i]), caps)
    decreases |toks|
  {
    var init := toks[..|toks| - 1];
    var last := CapToken(toks[|toks| - 1], StarTokens(init), caps);
    assert CapTokens(toks, caps) == CapTokens(init, caps) + [last];
    if i < |init| {
      CapTokensAt(init, caps, i);
      assert init[..i] == toks[..i];
    } else {
      if init != [] { CapTokensAt(init, caps, 0); }
      assert toks[..i] == init;
    }
  }

  /** The i-th token of the capped query: without its stars when enough tokens
      before it have one, and cut to the length. */
  lemma CapsEachToken(toks: seq<string>, caps: Caps, i: nat)
    requires i < |toks|
    ensures var t := if '*' in toks[i] && |StarredBefore(toks, i)| >= caps.wildcards
                     then ReplaceChar(toks[i], '*', "") else toks[i];
            |CapTokens(toks, caps)| == |toks|
            && CapTokens(toks, caps)[i] == if |t| > caps.chars then t[..caps.chars] else t
  {
    CapTokensAt(toks, caps, i);
    StarTokensAreStarred(toks, i);
  }

  /** The capped query splits into the capped first tokens that are not empty. */
  lemma CappedSplits(query: string, caps: Caps)
    ensures var toks := Split(query);
            Split(Capped(query, caps))
            == NonEmpty(CapTokens(toks[..if |toks| < caps.tokens then |toks| else caps.tokens], caps))
  {
    KeptIsFirst(query, caps);
    CapTokensSplit(Kept(query, caps), caps);
  }

  lemma KeptIsFirst(query: string, caps: Caps)
    ensures var toks := Split(query);
            Kept(query, caps) == toks[..if |toks| < caps.tokens then |toks| else caps.tokens]
            && AllSpaceless(Kept(query, caps))
  {
  }

  lemma CapTokensSplit(toks: seq<string>, caps: Caps)
    requires AllSpaceless(toks)
    ensures Split(Join(" ", CapTokens(toks, caps))) == NonEmpty(CapTokens(toks, caps))
  {
    CapTokensSound(toks, caps);
    CapsSpaceless(toks, CapTokens(toks, caps));
    SplitJoin(CapTokens(toks, caps));
  }

  lemma {:induction false} StarTokensFirst(toks: seq<string>)
    requires toks != []
    ensures StarTokens(toks) == (if HasStar(toks[0]) then 1 else 0) + StarTokens(toks[1..])
  {
    if |toks| > 1 {
      var init := toks[..|toks| - 1];
      StarTokensFirst(init);
      assert init[1..] == toks[1..][..|toks| - 2];
    } else {
      assert toks[..0] == [] && toks[1..] == [];
    }
  }

  lemma {:induction false} NonEmptySound(parts: seq<string>, n: nat)
    requires forall i :: 0 <= i < |parts| ==> |parts[i]| <= n
    ensures |NonEmpty(parts)| <= |parts| && StarTokens(NonEmpty(parts)) == StarTokens(parts)
    ensures forall i :: 0 <= i < |NonEmpty(parts)| ==> |NonEmpty(parts)[i]| <= n
  {
    if parts != [] {
      NonEmptySound(parts[1..], n);
      StarTokensFirst(parts);
      var rest := NonEmpty(parts[1..]);
      if parts[0] != [] {
        var r := [parts[0]] + rest;
        StarTokensFirst(r);
        assert r[1..] == rest;
        assert forall i :: 0 < i < |r| ==> r[i] == rest[i - 1];
        assert NonEmpty(parts) == r;
      } else {
        assert NonEmpty(parts) == rest;
      }
    }
  }

  function Kept(query: string, caps: Caps): seq<string> {
    var toks := Split(query);
    if |toks| <= caps.tokens then toks else toks[..caps.tokens]
  }

  function MaxCapped(caps: Caps): nat {
    if caps.tokens == 0 then 0 else caps.tokens * caps.chars + caps.tokens - 1
  }

  lemma {:induction false} JoinLength(parts: seq<string>, n: nat)
    requires forall i :: 0 <= i < |parts| ==> |parts[i]| <= n
    ensures |Join(" ", parts)| <= if parts == [] then 0 else |parts| * n + |parts| - 1
  {
    if |parts| > 1 {
      JoinLength(parts[1..], n);
      assert |parts| * n == n + (|parts| - 1) * n;
    }
  }

  /** The capped query holds at most `tokens` tokens of at most `chars` characters
      each, at most `wildcards` of them with a star. */
  lemma CapsHold(query: string, caps: Caps)
    ensures var toks := Split(Capped(query, caps));
      |toks| <= caps.tokens && StarTokens(toks) <= caps.wildcards
      && forall i :: 0 <= i < |toks| ==> |toks[i]| <= caps.chars
  {
    var toks := Kept(query, caps);
    var parts := CapTokens(toks, caps);
    CapTokensSound(toks, caps);
    CapTokensStars(toks, caps);
    CapsSpaceless(toks, parts);
    SplitJoin(parts);
    NonEmptySound(parts, caps.chars);
  }

  lemma CappedFits(query: string, caps: Caps)
    ensures |Capped(query, caps)| <= MaxCapped(caps)
  {
    var toks := Kept(query, caps);
    CapTokensSound(toks, caps);
    CappedLength(CapTokens(toks, caps), caps);
  }

  lemma CapsSpaceless(toks: seq<string>, parts: seq<string>)
    requires AllSpaceless(toks) && |parts| == |toks| && forall i :: 0 <= i < |parts| ==> CharsFrom(parts[i], toks[i])
    ensures AllSpaceless(parts)
  {
    forall i | 0 <= i < |parts| ensures Spaceless(parts[i]) {
      assert CharsFrom(parts[i], toks[i]) && Spaceless(toks[i]);
      forall k | 0 <= k < |parts[i]| ensures !IsSpace(parts[i][k]) {
        assert parts[i][k] in toks[i];
      }
    }
  }

  lemma MoreTokens(a: nat, b: nat, n: nat)
    requires a <= b
    ensures a * n <= b * n
  {
  }

  lemma CappedLength(parts: seq<string>, caps: Caps)
    requires |parts| <= caps.tokens && forall i :: 0 <= i < |parts| ==> |parts[i]| <= caps.chars
    ensures |Join(" ", parts)| <= MaxCapped(caps)
  {
    JoinLength(parts, caps.chars);
    MoreTokens(|parts|, caps.tokens, caps.chars);
  }

  /** A query within the caps keeps all its tokens. */
  lemma {:induction false} WithinCaps(toks: seq<string>, caps: Caps)
    requires StarTokens(toks) <= caps.wildcards && forall i :: 0 <= i < |toks| ==> |toks[i]| <= caps.chars
    ensures CapTokens(toks, caps) == toks
  {
    if toks != [] {
      var init, last := toks[..|toks| - 1], toks[|toks| - 1];
      WithinCaps(init, caps);
      assert CapToken(last, StarTokens(init), caps) == last;
      assert toks == init + [last];
    }
  }

  lemma {:induction false} NonEmptyKeepsAll(parts: seq<string>)
    requires forall i :: 0 <= i < |parts| ==> parts[i] != []
    ensures NonEmpty(parts) == parts
  {
    if parts != [] { NonEmptyKeepsAll(parts[1..]); }
  }

  /** The caps cut nothing from a query that meets them. */
  lemma CappedKeepsTokens(query: string, caps: Caps)
    requires var toks := Split(query);
      |toks| <= caps.tokens && StarTokens(toks) <= caps.wildcards
      && forall i :: 0 <= i < |toks| ==> |toks[i]| <= caps.chars
    ensures Split(Capped(query, caps)) == Split(query)
  {
    var toks := Split(query);
    WithinCaps(toks, caps);
    assert AllSpaceless(toks);
    SplitJoin(toks);
    NonEmptyKeepsAll(toks);
  }

  predicate Lacks(s: string, d: char) { d !in s }

  predicate AllLack(ss: seq<string>, d: char) { forall i :: 0 <= i < |ss| ==> Lacks(ss[i], d) }

  lemma {:induction false} SplitLacks(s: string, d: char)
    requires Lacks(s, d)
    ensures AllLack(Split(s), d)
    decreases |s|
  {
    if s != [] {
      var n := if IsSpace(s[0]) then 1 else WordLength(s);
      assert forall c :: c in s[n..] || c in s[..n] ==> c in s;
      SplitLacks(s[n..], d);
    }
  }

  lemma {:induction false} JoinLacks(parts: seq<string>, d: char)
    requires AllLack(parts, d) && d != ' '
    ensures Lacks(Join(" ", parts), d)
  {
    if |parts| > 1 {
      assert AllLack(parts[1..], d);
      JoinLacks(parts[1..], d);
    }
  }

  lemma PartsLack(toks: seq<string>, parts: seq<string>, d: char)
    requires AllLack(toks, d) && |parts| == |toks| && forall i :: 0 <= i < |parts| ==> CharsFrom(parts[i], toks[i])
    ensures AllLack(parts, d)
  {
    forall i | 0 <= i < |parts| ensures Lacks(parts[i], d) { assert CharsFrom(parts[i], toks[i]) && Lacks(toks[i], d); }
  }

  /** Capping brings no character but blanks. */
  lemma CappedLacks(query: string, caps: Caps, d: char)
    requires Lacks(query, d) && d != ' '
    ensures Lacks(Capped(query, caps), d)
  {
    var toks := Kept(query, caps);
    SplitLacks(query, d);
    forall i | 0 <= i < |toks| ensures Lacks(toks[i], d) { assert toks[i] == Split(query)[i]; }
    CapTokensSound(toks, caps);
    PartsLack(toks, CapTokens(toks, caps), d);
    JoinLacks(CapTokens(toks, caps), d);
  }

  lemma CappedNulFree(query: string, caps: Caps)
    requires NulFree(query)
    ensures NulFree(Capped(query, caps))
  {
    CappedLacks(query, caps, NUL);
  }

  // ----------------------------------------------------------- clean text

  predicate Safe(s: string) { forall i :: 0 <= i < |s| ==> s[i] != NUL && !IsSpecial(s[i]) }

  predicate NoPair(s: string) { forall i :: 0 <= i < |s| - 1 ==> !(s[i] == '*' && s[i + 1] == '*') }

  function OddQuotes(s: string): bool { if s == [] then false else (s[0] == '"') != OddQuotes(s[1..]) }

  /** Bare text as it may stand in a query: its only special character is the
      quote, quotes come in pairs, and no two stars touch. */
  predicate Clean(s: string) {
    (forall i :: 0 <= i < |s| ==> s[i] != NUL && (IsSpecial(s[i]) ==> s[i] == '"')) && NoPair(s) && !OddQuotes(s)
  }

  lemma {:induction false} BlankSafe(s: string)
    requires NulFree(s)
    ensures Safe(Blank(s))
  {
    if s != [] {
      assert s[0] in s && forall c :: c in s[1..] ==> c in s;
      BlankSafe(s[1..]);
    }
  }

  lemma {:induction false} CollapseSafe(s: string)
    requires Safe(s)
    ensures Safe(Collapse(s)) && NoPair(Collapse(s))
  {
    if s != [] {
      assert Safe(s[1..]);
      CollapseSafe(s[1..]);
      if |s| > 1 { CollapseHead(s[1..]); }
    }
  }

  lemma {:induction false} DropStarsSafe(s: string, atStart: bool)
    requires Safe(s) && NoPair(s)
    ensures var r := DropStars(s, atStart);
      Safe(r) && NoPair(r) && (r != [] && r[0] == '*' ==> s[0] == '*' && !atStart)
    decreases |s|
  {
    if s != [] {
      var k := if !(atStart && s[0] == '*') && IsSpace(s[0]) && |s| > 1 && s[1] == '*' then 2 else 1;
      var t := s[k..];
      assert forall i :: 0 <= i < |t| ==> t[i] == s[i + k];
      assert Safe(t) && NoPair(t);
      DropStarsSafe(t, false);
    }
  }

  lemma SliceSafe(s: string, i: nat, j: nat)
    requires i <= j <= |s| && Safe(s) && NoPair(s)
    ensures Safe(s[i..j]) && NoPair(s[i..j])
  {
    var t := s[i..j];
    assert forall k :: 0 <= k < |t| ==> t[k] == s[i + k];
  }

  lemma PieceSafe(s: string, atStart: bool)
    requires NulFree(s)
    ensures Safe(Piece(s, atStart)) && NoPair(Piece(s, atStart))
  {
    BlankSafe(s);
    CollapseSafe(Blank(s));
    DropStarsSafe(Collapse(Blank(s)), atStart);
  }

  predicate HeadFree(s: string) { s == [] || !IsSpace(s[0]) }

  predicate TailFree(s: string) { s == [] || !IsSpace(s[|s| - 1]) }

  /** `t` is a stretch of `s`. */
  ghost predicate Within(t: string, s: string) { exists i, j :: 0 <= i <= j <= |s| && t == s[i..j] }

  lemma WithinTrans(t: string, s: string, r: string)
    requires Within(t, s) && Within(s, r)
    ensures Within(t, r)
  {
    var i, j :| 0 <= i <= j <= |s| && t == s[i..j];
    var a, b :| 0 <= a <= b <= |r| && s == r[a..b];
    SliceOfSlice(r, a, b, i, j);
    assert t == r[a + i..a + j];
  }

  lemma StripsWithin(s: string)
    ensures Within(LStrip(s, IsSpace), s) && Within(RStrip(s, IsSpace), s)
    ensures HeadFree(LStrip(s, IsSpace)) && TailFree(RStrip(s, IsSpace))
    ensures HeadFree(s) ==> HeadFree(RStrip(s, IsSpace))
  {
    var l, r := LStrip(s, IsSpace), RStrip(s, IsSpace);
    LStripSound(s, IsSpace);
    RStripSound(s, IsSpace);
    assert l == s[|s| - |l|..|s|];
    assert r == s[0..|r|];
  }

  lemma FrontWithin(a: string, ext: char -> bool)
    ensures Within(Front(a, ext), a) && HeadFree(Front(a, ext))
  {
    LeadWithin(LStrip(a, IsSpace), ext);
    StripsWithin(a);
    WithinTrans(Front(a, ext), LStrip(a, IsSpace), a);
  }

  lemma LeadWithin(l: string, ext: char -> bool)
    ensures Within(DropLeadingOp(l, ext), l) && (HeadFree(l) ==> HeadFree(DropLeadingOp(l, ext)))
  {
    var n := LeadingOp(l, ext);
    assert l == l[0..|l|] && l[n..] == l[n..|l|];
    StripsWithin(l[n..]);
    if n > 0 { WithinTrans(DropLeadingOp(l, ext), l[n..], l); }
  }

  lemma TrailWithin(s: string)
    ensures Within(DropTrailingOp(s), s)
    ensures TailFree(s) ==> TailFree(DropTrailingOp(s))
    ensures HeadFree(s) ==> HeadFree(DropTrailingOp(s))
  {
    var t := RStrip(s, IsSpace);
    StripsWithin(s);
    CutStrip(t, TrailingOp(t));
    assert s == s[0..|s|];
    WithinTrans(Chop(t, TrailingOp(t)), t, s);
  }

  lemma CutStrip(t: string, n: nat)
    requires n <= |t|
    ensures var v := Chop(t, n); Within(v, t) && TailFree(v) && (HeadFree(t) ==> HeadFree(v))
  {
    var u := t[..|t| - n];
    assert u == t[0..|t| - n];
    StripsWithin(u);
    WithinTrans(RStrip(u, IsSpace), u, t);
  }

  lemma BackWithin(b: string)
    ensures Within(Back(b), b) && TailFree(Back(b))
  {
    StripsWithin(b);
    TrailWithin(RStrip(b, IsSpace));
    WithinTrans(Back(b), RStrip(b, IsSpace), b);
  }

  lemma StripSpaceWithin(s: string)
    ensures Within(StripSpace(s), s) && HeadFree(StripSpace(s)) && TailFree(StripSpace(s))
  {
    var l := LStrip(s, IsSpace);
    StripsWithin(s);
    StripsWithin(l);
    WithinTrans(StripSpace(s), l, s);
  }

  lemma OpsWithin(s: string, ext: char -> bool)
    ensures Within(DropOps(s, ext), s) && HeadFree(DropOps(s, ext)) && TailFree(DropOps(s, ext))
  {
    var a := StripSpace(s);
    var b := DropLeadingOp(a, ext);
    var c := StripSpace(b);
    StripSpaceWithin(s);
    LeadWithin(a, ext);
    StripSpaceWithin(b);
    TrailWithin(c);
    WithinTrans(b, a, s);
    WithinTrans(c, b, s);
    WithinTrans(DropOps(s, ext), c, s);
  }

  lemma {:induction false} OddQuotesConcat(a: string, b: string)
    ensures OddQuotes(a + b) == (OddQuotes(a) != OddQuotes(b))
  {
    if a == [] {
      assert a + b == b;
    } else {
      assert (a + b)[1..] == a[1..] + b;
      OddQuotesConcat(a[1..], b);
    }
  }

  lemma {:induction false} SafeHasNoQuotes(s: string)
    requires Safe(s)
    ensures !OddQuotes(s)
  {
    if s != [] {
      assert Safe(s[1..]);
      SafeHasNoQuotes(s[1..]);
    }
  }

  lemma QuotedIsClean(s: string)
    requires Safe(s) && NoPair(s)
    ensures Clean(s) && Clean("\"" + s + "\"")
  {
    SafeHasNoQuotes(s);
    OddQuotesConcat("\"" + s, "\"");
    OddQuotesConcat("\"", s);
    assert OddQuotes("\"");
    var q := "\"" + s + "\"";
    assert forall i :: 0 <= i < |q| ==> q[i] == if 0 < i < |q| - 1 then s[i - 1] else '"';
  }

  lemma CleanConcat(a: string, b: string)
    requires Clean(a) && Clean(b) && !(a != [] && b != [] && a[|a| - 1] == '*' && b[0] == '*')
    ensures Clean(a + b)
  {
    OddQuotesConcat(a, b);
  }

  /** The ends of `r` are those of `s`, or quotes. */
  predicate SameEnds(r: string, s: string) {
    s != [] ==> r != [] && (r[0] == s[0] || r[0] == '"') && (r[|r| - 1] == s[|s| - 1] || r[|r| - 1] == '"')
  }

  /** Step 5 leaves clean text: it adds two quotes a term, at most one term for
      every three characters, and keeps the ends free of white space. */
  lemma {:induction false} QuoteTermsSound(s: string, ext: char -> bool) returns (terms: nat)
    requires Safe(s) && NoPair(s)
    ensures Clean(QuoteTerms(s, ext)) && SameEnds(QuoteTerms(s, ext), s)
    ensures |QuoteTerms(s, ext)| == |s| + 2 * terms && 3 * terms <= |s|
    decreases |s|
  {
    if s == [] {
      terms := 0;
    } else {
      var m := QuoteTermsStep(s, ext);
      SliceSafe(s, 0, m);
      SliceSafe(s, m, |s|);
      assert s[..m] == s[0..m] && s[m..] == s[m..|s|];
      terms := QuoteTermsSound(s[m..], ext);
      if IsWord(s[0], ext) && TermLength(s, ext) > 0 {
        ChunkSound(s, m, "\"" + s[..m] + "\"", QuoteTerms(s[m..], ext));
        terms := terms + 1;
      } else {
        ChunkSound(s, m, s[..m], QuoteTerms(s[m..], ext));
      }
    }
  }

  lemma ChunkSound(s: string, m: nat, h: string, rest: string)
    requires 0 < m <= |s| && Safe(s[..m]) && NoPair(s[..m]) && NoPair(s)
    requires h == s[..m] || h == "\"" + s[..m] + "\""
    requires Clean(rest) && SameEnds(rest, s[m..]) && (m == |s| ==> rest == [])
    ensures Clean(h + rest) && SameEnds(h + rest, s)
  {
    QuotedIsClean(s[..m]);
    assert h[0] == s[0] || h[0] == '"';
    assert h[|h| - 1] == s[m - 1] || h[|h| - 1] == '"';
    CleanConcat(h, rest);
  }

  // ------------------------------------------------------- the clean pieces

  predicate AllClean(bares: seq<string>) { forall i :: 0 <= i < |bares| ==> Clean(bares[i]) }

  /** One piece: clean, its length, and its ends. */
  lemma PieceSound(d: string, p: string, b: string, ext: char -> bool) returns (size: nat, terms: nat)
    requires Within(d, p) && Safe(p) && NoPair(p) && |p| <= |b|
    ensures Clean(QuoteTerms(d, ext)) && size <= |b| && 3 * terms <= size && |QuoteTerms(d, ext)| == size + 2 * terms
    ensures HeadFree(d) ==> HeadFree(QuoteTerms(d, ext))
    ensures TailFree(d) ==> TailFree(QuoteTerms(d, ext))
  {
    terms := QuoteTermsSound(d, ext);
    size := |d|;
  }

  lemma {:induction false} PieceShrinks(s: string, atStart: bool)
    ensures |Piece(s, atStart)| <= |s|
  {
    BlankLength(s);
    CollapseLength(Blank(s));
    DropStarsLength(Collapse(Blank(s)), atStart);
  }

  lemma {:induction false} BlankLength(s: string)
    ensures |Blank(s)| == |s|
  {
    if s != [] { BlankLength(s[1..]); }
  }

  lemma {:induction false} CollapseLength(s: string)
    ensures |Collapse(s)| <= |s|
  {
    if s != [] { CollapseLength(s[1..]); }
  }

  lemma {:induction false} DropStarsLength(s: string, atStart: bool)
    ensures |DropStars(s, atStart)| <= |s|
    decreases |s|
  {
    if s != [] {
      DropStarsLength(s[1..], false);
      if |s| > 1 { DropStarsLength(s[2..], false); }
    }
  }

  lemma {:induction false} CleanTailSound(bares: seq<string>, phrases: seq<string>, ext: char -> bool)
    returns (size: nat, terms: nat)
    requires |bares| == |phrases| + 1 && AllNulFree(bares) && AllQuoted(phrases)
    ensures var out := WeaveText(CleanTail(bares, ext), phrases);
      && AllClean(CleanTail(bares, ext)) && TailFree(out)
      && size <= |WeaveText(bares, phrases)| && 3 * terms <= size && |out| == size + 2 * terms
  {
    var b := bares[0];
    PieceSafe(b, false);
    PieceShrinks(b, false);
    var p := Piece(b, false);
    if phrases == [] {
      BackWithin(p);
      size, terms := PieceSound(Back(p), p, b, ext);
    } else {
      var rest, more := bares[1..], phrases[1..];
      assert AllNulFree(rest) && AllQuoted(more) && IsPhrase(phrases[0]);
      assert p == p[0..|p|];
      var s0, t0 := PieceSound(p, p, b, ext);
      var s1, t1 := CleanTailSound(rest, more, ext);
      size, terms := s0 + |phrases[0]| + s1, t0 + t1;
      FirstAndTail(Inner(b, ext), CleanTail(rest, ext), phrases);
      assert CleanTail(bares, ext) == [Inner(b, ext)] + CleanTail(rest, ext);
    }
  }

  lemma TailFreeBehind(a: string, phrase: string, rest: string)
    requires IsPhrase(phrase) && TailFree(rest)
    ensures TailFree(a + (phrase + rest)) && (HeadFree(a) ==> HeadFree(a + (phrase + rest)))
  {
    var out := a + (phrase + rest);
    assert out[|out| - 1] == if rest == [] then phrase[|phrase| - 1] else rest[|rest| - 1];
    assert out[0] == if a == [] then phrase[0] else a[0];
  }

  /** All pieces together: each is clean, the text starts and ends without white
      space, and it grows by two quotes for at most every third character. */
  lemma CleanBaresSound(bares: seq<string>, phrases: seq<string>, ext: char -> bool)
    returns (size: nat, terms: nat)
    requires |bares| == |phrases| + 1 && AllNulFree(bares) && AllQuoted(phrases)
    ensures var out := WeaveText(CleanBares(bares, ext), phrases);
      && AllClean(CleanBares(bares, ext)) && HeadFree(out) && TailFree(out)
      && size <= |WeaveText(bares, phrases)| && 3 * terms <= size && |out| == size + 2 * terms
  {
    if phrases == [] {
      size, terms := OnlySound(bares[0], ext);
      assert CleanBares(bares, ext) == [Cleaned(bares[0], ext)];
    } else {
      var rest, more := bares[1..], phrases[1..];
      assert AllNulFree(rest) && AllQuoted(more) && IsPhrase(phrases[0]);
      var s0, t0 := FirstSound(bares[0], ext);
      var s1, t1 := CleanTailSound(rest, more, ext);
      size, terms := s0 + |phrases[0]| + s1, t0 + t1;
      var first, tail := QuoteTerms(Front(Piece(bares[0], true), ext), ext), CleanTail(rest, ext);
      FirstAndTail(first, tail, phrases);
      assert CleanBares(bares, ext) == [first] + tail;
    }
  }

  lemma FirstAndTail(first: string, tail: seq<string>, phrases: seq<string>)
    requires phrases != [] && |tail| == |phrases| && IsPhrase(phrases[0])
    requires Clean(first) && AllClean(tail) && TailFree(WeaveText(tail, phrases[1..]))
    ensures AllClean([first] + tail) && TailFree(WeaveText([first] + tail, phrases))
    ensures HeadFree(first) ==> HeadFree(WeaveText([first] + tail, phrases))
    ensures WeaveText([first] + tail, phrases) == first + (phrases[0] + WeaveText(tail, phrases[1..]))
  {
    var r := [first] + tail;
    assert r[1..] == tail;
    TailFreeBehind(first, phrases[0], WeaveText(tail, phrases[1..]));
  }

  lemma FirstSound(b: string, ext: char -> bool) returns (size: nat, terms: nat)
    requires NulFree(b)
    ensures var d := QuoteTerms(Front(Piece(b, true), ext), ext);
      Clean(d) && HeadFree(d) && size <= |b| && 3 * terms <= size && |d| == size + 2 * terms
  {
    var p := Piece(b, true);
    PieceSafe(b, true);
    PieceShrinks(b, true);
    FrontWithin(p, ext);
    size, terms := PieceSound(Front(p, ext), p, b, ext);
  }

  lemma OnlySound(b: string, ext: char -> bool) returns (size: nat, terms: nat)
    requires NulFree(b)
    ensures var d := Cleaned(b, ext);
      Clean(d) && HeadFree(d) && TailFree(d) && size <= |b| && 3 * terms <= size && |d| == size + 2 * terms
  {
    var p := Piece(b, true);
    PieceSafe(b, true);
    PieceShrinks(b, true);
    OpsWithin(p, ext);
    size, terms := PieceSound(DropOps(p, ext), p, b, ext);
  }

  // --------------------------------------------------------- the main result

  /** Clean bare text with exactly these phrases in it, in order. */
  ghost predicate Alternates(out: string, phrases: seq<string>) {
    exists bares: seq<string> :: |bares| == |phrases| + 1 && AllClean(bares) && out == WeaveText(bares, phrases)
  }

  function MaxSanitized(caps: Caps): nat { MaxCapped(caps) + 2 * (MaxCapped(caps) / 3) }

  /** A piece of bare text between two phrases reads `Q` and the number of a
      phrase that ended before the one right in front of the piece. */
  ghost predicate Collides(capped: string) { exists j: nat, m: nat :: Clashes(Bares(capped), j, m) }

  /** The promise: the phrases of the capped query, verbatim and in order, in
      clean bare text, and a bounded length. */
  ghost predicate KeepsPromise(out: string, capped: string, caps: Caps) {
    Alternates(out, Phrases(capped)) && |out| <= MaxSanitized(caps)
  }

  lemma {:induction false} CutNulFree(s: string)
    requires NulFree(s)
    ensures AllNulFree(Bares(s)) && AllNulFree(Phrases(s))
    decreases |s|
  {
    var (i, j) := FirstPhrase(s);
    if i < j {
      CutLacks(s, i, j);
      CutNulFree(s[j..]);
      AllNulFreeFirst(s[..i], Bares(s[j..]));
      AllNulFreeFirst(s[i..j], Phrases(s[j..]));
    }
  }

  lemma CutLacks(s: string, i: nat, j: nat)
    requires NulFree(s) && i <= j <= |s|
    ensures NulFree(s[..i]) && NulFree(s[i..j]) && NulFree(s[j..])
  {
    assert forall c :: c in s[..i] || c in s[i..j] || c in s[j..] ==> c in s;
  }

  lemma AllNulFreeFirst(a: string, rest: seq<string>)
    requires NulFree(a) && AllNulFree(rest)
    ensures AllNulFree([a] + rest)
  {
  }

  lemma CollisionIsKept(bares: seq<string>, ext: char -> bool)
    requires bares != []
    ensures ClashBelow(CleanBares(bares, ext), |bares| - 1) <==> exists j: nat, m: nat :: Clashes(bares, j, m)
  {
    var r := CleanBares(bares, ext);
    forall j: nat, m: nat ensures Clashes(r, j, m) <==> Clashes(bares, j, m) {
      if 0 < m < |bares| - 1 { InnerLabels(bares, m, j, ext); }
    }
    if ClashBelow(r, |bares| - 1) {
      var j: nat, m: nat :| j < |bares| - 1 && Clashes(r, j, m);
      assert Clashes(bares, j, m);
    }
    if j: nat, m: nat :| Clashes(bares, j, m) {
      assert Clashes(r, j, m) && j < |bares| - 1;
    }
  }

  lemma StrippedAlready(s: string)
    requires HeadFree(s) && TailFree(s)
    ensures StripSpace(s) == s
  {
  }

  lemma StripKeepsNul(s: string)
    requires NUL in s
    ensures NUL in StripSpace(s)
  {
    var k :| 0 <= k < |s| && s[k] == NUL;
    LStripKeepsNul(s, k);
    RStripKeepsNul(LStrip(s, IsSpace), k - (|s| - |LStrip(s, IsSpace)|));
  }

  lemma LStripKeepsNul(s: string, k: nat)
    requires k < |s| && s[k] == NUL
    ensures var l := LStrip(s, IsSpace); |s| - |l| <= k && l[k - (|s| - |l|)] == NUL
  {
    LStripSound(s, IsSpace);
  }

  lemma RStripKeepsNul(l: string, i: nat)
    requires i < |l| && l[i] == NUL
    ensures NUL in RStrip(l, IsSpace)
  {
    var r := RStrip(l, IsSpace);
    RStripSound(l, IsSpace);
    assert i < |r| && r[i] == NUL;
  }

  lemma {:induction false} CleanIsNulFree(bares: seq<string>, phrases: seq<string>)
    requires |bares| == |phrases| + 1 && AllClean(bares) && AllNulFree(phrases)
    ensures NulFree(WeaveText(bares, phrases))
  {
    assert Clean(bares[0]) && NulFree(bares[0]);
    if phrases != [] {
      assert AllClean(bares[1..]) && AllNulFree(phrases[1..]);
      CleanIsNulFree(bares[1..], phrases[1..]);
      assert NulFree(phrases[0]);
    }
  }

  lemma ProtectedAndCleaned(c: string, ext: char -> bool)
    ensures Cleaned(Protect(c, 0), ext) == Weave(CleanBares(Bares(c), ext), 0)
  {
    ProtectIsWeave(c, 0);
    CleanedByPiece(Bares(c), ext);
  }

  lemma WovenOutcome(r: seq<string>, phrases: seq<string>)
    requires |r| == |phrases| + 1 && AllNulFree(r) && AllNulFree(phrases) && AllQuoted(phrases)
    requires HeadFree(WeaveText(r, phrases)) && TailFree(WeaveText(r, phrases))
    ensures var out := StripSpace(Restored(Weave(r, 0), phrases, |phrases|));
      if ClashBelow(r, |phrases|) then NUL in out else out == WeaveText(r, phrases)
  {
    var woven := Restored(Weave(r, 0), phrases, |phrases|);
    Passes(r, phrases, |phrases|);
    if ClashBelow(r, |phrases|) {
      StrayHasNul(woven);
      StripKeepsNul(woven);
    } else {
      PartlyAll(r, phrases, 0);
      StrippedAlready(WeaveText(r, phrases));
    }
  }

  /** What comes out, for every capped text without a NUL. */
  lemma RestoredOutcome(c: string, ext: char -> bool)
    requires NulFree(c)
    ensures var out := StripSpace(Restored(Cleaned(Protect(c, 0), ext), Phrases(c), |Phrases(c)|));
      if Collides(c) then NUL in out else out == WeaveText(CleanBares(Bares(c), ext), Phrases(c))
  {
    var bares, phrases := Bares(c), Phrases(c);
    var r := CleanBares(bares, ext);
    CutNulFree(c);
    PhrasesAreQuoted(c);
    ProtectedAndCleaned(c, ext);
    var size, terms := CleanBaresSound(bares, phrases, ext);
    WovenOutcome(r, phrases);
    CollisionIsKept(bares, ext);
  }

  /** The sanitizer keeps its promise for a query without NUL exactly when no
      bare piece of the capped query collides with a placeholder. When it does,
      the result is the cleaned pieces and the phrases in turn. */
  lemma PhrasesSurviveIffNoCollision(query: string, caps: Caps, ext: char -> bool)
    requires NulFree(query)
    ensures KeepsPromise(Sanitized(query, caps, ext), Capped(query, caps), caps) <==> !Collides(Capped(query, caps))
    ensures var c := Capped(query, caps);
      !Collides(c) ==> Sanitized(query, caps, ext) == WeaveText(CleanBares(Bares(c), ext), Phrases(c))
  {
    var c, out := Capped(query, caps), Sanitized(query, caps, ext);
    CappedNulFree(query, caps);
    RestoredOutcome(c, ext);
    CutNulFree(c);
    if Collides(c) {
      NotAlternating(out, Phrases(c));
    } else {
      CappedFits(query, caps);
      WovenKeepsPromise(c, caps, ext);
    }
  }

  lemma WovenKeepsPromise(c: string, caps: Caps, ext: char -> bool)
    requires NulFree(c) && |c| <= MaxCapped(caps)
    ensures KeepsPromise(WeaveText(CleanBares(Bares(c), ext), Phrases(c)), c, caps)
  {
    var r := CleanBares(Bares(c), ext);
    CutNulFree(c);
    PhrasesAreQuoted(c);
    var size, terms := CleanBaresSound(Bares(c), Phrases(c), ext);
    TextOfPieces(c);
    Grown(size, terms, MaxCapped(caps));
  }

  lemma Grown(size: nat, terms: nat, max: nat)
    requires size <= max && 3 * terms <= size
    ensures size + 2 * terms <= max + 2 * (max / 3)
  {
  }

  lemma NotAlternating(out: string, phrases: seq<string>)
    requires NUL in out && AllNulFree(phrases)
    ensures !Alternates(out, phrases)
  {
    forall bares: seq<string> | |bares| == |phrases| + 1 && AllClean(bares)
      ensures out != WeaveText(bares, phrases)
    {
      CleanIsNulFree(bares, phrases);
    }
  }

  // ---------------------------------------------------------- a witness

  lemma OneToken(query: string, caps: Caps)
    requires query != [] && Spaceless(query) && !HasStar(query) && |query| <= caps.chars && caps.tokens > 0
    ensures Capped(query, caps) == query
  {
    SplitFirst(query, []);
    assert query + [] == query;
    assert Split(query) == [query];
    assert [query][..0] == [];
    WithinCaps([query], caps);
  }

  lemma QuoteFirst(q: string, rest: string)
    requires IsPhrase(q)
    ensures FirstPhrase(q + rest) == (0, |q|)
  {
    var s := q + rest;
    assert s[0] == '"' && s[|q| - 1] == '"';
    assert forall k :: 0 < k < |q| - 1 ==> s[k] == q[k];
    var (i, j) := FirstPhrase(s);
    assert i < j && i == 0;
    assert j - 1 == |q| - 1;
  }

  lemma QuoteNext(q: string, rest: string)
    requires IsPhrase(q)
    ensures Bares(q + rest) == [[]] + Bares(rest)
  {
    QuoteFirst(q, rest);
    var s := q + rest;
    assert s[|q|..] == rest && s[..0] == [];
  }

  const COLLIDING: string := "\"a\"" + ("\"b\"" + ("Q0" + "\"c\""))

  /** A query of three phrases, `Q0` typed between the last two: the promise is
      broken whatever characters count as letters. */
  lemma CollidingQuery(ext: char -> bool)
    ensures Collides(Capped(COLLIDING, CAPS))
    ensures !KeepsPromise(Sanitized(COLLIDING, CAPS, ext), Capped(COLLIDING, CAPS), CAPS)
  {
    CollidingIsPlain();
    OneToken(COLLIDING, CAPS);
    Collision(COLLIDING);
    PhrasesSurviveIffNoCollision(COLLIDING, CAPS, ext);
  }

  lemma Collision(c: string)
    requires c == COLLIDING
    ensures Collides(c)
  {
    CollidingBares("\"a\"", "\"b\"", "\"c\"");
    ClashAtTwo(Bares(c));
  }

  lemma ClashAtTwo(r: seq<string>)
    requires |r| == 4 && r[2] == "Q0"
    ensures Clashes(r, 0, 2)
  {
    assert Dec(0) == "0" && Label(0) == "Q0";
  }

  lemma CollidingIsPlain()
    ensures Spaceless(COLLIDING) && NulFree(COLLIDING) && !HasStar(COLLIDING) && |COLLIDING| == 11
  {
  }

  lemma CollidingBares(a: string, b: string, c: string)
    requires IsPhrase(a) && IsPhrase(b) && c == "\"c\""
    ensures var r := Bares(a + (b + ("Q0" + c))); |r| == 4 && r[2] == "Q0"
  {
    var tail := "Q0" + c;
    QuoteNext(a, b + tail);
    QuoteNext(b, tail);
    BaresOfTail(c);
  }

  lemma BaresOfTail(c: string)
    requires c == "\"c\""
    ensures Bares("Q0" + c) == ["Q0", []]
  {
    var s := "Q0" + c;
    assert s[0] == 'Q' && s[1] == '0' && s[2] == '"' && s[3] == 'c' && s[4] == '"';
    var (i, j) := FirstPhrase(s);
    assert i < j && i == 2 && j == 5;
    assert s[..2] == "Q0" && s[5..] == [];
    assert FirstPhrase([]) == (0, 0);
  }
}
