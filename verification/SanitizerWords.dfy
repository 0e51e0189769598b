/** What the sanitizer makes of the words of a query: the runs of characters that
    are neither white space nor special, less loose stars and the operators at
    the two ends. */
module SanitizerWords {
  import opened PyString
  import opened QuerySanitizer
  import opened SanitizerPieces
  import opened SanitizerProofs
  import opened SanitizerRestore
  import opened SanitizerSteps
  import opened SanitizerTidy
  import SearchQuery

  // -------------------------------------------------------------- the words

  predicate Breaks(c: char) { IsSpace(c) || IsMark(c) }

  predicate Unbroken(s: string) { forall i :: 0 <= i < |s| ==> !Breaks(s[i]) }

  /** The end of the run of word material the text starts with. */
  function RunEnd(s: string): (n: nat)
    ensures n <= |s| && Unbroken(s[..n]) && (n < |s| ==> Breaks(s[n]))
  {
    if s == [] || Breaks(s[0]) then 0
    else
      assert forall i :: 0 < i < 1 + RunEnd(s[1..]) ==> s[i] == s[1..][..RunEnd(s[1..])][i - 1];
      1 + RunEnd(s[1..])
  }

  /** The maximal runs of characters that are neither white space nor special. */
  function Words(s: string): seq<string>
    decreases |s|
  {
    if s == [] then []
    else if Breaks(s[0]) then Words(s[1..])
    else [s[..RunEnd(s)]] + Words(s[RunEnd(s)..])
  }

  /** A word without the stars behind another star, and without one at its start
      unless the word is tied to what stands before it. */
  function Tie(w: string, tied: bool): string {
    if w == [] then []
    else (if w[0] == '*' && !tied then [] else [w[0]]) + Tie(w[1..], w[0] != '*')
  }

  /** The words with their stars tied, without those of which nothing is left;
      `tied` says it of the first. */
  function TiedWords(ws: seq<string>, tied: bool): seq<string> {
    if ws == [] then []
    else (if Tie(ws[0], tied) == [] then [] else [Tie(ws[0], tied)]) + TiedWords(ws[1..], false)
  }

  // --------------------------------------------- splitting what one pass gives

  lemma {:induction false} TidyOfRun(w: string, rest: string, tied: bool)
    requires Unbroken(w) && (rest == [] || Breaks(rest[0]))
    ensures Tidy(w + rest, tied) == Tie(w, tied) + Tidy(rest, false)
  {
    if w == [] {
      assert w + rest == rest;
    } else {
      assert forall i :: 0 <= i < |w| - 1 ==> w[1..][i] == w[i + 1];
      assert !Breaks(w[0]);
      TidyOfRun(w[1..], rest, w[0] != '*');
      TidyNext(w, rest, tied);
      Assoc(if w[0] == '*' && !tied then [] else [w[0]], Tie(w[1..], w[0] != '*'), Tidy(rest, false));
    }
  }

  lemma TidyNext(w: string, rest: string, tied: bool)
    requires w != [] && !Breaks(w[0])
    ensures Tidy(w + rest, tied) == (if w[0] == '*' && !tied then [] else [w[0]]) + Tidy(w[1..] + rest, w[0] != '*')
  {
    assert (w + rest)[1..] == w[1..] + rest;
  }

  lemma {:induction false} TieIsSpaceless(w: string, tied: bool)
    requires Unbroken(w)
    ensures Spaceless(Tie(w, tied))
  {
    if w != [] {
      assert forall i :: 0 <= i < |w| - 1 ==> w[1..][i] == w[i + 1];
      TieIsSpaceless(w[1..], w[0] != '*');
    }
  }

  lemma TidyStartsBlank(rest: string)
    requires rest != [] && Breaks(rest[0])
    ensures var t := Tidy(rest, false); t != [] && IsSpace(t[0]) && t[1..] == Tidy(rest[1..], false)
  {
  }

  /** The text starts inside a word when it stands behind a phrase and does not
      start with a break. */
  predicate StartsTied(s: string, tied: bool) { tied && s != [] && !Breaks(s[0]) }

  /** Steps 2 and 3 leave the words, with their stars tied. */
  lemma {:induction false} SplitTidy(s: string, tied: bool)
    ensures Split(Tidy(s, tied)) == TiedWords(Words(s), StartsTied(s, tied))
    decreases |s|
  {
    if s != [] {
      if Breaks(s[0]) {
        TidyStartsBlank(s);
        assert Tidy(s, tied) == Tidy(s, false);
        SplitTidy(s[1..], false);
      } else {
        var n := RunEnd(s);
        var w, rest := s[..n], s[n..];
        SplitTidy(rest, false);
        TidyOfRun(w, rest, tied);
        HeadAndTail(s, n);
        TieIsSpaceless(w, tied);
        if rest != [] { TidyStartsBlank(rest); }
        SplitFirst(Tie(w, tied), Tidy(rest, false));
        WordsBehind(w, Words(rest), tied);
      }
    }
  }

  lemma WordsBehind(w: string, ws: seq<string>, tied: bool)
    ensures TiedWords([w] + ws, tied) == (if Tie(w, tied) == [] then [] else [Tie(w, tied)]) + TiedWords(ws, false)
  {
    assert ([w] + ws)[1..] == ws;
  }

  // -------------------------------------------------- splitting and stripping

  lemma {:induction false} SplitBlankFirst(a: string, s: string)
    requires forall i :: 0 <= i < |a| ==> IsSpace(a[i])
    ensures Split(a + s) == Split(s)
  {
    if a == [] {
      assert a + s == s;
    } else {
      assert (a + s)[1..] == a[1..] + s;
      SplitBlankFirst(a[1..], s);
    }
  }

  /** A break between two texts splits them. */
  lemma {:induction false} SplitBoth(a: string, s: string)
    requires s == [] || IsSpace(s[0])
    ensures Split(a + s) == Split(a) + Split(s)
    decreases |a|
  {
    if a == [] {
      assert a + s == s;
    } else if IsSpace(a[0]) {
      assert (a + s)[1..] == a[1..] + s;
      SplitBoth(a[1..], s);
    } else {
      var n := WordLength(a);
      SplitBoth(a[n..], s);
      SplitFirst(a[..n], a[n..] + s);
      HeadAndTail(a, n);
      Assoc(a[..n], a[n..], s);
    }
  }

  /** The last word behind a break. */
  lemma {:induction false} SplitLast(a: string, w: string)
    requires w != [] && Spaceless(w) && (a == [] || IsSpace(a[|a| - 1]))
    ensures Split(a + w) == Split(a) + [w]
    decreases |a|
  {
    if a == [] {
      SplitFirst(w, []);
      assert a + w == w + [] == w;
    } else if IsSpace(a[0]) {
      assert (a + w)[1..] == a[1..] + w;
      SplitLast(a[1..], w);
    } else {
      var n := WordLength(a);
      assert forall i :: 0 <= i < n ==> a[..n][i] == a[i];
      SplitLast(a[n..], w);
      SplitFirst(a[..n], a[n..] + w);
      HeadAndTail(a, n);
      Assoc(a[..n], a[n..], w);
    }
  }

  lemma SplitLStrip(s: string)
    ensures Split(LStrip(s, IsSpace)) == Split(s)
  {
    var k := |s| - |LStrip(s, IsSpace)|;
    LStripSound(s, IsSpace);
    HeadAndTail(s, k);
    SplitBlankFirst(s[..k], s[k..]);
  }

  lemma SplitRStrip(s: string)
    ensures Split(RStrip(s, IsSpace)) == Split(s)
  {
    var k := |RStrip(s, IsSpace)|;
    RStripSound(s, IsSpace);
    HeadAndTail(s, k);
    SplitBoth(s[..k], s[k..]);
    SplitBlankFirst(s[k..], []);
    assert s[k..] + [] == s[k..];
  }

  lemma SplitStripSpace(s: string)
    ensures Split(StripSpace(s)) == Split(s)
  {
    SplitLStrip(s);
    SplitRStrip(LStrip(s, IsSpace));
  }

  // ---------------------------------------------------------- the operators

  /** The length of an AND, OR or NOT at the start of a word, when the word ends
      there or goes on with a character that is no word character. */
  function OperatorPrefix(w: string, ext: char -> bool): (n: nat)
    ensures n <= |w|
  {
    if |w| >= 3 && SearchQuery.IsAndOrNot(w[..3]) && (|w| == 3 || !IsWord(w[3], ext)) then 3
    else if |w| >= 2 && SearchQuery.IsAndOrNot(w[..2]) && (|w| == 2 || !IsWord(w[2], ext)) then 2
    else 0
  }

  /** The words when an operator may not come first. */
  function WithoutFirst(ws: seq<string>, ext: char -> bool): seq<string> {
    if ws == [] then []
    else
      var n := OperatorPrefix(ws[0], ext);
      (if ws[0][n..] == [] then [] else [ws[0][n..]]) + ws[1..]
  }

  /** The words when an operator may not come last behind white space. */
  function WithoutLast(ws: seq<string>, behindSpace: bool): seq<string> {
    if ws != [] && SearchQuery.IsAndOrNot(ws[|ws| - 1]) && (|ws| > 1 || behindSpace) then ws[..|ws| - 1] else ws
  }

  /** White space is blanks only. */
  predicate OnlyBlanks(s: string) { forall i :: 0 <= i < |s| && IsSpace(s[i]) ==> s[i] == ' ' }

  lemma BeginsIs(s: string, op: string, n: nat)
    requires |op| == n
    ensures Begins(s, op) <==> n <= |s| && SearchQuery.Upper(s[..n]) == op
  {
  }

  lemma LeadingIsPrefix(w: string, rest: string, ext: char -> bool)
    requires w != [] && Spaceless(w) && (rest == [] || rest[0] == ' ')
    ensures LeadingOp(w + rest, ext) == OperatorPrefix(w, ext)
  {
    var s := w + rest;
    PrefixAt(w, rest, 3, ext);
    PrefixAt(w, rest, 2, ext);
    if |s| >= 3 { SearchQuery.OperatorsInAnyCase(s[..3]); }
    if |s| >= 2 { SearchQuery.OperatorsInAnyCase(s[..2]); }
  }

  lemma PrefixAt(w: string, rest: string, n: nat, ext: char -> bool)
    requires n > 0 && w != [] && Spaceless(w) && (rest == [] || rest[0] == ' ')
    ensures var s := w + rest;
            n <= |s| && SearchQuery.IsAndOrNot(s[..n]) && Boundary(s, n, ext) <==>
            n <= |w| && SearchQuery.IsAndOrNot(w[..n]) && (n == |w| || !IsWord(w[n], ext))
  {
    var s := w + rest;
    if n <= |w| {
      assert s[..n] == w[..n];
      assert n < |w| ==> s[n] == w[n];
      assert n == |w| < |s| ==> s[n] == ' ';
    } else if n <= |s| {
      assert s[..n][|w|] == ' ';
    }
  }

  lemma DroppedIsBehind(s: string, ext: char -> bool)
    ensures Split(DropLeadingOp(s, ext)) == Split(s[LeadingOp(s, ext)..])
  {
    var n := LeadingOp(s, ext);
    SplitLStrip(s[n..]);
    assert s[0..] == s;
  }

  lemma SplitBehindPrefix(w: string, rest: string, n: nat)
    requires n <= |w| && Spaceless(w) && (rest == [] || rest[0] == ' ')
    ensures Split((w + rest)[n..]) == (if w[n..] == [] then [] else [w[n..]]) + Split(rest)
  {
    assert (w + rest)[n..] == w[n..] + rest;
    assert forall i :: 0 <= i < |w| - n ==> w[n..][i] == w[i + n];
    SplitFirst(w[n..], rest);
  }

  /** The leading operator goes with its white space. */
  lemma SplitLeading(s: string, ext: char -> bool)
    requires HeadFree(s) && OnlyBlanks(s)
    ensures Split(DropLeadingOp(s, ext)) == WithoutFirst(Split(s), ext)
  {
    DroppedIsBehind(s, ext);
    if s != [] {
      var k := WordLength(s);
      var w, rest := s[..k], s[k..];
      var n := OperatorPrefix(w, ext);
      HeadAndTail(s, k);
      LeadingIsPrefix(w, rest, ext);
      SplitBehindPrefix(w, rest, n);
      WithoutFirstOf(w, Split(rest), n, ext);
    }
  }

  lemma WithoutFirstOf(w: string, ws: seq<string>, n: nat, ext: char -> bool)
    requires n == OperatorPrefix(w, ext)
    ensures WithoutFirst([w] + ws, ext) == (if w[n..] == [] then [] else [w[n..]]) + ws
  {
    assert ([w] + ws)[1..] == ws;
  }

  /** Where the last word of stripped text starts. */
  lemma LastWordAt(t: string) returns (k: nat)
    requires t != [] && TailFree(t)
    ensures k < |t| && Spaceless(t[k..]) && (k == 0 || IsSpace(t[k - 1]))
  {
    k := |t| - 1;
    while k > 0 && !IsSpace(t[k - 1])
      invariant k < |t| && forall i :: k <= i < |t| ==> !IsSpace(t[i])
    {
      k := k - 1;
    }
  }

  lemma EndsIs(t: string, k: nat, op: string)
    requires k < |t| && Spaceless(t[k..]) && (k == 0 || IsSpace(t[k - 1])) && op != []
    requires forall i :: 0 <= i < |op| ==> 'A' <= op[i] <= 'Z'
    ensures Ends(t, op) <==> k > 0 && SearchQuery.Upper(t[k..]) == op
  {
    var w := t[k..];
    assert forall i :: k <= i < |t| ==> t[i] == w[i - k];
    if Ends(t, op) {
      var u := t[|t| - |op|..];
      forall i | 0 <= i < |op| ensures !IsSpace(u[i]) { UpperAt(u, i); }
      assert forall i :: |t| - |op| <= i < |t| ==> t[i] == u[i - (|t| - |op|)];
      assert k == |t| - |op|;
    }
  }

  lemma TrailingIs(t: string, k: nat)
    requires k < |t| && Spaceless(t[k..]) && (k == 0 || IsSpace(t[k - 1]))
    ensures TrailingOp(t) == if k > 0 && SearchQuery.IsAndOrNot(t[k..]) then |t| - k else 0
  {
    EndsIs(t, k, "AND");
    EndsIs(t, k, "OR");
    EndsIs(t, k, "NOT");
    SearchQuery.OperatorsInAnyCase(t[k..]);
  }

  /** Taking a trailing operator off stripped text whose last word starts at k. */
  lemma SplitChopped(t: string, k: nat)
    requires k < |t| && Spaceless(t[k..]) && (k == 0 || IsSpace(t[k - 1]))
    ensures Split(if TrailingOp(t) == 0 then t else Chop(t, TrailingOp(t))) == WithoutLast(Split(t), IsSpace(t[0]))
  {
    var a, w := t[..k], t[k..];
    TrailingIs(t, k);
    HeadAndTail(t, k);
    SplitLast(a, w);
    SplitRStrip(a);
    SomethingBefore(t, k);
    LastOfWords(Split(a), w, IsSpace(t[0]));
  }

  lemma LastOfWords(ws: seq<string>, w: string, behindSpace: bool)
    ensures WithoutLast(ws + [w], behindSpace) ==
            if SearchQuery.IsAndOrNot(w) && (ws != [] || behindSpace) then ws else ws + [w]
  {
    assert (ws + [w])[..|ws|] == ws;
  }

  /** The trailing operator goes when white space stands before it. */
  lemma SplitTrailing(s: string)
    ensures Split(DropTrailingOp(s)) == WithoutLast(Split(s), s != [] && IsSpace(s[0]))
  {
    var t := RStrip(s, IsSpace);
    SplitRStrip(s);
    StripsWithin(s);
    RStripSound(s, IsSpace);
    if t != [] {
      var k := LastWordAt(t);
      SplitChopped(t, k);
      assert t[0] == s[0];
    }
  }

  /** Text before the last word is white space only or holds another word. */
  lemma SomethingBefore(t: string, k: nat)
    requires k < |t|
    ensures k > 0 && !IsSpace(t[0]) ==> Split(t[..k]) != []
    ensures k == 0 ==> Split(t[..k]) == []
  {
    if k > 0 { assert t[..k][0] == t[0]; }
  }

  // ------------------------------------------------------- the quotes of step 5

  function Unquote(s: string): string { ReplaceChar(s, '"', "") }

  lemma {:induction false} UnquotePlain(a: string)
    requires QuoteFree(a)
    ensures Unquote(a) == a
  {
    if a != [] {
      assert a[0] in a && forall c :: c in a[1..] ==> c in a;
      UnquotePlain(a[1..]);
    }
  }

  lemma UnquoteBoth(a: string, b: string)
    ensures Unquote(a + b) == Unquote(a) + Unquote(b)
  {
    ReplaceCharConcat(a, b, '"', "");
  }

  lemma UnquoteQuoted(a: string, rest: string)
    requires QuoteFree(a)
    ensures Unquote("\"" + a + "\"" + rest) == a + Unquote(rest)
  {
    UnquotePlain(a);
    UnquoteBoth("\"" + a + "\"", rest);
    UnquoteBoth("\"" + a, "\"");
    UnquoteBoth("\"", a);
    assert "\""[1..] == [];
    assert Unquote("\"") == [];
  }

  /** Taking out the quotes that step 5 puts in gives the text back. */
  lemma {:induction false} UnquoteTerms(d: string, ext: char -> bool)
    requires QuoteFree(d)
    ensures Unquote(QuoteTerms(d, ext)) == d
    decreases |d|
  {
    if d != [] {
      var m := QuoteTermsStep(d, ext);
      assert QuoteFree(d[..m]) && QuoteFree(d[m..]) by { assert forall c :: c in d[..m] || c in d[m..] ==> c in d; }
      UnquoteTerms(d[m..], ext);
      UnquotePlain(d[..m]);
      UnquoteBoth(d[..m], QuoteTerms(d[m..], ext));
      UnquoteQuoted(d[..m], QuoteTerms(d[m..], ext));
      HeadAndTail(d, m);
    }
  }

  lemma SpacesAreUnquoted(a: string)
    requires forall i :: 0 <= i < |a| ==> IsSpace(a[i])
    ensures Unquote(a) == a
  {
    UnquotePlain(a);
  }

  lemma UnquoteStripped(x: string)
    ensures Split(Unquote(StripSpace(x))) == Split(Unquote(x))
  {
    var l := LStrip(x, IsSpace);
    var k, n := |x| - |l|, |RStrip(l, IsSpace)|;
    LStripSound(x, IsSpace);
    HeadAndTail(x, k);
    UnquoteBoth(x[..k], l);
    SpacesAreUnquoted(x[..k]);
    SplitBlankFirst(x[..k], Unquote(l));
    UnquoteRStripped(l);
  }

  lemma UnquoteRStripped(l: string)
    ensures Split(Unquote(RStrip(l, IsSpace))) == Split(Unquote(l))
  {
    var n := |RStrip(l, IsSpace)|;
    RStripSound(l, IsSpace);
    HeadAndTail(l, n);
    UnquoteBoth(l[..n], l[n..]);
    SpacesAreUnquoted(l[n..]);
    SplitBoth(Unquote(l[..n]), l[n..]);
    SplitBlankFirst(l[n..], []);
    assert l[n..] + [] == l[n..];
  }

  // ---------------------------------------------------- the words of a piece

  lemma {:induction false} TidyIsPlain(s: string, tied: bool)
    ensures QuoteFree(Tidy(s, tied))
    ensures OnlyBlanks(s) ==> OnlyBlanks(Tidy(s, tied))
  {
    if s != [] {
      TidyIsPlain(s[1..], false);
      TidyIsPlain(s[1..], !IsSpace(s[0]));
      assert forall i :: 0 <= i < |s| - 1 ==> s[1..][i] == s[i + 1];
    }
  }

  lemma WithinIsPlain(t: string, s: string)
    requires Within(t, s) && QuoteFree(s)
    ensures QuoteFree(t) && (OnlyBlanks(s) ==> OnlyBlanks(t))
  {
    var i, j :| 0 <= i <= j <= |s| && t == s[i..j];
    assert forall k :: 0 <= k < |t| ==> t[k] == s[i + k] && s[i + k] in s;
  }

  /** Between two phrases all words stay, with their stars tied. */
  lemma WordsOfInner(b: string, ext: char -> bool)
    ensures Split(Unquote(Inner(b, ext))) == TiedWords(Words(b), StartsTied(b, true))
  {
    PieceIsTidy(b, false);
    TidyIsPlain(b, true);
    UnquoteTerms(Piece(b, false), ext);
    SplitTidy(b, true);
  }

  /** Before the first phrase a leading operator goes. */
  lemma WordsOfFirst(b: string, ext: char -> bool)
    requires OnlyBlanks(b)
    ensures Split(Unquote(QuoteTerms(Front(Piece(b, true), ext), ext))) == WithoutFirst(TiedWords(Words(b), false), ext)
  {
    var p := Piece(b, true);
    var l := LStrip(p, IsSpace);
    PieceIsTidy(b, true);
    TidyIsPlain(b, false);
    StripsWithin(p);
    WithinIsPlain(l, p);
    FrontWithin(p, ext);
    WithinIsPlain(Front(p, ext), p);
    UnquoteTerms(Front(p, ext), ext);
    SplitLeading(l, ext);
    SplitLStrip(p);
    SplitTidy(b, false);
  }

  /** Behind the last phrase a trailing operator goes, also one that is the only
      word there if it stands behind a break. */
  lemma WordsOfLast(b: string, ext: char -> bool)
    ensures Split(Unquote(QuoteTerms(Back(Piece(b, false)), ext)))
         == WithoutLast(TiedWords(Words(b), StartsTied(b, true)), b != [] && Breaks(b[0]))
  {
    var p := Piece(b, false);
    var r := RStrip(p, IsSpace);
    PieceIsTidy(b, false);
    TidyIsPlain(b, true);
    BackWithin(p);
    WithinIsPlain(Back(p), p);
    UnquoteTerms(Back(p), ext);
    SplitTrailing(r);
    SplitRStrip(p);
    SplitTidy(b, true);
    RStripSound(p, IsSpace);
    TidyStarts(b);
  }

  lemma TidyStarts(b: string)
    ensures var p := Tidy(b, true); p != [] <==> b != []
    ensures var p := Tidy(b, true); b != [] ==> (IsSpace(p[0]) <==> Breaks(b[0]))
  {
  }

  /** Without phrases both operators go. */
  lemma WordsOfOnly(c: string, ext: char -> bool)
    requires OnlyBlanks(c)
    ensures Split(Unquote(Cleaned(c, ext))) == WithoutLast(WithoutFirst(TiedWords(Words(c), false), ext), false)
  {
    var p := Piece(c, true);
    var a := StripSpace(p);
    var b := DropLeadingOp(a, ext);
    PieceIsTidy(c, true);
    TidyIsPlain(c, false);
    OpsWithin(p, ext);
    WithinIsPlain(DropOps(p, ext), p);
    UnquoteTerms(DropOps(p, ext), ext);
    StripSpaceWithin(p);
    WithinIsPlain(a, p);
    SplitLeading(a, ext);
    SplitStripSpace(p);
    SplitTidy(c, false);
    StripSpaceWithin(b);
    SplitStripSpace(b);
    SplitTrailing(StripSpace(b));
  }

  // ---------------------------------------------------- the words of a query

  lemma {:induction false} JoinOnlyBlanks(parts: seq<string>)
    requires AllSpaceless(parts)
    ensures OnlyBlanks(Join(" ", parts))
  {
    if |parts| > 1 {
      assert AllSpaceless(parts[1..]);
      JoinOnlyBlanks(parts[1..]);
      BlanksOfBoth(parts[0], " ");
      BlanksOfBoth(parts[0] + " ", Join(" ", parts[1..]));
    }
  }

  lemma BlanksOfBoth(a: string, b: string)
    requires OnlyBlanks(a) && OnlyBlanks(b)
    ensures OnlyBlanks(a + b)
  {
  }

  lemma CappedOnlyBlanks(query: string, caps: Caps)
    ensures OnlyBlanks(Capped(query, caps))
  {
    var toks := Kept(query, caps);
    CapTokensSound(toks, caps);
    CapsSpaceless(toks, CapTokens(toks, caps));
    JoinOnlyBlanks(CapTokens(toks, caps));
  }

  lemma NoPhrases(query: string, caps: Caps, ext: char -> bool)
    requires QuoteFree(query)
    ensures Sanitized(query, caps, ext) == StripSpace(Cleaned(Capped(query, caps), ext))
  {
    var c := Capped(query, caps);
    CappedLacks(query, caps, '"');
    var (i, j) := FirstPhrase(c);
    assert forall k :: 0 <= k < |c| ==> c[k] in c;
  }

  /** A query without quotes: take out the quotes that step 5 put in and split,
      and there are the words of the capped query, with their stars tied, less a
      leading and a trailing operator. */
  lemma WordsOfQuery(query: string, caps: Caps, ext: char -> bool)
    requires QuoteFree(query)
    ensures Split(Unquote(Sanitized(query, caps, ext)))
         == WithoutLast(WithoutFirst(TiedWords(Words(Capped(query, caps)), false), ext), false)
  {
    NoPhrases(query, caps, ext);
    UnquoteStripped(Cleaned(Capped(query, caps), ext));
    CappedOnlyBlanks(query, caps);
    WordsOfOnly(Capped(query, caps), ext);
  }

  lemma {:induction false} TieKeepsStarless(w: string, tied: bool)
    requires '*' !in w
    ensures Tie(w, tied) == w
  {
    if w != [] {
      assert w[0] in w && forall c :: c in w[1..] ==> c in w;
      TieKeepsStarless(w[1..], w[0] != '*');
    }
  }

  lemma {:induction false} StarlessWords(s: string, tied: bool)
    requires '*' !in s
    ensures TiedWords(Words(s), tied) == Words(s)
    decreases |s|
  {
    if s != [] {
      if Breaks(s[0]) {
        assert forall c :: c in s[1..] ==> c in s;
        StarlessWords(s[1..], tied);
      } else {
        var n := RunEnd(s);
        assert forall c :: c in s[..n] || c in s[n..] ==> c in s;
        StarlessWords(s[n..], false);
        TieKeepsStarless(s[..n], tied);
        WordsBehind(s[..n], Words(s[n..]), tied);
      }
    }
  }

  /** A query without quotes and stars: exactly the runs of characters that are
      neither white space nor special, less the two operators. */
  lemma WordsOfPlainQuery(query: string, caps: Caps, ext: char -> bool)
    requires QuoteFree(query) && '*' !in query
    ensures Split(Unquote(Sanitized(query, caps, ext)))
         == WithoutLast(WithoutFirst(Words(Capped(query, caps)), ext), false)
  {
    WordsOfQuery(query, caps, ext);
    CappedLacks(query, caps, '*');
    StarlessWords(Capped(query, caps), false);
  }

  lemma {:induction false} BaresOnlyBlanks(s: string)
    requires OnlyBlanks(s)
    ensures forall k :: 0 <= k < |Bares(s)| ==> OnlyBlanks(Bares(s)[k])
    decreases |s|
  {
    var (i, j) := FirstPhrase(s);
    if i < j {
      assert OnlyBlanks(s[..i]);
      assert OnlyBlanks(s[j..]) by { assert forall k :: 0 <= k < |s| - j ==> s[j..][k] == s[j + k]; }
      BaresOnlyBlanks(s[j..]);
      assert Bares(s) == [s[..i]] + Bares(s[j..]);
    }
  }

  /** The words of a piece behind a phrase, one at its very start with its star. */
  predicate InnerWords(r: string, b: string) {
    Split(Unquote(r)) == TiedWords(Words(b), StartsTied(b, true))
  }

  /** The same behind the last phrase, less an operator at the end behind a break. */
  predicate LastWords(r: string, b: string) {
    Split(Unquote(r)) == WithoutLast(TiedWords(Words(b), StartsTied(b, true)), b != [] && Breaks(b[0]))
  }

  /** The words before the first phrase. */
  predicate FirstWords(r: string, b: string, ext: char -> bool) {
    Split(Unquote(r)) == WithoutFirst(TiedWords(Words(b), false), ext)
  }

  /** Piece by piece: `r` are the cleaned pieces behind the first phrase. */
  ghost predicate TailKeepsWords(r: seq<string>, bares: seq<string>) {
    && |r| == |bares| > 0
    && (forall m :: 0 <= m < |r| - 1 ==> InnerWords(r[m], bares[m]))
    && LastWords(r[|r| - 1], bares[|r| - 1])
  }

  /** Piece by piece: `r` are all cleaned pieces. */
  ghost predicate KeepsWords(r: seq<string>, bares: seq<string>, ext: char -> bool) {
    |r| == |bares| >= 2 && FirstWords(r[0], bares[0], ext) && TailKeepsWords(r[1..], bares[1..])
  }

  lemma OneMorePiece(x: string, r: seq<string>, b: string, bares: seq<string>)
    requires InnerWords(x, b) && TailKeepsWords(r, bares)
    ensures TailKeepsWords([x] + r, [b] + bares)
  {
    var s, cs := [x] + r, [b] + bares;
    forall m | 0 <= m < |s| - 1 ensures InnerWords(s[m], cs[m]) {
      if m > 0 { assert s[m] == r[m - 1] && cs[m] == bares[m - 1]; }
    }
  }

  lemma {:induction false} CleanTailKeepsWords(bares: seq<string>, ext: char -> bool)
    requires bares != []
    ensures TailKeepsWords(CleanTail(bares, ext), bares)
  {
    if |bares| == 1 {
      WordsOfLast(bares[0], ext);
    } else {
      WordsOfInner(bares[0], ext);
      CleanTailKeepsWords(bares[1..], ext);
      OneMorePiece(Inner(bares[0], ext), CleanTail(bares[1..], ext), bares[0], bares[1..]);
      assert bares == [bares[0]] + bares[1..];
    }
  }

  lemma CleanBaresKeepWords(bares: seq<string>, ext: char -> bool)
    requires |bares| >= 2 && OnlyBlanks(bares[0])
    ensures KeepsWords(CleanBares(bares, ext), bares, ext)
  {
    var r := CleanBares(bares, ext);
    WordsOfFirst(bares[0], ext);
    CleanTailKeepsWords(bares[1..], ext);
    assert r[1..] == CleanTail(bares[1..], ext);
  }

  /** A query with phrases that does not collide: the phrases, verbatim, and between
      them the words of the bare pieces - no operator is lost but one leading
      before the first phrase and one trailing behind the last. */
  lemma WordsBetweenPhrases(query: string, caps: Caps, ext: char -> bool) returns (r: seq<string>)
    requires NulFree(query) && !Collides(Capped(query, caps)) && Phrases(Capped(query, caps)) != []
    ensures var c := Capped(query, caps);
            |r| == |Bares(c)| && Sanitized(query, caps, ext) == WeaveText(r, Phrases(c))
            && KeepsWords(r, Bares(c), ext)
  {
    var c := Capped(query, caps);
    r := CleanBares(Bares(c), ext);
    PhrasesSurviveIffNoCollision(query, caps, ext);
    CappedOnlyBlanks(query, caps);
    BaresOnlyBlanks(c);
    CleanBaresKeepWords(Bares(c), ext);
  }
}
