/** Steps 2, 3 and 5 of the sanitizer against independent definitions: the three
    substitutions as one pass over the characters, and the term pattern as a
    description of whole terms. */
module SanitizerTidy {
  import opened PyString
  import opened QuerySanitizer
  import opened SanitizerPieces
  import opened SanitizerProofs
  import opened SanitizerRestore
  import opened SanitizerSteps

  // ------------------------------------------------ steps 2 and 3, one pass

  predicate IsMark(c: char) { c in {'+', '{', '}', '(', ')', '"', '^'} }

  /** A special character becomes a blank; a star stays only behind a character
      that is neither a star nor white space nor special. `tied` says whether the
      text stands behind such a character. */
  function Tidy(s: string, tied: bool): string {
    if s == [] then []
    else if IsMark(s[0]) then [' '] + Tidy(s[1..], false)
    else if s[0] == '*' then (if tied then ['*'] else []) + Tidy(s[1..], false)
    else [s[0]] + Tidy(s[1..], !IsSpace(s[0]))
  }

  lemma {:induction false} TidyBlank(s: string, tied: bool)
    ensures Tidy(Blank(s), tied) == Tidy(s, tied)
  {
    if s != [] {
      var b := Blank(s);
      assert b[1..] == Blank(s[1..]);
      TidyBlank(s[1..], false);
      TidyBlank(s[1..], !IsSpace(s[0]));
    }
  }

  predicate Unmarked(s: string) { forall i :: 0 <= i < |s| ==> !IsMark(s[i]) }

  lemma {:induction false} BlankIsUnmarked(s: string)
    ensures Unmarked(Blank(s))
  {
    if s != [] {
      var b := Blank(s);
      BlankIsUnmarked(s[1..]);
      assert b[1..] == Blank(s[1..]);
    }
  }

  lemma {:induction false} TwoPassesAreOne(t: string, atStart: bool)
    requires Unmarked(t)
    ensures DropStars(Collapse(t), atStart) == Tidy(t, !atStart)
    decreases |t|
  {
    if t != [] {
      var rest := t[1..];
      assert Unmarked(rest) && !IsMark(t[0]);
      TwoPassesAreOne(rest, atStart);
      TwoPassesAreOne(rest, false);
      TwoPassesAreOne(rest, true);
      if rest != [] { CollapseHead(rest); }
      if t[0] == '*' && rest != [] && rest[0] == '*' {
        assert Collapse(t) == Collapse(rest);
        assert Tidy(rest, false) == Tidy(rest[1..], false);
      } else {
        DropOne(t, atStart);
      }
    }
  }

  /** One step of the two passes at a character that is not collapsed. */
  lemma DropOne(t: string, atStart: bool)
    requires t != [] && !(|t| > 1 && t[0] == '*' && t[1] == '*')
    ensures var r := Collapse(t[1..]);
            DropStars(Collapse(t), atStart) ==
              if t[0] == '*' then (if atStart then [] else ['*']) + DropStars(r, false)
              else [t[0]] + DropStars(r, IsSpace(t[0]))
  {
    var r := Collapse(t[1..]);
    assert Collapse(t) == [t[0]] + r;
    assert ([t[0]] + r)[1..] == r;
    if r != [] { assert ([t[0]] + r)[2..] == r[1..]; }
  }

  /** The three substitutions of steps 2 and 3 are that one pass. */
  lemma PieceIsTidy(s: string, atStart: bool)
    ensures Piece(s, atStart) == Tidy(s, !atStart)
  {
    BlankIsUnmarked(s);
    TwoPassesAreOne(Blank(s), atStart);
    TidyBlank(s, !atStart);
  }

  // ------------------------------------------ a special acts like a blank

  /** `b` is `a` with some special characters replaced by blanks. */
  predicate Blanked(a: string, b: string) {
    |a| == |b| && forall i :: 0 <= i < |a| ==> b[i] == a[i] || (IsMark(a[i]) && b[i] == ' ')
  }

  lemma {:induction false} MarkActsLikeBlank(a: string, b: string, tied: bool)
    requires Blanked(a, b)
    ensures Tidy(a, tied) == Tidy(b, tied)
  {
    if a != [] {
      assert forall i :: 0 <= i < |a| - 1 ==> a[1..][i] == a[i + 1] && b[1..][i] == b[i + 1];
      MarkActsLikeBlank(a[1..], b[1..], false);
      MarkActsLikeBlank(a[1..], b[1..], !IsSpace(a[0]));
    }
  }

  /** Outside the phrases a special character acts exactly like a blank. */
  lemma {:induction false} MarksActLikeBlanks(bares: seq<string>, blanked: seq<string>, ext: char -> bool)
    requires bares != [] && |blanked| == |bares| && forall i :: 0 <= i < |bares| ==> Blanked(bares[i], blanked[i])
    ensures CleanBares(bares, ext) == CleanBares(blanked, ext)
  {
    PiecesAlike(bares[0], blanked[0], true);
    if |bares| > 1 { TailsAlike(bares[1..], blanked[1..], ext); }
  }

  lemma PiecesAlike(a: string, b: string, atStart: bool)
    requires Blanked(a, b)
    ensures Piece(a, atStart) == Piece(b, atStart)
  {
    PieceIsTidy(a, atStart);
    PieceIsTidy(b, atStart);
    MarkActsLikeBlank(a, b, !atStart);
  }

  lemma {:induction false} TailsAlike(bares: seq<string>, blanked: seq<string>, ext: char -> bool)
    requires bares != [] && |blanked| == |bares| && forall i :: 0 <= i < |bares| ==> Blanked(bares[i], blanked[i])
    ensures CleanTail(bares, ext) == CleanTail(blanked, ext)
  {
    PiecesAlike(bares[0], blanked[0], false);
    if |bares| > 1 { TailsAlike(bares[1..], blanked[1..], ext); }
  }

  // --------------------------------------------------------- no star is added

  function Stars(s: string): nat { multiset(s)['*'] }

  lemma {:induction false} TidyAddsNoStar(s: string, tied: bool)
    ensures Stars(Tidy(s, tied)) <= Stars(s)
  {
    if s != [] {
      TidyAddsNoStar(s[1..], false);
      TidyAddsNoStar(s[1..], !IsSpace(s[0]));
      assert s == [s[0]] + s[1..];
    }
  }

  lemma StarsWithin(t: string, s: string)
    requires Within(t, s)
    ensures Stars(t) <= Stars(s)
  {
    var i, j :| 0 <= i <= j <= |s| && t == s[i..j];
    assert s == s[..i] + (t + s[j..]);
  }

  lemma StarsOfBoth(a: string, b: string)
    ensures Stars(a + b) == Stars(a) + Stars(b)
  {
  }

  lemma {:induction false} QuotingAddsNoStar(s: string, ext: char -> bool)
    ensures Stars(QuoteTerms(s, ext)) == Stars(s)
    decreases |s|
  {
    if s != [] {
      var m := QuoteTermsStep(s, ext);
      QuotingAddsNoStar(s[m..], ext);
      HeadAndTail(s, m);
      StarsOfBoth(s[..m], s[m..]);
      StarsOfBoth(s[..m], QuoteTerms(s[m..], ext));
      StarsOfQuoted(s[..m], QuoteTerms(s[m..], ext));
    }
  }

  lemma StarsOfQuoted(a: string, rest: string)
    ensures Stars("\"" + a + "\"" + rest) == Stars(a) + Stars(rest)
  {
    assert Stars("\"") == 0;
    StarsOfBoth("\"" + a + "\"", rest);
    StarsOfBoth("\"" + a, "\"");
    StarsOfBoth("\"", a);
  }

  lemma CleaningAddsNoStar(b: string, d: string, atStart: bool, ext: char -> bool)
    requires Within(d, Piece(b, atStart))
    ensures Stars(QuoteTerms(d, ext)) <= Stars(b)
  {
    PieceIsTidy(b, atStart);
    TidyAddsNoStar(b, !atStart);
    StarsWithin(d, Piece(b, atStart));
    QuotingAddsNoStar(d, ext);
  }

  lemma WholeIsWithin(s: string)
    ensures Within(s, s)
  {
    assert s == s[0..|s|];
  }

  lemma StarsOfWeave(b: string, phrase: string, rest: string)
    ensures Stars(b + (phrase + rest)) == Stars(b) + Stars(phrase) + Stars(rest)
  {
    StarsOfBoth(phrase, rest);
    StarsOfBoth(b, phrase + rest);
  }

  lemma {:induction false} TailAddsNoStar(bares: seq<string>, phrases: seq<string>, ext: char -> bool)
    requires |bares| == |phrases| + 1
    ensures Stars(WeaveText(CleanTail(bares, ext), phrases)) <= Stars(WeaveText(bares, phrases))
  {
    var b := bares[0];
    var r := CleanTail(bares, ext);
    if phrases == [] {
      BackWithin(Piece(b, false));
      CleaningAddsNoStar(b, Back(Piece(b, false)), false, ext);
    } else {
      WholeIsWithin(Piece(b, false));
      CleaningAddsNoStar(b, Piece(b, false), false, ext);
      TailAddsNoStar(bares[1..], phrases[1..], ext);
      assert r[0] == Inner(b, ext) && r[1..] == CleanTail(bares[1..], ext);
      StarsOfWeave(r[0], phrases[0], WeaveText(r[1..], phrases[1..]));
      StarsOfWeave(b, phrases[0], WeaveText(bares[1..], phrases[1..]));
    }
  }

  lemma CleanBaresAddNoStar(bares: seq<string>, phrases: seq<string>, ext: char -> bool)
    requires |bares| == |phrases| + 1
    ensures Stars(WeaveText(CleanBares(bares, ext), phrases)) <= Stars(WeaveText(bares, phrases))
  {
    var b := bares[0];
    var r := CleanBares(bares, ext);
    if phrases == [] {
      OpsWithin(Piece(b, true), ext);
      CleaningAddsNoStar(b, DropOps(Piece(b, true), ext), true, ext);
    } else {
      FrontWithin(Piece(b, true), ext);
      CleaningAddsNoStar(b, Front(Piece(b, true), ext), true, ext);
      TailAddsNoStar(bares[1..], phrases[1..], ext);
      assert r[1..] == CleanTail(bares[1..], ext);
      StarsOfWeave(r[0], phrases[0], WeaveText(r[1..], phrases[1..]));
      StarsOfWeave(b, phrases[0], WeaveText(bares[1..], phrases[1..]));
    }
  }

  /** The result has no more stars than the capped query. */
  lemma NoStarIsAdded(query: string, caps: Caps, ext: char -> bool)
    requires NulFree(query) && !Collides(Capped(query, caps))
    ensures Stars(Sanitized(query, caps, ext)) <= Stars(Capped(query, caps))
  {
    var c := Capped(query, caps);
    PhrasesSurviveIffNoCollision(query, caps, ext);
    CleanBaresAddNoStar(Bares(c), Phrases(c), ext);
    TextOfPieces(c);
  }

  /** On any text at all steps 2 to 5 add no star. */
  lemma CleanedAddsNoStar(s: string, ext: char -> bool)
    ensures Stars(Cleaned(s, ext)) <= Stars(s)
  {
    OpsWithin(Piece(s, true), ext);
    CleaningAddsNoStar(s, DropOps(Piece(s, true), ext), true, ext);
  }

  // ---- a collision can add one: the phrase comes back twice, star and all

  lemma {:induction false} ReplacingKeepsStars(s: string, pat: string, with: string)
    requires pat != [] && Stars(pat) == 0
    ensures Stars(ReplaceAll(s, pat, with)) >= Stars(s)
    decreases |s|
  {
    if s != [] {
      var k := if pat <= s then |pat| else 1;
      ReplacingKeepsStars(s[k..], pat, with);
      HeadAndTail(s, k);
      StarsOfBoth(s[..k], s[k..]);
      StarsOfBoth(if pat <= s then with else [s[0]], ReplaceAll(s[k..], pat, with));
    }
  }

  lemma MarkHasNoStar(n: nat)
    ensures Stars(Mark(n)) == 0
  {
    LabelIsAlnum(n);
    assert forall i :: 0 <= i < |Mark(n)| ==> Mark(n)[i] != '*';
  }

  lemma NextPassKeepsStars(s: string, phrases: seq<string>, n: nat)
    requires n < |phrases|
    ensures Stars(Restored(s, phrases, n + 1)) >= Stars(Restored(s, phrases, n))
  {
    PassKeepsStars(Restored(s, phrases, n), n, phrases[n]);
  }

  lemma PassKeepsStars(s: string, n: nat, with: string)
    ensures Stars(ReplaceAll(s, Mark(n), with)) >= Stars(s)
  {
    MarkHasNoStar(n);
    ReplacingKeepsStars(s, Mark(n), with);
  }

  lemma ReplaceAt(pat: string, rest: string, with: string)
    requires pat != []
    ensures ReplaceAll(pat + rest, pat, with) == with + ReplaceAll(rest, pat, with)
  {
    assert (pat + rest)[|pat|..] == rest && pat <= pat + rest;
  }

  lemma ReplaceBehind(c: char, rest: string, pat: string, with: string)
    requires pat != [] && c != pat[0]
    ensures ReplaceAll([c] + rest, pat, with) == [c] + ReplaceAll(rest, pat, with)
  {
    assert ([c] + rest)[1..] == rest;
  }

  lemma MarkShapes()
    ensures Mark(0) == [NUL, 'Q', '0', NUL] && Mark(1) == [NUL, 'Q', '1', NUL]
  {
    assert Dec(0) == "0" && Dec(1) == "1";
  }

  /** The first pass over two placeholders, `Q0` and a third: two matches. */
  lemma FirstPassTwice(u: string, with: string)
    requires Stars(with) == 1
    ensures Stars(ReplaceAll(Mark(0) + (Mark(1) + ("Q0" + ([NUL] + u))), Mark(0), with)) >= 2
  {
    MarkShapes();
    var t := Mark(0) + u;
    var x := ['Q'] + (['1'] + t);
    assert Mark(1) + ("Q0" + ([NUL] + u)) == [NUL] + x;
    ReplaceAt(Mark(0), [NUL] + x, with);
    assert !(Mark(0) <= [NUL] + x) by { assert ([NUL] + x)[2] == '1'; }
    assert ([NUL] + x)[1..] == x;
    ReplaceBehind('Q', ['1'] + t, Mark(0), with);
    ReplaceBehind('1', t, Mark(0), with);
    ReplaceAt(Mark(0), u, with);
    var r := ReplaceAll(u, Mark(0), with);
    StarsOfBoth(with, r);
    StarsOfBoth(['1'], with + r);
    StarsOfBoth(['Q'], ['1'] + (with + r));
    StarsOfBoth([NUL], ['Q'] + (['1'] + (with + r)));
    StarsOfBoth(with, [NUL] + (['Q'] + (['1'] + (with + r))));
  }

  lemma StarsOfStripped(s: string)
    ensures Stars(StripSpace(s)) == Stars(s)
  {
    StarsOfLStripped(s);
    StarsOfRStripped(LStrip(s, IsSpace));
  }

  lemma StarsOfLStripped(s: string)
    ensures Stars(LStrip(s, IsSpace)) == Stars(s)
  {
    var k := |s| - |LStrip(s, IsSpace)|;
    LStripSound(s, IsSpace);
    SpacesHaveNoStar(s[..k]);
    HeadAndTail(s, k);
    StarsOfBoth(s[..k], s[k..]);
  }

  lemma StarsOfRStripped(s: string)
    ensures Stars(RStrip(s, IsSpace)) == Stars(s)
  {
    var n := |RStrip(s, IsSpace)|;
    RStripSound(s, IsSpace);
    SpacesHaveNoStar(s[n..]);
    HeadAndTail(s, n);
    StarsOfBoth(s[..n], s[n..]);
  }

  lemma SpacesHaveNoStar(s: string)
    requires forall i :: 0 <= i < |s| ==> IsSpace(s[i])
    ensures Stars(s) == 0
  {
    assert forall i :: 0 <= i < |s| ==> s[i] != '*';
  }

  const STARRED: string := "\"*\"" + ("\"b\"" + ("Q0" + "\"c\""))

  /** A query with one star whose result has two. */
  lemma CollisionAddsStar(ext: char -> bool)
    ensures Stars(Capped(STARRED, CAPS)) == 1 && Stars(Sanitized(STARRED, CAPS, ext)) >= 2
  {
    StarredIsPlain();
    StarredIsKept();
    StarredPieces(STARRED, "\"*\"", "\"b\"", "\"c\"", ext);
    var s := Weave(["", "", "Q0", ""], 0);
    ProtectedAndCleaned(STARRED, ext);
    WeaveOfFour();
    FirstPassTwice(Label(2) + [NUL], "\"*\"");
    assert Restored(s, Phrases(STARRED), 0) == s;
    assert Restored(s, Phrases(STARRED), 1) == ReplaceAll(s, Mark(0), "\"*\"");
    NextPassKeepsStars(s, Phrases(STARRED), 1);
    NextPassKeepsStars(s, Phrases(STARRED), 2);
    StarsOfStripped(Restored(s, Phrases(STARRED), 3));
  }

  lemma StarredIsPlain()
    ensures |STARRED| == 11 && Spaceless(STARRED) && Stars(STARRED) == 1
  {
  }

  lemma StarredIsKept()
    ensures Capped(STARRED, CAPS) == STARRED
  {
    StarredIsPlain();
    SplitFirst(STARRED, []);
    assert STARRED + [] == STARRED;
    assert Split(STARRED) == [STARRED] && [STARRED][..0] == [];
    WithinCaps([STARRED], CAPS);
  }

  lemma PhraseNext(q: string, rest: string)
    requires IsPhrase(q)
    ensures Phrases(q + rest) == [q] + Phrases(rest) && Bares(q + rest) == [[]] + Bares(rest)
  {
    QuoteFirst(q, rest);
    var s := q + rest;
    assert s[|q|..] == rest && s[0..|q|] == q && s[..0] == [];
  }

  lemma ThreePhrases(a: string, b: string, tail: string)
    requires IsPhrase(a) && IsPhrase(b)
    ensures var s := a + (b + tail);
            Phrases(s) != [] && Phrases(s)[0] == a && Bares(s) == [[]] + ([[]] + Bares(tail))
  {
    PhraseNext(a, b + tail);
    PhraseNext(b, tail);
  }

  lemma FourPieces(x: seq<string>, b: seq<string>)
    requires x == ["Q0", []] && b == [[]] + ([[]] + x)
    ensures b == ["", "", "Q0", ""]
  {
  }

  lemma StarredPieces(s: string, a: string, b: string, c: string, ext: char -> bool)
    requires IsPhrase(a) && IsPhrase(b) && c == "\"c\"" && s == a + (b + ("Q0" + c))
    ensures |Phrases(s)| == 3 && Phrases(s)[0] == a && CleanBares(Bares(s), ext) == ["", "", "Q0", ""]
  {
    var tail := "Q0" + c;
    ThreePhrases(a, b, tail);
    BaresOfTail(c);
    FourPieces(Bares(tail), Bares(s));
    CleanedFour(Bares(s), ext);
  }

  lemma CleanedFour(b: seq<string>, ext: char -> bool)
    requires b == ["", "", "Q0", ""]
    ensures CleanBares(b, ext) == b
  {
    EmptyStaysEmpty(ext);
    InnerLabels(b, 2, 0, ext);
    assert Dec(0) == "0" && Label(0) == "Q0";
    var c := b[1..];
    assert c == ["", "Q0", ""] && c[1..] == ["Q0", ""] && c[1..][1..] == [""];
    var r, t := CleanBares(b, ext), CleanTail(c, ext);
    assert r == [QuoteTerms(Front(Piece([], true), ext), ext)] + t;
    assert t == [Inner([], ext)] + CleanTail(c[1..], ext);
    assert CleanTail(c[1..], ext) == [Inner("Q0", ext)] + CleanTail([""], ext);
    assert CleanTail([""], ext) == [QuoteTerms(Back(Piece([], false)), ext)];
    assert r[2] == "Q0";
  }

  lemma EmptyStaysEmpty(ext: char -> bool)
    ensures QuoteTerms(Front(Piece([], true), ext), ext) == [] && Inner([], ext) == []
    ensures QuoteTerms(Back(Piece([], false)), ext) == []
  {
  }

  lemma WeaveOfFour()
    ensures Weave(["", "", "Q0", ""], 0) == Mark(0) + (Mark(1) + ("Q0" + ([NUL] + (Label(2) + [NUL]))))
  {
    var b := ["", "", "Q0", ""];
    assert b[1..] == ["", "Q0", ""] && b[1..][1..] == ["Q0", ""] && b[1..][1..][1..] == [""];
    assert Weave(["Q0", ""], 2) == "Q0" + (Mark(2) + "");
    assert Mark(2) + "" == [NUL] + (Label(2) + [NUL]);
    assert Weave(["", "Q0", ""], 1) == "" + (Mark(1) + Weave(["Q0", ""], 2));
  }

  // ------------------------------------------------------- what a term is

  /** A term that must be quoted: word characters and single dots or hyphens
      between them, with a dot, a hyphen or an underscore inside. */
  predicate IsTerm(t: string, ext: char -> bool) {
    && |t| >= 3 && IsWord(t[0], ext) && IsWord(t[|t| - 1], ext)
    && (forall i :: 0 <= i < |t| ==> IsWord(t[i], ext) || t[i] == '.' || t[i] == '-')
    && (forall i :: 0 < i < |t| && !IsWord(t[i - 1], ext) ==> IsWord(t[i], ext))
    && (exists i :: 0 < i < |t| - 1 && (t[i] == '.' || t[i] == '-' || t[i] == '_'))
  }

  /** Word characters and single dots or hyphens between them. */
  predicate IsJoined(t: string, ext: char -> bool) {
    && t != [] && IsWord(t[0], ext) && IsWord(t[|t| - 1], ext)
    && (forall i :: 0 <= i < |t| ==> IsWord(t[i], ext) || t[i] == '.' || t[i] == '-')
    && (forall i :: 0 < i < |t| && !IsWord(t[i - 1], ext) ==> IsWord(t[i], ext))
  }

  lemma JoinedBoth(a: string, d: char, b: string, ext: char -> bool)
    requires IsJoined(b, ext) && a != [] && (d == '.' || d == '-') && forall i :: 0 <= i < |a| ==> IsWord(a[i], ext)
    ensures IsJoined(a + [d] + b, ext)
  {
    var t, k := a + [d] + b, |a| + 1;
    assert t[|t| - 1] == b[|b| - 1];
    assert forall i :: k <= i < |t| ==> t[i] == b[i - k];
    assert forall i :: 0 <= i < |a| ==> t[i] == a[i];
  }

  lemma RunIsJoined(t: string, ext: char -> bool)
    requires t != [] && forall k :: 0 <= k < |t| ==> IsWord(t[k], ext)
    ensures IsJoined(t, ext)
  {
  }

  lemma CutAround(s: string, w: nat, n: nat)
    requires w < |s| && n <= |s| - w - 1
    ensures s[..w + 1 + n] == s[..w] + [s[w]] + s[w + 1..][..n]
  {
  }

  lemma RunHead(s: string, ext: char -> bool)
    ensures forall k :: 0 <= k < Run(s, ext) ==> IsWord(s[..Run(s, ext)][k], ext)
  {
  }

  lemma {:induction false} ChainIsJoined(s: string, ext: char -> bool) returns (t: string)
    requires s != [] && IsWord(s[0], ext)
    ensures t == s[..Chain(s, ext)] && IsJoined(t, ext)
    decreases |s|
  {
    var w := Run(s, ext);
    RunHead(s, ext);
    if Joins(s, w, ext) {
      var rest := ChainIsJoined(s[w + 1..], ext);
      JoinedBoth(s[..w], s[w], rest, ext);
      t := s[..w] + [s[w]] + rest;
      CutAround(s, w, Chain(s[w + 1..], ext));
    } else {
      t := s[..w];
      RunIsJoined(t, ext);
    }
  }

  lemma RunIsMaximal(s: string, m: nat, ext: char -> bool)
    requires m <= |s| && forall k :: 0 <= k < m ==> IsWord(s[k], ext)
    ensures m <= Run(s, ext)
  {
    RunStops(s, ext);
  }

  /** Joined text that goes on behind a run of word characters is joined there. */
  lemma JoinedBehind(t: string, w: nat, ext: char -> bool)
    requires IsJoined(t, ext) && w < |t| && !IsWord(t[w], ext)
    ensures w + 1 < |t| && IsWord(t[w + 1], ext) && IsJoined(t[w + 1..], ext) && (t[w] == '.' || t[w] == '-')
  {
    var r := t[w + 1..];
    assert forall k :: 0 <= k < |r| ==> r[k] == t[k + w + 1];
  }

  /** No longer stretch from the start is joined text. */
  lemma {:induction false} ChainIsMaximal(s: string, m: nat, ext: char -> bool)
    requires m <= |s| && IsJoined(s[..m], ext)
    ensures m <= Chain(s, ext)
    decreases |s|
  {
    var w, t := Run(s, ext), s[..m];
    if m > w {
      RunStops(s, ext);
      assert t[w] == s[w];
      JoinedBehind(t, w, ext);
      assert t[w + 1] == s[w + 1];
      assert t[w + 1..] == s[w + 1..][..m - w - 1];
      ChainIsMaximal(s[w + 1..], m - w - 1, ext);
    }
  }

  /** What step 5 quotes at the start of a word is the longest term there; it
      quotes nothing exactly when no term starts there. */
  lemma QuotesLongestTerm(s: string, ext: char -> bool)
    requires s != [] && IsWord(s[0], ext)
    ensures TermLength(s, ext) > 0 ==> IsTerm(s[..TermLength(s, ext)], ext)
    ensures forall m :: TermLength(s, ext) < m <= |s| ==> !IsTerm(s[..m], ext)
  {
    var c, w := Chain(s, ext), Run(s, ext);
    var joined := ChainIsJoined(s, ext);
    forall m | 0 < m <= |s| && IsTerm(s[..m], ext) ensures m <= TermLength(s, ext) {
      ChainIsMaximal(s, m, ext);
      if c == w { InnerOfPrefix(s, m, w, ext); }
    }
    if c > w {
      RunStops(s, ext);
      assert s[..c][w] == s[w];
    } else if InnerUnderscore(s, w) {
      var k :| 1 <= k < w - 1 && s[k] == '_';
      assert s[..w][k] == '_';
    }
  }

  /** In a run of word characters only an underscore inside makes a term. */
  lemma InnerOfPrefix(s: string, m: nat, w: nat, ext: char -> bool)
    requires m <= w <= |s| && IsTerm(s[..m], ext) && forall k :: 0 <= k < w ==> IsWord(s[k], ext)
    ensures InnerUnderscore(s, w)
  {
    var t := s[..m];
    var i :| 0 < i < m - 1 && (t[i] == '.' || t[i] == '-' || t[i] == '_');
    assert t[i] == s[i];
  }

  /** No stretch of the text that starts at a word start is a term. */
  ghost predicate NoTermStarts(z: string, ext: char -> bool) {
    forall a, t, b :: z == a + t + b && (a == [] || !IsWord(a[|a| - 1], ext)) ==> !IsTerm(t, ext)
  }

  /** Text that step 5 leaves alone starts with no term, and so does what stands
      behind its first character or word run. */
  lemma UnchangedStart(z: string, ext: char -> bool) returns (n: nat)
    requires z != [] && QuoteTerms(z, ext) == z
    ensures 0 < n <= |z| && QuoteTerms(z[n..], ext) == z[n..]
    ensures forall k :: 0 <= k < n && n > 1 ==> IsWord(z[k], ext)
    ensures IsWord(z[0], ext) ==> TermLength(z, ext) == 0
  {
    n := QuoteTermsStep(z, ext);
    var a, rest := z[..n], QuoteTerms(z[n..], ext);
    QuotedHead(a, rest, z);
    assert a + rest == z;
    SameBehind(a, rest, z, n);
  }

  lemma QuotedHead(a: string, rest: string, z: string)
    ensures z == "\"" + a + "\"" + rest ==> z[0] == '"'
  {
  }

  lemma SameBehind(a: string, rest: string, z: string, n: nat)
    requires n <= |z| && a == z[..n] && a + rest == z
    ensures rest == z[n..]
  {
  }

  /** A word start stands behind the first character or word run before it. */
  lemma StartIsBehind(a: string, y: string, n: nat, ext: char -> bool)
    requires a != [] && y != [] && !IsWord(a[|a| - 1], ext) && 0 < n <= |a + y|
    requires forall k :: 0 <= k < n && n > 1 ==> IsWord((a + y)[k], ext)
    ensures n <= |a| && (a + y)[n..] == a[n..] + y && (a[n..] != [] ==> a[n..][|a| - n - 1] == a[|a| - 1])
  {
    assert (a + y)[|a| - 1] == a[|a| - 1];
  }

  lemma UnchangedBehind(a: string, y: string, ext: char -> bool) returns (b: string)
    requires QuoteTerms(a + y, ext) == a + y && y != []
    requires a != [] && !IsWord(a[|a| - 1], ext)
    ensures |b| < |a| && QuoteTerms(b + y, ext) == b + y && (b == [] || !IsWord(b[|b| - 1], ext))
  {
    var n := UnchangedStart(a + y, ext);
    StartIsBehind(a, y, n, ext);
    b := a[n..];
  }

  lemma UnchangedHead(y: string, ext: char -> bool)
    requires QuoteTerms(y, ext) == y && y != [] && IsWord(y[0], ext)
    ensures TermLength(y, ext) == 0
  {
    var n := UnchangedStart(y, ext);
  }

  /** No term starts at a word start of text that step 5 leaves alone. */
  lemma {:induction false} UnchangedHasNoTerm(a: string, y: string, ext: char -> bool)
    requires QuoteTerms(a + y, ext) == a + y && y != [] && IsWord(y[0], ext)
    requires a == [] || !IsWord(a[|a| - 1], ext)
    ensures TermLength(y, ext) == 0
    decreases |a|
  {
    if a == [] {
      assert a + y == y;
      UnchangedHead(y, ext);
    } else {
      var b := UnchangedBehind(a, y, ext);
      UnchangedHasNoTerm(b, y, ext);
    }
  }

  /** No term starts behind `a`. */
  lemma NoTermBehind(a: string, y: string, k: nat, ext: char -> bool)
    requires QuoteTerms(a + y, ext) == a + y && 0 < k <= |y|
    requires a == [] || !IsWord(a[|a| - 1], ext)
    ensures !IsTerm(y[..k], ext)
  {
    if IsWord(y[0], ext) {
      UnchangedHasNoTerm(a, y, ext);
      NoTermAt(y, k, ext);
    } else {
      NoTermHere(y, k, ext);
    }
  }

  lemma NoTermInside(z: string, a: string, t: string, b: string, ext: char -> bool)
    requires QuoteTerms(z, ext) == z && z == a + t + b && (a == [] || !IsWord(a[|a| - 1], ext))
    ensures !IsTerm(t, ext)
  {
    if t != [] {
      var y := t + b;
      Assoc(a, t, b);
      NoTermBehind(a, y, |t|, ext);
      assert y[..|t|] == t;
    }
  }

  lemma UnchangedIsTermFree(z: string, ext: char -> bool)
    requires QuoteTerms(z, ext) == z
    ensures NoTermStarts(z, ext)
  {
    forall a, t, b | z == a + t + b && (a == [] || !IsWord(a[|a| - 1], ext)) ensures !IsTerm(t, ext) {
      NoTermInside(z, a, t, b, ext);
    }
  }

  lemma NoTermAt(s: string, m: nat, ext: char -> bool)
    requires 0 < m <= |s| && IsWord(s[0], ext) && TermLength(s, ext) == 0
    ensures !IsTerm(s[..m], ext)
  {
    QuotesLongestTerm(s, ext);
  }

  lemma NoTermHere(s: string, m: nat, ext: char -> bool)
    requires 0 < m <= |s| && !IsWord(s[0], ext)
    ensures !IsTerm(s[..m], ext)
  {
    assert s[..m][0] == s[0];
  }

  lemma TermStartsWithWord(t: string, ext: char -> bool)
    requires TermLength(t, ext) > 0
    ensures t != [] && IsWord(t[0], ext)
  {
  }

  /** Step 5 puts quotes around whole terms and leaves no term outside quotes. */
  lemma QuotesExactlyTerms(s: string, ext: char -> bool)
    requires QuoteFree(s)
    ensures forall t :: t in Quoted(QuoteTerms(s, ext)) ==> IsTerm(t, ext)
    ensures NoTermStarts(Outside(QuoteTerms(s, ext)), ext)
  {
    ExactlyTheTerms(s, ext);
    forall t | t in Quoted(QuoteTerms(s, ext)) ensures IsTerm(t, ext) {
      assert TermLength(t, ext) == |t| > 0;
      assert t[..|t|] == t;
      TermStartsWithWord(t, ext);
      QuotesLongestTerm(t, ext);
    }
    UnchangedIsTermFree(Outside(QuoteTerms(s, ext)), ext);
  }

  predicate IsPlainWord(w: string) {
    w != []
    && forall i :: 0 <= i < |w| ==>
         'a' <= w[i] <= 'z' || 'A' <= w[i] <= 'Z' || '0' <= w[i] <= '9' || w[i] == '_'
  }

  lemma PlainChar(a: string, d: char, b: string, i: nat)
    requires IsPlainWord(a) && IsPlainWord(b) && i < |a| + 1 + |b| && i != |a|
    ensures var c := (a + [d] + b)[i]; 'a' <= c <= 'z' || 'A' <= c <= 'Z' || '0' <= c <= '9' || c == '_'
  {
    if i < |a| { assert (a + [d] + b)[i] == a[i]; } else { assert (a + [d] + b)[i] == b[i - |a| - 1]; }
  }

  lemma PlainTerm(a: string, d: char, b: string, ext: char -> bool)
    requires IsPlainWord(a) && IsPlainWord(b) && (d == '.' || d == '-' || d == '_')
    ensures IsTerm(a + [d] + b, ext)
  {
    var t := a + [d] + b;
    assert t[|a|] == d;
    forall i: nat | i < |t| && i != |a| ensures IsWord(t[i], ext) { PlainChar(a, d, b, i); }
  }

  /** Two words of letters, digits and underscores joined by a dot, a hyphen or an
      underscore are quoted as one. */
  lemma JoinedWordsAreQuoted(a: string, d: char, b: string, ext: char -> bool)
    requires IsPlainWord(a) && IsPlainWord(b) && (d == '.' || d == '-' || d == '_')
    ensures QuoteTerms(a + [d] + b, ext) == "\"" + (a + [d] + b) + "\""
  {
    var t := a + [d] + b;
    PlainTerm(a, d, b, ext);
    QuotesLongestTerm(t, ext);
    assert t[..|t|] == t;
    var m := QuoteTermsStep(t, ext);
    assert m == |t| && t[m..] == [];
  }
}
