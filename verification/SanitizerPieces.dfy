/** Steps 2 to 5 of the sanitizer never look across a placeholder: they act on
    each piece of bare text on its own and keep every placeholder as it is. */
module SanitizerPieces {
  import opened PyString
  import opened QuerySanitizer
  import SearchQuery

  // ------------------------------------------------------- text and marks

  /** Bare pieces with numbered placeholders between them. */
  function Weave(bares: seq<string>, n: nat): string
    requires bares != []
  {
    if |bares| == 1 then bares[0] else bares[0] + (Mark(n) + Weave(bares[1..], n + 1))
  }

  /** Bare pieces with phrases between them. */
  function WeaveText(bares: seq<string>, phrases: seq<string>): string
    requires |bares| == |phrases| + 1
  {
    if phrases == [] then bares[0] else bares[0] + (phrases[0] + WeaveText(bares[1..], phrases[1..]))
  }

  predicate IsPhrase(p: string) {
    |p| >= 2 && p[0] == '"' && p[|p| - 1] == '"' && forall k :: 0 < k < |p| - 1 ==> p[k] != '"'
  }

  lemma {:induction false} TextOfPieces(s: string)
    ensures WeaveText(Bares(s), Phrases(s)) == s
    decreases |s|
  {
    var (i, j) := FirstPhrase(s);
    if i < j {
      TextOfPieces(s[j..]);
      var b, p := Bares(s), Phrases(s);
      assert b[1..] == Bares(s[j..]) && p[1..] == Phrases(s[j..]) && b[0] == s[..i] && p[0] == s[i..j];
      CutTwice(s, i, j);
    }
  }

  lemma CutTwice(s: string, i: nat, j: nat)
    requires i <= j <= |s|
    ensures s == s[..i] + (s[i..j] + s[j..])
  {
  }

  lemma {:induction false} PhrasesAreQuoted(s: string)
    ensures forall k :: 0 <= k < |Phrases(s)| ==> IsPhrase(Phrases(s)[k])
    decreases |s|
  {
    var (i, j) := FirstPhrase(s);
    if i < j {
      PhrasesAreQuoted(s[j..]);
      QuotedSlice(s, i, j);
      var rest := Phrases(s[j..]);
      assert Phrases(s) == [s[i..j]] + rest;
    }
  }

  lemma QuotedSlice(s: string, i: nat, j: nat)
    requires i + 2 <= j <= |s| && s[i] == '"' && s[j - 1] == '"'
    requires forall k :: i < k < j - 1 ==> s[k] != '"'
    ensures IsPhrase(s[i..j])
  {
    assert forall k :: 0 <= k < j - i ==> s[i..j][k] == s[i + k];
  }

  /** A quote that has no partner. */
  predicate AtMostOneQuote(b: string) { forall k, m :: 0 <= k < m < |b| ==> !(b[k] == '"' && b[m] == '"') }

  predicate NoPhraseLeft(b: seq<string>) {
    b != [] && (forall k :: 0 <= k < |b| - 1 ==> '"' !in b[k]) && AtMostOneQuote(b[|b| - 1])
  }

  /** No phrase is left outside: the pieces have no quotes but the last, which has
      one at most. */
  lemma {:induction false} BaresHoldNoPhrase(s: string)
    ensures NoPhraseLeft(Bares(s))
    decreases |s|
  {
    var (i, j) := FirstPhrase(s);
    if i < j {
      BaresHoldNoPhrase(s[j..]);
      assert forall k :: 0 <= k < i ==> s[..i][k] == s[k];
      OneMoreBare(s[..i], Bares(s[j..]));
    }
  }

  lemma OneMoreBare(a: string, b: seq<string>)
    requires '"' !in a && NoPhraseLeft(b)
    ensures NoPhraseLeft([a] + b)
  {
    var r := [a] + b;
    forall k | 0 <= k < |r| - 1 ensures '"' !in r[k] {
      if k > 0 { assert r[k] == b[k - 1]; }
    }
  }

  lemma {:induction false} ProtectIsWeave(s: string, n: nat)
    ensures Protect(s, n) == Weave(Bares(s), n)
    decreases |s|
  {
    var (i, j) := FirstPhrase(s);
    if i < j {
      ProtectIsWeave(s[j..], n + 1);
      assert Bares(s)[1..] == Bares(s[j..]);
    }
  }

  // ---------------------------------------------------------------- labels

  predicate Alnum(s: string) {
    forall i :: 0 <= i < |s| ==> 'A' <= s[i] <= 'Z' || 'a' <= s[i] <= 'z' || '0' <= s[i] <= '9'
  }

  lemma {:induction false} DecIsAlnum(n: nat)
    ensures Alnum(Dec(n)) && Dec(n) != []
  {
    if n >= 10 { DecIsAlnum(n / 10); }
    var d := (n % 10) as char + '0';
    assert '0' <= d <= '9';
  }

  lemma LabelIsAlnum(n: nat)
    ensures Alnum(Label(n)) && Label(n) != []
  {
    DecIsAlnum(n);
  }

  lemma {:induction false} DecIsInjective(a: nat, b: nat)
    requires Dec(a) == Dec(b)
    ensures a == b
    decreases a + b
  {
    var x, y := Dec(a), Dec(b);
    assert (a % 10) as char + '0' == x[|x| - 1] == y[|y| - 1] == (b % 10) as char + '0';
    assert a % 10 == b % 10;
    if a >= 10 { DecIsAlnum(a / 10); }
    if b >= 10 { DecIsAlnum(b / 10); }
    assert (a >= 10) == (|x| > 1) && (b >= 10) == (|y| > 1);
    if a >= 10 {
      assert Dec(a / 10) == x[..|x| - 1] && Dec(b / 10) == y[..|y| - 1];
      DecIsInjective(a / 10, b / 10);
    }
  }

  lemma LabelsDiffer(a: nat, b: nat)
    ensures Label(a) == Label(b) <==> a == b
  {
    if Label(a) == Label(b) {
      assert Dec(a) == Label(a)[1..] && Dec(b) == Label(b)[1..];
      DecIsInjective(a, b);
    }
  }

  // ------------------------------------------------- steps 2 and 3 by piece

  predicate Walled(z: string) { z != [] && z[0] == NUL }

  lemma Assoc(a: string, b: string, c: string)
    ensures a + b + c == a + (b + c)
  {
  }

  lemma MarkShape(n: nat, r: string)
    ensures Mark(n) + r == [NUL] + (Label(n) + ([NUL] + r))
  {
  }

  function Piece(s: string, atStart: bool): string { DropStars(Collapse(Blank(s)), atStart) }

  lemma {:induction false} BlankConcat(a: string, b: string)
    ensures Blank(a + b) == Blank(a) + Blank(b)
  {
    if a == [] {
      assert a + b == b;
    } else {
      assert (a + b)[1..] == a[1..] + b;
      BlankConcat(a[1..], b);
    }
  }

  lemma {:induction false} CollapseWall(a: string, z: string)
    requires Walled(z)
    ensures Collapse(a + z) == Collapse(a) + Collapse(z)
  {
    var s := a + z;
    if a == [] {
      assert s == z;
    } else {
      CollapseWall(a[1..], z);
      assert s[0] == a[0] && s[1..] == a[1..] + z;
      assert s[1] == if |a| > 1 then a[1] else NUL;
      Assoc([a[0]], Collapse(a[1..]), Collapse(z));
    }
  }

  lemma {:induction false} DropStarsWall(a: string, z: string, atStart: bool)
    requires Walled(z)
    ensures DropStars(a + z, atStart) == DropStars(a, atStart) + DropStars(z, false)
    decreases |a|
  {
    var s := a + z;
    if a == [] {
      assert s == z;
    } else if atStart && a[0] == '*' {
      assert s[1..] == a[1..] + z;
      DropStarsWall(a[1..], z, false);
    } else if IsSpace(a[0]) && |a| > 1 && a[1] == '*' {
      assert s[2..] == a[2..] + z;
      DropStarsWall(a[2..], z, false);
      Assoc([a[0]], DropStars(a[2..], false), DropStars(z, false));
    } else {
      assert s[1..] == a[1..] + z;
      assert s[0] == a[0] && (|s| > 1 && s[1] == '*' ==> |a| > 1 && a[1] == '*');
      DropStarsWall(a[1..], z, false);
      Assoc([a[0]], DropStars(a[1..], false), DropStars(z, false));
    }
  }

  lemma PieceWall(a: string, z: string, atStart: bool)
    requires Walled(z)
    ensures Piece(a + z, atStart) == Piece(a, atStart) + Piece(z, false)
  {
    BlankConcat(a, z);
    CollapseWall(Blank(a), Blank(z));
    DropStarsWall(Collapse(Blank(a)), Collapse(Blank(z)), atStart);
  }

  /** Text of letters and digits only comes out of steps 2 and 3 exactly when it
      went in. */
  lemma PieceKeepsWords(z: string, t: string)
    requires Alnum(t)
    ensures Piece(z, false) == t <==> z == t
  {
    BlankKeepsWords(z, t);
    CollapseKeepsWords(Blank(z), t);
    DropStarsKeepsWords(Collapse(Blank(z)), t);
  }

  lemma {:induction false} BlankKeepsWords(z: string, t: string)
    requires Alnum(t)
    ensures Blank(z) == t <==> z == t
  {
    if z != [] {
      var r := Blank(z);
      assert r[1..] == Blank(z[1..]);
      if t != [] {
        assert Alnum(t[1..]);
        BlankKeepsWords(z[1..], t[1..]);
        assert r == t <==> r[0] == t[0] && r[1..] == t[1..];
        assert z == t <==> z[0] == t[0] && z[1..] == t[1..] by { assert z == [z[0]] + z[1..] && t == [t[0]] + t[1..]; }
      }
    }
  }

  lemma {:induction false} CollapseHead(s: string)
    requires s != []
    ensures Collapse(s) != [] && Collapse(s)[0] == s[0]
  {
    if |s| > 1 { CollapseHead(s[1..]); }
  }

  lemma {:induction false} CollapseKeepsWords(z: string, t: string)
    requires Alnum(t)
    ensures Collapse(z) == t <==> z == t
  {
    if z != [] {
      CollapseHead(z);
      if t != [] && z[0] != '*' {
        assert Alnum(t[1..]);
        CollapseKeepsWords(z[1..], t[1..]);
        assert Collapse(z)[1..] == Collapse(z[1..]);
        assert Collapse(z) == t <==> z[0] == t[0] && Collapse(z)[1..] == t[1..];
        assert z == [z[0]] + z[1..] && t == [t[0]] + t[1..];
      }
    }
  }

  lemma {:induction false} DropStarsKeepsWords(z: string, t: string)
    requires Alnum(t)
    ensures DropStars(z, false) == t <==> z == t
  {
    if z != [] {
      var r := DropStars(z, false);
      assert r[0] == z[0];
      if t != [] && !IsSpace(z[0]) {
        assert Alnum(t[1..]);
        DropStarsKeepsWords(z[1..], t[1..]);
        assert r[1..] == DropStars(z[1..], false);
        assert r == t <==> r[0] == t[0] && r[1..] == t[1..];
        assert z == [z[0]] + z[1..] && t == [t[0]] + t[1..];
      }
    }
  }

  lemma PieceMark(n: nat, r: string)
    ensures Piece(Mark(n) + r, false) == Mark(n) + Piece(r, false)
  {
    MarkShape(n, r);
    PieceWall(Label(n), [NUL] + r, false);
    LabelIsAlnum(n);
    PieceKeepsWords(Label(n), Label(n));
    MarkShape(n, Piece(r, false));
  }

  // ------------------------------------------------------ step 5 by piece

  lemma {:induction false} RunWall(a: string, z: string, ext: char -> bool)
    requires Walled(z)
    ensures Run(a + z, ext) == Run(a, ext)
  {
    if a != [] {
      assert (a + z)[1..] == a[1..] + z;
      RunWall(a[1..], z, ext);
    } else {
      assert a + z == z;
    }
  }

  lemma {:induction false} ChainWall(a: string, z: string, ext: char -> bool)
    requires Walled(z)
    ensures Chain(a + z, ext) == Chain(a, ext)
    decreases |a|
  {
    var s, w := a + z, Run(a, ext);
    RunWall(a, z, ext);
    JoinsWall(a, z, w, ext);
    if Joins(a, w, ext) {
      CutBoth(a, z, w + 1);
      ChainWall(a[w + 1..], z, ext);
    }
  }

  lemma JoinsWall(a: string, z: string, w: nat, ext: char -> bool)
    requires Walled(z) && w <= |a|
    ensures Joins(a + z, w, ext) == Joins(a, w, ext)
  {
    var s := a + z;
    assert forall k :: 0 <= k <= |a| ==> s[k] == if k < |a| then a[k] else NUL;
  }

  lemma TermWall(a: string, z: string, ext: char -> bool)
    requires Walled(z)
    ensures TermLength(a + z, ext) == TermLength(a, ext)
  {
    RunWall(a, z, ext);
    ChainWall(a, z, ext);
    var w := Run(a, ext);
    assert InnerUnderscore(a + z, w) == InnerUnderscore(a, w) by {
      assert forall k :: 0 <= k < w ==> (a + z)[k] == a[k];
    }
  }

  lemma {:induction false} QuoteTermsWall(a: string, z: string, ext: char -> bool)
    requires Walled(z)
    ensures QuoteTerms(a + z, ext) == QuoteTerms(a, ext) + QuoteTerms(z, ext)
    decreases |a|
  {
    var s := a + z;
    if a == [] {
      assert s == z;
    } else {
      TermWall(a, z, ext);
      RunWall(a, z, ext);
      var m := QuoteTermsStep(a, ext);
      var k := QuoteTermsStep(s, ext);
      assert s[0] == a[0] && k == m;
      CutBoth(a, z, m);
      QuoteTermsWall(a[m..], z, ext);
      var rest := QuoteTerms(a[m..], ext);
      if IsWord(a[0], ext) && TermLength(a, ext) > 0 {
        Assoc("\"" + a[..m] + "\"", rest, QuoteTerms(z, ext));
      } else {
        Assoc(a[..m], rest, QuoteTerms(z, ext));
      }
    }
  }

  lemma CutBoth(a: string, z: string, m: nat)
    requires m <= |a|
    ensures (a + z)[..m] == a[..m] && (a + z)[m..] == a[m..] + z
  {
  }

  /** One turn of step 5: `m` characters are read, quoted when they are a term. */
  lemma QuoteTermsStep(s: string, ext: char -> bool) returns (m: nat)
    requires s != []
    ensures m == if !IsWord(s[0], ext) then 1 else if TermLength(s, ext) > 0 then TermLength(s, ext) else Run(s, ext)
    ensures 0 < m <= |s|
    ensures QuoteTerms(s, ext)
         == (if IsWord(s[0], ext) && TermLength(s, ext) > 0 then "\"" + s[..m] + "\"" else s[..m])
            + QuoteTerms(s[m..], ext)
  {
    m := if !IsWord(s[0], ext) then 1 else if TermLength(s, ext) > 0 then TermLength(s, ext) else Run(s, ext);
  }

  lemma {:induction false} RunOfAlnum(t: string, ext: char -> bool)
    requires Alnum(t)
    ensures Run(t, ext) == |t|
  {
    if t != [] {
      assert Alnum(t[1..]);
      RunOfAlnum(t[1..], ext);
    }
  }

  /** Text without a quote comes out of step 5 only when it went in. */
  lemma {:induction false} UnquotedIsKept(d: string, ext: char -> bool)
    requires '"' !in QuoteTerms(d, ext)
    ensures QuoteTerms(d, ext) == d
    decreases |d|
  {
    if d != [] {
      var m := QuoteTermsStep(d, ext);
      var a, rest := d[..m], QuoteTerms(d[m..], ext);
      if IsWord(d[0], ext) && TermLength(d, ext) > 0 {
        StartsQuoted(a, rest);
      } else {
        InTail(a, rest);
        UnquotedIsKept(d[m..], ext);
        HeadAndTail(d, m);
      }
    }
  }

  lemma InTail(a: string, rest: string)
    ensures '"' in rest ==> '"' in a + rest
  {
  }

  lemma HeadAndTail(s: string, m: nat)
    requires m <= |s|
    ensures s == s[..m] + s[m..]
  {
  }

  lemma StartsQuoted(a: string, rest: string)
    ensures '"' in "\"" + a + "\"" + rest
  {
    assert ("\"" + a + "\"" + rest)[0] == '"';
  }

  lemma QuoteTermsKeepsWords(d: string, t: string, ext: char -> bool)
    requires Alnum(t)
    ensures QuoteTerms(d, ext) == t <==> d == t
  {
    if QuoteTerms(d, ext) == t {
      UnquotedIsKept(d, ext);
    }
    if d == t && t != [] {
      RunOfAlnum(t, ext);
      assert t[..|t|] == t && t[|t|..] == [];
    }
  }

  lemma QuoteTermsMark(n: nat, r: string, ext: char -> bool)
    ensures QuoteTerms(Mark(n) + r, ext) == Mark(n) + QuoteTerms(r, ext)
  {
    MarkShape(n, r);
    QuoteTermsWall(Label(n), [NUL] + r, ext);
    LabelIsAlnum(n);
    QuoteTermsKeepsWords(Label(n), Label(n), ext);
    MarkShape(n, QuoteTerms(r, ext));
  }

  // ------------------------------------------------------ step 4 by piece

  /** What step 4 does to the text before the first placeholder. */
  function Front(a: string, ext: char -> bool): string { DropLeadingOp(LStrip(a, IsSpace), ext) }

  /** What step 4 does to the text behind the last placeholder. */
  function Back(b: string): string { DropTrailingOp(RStrip(b, IsSpace)) }

  lemma LStripIs(s: string, k: nat)
    requires k <= |s| && (forall i :: 0 <= i < k ==> IsSpace(s[i])) && (k < |s| ==> !IsSpace(s[k]))
    ensures LStrip(s, IsSpace) == s[k..]
  {
    var r := LStrip(s, IsSpace);
    LStripSound(s, IsSpace);
    assert |s| - |r| == k;
  }

  lemma LStripWall(a: string, z: string)
    requires Walled(z)
    ensures LStrip(a + z, IsSpace) == LStrip(a, IsSpace) + z
  {
    var r := LStrip(a, IsSpace);
    LStripSound(a, IsSpace);
    StripStops(a, z, r, |a| - |r|);
  }

  lemma StripStops(a: string, z: string, r: string, k: nat)
    requires Walled(z) && k <= |a| && r == a[k..] && (r != [] ==> !IsSpace(r[0]))
    requires forall i :: 0 <= i < k ==> IsSpace(a[i])
    ensures LStrip(a + z, IsSpace) == r + z
  {
    var s := a + z;
    assert forall i :: 0 <= i < k ==> s[i] == a[i];
    assert s[k] == if r == [] then NUL else r[0];
    LStripIs(s, k);
    CutBoth(a, z, k);
  }

  lemma RStripIs(s: string, n: nat)
    requires n <= |s| && (forall i :: n <= i < |s| ==> IsSpace(s[i])) && (n > 0 ==> !IsSpace(s[n - 1]))
    ensures RStrip(s, IsSpace) == s[..n]
  {
    var r := RStrip(s, IsSpace);
    RStripSound(s, IsSpace);
    assert |r| == n;
  }

  lemma RStripWall(a: string, x: string)
    ensures RStrip(a + [NUL] + x, IsSpace) == a + [NUL] + RStrip(x, IsSpace)
  {
    RStripBehind(a + [NUL], x);
  }

  /** Stripping stops at a character that is no white space. */
  lemma {:induction false} RStripBehind(b: string, x: string)
    requires b != [] && !IsSpace(b[|b| - 1])
    ensures RStrip(b + x, IsSpace) == b + RStrip(x, IsSpace)
    decreases |x|
  {
    var s := b + x;
    if x == [] {
      assert s == b;
    } else {
      assert s[|s| - 1] == x[|x| - 1] && s[..|s| - 1] == b + x[..|x| - 1];
      RStripBehind(b, x[..|x| - 1]);
    }
  }

  lemma UpperAt(s: string, i: nat)
    requires i < |s|
    ensures SearchQuery.Upper(s)[i] == SearchQuery.UpperAscii(s[i])
  {
  }

  lemma BeginsWall(a: string, z: string, op: string)
    requires Walled(z) && NUL !in op
    ensures Begins(a + z, op) == Begins(a, op)
  {
    if |op| <= |a| {
      assert (a + z)[..|op|] == a[..|op|];
    } else if |op| <= |a + z| {
      UpperAt((a + z)[..|op|], |a|);
    }
  }

  lemma FrontWall(a: string, z: string, ext: char -> bool)
    requires Walled(z)
    ensures DropLeadingOp(a + z, ext) == DropLeadingOp(a, ext) + z
  {
    BeginsWall(a, z, "AND");
    BeginsWall(a, z, "OR");
    BeginsWall(a, z, "NOT");
    assert LeadingOp(a + z, ext) == LeadingOp(a, ext);
    var n := LeadingOp(a, ext);
    assert (a + z)[n..] == a[n..] + z;
    LStripWall(a[n..], z);
  }

  lemma EndsWall(a: string, x: string, op: string)
    requires NUL !in op
    ensures Ends(a + [NUL] + x, op) == Ends(x, op)
  {
    var s := a + [NUL] + x;
    if |op| <= |x| {
      assert s[|s| - |op|..] == x[|x| - |op|..];
      assert s[|s| - |op| - 1] == if |op| < |x| then x[|x| - |op| - 1] else NUL;
    } else if |op| < |s| {
      UpperAt(s[|s| - |op|..], |op| - |x| - 1);
    }
  }

  lemma BackWall(a: string, x: string)
    ensures DropTrailingOp(a + [NUL] + x) == a + [NUL] + DropTrailingOp(x)
  {
    var t := RStrip(x, IsSpace);
    RStripWall(a, x);
    TrailingOpWall(a, t);
    ChopWall(a, t, TrailingOp(t));
  }

  lemma ChopWall(a: string, t: string, n: nat)
    requires n <= |t|
    ensures Chop(a + [NUL] + t, n) == a + [NUL] + Chop(t, n)
  {
    CutBehind(a, t, n);
    RStripWall(a, t[..|t| - n]);
  }

  lemma CutBehind(a: string, t: string, n: nat)
    requires n <= |t|
    ensures var u := a + [NUL] + t; u[..|u| - n] == a + [NUL] + t[..|t| - n]
  {
  }

  lemma TrailingOpWall(a: string, x: string)
    ensures TrailingOp(a + [NUL] + x) == TrailingOp(x)
  {
    EndsWall(a, x, "AND");
    EndsWall(a, x, "OR");
    EndsWall(a, x, "NOT");
  }

  lemma BackByPiece(a: string, x: string)
    ensures Back(a + ([NUL] + x)) == a + ([NUL] + Back(x))
  {
    var y := RStrip(x, IsSpace);
    Assoc(a, [NUL], x);
    RStripWall(a, x);
    BackWall(a, y);
    Assoc(a, [NUL], DropTrailingOp(y));
  }

  lemma OpsByPiece(a: string, x: string, ext: char -> bool)
    ensures DropOps(a + ([NUL] + x), ext) == Front(a, ext) + ([NUL] + Back(x))
  {
    var y, l := RStrip(x, IsSpace), LStrip(a, IsSpace);
    var f := DropLeadingOp(l, ext);
    StripWall(a, x);
    FrontWall(l, [NUL] + y, ext);
    StripWall(f, y);
    LStripTwice(a);
    LeadStripped(l, ext);
    RStripTwice(x);
    Assoc(f, [NUL], y);
    BackWall(f, y);
    Assoc(f, [NUL], DropTrailingOp(y));
  }

  lemma RStripTwice(x: string)
    ensures RStrip(RStrip(x, IsSpace), IsSpace) == RStrip(x, IsSpace)
  {
    RStripSound(x, IsSpace);
  }

  lemma LStripTwice(x: string)
    ensures LStrip(LStrip(x, IsSpace), IsSpace) == LStrip(x, IsSpace)
  {
    LStripSound(x, IsSpace);
  }

  lemma LeadStripped(l: string, ext: char -> bool)
    requires LStrip(l, IsSpace) == l
    ensures LStrip(DropLeadingOp(l, ext), IsSpace) == DropLeadingOp(l, ext)
  {
    LStripTwice(l[LeadingOp(l, ext)..]);
  }

  lemma StripWall(a: string, x: string)
    ensures StripSpace(a + ([NUL] + x)) == LStrip(a, IsSpace) + ([NUL] + RStrip(x, IsSpace))
  {
    var l := LStrip(a, IsSpace);
    LStripWall(a, [NUL] + x);
    Assoc(l, [NUL], x);
    RStripWall(l, x);
    Assoc(l, [NUL], RStrip(x, IsSpace));
  }

  // -------------------------------------------------------- the whole pass

  /** What steps 2 to 5 make of the pieces of bare text. */
  function CleanBares(bares: seq<string>, ext: char -> bool): (r: seq<string>)
    requires bares != []
    ensures |r| == |bares|
  {
    if |bares| == 1 then [Cleaned(bares[0], ext)]
    else [QuoteTerms(Front(Piece(bares[0], true), ext), ext)] + CleanTail(bares[1..], ext)
  }

  function CleanTail(bares: seq<string>, ext: char -> bool): (r: seq<string>)
    requires bares != []
    ensures |r| == |bares|
  {
    if |bares| == 1 then [QuoteTerms(Back(Piece(bares[0], false)), ext)]
    else [Inner(bares[0], ext)] + CleanTail(bares[1..], ext)
  }

  function Inner(b: string, ext: char -> bool): string { QuoteTerms(Piece(b, false), ext) }

  lemma {:induction false} TailByPiece(bares: seq<string>, n: nat, ext: char -> bool)
    requires bares != []
    ensures QuoteTerms(Back(Piece(Weave(bares, n), false)), ext) == Weave(CleanTail(bares, ext), n)
  {
    if |bares| > 1 {
      var w := Weave(bares[1..], n + 1);
      var b, x := Piece(bares[0], false), Piece(w, false);
      TailBeforeMark(bares[0], n, w, ext);
      TailByPiece(bares[1..], n + 1, ext);
      var r := CleanTail(bares, ext);
      assert r[1..] == CleanTail(bares[1..], ext) && r[0] == Inner(bares[0], ext);
    }
  }

  lemma TailBeforeMark(a: string, n: nat, w: string, ext: char -> bool)
    ensures QuoteTerms(Back(Piece(a + (Mark(n) + w), false)), ext)
         == Inner(a, ext) + (Mark(n) + QuoteTerms(Back(Piece(w, false)), ext))
  {
    PieceWall(a, Mark(n) + w, false);
    PieceMark(n, w);
    var b, x := Piece(a, false), Piece(w, false);
    BackBeforeMark(b, n, x);
    QuoteTermsWall(b, Mark(n) + Back(x), ext);
    QuoteTermsMark(n, Back(x), ext);
  }

  lemma BackBeforeMark(b: string, n: nat, x: string)
    ensures Back(b + (Mark(n) + x)) == b + (Mark(n) + Back(x))
  {
    MarkEnds(b, n, x);
    BackByPiece(b + ([NUL] + Label(n)), x);
    MarkEnds(b, n, Back(x));
  }

  lemma MarkEnds(b: string, n: nat, x: string)
    ensures b + (Mark(n) + x) == b + ([NUL] + Label(n)) + ([NUL] + x)
  {
  }

  /** Steps 2 to 5 on the protected text are the same steps on each bare piece
      alone: the operators go only from the two outer ends, and every
      placeholder comes out as it went in. */
  lemma CleanedByPiece(bares: seq<string>, ext: char -> bool)
    requires bares != []
    ensures Cleaned(Weave(bares, 0), ext) == Weave(CleanBares(bares, ext), 0)
  {
    if |bares| > 1 {
      HeadBeforeMark(bares[0], Weave(bares[1..], 1), ext);
      TailByPiece(bares[1..], 1, ext);
      var r := CleanBares(bares, ext);
      assert r[1..] == CleanTail(bares[1..], ext);
    }
  }

  lemma HeadBeforeMark(a: string, w: string, ext: char -> bool)
    ensures Cleaned(a + (Mark(0) + w), ext)
         == QuoteTerms(Front(Piece(a, true), ext), ext) + (Mark(0) + QuoteTerms(Back(Piece(w, false)), ext))
  {
    PieceWall(a, Mark(0) + w, true);
    PieceMark(0, w);
    var b, x := Piece(a, true), Piece(w, false);
    MarkShape(0, x);
    OpsByPiece(b, Label(0) + ([NUL] + x), ext);
    BackByPiece(Label(0), x);
    MarkShape(0, Back(x));
    QuoteTermsWall(Front(b, ext), Mark(0) + Back(x), ext);
    QuoteTermsMark(0, Back(x), ext);
  }

  /** A bare piece between two placeholders comes out as the text of a label
      exactly when it was that text in the query. */
  lemma {:induction false} TailKeepsLabels(bares: seq<string>, m: nat, j: nat, ext: char -> bool)
    requires m < |bares| - 1
    ensures CleanTail(bares, ext)[m] == Label(j) <==> bares[m] == Label(j)
  {
    LabelIsAlnum(j);
    if m == 0 {
      PieceKeepsWords(bares[0], Label(j));
      QuoteTermsKeepsWords(Piece(bares[0], false), Label(j), ext);
    } else {
      TailKeepsLabels(bares[1..], m - 1, j, ext);
    }
  }

  lemma InnerLabels(bares: seq<string>, m: nat, j: nat, ext: char -> bool)
    requires 0 < m < |bares| - 1
    ensures CleanBares(bares, ext)[m] == Label(j) <==> bares[m] == Label(j)
  {
    TailKeepsLabels(bares[1..], m - 1, j, ext);
  }
}
