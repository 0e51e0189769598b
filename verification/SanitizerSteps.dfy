/** What each step of the sanitizer does to a piece of bare text: the words stay,
    loose stars go, and step 5 quotes exactly the joined terms. */
module SanitizerSteps {
  import opened PyString
  import opened QuerySanitizer
  import opened SanitizerPieces
  import opened SanitizerProofs
  import SearchQuery

  // ------------------------------------------------------- the words stay

  /** A character that carries meaning outside the query syntax. */
  predicate Carries(c: char) { !IsSpace(c) && !IsSpecial(c) && c != '*' }

  function Text(s: string): string {
    if s == [] then [] else (if Carries(s[0]) then [s[0]] else []) + Text(s[1..])
  }

  lemma {:induction false} TextConcat(a: string, b: string)
    ensures Text(a + b) == Text(a) + Text(b)
  {
    if a == [] {
      assert a + b == b;
    } else {
      assert (a + b)[1..] == a[1..] + b;
      TextConcat(a[1..], b);
      Assoc(if Carries(a[0]) then [a[0]] else [], Text(a[1..]), Text(b));
    }
  }

  lemma {:induction false} TextBlank(s: string)
    ensures Text(Blank(s)) == Text(s)
  {
    if s != [] {
      TextBlank(s[1..]);
      assert Blank(s)[1..] == Blank(s[1..]);
    }
  }

  lemma {:induction false} TextCollapse(s: string)
    ensures Text(Collapse(s)) == Text(s)
  {
    if s != [] {
      TextCollapse(s[1..]);
      if !(|s| > 1 && s[0] == '*' && s[1] == '*') {
        assert Collapse(s)[1..] == Collapse(s[1..]);
      }
    }
  }

  lemma {:induction false} TextDropStars(s: string, atStart: bool)
    ensures Text(DropStars(s, atStart)) == Text(s)
    decreases |s|
  {
    if s != [] {
      var r := DropStars(s, atStart);
      if atStart && s[0] == '*' {
        TextDropStars(s[1..], false);
      } else if IsSpace(s[0]) && |s| > 1 && s[1] == '*' {
        TextDropStars(s[2..], false);
        assert r[1..] == DropStars(s[2..], false);
        assert s[1..][1..] == s[2..];
        assert Text(s[1..]) == Text(s[2..]);
      } else {
        TextDropStars(s[1..], false);
        assert r[1..] == DropStars(s[1..], false);
      }
    }
  }

  lemma TextPiece(s: string, atStart: bool)
    ensures Text(Piece(s, atStart)) == Text(s)
  {
    TextBlank(s);
    TextCollapse(Blank(s));
    TextDropStars(Collapse(Blank(s)), atStart);
  }

  lemma TextQuoted(a: string)
    ensures Text("\"" + a + "\"") == Text(a)
  {
    TextConcat("\"" + a, "\"");
    TextConcat("\"", a);
  }

  lemma {:induction false} TextQuoteTerms(s: string, ext: char -> bool)
    ensures Text(QuoteTerms(s, ext)) == Text(s)
    decreases |s|
  {
    if s != [] {
      var m := QuoteTermsStep(s, ext);
      var a, rest := s[..m], QuoteTerms(s[m..], ext);
      TextQuoteTerms(s[m..], ext);
      TextBehind(a, a, rest);
      TextQuoted(a);
      TextBehind("\"" + a + "\"", a, rest);
      TextBehind(a, a, s[m..]);
      HeadAndTail(s, m);
    }
  }

  lemma TextBehind(h: string, a: string, rest: string)
    requires Text(h) == Text(a)
    ensures Text(h + rest) == Text(a) + Text(rest)
  {
    TextConcat(h, rest);
  }

  lemma {:induction false} SpacesCarryNothing(s: string)
    requires forall i :: 0 <= i < |s| ==> IsSpace(s[i])
    ensures Text(s) == []
  {
    if s != [] { SpacesCarryNothing(s[1..]); }
  }

  lemma TextAround(a: string, b: string)
    ensures (forall i :: 0 <= i < |a| ==> IsSpace(a[i])) ==> Text(a + b) == Text(b)
    ensures (forall i :: 0 <= i < |b| ==> IsSpace(b[i])) ==> Text(a + b) == Text(a)
  {
    TextConcat(a, b);
    if forall i :: 0 <= i < |a| ==> IsSpace(a[i]) { SpacesCarryNothing(a); }
    if forall i :: 0 <= i < |b| ==> IsSpace(b[i]) { SpacesCarryNothing(b); }
  }

  lemma TextRStrip(s: string)
    ensures Text(RStrip(s, IsSpace)) == Text(s)
  {
    var k := |RStrip(s, IsSpace)|;
    RStripSound(s, IsSpace);
    HeadAndTail(s, k);
    TextAround(s[..k], s[k..]);
  }

  lemma TextStrips(s: string)
    ensures Text(LStrip(s, IsSpace)) == Text(s) && Text(RStrip(s, IsSpace)) == Text(s)
  {
    TextRStrip(s);
  }

  lemma TextStripSpace(s: string)
    ensures Text(StripSpace(s)) == Text(s)
  {
    TextStrips(s);
    TextStrips(LStrip(s, IsSpace));
  }

  lemma {:induction false} LettersCarry(s: string)
    requires Alnum(s)
    ensures Text(s) == s
  {
    if s != [] {
      assert Alnum(s[1..]);
      LettersCarry(s[1..]);
    }
  }

  lemma OperatorIsAlnum(op: string)
    requires SearchQuery.IsOperator(op)
    ensures Alnum(op) && op != []
  {
    forall i | 0 <= i < |op| ensures 'A' <= op[i] <= 'Z' || 'a' <= op[i] <= 'z' {
      UpperAt(op, i);
      assert "AND"[0] == 'A' && "AND"[1] == 'N' && "AND"[2] == 'D';
    }
  }

  /** An operator word, or nothing. */
  predicate OneOperator(op: string, cut: bool) { if cut then SearchQuery.IsOperator(op) else op == [] }

  /** At the front step 4 takes away one operator at most. */
  lemma LeadTakesOperator(l: string, ext: char -> bool) returns (op: string)
    ensures OneOperator(op, LeadingOp(l, ext) > 0) && Text(l) == op + Text(DropLeadingOp(l, ext))
  {
    var n := LeadingOp(l, ext);
    op := l[..n];
    if n > 0 {
      OperatorIsAlnum(op);
      LettersCarry(op);
      TextConcat(op, l[n..]);
      assert l == op + l[n..];
      TextStrips(l[n..]);
    }
  }

  /** At the back step 4 takes away one operator at most. */
  lemma TrailTakesOperator(s: string) returns (op: string)
    ensures OneOperator(op, TrailingOp(RStrip(s, IsSpace)) > 0) && Text(s) == Text(DropTrailingOp(s)) + op
  {
    var t := RStrip(s, IsSpace);
    TextRStrip(s);
    op := TailOf(t, TrailingOp(t));
    if TrailingOp(t) > 0 {
      OperatorIsAlnum(op);
      ChopTakes(t, TrailingOp(t), op);
      assert DropTrailingOp(s) == Chop(t, TrailingOp(t));
    } else {
      assert op == [] && DropTrailingOp(s) == s;
    }
  }

  lemma TailOf(t: string, n: nat) returns (op: string)
    requires n == TrailingOp(t)
    ensures op == t[|t| - n..] && OneOperator(op, n > 0)
  {
    op := t[|t| - n..];
  }

  lemma ChopTakes(t: string, n: nat, op: string)
    requires n <= |t| && op == t[|t| - n..] && Alnum(op)
    ensures Text(t) == Text(Chop(t, n)) + op
  {
    var k := |t| - n;
    LettersCarry(op);
    HeadAndTail(t, k);
    TextConcat(t[..k], t[k..]);
    TextRStrip(t[..k]);
  }

  /** Between two phrases the text of a piece stays as it is. */
  lemma InnerKeepsText(b: string, ext: char -> bool)
    ensures Text(Inner(b, ext)) == Text(b)
  {
    TextPiece(b, false);
    TextQuoteTerms(Piece(b, false), ext);
  }

  /** Before the first phrase it loses one leading operator at most. */
  lemma FirstKeepsText(b: string, ext: char -> bool) returns (op: string)
    ensures var p := LStrip(Piece(b, true), IsSpace);
      && OneOperator(op, LeadingOp(p, ext) > 0)
      && Text(b) == op + Text(QuoteTerms(Front(Piece(b, true), ext), ext))
  {
    var p := Piece(b, true);
    TextPiece(b, true);
    TextStrips(p);
    op := LeadTakesOperator(LStrip(p, IsSpace), ext);
    TextQuoteTerms(Front(p, ext), ext);
  }

  /** Behind the last phrase it loses one trailing operator at most. */
  lemma LastKeepsText(b: string, ext: char -> bool) returns (op: string)
    ensures var p := RStrip(Piece(b, false), IsSpace);
      && OneOperator(op, TrailingOp(p) > 0)
      && Text(b) == Text(QuoteTerms(Back(Piece(b, false)), ext)) + op
  {
    var p := Piece(b, false);
    TextPiece(b, false);
    TextStrips(p);
    RStripTwice(p);
    op := TrailTakesOperator(RStrip(p, IsSpace));
    TextQuoteTerms(Back(p), ext);
  }

  /** Without phrases the query loses one operator at either end at most. */
  lemma CleanedKeepsText(s: string, ext: char -> bool) returns (lead: string, trail: string)
    ensures (lead == [] || SearchQuery.IsOperator(lead)) && (trail == [] || SearchQuery.IsOperator(trail))
    ensures Text(s) == lead + Text(Cleaned(s, ext)) + trail
  {
    var p := Piece(s, true);
    var a := StripSpace(p);
    var b := DropLeadingOp(a, ext);
    TextPiece(s, true);
    TextStripSpace(p);
    lead := LeadTakesOperator(a, ext);
    TextStripSpace(b);
    trail := TrailTakesOperator(StripSpace(b));
    TextQuoteTerms(DropOps(p, ext), ext);
    Assoc(lead, Text(DropOps(p, ext)), trail);
  }

  // ------------------------------------------------------- loose stars go

  /** No star at the start of the text or behind white space. */
  predicate NoLooseStar(s: string, atStart: bool) {
    (atStart && s != [] ==> s[0] != '*') && forall i :: 0 <= i < |s| - 1 ==> !(IsSpace(s[i]) && s[i + 1] == '*')
  }

  /** Behind step 3 no two stars touch, and none stands at the start of the query
      or behind white space. */
  lemma {:induction false} StarsAreTied(s: string, atStart: bool)
    requires NoPair(s)
    ensures NoLooseStar(DropStars(s, atStart), atStart)
    ensures var r := DropStars(s, atStart); r != [] && r[0] == '*' ==> s[0] == '*'
    decreases |s|
  {
    if s != [] {
      var k := if !(atStart && s[0] == '*') && IsSpace(s[0]) && |s| > 1 && s[1] == '*' then 2 else 1;
      var t := s[k..];
      assert forall i :: 0 <= i < |t| ==> t[i] == s[i + k];
      StarsAreTied(t, false);
    }
  }

  lemma PieceTiesStars(s: string, atStart: bool)
    requires Safe(Blank(s))
    ensures NoLooseStar(Piece(s, atStart), atStart)
  {
    CollapseSafe(Blank(s));
    StarsAreTied(Collapse(Blank(s)), atStart);
  }

  // ---------------------------------------------- step 5 quotes the terms

  predicate QuoteFree(s: string) { '"' !in s }

  /** The text with every quoted stretch read as one wall. */
  function Outside(r: string): string
    decreases |r|
  {
    if r == [] then []
    else if r[0] != '"' then [r[0]] + Outside(r[1..])
    else
      var j := FirstQuote(r[1..]);
      if j == |r| - 1 then [] else [NUL] + Outside(r[j + 2..])
  }

  /** The quoted stretches. */
  function Quoted(r: string): seq<string>
    decreases |r|
  {
    if r == [] then []
    else if r[0] != '"' then Quoted(r[1..])
    else
      var j := FirstQuote(r[1..]);
      if j == |r| - 1 then [] else [r[1..j + 1]] + Quoted(r[j + 2..])
  }

  lemma {:induction false} BehindPlain(a: string, y: string)
    requires QuoteFree(a)
    ensures Outside(a + y) == a + Outside(y) && Quoted(a + y) == Quoted(y)
  {
    if a == [] {
      assert a + y == y;
    } else {
      var r := a + y;
      assert r[0] == a[0] && a[0] in a && r[1..] == a[1..] + y;
      assert forall c :: c in a[1..] ==> c in a;
      BehindPlain(a[1..], y);
      Assoc([a[0]], a[1..], Outside(y));
      assert a == [a[0]] + a[1..];
    }
  }

  lemma BehindQuoted(a: string, y: string)
    requires QuoteFree(a)
    ensures Outside("\"" + a + "\"" + y) == [NUL] + Outside(y) && Quoted("\"" + a + "\"" + y) == [a] + Quoted(y)
  {
    var r := "\"" + a + "\"" + y;
    var t := r[1..];
    assert forall k :: 0 <= k < |a| ==> t[k] == a[k] && a[k] in a;
    assert t[|a|] == '"' && FirstQuote(t) == |a|;
    assert r[1..|a| + 1] == a && r[|a| + 2..] == y;
  }

  lemma {:induction false} RunOfPrefix(s: string, n: nat, ext: char -> bool)
    requires Run(s, ext) <= n <= |s|
    ensures Run(s[..n], ext) == Run(s, ext)
  {
    if n > 0 && IsWord(s[0], ext) {
      assert s[..n][1..] == s[1..][..n - 1];
      RunOfPrefix(s[1..], n - 1, ext);
    }
  }

  lemma {:induction false} ChainOfPrefix(s: string, ext: char -> bool)
    ensures Chain(s[..Chain(s, ext)], ext) == Chain(s, ext)
    decreases |s|
  {
    var w, n := Run(s, ext), Chain(s, ext);
    var p := s[..n];
    RunOfPrefix(s, n, ext);
    if Joins(s, w, ext) {
      var rest := s[w + 1..];
      ChainOfPrefix(rest, ext);
      assert p[w + 1..] == rest[..Chain(rest, ext)];
      assert Run(rest, ext) > 0 && Chain(rest, ext) > 0;
      assert Joins(p, w, ext);
    }
  }

  /** A quoted term is one whole match of the term pattern. */
  lemma TermIsWhole(s: string, ext: char -> bool)
    requires TermLength(s, ext) > 0
    ensures TermLength(s[..TermLength(s, ext)], ext) == TermLength(s, ext)
  {
    var w, c := Run(s, ext), Chain(s, ext);
    if c > w {
      ChainOfPrefix(s, ext);
      RunOfPrefix(s, c, ext);
    } else {
      var p := s[..w];
      RunOfPrefix(s, w, ext);
      assert InnerUnderscore(p, w) by {
        var k :| 1 <= k < w - 1 && s[k] == '_';
        assert p[k] == '_';
      }
    }
  }

  predicate AllTerms(terms: seq<string>, ext: char -> bool) {
    forall i :: 0 <= i < |terms| ==> terms[i] != [] && TermLength(terms[i], ext) == |terms[i]|
  }

  /** The first character outside is the first of the text, or a wall. */
  lemma OutsideHead(s: string, ext: char -> bool)
    requires s != [] && QuoteFree(s)
    ensures var z := Outside(QuoteTerms(s, ext)); z != [] && (z[0] == s[0] || z[0] == NUL)
    ensures !IsWord(s[0], ext) ==> Outside(QuoteTerms(s, ext)) == [s[0]] + Outside(QuoteTerms(s[1..], ext))
  {
    var m := QuoteTermsStep(s, ext);
    assert s[0] in s && QuoteFree(s[..m]) by { assert forall c :: c in s[..m] ==> c in s; }
    if IsWord(s[0], ext) && TermLength(s, ext) > 0 {
      BehindQuoted(s[..m], QuoteTerms(s[m..], ext));
    } else {
      BehindPlain(s[..m], QuoteTerms(s[m..], ext));
    }
  }

  /** A word run that is no term stays none when the text behind it is quoted. */
  lemma RunStaysBare(s: string, ext: char -> bool)
    requires s != [] && QuoteFree(s) && IsWord(s[0], ext) && TermLength(s, ext) == 0
    ensures var w := Run(s, ext); var z := Outside(QuoteTerms(s[w..], ext));
      Run(s[..w] + z, ext) == w && TermLength(s[..w] + z, ext) == 0
  {
    var w := Run(s, ext);
    var a, rest := s[..w], s[w..];
    var z := Outside(QuoteTerms(rest, ext));
    assert QuoteFree(rest) by { assert forall c :: c in rest ==> c in s; }
    RunStops(s, ext);
    var t := a + z;
    if rest != [] {
      OutsideHead(rest, ext);
      if |rest| > 1 {
        assert QuoteFree(rest[1..]) by { assert forall c :: c in rest[1..] ==> c in rest; }
        OutsideHead(rest[1..], ext);
      }
    }
    RunIs(a, z, ext);
    assert !Joins(s, w, ext);
    BareJoin(s, rest, z, w, ext);
    assert InnerUnderscore(t, w) == InnerUnderscore(s, w) by {
      assert forall k :: 0 <= k < w ==> t[k] == s[k];
    }
  }

  lemma {:induction false} RunStops(s: string, ext: char -> bool)
    ensures Run(s, ext) < |s| ==> !IsWord(s[Run(s, ext)], ext)
  {
    if s != [] && IsWord(s[0], ext) { RunStops(s[1..], ext); }
  }

  lemma {:induction false} RunIs(a: string, z: string, ext: char -> bool)
    requires (forall k :: 0 <= k < |a| ==> IsWord(a[k], ext)) && (z == [] || !IsWord(z[0], ext))
    ensures Run(a + z, ext) == |a|
  {
    if a == [] {
      assert a + z == z;
    } else {
      assert (a + z)[1..] == a[1..] + z;
      RunIs(a[1..], z, ext);
    }
  }

  lemma BareJoin(s: string, rest: string, z: string, w: nat, ext: char -> bool)
    requires w <= |s| && rest == s[w..] && !Joins(s, w, ext)
    requires rest == [] ==> z == []
    requires rest != [] ==> z != [] && z[0] == rest[0] && (|z| > 1 ==> |rest| > 1 && (z[1] == rest[1] || z[1] == NUL))
    ensures !Joins(s[..w] + z, w, ext)
  {
    var t := s[..w] + z;
    if rest != [] {
      assert t[w] == s[w];
      if |z| > 1 { assert t[w + 1] == z[1] && rest[1] == s[w + 1]; }
    }
  }

  /** Step 5 quotes whole terms only, and leaves none unquoted. */
  lemma {:induction false} ExactlyTheTerms(s: string, ext: char -> bool)
    requires QuoteFree(s)
    ensures AllTerms(Quoted(QuoteTerms(s, ext)), ext)
    ensures var z := Outside(QuoteTerms(s, ext)); QuoteTerms(z, ext) == z
    decreases |s|
  {
    if s != [] {
      var m := QuoteTermsStep(s, ext);
      var a, y := s[..m], QuoteTerms(s[m..], ext);
      var z := Outside(y);
      assert QuoteFree(a) && QuoteFree(s[m..]) by { assert forall c :: c in a || c in s[m..] ==> c in s; }
      ExactlyTheTerms(s[m..], ext);
      BehindPlain(a, y);
      BehindQuoted(a, y);
      if !IsWord(s[0], ext) {
        assert ([s[0]] + z)[1..] == z;
      } else if TermLength(s, ext) > 0 {
        TermIsWhole(s, ext);
      } else {
        RunStaysBare(s, ext);
      }
    }
  }

}
