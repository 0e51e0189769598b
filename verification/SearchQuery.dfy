/** The search strategies and the queries they print (context_engine/core.py). */
module SearchQuery {
  import opened Wrappers
  import opened PyString

  // --------------------------------------------------------- LIKE patterns

  /** One escaping pass a `replace`, in the order the code applies them. */
  function Escape(tok: string): string {
    ReplaceChar(ReplaceChar(ReplaceChar(tok, '\\', "\\\\"), '%', "\\%"), '_', "\\_")
  }

  function LikePattern(tok: string): string { "%" + Escape(tok) + "%" }

  /** LIKE with escape character `\` (section 8.5 of SQL-92). `fold` maps a
      character to the representative it is compared by: the identity in the
      standard, ASCII case folding in SQLite. */
  predicate Like(p: string, t: string, fold: char -> char)
    decreases |p| + |t|
  {
    if p == [] then t == []
    else if p[0] == '\\' then |p| > 1 && t != [] && fold(p[1]) == fold(t[0]) && Like(p[2..], t[1..], fold)
    else if p[0] == '%' then Like(p[1..], t, fold) || (t != [] && Like(p, t[1..], fold))
    else t != [] && (p[0] == '_' || fold(p[0]) == fold(t[0])) && Like(p[1..], t[1..], fold)
  }

  /** `tok` reads, up to `fold`, at the start of `t`. */
  predicate StartsWith(t: string, tok: string, fold: char -> char) {
    |tok| <= |t| && forall i :: 0 <= i < |tok| ==> fold(tok[i]) == fold(t[i])
  }

  predicate Contains(t: string, tok: string, fold: char -> char) {
    exists i :: 0 <= i <= |t| && StartsWith(t[i..], tok, fold)
  }

  predicate Special(c: char) { c == '\\' || c == '%' || c == '_' }

  function EscapeEach(tok: string): string {
    if tok == [] then [] else (if Special(tok[0]) then ['\\', tok[0]] else [tok[0]]) + EscapeEach(tok[1..])
  }

  lemma EscapeOne(c: char)
    ensures Escape([c]) == if Special(c) then ['\\', c] else [c]
  {
    assert [c][1..] == [];
    assert ReplaceChar([c], '\\', "\\\\") == if c == '\\' then "\\\\" else [c];
    assert "\\\\" == ['\\'] + "\\" && "\\" == ['\\'] + [];
    assert ReplaceChar("\\", '%', "\\%") == "\\" && ReplaceChar("\\\\", '%', "\\%") == "\\\\";
    assert ReplaceChar("\\", '_', "\\_") == "\\" && ReplaceChar("\\\\", '_', "\\_") == "\\\\";
    assert "\\%" == ['\\'] + "%" && "%"[1..] == [];
    assert ReplaceChar("%", '_', "\\_") == "%";
    assert ReplaceChar("\\%", '_', "\\_") == "\\%";
  }

  lemma EscapeConcat(a: string, b: string)
    ensures Escape(a + b) == Escape(a) + Escape(b)
  {
    ReplaceCharConcat(a, b, '\\', "\\\\");
    var a1, b1 := ReplaceChar(a, '\\', "\\\\"), ReplaceChar(b, '\\', "\\\\");
    ReplaceCharConcat(a1, b1, '%', "\\%");
    ReplaceCharConcat(ReplaceChar(a1, '%', "\\%"), ReplaceChar(b1, '%', "\\%"), '_', "\\_");
  }

  /** No pass touches what an earlier one inserted. */
  lemma {:induction false} EscapeIsEach(tok: string)
    ensures Escape(tok) == EscapeEach(tok)
  {
    if tok != [] {
      EscapeOne(tok[0]);
      EscapeIsEach(tok[1..]);
      EscapeConcat([tok[0]], tok[1..]);
      assert tok == [tok[0]] + tok[1..];
    }
  }

  lemma {:induction false} LikeLiteral(tok: string, rest: string, t: string, fold: char -> char)
    ensures Like(EscapeEach(tok) + rest, t, fold) <==> StartsWith(t, tok, fold) && Like(rest, t[|tok|..], fold)
    decreases |tok|
  {
    if tok == [] {
      assert EscapeEach(tok) + rest == rest;
    } else {
      var p, tail := EscapeEach(tok) + rest, EscapeEach(tok[1..]) + rest;
      if Special(tok[0]) {
        assert p[0] == '\\' && p[1] == tok[0] && p[2..] == tail;
      } else {
        assert p[0] == tok[0] && p[1..] == tail;
      }
      if t != [] {
        LikeLiteral(tok[1..], rest, t[1..], fold);
        assert StartsWith(t, tok, fold) <==> fold(tok[0]) == fold(t[0]) && StartsWith(t[1..], tok[1..], fold) by {
          assert forall i :: 0 < i < |tok| ==> tok[i] == tok[1..][i - 1];
          assert forall i :: 0 < i < |t| ==> t[i] == t[1..][i - 1];
          if StartsWith(t, tok, fold) {
            forall i | 0 <= i < |tok[1..]| ensures fold(tok[1..][i]) == fold(t[1..][i]) {
              assert fold(tok[i + 1]) == fold(t[i + 1]);
            }
          }
        }
      }
    }
  }

  lemma {:induction false} PercentMatchesAll(t: string, fold: char -> char)
    ensures Like("%", t, fold)
  {
    assert "%"[1..] == [];
    if t != [] { PercentMatchesAll(t[1..], fold); }
  }

  lemma {:induction false} LikeSomewhere(p: string, t: string, fold: char -> char)
    ensures Like("%" + p, t, fold) <==> exists i :: 0 <= i <= |t| && Like(p, t[i..], fold)
    decreases |t|
  {
    var q := "%" + p;
    assert q[1..] == p && t[0..] == t;
    if t != [] {
      LikeSomewhere(p, t[1..], fold);
      if i :| 0 <= i <= |t[1..]| && Like(p, t[1..][i..], fold) { assert t[1..][i..] == t[i + 1..]; }
      if i :| 0 < i <= |t| && Like(p, t[i..], fold) { assert t[1..][i - 1..] == t[i..]; }
    }
  }

  /** The printed pattern matches exactly the texts that contain the token. */
  lemma PatternMatchesSubstring(tok: string, t: string, fold: char -> char)
    ensures Like(LikePattern(tok), t, fold) <==> Contains(t, tok, fold)
  {
    EscapeIsEach(tok);
    var p := EscapeEach(tok) + "%";
    assert LikePattern(tok) == "%" + p;
    LikeSomewhere(p, t, fold);
    forall i | 0 <= i <= |t| ensures Like(p, t[i..], fold) <==> StartsWith(t[i..], tok, fold) {
      LikeLiteral(tok, "%", t[i..], fold);
      PercentMatchesAll(t[i..][if |tok| <= |t[i..]| then |tok| else 0..], fold);
    }
  }

  // ------------------------------------------------------- operator tokens

  function UpperAscii(c: char): char { if 'a' <= c <= 'z' then c - 'a' + 'A' else c }

  function Upper(s: string): (r: string)
    ensures |r| == |s|
  {
    seq(|s|, i requires 0 <= i < |s| => UpperAscii(s[i]))
  }

  predicate IsOperator(tok: string) { Upper(tok) == "AND" || Upper(tok) == "OR" || Upper(tok) == "NOT" }

  /** AND, OR or NOT in any case. */
  predicate IsAndOrNot(t: string) {
    || (|t| == 3 && t[0] in "aA" && t[1] in "nN" && t[2] in "dD")
    || (|t| == 2 && t[0] in "oO" && t[1] in "rR")
    || (|t| == 3 && t[0] in "nN" && t[1] in "oO" && t[2] in "tT")
  }

  lemma UpperIs(c: char, d: char)
    requires 'A' <= d <= 'Z'
    ensures UpperAscii(c) == d <==> c == d || c == d - 'A' + 'a'
  {
  }

  lemma OperatorsInAnyCase(tok: string)
    ensures IsOperator(tok) <==> IsAndOrNot(tok)
  {
    var u := Upper(tok);
    forall i | 0 <= i < |tok| ensures u[i] == UpperAscii(tok[i]) {}
    assert u == "AND" <==> |u| == 3 && u[0] == 'A' && u[1] == 'N' && u[2] == 'D';
    assert u == "OR" <==> |u| == 2 && u[0] == 'O' && u[1] == 'R';
    assert u == "NOT" <==> |u| == 3 && u[0] == 'N' && u[1] == 'O' && u[2] == 'T';
  }

  predicate IsQuote(c: char) { c == '"' }

  /** `query.strip('"').strip()`. */
  function RawQuery(query: string): string { StripSpace(Strip(query, IsQuote)) }

  function NonOperators(toks: seq<string>): seq<string> {
    if toks == [] then []
    else NonOperators(toks[..|toks| - 1]) + if IsOperator(toks[|toks| - 1]) then [] else [toks[|toks| - 1]]
  }

  /** The terms of the fallback search: the tokens that are not operators, or
      the whole query when there is none. */
  function LikeTerms(query: string): seq<string> {
    var terms := NonOperators(Split(RawQuery(query)));
    if terms == [] then [RawQuery(query)] else terms
  }

  function PatternsOf(terms: seq<string>): (ps: seq<string>)
    ensures |ps| == |terms|
    ensures forall k :: 0 <= k < |terms| ==> ps[k] == LikePattern(terms[k])
  {
    seq(|terms|, k requires 0 <= k < |terms| => LikePattern(terms[k]))
  }

  method TermsOf(toks: seq<string>) returns (terms: seq<string>)
    ensures terms == NonOperators(toks)
  {
    terms := [];
    for k := 0 to |toks|
      invariant terms == NonOperators(toks[..k])
    {
      assert toks[..k + 1][..k] == toks[..k];
      if !IsOperator(toks[k]) { terms := terms + [toks[k]]; }
    }
    assert toks[..|toks|] == toks;
  }

  method PrintTerms(terms: seq<string>) returns (patterns: seq<string>)
    ensures patterns == PatternsOf(terms)
  {
    patterns := [];
    for k := 0 to |terms|
      invariant |patterns| == k && forall m :: 0 <= m < k ==> patterns[m] == LikePattern(terms[m])
    {
      patterns := patterns + [LikePattern(terms[k])];
    }
  }

  method LikePatterns(query: string) returns (patterns: seq<string>)
    ensures patterns == PatternsOf(LikeTerms(query))
  {
    var raw := RawQuery(query);
    var terms := TermsOf(Split(raw));
    if terms == [] { terms := [raw]; }
    patterns := PrintTerms(terms);
  }

  predicate LikesAny(patterns: seq<string>, t: string, fold: char -> char) {
    exists k :: 0 <= k < |patterns| && Like(patterns[k], t, fold)
  }

  predicate ContainsAny(t: string, terms: seq<string>, fold: char -> char) {
    exists k :: 0 <= k < |terms| && Contains(t, terms[k], fold)
  }

  /** The query between its outer quotes and the white space inside them. */
  lemma RawQueryIsBetween(query: string) returns (a: nat, b: nat, c: nat, d: nat)
    ensures a <= b <= c <= d <= |query| && RawQuery(query) == query[b..c]
    ensures forall i :: 0 <= i < a || d <= i < |query| ==> query[i] == '"'
    ensures forall i :: a <= i < b || c <= i < d ==> IsSpace(query[i])
    ensures a < d ==> query[a] != '"' && query[d - 1] != '"'
    ensures b < c ==> !IsSpace(query[b]) && !IsSpace(query[c - 1])
  {
    a, d := StripIsBetween(query, IsQuote);
    var s := query[a..d];
    var e, f := StripIsBetween(s, IsSpace);
    b, c := a + e, a + f;
    SliceOfSlice(query, a, d, e, f);
    assert forall i :: a <= i < d ==> query[i] == s[i - a];
  }

  lemma LStripIsBehind(s: string, drop: char -> bool) returns (a: nat)
    ensures a <= |s| && LStrip(s, drop) == s[a..] && forall i :: 0 <= i < a ==> drop(s[i])
    ensures a < |s| ==> !drop(s[a])
  {
    LStripSound(s, drop);
    a := |s| - |LStrip(s, drop)|;
  }

  lemma RStripIsUpTo(s: string, drop: char -> bool) returns (b: nat)
    ensures b <= |s| && RStrip(s, drop) == s[..b] && forall i :: b <= i < |s| ==> drop(s[i])
    ensures b > 0 ==> !drop(s[b - 1])
  {
    RStripSound(s, drop);
    b := |RStrip(s, drop)|;
  }

  lemma StripIsBetween(s: string, drop: char -> bool) returns (a: nat, b: nat)
    ensures a <= b <= |s| && Strip(s, drop) == s[a..b]
    ensures forall i :: 0 <= i < a || b <= i < |s| ==> drop(s[i])
    ensures a < b ==> !drop(s[a]) && !drop(s[b - 1])
  {
    a := LStripIsBehind(s, drop);
    var l := s[a..];
    var e := RStripIsUpTo(l, drop);
    b := a + e;
    assert l[..e] == s[a..b];
    forall i | b <= i < |s| ensures drop(s[i]) { assert s[i] == l[i - a]; }
    assert e > 0 ==> s[b - 1] == l[e - 1];
  }

  lemma {:induction false} NonOperatorsSound(toks: seq<string>, t: string)
    ensures t in NonOperators(toks) <==> t in toks && !IsAndOrNot(t)
  {
    if toks != [] {
      var init, last := toks[..|toks| - 1], toks[|toks| - 1];
      NonOperatorsSound(init, t);
      OperatorsInAnyCase(last);
      assert toks == init + [last];
    }
  }

  /** The terms are the words of the query that are not AND, OR or NOT, or else
      the whole query. */
  lemma LikeTermsSound(query: string, t: string)
    ensures var raw := RawQuery(query);
            t in LikeTerms(query) <==>
              if forall w :: w in Split(raw) ==> IsAndOrNot(w) then t == raw else t in Split(raw) && !IsAndOrNot(t)
  {
    var raw := RawQuery(query);
    var terms := NonOperators(Split(raw));
    NonOperatorsSound(Split(raw), t);
    if w :| w in Split(raw) && !IsAndOrNot(w) {
      NonOperatorsSound(Split(raw), w);
    }
    if terms != [] {
      NonOperatorsSound(Split(raw), terms[0]);
    }
  }

  /** The fallback search finds exactly the texts that contain a word of the query
      other than AND, OR and NOT - the whole query when it has no other word. */
  lemma FallbackFindsSubstrings(query: string, t: string, fold: char -> char)
    ensures LikesAny(PatternsOf(LikeTerms(query)), t, fold) <==>
            var raw := RawQuery(query);
            if forall w :: w in Split(raw) ==> IsAndOrNot(w) then Contains(t, raw, fold)
            else exists w :: w in Split(raw) && !IsAndOrNot(w) && Contains(t, w, fold)
  {
    LikesAnyIsContains(query, t, fold);
    var raw, terms := RawQuery(query), LikeTerms(query);
    forall w ensures w in terms <==>
      if forall v :: v in Split(raw) ==> IsAndOrNot(v) then w == raw else w in Split(raw) && !IsAndOrNot(w)
    {
      LikeTermsSound(query, w);
    }
    if w :| w in terms && Contains(t, w, fold) {
      var k :| 0 <= k < |terms| && terms[k] == w;
      assert ContainsAny(t, terms, fold);
    }
    if ContainsAny(t, terms, fold) {
      var k :| 0 <= k < |terms| && Contains(t, terms[k], fold);
      assert terms[k] in terms;
    }
  }

  lemma LikesAnyIsContains(query: string, t: string, fold: char -> char)
    ensures LikesAny(PatternsOf(LikeTerms(query)), t, fold) <==> ContainsAny(t, LikeTerms(query), fold)
  {
    var terms := LikeTerms(query);
    forall k | 0 <= k < |terms| ensures Like(PatternsOf(terms)[k], t, fold) <==> Contains(t, terms[k], fold) {
      PatternMatchesSubstring(terms[k], t, fold);
    }
  }

  // -------------------------------------------------------- trigram query

  function Quoted(tok: string): string { "\"" + ReplaceChar(tok, '"', "\"\"") + "\"" }

  function Printed(tok: string): string { if IsOperator(tok) then tok else Quoted(tok) }

  function PrintAll(toks: seq<string>): (parts: seq<string>)
    ensures |parts| == |toks| && forall i :: 0 <= i < |toks| ==> parts[i] == Printed(toks[i])
  {
    if toks == [] then [] else [Printed(toks[0])] + PrintAll(toks[1..])
  }

  method PrintTokens(toks: seq<string>) returns (parts: seq<string>)
    ensures parts == PrintAll(toks)
  {
    parts := [];
    for k := 0 to |toks|
      invariant |parts| == k && forall i :: 0 <= i < k ==> parts[i] == Printed(toks[i])
    {
      if IsOperator(toks[k]) {
        parts := parts + [toks[k]];
      } else {
        parts := parts + ["\"" + ReplaceChar(toks[k], '"', "\"\"") + "\""];
      }
    }
  }

  method TrigramQuery(query: string) returns (printed: string)
    ensures printed == Join(" ", PrintAll(Split(RawQuery(query))))
  {
    var parts := PrintTokens(Split(RawQuery(query)));
    printed := Join(" ", parts);
  }

  /** What the FTS5 lexer reads (section 3.1 of the SQLite FTS5 documentation). */
  datatype FtsToken = Bare(text: string) | Str(text: string)

  predicate FtsSpace(c: char) { c == ' ' || c == '\t' || c == '\n' || c == '\r' }

  predicate BareChar(c: char) {
    'A' <= c <= 'Z' || 'a' <= c <= 'z' || '0' <= c <= '9' || c == '_' || c as int == 0x1A || c as int >= 0x80
  }

  /** The rest of a string behind its opening quote; a doubled quote is a quote.
      The second component is what follows the closing quote. */
  function ReadString(s: string): (r: Option<(string, string)>)
    ensures r.Some? ==> |r.value.1| < |s|
    decreases |s|
  {
    if s == [] then None
    else if s[0] == '"' then
      if |s| > 1 && s[1] == '"' then
        match ReadString(s[2..])
        case None => None
        case Some((text, rest)) => Some(("\"" + text, rest))
      else Some(("", s[1..]))
    else
      match ReadString(s[1..])
      case None => None
      case Some((text, rest)) => Some(([s[0]] + text, rest))
  }

  function BareLength(s: string): (n: nat)
    ensures n <= |s| && (n == 0 <==> s == [] || !BareChar(s[0]))
  {
    if s == [] || !BareChar(s[0]) then 0 else 1 + BareLength(s[1..])
  }

  function Lex(s: string): Option<seq<FtsToken>>
    decreases |s|
  {
    if s == [] then Some([])
    else if FtsSpace(s[0]) then Lex(s[1..])
    else if s[0] == '"' then
      match ReadString(s[1..])
      case None => None
      case Some((text, rest)) => Cons(Str(text), Lex(rest))
    else if BareChar(s[0]) then Cons(Bare(s[..BareLength(s)]), Lex(s[BareLength(s)..]))
    else None
  }

  function Cons(t: FtsToken, rest: Option<seq<FtsToken>>): Option<seq<FtsToken>> {
    match rest
    case None => None
    case Some(ts) => Some([t] + ts)
  }

  function Meaning(toks: seq<string>): seq<FtsToken> {
    if toks == [] then [] else [if IsOperator(toks[0]) then Bare(toks[0]) else Str(toks[0])] + Meaning(toks[1..])
  }

  lemma {:induction false} ReadQuoted(tok: string, rest: string)
    requires rest == [] || rest[0] != '"'
    ensures ReadString(ReplaceChar(tok, '"', "\"\"") + "\"" + rest) == Some((tok, rest))
  {
    var s := ReplaceChar(tok, '"', "\"\"") + "\"" + rest;
    if tok == [] {
      assert s == "\"" + rest && s[1..] == rest;
    } else {
      var tail := ReplaceChar(tok[1..], '"', "\"\"") + "\"" + rest;
      ReadQuoted(tok[1..], rest);
      if tok[0] == '"' {
        assert s[0] == '"' && s[1] == '"' && s[2..] == tail;
        assert tok == "\"" + tok[1..];
      } else {
        assert s[0] == tok[0] && s[1..] == tail;
        assert tok == [tok[0]] + tok[1..];
      }
    }
  }

  lemma {:induction false} BareRun(w: string, rest: string)
    requires forall i :: 0 <= i < |w| ==> BareChar(w[i])
    requires rest == [] || !BareChar(rest[0])
    ensures BareLength(w + rest) == |w|
  {
    if w == [] {
      assert w + rest == rest;
    } else {
      assert (w + rest)[1..] == w[1..] + rest;
      BareRun(w[1..], rest);
    }
  }

  lemma OperatorIsBare(tok: string)
    requires IsOperator(tok)
    ensures tok != [] && forall i :: 0 <= i < |tok| ==> BareChar(tok[i])
  {
    forall i | 0 <= i < |tok| ensures BareChar(tok[i]) {
      assert Upper(tok)[i] == UpperAscii(tok[i]);
    }
  }

  lemma LexBare(w: string, rest: string)
    requires w != [] && forall i :: 0 <= i < |w| ==> BareChar(w[i])
    requires rest == [] || rest[0] == ' '
    ensures Lex(w + rest) == Cons(Bare(w), Lex(rest))
  {
    var s := w + rest;
    BareRun(w, rest);
    assert s[0] == w[0] && BareChar(s[0]);
    assert s[..|w|] == w && s[|w|..] == rest;
  }

  lemma QuotedShape(inner: string, rest: string)
    ensures "\"" + inner + "\"" + rest == "\"" + (inner + "\"" + rest)
  {
  }

  lemma LexOne(tok: string, rest: string)
    requires rest == [] || rest[0] == ' '
    ensures Lex(Printed(tok) + rest) == Cons(if IsOperator(tok) then Bare(tok) else Str(tok), Lex(rest))
  {
    if IsOperator(tok) {
      OperatorIsBare(tok);
      LexBare(tok, rest);
    } else {
      ReadQuoted(tok, rest);
      QuotedShape(ReplaceChar(tok, '"', "\"\""), rest);
    }
  }

  /** Printing and lexing undo each other: the query reads back as exactly the
      original tokens, operators bare and everything else a string. */
  lemma {:induction false} PrintedReadsBack(toks: seq<string>)
    ensures Lex(Join(" ", PrintAll(toks))) == Some(Meaning(toks))
  {
    if toks != [] {
      var parts, more := PrintAll(toks[1..]), Join(" ", PrintAll(toks[1..]));
      PrintedReadsBack(toks[1..]);
      assert PrintAll(toks) == [Printed(toks[0])] + parts;
      if |toks| == 1 {
        LexOne(toks[0], []);
        assert Join(" ", PrintAll(toks)) == Printed(toks[0]) + [];
      } else {
        assert PrintAll(toks)[1..] == parts;
        JoinTwo(Printed(toks[0]), parts);
        LexOne(toks[0], " " + more);
        assert (" " + more)[1..] == more;
      }
    }
  }

  lemma JoinTwo(first: string, parts: seq<string>)
    requires parts != []
    ensures Join(" ", [first] + parts) == first + (" " + Join(" ", parts))
  {
    assert ([first] + parts)[1..] == parts;
  }

  // -------------------------------------------------------------- strategies

  predicate IsCjk(c: char) {
    var n := c as int;
    0x4E00 <= n <= 0x9FFF || 0x3400 <= n <= 0x4DBF || 0x20000 <= n <= 0x2A6DF || 0x3000 <= n <= 0x303F
    || 0x3040 <= n <= 0x309F || 0x30A0 <= n <= 0x30FF || 0xAC00 <= n <= 0xD7AF
  }

  predicate ContainsCjk(s: string) { exists i :: 0 <= i < |s| && IsCjk(s[i]) }

  function CountCjk(s: string): nat {
    if s == [] then 0 else CountCjk(s[..|s| - 1]) + if IsCjk(s[|s| - 1]) then 1 else 0
  }

  datatype Strategy = Trigram | LikeSearch | Fts

  predicate TrigramMatches(query: string) {
    var raw := RawQuery(query);
    CountCjk(raw) >= 3
    && forall t :: t in Split(raw) && !IsOperator(t) && ContainsCjk(t) ==> CountCjk(t) >= 3
  }

  predicate Matches(s: Strategy, query: string) {
    match s
    case Trigram => TrigramMatches(query)
    case LikeSearch => ContainsCjk(query) && !TrigramMatches(query)
    case Fts => !ContainsCjk(query)
  }

  /** `select`: the first strategy that matches, or the last one. */
  function Select(order: seq<Strategy>, query: string): Strategy
    requires order != []
  {
    if Matches(order[0], query) || |order| == 1 then order[0] else Select(order[1..], query)
  }

  /** Where a text has CJK characters. */
  function CjkAt(s: string): set<nat> { set i: nat | i < |s| && IsCjk(s[i]) }

  lemma {:induction false} CountIsNumber(s: string)
    ensures CountCjk(s) == |CjkAt(s)|
  {
    if s != [] {
      var init := s[..|s| - 1];
      CountIsNumber(init);
      assert CjkAt(s) == CjkAt(init) + if IsCjk(s[|init|]) then {|init|} else {};
    }
  }

  lemma CountedIsContained(s: string)
    requires CountCjk(s) > 0
    ensures ContainsCjk(s)
  {
    CountIsNumber(s);
    var i :| i in CjkAt(s);
  }

  lemma StripContains(s: string, drop: char -> bool)
    requires ContainsCjk(Strip(s, drop))
    ensures ContainsCjk(s)
  {
    var l := LStrip(s, drop);
    var r := RStrip(l, drop);
    LStripSound(s, drop);
    RStripSound(l, drop);
    assert r == l[0..|r|];
    assert l == s[|s| - |l|..|s|];
  }

  lemma TrigramContains(query: string)
    requires TrigramMatches(query)
    ensures ContainsCjk(query)
  {
    CountedIsContained(RawQuery(query));
    StripContains(Strip(query, IsQuote), IsSpace);
    StripContains(query, IsQuote);
  }

  /** Exactly one strategy matches any query. */
  lemma ExactlyOneStrategy(query: string)
    ensures exists s :: Matches(s, query)
    ensures forall s, t :: Matches(s, query) && Matches(t, query) ==> s == t
  {
    if TrigramMatches(query) {
      TrigramContains(query);
      assert Matches(Trigram, query);
    } else if ContainsCjk(query) {
      assert Matches(LikeSearch, query);
    } else {
      assert Matches(Fts, query);
    }
  }

  /** So neither the order of the list nor its fallback ever matters. */
  lemma {:induction false} OrderNeverMatters(order: seq<Strategy>, query: string, s: Strategy)
    requires s in order && Matches(s, query)
    ensures Select(order, query) == s
  {
    ExactlyOneStrategy(query);
    if !Matches(order[0], query) {
      assert order[0] != s && s in order[1..];
      OrderNeverMatters(order[1..], query, s);
    }
  }

  /** Which strategy the list of the program selects: full text for a query without
      CJK; trigrams when the query has three CJK characters and so has each word
      with any that is not AND, OR or NOT; the fallback otherwise. */
  lemma StrategyOfQuery(query: string)
    ensures Select([Trigram, LikeSearch, Fts], query) ==
            if !ContainsCjk(query) then Fts
            else if |CjkAt(RawQuery(query))| >= 3
                 && forall w :: w in Split(RawQuery(query)) && !IsAndOrNot(w) && ContainsCjk(w) ==> |CjkAt(w)| >= 3
            then Trigram else LikeSearch
  {
    var raw := RawQuery(query);
    CountIsNumber(raw);
    forall w | w in Split(raw) ensures (IsOperator(w) <==> IsAndOrNot(w)) && CountCjk(w) == |CjkAt(w)| {
      OperatorsInAnyCase(w);
      CountIsNumber(w);
    }
    if TrigramMatches(query) {
      TrigramContains(query);
      OrderNeverMatters([Trigram, LikeSearch, Fts], query, Trigram);
    } else {
      OrderNeverMatters([Trigram, LikeSearch, Fts], query, if ContainsCjk(query) then LikeSearch else Fts);
    }
  }
}
