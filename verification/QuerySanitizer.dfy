/** The query sanitizer (context_engine/core.py), step by step on strings. */
module QuerySanitizer {
  import opened PyString
  import SearchQuery

  /** The three caps of the configuration. */
  datatype Caps = Caps(tokens: nat, chars: nat, wildcards: nat)

  const CAPS: Caps := Caps(64, 64, 4)
  const NUL: char := 0 as char

  // ---------------------------------------------------------------- capping

  predicate HasStar(s: string) { '*' in s }

  function StarTokens(toks: seq<string>): nat {
    if toks == [] then 0 else StarTokens(toks[..|toks| - 1]) + if HasStar(toks[|toks| - 1]) then 1 else 0
  }

  function Shorten(s: string, n: nat): string { if |s| <= n then s else s[..n] }

  /** The i-th token, without its stars when enough tokens before it had one. */
  function CapToken(tok: string, seen: nat, caps: Caps): string {
    Shorten(if HasStar(tok) && seen + 1 > caps.wildcards then ReplaceChar(tok, '*', "") else tok, caps.chars)
  }

  function CapTokens(toks: seq<string>, caps: Caps): seq<string> {
    if toks == [] then []
    else
      var init := toks[..|toks| - 1];
      CapTokens(init, caps) + [CapToken(toks[|toks| - 1], StarTokens(init), caps)]
  }

  function Capped(query: string, caps: Caps): string {
    var toks := Split(query);
    Join(" ", CapTokens(if |toks| <= caps.tokens then toks else toks[..caps.tokens], caps))
  }

  // -------------------------------------------- step 1: protecting phrases

  function Dec(n: nat): string { (if n < 10 then [] else Dec(n / 10)) + [(n % 10) as char + '0'] }

  /** What stands between the two marks of a placeholder. */
  function Label(n: nat): string { "Q" + Dec(n) }

  function Mark(n: nat): string { [NUL] + Label(n) + [NUL] }

  function FirstQuote(s: string): (i: nat)
    ensures i <= |s| && (i < |s| ==> s[i] == '"') && forall k :: 0 <= k < i ==> s[k] != '"'
  {
    if s == [] || s[0] == '"' then 0 else 1 + FirstQuote(s[1..])
  }

  /** Where the first balanced phrase starts and ends; `None` when there is none. */
  function FirstPhrase(s: string): (r: (nat, nat))
    ensures r.0 < r.1 ==> r.1 <= |s| && s[r.0] == '"' && r.0 + 2 <= r.1 && s[r.1 - 1] == '"'
    ensures r.0 < r.1 ==> forall k :: 0 <= k < r.1 - 1 && k != r.0 ==> s[k] != '"'
    ensures r.0 >= r.1 ==> forall k, m :: 0 <= k < m < |s| ==> !(s[k] == '"' && s[m] == '"')
  {
    var i := FirstQuote(s);
    if i == |s| then (0, 0)
    else
      var j := FirstQuote(s[i + 1..]);
      if i + 1 + j == |s| then
        assert forall k :: i < k < |s| ==> s[k] == s[i + 1..][k - i - 1];
        (0, 0)
      else
        assert forall k :: i < k < i + 1 + j ==> s[k] == s[i + 1..][k - i - 1];
        (i, i + j + 2)
  }

  /** The text outside the balanced phrases; one piece more than phrases. */
  function Bares(s: string): (r: seq<string>)
    ensures |r| == |Phrases(s)| + 1
    decreases |s|
  {
    var (i, j) := FirstPhrase(s);
    if i >= j then [s] else [s[..i]] + Bares(s[j..])
  }

  /** The balanced phrases, quotes included. */
  function Phrases(s: string): seq<string>
    decreases |s|
  {
    var (i, j) := FirstPhrase(s);
    if i >= j then [] else [s[i..j]] + Phrases(s[j..])
  }

  /** The substitution: every phrase becomes a numbered placeholder. */
  function Protect(s: string, n: nat): string
    decreases |s|
  {
    var (i, j) := FirstPhrase(s);
    if i >= j then s else s[..i] + Mark(n) + Protect(s[j..], n + 1)
  }

  // --------------------------------------------------- steps 2 and 3: specials

  predicate IsSpecial(c: char) {
    c == '+' || c == '{' || c == '}' || c == '(' || c == ')' || c == '"' || c == '^'
  }

  function Blank(s: string): string {
    if s == [] then [] else [if IsSpecial(s[0]) then ' ' else s[0]] + Blank(s[1..])
  }

  function Collapse(s: string): string {
    if s == [] then []
    else if |s| > 1 && s[0] == '*' && s[1] == '*' then Collapse(s[1..])
    else [s[0]] + Collapse(s[1..])
  }

  /** Drops a star at the start of the string or behind white space. */
  function DropStars(s: string, atStart: bool): string
    decreases |s|
  {
    if s == [] then []
    else if atStart && s[0] == '*' then DropStars(s[1..], false)
    else if IsSpace(s[0]) && |s| > 1 && s[1] == '*' then [s[0]] + DropStars(s[2..], false)
    else [s[0]] + DropStars(s[1..], false)
  }

  // -------------------------------------------------------- step 4: operators

  /** Word characters; `ext` says which characters beyond ASCII are. */
  predicate IsWord(c: char, ext: char -> bool) {
    'a' <= c <= 'z' || 'A' <= c <= 'Z' || '0' <= c <= '9' || c == '_' || (c as int >= 0x80 && ext(c))
  }

  predicate Begins(s: string, op: string) { |op| <= |s| && SearchQuery.Upper(s[..|op|]) == op }

  predicate Boundary(s: string, n: nat, ext: char -> bool) { n >= |s| || !IsWord(s[n], ext) }

  /** The length of an operator word the string starts with, or 0. */
  function LeadingOp(s: string, ext: char -> bool): (n: nat)
    ensures n <= |s|
  {
    if Begins(s, "AND") && Boundary(s, 3, ext) then 3
    else if Begins(s, "OR") && Boundary(s, 2, ext) then 2
    else if Begins(s, "NOT") && Boundary(s, 3, ext) then 3
    else 0
  }

  function DropLeadingOp(s: string, ext: char -> bool): string {
    var n := LeadingOp(s, ext);
    if n == 0 then s else LStrip(s[n..], IsSpace)
  }

  predicate Ends(s: string, op: string) {
    |op| < |s| && SearchQuery.Upper(s[|s| - |op|..]) == op && IsSpace(s[|s| - |op| - 1])
  }

  /** The length of an operator the string ends with, behind white space, or 0. */
  function TrailingOp(s: string): (n: nat)
    ensures n <= |s|
  {
    if Ends(s, "AND") then 3 else if Ends(s, "OR") then 2 else if Ends(s, "NOT") then 3 else 0
  }

  function Chop(t: string, n: nat): string
    requires n <= |t|
  {
    RStrip(t[..|t| - n], IsSpace)
  }

  function DropTrailingOp(s: string): string {
    var t := RStrip(s, IsSpace);
    if TrailingOp(t) == 0 then s else Chop(t, TrailingOp(t))
  }

  function DropOps(s: string, ext: char -> bool): string {
    DropTrailingOp(StripSpace(DropLeadingOp(StripSpace(s), ext)))
  }

  // ---------------------------------------------------- step 5: dotted terms

  function Run(s: string, ext: char -> bool): (n: nat)
    ensures n <= |s| && (n == 0 <==> s == [] || !IsWord(s[0], ext))
    ensures forall k :: 0 <= k < n ==> IsWord(s[k], ext)
  {
    if s == [] || !IsWord(s[0], ext) then 0 else 1 + Run(s[1..], ext)
  }

  predicate Joins(s: string, w: nat, ext: char -> bool) {
    w + 1 < |s| && (s[w] == '.' || s[w] == '-') && IsWord(s[w + 1], ext)
  }

  /** Word runs joined by single dots or hyphens. */
  function Chain(s: string, ext: char -> bool): (n: nat)
    ensures Run(s, ext) <= n <= |s|
    decreases |s|
  {
    var w := Run(s, ext);
    if Joins(s, w, ext) then w + 1 + Chain(s[w + 1..], ext) else w
  }

  predicate InnerUnderscore(s: string, w: nat) { w <= |s| && exists k :: 1 <= k < w - 1 && s[k] == '_' }

  /** How much the term pattern matches at the start of a word run: joined runs,
      or one run with an underscore inside; 0 for no match. */
  function TermLength(s: string, ext: char -> bool): (n: nat)
    ensures n <= |s| && (n > 0 ==> n >= 3)
  {
    var c, w := Chain(s, ext), Run(s, ext);
    if c > w then if w > 0 then c else 0
    else if InnerUnderscore(s, w) then w
    else 0
  }

  function QuoteTerms(s: string, ext: char -> bool): string
    decreases |s|
  {
    if s == [] then []
    else if IsWord(s[0], ext) then
      var n, w := TermLength(s, ext), Run(s, ext);
      if n > 0 then "\"" + s[..n] + "\"" + QuoteTerms(s[n..], ext) else s[..w] + QuoteTerms(s[w..], ext)
    else [s[0]] + QuoteTerms(s[1..], ext)
  }

  // --------------------------------------------------- step 6: restoring

  /** `s.replace(pat, with)`. */
  function ReplaceAll(s: string, pat: string, with: string): string
    requires pat != []
    decreases |s|
  {
    if s == [] then []
    else if pat <= s then with + ReplaceAll(s[|pat|..], pat, with)
    else [s[0]] + ReplaceAll(s[1..], pat, with)
  }

  /** The first `n` placeholders put back, one replacement pass each. */
  function Restored(s: string, phrases: seq<string>, n: nat): string
    requires n <= |phrases|
  {
    if n == 0 then s else ReplaceAll(Restored(s, phrases, n - 1), Mark(n - 1), phrases[n - 1])
  }

  // ------------------------------------------------------------ the function

  /** Steps 2 to 5. */
  function Cleaned(s: string, ext: char -> bool): string {
    QuoteTerms(DropOps(DropStars(Collapse(Blank(s)), true), ext), ext)
  }

  function Sanitized(query: string, caps: Caps, ext: char -> bool): string {
    var c := Capped(query, caps);
    StripSpace(Restored(Cleaned(Protect(c, 0), ext), Phrases(c), |Phrases(c)|))
  }

  method CapQuery(query: string, caps: Caps) returns (capped: string)
    ensures capped == Capped(query, caps)
  {
    var toks := Split(query);
    if |toks| > caps.tokens { toks := toks[..caps.tokens]; }
    var wildcardSeen := 0;
    var parts: seq<string> := [];
    for k := 0 to |toks|
      invariant parts == CapTokens(toks[..k], caps) && wildcardSeen == StarTokens(toks[..k])
    {
      assert toks[..k + 1][..k] == toks[..k];
      var token := toks[k];
      if HasStar(token) {
        wildcardSeen := wildcardSeen + 1;
        if wildcardSeen > caps.wildcards { token := ReplaceChar(token, '*', ""); }
      }
      parts := parts + [Shorten(token, caps.chars)];
    }
    assert toks[..|toks|] == toks;
    capped := Join(" ", parts);
  }

  method Sanitize(query: string, caps: Caps, ext: char -> bool) returns (sanitized: string)
    ensures sanitized == Sanitized(query, caps, ext)
  {
    var capped := CapQuery(query, caps);
    var quoted := Phrases(capped);
    sanitized := Cleaned(Protect(capped, 0), ext);
    ghost var start := sanitized;
    for i := 0 to |quoted|
      invariant sanitized == Restored(start, quoted, i)
    {
      sanitized := ReplaceAll(sanitized, Mark(i), quoted[i]);
    }
    sanitized := StripSpace(sanitized);
  }
}
