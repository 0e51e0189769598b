/** The library string operations the program relies on. */
module PyString {

  /** The characters `str.isspace` accepts, which `split` and `strip` use. */
  predicate IsSpace(c: char) {
    var n := c as int;
    9 <= n <= 13 || 28 <= n <= 32 || n == 0x85 || n == 0xA0 || n == 0x1680 || 0x2000 <= n <= 0x200A
    || n == 0x2028 || n == 0x2029 || n == 0x202F || n == 0x205F || n == 0x3000
  }

  predicate Spaceless(s: string) { forall i :: 0 <= i < |s| ==> !IsSpace(s[i]) }

  function LStrip(s: string, drop: char -> bool): (r: string)
    ensures |r| <= |s|
  {
    if s == [] || !drop(s[0]) then s else LStrip(s[1..], drop)
  }

  function RStrip(s: string, drop: char -> bool): (r: string)
    ensures |r| <= |s|
  {
    if s == [] || !drop(s[|s| - 1]) then s else RStrip(s[..|s| - 1], drop)
  }

  /** Only the leading characters to drop go. */
  lemma {:induction false} LStripSound(s: string, drop: char -> bool)
    ensures var r := LStrip(s, drop);
      r == s[|s| - |r|..] && (r != [] ==> !drop(r[0])) && forall i :: 0 <= i < |s| - |r| ==> drop(s[i])
  {
    if s != [] && drop(s[0]) { LStripSound(s[1..], drop); }
  }

  /** Only the trailing characters to drop go. */
  lemma {:induction false} RStripSound(s: string, drop: char -> bool)
    ensures var r := RStrip(s, drop);
      r == s[..|r|] && (r != [] ==> !drop(r[|r| - 1])) && forall i :: |r| <= i < |s| ==> drop(s[i])
  {
    if s != [] && drop(s[|s| - 1]) { RStripSound(s[..|s| - 1], drop); }
  }

  function Strip(s: string, drop: char -> bool): string { RStrip(LStrip(s, drop), drop) }

  function StripSpace(s: string): string { Strip(s, IsSpace) }

  /** Length of the leading run of characters that are not white space. */
  function WordLength(s: string): (n: nat)
    ensures n <= |s| && Spaceless(s[..n]) && (n < |s| ==> IsSpace(s[n]))
  {
    if s == [] || IsSpace(s[0]) then 0 else 1 + WordLength(s[1..])
  }

  /** `s.split()`: the maximal runs of characters that are not white space. */
  function Split(s: string): (r: seq<string>)
    ensures forall i :: 0 <= i < |r| ==> r[i] != [] && Spaceless(r[i])
    decreases |s|
  {
    if s == [] then []
    else if IsSpace(s[0]) then Split(s[1..])
    else [s[..WordLength(s)]] + Split(s[WordLength(s)..])
  }

  /** `sep.join(parts)`. */
  function Join(sep: string, parts: seq<string>): string {
    if parts == [] then ""
    else if |parts| == 1 then parts[0]
    else parts[0] + sep + Join(sep, parts[1..])
  }

  /** `s.replace(c, with)` for a single character. */
  function ReplaceChar(s: string, c: char, with: string): string {
    if s == [] then [] else (if s[0] == c then with else [s[0]]) + ReplaceChar(s[1..], c, with)
  }

  lemma {:induction false} ReplaceCharConcat(a: string, b: string, c: char, with: string)
    ensures ReplaceChar(a + b, c, with) == ReplaceChar(a, c, with) + ReplaceChar(b, c, with)
  {
    if a == [] {
      assert a + b == b;
    } else {
      ReplaceCharConcat(a[1..], b, c, with);
      assert (a + b)[1..] == a[1..] + b && (a + b)[0] == a[0];
      var head := if a[0] == c then with else [a[0]];
      var x, y := ReplaceChar(a[1..], c, with), ReplaceChar(b, c, with);
      assert head + (x + y) == head + x + y;
    }
  }

  lemma SliceOfSlice(r: string, a: nat, b: nat, i: nat, j: nat)
    requires a <= b <= |r| && i <= j <= b - a
    ensures r[a..b][i..j] == r[a + i..a + j]
  {
    var s := r[a..b];
    var t, u := s[i..j], r[a + i..a + j];
    assert |t| == |u|;
    forall k | 0 <= k < |t| ensures t[k] == u[k] {
      assert t[k] == s[i + k] && u[k] == r[a + i + k];
      assert s[i + k] == r[a + (i + k)];
    }
    assert t == u;
  }
}
