/** The character classes and string primitives of Python 3 that both tip parsers rely on:
    `str.isspace`, `str.isdigit`, `str.strip()`, `str.splitlines()`, the first position of a
    character (`c in s`, `s.split(c, 1)`) and `str(n)` for a natural number.
    A Python `str` is a sequence of code points, modelled as `string` (`seq<char>`). */
module Chars {

  /** `str.isspace` for one code point: the characters Python 3 classes as whitespace. */
  predicate IsSpace(c: char) {
    var n := c as int;
    (0x09 <= n <= 0x0D) || (0x1C <= n <= 0x20) || n == 0x85 || n == 0xA0 || n == 0x1680
    || (0x2000 <= n <= 0x200A) || n == 0x2028 || n == 0x2029 || n == 0x202F || n == 0x205F
    || n == 0x3000
  }

  /** The line boundaries of `str.splitlines`. Every one of them is whitespace too, which is why
      the parsers never see a boundary character inside a stripped line. */
  predicate IsLineBreak(c: char)
    ensures IsLineBreak(c) ==> IsSpace(c)
  {
    var n := c as int;
    (0x0A <= n <= 0x0D) || (0x1C <= n <= 0x1E) || n == 0x85 || n == 0x2028 || n == 0x2029
  }

  /** `str.isdigit` for one code point, restricted to the ASCII digits. */
  predicate IsDigit(c: char) {
    '0' <= c <= '9'
  }

  predicate AllSpace(s: string) {
    forall k :: 0 <= k < |s| ==> IsSpace(s[k])
  }

  /** What `str.strip()` returns: empty, or starting and ending with a non-space. */
  predicate IsStripped(s: string) {
    s == [] || (!IsSpace(s[0]) && !IsSpace(s[|s| - 1]))
  }

  /** The number of whitespace characters `s` starts with. */
  function LeadingSpace(s: string): (n: nat)
    ensures n <= |s|
    ensures AllSpace(s[..n])
    ensures n < |s| ==> !IsSpace(s[n])
    decreases |s|
  {
    if s == [] || !IsSpace(s[0]) then 0
    else
      var n := LeadingSpace(s[1..]);
      assert s[..n + 1] == [s[0]] + s[1..][..n];
      n + 1
  }

  /** The number of whitespace characters `s` ends with. */
  function TrailingSpace(s: string): (n: nat)
    ensures n <= |s|
    ensures AllSpace(s[|s| - n..])
    ensures n < |s| ==> !IsSpace(s[|s| - 1 - n])
    decreases |s|
  {
    if s == [] || !IsSpace(s[|s| - 1]) then 0
    else
      var front := s[..|s| - 1];
      var n := TrailingSpace(front);
      assert s[|s| - (n + 1)..] == front[|front| - n..] + [s[|s| - 1]];
      n + 1
  }

  /** `str.strip()`: the part of `s` left after removing its leading and trailing whitespace.
      `s` is whitespace, then the result, then whitespace again, and the result is stripped. */
  function Strip(s: string): (r: string)
    ensures IsStripped(r)
    ensures LeadingSpace(s) + |r| <= |s|
    ensures r == s[LeadingSpace(s)..LeadingSpace(s) + |r|]
    ensures AllSpace(s[LeadingSpace(s) + |r|..])
    ensures r == [] <==> AllSpace(s)
  {
    StripCoreStripped(s);
    StripCoreInside(s);
    StripCoreEmpty(s);
    StripCore(s)
  }

  /** What is left of `s` between its leading and its trailing whitespace. */
  function StripCore(s: string): string {
    var t := s[LeadingSpace(s)..];
    t[..|t| - TrailingSpace(t)]
  }

  lemma StripCoreStripped(s: string)
    ensures IsStripped(StripCore(s))
  {
    var t := s[LeadingSpace(s)..];
    assert t != [] ==> !IsSpace(t[0]);
  }

  lemma StripCoreInside(s: string)
    ensures var i, r := LeadingSpace(s), StripCore(s);
            i + |r| <= |s| && r == s[i..i + |r|] && AllSpace(s[i + |r|..])
  {
    var i := LeadingSpace(s);
    var t := s[i..];
    var m := |t| - TrailingSpace(t);
    assert StripCore(s) == t[..m];
    PrefixOfSuffix(s, i, m);
    SuffixOfSuffix(s, i, m);
  }

  lemma StripCoreEmpty(s: string)
    ensures StripCore(s) == [] <==> AllSpace(s)
  {
    var i := LeadingSpace(s);
    var t := s[i..];
    if StripCore(s) == [] {
      assert |t| - TrailingSpace(t) == 0;
      assert t == [];
      assert s[..i] == s;
    }
    if AllSpace(s) {
      assert i == |s|;
    }
  }

  lemma PrefixOfSuffix(s: string, i: nat, m: nat)
    requires i + m <= |s|
    ensures s[i..][..m] == s[i..i + m]
  {
  }

  lemma SuffixOfSuffix(s: string, i: nat, m: nat)
    requires i + m <= |s|
    ensures s[i..][m..] == s[i + m..]
  {
  }

  /** `LeadingSpace` is the position of the first non-space character. */
  lemma LeadingSpaceExact(s: string, n: nat)
    requires n <= |s|
    requires forall k :: 0 <= k < n ==> IsSpace(s[k])
    requires n < |s| ==> !IsSpace(s[n])
    ensures LeadingSpace(s) == n
  {
    var l := LeadingSpace(s);
    assert forall k :: 0 <= k < l ==> IsSpace(s[k]) by {
      forall k | 0 <= k < l ensures IsSpace(s[k]) { assert s[..l][k] == s[k]; }
    }
  }

  /** `TrailingSpace` counts back to the last non-space character. */
  lemma {:induction false} TrailingSpaceExact(s: string, n: nat)
    requires n <= |s|
    requires forall k :: |s| - n <= k < |s| ==> IsSpace(s[k])
    requires n < |s| ==> !IsSpace(s[|s| - 1 - n])
    ensures TrailingSpace(s) == n
    decreases |s|
  {
    if n > 0 {
      var p := s[..|s| - 1];
      assert IsSpace(s[|s| - 1]);
      assert forall k :: 0 <= k < |p| ==> p[k] == s[k];
      TrailingSpaceExact(p, n - 1);
    }
  }

  /** Strip has exactly one possible result: whenever `s` is whitespace, then a stripped `r`, then
      whitespace, `Strip(s)` is that `r`. */
  lemma {:induction false} StripUnique(s: string, a: string, r: string, b: string)
    requires s == a + r + b
    requires AllSpace(a) && AllSpace(b) && IsStripped(r)
    ensures Strip(s) == r
  {
    if r == [] {
      forall k | 0 <= k < |s| ensures IsSpace(s[k]) {
        if k < |a| { assert s[k] == a[k]; } else { assert s[k] == b[k - |a|]; }
      }
    } else {
      assert s[|a|] == r[0];
      assert forall k :: 0 <= k < |a| ==> s[k] == a[k];
      LeadingSpaceExact(s, |a|);
      var t := s[|a|..];
      assert t == r + b;
      assert t[|t| - 1 - |b|] == r[|r| - 1];
      assert forall k :: |t| - |b| <= k < |t| ==> t[k] == b[k - |r|];
      TrailingSpaceExact(t, |b|);
      assert t[..|t| - |b|] == r;
    }
  }

  /** Stripping twice is stripping once. */
  lemma StripIdempotent(s: string)
    ensures Strip(Strip(s)) == Strip(s)
  {
    StripUnique(Strip(s), [], Strip(s), []);
  }

  /** Stripping text that already has no surrounding whitespace leaves it unchanged. */
  lemma StrippedFixed(s: string)
    requires IsStripped(s)
    ensures Strip(s) == s
  {
    StripUnique(s, [], s, []);
  }

  /** The first position of `c` in `s`, or |s| when `c` does not occur (so `c in s` iff the result
      is below |s|, and `s.split(c, 1)[1]` is everything after it). */
  function IndexOf(s: string, c: char): (k: nat)
    ensures k <= |s|
    ensures k < |s| ==> s[k] == c
    ensures forall j :: 0 <= j < k ==> s[j] != c
    ensures k == |s| <==> c !in s
    decreases |s|
  {
    if s == [] || s[0] == c then 0 else 1 + IndexOf(s[1..], c)
  }

  predicate NoLineBreak(s: string) {
    forall j :: 0 <= j < |s| ==> !IsLineBreak(s[j])
  }

  /** The position of the first line boundary in `s`, or |s| when there is none. */
  function FirstBreak(s: string): (k: nat)
    ensures k <= |s|
    ensures k < |s| ==> IsLineBreak(s[k])
    ensures NoLineBreak(s[..k])
    decreases |s|
  {
    if s == [] || IsLineBreak(s[0]) then 0 else 1 + FirstBreak(s[1..])
  }

  /** `str.splitlines()`: the text between line boundaries, where "\r\n" is one boundary and a
      boundary at the very end does not open an empty last line ("" has no lines at all). */
  function SplitLines(s: string): (lines: seq<string>)
    ensures forall i :: 0 <= i < |lines| ==> NoLineBreak(lines[i])
    ensures |lines| <= |s|
    decreases |s|
  {
    if s == [] then []
    else
      var k := FirstBreak(s);
      if k == |s| then [s]
      else
        var next := if s[k] == '\r' && k + 1 < |s| && s[k + 1] == '\n' then k + 2 else k + 1;
        [s[..k]] + SplitLines(s[next..])
  }

  /** Lines written one after the other with `eol` between each two of them and nothing after
      the last one. */
  function Joined(lines: seq<string>, eol: string): string
    decreases |lines|
  {
    if lines == [] then []
    else if |lines| == 1 then lines[0]
    else lines[0] + eol + Joined(lines[1..], eol)
  }

  /** Splitting gives back exactly the lines that were written, whether they are separated by
      "\n" or by "\r\n" and whether or not one more separator ends the text, as long as no line
      holds a boundary of its own. (Without that final separator an empty last line is not a
      line at all.) */
  lemma {:induction false} SplitLinesJoined(lines: seq<string>, eol: string, final: string)
    requires forall i :: 0 <= i < |lines| ==> NoLineBreak(lines[i])
    requires eol == "\n" || eol == "\r\n"
    requires final == [] || final == eol
    requires lines == [] ==> final == []
    requires lines != [] && lines[|lines| - 1] == [] ==> final == eol
    ensures SplitLines(Joined(lines, eol) + final) == lines
    decreases |lines|
  {
    if |lines| == 1 {
      SplitLinesLast(lines[0], eol, final);
    } else if |lines| > 1 {
      SplitLinesJoined(lines[1..], eol, final);
      SplitLinesCons(lines, eol, final);
    }
  }

  /** One more line in front of joined lines is one more line in front of their split. */
  lemma SplitLinesCons(lines: seq<string>, eol: string, final: string)
    requires |lines| > 1 && NoLineBreak(lines[0])
    requires eol == "\n" || eol == "\r\n"
    requires SplitLines(Joined(lines[1..], eol) + final) == lines[1..]
    ensures SplitLines(Joined(lines, eol) + final) == lines
  {
    JoinedCons(lines, eol, final);
    SplitLinesFirst(lines[0], eol, Joined(lines[1..], eol) + final);
    assert lines == [lines[0]] + lines[1..];
  }

  lemma JoinedCons(lines: seq<string>, eol: string, final: string)
    requires |lines| > 1
    ensures Joined(lines, eol) + final == lines[0] + eol + (Joined(lines[1..], eol) + final)
  {
    var tail := Joined(lines[1..], eol);
    assert Joined(lines, eol) == lines[0] + eol + tail;
  }

  /** The last line, followed by at most one separator. */
  lemma SplitLinesLast(l: string, eol: string, final: string)
    requires NoLineBreak(l)
    requires eol == "\n" || eol == "\r\n"
    requires final == [] || final == eol
    requires l == [] ==> final == eol
    ensures SplitLines(l + final) == [l]
  {
    if final == [] {
      assert l + final == l;
      SplitLinesBreakFree(l);
    } else {
      SplitLinesFirst(l, eol, []);
      assert l + eol + [] == l + final;
    }
  }

  /** A non-empty text without a line boundary is one line. */
  lemma SplitLinesBreakFree(l: string)
    requires l != [] && NoLineBreak(l)
    ensures SplitLines(l) == [l]
  {
    assert FirstBreak(l) == |l|;
  }

  /** A line followed by "\n" or "\r\n" is split off as the first line. */
  lemma SplitLinesFirst(l: string, eol: string, rest: string)
    requires NoLineBreak(l)
    requires eol == "\n" || eol == "\r\n"
    ensures SplitLines(l + eol + rest) == [l] + SplitLines(rest)
  {
    var s := l + eol + rest;
    assert forall j :: 0 <= j < |l| ==> s[j] == l[j];
    assert s[|l|] == eol[0];
    assert eol == "\r\n" ==> s[|l| + 1] == '\n';
    assert FirstBreak(s) == |l|;
    assert s[..|l|] == l;
    assert s[|l| + |eol|..] == rest;
  }

  function DigitChar(d: nat): (c: char)
    requires d < 10
    ensures IsDigit(c) && c as int - '0' as int == d
  {
    ('0' as int + d) as char
  }

  /** `str(n)` for a natural number: its decimal digits, without leading zeros. */
  function Decimal(n: nat): (s: string)
    ensures |s| >= 1
    ensures forall k :: 0 <= k < |s| ==> IsDigit(s[k])
    decreases n
  {
    if n < 10 then [DigitChar(n)] else Decimal(n / 10) + [DigitChar(n % 10)]
  }

  /** The number a string of decimal digits denotes (`int(s)`). */
  function DecimalValue(s: string): int {
    if s == [] then 0 else 10 * DecimalValue(s[..|s| - 1]) + (s[|s| - 1] as int - '0' as int)
  }

  /** Reading the digits back gives the number that was written. */
  lemma {:induction false} DecimalRoundTrip(n: nat)
    ensures DecimalValue(Decimal(n)) == n
    decreases n
  {
    if n >= 10 {
      DecimalRoundTrip(n / 10);
      var s := Decimal(n);
      assert s[..|s| - 1] == Decimal(n / 10);
    }
  }

  /** Different numbers are written differently. */
  lemma DecimalInjective(m: nat, n: nat)
    requires Decimal(m) == Decimal(n)
    ensures m == n
  {
    DecimalRoundTrip(m);
    DecimalRoundTrip(n);
  }
}
