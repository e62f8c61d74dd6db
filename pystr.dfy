/** The Python 2 string operations the script relies on, with their documented
    behaviour, on strings as sequences of code points. */
module PyStr {

  predicate IsAscii(c: char) { c as int < 128 }

  /** `u.encode('ascii', 'ignore')`: every non-ASCII code point is dropped. */
  function EncodeAsciiIgnore(s: string): (r: string)
    ensures forall i :: 0 <= i < |r| ==> IsAscii(r[i])
    ensures |r| <= |s|
  {
    if s == [] then []
    else (if IsAscii(s[0]) then [s[0]] else []) + EncodeAsciiIgnore(s[1..])
  }

  /** What the encoding keeps: the ASCII characters of `s`, and only those. */
  lemma {:induction false} EncodeAsciiIgnoreMembers(s: string)
    ensures forall c :: c in EncodeAsciiIgnore(s) <==> c in s && IsAscii(c)
  {
    if s != [] {
      EncodeAsciiIgnoreMembers(s[1..]);
      assert s == [s[0]] + s[1..];
    }
  }

  /** `s.replace(c, sub)` for a one-character pattern `c`: each occurrence of `c`
      is replaced by `sub`, every other character is kept in place. */
  function ReplaceChar(s: string, c: char, sub: string): string {
    if s == [] then []
    else (if s[0] == c then sub else [s[0]]) + ReplaceChar(s[1..], c, sub)
  }

  /** What the replacement holds: no `c` unless `sub` brings one, every other
      character of `s`, and nothing but those and the characters of `sub`. */
  lemma {:induction false} ReplaceCharMembers(s: string, c: char, sub: string)
    ensures c !in sub ==> c !in ReplaceChar(s, c, sub)
    ensures forall x :: x in ReplaceChar(s, c, sub) ==> (x in s && x != c) || (c in s && x in sub)
    ensures forall x :: x != c && x in s ==> x in ReplaceChar(s, c, sub)
  {
    if s != [] {
      ReplaceCharMembers(s[1..], c, sub);
      assert s == [s[0]] + s[1..];
    }
  }

  lemma {:induction false} ReplaceCharAppend(a: string, b: string, c: char, sub: string)
    ensures ReplaceChar(a + b, c, sub) == ReplaceChar(a, c, sub) + ReplaceChar(b, c, sub)
  {
    if a != [] {
      assert (a + b)[1..] == a[1..] + b;
      ReplaceCharAppend(a[1..], b, c, sub);
    } else {
      assert a + b == b;
    }
  }

  lemma {:induction false} EncodeAsciiIgnoreAppend(a: string, b: string)
    ensures EncodeAsciiIgnore(a + b) == EncodeAsciiIgnore(a) + EncodeAsciiIgnore(b)
  {
    if a != [] {
      assert (a + b)[1..] == a[1..] + b;
      EncodeAsciiIgnoreAppend(a[1..], b);
    } else {
      assert a + b == b;
    }
  }

  /** The characters Python 2's `str.strip()` removes. */
  predicate IsSpace(c: char) {
    c == ' ' || c == '\t' || c == '\n' || c == '\r' || c == '\U{B}' || c == '\U{C}'
  }

  function StripLeft(s: string): (r: string)
    ensures |r| <= |s| && r == s[|s| - |r|..]
    ensures forall i :: 0 <= i < |s| - |r| ==> IsSpace(s[i])
    ensures r == [] || !IsSpace(r[0])
  {
    if s != [] && IsSpace(s[0]) then StripLeft(s[1..]) else s
  }

  function StripRight(s: string): (r: string)
    ensures |r| <= |s| && r == s[..|r|]
    ensures forall i :: |r| <= i < |s| ==> IsSpace(s[i])
    ensures r == [] || !IsSpace(r[|r| - 1])
  {
    if s != [] && IsSpace(s[|s| - 1]) then StripRight(s[..|s| - 1]) else s
  }

  /** `s.strip()`: whitespace removed at both ends and nowhere else. */
  function Strip(s: string): string {
    StripRight(StripLeft(s))
  }

  /** `s.startswith(p)`. */
  predicate StartsWith(s: string, p: string) {
    |p| <= |s| && s[..|p|] == p
  }

  /** `pat` occurs in `s` starting at index `i`. */
  predicate IsAt(s: string, i: int, pat: string) {
    0 <= i && i + |pat| <= |s| && s[i..i + |pat|] == pat
  }

  /** `s.split(sep)[0]`: the part of `s` before the first occurrence of `sep`,
      or all of `s` when `sep` does not occur. */
  function BeforeFirst(s: string, sep: string): (r: string)
    requires |sep| > 0
    ensures |r| <= |s| && r == s[..|r|]
    ensures forall i :: 0 <= i < |r| ==> !IsAt(s, i, sep)
    ensures |r| < |s| ==> IsAt(s, |r|, sep)
    decreases |s|
  {
    if |s| < |sep| then s
    else if s[..|sep|] == sep then []
    else
      var rest := BeforeFirst(s[1..], sep);
      assert forall i :: 1 <= i <= |rest| + 1 ==> (IsAt(s, i, sep) <==> IsAt(s[1..], i - 1, sep)) by {
        forall i | 1 <= i <= |rest| + 1 ensures IsAt(s, i, sep) <==> IsAt(s[1..], i - 1, sep) {
          if i + |sep| <= |s| {
            assert s[1..][i - 1..i - 1 + |sep|] == s[i..i + |sep|];
          }
        }
      }
      assert !IsAt(s, 0, sep);
      [s[0]] + rest
  }

  predicate IsLineBreak(c: char) { c == '\n' || c == '\r' }

  /** Index of the first line break of `s` at or after `from`, or `|s|`. */
  function FirstBreak(s: string, from: nat): (i: nat)
    requires from <= |s|
    ensures from <= i <= |s|
    ensures forall j :: from <= j < i ==> !IsLineBreak(s[j])
    ensures i < |s| ==> IsLineBreak(s[i])
    decreases |s| - from
  {
    if from == |s| || IsLineBreak(s[from]) then from else FirstBreak(s, from + 1)
  }

  /** `s.splitlines()` on a byte string: lines end at `\n`, `\r` or `\r\n`,
      the terminators are dropped, and a final terminator opens no new line. */
  function SplitLines(s: string): (lines: seq<string>)
    ensures lines == [] <==> s == []
    ensures forall k, j :: 0 <= k < |lines| && 0 <= j < |lines[k]| ==> !IsLineBreak(lines[k][j])
    decreases |s|
  {
    if s == [] then []
    else
      var i := FirstBreak(s, 0);
      if i == |s| then [s]
      else
        var skip := if s[i] == '\r' && i + 1 < |s| && s[i + 1] == '\n' then 2 else 1;
        [s[..i]] + SplitLines(s[i + skip..])
  }

  lemma FirstBreakAt(s: string, from: nat, k: nat)
    requires from <= k < |s| && IsLineBreak(s[k])
    requires forall j :: from <= j < k ==> !IsLineBreak(s[j])
    ensures FirstBreak(s, from) == k
  {
  }

  /** Text without a line break is one line. */
  lemma SplitLinesOneLine(a: string)
    requires a != []
    requires forall j :: 0 <= j < |a| ==> !IsLineBreak(a[j])
    ensures SplitLines(a) == [a]
  {
    assert FirstBreak(a, 0) == |a|;
  }

  /** A line ended by `\n`, or by a `\r` not followed by `\n`, comes first and the
      rest is split on its own. */
  lemma SplitLinesBreak(a: string, t: char, b: string)
    requires forall j :: 0 <= j < |a| ==> !IsLineBreak(a[j])
    requires t == '\n' || (t == '\r' && (b == [] || b[0] != '\n'))
    ensures SplitLines(a + [t] + b) == [a] + SplitLines(b)
  {
    var s := a + [t] + b;
    FirstBreakAt(s, 0, |a|);
    assert s[..|a|] == a;
    assert s[|a| + 1..] == b;
  }

  /** A line ended by `\r\n`: the pair is one terminator. */
  lemma SplitLinesCrLf(a: string, b: string)
    requires forall j :: 0 <= j < |a| ==> !IsLineBreak(a[j])
    ensures SplitLines(a + "\r\n" + b) == [a] + SplitLines(b)
  {
    var s := a + "\r\n" + b;
    FirstBreakAt(s, 0, |a|);
    assert s[..|a|] == a;
    assert s[|a| + 2..] == b;
  }

  function DigitChar(d: nat): (c: char)
    requires d < 10
    ensures '0' <= c <= '9'
  {
    ['0', '1', '2', '3', '4', '5', '6', '7', '8', '9'][d]
  }

  predicate IsDigit(c: char) { '0' <= c <= '9' }

  /** `str(n)` for a non-negative integer: its decimal digits, without leading zeros. */
  function NatToString(n: nat): (r: string)
    ensures |r| >= 1
    ensures forall i :: 0 <= i < |r| ==> IsDigit(r[i])
    ensures n > 0 ==> r[0] != '0'
    decreases n
  {
    if n < 10 then [DigitChar(n)] else NatToString(n / 10) + [DigitChar(n % 10)]
  }

  /** The number a string of decimal digits denotes. */
  function DecimalValue(s: string): nat
    requires forall i :: 0 <= i < |s| ==> IsDigit(s[i])
  {
    if s == [] then 0
    else
      assert IsDigit(s[|s| - 1]);
      10 * DecimalValue(s[..|s| - 1]) + (s[|s| - 1] as int - '0' as int)
  }

  lemma {:induction false} NatToStringRoundTrip(n: nat)
    ensures DecimalValue(NatToString(n)) == n
    decreases n
  {
    var r := NatToString(n);
    if n >= 10 {
      NatToStringRoundTrip(n / 10);
      assert r[..|r| - 1] == NatToString(n / 10);
    }
  }
}
