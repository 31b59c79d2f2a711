/**
 * The handful of Python `str` operations the checker relies on, over Dafny
 * strings (sequences of Unicode scalar values): `startswith`, the substring
 * test `in`, `lower`, `strip` and `splitlines`.
 */
module Text {

  /** Characters for which Python's `str.isspace()` holds, and which `str.strip()` removes. */
  predicate IsSpace(c: char) {
    || ('\U{0009}' <= c <= '\U{000D}')
    || ('\U{001C}' <= c <= '\U{001F}')
    || c == ' ' || c == '\U{0085}' || c == '\U{00A0}' || c == '\U{1680}'
    || ('\U{2000}' <= c <= '\U{200A}')
    || c == '\U{2028}' || c == '\U{2029}' || c == '\U{202F}' || c == '\U{205F}' || c == '\U{3000}'
  }

  /** Characters at which Python's `str.splitlines()` ends a line ("\r\n" is one boundary). */
  predicate IsLineBreak(c: char) {
    || c == '\n' || c == '\r' || c == '\U{000B}' || c == '\U{000C}'
    || c == '\U{001C}' || c == '\U{001D}' || c == '\U{001E}'
    || c == '\U{0085}' || c == '\U{2028}' || c == '\U{2029}'
  }

  /** Python's `s.startswith(p)`. */
  predicate StartsWith(s: string, p: string) {
    |p| <= |s| && s[..|p|] == p
  }

  /** Python's `t in s`: `t` occurs in `s` as a contiguous substring. */
  predicate Contains(s: string, t: string)
    ensures StartsWith(s, t) ==> Contains(s, t)
    ensures Contains(s, t) ==> |t| <= |s|
    decreases |s|
  {
    StartsWith(s, t) || (s != [] && Contains(s[1..], t))
  }

  /** An occurrence of `t` in `s` begins at position `k`. */
  predicate OccursAt(s: string, t: string, k: int) {
    0 <= k <= |s| - |t| && s[k..k + |t|] == t
  }

  /** `Contains` holds exactly when some position of `s` starts an occurrence of `t`. */
  lemma {:induction false} ContainsAt(s: string, t: string)
    ensures Contains(s, t) <==> exists k :: OccursAt(s, t, k)
    decreases |s|
  {
    if StartsWith(s, t) {
      assert OccursAt(s, t, 0);
    }
    if s != [] {
      ContainsAt(s[1..], t);
      if exists k :: OccursAt(s, t, k) {
        var k :| OccursAt(s, t, k);
        if k > 0 {
          assert OccursAt(s[1..], t, k - 1);
        }
      }
      if Contains(s[1..], t) {
        var k :| OccursAt(s[1..], t, k);
        assert OccursAt(s, t, k + 1);
      }
    }
  }

  /** Every character of a substring occurs in the string. */
  lemma ContainedCharsOccur(s: string, t: string, c: char)
    requires Contains(s, t) && c in t
    ensures c in s
  {
    ContainsAt(s, t);
    var k :| OccursAt(s, t, k);
    var j :| 0 <= j < |t| && t[j] == c;
    assert s[k + j] == c;
  }

  /** ASCII lower-casing of one character. */
  function LowerChar(c: char): char {
    if 'A' <= c <= 'Z' then (c as int + 32) as char else c
  }

  /** Python's `s.lower()`, restricted to ASCII letters. */
  function Lower(s: string): (r: string)
    ensures |r| == |s|
    ensures forall i :: 0 <= i < |s| ==> r[i] == LowerChar(s[i])
  {
    seq(|s|, i requires 0 <= i < |s| => LowerChar(s[i]))
  }

  /** Python's `s.lstrip()`: drops the leading whitespace and nothing else. */
  function TrimLeft(s: string): (r: string)
    ensures |r| <= |s| && r == s[|s| - |r|..]
    ensures forall j :: 0 <= j < |s| - |r| ==> IsSpace(s[j])
    ensures r != [] ==> !IsSpace(r[0])
    decreases |s|
  {
    if s != [] && IsSpace(s[0]) then TrimLeft(s[1..]) else s
  }

  /** Python's `s.rstrip()`: drops the trailing whitespace and nothing else. */
  function TrimRight(s: string): (r: string)
    ensures |r| <= |s| && r == s[..|r|]
    ensures forall j :: |r| <= j < |s| ==> IsSpace(s[j])
    ensures r != [] ==> !IsSpace(r[|r| - 1])
    decreases |s|
  {
    if s != [] && IsSpace(s[|s| - 1]) then TrimRight(s[..|s| - 1]) else s
  }

  /**
   * Python's `s.strip()`: the part of `s` left once the whitespace at both
   * ends is gone, so that what remains neither starts nor ends with whitespace.
   */
  function Strip(s: string): (r: string)
    ensures |r| <= |TrimLeft(s)| && r == TrimLeft(s)[..|r|]
    ensures forall j :: |r| <= j < |TrimLeft(s)| ==> IsSpace(TrimLeft(s)[j])
    ensures r != [] ==> !IsSpace(r[0]) && !IsSpace(r[|r| - 1])
  {
    TrimRight(TrimLeft(s))
  }

  /**
   * Stripping the end of a line never changes whether it begins with a
   * prefix that ends in a non-space character: only the leading whitespace
   * matters to `s.strip().startswith(p)`.
   */
  lemma StripStartsWith(s: string, p: string)
    requires p != [] && !IsSpace(p[|p| - 1])
    ensures StartsWith(Strip(s), p) <==> StartsWith(TrimLeft(s), p)
  {
    var t := TrimLeft(s);
    var r := TrimRight(t);
    if StartsWith(t, p) {
      assert t[|p| - 1] == p[|p| - 1];
      assert |p| <= |r|;
      assert r[..|p|] == t[..|p|];
    }
    if StartsWith(r, p) {
      assert t[..|p|] == r[..|p|];
    }
  }

  /** Leading whitespace does not survive `lstrip`. */
  lemma {:induction false} TrimLeftSkipsSpaces(w: string, s: string)
    requires forall j :: 0 <= j < |w| ==> IsSpace(w[j])
    ensures TrimLeft(w + s) == TrimLeft(s)
    decreases |w|
  {
    if w != [] {
      assert (w + s)[1..] == w[1..] + s;
      TrimLeftSkipsSpaces(w[1..], s);
    } else {
      assert w + s == s;
    }
  }

  /** Index of the first line break in `s`, or `|s|` when there is none. */
  function LineEnd(s: string): (k: nat)
    ensures k <= |s|
    ensures forall j :: 0 <= j < k ==> !IsLineBreak(s[j])
    ensures k < |s| ==> IsLineBreak(s[k])
    decreases |s|
  {
    if s == [] || IsLineBreak(s[0]) then 0 else 1 + LineEnd(s[1..])
  }

  /** Number of characters in the line boundary at `k`: two for "\r\n", one otherwise. */
  function BreakLength(s: string, k: nat): (n: nat)
    requires k < |s|
    ensures 1 <= n <= |s| - k
  {
    if s[k] == '\r' && k + 1 < |s| && s[k + 1] == '\n' then 2 else 1
  }

  /** No character of any of `lines` is a line break. */
  ghost predicate NoLineBreaks(lines: seq<string>) {
    forall i, j :: 0 <= i < |lines| && 0 <= j < |lines[i]| ==> !IsLineBreak(lines[i][j])
  }

  /**
   * Python's `s.splitlines()`: the lines of `s` without their terminators;
   * a terminator at the very end does not start a further, empty line.
   */
  function SplitLines(s: string): (r: seq<string>)
    ensures NoLineBreaks(r)
    ensures r == [] <==> s == []
    decreases |s|
  {
    if s == [] then []
    else
      var k := LineEnd(s);
      if k == |s| then [s]
      else [s[..k]] + SplitLines(s[k + BreakLength(s, k)..])
  }

  /** Each line followed by "\n", concatenated: the text a list of lines is written out as. */
  function JoinLines(lines: seq<string>): string {
    if lines == [] then "" else lines[0] + "\n" + JoinLines(lines[1..])
  }

  /** Splitting text written out line by line gives the lines back. */
  lemma {:induction false} SplitJoinLines(lines: seq<string>)
    requires NoLineBreaks(lines)
    ensures SplitLines(JoinLines(lines)) == lines
  {
    if lines != [] {
      var l := lines[0];
      var rest := JoinLines(lines[1..]);
      var s := JoinLines(lines);
      assert s == l + "\n" + rest;
      assert s[|l|] == '\n';
      assert forall j :: 0 <= j < |l| ==> s[j] == lines[0][j];
      var k := LineEnd(s);
      assert k == |l|;
      assert BreakLength(s, k) == 1;
      assert s[..k] == l;
      assert s[k + 1..] == rest;
      assert NoLineBreaks(lines[1..]) by {
        forall i, j | 0 <= i < |lines[1..]| && 0 <= j < |lines[1..][i]|
          ensures !IsLineBreak(lines[1..][i][j])
        {
          assert lines[1..][i] == lines[i + 1];
        }
      }
      SplitJoinLines(lines[1..]);
    }
  }

  /** Splitting text whose last line has no terminator gives that line back as well. */
  lemma {:induction false} SplitJoinLast(lines: seq<string>, last: string)
    requires NoLineBreaks(lines)
    requires last != [] && forall j :: 0 <= j < |last| ==> !IsLineBreak(last[j])
    ensures SplitLines(JoinLines(lines) + last) == lines + [last]
  {
    if lines == [] {
      assert JoinLines(lines) + last == last;
      assert LineEnd(last) == |last|;
    } else {
      var l := lines[0];
      var rest := JoinLines(lines[1..]) + last;
      var s := JoinLines(lines) + last;
      assert s == l + "\n" + rest;
      assert s[|l|] == '\n';
      assert forall j :: 0 <= j < |l| ==> s[j] == lines[0][j];
      var k := LineEnd(s);
      assert k == |l|;
      assert BreakLength(s, k) == 1;
      assert s[..k] == l;
      assert s[k + 1..] == rest;
      assert NoLineBreaks(lines[1..]) by {
        forall i, j | 0 <= i < |lines[1..]| && 0 <= j < |lines[1..][i]|
          ensures !IsLineBreak(lines[1..][i][j])
        {
          assert lines[1..][i] == lines[i + 1];
        }
      }
      SplitJoinLast(lines[1..], last);
      assert [l] + (lines[1..] + [last]) == lines + [last];
    }
  }
}
