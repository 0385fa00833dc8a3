/** Python text operations the memory store relies on, over Unicode scalar strings. */
module Text {
  /** The separators of `str.splitlines`. */
  predicate IsLineBreak(c: char) {
    var n := c as int;
    0x0A <= n <= 0x0D || 0x1C <= n <= 0x1E || n == 0x85 || n == 0x2028 || n == 0x2029
  }

  /** The characters `str.strip` removes. */
  predicate IsSpace(c: char) {
    var n := c as int;
    || 0x09 <= n <= 0x0D || 0x1C <= n <= 0x20 || n == 0x85 || n == 0xA0 || n == 0x1680
    || 0x2000 <= n <= 0x200A || n == 0x2028 || n == 0x2029 || n == 0x202F || n == 0x205F || n == 0x3000
  }

  ghost predicate NoBreak(s: string) {
    forall c <- s :: !IsLineBreak(c)
  }

  predicate StartsWith(s: string, prefix: string) {
    |prefix| <= |s| && s[..|prefix|] == prefix
  }

  predicate EndsWith(s: string, suffix: string) {
    |suffix| <= |s| && s[|s| - |suffix|..] == suffix
  }

  predicate Contains(s: string, part: string) {
    exists i :: 0 <= i <= |s| && StartsWith(s[i..], part)
  }

  /** Python's order on text: by code point. */
  predicate StringLess(a: string, b: string) {
    b != "" && (a == "" || a[0] < b[0] || (a[0] == b[0] && StringLess(a[1..], b[1..])))
  }

  lemma {:induction false} StringLessTotal(a: string, b: string)
    ensures StringLess(a, b) || StringLess(b, a) || a == b
    ensures !(StringLess(a, b) && StringLess(b, a)) && !StringLess(a, a)
  {
    if a != "" { StringLessIrreflexive(a); }
    if a != "" && b != "" && a[0] == b[0] {
      StringLessTotal(a[1..], b[1..]);
      assert a == [a[0]] + a[1..] && b == [b[0]] + b[1..];
    }
  }

  lemma {:induction false} StringLessIrreflexive(a: string)
    ensures !StringLess(a, a)
  {
    if a != "" { StringLessIrreflexive(a[1..]); }
  }

  lemma {:induction false} StringLessTransitive(a: string, b: string, c: string)
    requires StringLess(a, b) && StringLess(b, c)
    ensures StringLess(a, c)
  {
    if a != "" && a[0] == b[0] == c[0] { StringLessTransitive(a[1..], b[1..], c[1..]); }
  }

  function StripLeft(s: string): (r: string)
    ensures r != "" ==> !IsSpace(r[0])
  {
    if s != "" && IsSpace(s[0]) then StripLeft(s[1..]) else s
  }

  function StripRight(s: string): (r: string)
    ensures r != "" ==> !IsSpace(r[|r| - 1])
  {
    if s != "" && IsSpace(s[|s| - 1]) then StripRight(s[..|s| - 1]) else s
  }

  lemma {:induction false} StripLeftIsSuffix(s: string)
    ensures |StripLeft(s)| <= |s| && StripLeft(s) == s[|s| - |StripLeft(s)|..]
  {
    if s != "" && IsSpace(s[0]) { StripLeftIsSuffix(s[1..]); }
  }

  lemma {:induction false} StripRightIsPrefix(s: string)
    ensures StripRight(s) <= s
  {
    if s != "" && IsSpace(s[|s| - 1]) { StripRightIsPrefix(s[..|s| - 1]); }
  }

  function Strip(s: string): string {
    StripRight(StripLeft(s))
  }

  function CharBytes(c: char): nat {
    var n := c as int;
    if n <= 0x7F then 1 else if n <= 0x7FF then 2 else if n <= 0xFFFF then 3 else 4
  }

  /** Length of the UTF-8 encoding, section 3 of RFC 3629. */
  function Utf8Length(s: string): nat {
    if s == "" then 0 else CharBytes(s[0]) + Utf8Length(s[1..])
  }

  lemma ContainsMiddle(a: string, part: string, b: string)
    ensures Contains(a + part + b, part)
  {
    var s := a + part + b;
    assert s[|a|..] == part + b;
    assert StartsWith(s[|a|..], part);
  }

  lemma ContainsTransitive(a: string, b: string, c: string)
    requires Contains(a, b) && Contains(b, c)
    ensures Contains(a, c)
  {
    var i :| 0 <= i <= |a| && StartsWith(a[i..], b);
    var j :| 0 <= j <= |b| && StartsWith(b[j..], c);
    assert a[i..][j..] == a[i + j..];
    assert a[i + j..][..|c|] == a[i..][..|b|][j..][..|c|] == c;
    assert StartsWith(a[i + j..], c);
  }

  lemma ConcatAssoc<T>(a: seq<T>, b: seq<T>, c: seq<T>)
    ensures a + (b + c) == (a + b) + c
  {
  }

  lemma {:induction false} Utf8LengthConcat(a: string, b: string)
    ensures Utf8Length(a + b) == Utf8Length(a) + Utf8Length(b)
  {
    if a == "" {
      assert a + b == b;
    } else {
      Utf8LengthConcat(a[1..], b);
      assert (a + b)[1..] == a[1..] + b;
    }
  }

  lemma {:induction false} Utf8LengthBound(s: string)
    ensures Utf8Length(s) <= 4 * |s|
  {
    if s != "" { Utf8LengthBound(s[1..]); }
  }

  /** `s.split("\n")`. */
  function SplitLF(s: string): (r: seq<string>)
    ensures |r| > 0
  {
    if s == "" then [""]
    else
      var rest := SplitLF(s[1..]);
      if s[0] == '\n' then [""] + rest else [[s[0]] + rest[0]] + rest[1..]
  }

  /** `"\n".join(lines)`. */
  function JoinLF(lines: seq<string>): string {
    if |lines| == 0 then ""
    else if |lines| == 1 then lines[0]
    else lines[0] + "\n" + JoinLF(lines[1..])
  }

  /** Every line followed by a line feed. */
  function CloseLines(lines: seq<string>): string {
    if |lines| == 0 then "" else lines[0] + "\n" + CloseLines(lines[1..])
  }

  /** Length of the first line without its terminator. */
  function ContentLength(s: string): (n: nat)
    ensures n <= |s| && NoBreak(s[..n]) && (n < |s| ==> IsLineBreak(s[n]))
  {
    if s == "" || IsLineBreak(s[0]) then 0
    else
      var n := 1 + ContentLength(s[1..]);
      assert s[..n] == [s[0]] + s[1..][..n - 1];
      n
  }

  /** Length of the first line with its terminator; a carriage return absorbs the line feed after it. */
  function LineLength(s: string): (n: nat)
    ensures n <= |s| && (s != "" ==> n > 0)
  {
    var n := ContentLength(s);
    if n == |s| then n
    else if s[n] == '\r' && n + 1 < |s| && s[n + 1] == '\n' then n + 2
    else n + 1
  }

  /** `s.splitlines()`. */
  function SplitLines(s: string): seq<string> {
    if s == "" then [] else [s[..ContentLength(s)]] + SplitLines(s[LineLength(s)..])
  }

  /** `s.splitlines(keepends=True)`. */
  function SplitLinesKeep(s: string): seq<string> {
    if s == "" then [] else [s[..LineLength(s)]] + SplitLinesKeep(s[LineLength(s)..])
  }

  lemma {:induction false} ContentLengthOfLine(line: string, rest: string)
    requires NoBreak(line)
    ensures ContentLength(line + "\n" + rest) == |line|
    ensures LineLength(line + "\n" + rest) == |line| + 1
  {
    var s := line + "\n" + rest;
    if line == "" {
      assert IsLineBreak(s[0]);
    } else {
      assert line[0] in line;
      assert s[1..] == line[1..] + "\n" + rest;
      ContentLengthOfLine(line[1..], rest);
    }
  }

  lemma SplitLinesStep(line: string, rest: string)
    requires NoBreak(line)
    ensures SplitLines(line + "\n" + rest) == [line] + SplitLines(rest)
    ensures SplitLinesKeep(line + "\n" + rest) == [line + "\n"] + SplitLinesKeep(rest)
  {
    var s := line + "\n" + rest;
    ContentLengthOfLine(line, rest);
    assert s[..|line|] == line;
    assert s[..|line| + 1] == line + "\n";
    assert s[|line| + 1..] == rest;
  }

  lemma {:induction false} SplitLinesOfClosed(lines: seq<string>)
    requires forall line <- lines :: NoBreak(line)
    ensures SplitLines(CloseLines(lines)) == lines
  {
    if |lines| > 0 {
      SplitLinesOfClosed(lines[1..]);
      SplitLinesStep(lines[0], CloseLines(lines[1..]));
    }
  }

  lemma {:induction false} SplitLFStep(line: string, rest: string)
    requires '\n' !in line
    ensures SplitLF(line + "\n" + rest) == [line] + SplitLF(rest)
  {
    var s := line + "\n" + rest;
    if line == "" {
      assert s[1..] == rest;
    } else {
      assert s[1..] == line[1..] + "\n" + rest;
      SplitLFStep(line[1..], rest);
      assert [line[0]] + line[1..] == line;
    }
  }

  lemma {:induction false} SplitLFOfClosed(lines: seq<string>)
    requires forall line <- lines :: NoBreak(line)
    ensures SplitLF(CloseLines(lines)) == lines + [""]
  {
    if |lines| > 0 {
      SplitLFOfClosed(lines[1..]);
      assert NoBreak(lines[0]) && IsLineBreak('\n');
      SplitLFStep(lines[0], CloseLines(lines[1..]));
      assert lines + [""] == [lines[0]] + (lines[1..] + [""]);
    }
  }

  lemma {:induction false} JoinLFClosed(lines: seq<string>)
    ensures JoinLF(lines + [""]) == CloseLines(lines)
  {
    if |lines| > 0 {
      JoinLFClosed(lines[1..]);
      assert (lines + [""])[1..] == lines[1..] + [""];
    }
  }

  lemma {:induction false} CloseLinesAppend(a: seq<string>, b: seq<string>)
    ensures CloseLines(a + b) == CloseLines(a) + CloseLines(b)
  {
    if |a| == 0 {
      assert a + b == b;
    } else {
      CloseLinesAppend(a[1..], b);
      assert (a + b)[1..] == a[1..] + b;
      ConcatAssoc(a[0] + "\n", CloseLines(a[1..]), CloseLines(b));
    }
  }

  lemma {:induction false} JoinClosedByLF(lines: seq<string>)
    requires |lines| > 0
    ensures JoinLF(lines) + "\n" == CloseLines(lines)
  {
    if |lines| > 1 {
      JoinClosedByLF(lines[1..]);
    }
  }

  lemma {:induction false} StripLeftId(s: string)
    requires s == "" || !IsSpace(s[0])
    ensures StripLeft(s) == s
  {
  }

  /** A string whose ends are not white space is left alone. */
  lemma StripId(s: string)
    requires s == "" || (!IsSpace(s[0]) && !IsSpace(s[|s| - 1]))
    ensures Strip(s) == s
  {
  }

  /** Stripping is idempotent. */
  lemma StripTwice(s: string)
    ensures Strip(Strip(s)) == Strip(s)
  {
    var l := StripLeft(s);
    var r := StripRight(l);
    StripRightIsPrefix(l);
    if r != "" { assert r[0] == l[0]; }
  }
}
