/** `MEMORY.md`: the escaped Markdown row printer, its scanner, and the text rewrites built on them. */
module MemoryIndex {
  import opened Text
  import opened Wrappers

  const MAX_INDEX_BYTES: nat := 8 * 1024 * 1024
  const MAX_ID_CHARS: nat := 128
  const SUMMARY_CHARS: nat := 100
  const HEADER_LINE: string := "# Memory Index"
  const HEADER: string := HEADER_LINE + "\n\n"
  const MEMORY_TYPES: set<string> := {"user", "feedback", "project", "reference"}

  // ---- Entry filenames ----

  predicate IsIdChar(c: char) {
    'a' <= c <= 'z' || 'A' <= c <= 'Z' || '0' <= c <= '9' || c == '-' || c == '_'
  }

  predicate IsSafeEntryId(id: string) {
    0 < |id| <= MAX_ID_CHARS && forall c <- id :: IsIdChar(c)
  }

  function IndexOf(s: string, c: char): (n: nat)
    ensures n <= |s| && c !in s[..n] && (n < |s| ==> s[n] == c)
  {
    if s == "" || s[0] == c then 0
    else
      var n := 1 + IndexOf(s[1..], c);
      assert s[..n] == [s[0]] + s[1..][..n - 1];
      n
  }

  lemma {:induction false} IndexOfUnique(s: string, c: char, k: nat)
    requires k < |s| && s[k] == c && c !in s[..k]
    ensures IndexOf(s, c) == k
  {
    if k > 0 {
      assert s[0] == s[..k][0];
      assert s[1..][..k - 1] == s[..k][1..];
      IndexOfUnique(s[1..], c, k - 1);
    }
  }

  function Filename(memoryType: string, id: string): string {
    memoryType + "_" + id + ".md"
  }

  /** The exact `<type>_<id>.md` names the store publishes and journals. */
  predicate IsEntryFilename(name: string) {
    && EndsWith(name, ".md")
    && var stem := name[..|name| - 3];
       var sep := IndexOf(stem, '_');
       sep < |stem| && stem[..sep] in MEMORY_TYPES && IsSafeEntryId(stem[sep + 1..])
  }

  predicate IsFilenameChar(c: char) { IsIdChar(c) || c == '.' }

  lemma EntryFilenameChars(name: string)
    requires IsEntryFilename(name)
    ensures forall c <- name :: IsFilenameChar(c)
  {
    var stem := name[..|name| - 3];
    var sep := IndexOf(stem, '_');
    assert forall t <- MEMORY_TYPES :: forall c <- t :: IsIdChar(c);
    assert name == stem[..sep] + "_" + stem[sep + 1..] + ".md";
  }

  /** Type and id are recoverable from the filename, so distinct ids never share a file. */
  lemma FilenameInjective(t1: string, id1: string, t2: string, id2: string)
    requires t1 in MEMORY_TYPES && t2 in MEMORY_TYPES
    requires Filename(t1, id1) == Filename(t2, id2)
    ensures t1 == t2 && id1 == id2
  {
    var n1, n2 := Filename(t1, id1), Filename(t2, id2);
    assert forall t <- MEMORY_TYPES :: '_' !in t;
    assert n1[..|t1|] == t1 && n2[..|t2|] == t2;
    IndexOfUnique(n1, '_', |t1|);
    IndexOfUnique(n2, '_', |t2|);
    assert n1[|t1| + 1..|n1| - 3] == id1 && n2[|t2| + 1..|n2| - 3] == id2;
  }

  lemma FilenameIsEntryFilename(memoryType: string, id: string)
    requires memoryType in MEMORY_TYPES && IsSafeEntryId(id)
    ensures IsEntryFilename(Filename(memoryType, id))
  {
    var name := Filename(memoryType, id);
    var stem := name[..|name| - 3];
    assert name[|name| - 3..] == ".md";
    assert stem == memoryType + "_" + id;
    assert forall t <- MEMORY_TYPES :: '_' !in t;
    var sep := |memoryType|;
    assert stem[..sep] == memoryType && stem[sep + 1..] == id;
    IndexOfUnique(stem, '_', sep);
  }

  // ---- Inline escaping ----

  function HexDigit(n: nat): char
    requires n < 16
  {
    if n < 10 then ('0' as int + n) as char else ('a' as int + n - 10) as char
  }

  function Hex4(n: nat): string
    requires n < 0x10000
  {
    [HexDigit(n / 16 / 16 / 16), HexDigit(n / 16 / 16 % 16), HexDigit(n / 16 % 16), HexDigit(n % 16)]
  }

  lemma Hex4Length(n: nat)
    requires n < 0x10000
    ensures |Hex4(n)| == 4
  {
  }

  lemma HexDigitInjective(m: nat, n: nat)
    requires m < 16 && n < 16 && HexDigit(m) == HexDigit(n)
    ensures m == n
  {
    assert HexDigit(m) as int == HexDigit(n) as int;
  }

  lemma Hex4Injective(m: nat, n: nat)
    requires m < 0x10000 && n < 0x10000 && Hex4(m) == Hex4(n)
    ensures m == n
  {
    var a, b := Hex4(m), Hex4(n);
    assert a[0] == b[0] && a[1] == b[1] && a[2] == b[2] && a[3] == b[3];
    HexDigitInjective(m / 16 / 16 / 16, n / 16 / 16 / 16);
    HexDigitInjective(m / 16 / 16 % 16, n / 16 / 16 % 16);
    HexDigitInjective(m / 16 % 16, n / 16 % 16);
    HexDigitInjective(m % 16, n % 16);
  }

  predicate IsControl(c: char) {
    var n := c as int;
    n < 0x20 || 0x7F <= n <= 0x9F || n == 0x2028 || n == 0x2029
  }

  function EscapeChar(c: char, escapeLabel: bool): string {
    if c == '\\' then "\\\\"
    else if c == '\r' then "\\r"
    else if c == '\n' then "\\n"
    else if c == '\t' then "\\t"
    else if IsControl(c) then "\\u" + Hex4(c as int)
    else if escapeLabel && (c == '[' || c == ']') then ['\\', c]
    else [c]
  }

  function Inline(value: string, escapeLabel: bool): string {
    if value == "" then "" else EscapeChar(value[0], escapeLabel) + Inline(value[1..], escapeLabel)
  }

  lemma {:induction false} InlineConcat(a: string, b: string, escapeLabel: bool)
    ensures Inline(a + b, escapeLabel) == Inline(a, escapeLabel) + Inline(b, escapeLabel)
  {
    hide EscapeChar;
    if a == "" {
      assert a + b == b;
    } else {
      InlineConcat(a[1..], b, escapeLabel);
      assert (a + b)[1..] == a[1..] + b;
      ConcatAssoc(EscapeChar(a[0], escapeLabel), Inline(a[1..], escapeLabel), Inline(b, escapeLabel));
    }
  }

  method IndexInline(value: string, escapeLabel: bool) returns (encoded: string)
    ensures encoded == Inline(value, escapeLabel)
  {
    encoded := "";
    for i := 0 to |value|
      invariant encoded == Inline(value[..i], escapeLabel)
    {
      InlineConcat(value[..i], [value[i]], escapeLabel);
      assert value[..i + 1] == value[..i] + [value[i]];
      encoded := encoded + EscapeChar(value[i], escapeLabel);
    }
    assert value[..|value|] == value;
  }

  lemma Hex4Chars(n: nat)
    requires n < 0x10000
    ensures forall c <- Hex4(n) :: IsDigitOrLetter(c)
  {
  }

  predicate IsDigitOrLetter(c: char) { '0' <= c <= '9' || 'a' <= c <= 'z' }

  lemma EscapeCharNoBreak(c: char, escapeLabel: bool)
    ensures NoBreak(EscapeChar(c, escapeLabel))
  {
    hide Hex4;
    if IsControl(c) {
      Hex4Chars(c as int);
      assert NoBreak("\\u");
    }
  }

  lemma {:induction false} InlineNoBreak(value: string, escapeLabel: bool)
    ensures NoBreak(Inline(value, escapeLabel))
  {
    hide EscapeChar;
    if value != "" {
      InlineNoBreak(value[1..], escapeLabel);
      EscapeCharNoBreak(value[0], escapeLabel);
    }
  }

  lemma EscapeCharPrefixFree(c: char, d: char, x: string, y: string, escapeLabel: bool)
    requires EscapeChar(c, escapeLabel) + x == EscapeChar(d, escapeLabel) + y
    ensures c == d && x == y
  {
    hide Hex4;
    var p, q := EscapeChar(c, escapeLabel), EscapeChar(d, escapeLabel);
    var s := p + x;
    assert s == q + y;
    assert p[0] == s[0] == q[0];
    if s[0] == '\\' {
      assert p[1] == s[1] == q[1];
      if s[1] == 'u' {
        assert IsControl(c) && IsControl(d);
        assert |Hex4(c as int)| == |Hex4(d as int)| == 4 by { Hex4Length(c as int); Hex4Length(d as int); }
        assert p[2..] == s[2..6] == q[2..];
        assert p[2..] == Hex4(c as int) && q[2..] == Hex4(d as int);
        Hex4Injective(c as int, d as int);
      }
    }
    assert c == d;
    assert x == s[|p|..] == y;
  }

  lemma EscapeNotEmpty(escapeLabel: bool)
    ensures forall c: char :: |EscapeChar(c, escapeLabel)| > 0
  {
    hide Hex4;
  }

  /** The escape loses nothing: equal escaped texts come from equal texts. */
  lemma {:induction false} InlineInjective(a: string, b: string, escapeLabel: bool)
    requires Inline(a, escapeLabel) == Inline(b, escapeLabel)
    ensures a == b
  {
    hide EscapeChar;
    EscapeNotEmpty(escapeLabel);
    if a != "" && b != "" {
      EscapeCharPrefixFree(a[0], b[0], Inline(a[1..], escapeLabel), Inline(b[1..], escapeLabel), escapeLabel);
      InlineInjective(a[1..], b[1..], escapeLabel);
      assert a == [a[0]] + a[1..] && b == [b[0]] + b[1..];
    }
  }

  // ---- Row scanner ----

  /** Position of the first unescaped `](` at or after `cursor`. */
  function FindLabelEnd(line: string, cursor: nat): Option<nat>
    decreases |line| - cursor
  {
    if cursor >= |line| then None
    else if line[cursor] == '\\' then
      if cursor + 2 >= |line| then None else FindLabelEnd(line, cursor + 2)
    else if line[cursor] == ']' && cursor + 1 < |line| && line[cursor + 1] == '(' then Some(cursor)
    else FindLabelEnd(line, cursor + 1)
  }

  /** Position of the first unescaped `)` at or after `cursor`. */
  function FindTargetEnd(line: string, cursor: nat): Option<nat>
    decreases |line| - cursor
  {
    if cursor >= |line| then None
    else if line[cursor] == '\\' then
      if cursor + 2 >= |line| then None else FindTargetEnd(line, cursor + 2)
    else if line[cursor] == ')' then Some(cursor)
    else FindTargetEnd(line, cursor + 1)
  }

  lemma {:induction false} FindTargetEndRange(line: string, cursor: nat)
    ensures var r := FindTargetEnd(line, cursor); r.Some? ==> cursor <= r.value < |line|
    decreases |line| - cursor
  {
    if cursor < |line| && line[cursor] == '\\' && cursor + 2 < |line| {
      FindTargetEndRange(line, cursor + 2);
    } else if cursor < |line| {
      FindTargetEndRange(line, cursor + 1);
    }
  }

  lemma {:induction false} FindLabelEndRange(line: string, cursor: nat)
    ensures var r := FindLabelEnd(line, cursor); r.Some? ==> cursor <= r.value && r.value + 1 < |line|
    decreases |line| - cursor
  {
    if cursor < |line| && line[cursor] == '\\' && cursor + 2 < |line| {
      FindLabelEndRange(line, cursor + 2);
    } else if cursor < |line| {
      FindLabelEndRange(line, cursor + 1);
    }
  }

  /** The link destination of an index row, if the line is one. */
  function LineTarget(line: string): Option<string> {
    if !StartsWith(line, "- [") then None
    else match FindLabelEnd(line, 3)
      case None => None
      case Some(labelEnd) =>
        match FindTargetEnd(line, labelEnd + 2)
        case None => None
        case Some(targetEnd) =>
          FindLabelEndRange(line, 3);
          FindTargetEndRange(line, labelEnd + 2);
          Some(line[labelEnd + 2..targetEnd])
  }

  predicate Targets(line: string, filename: string) {
    LineTarget(line) == Some(filename)
  }

  /** The two-phase cursor scan of `_index_line_targets_filename`. */
  method IndexLineTargetsFilename(line: string, filename: string) returns (targets: bool)
    ensures targets == Targets(line, filename)
  {
    if !StartsWith(line, "- [") { return false; }
    FindLabelEndRange(line, 3);
    var labelEnd: Option<nat> := None;
    var cursor := 3;
    while cursor < |line|
      invariant labelEnd == None
      invariant FindLabelEnd(line, 3) == if cursor < |line| then FindLabelEnd(line, cursor) else None
    {
      if line[cursor] == '\\' {
        cursor := cursor + 2;
        continue;
      }
      if line[cursor] == ']' && cursor + 1 < |line| && line[cursor + 1] == '(' {
        labelEnd := Some(cursor);
        break;
      }
      cursor := cursor + 1;
    }
    if labelEnd.None? { return false; }
    var targetStart := labelEnd.value + 2;
    FindTargetEndRange(line, targetStart);
    cursor := targetStart;
    while cursor < |line|
      invariant targetStart <= cursor
      invariant FindTargetEnd(line, targetStart) == if cursor < |line| then FindTargetEnd(line, cursor) else None
    {
      if line[cursor] == '\\' {
        cursor := cursor + 2;
        continue;
      }
      if line[cursor] == ')' {
        return line[targetStart..cursor] == filename;
      }
      cursor := cursor + 1;
    }
    return false;
  }

  // ---- Row printer ----

  function Take(s: string, n: nat): string {
    if |s| <= n then s else s[..n]
  }

  function RowPrefix(title: string): string {
    "- [" + Inline(title, true) + "]("
  }

  /** A rendered row without its final line feed. */
  function Row(title: string, filename: string, content: string): string {
    RowPrefix(title) + filename + ") -- " + Inline(Take(content, SUMMARY_CHARS), false)
  }

  /** The label scan steps over one escaped character as a whole. */
  lemma LabelScanSkipsUnit(pre: string, c: char, rest: string)
    ensures var unit := EscapeChar(c, true);
            FindLabelEnd(pre + unit + rest, |pre|) == FindLabelEnd(pre + unit + rest, |pre| + |unit|)
  {
    var unit := EscapeChar(c, true);
    var line := pre + unit + rest;
    var p := |pre|;
    assert forall i :: 0 <= i < |unit| ==> line[p + i] == unit[i];
    if |unit| == 6 {
      assert FindLabelEnd(line, p) == FindLabelEnd(line, p + 2);
      assert forall i :: 2 <= i < 6 ==> unit[i] != '\\' && unit[i] != ']';
      assert FindLabelEnd(line, p + 2) == FindLabelEnd(line, p + 3);
      assert FindLabelEnd(line, p + 3) == FindLabelEnd(line, p + 4);
      assert FindLabelEnd(line, p + 4) == FindLabelEnd(line, p + 5);
      assert FindLabelEnd(line, p + 5) == FindLabelEnd(line, p + 6);
    } else if |unit| == 2 {
      assert FindLabelEnd(line, p) == FindLabelEnd(line, p + 2);
    } else {
      assert FindLabelEnd(line, p) == FindLabelEnd(line, p + 1);
    }
  }

  lemma {:induction false} LabelScanSkipsInline(pre: string, title: string, rest: string)
    ensures FindLabelEnd(pre + Inline(title, true) + "](" + rest, |pre|) == Some(|pre| + |Inline(title, true)|)
    decreases |title|
  {
    hide EscapeChar;
    var line := pre + Inline(title, true) + "](" + rest;
    if title == "" {
      assert line[|pre|] == ']' && line[|pre| + 1] == '(';
    } else {
      var unit := EscapeChar(title[0], true);
      var more := Inline(title[1..], true) + "](" + rest;
      assert line == (pre + unit) + Inline(title[1..], true) + "](" + rest;
      assert line == pre + unit + more;
      hide FindLabelEnd;
      LabelScanSkipsInline(pre + unit, title[1..], rest);
      LabelScanSkipsUnit(pre, title[0], more);
    }
  }

  lemma {:induction false} TargetScanFindsClose(pre: string, target: string, rest: string)
    requires forall c <- target :: c != '\\' && c != ')'
    ensures FindTargetEnd(pre + target + ")" + rest, |pre|) == Some(|pre| + |target|)
    decreases |target|
  {
    var line := pre + target + ")" + rest;
    if target == "" {
      assert line[|pre|] == ')';
    } else {
      assert line == (pre + [target[0]]) + target[1..] + ")" + rest;
      assert line[|pre|] == target[0] && target[0] in target;
      assert forall c <- target[1..] :: c in target;
      TargetScanFindsClose(pre + [target[0]], target[1..], rest);
    }
  }

  /** Whatever follows the link, a printed prefix is scanned back to exactly its title length and filename. */
  lemma PrintedLinkScans(title: string, filename: string, rest: string)
    requires IsEntryFilename(filename)
    ensures LineTarget(RowPrefix(title) + filename + ")" + rest) == Some(filename)
  {
    hide Inline, FindLabelEnd, FindTargetEnd, IsEntryFilename;
    var line := RowPrefix(title) + filename + ")" + rest;
    EntryFilenameChars(filename);
    assert forall c <- filename :: c != '\\' && c != ')';
    assert line == "- [" + Inline(title, true) + "](" + (filename + ")" + rest);
    LabelScanSkipsInline("- [", title, filename + ")" + rest);
    assert line[..3] == "- [";
    TargetScanFindsClose(RowPrefix(title), filename, rest);
    var start := |RowPrefix(title)|;
    assert start == 3 + |Inline(title, true)| + 2;
    assert line[start..start + |filename|] == filename;
  }

  /** A line that starts with one title's prefix starts with no other title's. */
  lemma PrefixDeterminesTitle(line: string, t1: string, t2: string)
    requires StartsWith(line, RowPrefix(t1)) && StartsWith(line, RowPrefix(t2))
    ensures t1 == t2
  {
    hide Inline, FindLabelEnd;
    var r1, r2 := line[|RowPrefix(t1)|..], line[|RowPrefix(t2)|..];
    assert line == "- [" + Inline(t1, true) + "](" + r1;
    assert line == "- [" + Inline(t2, true) + "](" + r2;
    LabelScanSkipsInline("- [", t1, r1);
    LabelScanSkipsInline("- [", t2, r2);
    assert |Inline(t1, true)| == |Inline(t2, true)|;
    assert line[3..3 + |Inline(t1, true)|] == Inline(t1, true);
    assert line[3..3 + |Inline(t2, true)|] == Inline(t2, true);
    InlineInjective(t1, t2, true);
  }

  /** A line is a row for `filename` under `title`, whatever its summary. */
  ghost predicate IsRowFor(line: string, title: string, filename: string) {
    && NoBreak(line)
    && Targets(line, filename)
    && StartsWith(line, RowPrefix(title))
  }

  lemma RowNoBreak(title: string, filename: string, content: string)
    requires IsEntryFilename(filename)
    ensures NoBreak(Row(title, filename, content))
  {
    InlineNoBreak(title, true);
    InlineNoBreak(Take(content, SUMMARY_CHARS), false);
    EntryFilenameChars(filename);
    assert NoBreak(filename);
    assert NoBreak("- [") && NoBreak("](") && NoBreak(") -- ");
  }

  lemma {:induction false} StripRightKeeps(s: string, k: nat)
    requires 0 < k <= |s| && !IsSpace(s[k - 1])
    ensures |StripRight(s)| >= k
  {
    if IsSpace(s[|s| - 1]) {
      assert s[..|s| - 1][k - 1] == s[k - 1];
      StripRightKeeps(s[..|s| - 1], k);
    }
  }

  lemma {:induction false} StripRightDropsLast(s: string, c: char)
    requires IsSpace(c)
    ensures StripRight(s + [c]) == StripRight(s)
  {
    assert (s + [c])[..|s|] == s;
  }

  lemma AppendedRowScansBack(title: string, filename: string, content: string)
    requires IsEntryFilename(filename)
    ensures IsRowFor(Row(title, filename, content), title, filename)
  {
    var prefix := RowPrefix(title);
    var tail := " -- " + Inline(Take(content, SUMMARY_CHARS), false);
    var row := Row(title, filename, content);
    RowNoBreak(title, filename, content);
    assert row == prefix + filename + ")" + tail;
    PrintedLinkScans(title, filename, tail);
    assert row[..|prefix|] == prefix;
  }

  /** Stripping removes the line feed and trailing white space of the summary, never any of the link. */
  lemma StrippedRowShape(title: string, filename: string, content: string) returns (tail: string)
    requires IsEntryFilename(filename)
    ensures Strip(Row(title, filename, content) + "\n") == RowPrefix(title) + filename + ")" + tail
    ensures Strip(Row(title, filename, content) + "\n") <= Row(title, filename, content)
  {
    hide Inline, IsEntryFilename;
    var row := Row(title, filename, content);
    var link := RowPrefix(title) + filename + ")";
    var line := row + "\n";
    assert line[0] == '-';
    StripLeftId(line);
    StripRightDropsLast(row, '\n');
    var k := |link|;
    assert row[..k] == link;
    assert row[k - 1] == link[k - 1] == ')';
    StripRightKeeps(row, k);
    StripRightIsPrefix(row);
    var kept := StripRight(row);
    tail := row[k..|kept|];
    assert kept == row[..k] + tail;
  }

  /** Printer and scanner agree on every row form the store writes: as appended and as stripped on replacement. */
  lemma RowScansBack(title: string, filename: string, content: string)
    requires IsEntryFilename(filename)
    ensures IsRowFor(Row(title, filename, content), title, filename)
    ensures IsRowFor(Strip(Row(title, filename, content) + "\n"), title, filename)
  {
    AppendedRowScansBack(title, filename, content);
    var tail := StrippedRowShape(title, filename, content);
    var kept := Strip(Row(title, filename, content) + "\n");
    PrintedLinkScans(title, filename, tail);
    assert kept[..|RowPrefix(title)|] == RowPrefix(title);
  }

  /** A printed row targets `other` exactly for its own filename and matches a title's prefix exactly for its own title. */
  lemma RowMatchesExactly(title: string, filename: string, content: string, other: string, otherTitle: string)
    requires IsEntryFilename(filename)
    ensures Targets(Row(title, filename, content), other) <==> other == filename
    ensures StartsWith(Row(title, filename, content), RowPrefix(otherTitle)) <==> otherTitle == title
  {
    var row := Row(title, filename, content);
    RowScansBack(title, filename, content);
    if StartsWith(row, RowPrefix(otherTitle)) {
      PrefixDeterminesTitle(row, title, otherTitle);
    }
  }

  /** A row tells its three parts: two rows are equal exactly when title, file and the first 100 characters of the body are. */
  lemma RowsEqualIff(t1: string, f1: string, c1: string, t2: string, f2: string, c2: string)
    requires IsEntryFilename(f1) && IsEntryFilename(f2)
    ensures Row(t1, f1, c1) == Row(t2, f2, c2) <==>
            t1 == t2 && f1 == f2 && (if |c1| <= 100 then c1 else c1[..100]) == (if |c2| <= 100 then c2 else c2[..100])
  {
    hide Inline, IsEntryFilename, LineTarget, StartsWith;
    if Row(t1, f1, c1) == Row(t2, f2, c2) {
      RowMatchesExactly(t1, f1, c1, f2, t2);
      RowMatchesExactly(t2, f2, c2, f2, t2);
      var prefix := RowPrefix(t1) + f1 + ") -- ";
      var s1, s2 := Inline(Take(c1, SUMMARY_CHARS), false), Inline(Take(c2, SUMMARY_CHARS), false);
      assert prefix + s1 == prefix + s2;
      assert (prefix + s1)[|prefix|..] == s1 && (prefix + s2)[|prefix|..] == s2;
      InlineInjective(Take(c1, SUMMARY_CHARS), Take(c2, SUMMARY_CHARS), false);
    }
  }
}
