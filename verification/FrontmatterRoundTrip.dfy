/** Every valid entry reads back from its payload exactly, whatever its title and body contain. */
module FrontmatterRoundTrip {
  import opened Text
  import opened Wrappers
  import opened MemoryIndex
  import opened Json
  import opened JsonRoundTrip
  import opened MemoryEntry
  import opened Frontmatter

  /** One line that stripping leaves alone. */
  ghost predicate OneLine(value: string) {
    NoBreak(value) && Strip(value) == value
  }

  // ---- Text values ----

  lemma {:induction false} TranslateConcat(a: string, b: string)
    ensures TranslateSeparators(a + b) == TranslateSeparators(a) + TranslateSeparators(b)
  {
    hide Hex4;
    if a == "" {
      assert a + b == b;
    } else {
      TranslateConcat(a[1..], b);
      assert (a + b)[1..] == a[1..] + b;
      ConcatAssoc(TranslateHead(a[0]), TranslateSeparators(a[1..]), TranslateSeparators(b));
    }
  }

  lemma {:induction false} TranslateId(s: string)
    requires forall c <- s :: c as int != 0x85 && c as int != 0x2028 && c as int != 0x2029
    ensures TranslateSeparators(s) == s
  {
    hide Hex4;
    if s != "" {
      assert s[0] in s && forall c <- s[1..] :: c in s;
      TranslateId(s[1..]);
      assert [s[0]] + s[1..] == s;
    }
  }

  predicate IsSeparator(c: char) {
    c as int == 0x85 || c as int == 0x2028 || c as int == 0x2029
  }

  lemma EscapedUnitClean(c: char)
    requires !IsSeparator(c)
    ensures forall d <- EscapeJson(c, false) :: !IsSeparator(d) && !IsLineBreak(d)
  {
  }

  lemma TranslatedSeparator(c: char)
    requires IsSeparator(c)
    ensures EscapeJson(c, false) == [c] && TranslateSeparators([c]) == "\\u" + Hex4(c as int)
  {
    hide Hex4;
    assert [c][1..] == "";
    assert ("\\u" + Hex4(c as int)) + "" == "\\u" + Hex4(c as int);
  }

  lemma TranslatedUnit(c: char)
    ensures TranslateSeparators(EscapeJson(c, false)) == if IsSeparator(c) then "\\u" + Hex4(c as int) else EscapeJson(c, false)
    ensures NoBreak(TranslateSeparators(EscapeJson(c, false)))
  {
    hide TranslateSeparators, EscapeJson, Hex4;
    if IsSeparator(c) {
      TranslatedSeparator(c);
      Hex4Chars(c as int);
    } else {
      EscapedUnitClean(c);
      TranslateId(EscapeJson(c, false));
    }
  }

  lemma HeaderEscapeStep(c: char, tail: string)
    ensures ParseString(TranslateSeparators(EscapeJson(c, false)) + tail) == Prepend(c, ParseString(tail))
  {
    hide Hex4, EscapeJson, TranslateSeparators;
    TranslatedUnit(c);
    if IsSeparator(c) {
      var n := c as int;
      var s := "\\u" + Hex4(n) + tail;
      assert s[1..] == "u" + Hex4(n) + tail;
      ParseUnicodeEscape(n, tail);
    } else {
      EscapeStep(c, false, tail);
    }
  }

  lemma {:induction false} HeaderStringRoundTrip(s: string, rest: string)
    ensures ParseString(TranslateSeparators(EscapeAll(s, false)) + "\"" + rest) == Some(Parsed(s, rest))
    ensures NoBreak(TranslateSeparators(EscapeAll(s, false)))
  {
    hide EscapeJson, TranslateSeparators;
    if s == "" {
      assert TranslateSeparators("") == "" by { TranslateId(""); }
      assert "" + "\"" + rest == "\"" + rest;
    } else {
      var head, more := TranslateSeparators(EscapeJson(s[0], false)), TranslateSeparators(EscapeAll(s[1..], false));
      TranslateConcat(EscapeJson(s[0], false), EscapeAll(s[1..], false));
      HeaderStringRoundTrip(s[1..], rest);
      var tail := more + "\"" + rest;
      assert TranslateSeparators(EscapeAll(s, false)) + "\"" + rest == head + tail;
      HeaderEscapeStep(s[0], tail);
      TranslatedUnit(s[0]);
      assert [s[0]] + s[1..] == s;
    }
  }

  lemma EncodedShape(text: string)
    ensures TranslateSeparators(Quote(text, false)) == "\"" + TranslateSeparators(EscapeAll(text, false)) + "\""
  {
    hide EscapeAll;
    TranslateConcat("\"" + EscapeAll(text, false), "\"");
    TranslateConcat("\"", EscapeAll(text, false));
    TranslateId("\"");
  }

  lemma EncodedParses(text: string)
    ensures Parse(TranslateSeparators(Quote(text, false))) == Some(Str(text))
  {
    hide EscapeAll, TranslateSeparators;
    EncodedShape(text);
    HeaderStringRoundTrip(text, "");
    var body := TranslateSeparators(EscapeAll(text, false));
    var s := "\"" + body + "\"";
    SkipNothing(s);
    assert s[1..] == body + "\"" + "";
  }

  /** A text field survives the header: it is one clean line and decodes to the same text. */
  lemma TextRoundTrip(text: string)
    ensures OneLine(FrontmatterText(text)) && DecodeText(FrontmatterText(text)) == Some(text)
  {
    hide EscapeAll, TranslateSeparators, Strip, Parse;
    var v := FrontmatterText(text);
    if NeedsEncoding(text) {
      EncodedShape(text);
      HeaderStringRoundTrip(text, "");
      EncodedParses(text);
      StripId(v);
      assert NoBreak("\"");
      assert v[..1] == "\"" && v[|v| - 1..] == "\"";
    } else {
      forall c | c in text ensures !IsLineBreak(c) { assert !IsControl(c); }
    }
  }

  // ---- JSON values on one line ----

  ghost predicate Printable(s: string) {
    forall c <- s :: ' ' <= c <= '~'
  }

  lemma NumberCharsPrintable(s: string)
    requires s != "" && NumberLength(s) == |s|
    ensures Printable(s) && !IsSpace(s[0]) && !IsSpace(s[|s| - 1])
  {
    hide DigitRun, FractionLength, ExponentLength;
    var i := IntLength(s);
    var k := SignLength(s);
    var t := s[i..];
    var f := FractionLength(t);
    var u := s[i + f..];
    IntPrintable(s);
    LastIsDigit(s);
    assert s == s[..i] + t[..f] + u;
    assert Printable(t[..f]) by { if f > 0 { FractionDigits(t); } }
    assert Printable(u) by { if u != "" { ExponentDigits(u); } }
  }

  lemma IntPrintable(s: string)
    requires IntLength(s) > 0
    ensures Printable(s[..IntLength(s)]) && (s[0] == '-' || IsDigit(s[0]))
  {
    var i := IntLength(s);
    var k := SignLength(s);
    IntLengthDigits(s);
    assert s[..i] == s[..k] + s[k..i];
    assert s[k] == s[k..i][0] && IsDigit(s[k..i][0]);
  }

  lemma FloatPrintable(literal: string)
    requires IsFloatLiteral(literal)
    ensures literal != "" && Printable(literal) && !IsSpace(literal[0]) && !IsSpace(literal[|literal| - 1])
  {
    NumberCharsPrintable(literal);
  }

  lemma FractionDigits(t: string)
    requires FractionLength(t) > 0
    ensures Printable(t[..FractionLength(t)]) && IsDigit(t[FractionLength(t) - 1])
  {
    var f := FractionLength(t);
    var r := t[1..];
    assert t[..f] == ['.'] + r[..f - 1];
    assert forall c <- r[..f - 1] :: IsDigit(c);
    assert t[f - 1] == r[f - 2];
  }

  lemma ExponentDigits(u: string)
    requires u != "" && ExponentLength(u) == |u|
    ensures Printable(u) && IsDigit(u[|u| - 1])
  {
    var k := if |u| > 1 && (u[1] == '+' || u[1] == '-') then 2 else 1;
    var r := u[k..];
    assert DigitRun(r) == |r|;
    assert forall c <- r :: IsDigit(c);
    assert u == u[..k] + r;
    assert Printable(u[..k]);
    assert u[|u| - 1] == r[|r| - 1];
  }

  lemma LastIsDigit(s: string)
    requires s != "" && NumberLength(s) == |s|
    ensures IsDigit(s[|s| - 1])
  {
    var i := IntLength(s);
    var t := s[i..];
    var f := FractionLength(t);
    var u := s[i + f..];
    IntLengthDigits(s);
    if u != "" {
      ExponentDigits(u);
      assert s[|s| - 1] == u[|u| - 1];
    } else if f > 0 {
      FractionDigits(t);
      assert s[|s| - 1] == t[f - 1];
    } else {
      var d := s[SignLength(s)..i];
      assert d[|d| - 1] in d;
      assert s[|s| - 1] == d[|d| - 1];
    }
  }

  lemma EscapeJsonPrintable(c: char)
    ensures Printable(EscapeJson(c, true))
  {
    hide Hex4;
    var n := c as int;
    assert Printable("\\u");
    if n <= 0xFFFF {
      Hex4Chars(n);
    } else {
      SurrogateArithmetic(n - 0x10000);
      Hex4Chars(0xD800 + (n - 0x10000) / 1024);
      Hex4Chars(0xDC00 + (n - 0x10000) % 1024);
    }
  }

  lemma {:induction false} EscapeAllPrintable(s: string)
    ensures Printable(EscapeAll(s, true))
  {
    hide EscapeJson;
    if s != "" {
      EscapeAllPrintable(s[1..]);
      EscapeJsonPrintable(s[0]);
    }
  }

  lemma QuotePrintable(s: string)
    ensures Printable(Quote(s, true))
  {
    EscapeAllPrintable(s);
  }

  lemma {:induction false} PrintPrintable(v: Json)
    requires Valid(v)
    ensures var s := Print(v, true); Printable(s) && s != "" && !IsSpace(s[0]) && !IsSpace(s[|s| - 1])
    decreases v, 1
  {
    hide Quote, IsFloatLiteral, NumberLength, IntLength;
    match v
    case Null =>
    case Bool(_) =>
    case Int(n) => DecimalShape(n); NumberCharsPrintable(Decimal(n));
    case Float(literal) => FloatPrintable(literal);
    case Str(s) => QuotePrintable(s); QuoteEnds(s);
    case Arr(items) => ArrayPrintable(items);
    case Obj(members) => ObjectPrintable(members);
  }

  lemma {:induction false} ArrayPrintable(items: seq<Json>)
    requires Valid(Arr(items))
    ensures var s := Print(Arr(items), true); Printable(s) && s[0] == '[' && s[|s| - 1] == ']'
    decreases items, 1
  {
    if |items| > 0 {
      assert items[0] in items;
      PrintPrintable(items[0]);
      ItemsPrintable(items[1..]);
    }
  }

  lemma {:induction false} ObjectPrintable(members: seq<Member>)
    requires Valid(Obj(members))
    ensures var s := Print(Obj(members), true); Printable(s) && s[0] == '{' && s[|s| - 1] == '}'
    decreases members, 1
  {
    hide Quote, UniqueKeys;
    if |members| > 0 {
      assert members[0] in members;
      QuotePrintable(members[0].key);
      PrintPrintable(members[0].value);
      MembersPrintable(members[1..]);
    }
  }

  lemma QuoteEnds(s: string)
    ensures var q := Quote(s, true); q != "" && q[0] == '"' && q[|q| - 1] == '"'
  {
  }

  lemma {:induction false} ItemsPrintable(items: seq<Json>)
    requires forall item <- items :: Valid(item)
    ensures Printable(PrintItems(items, true))
    decreases items, 0
  {
    if |items| > 0 {
      assert items[0] in items;
      PrintPrintable(items[0]);
      ItemsPrintable(items[1..]);
    }
  }

  lemma {:induction false} MembersPrintable(members: seq<Member>)
    requires forall m <- members :: Valid(m.value)
    ensures Printable(PrintMembers(members, true))
    decreases members, 0
  {
    hide Quote;
    if |members| > 0 {
      assert members[0] in members;
      QuotePrintable(members[0].key);
      PrintPrintable(members[0].value);
      MembersPrintable(members[1..]);
    }
  }

  lemma JsonRoundTripField(v: Json)
    requires Valid(v)
    ensures OneLine(Print(v, true)) && Parse(Print(v, true)) == Some(v)
  {
    hide Print, Strip, Parse, Valid;
    PrintPrintable(v);
    StripId(Print(v, true));
    RoundTrip(v, true);
  }

  // ---- The header as a list of fields ----

  ghost predicate CleanField(f: Field) {
    && OneLine(f.value)
    && f.key != "" && NoBreak(f.key) && ':' !in f.key && Strip(f.key) == f.key && f.key[0] != '-'
  }

  /** Two numbers that tell the fifteen field names apart. */
  function Fingerprint(key: string): (int, char) {
    (|key|, if |key| > 2 then key[2] else ' ')
  }

  ghost predicate IsIdentifier(k: string) {
    k != "" && forall c <- k :: 'a' <= c <= 'z' || c == '_'
  }

  lemma KeysAreIdentifiers(i: nat)
    requires i < |KEYS|
    ensures IsIdentifier(KEYS[i])
  {
    hide IsIdentifier;
    if i < 5 { EarlyKey(i); } else if i < 10 { MiddleKey(i); } else { LateKey(i); }
  }

  lemma EarlyKey(i: nat)
    requires i < 5
    ensures IsIdentifier(KEYS[i])
  {
  }

  lemma MiddleKey(i: nat)
    requires 5 <= i < 10
    ensures IsIdentifier(KEYS[i])
  {
  }

  lemma LateKey(i: nat)
    requires 10 <= i < |KEYS|
    ensures IsIdentifier(KEYS[i])
  {
  }

  lemma IdentifierIsClean(k: string)
    requires IsIdentifier(k)
    ensures NoBreak(k) && ':' !in k && Strip(k) == k && k[0] != '-'
  {
    assert k[0] in k && k[|k| - 1] in k;
    StripId(k);
  }

  lemma KeysDistinct(i: nat, j: nat)
    requires i < j < |KEYS|
    ensures KEYS[i] != KEYS[j]
  {
    assert Fingerprint(KEYS[i]) != Fingerprint(KEYS[j]);
  }

  lemma {:induction false} GetAt(fields: seq<Field>, i: nat)
    requires i < |fields| && forall j :: 0 <= j < i ==> fields[j].key != fields[i].key
    ensures Get(fields, fields[i].key) == Some(fields[i].value)
  {
    if i > 0 {
      assert fields[0].key != fields[i].key;
      assert fields[1..][i - 1] == fields[i];
      GetAt(fields[1..], i - 1);
    }
  }

  lemma {:induction false} GetNone(fields: seq<Field>, key: string)
    requires forall f <- fields :: f.key != key
    ensures Get(fields, key) == None
  {
    if |fields| > 0 {
      assert fields[0] in fields;
      GetNone(fields[1..], key);
    }
  }

  lemma StripLeadingSpace(v: string)
    ensures Strip(" " + v) == Strip(v)
  {
    assert (" " + v)[1..] == v;
  }

  lemma {:induction false} RStripLine(line: string)
    requires NoBreak(line)
    ensures RStripNewlines(line + "\n") == line
  {
    assert (line + "\n")[..|line|] == line;
    if line != "" { assert line[|line| - 1] in line; }
  }

  /** One printed field line is read back as that field. */
  lemma FieldLineReads(f: Field)
    requires CleanField(f)
    ensures var line := FieldLine(f);
            && NoBreak(line) && RStripNewlines(line + "\n") == line && line != FENCE
            && IndexOf(line, ':') == |f.key| && |f.key| < |line|
            && line[..|f.key|] == f.key
            && Strip(line[|f.key| + 1..]) == f.value
  {
    hide Strip;
    var line := FieldLine(f);
    assert NoBreak(": ");
    RStripLine(line);
    assert line[0] == f.key[0];
    assert line[..|f.key|] == f.key;
    assert line[|f.key|] == ':';
    IndexOfUnique(line, ':', |f.key|);
    assert line[|f.key| + 1..] == " " + f.value;
    StripLeadingSpace(f.value);
  }

  function Terminated(lines: seq<string>): seq<string> {
    seq(|lines|, i requires 0 <= i < |lines| => lines[i] + "\n")
  }

  lemma {:induction false} SplitKeepOfClosed(lines: seq<string>, rest: string)
    requires forall line <- lines :: NoBreak(line)
    ensures SplitLinesKeep(CloseLines(lines) + rest) == Terminated(lines) + SplitLinesKeep(rest)
  {
    hide SplitLinesKeep, NoBreak;
    if |lines| == 0 {
      assert CloseLines(lines) + rest == rest;
    } else {
      var a, b := lines[0] + "\n", CloseLines(lines[1..]);
      SplitKeepOfClosed(lines[1..], rest);
      assert CloseLines(lines) + rest == a + (b + rest);
      SplitLinesStep(lines[0], b + rest);
      TerminatedCons(lines);
      assert [a] + (Terminated(lines[1..]) + SplitLinesKeep(rest)) == ([a] + Terminated(lines[1..])) + SplitLinesKeep(rest);
    }
  }

  lemma TerminatedCons(lines: seq<string>)
    requires |lines| > 0
    ensures Terminated(lines) == [lines[0] + "\n"] + Terminated(lines[1..])
  {
  }

  lemma {:induction false} TotalLengthOfTerminated(lines: seq<string>)
    ensures TotalLength(Terminated(lines)) == |CloseLines(lines)|
  {
    if |lines| > 0 {
      TotalLengthOfTerminated(lines[1..]);
      assert Terminated(lines)[1..] == Terminated(lines[1..]);
    }
  }

  lemma {:induction false} FindFenceAt(lines: seq<string>, i: nat, close: nat)
    requires i <= close < |lines| && RStripNewlines(lines[close]) == FENCE
    requires forall j :: i <= j < close ==> RStripNewlines(lines[j]) != FENCE
    ensures FindFence(lines, i) == Some(close)
    decreases close - i
  {
    if i < close { FindFenceAt(lines, i + 1, close); }
  }

  lemma {:induction false} HeaderReads(fields: seq<Field>, seen: seq<Field>)
    requires forall f <- fields :: CleanField(f)
    requires forall i, j :: 0 <= i < j < |seen + fields| ==> (seen + fields)[i].key != (seen + fields)[j].key
    ensures ParseHeader(Terminated(FieldLines(fields)), seen, false) == Header(seen + fields, false)
    decreases |fields|
  {
    hide CleanField, FieldLine, Strip, RStripNewlines, IndexOf;
    if |fields| == 0 {
      assert seen + fields == seen;
    } else {
      var f := fields[0];
      assert f in fields;
      FieldLineReads(f);
      assert f.key != "" && Strip(f.key) == f.key by { CleanKey(f); }
      var lines := Terminated(FieldLines(fields));
      assert lines[0] == FieldLine(f) + "\n";
      assert lines[1..] == Terminated(FieldLines(fields[1..]));
      forall g | g in seen ensures g.key != f.key {
        var i :| 0 <= i < |seen| && seen[i] == g;
        assert (seen + fields)[i] == g && (seen + fields)[|seen|] == f;
      }
      GetNone(seen, f.key);
      assert (seen + [f]) + fields[1..] == seen + fields;
      assert lines[0] == FieldLine(f) + "\n" && ParseHeader(lines, seen, false) == ParseHeader(lines[1..], seen + [f], false);
      HeaderReads(fields[1..], seen + [f]);
    }
  }

  lemma CleanKey(f: Field)
    requires CleanField(f)
    ensures f.key != "" && Strip(f.key) == f.key
  {
  }

  /** The fence search stops at the header's own fence, so the body is never inspected. */
  lemma RawRoundTrip(fields: seq<Field>, content: string)
    requires forall f <- fields :: CleanField(f)
    requires forall i, j :: 0 <= i < j < |fields| ==> fields[i].key != fields[j].key
    ensures ParseRaw(FENCE + "\n" + CloseLines(FieldLines(fields)) + FENCE + "\n" + "\n" + content) == Raw(fields, content)
  {
    hide CleanField, FieldLine, RStripNewlines, SplitLinesKeep, CloseLines, ParseHeader, FENCE, TotalLength, Terminated;
    var header := FieldLines(fields);
    var all := [FENCE] + header + [FENCE];
    var rest := "\n" + content;
    var text := FENCE + "\n" + CloseLines(header) + FENCE + "\n" + "\n" + content;
    forall line | line in header ensures NoBreak(line) && RStripNewlines(line + "\n") == line && line != FENCE {
      var i :| 0 <= i < |fields| && line == FieldLine(fields[i]);
      FieldLineReads(fields[i]);
    }
    FenceFacts();
    PayloadIsClosed(header, content);
    assert text == CloseLines(all) + rest;
    SplitKeepOfClosed(all, rest);
    var lines := SplitLinesKeep(text);
    var close := |header| + 1;
    TerminatedAt(all, lines, rest);
    RStripLine(FENCE);
    forall j | 1 <= j < close ensures RStripNewlines(lines[j]) != FENCE {
      assert lines[j] == all[j] + "\n" && all[j] == header[j - 1];
    }
    assert lines[close] == FENCE + "\n";
    FindFenceAt(lines, 1, close);
    assert lines[1..close] == Terminated(header);
    assert [] + fields == fields;
    HeaderReads(fields, []);
    assert lines[..close + 1] == Terminated(all);
    TotalLengthOfTerminated(all);
    assert text[|CloseLines(all)|..] == rest;
    DropsTheBlankLine(content);
  }

  lemma DropsTheBlankLine(content: string)
    ensures DropOneNewline("\n" + content) == content
  {
    var rest := "\n" + content;
    if |rest| >= 2 { assert rest[..2][0] == '\n'; }
    assert rest[..1] == "\n" && rest[1..] == content;
  }

  lemma FenceFacts()
    ensures NoBreak(FENCE) && RStripNewlines(FENCE + "\n") == FENCE
  {
    RStripLine(FENCE);
  }

  lemma PayloadIsClosed(header: seq<string>, content: string)
    ensures FENCE + "\n" + CloseLines(header) + FENCE + "\n" + "\n" + content
            == CloseLines([FENCE] + header + [FENCE]) + ("\n" + content)
  {
    hide FENCE;
    CloseLinesAppend([FENCE], header);
    CloseLinesAppend([FENCE] + header, [FENCE]);
    assert CloseLines([FENCE]) == FENCE + "\n";
  }

  lemma TerminatedAt(all: seq<string>, lines: seq<string>, rest: string)
    requires |all| >= 2 && lines == Terminated(all) + SplitLinesKeep(rest)
    ensures |lines| >= |all| && forall i :: 0 <= i < |all| ==> lines[i] == all[i] + "\n"
    ensures lines[1..|all| - 1] == Terminated(all[1..|all| - 1])
    ensures lines[..|all|] == Terminated(all)
  {
    hide SplitLinesKeep;
  }

  // ---- Whole entries ----

  lemma HeaderFieldsClean(e: MemoryEntry)
    requires ValidEntry(e)
    ensures |HeaderFields(e)| == |KEYS| && forall i :: 0 <= i < |KEYS| ==> HeaderFields(e)[i].key == KEYS[i]
    ensures forall f <- HeaderFields(e) :: CleanField(f)
  {
    hide Strip, HeaderFields, HeaderValues, KEYS, OneLine;
    HeaderShape(e);
    forall i | 0 <= i < |KEYS| ensures CleanField(HeaderFields(e)[i]) {
      KeysAreIdentifiers(i);
      IdentifierIsClean(KEYS[i]);
      ValueRoundTrip(e, i);
    }
  }

  lemma HeaderShape(e: MemoryEntry)
    ensures |HeaderFields(e)| == |KEYS| == |HeaderValues(e)|
    ensures forall i :: 0 <= i < |KEYS| ==> HeaderFields(e)[i] == Field(KEYS[i], HeaderValues(e)[i].Encoded())
  {
  }

  /** Every header value prints on one line and reads back. */
  lemma ValueRoundTrip(e: MemoryEntry, i: nat)
    requires ValidEntry(e) && i < |HeaderValues(e)|
    ensures var v := HeaderValues(e)[i];
            && OneLine(v.Encoded())
            && (v.TextValue? ==> DecodeText(v.Encoded()) == Some(v.text))
            && (v.JsonValue? ==> Parse(v.Encoded()) == Some(v.value))
  {
    hide HeaderValues, Print, FrontmatterText, Parse, Valid, OneLine, DecodeText;
    ValuesAreValid(e);
    match HeaderValues(e)[i]
    case TextValue(text) => TextRoundTrip(text);
    case JsonValue(value) => JsonRoundTripField(value);
  }

  lemma ValuesAreValid(e: MemoryEntry)
    requires ValidEntry(e)
    ensures forall v <- HeaderValues(e) :: v.JsonValue? ==> Valid(v.value)
  {
  }

  lemma GetHeaderField(e: MemoryEntry, i: nat)
    requires ValidEntry(e) && i < |KEYS|
    ensures |HeaderValues(e)| == |KEYS| && Get(HeaderFields(e), KEYS[i]) == Some(HeaderValues(e)[i].Encoded())
  {
    hide HeaderFields, HeaderValues, CleanField, KEYS;
    HeaderFieldsClean(e);
    forall j | 0 <= j < i ensures HeaderFields(e)[j].key != HeaderFields(e)[i].key {
      KeysDistinct(j, i);
    }
    GetAt(HeaderFields(e), i);
    HeaderShape(e);
  }

  lemma TextFieldReads(e: MemoryEntry, i: nat, text: string)
    requires ValidEntry(e) && i < |KEYS| == |HeaderValues(e)| && HeaderValues(e)[i] == TextValue(text)
    ensures TextField(HeaderFields(e), KEYS[i]) == Some(text)
  {
    hide HeaderFields, HeaderValues, KEYS, DecodeText;
    GetHeaderField(e, i);
    ValueRoundTrip(e, i);
  }

  lemma JsonFieldReads(e: MemoryEntry, i: nat, v: Json)
    requires ValidEntry(e) && i < |KEYS| == |HeaderValues(e)| && HeaderValues(e)[i] == JsonValue(v)
    ensures JsonField(HeaderFields(e), KEYS[i]) == Some(v)
  {
    hide HeaderFields, HeaderValues, KEYS, Parse;
    GetHeaderField(e, i);
    ValueRoundTrip(e, i);
  }

  lemma SchemaReads(e: MemoryEntry)
    requires ValidEntry(e)
    ensures JsonField(HeaderFields(e), "schema_version") == Some(Int(2)) && Get(HeaderFields(e), "schema_version").Some?
  {
    hide HeaderFields, Parse;
    JsonFieldReads(e, 0, Int(2));
    GetHeaderField(e, 0);
  }

  lemma IdentityReads(e: MemoryEntry)
    requires ValidEntry(e)
    ensures var fields := HeaderFields(e);
            && TextField(fields, "id") == Some(e.id) && TextField(fields, "name") == Some(e.title)
            && TextField(fields, "description") == Some(if |e.content| <= 100 then e.content else e.content[..100])
            && TextField(fields, "type") == Some(e.memoryType)
  {
    hide HeaderFields, TextField;
    TextFieldReads(e, 1, e.id);
    TextFieldReads(e, 2, e.title);
    TextFieldReads(e, 3, Take(e.content, SUMMARY_CHARS));
    TextFieldReads(e, 4, e.memoryType);
  }

  lemma ScalarsRead(e: MemoryEntry)
    requires ValidEntry(e)
    ensures var fields := HeaderFields(e);
            && TextField(fields, "created_at") == Some(e.createdAt) && TextField(fields, "last_accessed") == Some(e.lastAccessed)
            && TextField(fields, "probe_cleanup_token") == Some(e.ProbeToken())
            && CountField(fields, "access_count") == Some(e.accessCount) && CountField(fields, "token_count") == Some(e.tokenCount)
  {
    hide HeaderFields, TextField, JsonField;
    TextFieldReads(e, 7, e.createdAt);
    TextFieldReads(e, 8, e.lastAccessed);
    JsonFieldReads(e, 9, Int(e.accessCount));
    JsonFieldReads(e, 11, Int(e.tokenCount));
    TextFieldReads(e, 14, e.ProbeToken());
  }

  lemma StructuredRead(e: MemoryEntry)
    requires ValidEntry(e)
    ensures var fields := HeaderFields(e);
            && JsonField(fields, "metadata_json") == Some(Obj(e.metadata)) && JsonField(fields, "tags_json") == Some(Arr(TextItems(e.tags)))
            && JsonField(fields, "importance") == Some(e.importance) && JsonField(fields, "compressed") == Some(Bool(e.compressed))
            && JsonField(fields, "parent_id") == Some(ParentJson(e.parentId))
  {
    hide HeaderFields, JsonField;
    JsonFieldReads(e, 5, Obj(e.metadata));
    JsonFieldReads(e, 6, Arr(TextItems(e.tags)));
    JsonFieldReads(e, 10, e.importance);
    JsonFieldReads(e, 12, Bool(e.compressed));
    JsonFieldReads(e, 13, ParentJson(e.parentId));
  }

  lemma BodyReads(e: MemoryEntry)
    requires ValidEntry(e)
    ensures ParseBody(e.id, e.memoryType, e.title, HeaderFields(e), e.content) == if IsFinite(e.importance) then Some(e) else None
  {
    hide HeaderFields, JsonField, TextField, CountField, Valid, TextsOf, IsFinite;
    ScalarsRead(e);
    StructuredRead(e);
    TextsRoundTrip(e.tags);
  }

  lemma HeaderIsComplete(e: MemoryEntry)
    requires ValidEntry(e)
    ensures (forall f <- HeaderFields(e) :: f.key in KEYS) && (forall k <- KEYS :: Get(HeaderFields(e), k).Some?)
  {
    HeaderShape(e);
    hide HeaderFields, HeaderValues, KEYS;
    forall k | k in KEYS ensures Get(HeaderFields(e), k).Some? {
      var i :| 0 <= i < |KEYS| && KEYS[i] == k;
      GetHeaderField(e, i);
    }
  }

  lemma FieldsRead(e: MemoryEntry)
    requires ValidEntry(e)
    ensures ParseV2(e.File(), HeaderFields(e), e.content) == if IsFinite(e.importance) then Some(e) else None
  {
    hide HeaderFields, IsFinite, KEYS, JsonField, TextField, ParseBody, Filename, IsSafeEntryId, Valid, IsFloatLiteral;
    HeaderIsComplete(e);
    SchemaReads(e);
    IdentityReads(e);
    BodyReads(e);
  }

  lemma PayloadSplits(e: MemoryEntry)
    requires ValidEntry(e)
    ensures ParseRaw(Payload(e)) == Raw(HeaderFields(e), e.content)
  {
    hide HeaderFields, KEYS, ParseRaw, FieldLines, CloseLines, FENCE, ValidEntry;
    var fields := HeaderFields(e);
    HeaderFieldsClean(e);
    forall i, j | 0 <= i < j < |fields| ensures fields[i].key != fields[j].key { KeysDistinct(i, j); }
    RawRoundTrip(fields, e.content);
  }

  /** The payload of a valid entry parses back to that entry under its own filename, exactly when its importance is within the doubles. */
  lemma EntryRoundTrip(e: MemoryEntry)
    requires ValidEntry(e)
    ensures ParseEntry(e.File(), Payload(e)) == Some(e) <==> IsFinite(e.importance)
    ensures ParseEntry(e.File(), Payload(e)) == None <==> !IsFinite(e.importance)
  {
    hide HeaderFields, KEYS, JsonField, ParseV2, ParseRaw, Payload, ValidEntry, IsFinite;
    PayloadSplits(e);
    SchemaReads(e);
    FieldsRead(e);
  }

  /** The round-trip guard fires exactly on a valid record that fits and whose importance is an integer beyond the doubles. */
  lemma GuardFiresIff(e: MemoryEntry)
    ensures SerializeEntry(e) == Err(NotLossless) <==>
            ValidEntry(e) && Utf8Length(Payload(e)) <= MAX_ENTRY_BYTES && e.importance.Int? && !(-FloatBound() < e.importance.n < FloatBound())
    ensures SerializeEntry(e) == Ok(Payload(e)) <==>
            ValidEntry(e) && Utf8Length(Payload(e)) <= MAX_ENTRY_BYTES && IsFinite(e.importance)
  {
    hide ParseEntry, Payload, FloatBound, Valid;
    if ValidEntry(e) { EntryRoundTrip(e); }
  }

  lemma SameHeaderSameValues(a: MemoryEntry, b: MemoryEntry)
    requires ValidEntry(a) && ValidEntry(b) && HeaderFields(a) == HeaderFields(b)
    ensures HeaderValues(a) == HeaderValues(b)
  {
    HeaderShape(a);
    HeaderShape(b);
    SameKinds(a, b);
    hide HeaderValues, HeaderFields, ValidEntry, Parse, DecodeText, OneLine;
    forall i | 0 <= i < |HeaderValues(a)| ensures HeaderValues(a)[i] == HeaderValues(b)[i] {
      assert HeaderFields(a)[i] == HeaderFields(b)[i];
      ValueRoundTrip(a, i);
      ValueRoundTrip(b, i);
    }
  }

  lemma SameKinds(a: MemoryEntry, b: MemoryEntry)
    ensures |HeaderValues(a)| == |HeaderValues(b)|
    ensures forall i :: 0 <= i < |HeaderValues(a)| ==> (HeaderValues(a)[i].TextValue? <==> HeaderValues(b)[i].TextValue?)
  {
  }

  lemma ValuesDetermineEntry(a: MemoryEntry, b: MemoryEntry)
    requires HeaderValues(a) == HeaderValues(b) && a.content == b.content
    ensures a == b
  {
    hide TextItems;
    assert forall i :: 0 <= i < 15 ==> HeaderValues(a)[i] == HeaderValues(b)[i];
    TextsRoundTrip(a.tags);
    TextsRoundTrip(b.tags);
  }

  /** Distinct valid entries never share a payload, so a stored file determines its record. */
  lemma PayloadInjective(a: MemoryEntry, b: MemoryEntry)
    requires ValidEntry(a) && ValidEntry(b) && Payload(a) == Payload(b)
    ensures a == b
  {
    PayloadSplits(a);
    PayloadSplits(b);
    hide HeaderFields, HeaderValues, Payload, ParseRaw, ValidEntry;
    SameHeaderSameValues(a, b);
    ValuesDetermineEntry(a, b);
  }

  // ---- An importance the guard refuses ----

  lemma {:induction false} PowGrows(n: nat)
    ensures Pow(10, n) >= Pow(8, n) == Pow(2, 3 * n)
  {
    if n > 0 {
      PowGrows(n - 1);
      assert Pow(2, 3 * n) == 2 * Pow(2, 3 * n - 1) == 4 * Pow(2, 3 * n - 2) == 8 * Pow(2, 3 * n - 3);
    }
  }

  lemma {:induction false} PowAdds(a: nat, b: nat)
    ensures Pow(2, a + b) == Pow(2, a) * Pow(2, b) && Pow(2, a) >= 1
  {
    if a > 0 { PowAdds(a - 1, b); }
  }

  lemma TenTo400IsBeyond()
    ensures Pow(10, 400) >= FloatBound()
  {
    PowGrows(400);
    PowAdds(970, 230);
    PowAdds(54, 176);
    PowAdds(176, 0);
    hide Pow;
    assert Pow(10, 400) >= Pow(2, 970) * (Pow(2, 54) * Pow(2, 176));
    ProductGrows(Pow(2, 970), Pow(2, 54), Pow(2, 176));
  }

  lemma ProductGrows(p: nat, q: nat, r: nat)
    requires r >= 1
    ensures p * (q - 1) <= p * (q * r)
  {
    assert q * r >= q;
    assert q - 1 <= q * r;
    TimesMonotone(p, q - 1, q * r);
  }

  lemma TimesMonotone(p: nat, a: int, b: int)
    requires a <= b
    ensures p * a <= p * b
  {
    assert p * b - p * a == p * (b - a);
  }

  lemma {:induction false} DigitsOfPower(k: nat)
    ensures Pow(10, k) >= 1 && |Digits(Pow(10, k))| == k + 1
  {
    if k > 0 {
      DigitsOfPower(k - 1);
      var n := Pow(10, k - 1);
      assert Pow(10, k) == 10 * n && (10 * n) / 10 == n && 10 * n >= 10;
    }
  }

  /** A small record whose importance is the integer 10^400. */
  function Huge(): MemoryEntry {
    MemoryEntry("a", "user", "", "", [], "", "", 0, [], Int(Pow(10, 400)), 0, false, None)
  }

  lemma PlainText()
    ensures FrontmatterText("") == "" && FrontmatterText("a") == "a" && FrontmatterText("user") == "user"
  {
    StripId("");
    StripId("a");
    StripId("user");
  }

  lemma HugeValues(i: nat)
    requires i < |HeaderValues(Huge())|
    ensures |HeaderValues(Huge())[i].Encoded()| <= 401
  {
    var big := Pow(10, 400);
    HugeList(big);
    ShortValues(big);
    hide FieldValue.Encoded, HeaderValues, Huge, Pow, TextItems, ParentJson, Print, FrontmatterText;
    assert HeaderValues(Huge())[i] in HeaderValues(Huge());
  }

  lemma ShortValues(big: nat)
    requires big == Pow(10, 400)
    ensures |JsonValue(Int(big)).Encoded()| <= 401
    ensures |TextValue("").Encoded()| <= 401 && |TextValue("a").Encoded()| <= 401 && |TextValue("user").Encoded()| <= 401
    ensures |JsonValue(Int(2)).Encoded()| <= 401 && |JsonValue(Int(0)).Encoded()| <= 401 && |JsonValue(Bool(false)).Encoded()| <= 401
    ensures |JsonValue(Obj([])).Encoded()| <= 401 && |JsonValue(Arr(TextItems([]))).Encoded()| <= 401 && |JsonValue(ParentJson(None)).Encoded()| <= 401
  {
    DigitsOfPower(400);
    PlainText();
    SmallValues();
    hide FrontmatterText, Pow, Digits;
    assert Print(Int(big), true) == Digits(big);
    hide Print;
  }

  lemma HugeList(big: nat)
    requires big == Pow(10, 400)
    ensures forall v <- HeaderValues(Huge()) ::
              || v in {JsonValue(Int(2)), JsonValue(Int(0)), JsonValue(Int(big)), JsonValue(Bool(false)), JsonValue(ParentJson(None))}
              || v in {TextValue(""), TextValue("a"), TextValue("user"), JsonValue(Obj([])), JsonValue(Arr(TextItems([])))}
  {
    hide Pow;
    assert Take("", SUMMARY_CHARS) == "";
  }

  lemma SmallValues()
    ensures Print(Int(2), true) == "2" && Print(Int(0), true) == "0" && Print(Obj([]), true) == "{}" && Print(Arr(TextItems([])), true) == "[]"
    ensures Print(Bool(false), true) == "false" && Print(ParentJson(None), true) == "null"
  {
  }

  lemma {:induction false} CloseLinesLength(lines: seq<string>, width: nat)
    requires forall line <- lines :: |line| <= width
    ensures |CloseLines(lines)| <= |lines| * (width + 1)
  {
    if |lines| > 0 {
      var n := |lines| - 1;
      assert |lines[0]| <= width && forall line <- lines[1..] :: line in lines;
      CloseLinesLength(lines[1..], width);
      assert (n + 1) * (width + 1) == n * (width + 1) + width + 1;
    }
  }

  lemma HugeLines()
    ensures var lines := FieldLines(HeaderFields(Huge()));
            |lines| == |KEYS| && forall line <- lines :: |line| <= 430
  {
    hide Huge, HeaderFields, HeaderValues, KEYS;
    var e := Huge();
    var lines := FieldLines(HeaderFields(e));
    HeaderShape(e);
    forall line <- lines ensures |line| <= 430 {
      var i :| 0 <= i < |lines| && lines[i] == line;
      KeysAreShort(i);
      HugeValues(i);
    }
  }

  lemma HugeIsSmall()
    ensures Utf8Length(Payload(Huge())) <= MAX_ENTRY_BYTES
  {
    hide Utf8Length, Pow, HeaderFields, HeaderValues, FieldLines, CloseLines;
    HugeLines();
    CloseLinesLength(FieldLines(HeaderFields(Huge())), 430);
    assert |KEYS| == 15;
    Utf8LengthBound(Payload(Huge()));
  }

  lemma KeysAreShort(i: nat)
    requires i < |KEYS|
    ensures |KEYS[i]| <= 20
  {
  }

  /** The guard fires on it: a record that passes validation and fits is refused as not lossless. */
  lemma HugeImportanceIsRefused()
    ensures ValidEntry(Huge()) && SerializeEntry(Huge()) == Err(NotLossless)
  {
    HugeIsSmall();
    TenTo400IsBeyond();
    HugeIsValid();
    hide ValidEntry, Payload, SerializeEntry, FloatBound, Pow;
    GuardFiresIff(Huge());
  }

  lemma HugeIsValid()
    ensures ValidEntry(Huge())
  {
    hide Pow;
    assert IsIdChar('a');
  }
}
