/**
  The event and decision logs: one canonical JSON object per line, read back with `splitlines`. The
  printer leaves U+0085, U+2028 and U+2029 raw, and `splitlines` breaks at them.
 */
module Jsonl {
  import opened Text
  import opened Wrappers
  import opened MemoryIndex
  import opened Json
  import opened JsonRoundTrip
  import opened JsonPrefix
  import opened FrontmatterRoundTrip

  function Lines(records: seq<Json>): seq<string> {
    if |records| == 0 then [] else [Print(records[0], false)] + Lines(records[1..])
  }

  /** `_jsonl_bytes`, as text. */
  function JsonlText(records: seq<Json>): string {
    if |records| == 0 then "" else JoinLF(Lines(records)) + "\n"
  }

  function DecodeLines(lines: seq<string>): Option<seq<Json>> {
    if |lines| == 0 then Some([])
    else match Parse(lines[0])
      case Some(Obj(members)) =>
        (match DecodeLines(lines[1..])
         case Some(rest) => Some([Obj(members)] + rest)
         case None => None)
      case _ => None
  }

  function DecodeJsonl(text: string): Option<seq<Json>> {
    if text == "" then Some([]) else DecodeLines(SplitLines(text))
  }

  predicate TextSafe(s: string) {
    forall c <- s :: !IsSeparator(c)
  }

  /** No text or key inside the value carries a separator the printer leaves raw. */
  predicate LineSafe(v: Json) {
    match v
    case Str(s) => TextSafe(s)
    case Arr(items) => forall item <- items :: LineSafe(item)
    case Obj(members) => forall m <- members :: TextSafe(m.key) && LineSafe(m.value)
    case _ => true
  }

  predicate IsRecord(v: Json) {
    v.Obj? && Valid(v)
  }

  // ---- A printed value has no line break exactly when it is line safe ----

  lemma NoBreakConcat(a: string, b: string)
    ensures NoBreak(a + b) <==> NoBreak(a) && NoBreak(b)
  {
    if NoBreak(a + b) {
      forall c <- a ensures !IsLineBreak(c) { assert c in a + b; }
      forall c <- b ensures !IsLineBreak(c) { assert c in a + b; }
    }
  }

  lemma EscapeBreak(c: char)
    ensures NoBreak(EscapeJson(c, false)) <==> !IsSeparator(c)
  {
    hide Hex4;
    var unit := EscapeJson(c, false);
    if unit == [c] {
      if NoBreak(unit) { assert c in unit; }
    } else if |unit| != 2 {
      Hex4Chars(c as int);
      NoBreakConcat("\\u", Hex4(c as int));
    }
  }

  lemma {:induction false} EscapeAllBreak(s: string)
    ensures NoBreak(EscapeAll(s, false)) <==> TextSafe(s)
  {
    hide EscapeJson, IsSeparator, IsLineBreak, NoBreak;
    if s != "" {
      EscapeBreak(s[0]);
      EscapeAllBreak(s[1..]);
      NoBreakConcat(EscapeJson(s[0], false), EscapeAll(s[1..], false));
      assert s == [s[0]] + s[1..];
    } else {
      NothingBreaks();
    }
  }

  lemma NothingBreaks()
    ensures NoBreak("") && NoBreak("\"") && NoBreak(",") && NoBreak(":")
    ensures NoBreak("[") && NoBreak("]") && NoBreak("{") && NoBreak("}") && NoBreak("[]") && NoBreak("{}")
    ensures NoBreak("null") && NoBreak("true") && NoBreak("false")
  {
  }

  lemma QuoteBreak(s: string)
    ensures NoBreak(Quote(s, false)) <==> TextSafe(s)
  {
    hide EscapeAll, TextSafe, NoBreak;
    NothingBreaks();
    EscapeAllBreak(s);
    NoBreakConcat("\"" + EscapeAll(s, false), "\"");
    NoBreakConcat("\"", EscapeAll(s, false));
  }

  lemma {:induction false} PrintBreak(v: Json)
    requires Valid(v)
    ensures NoBreak(Print(v, false)) <==> LineSafe(v)
    decreases v, 1
  {
    hide Quote, IsFloatLiteral, NumberLength, IntLength, NoBreak, TextSafe;
    NothingBreaks();
    match v
    case Null =>
    case Bool(_) =>
    case Int(n) => DecimalShape(n); NumberCharsPrintable(Decimal(n)); PrintableNoBreak(Decimal(n));
    case Float(literal) => FloatPrintable(literal); PrintableNoBreak(literal);
    case Str(s) => QuoteBreak(s);
    case Arr(items) => ArrayBreak(items);
    case Obj(members) => ObjectBreak(members);
  }

  lemma PrintableNoBreak(s: string)
    requires Printable(s)
    ensures NoBreak(s)
  {
  }

  lemma {:induction false} ArrayBreak(items: seq<Json>)
    requires Valid(Arr(items))
    ensures NoBreak(Print(Arr(items), false)) <==> LineSafe(Arr(items))
    decreases items, 1
  {
    hide NoBreak, PrintItems;
    NothingBreaks();
    if |items| > 0 {
      assert items[0] in items;
      PrintBreak(items[0]);
      ItemsBreak(items[1..]);
      var first, more := Print(items[0], false), PrintItems(items[1..], false);
      NoBreakConcat("[" + first + more, "]");
      NoBreakConcat("[" + first, more);
      NoBreakConcat("[", first);
      assert forall item <- items :: item == items[0] || item in items[1..];
    }
  }

  lemma {:induction false} ItemsBreak(items: seq<Json>)
    requires forall item <- items :: Valid(item)
    ensures NoBreak(PrintItems(items, false)) <==> forall item <- items :: LineSafe(item)
    decreases items, 0
  {
    hide NoBreak, Print, LineSafe, Valid;
    NothingBreaks();
    if |items| > 0 {
      assert items[0] in items;
      PrintBreak(items[0]);
      ItemsBreak(items[1..]);
      var first, more := Print(items[0], false), PrintItems(items[1..], false);
      NoBreakConcat("," + first, more);
      NoBreakConcat(",", first);
      assert forall item <- items :: item == items[0] || item in items[1..];
    }
  }

  lemma {:induction false} ObjectBreak(members: seq<Member>)
    requires Valid(Obj(members))
    ensures NoBreak(Print(Obj(members), false)) <==> LineSafe(Obj(members))
    decreases members, 1
  {
    hide NoBreak, PrintMember, PrintMembers, UniqueKeys, TextSafe;
    NothingBreaks();
    if |members| > 0 {
      assert members[0] in members;
      MemberBreak(members[0]);
      MembersBreak(members[1..]);
      var first, more := PrintMember(members[0], false), PrintMembers(members[1..], false);
      NoBreakConcat("{" + first + more, "}");
      NoBreakConcat("{" + first, more);
      NoBreakConcat("{", first);
      assert forall m <- members :: m == members[0] || m in members[1..];
    }
  }

  lemma {:induction false} MemberBreak(m: Member)
    requires Valid(m.value)
    ensures NoBreak(PrintMember(m, false)) <==> TextSafe(m.key) && LineSafe(m.value)
    decreases m, 2
  {
    hide NoBreak, Quote, Print, LineSafe, TextSafe;
    NothingBreaks();
    QuoteBreak(m.key);
    PrintBreak(m.value);
    NoBreakConcat(Quote(m.key, false) + ":", Print(m.value, false));
    NoBreakConcat(Quote(m.key, false), ":");
  }

  lemma {:induction false} MembersBreak(members: seq<Member>)
    requires forall m <- members :: Valid(m.value)
    ensures NoBreak(PrintMembers(members, false)) <==> forall m <- members :: TextSafe(m.key) && LineSafe(m.value)
    decreases members, 0
  {
    hide NoBreak, PrintMember, LineSafe, TextSafe, Valid;
    NothingBreaks();
    if |members| > 0 {
      assert members[0] in members;
      MemberBreak(members[0]);
      MembersBreak(members[1..]);
      var first, more := PrintMember(members[0], false), PrintMembers(members[1..], false);
      NoBreakConcat("," + first, more);
      NoBreakConcat(",", first);
      assert forall m <- members :: m == members[0] || m in members[1..];
    }
  }

  // ---- The log reads back exactly when every record is line safe ----

  lemma {:induction false} JsonlTextCloses(records: seq<Json>)
    ensures JsonlText(records) == CloseLines(Lines(records))
    ensures |Lines(records)| == |records|
  {
    hide Print;
    if |records| > 0 {
      JsonlTextCloses(records[1..]);
      JoinClosedByLF(Lines(records));
    }
  }

  lemma {:induction false} ContentLengthPrefix(a: string, b: string)
    requires !NoBreak(a)
    ensures ContentLength(a + b) == ContentLength(a) < |a|
  {
    if !IsLineBreak(a[0]) {
      assert (a + b)[1..] == a[1..] + b;
      assert a == [a[0]] + a[1..];
      ContentLengthPrefix(a[1..], b);
    }
  }

  /** Reading the log gives back the records if every one is line safe; otherwise it is refused. */
  lemma {:induction false} JsonlReadsBackIff(records: seq<Json>)
    requires forall r <- records :: IsRecord(r)
    ensures DecodeJsonl(JsonlText(records)) == if forall r <- records :: LineSafe(r) then Some(records) else None
  {
    hide Print, Parse, LineSafe, Valid, NoBreak, ContentLength, LineLength, SplitLines;
    JsonlTextCloses(records);
    if |records| > 0 {
      var first, rest := records[0], records[1..];
      JsonlReadsBackIff(rest);
      JsonlTextCloses(rest);
      assert first in records;
      PrintBreak(first);
      var line, tail := Print(first, false), JsonlText(rest);
      SplitNothing();
      assert JsonlText(records) == line + "\n" + tail;
      RoundTrip(first, false);
      if LineSafe(first) {
        SplitLinesStep(line, tail);
        assert Lines(records)[0] == line;
        assert SplitLines(JsonlText(records))[1..] == SplitLines(tail);
        assert records == [first] + rest;
      } else {
        ContentLengthPrefix(line, "\n" + tail);
        assert line + ("\n" + tail) == line + "\n" + tail;
        FirstLine(line + "\n" + tail);
        CutObjectIsRefused(first.members, false, ContentLength(line));
        assert (line + "\n" + tail)[..ContentLength(line)] == line[..ContentLength(line)];
      }
    }
  }

  lemma SplitNothing()
    ensures SplitLines("") == [] && DecodeLines([]) == Some([])
  {
  }

  lemma FirstLine(s: string)
    requires s != ""
    ensures |SplitLines(s)| > 0 && SplitLines(s)[0] == s[..ContentLength(s)]
  {
  }
}
