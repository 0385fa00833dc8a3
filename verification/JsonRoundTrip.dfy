/** Reading back what the printer wrote gives the same value, for every printable value and both escape modes. */
module JsonRoundTrip {
  import opened Text
  import opened Wrappers
  import opened MemoryIndex
  import opened Json

  // ---- Numbers ----

  /** What may follow a number without extending it. */
  predicate Delimits(rest: string) {
    rest == "" || rest[0] in {',', ']', '}', ' ', '\t', '\n', '\r'}
  }

  lemma {:induction false} DigitRunOf(digits: string, rest: string)
    requires forall c <- digits :: IsDigit(c)
    requires rest == "" || !IsDigit(rest[0])
    ensures DigitRun(digits + rest) == |digits|
  {
    if digits != "" {
      assert digits[0] in digits;
      assert (digits + rest)[1..] == digits[1..] + rest;
      DigitRunOf(digits[1..], rest);
    } else {
      assert digits + rest == rest;
    }
  }

  lemma {:induction false} DigitRunExtends(s: string, rest: string)
    requires Delimits(rest)
    ensures DigitRun(s + rest) == DigitRun(s)
  {
    if s == "" {
      assert s + rest == rest;
    } else {
      assert (s + rest)[1..] == s[1..] + rest;
      if IsDigit(s[0]) { DigitRunExtends(s[1..], rest); }
    }
  }

  lemma {:induction false} DigitsRoundTrip(n: nat)
    ensures DigitsValue(Digits(n)) == n
  {
    if n >= 10 {
      DigitsRoundTrip(n / 10);
      var s := Digits(n);
      assert s[..|s| - 1] == Digits(n / 10);
      assert s[|s| - 1] == Digit(n % 10);
      assert n == n / 10 * 10 + n % 10;
    } else {
      assert Digits(n)[..0] == "";
    }
  }

  lemma IntLengthExtends(s: string, rest: string)
    requires Delimits(rest) && s != ""
    ensures IntLength(s + rest) == IntLength(s) && SignLength(s + rest) == SignLength(s)
  {
    var k := SignLength(s);
    assert (s + rest)[k..] == s[k..] + rest;
    DigitRunExtends(s[k..], rest);
  }

  lemma NumberLengthExtends(s: string, rest: string)
    requires Delimits(rest) && s != ""
    ensures NumberLength(s + rest) == NumberLength(s) && IntLength(s + rest) == IntLength(s) && SignLength(s + rest) == SignLength(s)
  {
    hide IntLength, SignLength, FractionLength, ExponentLength, Delimits;
    IntLengthExtends(s, rest);
    var i := IntLength(s);
    var t := s[i..];
    assert (s + rest)[i..] == t + rest;
    FractionLengthExtends(t, rest);
    var f := FractionLength(t);
    assert (s + rest)[i + f..] == s[i + f..] + rest;
    ExponentLengthExtends(s[i + f..], rest);
  }

  lemma FractionLengthExtends(s: string, rest: string)
    requires Delimits(rest)
    ensures FractionLength(s + rest) == FractionLength(s)
  {
    hide DigitRun;
    if s == "" {
      assert s + rest == rest;
    } else {
      assert (s + rest)[1..] == s[1..] + rest;
      DigitRunExtends(s[1..], rest);
    }
  }

  lemma ExponentLengthExtends(s: string, rest: string)
    requires Delimits(rest)
    ensures ExponentLength(s + rest) == ExponentLength(s)
  {
    hide DigitRun;
    if s == "" {
      assert s + rest == rest;
    } else {
      assert (s + rest)[1..] == s[1..] + rest;
      DigitRunExtends(s[1..], rest);
      if |s| > 1 {
        assert (s + rest)[2..] == s[2..] + rest;
        DigitRunExtends(s[2..], rest);
      }
    }
  }

  lemma DecimalShape(n: int)
    ensures var s := Decimal(n);
            && s != "" && (s[0] == '-' || IsDigit(s[0]))
            && NumberLength(s) == |s| == IntLength(s)
            && SignLength(s) == (if n < 0 then 1 else 0)
            && s[SignLength(s)..] == Digits(if n < 0 then -n else n)
  {
    var m := if n < 0 then -n else n;
    var d := Digits(m);
    var s := Decimal(n);
    assert IsDigit(d[0]) by { assert d[0] in d; }
    assert s[SignLength(s)..] == d;
    DigitRunOf(d, "");
    assert d + "" == d;
    assert s[|s|..] == "";
  }

  lemma IntRoundTrip(n: int, rest: string)
    requires Delimits(rest)
    ensures ParseNumber(Decimal(n) + rest) == Some(Parsed(Int(n), rest))
  {
    var s := Decimal(n);
    DecimalShape(n);
    NumberLengthExtends(s, rest);
    var k := SignLength(s);
    assert (s + rest)[k..|s|] == s[k..];
    assert (s + rest)[|s|..] == rest;
    DigitsRoundTrip(if n < 0 then -n else n);
  }

  lemma FloatRoundTrip(literal: string, rest: string)
    requires Delimits(rest) && IsFloatLiteral(literal)
    ensures ParseNumber(literal + rest) == Some(Parsed(Float(literal), rest))
  {
    NumberLengthExtends(literal, rest);
    assert (literal + rest)[..|literal|] == literal;
    assert (literal + rest)[|literal|..] == rest;
  }

  // ---- Strings ----

  lemma HexValueOf(n: nat)
    requires n < 16
    ensures HexValue(HexDigit(n)) == Some(n)
  {
  }

  lemma Hex4RoundTrip(n: nat, rest: string)
    requires n < 0x10000
    ensures ParseHex4(Hex4(n) + rest) == Some(n)
  {
    HexValueOf(n / 16 / 16 / 16);
    HexValueOf(n / 16 / 16 % 16);
    HexValueOf(n / 16 % 16);
    HexValueOf(n % 16);
    var s := Hex4(n) + rest;
    assert s[0] == Hex4(n)[0] && s[1] == Hex4(n)[1] && s[2] == Hex4(n)[2] && s[3] == Hex4(n)[3];
  }

  lemma ParseUnicodeEscape(n: nat, rest: string)
    requires n < 0xD800 || 0xE000 <= n < 0x10000
    ensures ParseEscape("u" + Hex4(n) + rest) == Some(Parsed(n as char, rest))
  {
    var s := "u" + Hex4(n) + rest;
    assert s[1..] == Hex4(n) + rest;
    Hex4RoundTrip(n, rest);
    assert s[5..] == rest;
  }

  lemma SurrogateArithmetic(v: nat)
    requires v < 0x100000
    ensures 0xD800 <= 0xD800 + v / 1024 < 0xDC00 && 0xDC00 <= 0xDC00 + v % 1024 < 0xE000
    ensures v / 1024 * 1024 + v % 1024 == v
  {
  }

  lemma ParseSurrogatePair(v: nat, rest: string)
    requires v < 0x100000
    ensures ParseEscape("u" + Hex4(0xD800 + v / 1024) + "\\u" + Hex4(0xDC00 + v % 1024) + rest)
            == Some(Parsed((0x10000 + v) as char, rest))
  {
    SurrogateArithmetic(v);
    ParsePair(0xD800 + v / 1024, 0xDC00 + v % 1024, rest);
  }

  lemma ParsePair(hi: nat, lo: nat, rest: string)
    requires 0xD800 <= hi < 0xDC00 <= lo < 0xE000
    ensures ParseEscape("u" + Hex4(hi) + "\\u" + Hex4(lo) + rest)
            == Some(Parsed((0x10000 + (hi - 0xD800) * 1024 + (lo - 0xDC00)) as char, rest))
  {
    var s := "u" + Hex4(hi) + "\\u" + Hex4(lo) + rest;
    var tail := "\\u" + Hex4(lo) + rest;
    assert s[1..] == Hex4(hi) + tail && s[5..] == tail && s[7..] == Hex4(lo) + rest && s[11..] == rest;
    hide ParseHex4, Hex4;
    Hex4RoundTrip(hi, tail);
    assert tail[..2] == "\\u";
    Hex4RoundTrip(lo, rest);
  }

  lemma EscapeStep(c: char, ascii: bool, tail: string)
    ensures ParseString(EscapeJson(c, ascii) + tail) == Prepend(c, ParseString(tail))
  {
    hide Hex4, ParseHex4;
    var unit := EscapeJson(c, ascii);
    var s := unit + tail;
    var n := c as int;
    if c == '"' || c == '\\' || n in {0x08, 0x09, 0x0A, 0x0C, 0x0D} {
      var t := s[1..];
      assert s[0] == unit[0] == '\\' && t[0] == s[1] == unit[1];
      assert t[1..] == tail;
      assert t[0] != 'u' && ParseEscape(t) == Some(Parsed(c, tail));
      assert ParseString(s) == Prepend(c, ParseString(tail));
    } else if n < 0x20 || (ascii && 0x7F <= n <= 0xFFFF) {
      assert s[1..] == "u" + Hex4(n) + tail;
      ParseUnicodeEscape(n, tail);
    } else if ascii && n > 0xFFFF {
      var v := n - 0x10000;
      assert s[1..] == "u" + Hex4(0xD800 + v / 1024) + "\\u" + Hex4(0xDC00 + v % 1024) + tail;
      ParseSurrogatePair(v, tail);
    } else {
      assert s[0] == c && s[1..] == tail;
    }
  }

  lemma {:induction false} StringRoundTrip(s: string, ascii: bool, rest: string)
    ensures ParseString(EscapeAll(s, ascii) + "\"" + rest) == Some(Parsed(s, rest))
  {
    hide EscapeJson;
    if s == "" {
      assert EscapeAll(s, ascii) + "\"" + rest == "\"" + rest;
    } else {
      var tail := EscapeAll(s[1..], ascii) + "\"" + rest;
      StringRoundTrip(s[1..], ascii, rest);
      assert EscapeAll(s, ascii) + "\"" + rest == EscapeJson(s[0], ascii) + tail;
      EscapeStep(s[0], ascii, tail);
      assert [s[0]] + s[1..] == s;
    }
  }

  lemma QuoteRoundTrip(s: string, ascii: bool, rest: string)
    ensures Quote(s, ascii) + rest != "" && (Quote(s, ascii) + rest)[0] == '"'
    ensures ParseString((Quote(s, ascii) + rest)[1..]) == Some(Parsed(s, rest))
  {
    hide EscapeAll, ParseString;
    StringRoundTrip(s, ascii, rest);
    assert (Quote(s, ascii) + rest)[1..] == EscapeAll(s, ascii) + "\"" + rest;
  }

  // ---- Values ----

  lemma Assoc(a: string, b: string, c: string, d: string)
    ensures a + b + c + d == a + (b + c + d)
  {
  }

  /** A printed value starts with none of the characters that close or separate, and no white space. */
  lemma PrintStart(v: Json, ascii: bool, rest: string)
    requires Valid(v)
    ensures var s := Print(v, ascii) + rest;
            s != "" && s[0] !in {' ', '\t', '\n', '\r', ']', '}', ',', ':'}
  {
    match v
    case Int(n) => DecimalShape(n);
    case Float(literal) => assert IsDigit(literal[0]) || literal[0] == '-';
    case _ =>
  }

  lemma SkipNothing(s: string)
    requires s == "" || s[0] !in {' ', '\t', '\n', '\r'}
    ensures SkipWhitespace(s) == s
  {
  }

  lemma {:induction false} ValueRoundTrip(v: Json, ascii: bool, rest: string)
    requires Valid(v) && Delimits(rest)
    ensures ParseValue(Print(v, ascii) + rest) == Some(Parsed(v, rest))
    decreases v, 2
  {
    match v
    case Null => KeywordRoundTrip(v, ascii, rest);
    case Bool(_) => KeywordRoundTrip(v, ascii, rest);
    case Int(n) => NumberRoundTrip(v, ascii, rest);
    case Float(literal) => NumberRoundTrip(v, ascii, rest);
    case Str(text) => TextRoundTrip(text, ascii, rest);
    case Arr(items) => ArrayRoundTrip(items, ascii, rest);
    case Obj(members) => ObjectRoundTrip(members, ascii, rest);
  }

  lemma KeywordRoundTrip(v: Json, ascii: bool, rest: string)
    requires v.Null? || v.Bool?
    ensures ParseValue(Print(v, ascii) + rest) == Some(Parsed(v, rest))
  {
    hide ParseNumber, ParseString, ParseItems, ParseMembers;
    var s := Print(v, ascii) + rest;
    var k := |Print(v, ascii)|;
    assert s[..k] == Print(v, ascii) && s[k..] == rest;
  }

  lemma NumberRoundTrip(v: Json, ascii: bool, rest: string)
    requires Valid(v) && (v.Int? || v.Float?) && Delimits(rest)
    ensures ParseValue(Print(v, ascii) + rest) == Some(Parsed(v, rest))
  {
    hide ParseNumber, ParseString, ParseItems, ParseMembers, Decimal, IsFloatLiteral;
    var s := Print(v, ascii) + rest;
    match v {
      case Int(n) => DecimalShape(n); IntRoundTrip(n, rest);
      case Float(literal) => FloatStart(literal); FloatRoundTrip(literal, rest);
    }
    NumberIsNoKeyword(s);
  }

  lemma NumberIsNoKeyword(s: string)
    requires s != "" && (IsDigit(s[0]) || s[0] == '-')
    ensures !StartsWith(s, "null") && !StartsWith(s, "true") && !StartsWith(s, "false")
  {
    if |s| >= 4 { assert s[..4][0] == s[0]; }
    if |s| >= 5 { assert s[..5][0] == s[0]; }
  }

  lemma TextRoundTrip(text: string, ascii: bool, rest: string)
    ensures ParseValue(Print(Str(text), ascii) + rest) == Some(Parsed(Str(text), rest))
  {
    hide ParseNumber, ParseString, ParseItems, ParseMembers, Quote;
    QuoteRoundTrip(text, ascii, rest);
  }

  lemma FloatStart(literal: string)
    requires IsFloatLiteral(literal)
    ensures IsDigit(literal[0]) || literal[0] == '-'
  {
  }

  lemma {:induction false} ArrayRoundTrip(items: seq<Json>, ascii: bool, rest: string)
    requires Valid(Arr(items)) && Delimits(rest)
    ensures ParseValue(Print(Arr(items), ascii) + rest) == Some(Parsed(Arr(items), rest))
    decreases items, 1
  {
    hide ParseItems, PrintItems, ParseMembers, ParseString, ParseNumber;
    var s := Print(Arr(items), ascii) + rest;
    if |items| == 0 {
      var t := "]" + rest;
      assert s[1..] == t;
      SkipNothing(t);
      assert t[1..] == rest;
      assert items == [];
    } else {
      var t := Print(items[0], ascii) + PrintItems(items[1..], ascii) + "]" + rest;
      assert s[1..] == t;
      Assoc(Print(items[0], ascii), PrintItems(items[1..], ascii), "]", rest);
      PrintStart(items[0], ascii, PrintItems(items[1..], ascii) + "]" + rest);
      SkipNothing(t);
      ItemsRoundTrip(items, ascii, rest);
    }
  }

  lemma DelimitsMore(more: seq<Json>, ascii: bool, rest: string)
    ensures var tail := PrintItems(more, ascii) + "]" + rest; Delimits(tail) && tail[0] !in {' ', '\t', '\n', '\r'}
  {
  }

  lemma ValidItems(items: seq<Json>)
    ensures Valid(Arr(items)) <==> forall item <- items :: Valid(item)
  {
  }

  lemma LastItem(s: string, v: Json, rest: string)
    requires ParseValue(s) == Some(Parsed(v, "]" + rest))
    ensures ParseItems(s) == Some(Parsed([v], rest))
  {
    hide ParseValue;
    SkipNothing("]" + rest);
    assert ("]" + rest)[1..] == rest;
  }

  lemma MoreItems(s: string, v: Json, next: string, items: seq<Json>, rest: string)
    requires ParseValue(s) == Some(Parsed(v, "," + next)) && SkipWhitespace(next) == next && ParseItems(next) == Some(Parsed(items, rest))
    ensures ParseItems(s) == Some(Parsed([v] + items, rest))
  {
    hide ParseValue;
    SkipNothing("," + next);
    assert ("," + next)[1..] == next;
  }

  lemma LastMember(s: string, m: Member, rest: string)
    requires ParseMember(s) == Some(Parsed(m, "}" + rest))
    ensures ParseMembers(s) == Some(Parsed([m], rest))
  {
    hide ParseMember;
    SkipNothing("}" + rest);
    assert ("}" + rest)[1..] == rest;
  }

  lemma MoreMembers(s: string, m: Member, next: string, members: seq<Member>, rest: string)
    requires ParseMember(s) == Some(Parsed(m, "," + next)) && SkipWhitespace(next) == next && ParseMembers(next) == Some(Parsed(members, rest))
    ensures ParseMembers(s) == Some(Parsed([m] + members, rest))
  {
    hide ParseMember;
    SkipNothing("," + next);
    assert ("," + next)[1..] == next;
  }

  lemma {:induction false} ItemsRoundTrip(items: seq<Json>, ascii: bool, rest: string)
    requires |items| > 0 && Valid(Arr(items)) && Delimits(rest)
    ensures ParseItems(Print(items[0], ascii) + PrintItems(items[1..], ascii) + "]" + rest) == Some(Parsed(items, rest))
    decreases items, 0
  {
    hide ParseValue, ParseItems, Print, Valid, UniqueKeys, IsFloatLiteral, Delimits, SkipWhitespace;
    var more := items[1..];
    ValidItems(items);
    ValidItems(more);
    assert items[0] in items && forall item <- more :: item in items;
    DelimitsMore(more, ascii, rest);
    var tail := PrintItems(more, ascii) + "]" + rest;
    ValueRoundTrip(items[0], ascii, tail);
    Assoc(Print(items[0], ascii), PrintItems(more, ascii), "]", rest);
    if |more| == 0 {
      assert tail == "]" + rest;
      assert items == [items[0]];
      LastItem(Print(items[0], ascii) + tail, items[0], rest);
    } else {
      var next := Print(more[0], ascii) + PrintItems(more[1..], ascii) + "]" + rest;
      assert tail == "," + next;
      Assoc(Print(more[0], ascii), PrintItems(more[1..], ascii), "]", rest);
      assert more[0] in items;
      PrintStart(more[0], ascii, PrintItems(more[1..], ascii) + "]" + rest);
      SkipNothing(next);
      ItemsRoundTrip(more, ascii, rest);
      MoreItems(Print(items[0], ascii) + tail, items[0], next, more, rest);
      assert items == [items[0]] + more;
    }
  }

  lemma {:induction false} ObjectRoundTrip(members: seq<Member>, ascii: bool, rest: string)
    requires Valid(Obj(members)) && Delimits(rest)
    ensures ParseValue(Print(Obj(members), ascii) + rest) == Some(Parsed(Obj(members), rest))
    decreases members, 1
  {
    hide ParseMembers, PrintMember, PrintMembers, ParseString, UniqueKeys;
    var s := Print(Obj(members), ascii) + rest;
    if |members| == 0 {
      var t := "}" + rest;
      assert s[1..] == t;
      SkipNothing(t);
      assert t[1..] == rest;
      assert UniqueKeys(members);
      assert members == [];
    } else {
      var t := PrintMember(members[0], ascii) + PrintMembers(members[1..], ascii) + "}" + rest;
      assert s[1..] == t;
      Assoc(PrintMember(members[0], ascii), PrintMembers(members[1..], ascii), "}", rest);
      MemberStart(members[0], ascii, PrintMembers(members[1..], ascii) + "}" + rest);
      SkipNothing(t);
      MembersRoundTrip(members, ascii, rest);
    }
  }

  lemma {:induction false} MemberRoundTrip(m: Member, ascii: bool, rest: string)
    requires Valid(m.value) && Delimits(rest)
    ensures ParseMember(PrintMember(m, ascii) + rest) == Some(Parsed(m, rest))
    decreases m, 3
  {
    hide ParseValue, Print, Quote, ParseString;
    var afterKey := ":" + Print(m.value, ascii) + rest;
    var s := PrintMember(m, ascii) + rest;
    assert s == Quote(m.key, ascii) + afterKey;
    QuoteRoundTrip(m.key, ascii, afterKey);
    SkipNothing(afterKey);
    assert afterKey[1..] == Print(m.value, ascii) + rest;
    PrintStart(m.value, ascii, rest);
    SkipNothing(Print(m.value, ascii) + rest);
    ValueRoundTrip(m.value, ascii, rest);
  }

  lemma {:induction false} MembersRoundTrip(members: seq<Member>, ascii: bool, rest: string)
    requires |members| > 0 && (forall m <- members :: Valid(m.value)) && Delimits(rest)
    ensures ParseMembers(PrintMember(members[0], ascii) + PrintMembers(members[1..], ascii) + "}" + rest) == Some(Parsed(members, rest))
    decreases members, 0
  {
    hide ParseMember, ParseMembers, PrintMember, SkipWhitespace, Valid;
    var more := members[1..];
    var tail := PrintMembers(more, ascii) + "}" + rest;
    assert members[0] in members && forall m <- more :: m in members;
    MemberRoundTrip(members[0], ascii, tail);
    Assoc(PrintMember(members[0], ascii), PrintMembers(more, ascii), "}", rest);
    if |more| == 0 {
      assert tail == "}" + rest;
      assert members == [members[0]];
      LastMember(PrintMember(members[0], ascii) + tail, members[0], rest);
    } else {
      var next := PrintMember(more[0], ascii) + PrintMembers(more[1..], ascii) + "}" + rest;
      assert tail == "," + next;
      MemberStart(more[0], ascii, PrintMembers(more[1..], ascii) + "}" + rest);
      Assoc(PrintMember(more[0], ascii), PrintMembers(more[1..], ascii), "}", rest);
      SkipNothing(next);
      MembersRoundTrip(more, ascii, rest);
      MoreMembers(PrintMember(members[0], ascii) + tail, members[0], next, more, rest);
      assert members == [members[0]] + more;
    }
  }

  lemma MemberStart(m: Member, ascii: bool, rest: string)
    ensures var s := PrintMember(m, ascii) + rest; s != "" && s[0] == '"'
  {
  }

  /** Printing then parsing is the identity on every valid value. */
  lemma RoundTrip(v: Json, ascii: bool)
    requires Valid(v)
    ensures Parse(Print(v, ascii)) == Some(v)
  {
    hide ParseValue, Print;
    assert Print(v, ascii) + "" == Print(v, ascii);
    PrintStart(v, ascii, "");
    SkipNothing(Print(v, ascii));
    ValueRoundTrip(v, ascii, "");
  }

  lemma TextsRoundTrip(texts: seq<string>)
    ensures Valid(Arr(TextItems(texts))) && TextsOf(Arr(TextItems(texts))) == Some(texts)
  {
    var items := TextItems(texts);
    assert forall item <- items :: item.Str?;
    assert TextsOf(Arr(items)).value == texts;
  }
}
