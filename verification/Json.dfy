/** JSON values, Python's compact printer, and a strict parser (RFC 8259). */
module Json {
  import opened Text
  import opened Wrappers
  import opened MemoryIndex

  /** A float is identified with the literal `repr` prints for it. */
  datatype Json =
    | Null
    | Bool(b: bool)
    | Int(n: int)
    | Float(literal: string)
    | Str(s: string)
    | Arr(items: seq<Json>)
    | Obj(members: seq<Member>)

  datatype Member = Member(key: string, value: Json)

  function Lookup(members: seq<Member>, key: string): Option<Json> {
    if |members| == 0 then None
    else if members[0].key == key then Some(members[0].value)
    else Lookup(members[1..], key)
  }

  predicate HasKey(members: seq<Member>, key: string) {
    exists i :: 0 <= i < |members| && members[i].key == key
  }

  predicate UniqueKeys(members: seq<Member>) {
    forall i, j :: 0 <= i < j < |members| ==> members[i].key != members[j].key
  }

  /** Values Python can print and read back: finite float literals and no repeated object key. */
  predicate Valid(v: Json) {
    match v
    case Float(literal) => IsFloatLiteral(literal)
    case Arr(items) => forall item <- items :: Valid(item)
    case Obj(members) => UniqueKeys(members) && forall m <- members :: Valid(m.value)
    case _ => true
  }

  // ---- Numbers ----

  predicate IsDigit(c: char) { '0' <= c <= '9' }

  function Digit(n: nat): char
    requires n < 10
  {
    ('0' as int + n) as char
  }

  function DigitValue(c: char): (n: nat)
    requires IsDigit(c)
    ensures n < 10 && Digit(n) == c
  {
    (c as int) - 48
  }

  function Digits(n: nat): (s: string)
    ensures |s| > 0 && forall c <- s :: IsDigit(c)
    ensures n > 0 ==> s[0] != '0'
    ensures n == 0 ==> s == "0"
  {
    if n < 10 then [Digit(n)] else Digits(n / 10) + [Digit(n % 10)]
  }

  function Decimal(n: int): string {
    if n < 0 then "-" + Digits(-n) else Digits(n)
  }

  function DigitsValue(s: string): nat
    requires forall c <- s :: IsDigit(c)
  {
    if s == "" then 0
    else
      assert s[|s| - 1] in s;
      DigitsValue(s[..|s| - 1]) * 10 + DigitValue(s[|s| - 1])
  }

  function DigitRun(s: string): (n: nat)
    ensures n <= |s| && forall i :: 0 <= i < n ==> IsDigit(s[i])
  {
    if s != "" && IsDigit(s[0]) then 1 + DigitRun(s[1..]) else 0
  }

  function SignLength(s: string): nat {
    if s != "" && s[0] == '-' then 1 else 0
  }

  /** Length of the integer part, zero when there is none. */
  function IntLength(s: string): (n: nat)
    ensures n <= |s|
  {
    var t := s[SignLength(s)..];
    if t == "" || !IsDigit(t[0]) then 0
    else if t[0] == '0' then SignLength(s) + 1
    else SignLength(s) + DigitRun(t)
  }

  function FractionLength(s: string): (n: nat)
    ensures n <= |s|
  {
    if s != "" && s[0] == '.' && DigitRun(s[1..]) > 0 then 1 + DigitRun(s[1..]) else 0
  }

  function ExponentLength(s: string): (n: nat)
    ensures n <= |s|
  {
    if s == "" || (s[0] != 'e' && s[0] != 'E') then 0
    else
      var k := if |s| > 1 && (s[1] == '+' || s[1] == '-') then 2 else 1;
      if DigitRun(s[k..]) > 0 then k + DigitRun(s[k..]) else 0
  }

  function NumberLength(s: string): (n: nat)
    ensures n <= |s|
  {
    var i := IntLength(s);
    if i == 0 then 0
    else
      var f := FractionLength(s[i..]);
      i + f + ExponentLength(s[i + f..])
  }

  /** A number literal with a fraction or an exponent. */
  predicate IsFloatLiteral(s: string) {
    s != "" && NumberLength(s) == |s| && IntLength(s) < |s|
  }

  // ---- Strings ----

  function EscapeJson(c: char, ascii: bool): string {
    var n := c as int;
    if c == '"' then "\\\""
    else if c == '\\' then "\\\\"
    else if n == 0x0A then "\\n"
    else if n == 0x0D then "\\r"
    else if n == 0x09 then "\\t"
    else if n == 0x08 then "\\b"
    else if n == 0x0C then "\\f"
    else if n < 0x20 || (ascii && 0x7F <= n <= 0xFFFF) then "\\u" + Hex4(n)
    else if ascii && n > 0xFFFF then
      var v := n - 0x10000;
      "\\u" + Hex4(0xD800 + v / 1024) + "\\u" + Hex4(0xDC00 + v % 1024)
    else [c]
  }

  function EscapeAll(s: string, ascii: bool): string {
    if s == "" then "" else EscapeJson(s[0], ascii) + EscapeAll(s[1..], ascii)
  }

  function Quote(s: string, ascii: bool): string {
    "\"" + EscapeAll(s, ascii) + "\""
  }

  // ---- Printer: `json.dumps` with separators (",", ":") ----

  function Print(v: Json, ascii: bool): string {
    match v
    case Null => "null"
    case Bool(b) => if b then "true" else "false"
    case Int(n) => Decimal(n)
    case Float(literal) => literal
    case Str(s) => Quote(s, ascii)
    case Arr(items) =>
      if |items| == 0 then "[]" else "[" + Print(items[0], ascii) + PrintItems(items[1..], ascii) + "]"
    case Obj(members) =>
      if |members| == 0 then "{}" else "{" + PrintMember(members[0], ascii) + PrintMembers(members[1..], ascii) + "}"
  }

  function PrintItems(items: seq<Json>, ascii: bool): string {
    if |items| == 0 then "" else "," + Print(items[0], ascii) + PrintItems(items[1..], ascii)
  }

  function PrintMember(m: Member, ascii: bool): string {
    Quote(m.key, ascii) + ":" + Print(m.value, ascii)
  }

  function PrintMembers(members: seq<Member>, ascii: bool): string {
    if |members| == 0 then "" else "," + PrintMember(members[0], ascii) + PrintMembers(members[1..], ascii)
  }

  // ---- Parser: strict, duplicate keys and NaN constants rejected ----

  datatype Parsed<T> = Parsed(value: T, rest: string)

  function SkipWhitespace(s: string): (r: string)
    ensures |r| <= |s|
  {
    if s != "" && (s[0] == ' ' || s[0] == '\t' || s[0] == '\n' || s[0] == '\r') then SkipWhitespace(s[1..]) else s
  }

  function HexValue(c: char): Option<nat> {
    if '0' <= c <= '9' then Some(c as int - '0' as int)
    else if 'a' <= c <= 'f' then Some(c as int - 'a' as int + 10)
    else if 'A' <= c <= 'F' then Some(c as int - 'A' as int + 10)
    else None
  }

  function ParseHex4(s: string): (r: Option<nat>)
    ensures r.Some? ==> |s| >= 4
  {
    if |s| < 4 then None
    else match (HexValue(s[0]), HexValue(s[1]), HexValue(s[2]), HexValue(s[3]))
      case (Some(a), Some(b), Some(c), Some(d)) => Some(((a * 16 + b) * 16 + c) * 16 + d)
      case _ => None
  }

  /** One escape after the backslash: the character and what follows. A lone surrogate is refused. */
  function ParseEscape(s: string): (r: Option<Parsed<char>>)
    ensures r.Some? ==> |r.value.rest| < |s|
  {
    if s == "" then None
    else match s[0]
      case '"' => Some(Parsed('"', s[1..]))
      case '\\' => Some(Parsed('\\', s[1..]))
      case '/' => Some(Parsed('/', s[1..]))
      case 'b' => Some(Parsed(0x08 as char, s[1..]))
      case 'f' => Some(Parsed(0x0C as char, s[1..]))
      case 'n' => Some(Parsed('\n', s[1..]))
      case 'r' => Some(Parsed('\r', s[1..]))
      case 't' => Some(Parsed('\t', s[1..]))
      case 'u' =>
        (match ParseHex4(s[1..])
         case None => None
         case Some(n) =>
           if n < 0xD800 || 0xE000 <= n < 0x10000 then Some(Parsed(n as char, s[5..]))
           else if n < 0xDC00 && StartsWith(s[5..], "\\u") then
             match ParseHex4(s[7..])
             case Some(m) =>
               if 0xDC00 <= m < 0xE000 then Some(Parsed((0x10000 + (n - 0xD800) * 1024 + (m - 0xDC00)) as char, s[11..]))
               else None
             case None => None
           else None)
      case _ => None
  }

  /** The characters after an opening quote, up to and including the closing one. */
  function ParseString(s: string): (r: Option<Parsed<string>>)
    ensures r.Some? ==> |r.value.rest| < |s|
    decreases |s|
  {
    if s == "" then None
    else if s[0] == '"' then Some(Parsed("", s[1..]))
    else if s[0] == '\\' then
      match ParseEscape(s[1..])
      case None => None
      case Some(p) => Prepend(p.value, ParseString(p.rest))
    else if (s[0] as int) < 0x20 then None
    else Prepend(s[0], ParseString(s[1..]))
  }

  function Prepend(c: char, r: Option<Parsed<string>>): Option<Parsed<string>> {
    match r
    case None => None
    case Some(p) => Some(Parsed([c] + p.value, p.rest))
  }

  function ParseNumber(s: string): (r: Option<Parsed<Json>>)
    ensures r.Some? ==> |r.value.rest| < |s|
  {
    var n := NumberLength(s);
    if n == 0 then None
    else if n > IntLength(s) then Some(Parsed(Float(s[..n]), s[n..]))
    else
      var k := SignLength(s);
      IntLengthDigits(s);
      var magnitude: int := DigitsValue(s[k..n]);
      var value: int := if k == 1 then -magnitude else magnitude;
      Some(Parsed(Int(value), s[n..]))
  }

  lemma IntLengthDigits(s: string)
    ensures IntLength(s) > 0 ==> IntLength(s) > SignLength(s) && forall c <- s[SignLength(s)..IntLength(s)] :: IsDigit(c)
  {
    var t := s[SignLength(s)..];
    if IntLength(s) > 0 && t[0] != '0' {
      assert s[SignLength(s)..IntLength(s)] == t[..DigitRun(t)];
    }
  }

  function ParseValue(s: string): (r: Option<Parsed<Json>>)
    ensures r.Some? ==> |r.value.rest| < |s|
    decreases |s|, 1
  {
    if s == "" then None
    else if s[0] == '"' then
      match ParseString(s[1..])
      case None => None
      case Some(p) => Some(Parsed(Str(p.value), p.rest))
    else if s[0] == '[' then
      var t := SkipWhitespace(s[1..]);
      if t != "" && t[0] == ']' then Some(Parsed(Arr([]), t[1..]))
      else
        match ParseItems(t)
        case None => None
        case Some(p) => Some(Parsed(Arr(p.value), p.rest))
    else if s[0] == '{' then
      var t := SkipWhitespace(s[1..]);
      if t != "" && t[0] == '}' then Some(Parsed(Obj([]), t[1..]))
      else
        match ParseMembers(t)
        case None => None
        case Some(p) => if UniqueKeys(p.value) then Some(Parsed(Obj(p.value), p.rest)) else None
    else if StartsWith(s, "null") then Some(Parsed(Null, s[4..]))
    else if StartsWith(s, "true") then Some(Parsed(Bool(true), s[4..]))
    else if StartsWith(s, "false") then Some(Parsed(Bool(false), s[5..]))
    else ParseNumber(s)
  }

  function ParseItems(s: string): (r: Option<Parsed<seq<Json>>>)
    ensures r.Some? ==> |r.value.rest| < |s|
    decreases |s|, 2
  {
    match ParseValue(s)
    case None => None
    case Some(p) =>
      var t := SkipWhitespace(p.rest);
      if t == "" then None
      else if t[0] == ']' then Some(Parsed([p.value], t[1..]))
      else if t[0] != ',' then None
      else
        match ParseItems(SkipWhitespace(t[1..]))
        case None => None
        case Some(q) => Some(Parsed([p.value] + q.value, q.rest))
  }

  function ParseMember(s: string): (r: Option<Parsed<Member>>)
    ensures r.Some? ==> |r.value.rest| < |s|
    decreases |s|, 2
  {
    if s == "" || s[0] != '"' then None
    else match ParseString(s[1..])
      case None => None
      case Some(k) =>
        var t := SkipWhitespace(k.rest);
        if t == "" || t[0] != ':' then None
        else match ParseValue(SkipWhitespace(t[1..]))
          case None => None
          case Some(p) => Some(Parsed(Member(k.value, p.value), p.rest))
  }

  function ParseMembers(s: string): (r: Option<Parsed<seq<Member>>>)
    ensures r.Some? ==> |r.value.rest| < |s|
    decreases |s|, 3
  {
    match ParseMember(s)
    case None => None
    case Some(p) =>
      var t := SkipWhitespace(p.rest);
      if t == "" then None
      else if t[0] == '}' then Some(Parsed([p.value], t[1..]))
      else if t[0] != ',' then None
      else
        match ParseMembers(SkipWhitespace(t[1..]))
        case None => None
        case Some(q) => Some(Parsed([p.value] + q.value, q.rest))
  }

  /** `json.loads`: one value, white space allowed around it. */
  function Parse(s: string): Option<Json> {
    match ParseValue(SkipWhitespace(s))
    case None => None
    case Some(p) => if SkipWhitespace(p.rest) == "" then Some(p.value) else None
  }

  // ---- Lists of texts ----

  function TextItems(texts: seq<string>): seq<Json> {
    seq(|texts|, i requires 0 <= i < |texts| => Str(texts[i]))
  }

  function TextsOf(v: Json): Option<seq<string>> {
    match v
    case Arr(items) =>
      if forall item <- items :: item.Str? then
        Some(seq(|items|, i requires 0 <= i < |items| => match items[i] case Str(s) => s case _ => ""))
      else None
    case _ => None
  }
}
