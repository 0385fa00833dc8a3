/** A JSON object's text never parses after it is cut short: what parses keeps parsing when text is appended. */
module JsonPrefix {
  import opened Text
  import opened Wrappers
  import opened Json
  import opened JsonRoundTrip

  /** Appending text leaves what was read alone and extends what follows. */
  ghost predicate SameRead<T(!new)>(before: Option<Parsed<T>>, after: Option<Parsed<T>>, more: string) {
    before.Some? ==> after == Some(Parsed(before.value.value, before.value.rest + more))
  }

  lemma SliceExtends(s: string, more: string, k: nat)
    requires k <= |s|
    ensures (s + more)[k..] == s[k..] + more
  {
  }

  lemma {:induction false} SkipExtends(s: string, more: string)
    requires SkipWhitespace(s) != ""
    ensures SkipWhitespace(s + more) == SkipWhitespace(s) + more
  {
    if s[0] in {' ', '\t', '\n', '\r'} {
      SliceExtends(s, more, 1);
      SkipExtends(s[1..], more);
    }
  }

  lemma Hex4Extends(s: string, more: string)
    requires ParseHex4(s).Some?
    ensures ParseHex4(s + more) == ParseHex4(s)
  {
  }

  lemma EscapeExtends(s: string, more: string)
    ensures SameRead(ParseEscape(s), ParseEscape(s + more), more)
  {
    hide ParseHex4;
    if ParseEscape(s).Some? {
      SliceExtends(s, more, 1);
      if s[0] == 'u' {
        Hex4Extends(s[1..], more);
        SliceExtends(s, more, 5);
        if StartsWith(s[5..], "\\u") {
          SliceExtends(s, more, 7);
          assert StartsWith(s[5..] + more, "\\u");
          if ParseHex4(s[7..]).Some? {
            Hex4Extends(s[7..], more);
            SliceExtends(s, more, 11);
          }
        }
      }
    }
  }

  lemma {:induction false} StringExtends(s: string, more: string)
    ensures SameRead(ParseString(s), ParseString(s + more), more)
    decreases |s|
  {
    hide ParseEscape;
    if ParseString(s).Some? {
      SliceExtends(s, more, 1);
      if s[0] == '\\' {
        EscapeExtends(s[1..], more);
        StringExtends(ParseEscape(s[1..]).value.rest, more);
      } else if s[0] != '"' {
        StringExtends(s[1..], more);
      }
    }
  }

  lemma NumberExtends(s: string, more: string)
    requires ParseNumber(s).Some?
    requires var rest := ParseNumber(s).value.rest; rest != "" && Delimits(rest)
    ensures SameRead(ParseNumber(s), ParseNumber(s + more), more)
  {
    hide DigitsValue, NumberLength, IntLength;
    var n := NumberLength(s);
    var literal, rest := s[..n], s[n..];
    assert s == literal + rest && s + more == literal + (rest + more);
    NumberLengthExtends(literal, rest);
    NumberLengthExtends(literal, rest + more);
    SliceExtends(s, more, n);
    assert (s + more)[..n] == literal;
    IntLengthDigits(s);
    IntLengthDigits(s + more);
    if n == IntLength(s) {
      var k := SignLength(s);
      assert (s + more)[k..n] == s[k..n];
    }
  }

  predicate IsNumber(v: Json) { v.Int? || v.Float? }

  lemma KeywordExtends(s: string, more: string, keyword: string)
    requires StartsWith(s, keyword)
    ensures StartsWith(s + more, keyword) && (s + more)[|keyword|..] == s[|keyword|..] + more
  {
  }

  /** Only a number at the very end of the text can change its reading. */
  lemma {:induction false} ValueExtends(s: string, more: string)
    requires ParseValue(s).Some?
    requires var p := ParseValue(s).value; IsNumber(p.value) ==> p.rest != "" && Delimits(p.rest)
    ensures SameRead(ParseValue(s), ParseValue(s + more), more)
    decreases |s|, 1
  {
    hide ParseString, ParseItems, ParseMembers, ParseNumber, UniqueKeys;
    SliceExtends(s, more, 1);
    if s[0] == '"' {
      StringExtends(s[1..], more);
    } else if s[0] == '[' {
      ArrayExtends(s, more);
    } else if s[0] == '{' {
      ObjectExtends(s, more);
    } else if StartsWith(s, "null") {
      KeywordExtends(s, more, "null");
    } else if StartsWith(s, "true") {
      KeywordExtends(s, more, "true");
    } else if StartsWith(s, "false") {
      KeywordExtends(s, more, "false");
    } else {
      NumberIsNumber(s);
      NumberCase(s, more);
    }
  }

  lemma NumberIsNumber(s: string)
    requires ParseNumber(s).Some?
    ensures IsNumber(ParseNumber(s).value.value) && s != "" && (IsDigit(s[0]) || s[0] == '-')
  {
    hide DigitsValue, FractionLength, ExponentLength;
  }

  lemma NumberCase(s: string, more: string)
    requires ParseNumber(s).Some? && ParseValue(s) == ParseNumber(s)
    requires var rest := ParseNumber(s).value.rest; rest != "" && Delimits(rest)
    ensures SameRead(ParseNumber(s), ParseValue(s + more), more)
  {
    hide ParseString, ParseItems, ParseMembers, ParseNumber;
    NumberExtends(s, more);
    NumberIsNumber(s);
    NumberIsNoKeyword(s + more);
  }

  lemma {:induction false} ArrayExtends(s: string, more: string)
    requires ParseValue(s).Some? && s[0] == '['
    ensures SameRead(ParseValue(s), ParseValue(s + more), more)
    decreases |s|, 0
  {
    hide ParseItems, ParseMembers, ParseString, ParseNumber;
    SliceExtends(s, more, 1);
    var t := SkipWhitespace(s[1..]);
    if t != "" {
      SkipExtends(s[1..], more);
      SliceExtends(t, more, 1);
      if t[0] != ']' { ItemsExtend(t, more); }
    } else {
      EmptyReadsNothing();
    }
  }

  lemma EmptyReadsNothing()
    ensures ParseItems("").None? && ParseMembers("").None?
  {
  }

  lemma {:induction false} ObjectExtends(s: string, more: string)
    requires ParseValue(s).Some? && s[0] == '{'
    ensures SameRead(ParseValue(s), ParseValue(s + more), more)
    decreases |s|, 0
  {
    hide ParseItems, ParseMembers, ParseString, ParseNumber, UniqueKeys;
    SliceExtends(s, more, 1);
    var t := SkipWhitespace(s[1..]);
    if t != "" {
      SkipExtends(s[1..], more);
      SliceExtends(t, more, 1);
      if t[0] != '}' { MembersExtend(t, more); }
    } else {
      EmptyReadsNothing();
    }
  }

  /** What follows a value inside brackets delimits it. */
  lemma DelimitedRest(rest: string)
    requires var t := SkipWhitespace(rest); t != "" && t[0] in {',', ']', '}'}
    ensures rest != "" && Delimits(rest)
  {
  }

  lemma {:induction false} ItemsExtend(s: string, more: string)
    requires ParseItems(s).Some?
    ensures SameRead(ParseItems(s), ParseItems(s + more), more)
    decreases |s|, 2
  {
    hide ParseValue, Delimits;
    var p := ParseValue(s).value;
    var t := SkipWhitespace(p.rest);
    DelimitedRest(p.rest);
    ValueExtends(s, more);
    SkipExtends(p.rest, more);
    SliceExtends(t, more, 1);
    if t[0] == ',' {
      var u := SkipWhitespace(t[1..]);
      if u == "" { EmptyReadsNothing(); }
      SkipExtends(t[1..], more);
      ItemsExtend(u, more);
    }
  }

  lemma {:induction false} MemberExtends(s: string, more: string)
    requires ParseMember(s).Some?
    requires var rest := ParseMember(s).value.rest; rest != "" && Delimits(rest)
    ensures SameRead(ParseMember(s), ParseMember(s + more), more)
    decreases |s|, 2
  {
    hide ParseValue, Delimits, ParseString;
    SliceExtends(s, more, 1);
    StringExtends(s[1..], more);
    var k := ParseString(s[1..]).value;
    var t := SkipWhitespace(k.rest);
    SkipExtends(k.rest, more);
    SliceExtends(t, more, 1);
    var u := SkipWhitespace(t[1..]);
    NoValueInEmpty();
    SkipExtends(t[1..], more);
    ValueExtends(u, more);
  }

  lemma NoValueInEmpty()
    ensures ParseValue("").None?
  {
  }

  lemma {:induction false} MembersExtend(s: string, more: string)
    requires ParseMembers(s).Some?
    ensures SameRead(ParseMembers(s), ParseMembers(s + more), more)
    decreases |s|, 3
  {
    hide ParseMember, Delimits;
    var p := ParseMember(s).value;
    var t := SkipWhitespace(p.rest);
    DelimitedRest(p.rest);
    MemberExtends(s, more);
    SkipExtends(p.rest, more);
    SliceExtends(t, more, 1);
    if t[0] == ',' {
      var u := SkipWhitespace(t[1..]);
      if u == "" { EmptyReadsNothing(); }
      SkipExtends(t[1..], more);
      MembersExtend(u, more);
    }
  }

  /** The text printed for an object stops parsing as soon as any of its end is cut off. */
  lemma CutObjectIsRefused(members: seq<Member>, ascii: bool, cut: nat)
    requires Valid(Obj(members)) && cut < |Print(Obj(members), ascii)|
    ensures Parse(Print(Obj(members), ascii)[..cut]).None?
  {
    hide ParseValue, Print, Valid;
    var text := Print(Obj(members), ascii);
    var part, more := text[..cut], text[cut..];
    assert text == part + more;
    NoValueInEmpty();
    if part != "" {
      ObjectStart(members, ascii);
      assert part[0] == '{';
      SkipNothing(part);
      if ParseValue(part).Some? {
        ObjectReadsObject(part);
        ValueExtends(part, more);
        assert text + "" == text;
        ValueRoundTrip(Obj(members), ascii, "");
      }
    }
  }

  lemma ObjectStart(members: seq<Member>, ascii: bool)
    ensures Print(Obj(members), ascii) != "" && Print(Obj(members), ascii)[0] == '{'
  {
  }

  lemma ObjectReadsObject(s: string)
    requires s != "" && s[0] == '{' && ParseValue(s).Some?
    ensures ParseValue(s).value.value.Obj?
  {
  }
}
