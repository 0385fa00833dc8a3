/** The running byte count equals the UTF-8 length of the encoding, so the limit is decided before anything is encoded. */
module TaskBudgetExact {
  import opened Text
  import opened Wrappers
  import opened MemoryIndex
  import opened Json
  import opened JsonRoundTrip
  import opened FrontmatterRoundTrip
  import opened TaskBudget

  // ---- Which values are structurally safe, independent of size ----

  ghost predicate Structural(v: PyValue, depth: nat)
    decreases v
  {
    && depth <= MAX_DEPTH
    && match v
       case PyNone => true
       case PyBool(_) => true
       case PyInt(n) => n < Pow10(MAX_INTEGER_DIGITS) && n + Pow10(MAX_INTEGER_DIGITS) > 0
       case PyFloat(_, finite) => finite
       case PyText(s) => StringBytes(s).Ok?
       case PySequence(items) => forall item <- items :: Structural(item, depth + 1)
       case PyDict(members) => forall m <- members :: m.key.PyText? && StringBytes(m.key.s).Ok? && Structural(m.value, depth + 1)
       case Other => false
  }

  /** What Python itself guarantees: `repr` of a finite float is a float literal, and dict keys are distinct. */
  ghost predicate Pythonic(v: PyValue) {
    match v
    case PyFloat(literal, finite) => finite ==> IsFloatLiteral(literal)
    case PySequence(items) => forall item <- items :: Pythonic(item)
    case PyDict(members) =>
      && (forall m <- members :: Pythonic(m.value))
      && (forall i, j :: 0 <= i < j < |members| ==> members[i].key != members[j].key)
    case _ => true
  }

  /** The JSON value a structurally safe Python value stands for. */
  ghost function Norm(v: PyValue): Json {
    match v
    case PyNone => Null
    case PyBool(b) => Bool(b)
    case PyInt(n) => Int(n)
    case PyFloat(literal, _) => Float(literal)
    case PyText(s) => Str(DecodeOrEmpty(s))
    case PySequence(items) => Arr(NormItems(items))
    case PyDict(members) => Obj(NormMembers(members))
    case Other => Null
  }

  ghost function DecodeOrEmpty(s: PyStr): string {
    if IsScalarText(s) then Decode(s) else ""
  }

  ghost function NormItems(items: seq<PyValue>): seq<Json> {
    if |items| == 0 then [] else [Norm(items[0])] + NormItems(items[1..])
  }

  ghost function NormMembers(members: seq<PyMember>): seq<Member> {
    if |members| == 0 then [] else [NormMember(members[0])] + NormMembers(members[1..])
  }

  ghost function NormMember(m: PyMember): Member {
    Member(if m.key.PyText? then DecodeOrEmpty(m.key.s) else "", Norm(m.value))
  }

  // ---- Byte lengths of printed values ----

  function ByteLength(v: Json): nat {
    Utf8Length(Print(v, false))
  }

  function MemberBytes(m: Member): nat {
    Utf8Length(PrintMember(m, false))
  }

  /** Bytes of the items with their commas; `more` says whether a comma comes first. */
  function ItemsBytes(items: seq<Json>, more: bool): nat {
    if |items| == 0 then 0 else (if more then 1 else 0) + ByteLength(items[0]) + ItemsBytes(items[1..], true)
  }

  function MembersBytes(members: seq<Member>, more: bool): nat {
    if |members| == 0 then 0 else (if more then 1 else 0) + MemberBytes(members[0]) + MembersBytes(members[1..], true)
  }

  lemma {:induction false} AsciiLength(s: string)
    requires forall c <- s :: c as int <= 0x7F
    ensures Utf8Length(s) == |s|
  {
    if s != "" {
      assert s[0] in s && forall c <- s[1..] :: c in s;
      AsciiLength(s[1..]);
    }
  }

  lemma {:induction false} ItemsLength(items: seq<Json>)
    ensures Utf8Length(PrintItems(items, false)) == ItemsBytes(items, true)
  {
    hide Print;
    if |items| > 0 {
      ItemsLength(items[1..]);
      Utf8LengthConcat("," + Print(items[0], false), PrintItems(items[1..], false));
      Utf8LengthConcat(",", Print(items[0], false));
      AsciiLength(",");
    }
  }

  lemma {:induction false} MembersLength(members: seq<Member>)
    ensures Utf8Length(PrintMembers(members, false)) == MembersBytes(members, true)
  {
    hide PrintMember;
    if |members| > 0 {
      MembersLength(members[1..]);
      Utf8LengthConcat("," + PrintMember(members[0], false), PrintMembers(members[1..], false));
      Utf8LengthConcat(",", PrintMember(members[0], false));
      AsciiLength(",");
    }
  }

  lemma Wrapped(open: string, first: string, rest: string, close: string)
    requires Utf8Length(open) == 1 && Utf8Length(close) == 1
    ensures Utf8Length(open + first + rest + close) == 2 + Utf8Length(first) + Utf8Length(rest)
  {
    Utf8LengthConcat(open + first + rest, close);
    Utf8LengthConcat(open + first, rest);
    Utf8LengthConcat(open, first);
  }

  lemma ArrayLength(items: seq<Json>)
    ensures ByteLength(Arr(items)) == 2 + ItemsBytes(items, false)
  {
    hide PrintItems;
    if |items| == 0 {
      AsciiLength("[]");
    } else {
      AsciiLength("[");
      AsciiLength("]");
      Wrapped("[", Print(items[0], false), PrintItems(items[1..], false), "]");
      ItemsLength(items[1..]);
    }
  }

  lemma ObjectLength(members: seq<Member>)
    ensures ByteLength(Obj(members)) == 2 + MembersBytes(members, false)
  {
    hide PrintMembers, PrintMember;
    if |members| == 0 {
      AsciiLength("{}");
    } else {
      AsciiLength("{");
      AsciiLength("}");
      Wrapped("{", PrintMember(members[0], false), PrintMembers(members[1..], false), "}");
      MembersLength(members[1..]);
    }
  }

  lemma MemberLength(m: Member)
    ensures MemberBytes(m) == Utf8Length(Quote(m.key, false)) + 1 + ByteLength(m.value)
  {
    hide Quote, Print;
    Utf8LengthConcat(Quote(m.key, false) + ":", Print(m.value, false));
    Utf8LengthConcat(Quote(m.key, false), ":");
    AsciiLength(":");
  }

  lemma CodePointLength(n: CodePoint)
    requires !IsSurrogate(n)
    ensures Utf8Length(EscapeJson(n as char, false)) == CodePointBytes(n)
  {
    var unit := EscapeJson(n as char, false);
    if n < 0x20 || n == 0x22 || n == 0x5C {
      Hex4Chars(n);
      AsciiLength(unit);
    } else {
      assert unit == [n as char];
      assert unit[1..] == "";
    }
  }

  lemma {:induction false} EscapedLength(s: PyStr)
    requires IsScalarText(s)
    ensures Utf8Length(EscapeAll(Decode(s), false)) == BytesOf(s)
  {
    hide EscapeJson, CodePointBytes;
    if |s| > 0 {
      assert s[0] in s && forall n <- s[1..] :: n in s;
      EscapedLength(s[1..]);
      CodePointLength(s[0]);
      assert Decode(s)[1..] == Decode(s[1..]);
      Utf8LengthConcat(EscapeJson(s[0] as char, false), EscapeAll(Decode(s[1..]), false));
    }
  }

  /** The length loop counts exactly the printed string. */
  lemma QuotedLength(s: PyStr)
    requires IsScalarText(s)
    ensures Utf8Length(Quote(Decode(s), false)) == 2 + BytesOf(s)
  {
    hide EscapeAll;
    EscapedLength(s);
    AsciiLength("\"");
    Utf8LengthConcat("\"" + EscapeAll(Decode(s), false), "\"");
    Utf8LengthConcat("\"", EscapeAll(Decode(s), false));
  }

  lemma DecimalLength(n: int)
    ensures Utf8Length(Decimal(n)) == |Decimal(n)|
  {
    DecimalShape(n);
    NumberCharsPrintable(Decimal(n));
    AsciiLength(Decimal(n));
  }

  lemma FloatLength(literal: string)
    requires IsFloatLiteral(literal)
    ensures Utf8Length(literal) == |literal|
  {
    FloatPrintable(literal);
    AsciiLength(literal);
  }

  // ---- The traversal charges exactly the printed length ----

  /** Accept with the exact charge, or refuse for size: the only two ways a safe value can go. */
  ghost function Exact<T>(value: T, used: nat, bytes: nat): Result<Charged<T>, TaskError> {
    if used + bytes <= MAX_TASK_BYTES then Ok(Charged(value, used + bytes)) else Err(TooLarge)
  }

  lemma {:induction false} NormalizeExact(v: PyValue, depth: nat, used: nat)
    requires Pythonic(v)
    ensures Structural(v, depth) ==> Normalize(v, depth, used) == Exact(Norm(v), used, ByteLength(Norm(v)))
    ensures !Structural(v, depth) ==> Normalize(v, depth, used).Err?
    decreases v, 1
  {
    hide Normalize, Norm, Structural, Pythonic, ByteLength;
    if v.PySequence? {
      SequenceExact(v, depth, used);
    } else if v.PyDict? {
      DictExact(v, depth, used);
    } else {
      ScalarExact(v, depth, used);
    }
  }

  lemma {:induction false} SequenceExact(v: PyValue, depth: nat, used: nat)
    requires Pythonic(v) && v.PySequence?
    ensures Structural(v, depth) ==> Normalize(v, depth, used) == Exact(Norm(v), used, ByteLength(Norm(v)))
    ensures !Structural(v, depth) ==> Normalize(v, depth, used).Err?
    decreases v, 0
  {
    hide Print, Structural, Pythonic, NormalizeMembers, NormalizeItems, ByteLength, AllStructural, AllPythonic;
    StructuralItems(v, depth);
    ArrayLength(NormItems(v.items));
    if depth <= MAX_DEPTH && used + 2 <= MAX_TASK_BYTES {
      ItemsExact(v.items, depth, used + 2, []);
      assert [] + NormItems(v.items) == NormItems(v.items);
    }
  }

  lemma {:induction false} DictExact(v: PyValue, depth: nat, used: nat)
    requires Pythonic(v) && v.PyDict?
    ensures Structural(v, depth) ==> Normalize(v, depth, used) == Exact(Norm(v), used, ByteLength(Norm(v)))
    ensures !Structural(v, depth) ==> Normalize(v, depth, used).Err?
    decreases v, 0
  {
    hide Print, Structural, Pythonic, NormalizeMembers, NormalizeItems, ByteLength, AllMembersOK, AllValuesPythonic, DistinctKeys, KeysUnused;
    StructuralMembers(v, depth);
    NothingUsed(v.members);
    ObjectLength(NormMembers(v.members));
    if depth <= MAX_DEPTH && used + 2 <= MAX_TASK_BYTES {
      MembersExact(v.members, depth, used + 2, []);
      assert [] + NormMembers(v.members) == NormMembers(v.members);
    }
  }

  lemma TextExact(v: PyValue, depth: nat, used: nat)
    requires v.PyText?
    ensures Structural(v, depth) ==> Normalize(v, depth, used) == Exact(Norm(v), used, ByteLength(Norm(v)))
    ensures !Structural(v, depth) ==> Normalize(v, depth, used).Err?
  {
    hide BytesOf, Quote, Decode;
    if IsScalarText(v.s) { QuotedLength(v.s); }
    hide IsScalarText;
  }

  lemma NumberExact(v: PyValue, depth: nat, used: nat)
    requires Pythonic(v) && (v.PyInt? || v.PyFloat?)
    ensures Structural(v, depth) ==> Normalize(v, depth, used) == Exact(Norm(v), used, ByteLength(Norm(v)))
    ensures !Structural(v, depth) ==> Normalize(v, depth, used).Err?
  {
    hide Pow10, Decimal, IsFloatLiteral, Utf8Length;
    if v.PyInt? { DecimalLength(v.n); } else if v.finite { FloatLength(v.literal); }
  }

  lemma ConstantExact(v: PyValue, depth: nat, used: nat)
    requires v.PyNone? || v.PyBool? || v.Other?
    ensures Structural(v, depth) ==> Normalize(v, depth, used) == Exact(Norm(v), used, ByteLength(Norm(v)))
    ensures !Structural(v, depth) ==> Normalize(v, depth, used).Err?
  {
    hide Utf8Length;
    AsciiLength("null");
    AsciiLength("true");
    AsciiLength("false");
  }

  lemma ScalarExact(v: PyValue, depth: nat, used: nat)
    requires Pythonic(v) && !v.PySequence? && !v.PyDict?
    ensures Structural(v, depth) ==> Normalize(v, depth, used) == Exact(Norm(v), used, ByteLength(Norm(v)))
    ensures !Structural(v, depth) ==> Normalize(v, depth, used).Err?
  {
    hide Normalize, Norm, Structural, Pythonic, ByteLength;
    if v.PyText? {
      TextExact(v, depth, used);
    } else if v.PyInt? || v.PyFloat? {
      NumberExact(v, depth, used);
    } else {
      ConstantExact(v, depth, used);
    }
  }

  ghost predicate AllStructural(items: seq<PyValue>, depth: nat) {
    forall item <- items :: Structural(item, depth)
  }

  ghost predicate AllPythonic(items: seq<PyValue>) {
    forall item <- items :: Pythonic(item)
  }

  lemma StructuralItems(v: PyValue, depth: nat)
    requires v.PySequence?
    ensures Structural(v, depth) <==> depth <= MAX_DEPTH && AllStructural(v.items, depth + 1)
    ensures Pythonic(v) <==> AllPythonic(v.items)
  {
  }

  lemma ItemsCons(items: seq<PyValue>, depth: nat)
    requires |items| > 0
    ensures AllStructural(items, depth) <==> Structural(items[0], depth) && AllStructural(items[1..], depth)
    ensures AllPythonic(items) <==> Pythonic(items[0]) && AllPythonic(items[1..])
  {
    hide Structural, Pythonic;
    assert items == [items[0]] + items[1..];
  }

  lemma NoItems(depth: nat)
    ensures AllStructural([], depth)
  {
  }

  ghost predicate MemberOK(m: PyMember, depth: nat) {
    m.key.PyText? && StringBytes(m.key.s).Ok? && Structural(m.value, depth)
  }

  ghost predicate DistinctKeys(members: seq<PyMember>) {
    forall i, j :: 0 <= i < j < |members| ==> members[i].key != members[j].key
  }

  ghost predicate AllMembersOK(members: seq<PyMember>, depth: nat) {
    forall m <- members :: MemberOK(m, depth)
  }

  ghost predicate AllValuesPythonic(members: seq<PyMember>) {
    forall m <- members :: Pythonic(m.value)
  }

  lemma StructuralMembers(v: PyValue, depth: nat)
    requires v.PyDict?
    ensures Structural(v, depth) <==> depth <= MAX_DEPTH && AllMembersOK(v.members, depth + 1)
    ensures Pythonic(v) <==> AllValuesPythonic(v.members) && DistinctKeys(v.members)
  {
  }

  lemma MembersCons(members: seq<PyMember>, depth: nat)
    requires |members| > 0
    ensures AllMembersOK(members, depth) <==> MemberOK(members[0], depth) && AllMembersOK(members[1..], depth)
    ensures AllValuesPythonic(members) <==> Pythonic(members[0].value) && AllValuesPythonic(members[1..])
    ensures DistinctKeys(members) ==> DistinctKeys(members[1..])
  {
    hide MemberOK, Pythonic;
    assert members == [members[0]] + members[1..];
  }

  lemma NoMembers(depth: nat)
    ensures AllMembersOK([], depth)
  {
  }

  lemma {:induction false} ItemsExact(items: seq<PyValue>, depth: nat, used: nat, done: seq<Json>)
    requires used <= MAX_TASK_BYTES && AllPythonic(items)
    ensures AllStructural(items, depth + 1) ==>
              NormalizeItems(items, depth, used, done) == Exact(done + NormItems(items), used, ItemsBytes(NormItems(items), |done| > 0))
    ensures !AllStructural(items, depth + 1) ==> NormalizeItems(items, depth, used, done).Err?
    decreases items, 1
  {
    hide Normalize, Norm, Print, Structural, Pythonic, ByteLength, AllStructural, AllPythonic;
    if |items| == 0 {
      NoItems(depth + 1);
      assert done + NormItems(items) == done;
    } else {
      var comma := if |done| > 0 then 1 else 0;
      var head, rest := items[0], items[1..];
      ItemsCons(items, depth + 1);
      if used + comma <= MAX_TASK_BYTES {
        NormalizeExact(head, depth + 1, used + comma);
        var r := Normalize(head, depth + 1, used + comma);
        if r.Ok? {
          assert Structural(head, depth + 1) && r == Exact(Norm(head), used + comma, ByteLength(Norm(head)));
          ItemsExact(rest, depth, r.value.used, done + [r.value.value]);
          ConcatAssoc(done, [Norm(head)], NormItems(rest));
          assert NormItems(items)[1..] == NormItems(rest);
        }
      }
      assert NormItems(items)[1..] == NormItems(rest);
    }
  }

  lemma DecodeInjective(a: PyStr, b: PyStr)
    requires IsScalarText(a) && IsScalarText(b) && Decode(a) == Decode(b)
    ensures a == b
  {
    assert |a| == |Decode(a)| == |b|;
    forall i | 0 <= i < |a| ensures a[i] == b[i] {
      assert Decode(a)[i] == Decode(b)[i];
      assert a[i] in a && b[i] in b;
    }
  }

  ghost predicate KeysUnused(members: seq<PyMember>, done: seq<Member>) {
    forall m <- members :: m.key.PyText? && IsScalarText(m.key.s) ==> !HasKey(done, Decode(m.key.s))
  }

  lemma {:induction false} MemberExact(m: PyMember, depth: nat, used: nat, done: seq<Member>)
    requires Pythonic(m.value) && KeysUnused([m], done) && used <= MAX_TASK_BYTES
    ensures MemberOK(m, depth + 1) ==>
              NormalizeMember(m, depth, used, done) == Exact(NormMember(m), used, (if |done| > 0 then 1 else 0) + MemberBytes(NormMember(m)))
    ensures !MemberOK(m, depth + 1) ==> NormalizeMember(m, depth, used, done).Err?
    decreases m, 1
  {
    hide Normalize, Print, Structural, Pythonic, BytesOf, Quote;
    assert m in [m];
    var comma := if |done| > 0 then 1 else 0;
    if m.key.PyText? && StringBytes(m.key.s).Ok? {
      var bytes := StringBytes(m.key.s).value;
      QuotedLength(m.key.s);
      MemberLength(NormMember(m));
      NormalizeExact(m.value, depth + 1, used + comma + bytes + 1);
    }
  }

  lemma {:induction false} MembersExact(members: seq<PyMember>, depth: nat, used: nat, done: seq<Member>)
    requires used <= MAX_TASK_BYTES && DistinctKeys(members) && KeysUnused(members, done) && AllValuesPythonic(members)
    ensures AllMembersOK(members, depth + 1) ==>
              NormalizeMembers(members, depth, used, done) == Exact(done + NormMembers(members), used, MembersBytes(NormMembers(members), |done| > 0))
    ensures !AllMembersOK(members, depth + 1) ==> NormalizeMembers(members, depth, used, done).Err?
    decreases members, 1
  {
    hide NormalizeMember, PrintMember, MemberOK, Pythonic, NormMember, MemberBytes, AllMembersOK, AllValuesPythonic, KeysUnused, DistinctKeys;
    if |members| == 0 {
      NoMembers(depth + 1);
      assert done + NormMembers(members) == done;
    } else {
      var head, rest := members[0], members[1..];
      MembersCons(members, depth + 1);
      HeadUnused(members, done);
      MemberExact(head, depth, used, done);
      assert NormMembers(members)[1..] == NormMembers(rest);
      var r := NormalizeMember(head, depth, used, done);
      if r.Ok? {
        assert MemberOK(head, depth + 1) && r.value.value == NormMember(head);
        MemberKeyIsScalar(head, depth + 1);
        KeysStayUnused(members, done);
        MembersExact(rest, depth, r.value.used, done + [NormMember(head)]);
        ConcatAssoc(done, [NormMember(head)], NormMembers(rest));
      }
    }
  }

  lemma NothingUsed(members: seq<PyMember>)
    ensures KeysUnused(members, [])
  {
  }

  lemma HeadUnused(members: seq<PyMember>, done: seq<Member>)
    requires |members| > 0 && KeysUnused(members, done)
    ensures KeysUnused([members[0]], done)
  {
    assert members[0] in members;
  }

  lemma MemberKeyIsScalar(m: PyMember, depth: nat)
    requires MemberOK(m, depth)
    ensures m.key.PyText? && IsScalarText(m.key.s)
  {
  }

  lemma KeysStayUnused(members: seq<PyMember>, done: seq<Member>)
    requires |members| > 0 && DistinctKeys(members) && KeysUnused(members, done)
    ensures members[0].key.PyText? && IsScalarText(members[0].key.s) ==> KeysUnused(members[1..], done + [NormMember(members[0])])
  {
    if members[0].key.PyText? && IsScalarText(members[0].key.s) {
      forall m | m in members[1..] && m.key.PyText? && IsScalarText(m.key.s)
        ensures !HasKey(done + [NormMember(members[0])], Decode(m.key.s))
      {
        var j :| 0 <= j < |members[1..]| && members[1..][j] == m;
        assert members[0].key != members[j + 1].key;
        if Decode(m.key.s) == Decode(members[0].key.s) { DecodeInjective(m.key.s, members[0].key.s); }
        assert m in members && !HasKey(done, Decode(m.key.s));
        forall i | 0 <= i < |done + [NormMember(members[0])]|
          ensures (done + [NormMember(members[0])])[i].key != Decode(m.key.s)
        {
          if i < |done| { assert done[i].key != Decode(m.key.s); }
        }
      }
    }
  }
}
