/** A task is accepted exactly when its encoding fits, and the child reads back the task that was encoded. */
module TaskEncoding {
  import opened Text
  import opened Wrappers
  import opened Json
  import opened JsonRoundTrip
  import opened TaskBudget
  import opened TaskBudgetExact

  // ---- Sorting keys changes neither length, validity nor lookups ----

  /** Bytes of all members, each with a comma. */
  function TotalBytes(members: seq<Member>): nat {
    if |members| == 0 then 0 else 1 + MemberBytes(members[0]) + TotalBytes(members[1..])
  }

  lemma {:induction false} MembersBytesTotal(members: seq<Member>)
    ensures MembersBytes(members, true) == TotalBytes(members)
    ensures |members| > 0 ==> MembersBytes(members, false) + 1 == TotalBytes(members)
  {
    hide MemberBytes;
    if |members| > 0 { MembersBytesTotal(members[1..]); }
  }

  lemma {:induction false} InsertTotal(m: Member, sorted: seq<Member>)
    ensures TotalBytes(Insert(m, sorted)) == 1 + MemberBytes(m) + TotalBytes(sorted)
    ensures |Insert(m, sorted)| == |sorted| + 1
  {
    hide MemberBytes, StringLess;
    if |sorted| == 0 || StringLess(m.key, sorted[0].key) {
      assert ([m] + sorted)[1..] == sorted;
    } else {
      InsertTotal(m, sorted[1..]);
      assert ([sorted[0]] + Insert(m, sorted[1..]))[1..] == Insert(m, sorted[1..]);
    }
  }

  lemma {:induction false} SortTotal(members: seq<Member>)
    ensures TotalBytes(SortMembers(members)) == TotalBytes(members) && |SortMembers(members)| == |members|
  {
    hide MemberBytes, Insert;
    if |members| > 0 {
      SortTotal(members[1..]);
      InsertTotal(members[0], SortMembers(members[1..]));
    }
  }

  lemma {:induction false} CanonLength(v: Json)
    ensures ByteLength(Canon(v)) == ByteLength(v)
    decreases v, 0
  {
    hide Print, SortMembers, MembersBytes, ItemsBytes;
    match v
    case Arr(items) =>
      ArrayLength(items);
      ArrayLength(CanonItems(items));
      CanonItemsLength(items, false);
    case Obj(members) =>
      ObjectLength(members);
      ObjectLength(SortMembers(CanonMembers(members)));
      CanonMembersLength(members);
      SortTotal(CanonMembers(members));
      MembersBytesTotal(members);
      MembersBytesTotal(SortMembers(CanonMembers(members)));
      if |members| == 0 { EmptyMembers(); }
    case _ =>
  }

  lemma EmptyMembers()
    ensures SortMembers([]) == [] && MembersBytes([], false) == 0
  {
  }

  lemma {:induction false} CanonItemsLength(items: seq<Json>, more: bool)
    ensures ItemsBytes(CanonItems(items), more) == ItemsBytes(items, more)
    decreases items, 1
  {
    hide ByteLength;
    if |items| > 0 {
      CanonLength(items[0]);
      CanonItemsLength(items[1..], true);
    }
  }

  lemma {:induction false} CanonMembersLength(members: seq<Member>)
    ensures TotalBytes(CanonMembers(members)) == TotalBytes(members) && |CanonMembers(members)| == |members|
    decreases members, 1
  {
    hide ByteLength, MemberBytes, Quote;
    if |members| > 0 {
      CanonMemberLength(members[0]);
      CanonMembersLength(members[1..]);
    }
  }

  lemma {:induction false} CanonMemberLength(m: Member)
    ensures MemberBytes(Member(m.key, Canon(m.value))) == MemberBytes(m)
    decreases m, 1
  {
    hide ByteLength, MemberBytes, Quote;
    CanonLength(m.value);
    MemberLength(m);
    MemberLength(Member(m.key, Canon(m.value)));
  }

  lemma {:induction false} InsertMembers(m: Member, sorted: seq<Member>)
    ensures forall x :: x in Insert(m, sorted) <==> x == m || x in sorted
    ensures !HasKey(sorted, m.key) && UniqueKeys(sorted) ==> UniqueKeys(Insert(m, sorted))
    ensures forall k :: !HasKey(sorted, m.key) ==> Lookup(Insert(m, sorted), k) == if k == m.key then Some(m.value) else Lookup(sorted, k)
  {
    hide StringLess;
    if |sorted| == 0 || StringLess(m.key, sorted[0].key) {
      forall x ensures x in [m] + sorted <==> x == m || x in sorted {}
      if !HasKey(sorted, m.key) && UniqueKeys(sorted) { UniqueCons(m, sorted); }
      assert ([m] + sorted)[1..] == sorted;
    } else {
      var rest := sorted[1..];
      InsertMembers(m, rest);
      assert sorted == [sorted[0]] + rest;
      assert ([sorted[0]] + Insert(m, rest))[1..] == Insert(m, rest);
      if !HasKey(sorted, m.key) {
        assert sorted[0].key != m.key;
        assert !HasKey(rest, m.key) by {
          forall i | 0 <= i < |rest| ensures rest[i].key != m.key { assert sorted[i + 1].key != m.key; }
        }
        if UniqueKeys(sorted) {
          forall i | 0 <= i < |Insert(m, rest)| ensures Insert(m, rest)[i].key != sorted[0].key {
            var x := Insert(m, rest)[i];
            assert x in Insert(m, rest);
            if x != m { var j :| 0 <= j < |rest| && rest[j] == x; assert sorted[j + 1].key != sorted[0].key; }
          }
          UniqueCons(sorted[0], Insert(m, rest));
        }
      }
    }
  }

  lemma UniqueCons(m: Member, rest: seq<Member>)
    requires !HasKey(rest, m.key) && UniqueKeys(rest)
    ensures UniqueKeys([m] + rest)
  {
    var all := [m] + rest;
    forall i, j | 0 <= i < j < |all| ensures all[i].key != all[j].key {
      assert all[j] == rest[j - 1];
      if i > 0 { assert all[i] == rest[i - 1]; }
    }
  }

  lemma UniqueTail(members: seq<Member>)
    requires |members| > 0 && UniqueKeys(members)
    ensures UniqueKeys(members[1..]) && !HasKey(members[1..], members[0].key)
  {
    forall i | 0 <= i < |members[1..]| ensures members[1..][i].key != members[0].key {
      assert members[i + 1].key != members[0].key;
    }
  }

  /** Sorting is a permutation that keeps keys unique and every lookup. */
  lemma {:induction false} SortKeepsLookups(members: seq<Member>)
    requires UniqueKeys(members)
    ensures UniqueKeys(SortMembers(members))
    ensures forall x :: x in SortMembers(members) <==> x in members
    ensures forall k :: Lookup(SortMembers(members), k) == Lookup(members, k)
  {
    hide Insert;
    if |members| > 0 {
      var rest := members[1..];
      UniqueTail(members);
      SortKeepsLookups(rest);
      assert !HasKey(SortMembers(rest), members[0].key) by {
        forall i | 0 <= i < |SortMembers(rest)| ensures SortMembers(rest)[i].key != members[0].key {
          assert SortMembers(rest)[i] in rest;
        }
      }
      InsertMembers(members[0], SortMembers(rest));
      assert members == [members[0]] + rest;
    }
  }

  lemma {:induction false} CanonMembersShape(members: seq<Member>)
    ensures |CanonMembers(members)| == |members|
    ensures forall i :: 0 <= i < |members| ==> CanonMembers(members)[i] == Member(members[i].key, Canon(members[i].value))
  {
    hide Canon;
    if |members| > 0 {
      CanonMembersShape(members[1..]);
      forall i | 0 <= i < |members| ensures CanonMembers(members)[i] == Member(members[i].key, Canon(members[i].value)) {
        if i > 0 { assert members[i] == members[1..][i - 1]; }
      }
    }
  }

  lemma {:induction false} LookupCanonMembers(members: seq<Member>, key: string)
    ensures Lookup(CanonMembers(members), key) ==
            (match Lookup(members, key) case None => None case Some(v) => Some(Canon(v)))
  {
    hide Canon;
    if |members| > 0 { LookupCanonMembers(members[1..], key); }
  }

  /** The canonical object answers every key with the canonical form of the original answer. */
  lemma CanonKeepsLookups(members: seq<Member>, key: string)
    requires UniqueKeys(members)
    ensures Canon(Obj(members)).Obj?
    ensures Lookup(Canon(Obj(members)).members, key) ==
            (match Lookup(members, key) case None => None case Some(v) => Some(Canon(v)))
  {
    CanonMembersShape(members);
    LookupCanonMembers(members, key);
    SortKeepsLookups(CanonMembers(members));
  }

  lemma {:induction false} CanonItemsShape(items: seq<Json>)
    ensures |CanonItems(items)| == |items|
    ensures forall i :: 0 <= i < |items| ==> CanonItems(items)[i] == Canon(items[i])
  {
    hide Canon;
    if |items| > 0 {
      CanonItemsShape(items[1..]);
      forall i | 0 <= i < |items| ensures CanonItems(items)[i] == Canon(items[i]) {
        if i > 0 { assert items[i] == items[1..][i - 1]; }
      }
    }
  }

  // ---- Values the child will accept again ----

  /** A JSON value whose re-reading as a Python object is structurally safe at this depth. */
  ghost predicate Safe(v: Json, depth: nat)
    decreases v
  {
    && depth <= MAX_DEPTH
    && match v
       case Int(n) => n < Pow10(MAX_INTEGER_DIGITS) && n + Pow10(MAX_INTEGER_DIGITS) > 0
       case Str(s) => |s| <= MAX_TASK_BYTES
       case Arr(items) => forall item <- items :: Safe(item, depth + 1)
       case Obj(members) => forall m <- members :: |m.key| <= MAX_TASK_BYTES && Safe(m.value, depth + 1)
       case _ => true
  }

  lemma {:induction false} CanonKeepsSafeAndValid(v: Json, depth: nat)
    ensures Safe(v, depth) ==> Safe(Canon(v), depth)
    ensures Valid(v) ==> Valid(Canon(v))
    decreases v
  {
    hide Pow10, UniqueKeys, SortMembers, CanonMembers, CanonItems, IsFloatLiteral;
    match v
    case Arr(items) =>
      CanonItemsShape(items);
      forall i | 0 <= i < |items| ensures items[i] in items
        ensures Safe(items[i], depth + 1) ==> Safe(CanonItems(items)[i], depth + 1)
        ensures Valid(items[i]) ==> Valid(CanonItems(items)[i])
      {
        CanonKeepsSafeAndValid(items[i], depth + 1);
      }
    case Obj(members) =>
      var canon := CanonMembers(members);
      CanonMembersShape(members);
      forall i | 0 <= i < |members| ensures members[i] in members
        ensures Safe(members[i].value, depth + 1) ==> Safe(canon[i].value, depth + 1)
        ensures Valid(members[i].value) ==> Valid(canon[i].value)
      {
        CanonKeepsSafeAndValid(members[i].value, depth + 1);
      }
      SortedElements(canon);
      if UniqueKeys(members) {
        SameKeysUnique(members, canon);
        SortKeepsLookups(canon);
      }
    case _ =>
  }

  lemma {:induction false} SortedElements(members: seq<Member>)
    ensures forall x :: x in SortMembers(members) <==> x in members
  {
    hide Insert;
    if |members| > 0 {
      SortedElements(members[1..]);
      InsertMembers(members[0], SortMembers(members[1..]));
      assert members == [members[0]] + members[1..];
    }
  }

  lemma SameKeysUnique(a: seq<Member>, b: seq<Member>)
    requires |a| == |b| && forall i :: 0 <= i < |a| ==> a[i].key == b[i].key
    ensures UniqueKeys(a) ==> UniqueKeys(b)
  {
  }

  lemma {:induction false} NormItemsShape(items: seq<PyValue>)
    ensures |NormItems(items)| == |items| && forall i :: 0 <= i < |items| ==> NormItems(items)[i] == Norm(items[i])
  {
    hide Norm;
    if |items| > 0 {
      NormItemsShape(items[1..]);
      forall i | 0 <= i < |items| ensures NormItems(items)[i] == Norm(items[i]) {
        if i > 0 { assert items[i] == items[1..][i - 1]; }
      }
    }
  }

  lemma {:induction false} NormMembersShape(members: seq<PyMember>)
    ensures |NormMembers(members)| == |members| && forall i :: 0 <= i < |members| ==> NormMembers(members)[i] == NormMember(members[i])
  {
    hide NormMember;
    if |members| > 0 {
      NormMembersShape(members[1..]);
      forall i | 0 <= i < |members| ensures NormMembers(members)[i] == NormMember(members[i]) {
        if i > 0 { assert members[i] == members[1..][i - 1]; }
      }
    }
  }

  lemma {:induction false} NormIsSafeAndValid(v: PyValue, depth: nat)
    requires Structural(v, depth) && Pythonic(v)
    ensures Safe(Norm(v), depth) && Valid(Norm(v))
    decreases v
  {
    hide Pow10, UniqueKeys, NormItems, NormMembers, IsFloatLiteral;
    match v
    case PySequence(items) =>
      NormItemsShape(items);
      forall i | 0 <= i < |items| ensures Safe(NormItems(items)[i], depth + 1) && Valid(NormItems(items)[i]) {
        assert items[i] in items;
        NormIsSafeAndValid(items[i], depth + 1);
      }
    case PyDict(members) =>
      NormMembersShape(members);
      forall i | 0 <= i < |members|
        ensures var m := NormMembers(members)[i]; |m.key| <= MAX_TASK_BYTES && Safe(m.value, depth + 1) && Valid(m.value)
      {
        assert members[i] in members;
        NormIsSafeAndValid(members[i].value, depth + 1);
      }
      NormKeysUnique(members);
    case _ =>
  }

  lemma NormKeysUnique(members: seq<PyMember>)
    requires DistinctKeys(members) && forall m <- members :: m.key.PyText? && IsScalarText(m.key.s)
    ensures UniqueKeys(NormMembers(members))
  {
    NormMembersShape(members);
    forall i, j | 0 <= i < j < |members| ensures NormMembers(members)[i].key != NormMembers(members)[j].key {
      assert members[i] in members && members[j] in members && members[i].key != members[j].key;
      if Decode(members[i].key.s) == Decode(members[j].key.s) { DecodeInjective(members[i].key.s, members[j].key.s); }
    }
  }

  // ---- Re-reading: ToPy ----

  lemma CodePointsRoundTrip(s: string)
    ensures IsScalarText(CodePoints(s)) && Decode(CodePoints(s)) == s
  {
    var p := CodePoints(s);
    forall n | n in p ensures !IsSurrogate(n) {
      var i :| 0 <= i < |p| && p[i] == n;
      assert s[i] as int == n;
    }
    forall i | 0 <= i < |s| ensures Decode(p)[i] == s[i] {}
  }

  lemma DecodeRoundTrip(s: PyStr)
    requires IsScalarText(s)
    ensures CodePoints(Decode(s)) == s
  {
    forall i | 0 <= i < |s| ensures CodePoints(Decode(s))[i] == s[i] { assert s[i] in s; }
  }

  lemma {:induction false} ToPyItemsShape(items: seq<Json>)
    ensures |ToPyItems(items)| == |items| && forall i :: 0 <= i < |items| ==> ToPyItems(items)[i] == ToPy(items[i])
  {
    hide ToPy;
    if |items| > 0 {
      ToPyItemsShape(items[1..]);
      forall i | 0 <= i < |items| ensures ToPyItems(items)[i] == ToPy(items[i]) {
        if i > 0 { assert items[i] == items[1..][i - 1]; }
      }
    }
  }

  function ToPyMember(m: Member): PyMember {
    PyMember(PyText(CodePoints(m.key)), ToPy(m.value))
  }

  lemma {:induction false} ToPyMembersShape(members: seq<Member>)
    ensures |ToPyMembers(members)| == |members| && forall i :: 0 <= i < |members| ==> ToPyMembers(members)[i] == ToPyMember(members[i])
  {
    hide ToPy;
    if |members| > 0 {
      ToPyMembersShape(members[1..]);
      forall i | 0 <= i < |members| ensures ToPyMembers(members)[i] == ToPyMember(members[i]) {
        if i > 0 { assert members[i] == members[1..][i - 1]; }
      }
    }
  }

  /** The child's object is again safe, Pythonic, and normalises to the value that was parsed. */
  lemma {:induction false} ToPyReads(v: Json, depth: nat)
    requires Safe(v, depth) && Valid(v)
    ensures Structural(ToPy(v), depth) && Pythonic(ToPy(v)) && Norm(ToPy(v)) == v
    decreases v
  {
    hide Pow10, CodePoints, Decode, BytesOf, IsFloatLiteral;
    match v
    case Str(s) => CodePointsRoundTrip(s); CodePointsLength(s);
    case Arr(items) =>
      var py := ToPyItems(items);
      ToPyItemsShape(items);
      NormItemsShape(py);
      forall i | 0 <= i < |items| ensures Structural(py[i], depth + 1) && Pythonic(py[i]) && Norm(py[i]) == items[i] {
        assert items[i] in items;
        ToPyReads(items[i], depth + 1);
      }
      assert NormItems(py) == items;
    case Obj(members) => ToPyObjectReads(members, depth);
    case _ =>
  }

  lemma CodePointsLength(s: string)
    ensures |CodePoints(s)| == |s|
  {
  }

  lemma {:induction false} ToPyObjectReads(members: seq<Member>, depth: nat)
    requires Safe(Obj(members), depth) && Valid(Obj(members))
    ensures Structural(ToPy(Obj(members)), depth) && Pythonic(ToPy(Obj(members))) && Norm(ToPy(Obj(members))) == Obj(members)
    decreases members
  {
    hide Pow10, CodePoints, Decode, BytesOf, Structural, Pythonic;
    var py := ToPyMembers(members);
    ToPyMembersShape(members);
    NormMembersShape(py);
    forall i | 0 <= i < |members|
      ensures MemberOK(py[i], depth + 1) && Pythonic(py[i].value) && NormMember(py[i]) == members[i]
    {
      assert members[i] in members;
      CodePointsRoundTrip(members[i].key);
      CodePointsLength(members[i].key);
      ToPyReads(members[i].value, depth + 1);
    }
    forall i, j | 0 <= i < j < |members| ensures py[i].key != py[j].key {
      CodePointsRoundTrip(members[i].key);
      CodePointsRoundTrip(members[j].key);
      assert members[i].key != members[j].key;
    }
    assert NormMembers(py) == members;
    assert ToPy(Obj(members)) == PyDict(py);
    StructuralMembers(PyDict(py), depth);
  }

  // ---- The task object ----

  ghost predicate Letters(k: string) {
    forall c <- k :: 'a' <= c <= 'z' || c == '_'
  }

  lemma LetterEscapes(c: char)
    requires 'a' <= c <= 'z' || c == '_'
    ensures EscapeJson(c, false) == [c]
  {
  }

  lemma {:induction false} LettersEscape(k: string)
    requires Letters(k)
    ensures EscapeAll(k, false) == k
  {
    hide EscapeJson;
    if k != "" {
      assert k[0] in k && forall c <- k[1..] :: c in k;
      LetterEscapes(k[0]);
      LettersEscape(k[1..]);
      assert [k[0]] + k[1..] == k;
    }
  }

  lemma KeyLength(k: string)
    requires Letters(k)
    ensures Utf8Length(Quote(k, false)) == |Quote(k, false)|
  {
    LettersEscape(k);
    AsciiLength(Quote(k, false));
  }

  lemma KeysAreLetters()
    ensures Letters("task_id") && Letters("agent_name") && Letters("prompt")
    ensures Letters("timeout") && Letters("priority") && Letters("metadata")
  {
  }

  lemma FieldLength(key: string, v: Json, bytes: nat)
    requires Letters(key) && ByteLength(v) == bytes
    ensures MemberBytes(Member(key, v)) == |Quote(key, false)| + 1 + bytes
  {
    hide Quote, ByteLength, MemberBytes;
    KeyLength(key);
    MemberLength(Member(key, v));
  }

  lemma SixMembers(a: Member, b: Member, c: Member, d: Member, e: Member, f: Member)
    ensures MembersBytes([a, b, c, d, e, f], false)
            == 5 + MemberBytes(a) + MemberBytes(b) + MemberBytes(c) + MemberBytes(d) + MemberBytes(e) + MemberBytes(f)
  {
    hide MemberBytes;
    assert [a, b, c, d, e, f][1..] == [b, c, d, e, f];
    assert [b, c, d, e, f][1..] == [c, d, e, f];
    assert [c, d, e, f][1..] == [d, e, f];
    assert [d, e, f][1..] == [e, f];
    assert [e, f][1..] == [f];
    assert [f][1..] == [];
    assert MembersBytes([f], true) == 1 + MemberBytes(f);
    assert MembersBytes([e, f], true) == 2 + MemberBytes(e) + MemberBytes(f);
    assert MembersBytes([d, e, f], true) == 3 + MemberBytes(d) + MemberBytes(e) + MemberBytes(f);
    assert MembersBytes([c, d, e, f], true) == 4 + MemberBytes(c) + MemberBytes(d) + MemberBytes(e) + MemberBytes(f);
  }

  /** The opening budget is exactly the encoded object without its metadata value. */
  lemma FrameExact(t: PyTask, metadata: seq<Member>)
    requires FieldsOK(t)
    ensures ByteLength(Payload(NormalTask(t, metadata)))
            == FrameBytes(t.taskId.s, t.agentName.s, t.prompt.s, t.timeout.n, t.priority.n) + ByteLength(Obj(metadata))
  {
    var n := NormalTask(t, metadata);
    hide Quote, MemberBytes, MembersBytes, BytesOf, FieldsOK, Decode, Decimal, IsScalarText, ByteLength;
    ScalarFields(t);
    TypedFields(t);
    TextLength(t.taskId.s);
    TextLength(t.agentName.s);
    TextLength(t.prompt.s);
    IntLength(n.timeout);
    IntLength(n.priority);
    KeysAreLetters();
    FieldLength("task_id", Str(n.taskId), 2 + BytesOf(t.taskId.s));
    FieldLength("agent_name", Str(n.agentName), 2 + BytesOf(t.agentName.s));
    FieldLength("prompt", Str(n.prompt), 2 + BytesOf(t.prompt.s));
    FieldLength("timeout", Int(n.timeout), |Decimal(n.timeout)|);
    FieldLength("priority", Int(n.priority), |Decimal(n.priority)|);
    FieldLength("metadata", Obj(metadata), ByteLength(Obj(metadata)));
    SixMembers(Member("task_id", Str(n.taskId)), Member("agent_name", Str(n.agentName)), Member("prompt", Str(n.prompt)),
               Member("timeout", Int(n.timeout)), Member("priority", Int(n.priority)), Member("metadata", Obj(metadata)));
    ObjectLength(Payload(n).members);
  }

  lemma TextLength(s: PyStr)
    requires IsScalarText(s)
    ensures ByteLength(Str(Decode(s))) == 2 + BytesOf(s)
  {
    QuotedLength(s);
  }

  lemma IntLength(n: int)
    ensures ByteLength(Int(n)) == |Decimal(n)|
  {
    DecimalLength(n);
  }

  lemma ScalarFields(t: PyTask)
    requires FieldsOK(t)
    ensures IsScalarText(t.taskId.s) && IsScalarText(t.agentName.s) && IsScalarText(t.prompt.s)
  {
  }

  /** The text the encoder would print for a structurally safe task. */
  ghost function Encoding(t: PyTask): string
    requires FieldsOK(t)
  {
    Print(Canon(Payload(NormalTask(t, NormMembers(t.metadata.members)))), false)
  }

  /**
    The budget is exact: a task is accepted if and only if its fields are legal, its metadata is
    structurally safe, and the UTF-8 length of its sorted-key encoding is within the limit. The
    refusal for size always comes from the budget; the streaming encoder never rejects afterwards.
  */
  lemma AcceptedIffEncodingFits(t: PyTask)
    requires Pythonic(t.metadata)
    ensures EncodeTask(t).Ok? <==> FieldsOK(t) && Structural(t.metadata, 0) && Utf8Length(Encoding(t)) <= MAX_TASK_BYTES
    ensures EncodeTask(t).Ok? ==> EncodeTask(t).value == Encoding(t)
    ensures FieldsOK(t) && Structural(t.metadata, 0) && Utf8Length(Encoding(t)) > MAX_TASK_BYTES ==> EncodeTask(t) == Err(TooLarge)
    ensures FieldsOK(t) && Charges(t).Ok? ==> Charges(t).value.used == Utf8Length(Encoding(t)) <= MAX_TASK_BYTES
  {
    hide FieldsOK, FrameBytes, Normalize, Print, Structural, Pythonic, Charges, Utf8Length, Canon, Payload;
    if FieldsOK(t) {
      ChargesExact(t);
      EncodeUnfolds(t);
    }
  }

  lemma NormOfDict(members: seq<PyMember>)
    ensures Norm(PyDict(members)) == Obj(NormMembers(members))
  {
  }

  lemma EncodeUnfolds(t: PyTask)
    requires FieldsOK(t)
    ensures EncodeTask(t) ==
            (if FrameBytes(t.taskId.s, t.agentName.s, t.prompt.s, t.timeout.n, t.priority.n) > MAX_TASK_BYTES then Err(TooLarge)
             else match Charges(t)
               case Err(e) => Err(e)
               case Ok(c) =>
                 if !c.value.Obj? then Err(Unsafe)
                 else Bounded(Print(Canon(Payload(NormalTask(t, c.value.members))), false)))
  {
    hide FieldsOK, FrameBytes, Normalize, Print, Canon, Payload, NormalTask, Utf8Length;
  }

  /** The metadata traversal as `_encode_task` starts it, after the frame has been charged. */
  ghost function Charges(t: PyTask): Result<Charged<Json>, TaskError>
    requires FieldsOK(t)
  {
    var frame := FrameBytes(t.taskId.s, t.agentName.s, t.prompt.s, t.timeout.n, t.priority.n);
    Normalize(t.metadata, 0, frame)
  }

  lemma ChargesExact(t: PyTask)
    requires FieldsOK(t) && Pythonic(t.metadata)
    ensures Structural(t.metadata, 0) && Utf8Length(Encoding(t)) <= MAX_TASK_BYTES ==>
              Charges(t) == Ok(Charged(Obj(NormMembers(t.metadata.members)), Utf8Length(Encoding(t))))
    ensures Structural(t.metadata, 0) && Utf8Length(Encoding(t)) > MAX_TASK_BYTES ==> Charges(t) == Err(TooLarge)
    ensures !Structural(t.metadata, 0) ==> Charges(t).Err?
    ensures FrameBytes(t.taskId.s, t.agentName.s, t.prompt.s, t.timeout.n, t.priority.n) <= Utf8Length(Encoding(t))
  {
    hide FieldsOK, FrameBytes, Normalize, Canon, Payload, Print, Structural, Pythonic, NormalTask, NormMembers, Norm, Utf8Length;
    TypedMetadata(t);
    TypedFields(t);
    var frame := FrameBytes(t.taskId.s, t.agentName.s, t.prompt.s, t.timeout.n, t.priority.n);
    var metadata := NormMembers(t.metadata.members);
    NormOfDict(t.metadata.members);
    FrameExact(t, metadata);
    CanonLength(Payload(NormalTask(t, metadata)));
    NormalizeExact(t.metadata, 0, frame);
  }

  lemma TypedMetadata(t: PyTask)
    requires FieldsOK(t)
    ensures t.metadata.PyDict?
  {
  }

  lemma PayloadKeys(n: Task)
    ensures var members := Payload(n).members;
            && UniqueKeys(members) && |members| == |TASK_KEYS|
            && Lookup(members, "task_id") == Some(Str(n.taskId)) && Lookup(members, "agent_name") == Some(Str(n.agentName))
            && Lookup(members, "prompt") == Some(Str(n.prompt)) && Lookup(members, "timeout") == Some(Int(n.timeout))
            && Lookup(members, "priority") == Some(Int(n.priority)) && Lookup(members, "metadata") == Some(Obj(n.metadata))
  {
    hide Lookup;
    var members := Payload(n).members;
    KeysDiffer();
    SkipTo(members, 0, "task_id");
    SkipTo(members, 1, "agent_name");
    SkipTo(members, 2, "prompt");
    SkipTo(members, 3, "timeout");
    SkipTo(members, 4, "priority");
    SkipTo(members, 5, "metadata");
  }

  /** The first member with a key answers its lookup. */
  lemma {:induction false} SkipTo(members: seq<Member>, i: nat, key: string)
    requires i < |members| && members[i].key == key && forall j :: 0 <= j < i ==> members[j].key != key
    ensures Lookup(members, key) == Some(members[i].value)
  {
    if i > 0 {
      assert members[0].key != key;
      forall j | 0 <= j < i - 1 ensures members[1..][j].key != key { assert members[j + 1].key != key; }
      SkipTo(members[1..], i - 1, key);
    }
  }

  lemma KeysDiffer()
    ensures "task_id" != "timeout" && "priority" != "metadata"
    ensures forall i, j :: 0 <= i < j < |TASK_KEYS| ==> TASK_KEYS[i] != TASK_KEYS[j]
  {
    assert "task_id"[1] != "timeout"[1] && "priority"[0] != "metadata"[0];
  }

  lemma CanonPayloadReads(n: Task)
    requires Valid(Obj(n.metadata))
    ensures Canon(Payload(n)).Obj? && Valid(Canon(Payload(n)))
    ensures var members := Canon(Payload(n)).members;
            && |members| == |TASK_KEYS|
            && Lookup(members, "task_id") == Some(Str(n.taskId)) && Lookup(members, "agent_name") == Some(Str(n.agentName))
            && Lookup(members, "prompt") == Some(Str(n.prompt)) && Lookup(members, "timeout") == Some(Int(n.timeout))
            && Lookup(members, "priority") == Some(Int(n.priority)) && Lookup(members, "metadata") == Some(Canon(Obj(n.metadata)))
  {
    var payload := Payload(n);
    PayloadKeys(n);
    PayloadValid(n);
    hide Payload, SortMembers, CanonMembers, Lookup, UniqueKeys;
    CanonKeepsSafeAndValid(payload, 0);
    CanonMembersShape(payload.members);
    SortTotal(CanonMembers(payload.members));
    CanonKeepsLookups(payload.members, "task_id");
    CanonKeepsLookups(payload.members, "agent_name");
    CanonKeepsLookups(payload.members, "prompt");
    CanonKeepsLookups(payload.members, "timeout");
    CanonKeepsLookups(payload.members, "priority");
    CanonKeepsLookups(payload.members, "metadata");
  }

  lemma PayloadValid(n: Task)
    requires Valid(Obj(n.metadata))
    ensures Valid(Payload(n))
  {
    PayloadKeys(n);
    hide UniqueKeys, Lookup;
    var members := Payload(n).members;
    forall m | m in members ensures Valid(m.value) {
      assert m.value.Str? || m.value.Int? || m.value == Obj(n.metadata);
    }
  }

  lemma FieldsSurvive(t: PyTask)
    requires FieldsOK(t)
    ensures PyText(CodePoints(Decode(t.taskId.s))) == t.taskId && PyText(CodePoints(Decode(t.agentName.s))) == t.agentName
    ensures PyText(CodePoints(Decode(t.prompt.s))) == t.prompt
    ensures forall v: PyValue :: v.PyDict? ==> FieldsOK(PyTask(t.taskId, t.agentName, t.prompt, t.timeout, t.priority, v))
  {
    ScalarFields(t);
    DecodeRoundTrip(t.taskId.s);
    DecodeRoundTrip(t.agentName.s);
    DecodeRoundTrip(t.prompt.s);
  }

  /** The task on the child's side: the same five fields and the canonical form of the normalised metadata. */
  ghost function ChildTask(t: PyTask): Task
    requires FieldsOK(t)
  {
    NormalTask(t, SortMembers(CanonMembers(NormMembers(t.metadata.members))))
  }

  /** What the parent encodes, the child accepts and reads as the same task. */
  lemma ChildReadsEncodedTask(t: PyTask)
    requires Pythonic(t.metadata) && EncodeTask(t).Ok?
    ensures FieldsOK(t) && Structural(t.metadata, 0)
    ensures DecodeTask(EncodeTask(t).value) == Some(ChildTask(t))
  {
    hide EncodeTask, DecodeTask, Encoding, Payload, Canon, CanonMembers, SortMembers, Norm, NormMembers, Normalize, ToPy, Print, Parse,
         ByteLength, FrameBytes, FieldsOK, Structural, Pythonic, Lookup, Utf8Length, NormalTask, ChildTask, Safe, Valid, Exact;
    AcceptedIsStructural(t);
    AcceptedIffEncodingFits(t);
    EncodedShape(t);
    var n := NormalTask(t, NormMembers(t.metadata.members));
    var canon, metadata := Canon(Payload(n)), Canon(Obj(n.metadata));
    CanonPayloadReads(n);
    RoundTrip(canon, false);
    MetadataSurvives(t, n);
    DecodeUnfolds(EncodeTask(t).value, canon.members, t, n, metadata);
  }

  lemma EncodedShape(t: PyTask)
    requires FieldsOK(t) && Pythonic(t.metadata) && Structural(t.metadata, 0)
    ensures t.metadata.PyDict?
    ensures var n := NormalTask(t, NormMembers(t.metadata.members));
            && n == NormalTask(t, n.metadata) && n.metadata == NormMembers(t.metadata.members)
            && Encoding(t) == Print(Canon(Payload(n)), false)
            && Canon(Payload(n)).Obj? && Canon(Obj(n.metadata)).Obj?
            && ChildTask(t) == n.(metadata := Canon(Obj(n.metadata)).members)
            && Valid(Obj(n.metadata)) && Safe(Obj(n.metadata), 0)
  {
    hide Structural, Pythonic, Print, CanonMembers, SortMembers, Valid, Safe, Decode;
    TypedMetadata(t);
    NormIsSafeAndValid(t.metadata, 0);
    NormOfDict(t.metadata.members);
  }

  /** The child's fresh budget covers the canonical metadata, and normalising it again changes nothing. */
  lemma MetadataSurvives(t: PyTask, n: Task)
    requires FieldsOK(t) && n == NormalTask(t, n.metadata) && Valid(Obj(n.metadata)) && Safe(Obj(n.metadata), 0)
    requires Utf8Length(Print(Canon(Payload(n)), false)) <= MAX_TASK_BYTES && Canon(Obj(n.metadata)).Obj?
    ensures var metadata := Canon(Obj(n.metadata));
            Normalize(ToPy(metadata), 0, 0).Ok? && Normalize(ToPy(metadata), 0, 0).value.value == metadata
  {
    hide Payload, Canon, Norm, Normalize, ToPy, Print, ByteLength, FrameBytes, FieldsOK, Structural, Pythonic, Utf8Length, NormalTask, Safe, Valid;
    var metadata := Canon(Obj(n.metadata));
    CanonKeepsSafeAndValid(Obj(n.metadata), 0);
    ToPyReads(metadata, 0);
    NormalizeExact(ToPy(metadata), 0, 0);
    CanonLength(Obj(n.metadata));
    CanonLength(Payload(n));
    FrameExact(t, n.metadata);
    LengthIsPrinted(metadata);
    LengthIsPrinted(Canon(Payload(n)));
  }

  lemma LengthIsPrinted(v: Json)
    ensures ByteLength(v) == Utf8Length(Print(v, false))
  {
    hide Print, Utf8Length;
  }

  lemma CanonIsObject(members: seq<Member>)
    ensures Canon(Obj(members)).Obj?
  {
  }

  lemma AcceptedIsStructural(t: PyTask)
    requires Pythonic(t.metadata) && EncodeTask(t).Ok?
    ensures FieldsOK(t) && Structural(t.metadata, 0)
  {
    hide FrameBytes, Normalize, Canon, Payload, Print, Structural, Pythonic, NormalTask;
    NormalizeExact(t.metadata, 0, FrameBytes(t.taskId.s, t.agentName.s, t.prompt.s, t.timeout.n, t.priority.n));
  }

  /** The child's checks on an object with the six expected members. */
  lemma DecodeSteps(text: string, members: seq<Member>, n: Task, metadata: seq<Member>)
    requires Utf8Length(text) <= MAX_TASK_BYTES && Parse(text) == Some(Obj(members)) && |members| == |TASK_KEYS|
    requires Lookup(members, "task_id") == Some(Str(n.taskId)) && Lookup(members, "agent_name") == Some(Str(n.agentName))
    requires Lookup(members, "prompt") == Some(Str(n.prompt)) && Lookup(members, "timeout") == Some(Int(n.timeout))
    requires Lookup(members, "priority") == Some(Int(n.priority)) && Lookup(members, "metadata") == Some(Obj(metadata))
    ensures DecodeTask(text) ==
            if FieldsOK(PyTask(PyText(CodePoints(n.taskId)), PyText(CodePoints(n.agentName)), PyText(CodePoints(n.prompt)),
                               PyInt(n.timeout), PyInt(n.priority), ToPy(Obj(metadata))))
            then DecodedMetadata(n.(metadata := []), ToPy(Obj(metadata))) else None
  {
    hide FieldsOK, Normalize, Parse, Lookup, Utf8Length, CodePoints, DecodedMetadata, ToPy;
    assert forall k <- TASK_KEYS :: Lookup(members, k).Some?;
  }

  lemma DecodeUnfolds(text: string, members: seq<Member>, t: PyTask, n: Task, metadata: Json)
    requires Utf8Length(text) <= MAX_TASK_BYTES && Parse(text) == Some(Obj(members)) && |members| == |TASK_KEYS|
    requires FieldsOK(t) && n == NormalTask(t, n.metadata) && metadata.Obj?
    requires Lookup(members, "task_id") == Some(Str(n.taskId)) && Lookup(members, "agent_name") == Some(Str(n.agentName))
    requires Lookup(members, "prompt") == Some(Str(n.prompt)) && Lookup(members, "timeout") == Some(Int(n.timeout))
    requires Lookup(members, "priority") == Some(Int(n.priority)) && Lookup(members, "metadata") == Some(metadata)
    requires Normalize(ToPy(metadata), 0, 0).Ok? && Normalize(ToPy(metadata), 0, 0).value.value == metadata
    ensures DecodeTask(text) == Some(n.(metadata := metadata.members))
  {
    hide FieldsOK, Normalize, Parse, Lookup, Utf8Length, CodePoints, DecodeTask, Decode;
    FieldsSurvive(t);
    TypedFields(t);
    ObjectIsDict(metadata);
    hide ToPy;
    DecodeSteps(text, members, n, metadata.members);
    assert metadata == Obj(metadata.members);
    var again := PyTask(PyText(CodePoints(n.taskId)), PyText(CodePoints(n.agentName)), PyText(CodePoints(n.prompt)),
                        PyInt(n.timeout), PyInt(n.priority), ToPy(metadata));
    assert again == PyTask(t.taskId, t.agentName, t.prompt, t.timeout, t.priority, ToPy(metadata));
  }

  lemma ObjectIsDict(v: Json)
    requires v.Obj?
    ensures ToPy(v).PyDict?
  {
  }

  lemma TypedFields(t: PyTask)
    requires FieldsOK(t)
    ensures t.timeout.PyInt? && t.priority.PyInt? && t.taskId.PyText? && t.agentName.PyText? && t.prompt.PyText?
  {
  }

  // ---- Nothing of the task is lost or changed ----

  /** The normalised value, read as Python again, is the value itself. */
  lemma {:induction false} NormReadsBack(v: PyValue, depth: nat)
    requires Structural(v, depth)
    ensures ToPy(Norm(v)) == v
    decreases v, 1
  {
    hide Pow10, DecodeOrEmpty;
    match v
    case PyText(s) => TextReadsBack(s);
    case PySequence(items) => ItemsReadBack(items, depth);
    case PyDict(members) => MembersReadBack(members, depth);
    case _ =>
  }

  lemma TextReadsBack(s: PyStr)
    requires StringBytes(s).Ok?
    ensures CodePoints(DecodeOrEmpty(s)) == s
  {
    DecodeRoundTrip(s);
  }

  lemma {:induction false} ItemsReadBack(items: seq<PyValue>, depth: nat)
    requires forall item <- items :: Structural(item, depth + 1)
    ensures ToPyItems(NormItems(items)) == items
    decreases items, 0
  {
    hide Structural, ToPy, Norm;
    if |items| > 0 {
      assert items[0] in items;
      NormReadsBack(items[0], depth + 1);
      assert forall item <- items[1..] :: item in items;
      ItemsReadBack(items[1..], depth);
      assert NormItems(items)[1..] == NormItems(items[1..]);
    }
  }

  lemma {:induction false} MembersReadBack(members: seq<PyMember>, depth: nat)
    requires forall m <- members :: m.key.PyText? && StringBytes(m.key.s).Ok? && Structural(m.value, depth + 1)
    ensures ToPyMembers(NormMembers(members)) == members
    decreases members, 0
  {
    hide Structural, ToPy, Norm, NormMember, CodePoints, StringBytes, DecodeOrEmpty;
    if |members| > 0 {
      var first, rest := members[0], members[1..];
      assert first in members;
      MemberReadsBack(first, depth);
      assert forall m <- rest :: m in members;
      MembersReadBack(rest, depth);
      var norm := NormMembers(members);
      assert norm[0] == NormMember(first) && norm[1..] == NormMembers(rest);
      assert members == [first] + rest;
    }
  }

  lemma {:induction false} MemberReadsBack(m: PyMember, depth: nat)
    requires m.key.PyText? && StringBytes(m.key.s).Ok? && Structural(m.value, depth + 1)
    ensures PyMember(PyText(CodePoints(NormMember(m).key)), ToPy(NormMember(m).value)) == m
    decreases m, 2
  {
    hide Structural, ToPy, Norm, StringBytes, DecodeOrEmpty;
    TextReadsBack(m.key.s);
    NormReadsBack(m.value, depth + 1);
  }

  lemma {:induction false} LookupAt(members: seq<Member>, i: nat)
    requires UniqueKeys(members) && i < |members|
    ensures Lookup(members, members[i].key) == Some(members[i].value)
  {
    if i > 0 {
      UniqueTail(members);
      assert members[0].key != members[i].key && members[1..][i - 1] == members[i];
      LookupAt(members[1..], i - 1);
    }
  }

  /**
    What the child holds is the task itself: the same texts, numbers and metadata keys, and under each key the value that,
    up to the order of nested keys, reads as the parent's.
  */
  lemma ChildHoldsTask(t: PyTask)
    requires Pythonic(t.metadata) && EncodeTask(t).Ok?
    ensures FieldsOK(t) && DecodeTask(EncodeTask(t).value).Some?
    ensures var child := DecodeTask(EncodeTask(t).value).value;
            && t.taskId == PyText(CodePoints(child.taskId)) && t.agentName == PyText(CodePoints(child.agentName))
            && t.prompt == PyText(CodePoints(child.prompt)) && t.timeout == PyInt(child.timeout) && t.priority == PyInt(child.priority)
            && |child.metadata| == |t.metadata.members|
            && (forall i :: 0 <= i < |t.metadata.members| ==> HoldsMember(child.metadata, t.metadata.members[i]))
  {
    hide EncodeTask, DecodeTask, Canon, CanonMembers, SortMembers, Norm, NormMembers, Structural, Pythonic, Lookup, StringBytes, IsIdentifier, Strip, HoldsMember;
    ChildReadsEncodedTask(t);
    ScalarWhenBounded(t.taskId.s);
    ScalarWhenBounded(t.prompt.s);
    DecodeRoundTrip(t.taskId.s);
    DecodeRoundTrip(t.agentName.s);
    DecodeRoundTrip(t.prompt.s);
    ChildMetadataHolds(t.metadata.members, t.metadata);
  }

  lemma ScalarWhenBounded(s: PyStr)
    requires StringBytes(s).Ok?
    ensures IsScalarText(s)
  {
  }

  ghost predicate HoldsMember(metadata: seq<Member>, m: PyMember) {
    exists key, value :: m == PyMember(PyText(CodePoints(key)), ToPy(value)) && Lookup(metadata, key) == Some(Canon(value))
  }

  lemma ChildMetadataHolds(members: seq<PyMember>, metadata: PyValue)
    requires metadata == PyDict(members) && Pythonic(metadata) && Structural(metadata, 0)
    ensures var held := SortMembers(CanonMembers(NormMembers(members)));
            |held| == |members| && forall i :: 0 <= i < |members| ==> HoldsMember(held, members[i])
  {
    hide Canon, Norm, ToPy, Lookup, StringBytes, Pow10, SortMembers, CanonMembers, NormMembers, HoldsMember;
    var norm := NormMembers(members);
    NormMembersShape(members);
    CanonMembersShape(norm);
    MembersReadBack(members, 0);
    ToPyMembersShape(norm);
    NormKeysUnique(members);
    SortedElements(CanonMembers(norm));
    SortSize(CanonMembers(norm));
    forall i | 0 <= i < |members| ensures HoldsMember(SortMembers(CanonMembers(norm)), members[i]) {
      CanonIsSorted(norm);
      CanonKeepsLookups(norm, norm[i].key);
      LookupAt(norm, i);
      MemberHeld(SortMembers(CanonMembers(norm)), norm[i], members[i]);
    }
  }

  lemma {:induction false} InsertSize(m: Member, members: seq<Member>)
    ensures |Insert(m, members)| == |members| + 1
  {
    hide StringLess;
    if |members| > 0 { InsertSize(m, members[1..]); }
  }

  lemma {:induction false} SortSize(members: seq<Member>)
    ensures |SortMembers(members)| == |members|
  {
    hide Insert;
    if |members| > 0 {
      SortSize(members[1..]);
      InsertSize(members[0], SortMembers(members[1..]));
    }
  }

  lemma MemberHeld(held: seq<Member>, n: Member, m: PyMember)
    requires m == ToPyMember(n) && Lookup(held, n.key) == Some(Canon(n.value))
    ensures HoldsMember(held, m)
  {
    hide Lookup, Canon, ToPy;
  }

  lemma CanonIsSorted(members: seq<Member>)
    ensures Canon(Obj(members)) == Obj(SortMembers(CanonMembers(members)))
  {
    hide SortMembers, CanonMembers;
  }

  // ---- Which tasks are accepted, in terms of their fields ----

  lemma {:induction false} StripLeftEmptyIff(s: string)
    ensures StripLeft(s) == "" <==> forall c <- s :: IsSpace(c)
  {
    hide IsSpace;
    if s != "" {
      assert s[0] in s && s == [s[0]] + s[1..];
      StripLeftEmptyIff(s[1..]);
    }
  }

  /** Stripping leaves nothing exactly of a text of white space. */
  lemma StripEmptyIff(s: string)
    ensures Strip(s) == "" <==> forall c <- s :: IsSpace(c)
  {
    hide IsSpace, StripLeft, StripRight;
    StripLeftEmptyIff(s);
    var l := StripLeft(s);
    StripLeftStarts(s);
    if l != "" { StripRightKeepsFirst(l); } else { StripRightIsPrefix(l); }
  }

  lemma StripLeftStarts(s: string)
    ensures StripLeft(s) != "" ==> !IsSpace(StripLeft(s)[0])
  {
  }

  lemma {:induction false} StripRightKeepsFirst(s: string)
    requires s != "" && !IsSpace(s[0])
    ensures StripRight(s) != ""
    decreases |s|
  {
    if IsSpace(s[|s| - 1]) { StripRightKeepsFirst(s[..|s| - 1]); }
  }

  ghost predicate IsBoundedText(v: PyValue) {
    v.PyText? && |v.s| <= 32768 && IsScalarText(v.s)
  }

  ghost predicate GoodFields(t: PyTask) {
    && IsBoundedText(t.taskId) && t.taskId.s != []
    && t.agentName.PyText? && IsScalarText(t.agentName.s) && IsIdentifier(Decode(t.agentName.s))
    && IsBoundedText(t.prompt) && (exists c <- Decode(t.prompt.s) :: !IsSpace(c))
    && t.timeout.PyInt? && 1 <= t.timeout.n <= 300 && t.priority.PyInt? && 0 <= t.priority.n <= 3
    && t.metadata.PyDict?
  }

  /**
    A task is accepted exactly when its id is a non-empty text, its agent an identifier of at most 128 characters, its prompt
    a text with something besides white space, its timeout 1 to 300 and its priority 0 to 3, its metadata a structurally safe
    mapping, and its encoding at most 32768 bytes.
  */
  lemma AcceptedByFieldsIff(t: PyTask)
    requires Pythonic(t.metadata)
    ensures FieldsOK(t) <==> GoodFields(t)
    ensures EncodeTask(t).Ok? <==> GoodFields(t) && Structural(t.metadata, 0) && Utf8Length(Encoding(t)) <= 32768
  {
    hide EncodeTask, Structural, Pythonic, Encoding, GoodFields, FieldsOK, Utf8Length;
    FieldsIff(t);
    AcceptedIffEncodingFits(t);
  }

  lemma FieldsIff(t: PyTask)
    ensures FieldsOK(t) <==> GoodFields(t)
  {
    hide IsIdentifier, Strip, IsSpace, IsScalarText, Decode, BytesOf;
    if t.prompt.PyText? && IsScalarText(t.prompt.s) { StripEmptyIff(Decode(t.prompt.s)); }
  }
}
