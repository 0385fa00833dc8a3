/** The declared agent task: byte budget, normalisation, bounded encoding and the child's strict decoding. */
module TaskBudget {
  import opened Text
  import opened Wrappers
  import opened Json

  const MAX_TASK_BYTES: nat := 32 * 1024
  const MAX_DEPTH: nat := 64
  const MAX_INTEGER_DIGITS: nat := 512

  function Pow10(n: nat): nat {
    if n == 0 then 1 else 10 * Pow10(n - 1)
  }

  /** Python text: any code points, lone surrogates included. */
  type CodePoint = n: int | 0 <= n < 0x110000
  type PyStr = seq<CodePoint>

  /** A Python value as the caller hands it over; `Other` is any type the encoder does not support. */
  datatype PyValue =
    | PyNone
    | PyBool(b: bool)
    | PyInt(n: int)
    | PyFloat(literal: string, finite: bool)
    | PyText(s: PyStr)
    | PySequence(items: seq<PyValue>)
    | PyDict(members: seq<PyMember>)
    | Other

  datatype PyMember = PyMember(key: PyValue, value: PyValue)

  /** The two ways a task is refused: over the byte limit, or not a safe JSON value. */
  datatype TaskError = TooLarge | Unsafe

  // ---- Text ----

  predicate IsSurrogate(n: CodePoint) { 0xD800 <= n <= 0xDFFF }

  predicate IsScalarText(s: PyStr) {
    forall n <- s :: !IsSurrogate(n)
  }

  function Decode(s: PyStr): string
    requires IsScalarText(s)
  {
    seq(|s|, i requires 0 <= i < |s| => assert s[i] in s; s[i] as char)
  }

  /** The JSON bytes of one code point, as the length loop counts them. */
  function CodePointBytes(n: CodePoint): nat {
    if n == 0x22 || n == 0x5C then 2
    else if n <= 0x1F then if n == 0x08 || n == 0x09 || n == 0x0A || n == 0x0C || n == 0x0D then 2 else 6
    else if n <= 0x7F then 1
    else if n <= 0x7FF then 2
    else if n <= 0xFFFF then 3
    else 4
  }

  function BytesOf(s: PyStr): nat {
    if |s| == 0 then 0 else CodePointBytes(s[0]) + BytesOf(s[1..])
  }

  function StringBytes(s: PyStr): Result<nat, TaskError> {
    if |s| > MAX_TASK_BYTES || !IsScalarText(s) then Err(Unsafe) else Ok(2 + BytesOf(s))
  }

  lemma {:induction false} BytesOfAppend(a: PyStr, b: PyStr)
    ensures BytesOf(a + b) == BytesOf(a) + BytesOf(b)
  {
    if |a| == 0 {
      assert a + b == b;
    } else {
      BytesOfAppend(a[1..], b);
      assert (a + b)[1..] == a[1..] + b;
    }
  }

  /** `_json_string_byte_length`. */
  method JsonStringByteLength(value: PyStr) returns (r: Result<nat, TaskError>)
    ensures r == StringBytes(value)
  {
    if |value| > MAX_TASK_BYTES { return Err(Unsafe); }
    var encodedLength := 2;
    for i := 0 to |value|
      invariant IsScalarText(value[..i])
      invariant encodedLength == 2 + BytesOf(value[..i])
    {
      if IsSurrogate(value[i]) {
        assert value[i] in value;
        return Err(Unsafe);
      }
      BytesOfAppend(value[..i], [value[i]]);
      assert value[..i + 1] == value[..i] + [value[i]];
      encodedLength := encodedLength + CodePointBytes(value[i]);
    }
    assert value[..|value|] == value;
    r := Ok(encodedLength);
  }

  // ---- Normalisation ----

  class JsonNormalizationBudget {
    var encodedBytes: nat

    constructor ()
      ensures encodedBytes == 0
    {
      encodedBytes := 0;
    }

    method Consume(bytes: nat) returns (ok: bool)
      modifies this
      ensures encodedBytes == old(encodedBytes) + bytes
      ensures ok <==> encodedBytes <= MAX_TASK_BYTES
    {
      encodedBytes := encodedBytes + bytes;
      ok := encodedBytes <= MAX_TASK_BYTES;
    }
  }

  datatype Charged<T> = Charged(value: T, used: nat)

  function Charge<T>(value: T, used: nat, bytes: nat): Result<Charged<T>, TaskError> {
    if used + bytes > MAX_TASK_BYTES then Err(TooLarge) else Ok(Charged(value, used + bytes))
  }

  /** `_normalize_json_value` with the bytes already used; the budget is threaded in evaluation order. */
  function Normalize(v: PyValue, depth: nat, used: nat): Result<Charged<Json>, TaskError>
    decreases v, 0
  {
    if depth > MAX_DEPTH then Err(Unsafe)
    else match v
      case PyNone => Charge(Null, used, 4)
      case PyBool(b) => Charge(Bool(b), used, if b then 4 else 5)
      case PyText(s) =>
        (match StringBytes(s)
         case Err(e) => Err(e)
         case Ok(bytes) => Charge(Str(Decode(s)), used, bytes))
      case PyInt(n) =>
        if n >= Pow10(MAX_INTEGER_DIGITS) || n + Pow10(MAX_INTEGER_DIGITS) <= 0 then Err(Unsafe)
        else Charge(Int(n), used, |Decimal(n)|)
      case PyFloat(literal, finite) => if !finite then Err(Unsafe) else Charge(Float(literal), used, |literal|)
      case PyDict(members) =>
        if used + 2 > MAX_TASK_BYTES then Err(TooLarge)
        else
          (match NormalizeMembers(members, depth, used + 2, [])
           case Err(e) => Err(e)
           case Ok(c) => Ok(Charged(Obj(c.value), c.used)))
      case PySequence(items) =>
        if used + 2 > MAX_TASK_BYTES then Err(TooLarge)
        else
          (match NormalizeItems(items, depth, used + 2, [])
           case Err(e) => Err(e)
           case Ok(c) => Ok(Charged(Arr(c.value), c.used)))
      case Other => Err(Unsafe)
  }

  function NormalizeItems(items: seq<PyValue>, depth: nat, used: nat, done: seq<Json>): Result<Charged<seq<Json>>, TaskError>
    decreases items, 1
  {
    if |items| == 0 then Ok(Charged(done, used))
    else
      var comma := if |done| > 0 then 1 else 0;
      if used + comma > MAX_TASK_BYTES then Err(TooLarge)
      else match Normalize(items[0], depth + 1, used + comma)
        case Err(e) => Err(e)
        case Ok(c) => NormalizeItems(items[1..], depth, c.used, done + [c.value])
  }

  function NormalizeMembers(members: seq<PyMember>, depth: nat, used: nat, done: seq<Member>): Result<Charged<seq<Member>>, TaskError>
    decreases members, 1
  {
    if |members| == 0 then Ok(Charged(done, used))
    else match NormalizeMember(members[0], depth, used, done)
      case Err(e) => Err(e)
      case Ok(c) => NormalizeMembers(members[1..], depth, c.used, done + [c.value])
  }

  function NormalizeMember(m: PyMember, depth: nat, used: nat, done: seq<Member>): Result<Charged<Member>, TaskError>
    decreases m, 1
  {
    var comma := if |done| > 0 then 1 else 0;
    if used + comma > MAX_TASK_BYTES then Err(TooLarge)
    else if !m.key.PyText? then Err(Unsafe)
    else match StringBytes(m.key.s)
      case Err(e) => Err(e)
      case Ok(bytes) =>
        if used + comma + bytes + 1 > MAX_TASK_BYTES then Err(TooLarge)
        else if HasKey(done, Decode(m.key.s)) then Err(Unsafe)
        else match Normalize(m.value, depth + 1, used + comma + bytes + 1)
          case Err(e) => Err(e)
          case Ok(c) => Ok(Charged(Member(Decode(m.key.s), c.value), c.used))
  }

  /** What a run of the traversal leaves in the shared budget, against the threaded specification. */
  ghost predicate Matches<T>(r: Result<T, TaskError>, used: nat, spec: Result<Charged<T>, TaskError>) {
    match spec
    case Err(e) => r == Err(e)
    case Ok(c) => r == Ok(c.value) && used == c.used
  }

  method NormalizeValue(v: PyValue, depth: nat, budget: JsonNormalizationBudget) returns (r: Result<Json, TaskError>)
    modifies budget
    ensures Matches(r, budget.encodedBytes, Normalize(v, depth, old(budget.encodedBytes)))
    decreases v, 0
  {
    hide StringBytes, Decode, HasKey, Pow10, NormalizeMember, NormalizeItems;
    if depth > MAX_DEPTH { return Err(Unsafe); }
    var ok: bool;
    match v
    case PyNone =>
      ok := budget.Consume(4);
      return if ok then Ok(Null) else Err(TooLarge);
    case PyBool(b) =>
      ok := budget.Consume(if b then 4 else 5);
      return if ok then Ok(Bool(b)) else Err(TooLarge);
    case PyText(s) =>
      var bytes := JsonStringByteLength(s);
      if bytes.Err? { return Err(bytes.error); }
      ScalarWhenCounted(s);
      ok := budget.Consume(bytes.value);
      return if ok then Ok(Str(Decode(s))) else Err(TooLarge);
    case PyInt(n) =>
      if n >= Pow10(MAX_INTEGER_DIGITS) || n + Pow10(MAX_INTEGER_DIGITS) <= 0 { return Err(Unsafe); }
      ok := budget.Consume(|Decimal(n)|);
      return if ok then Ok(Int(n)) else Err(TooLarge);
    case PyFloat(literal, finite) =>
      if !finite { return Err(Unsafe); }
      ok := budget.Consume(|literal|);
      return if ok then Ok(Float(literal)) else Err(TooLarge);
    case PyDict(members) =>
      ok := budget.Consume(2);
      if !ok { return Err(TooLarge); }
      var normalized := NormalizeDict(members, depth, budget);
      return if normalized.Ok? then Ok(Obj(normalized.value)) else Err(normalized.error);
    case PySequence(items) =>
      ok := budget.Consume(2);
      if !ok { return Err(TooLarge); }
      var normalized := NormalizeSequence(items, depth, budget);
      return if normalized.Ok? then Ok(Arr(normalized.value)) else Err(normalized.error);
    case Other =>
      return Err(Unsafe);
  }

  lemma ScalarWhenCounted(s: PyStr)
    ensures StringBytes(s).Ok? ==> IsScalarText(s)
  {
  }

  method NormalizeDict(members: seq<PyMember>, depth: nat, budget: JsonNormalizationBudget) returns (r: Result<seq<Member>, TaskError>)
    requires budget.encodedBytes <= MAX_TASK_BYTES
    modifies budget
    ensures Matches(r, budget.encodedBytes, NormalizeMembers(members, depth, old(budget.encodedBytes), []))
    decreases members, 1
  {
    hide Normalize, NormalizeMember;
    var normalized: seq<Member> := [];
    assert members[0..] == members;
    for i := 0 to |members|
      invariant |normalized| == i
      invariant i == 0 ==> budget.encodedBytes <= MAX_TASK_BYTES
      invariant NormalizeMembers(members, depth, old(budget.encodedBytes), [])
                == NormalizeMembers(members[i..], depth, budget.encodedBytes, normalized)
    {
      assert members[i..][0] == members[i] && members[i..][1..] == members[i + 1..];
      var member := NormalizeDictItem(members[i], depth, normalized, budget);
      if member.Err? { return Err(member.error); }
      normalized := normalized + [member.value];
    }
    return Ok(normalized);
  }

  method NormalizeDictItem(m: PyMember, depth: nat, normalized: seq<Member>, budget: JsonNormalizationBudget)
    returns (r: Result<Member, TaskError>)
    requires |normalized| == 0 ==> budget.encodedBytes <= MAX_TASK_BYTES
    modifies budget
    ensures Matches(r, budget.encodedBytes, NormalizeMember(m, depth, old(budget.encodedBytes), normalized))
    decreases m, 1
  {
    hide StringBytes, Decode, HasKey, Normalize;
    if |normalized| > 0 {
      var ok := budget.Consume(1);
      if !ok { return Err(TooLarge); }
    }
    if !m.key.PyText? { return Err(Unsafe); }
    var bytes := JsonStringByteLength(m.key.s);
    if bytes.Err? { return Err(bytes.error); }
    var ok := budget.Consume(bytes.value + 1);
    if !ok { return Err(TooLarge); }
    ScalarWhenCounted(m.key.s);
    var key := Decode(m.key.s);
    if HasKey(normalized, key) { return Err(Unsafe); }
    var item := NormalizeValue(m.value, depth + 1, budget);
    if item.Err? { return Err(item.error); }
    return Ok(Member(key, item.value));
  }

  method NormalizeSequence(items: seq<PyValue>, depth: nat, budget: JsonNormalizationBudget) returns (r: Result<seq<Json>, TaskError>)
    requires budget.encodedBytes <= MAX_TASK_BYTES
    modifies budget
    ensures Matches(r, budget.encodedBytes, NormalizeItems(items, depth, old(budget.encodedBytes), []))
    decreases items, 1
  {
    hide Normalize;
    var normalized: seq<Json> := [];
    for i := 0 to |items|
      invariant |normalized| == i
      invariant i == 0 ==> budget.encodedBytes <= MAX_TASK_BYTES
      invariant NormalizeItems(items, depth, old(budget.encodedBytes), [])
                == NormalizeItems(items[i..], depth, budget.encodedBytes, normalized)
    {
      assert items[i..][0] == items[i] && items[i..][1..] == items[i + 1..];
      if i > 0 {
        var ok := budget.Consume(1);
        if !ok { return Err(TooLarge); }
      }
      var item := NormalizeValue(items[i], depth + 1, budget);
      if item.Err? { return Err(item.error); }
      normalized := normalized + [item.value];
    }
    return Ok(normalized);
  }

  // ---- Sorted-key encoding ----

  function Insert(m: Member, sorted: seq<Member>): seq<Member> {
    if |sorted| == 0 || StringLess(m.key, sorted[0].key) then [m] + sorted
    else [sorted[0]] + Insert(m, sorted[1..])
  }

  function SortMembers(members: seq<Member>): seq<Member> {
    if |members| == 0 then [] else Insert(members[0], SortMembers(members[1..]))
  }

  /** The value with every object's members in key order, as `sort_keys` prints it. */
  function Canon(v: Json): Json {
    match v
    case Arr(items) => Arr(CanonItems(items))
    case Obj(members) => Obj(SortMembers(CanonMembers(members)))
    case _ => v
  }

  function CanonItems(items: seq<Json>): seq<Json> {
    if |items| == 0 then [] else [Canon(items[0])] + CanonItems(items[1..])
  }

  function CanonMembers(members: seq<Member>): seq<Member> {
    if |members| == 0 then [] else [Member(members[0].key, Canon(members[0].value))] + CanonMembers(members[1..])
  }

  function Concat(chunks: seq<string>): string {
    if |chunks| == 0 then "" else chunks[0] + Concat(chunks[1..])
  }

  function Bounded(text: string): Result<string, TaskError> {
    if Utf8Length(text) > MAX_TASK_BYTES then Err(TooLarge) else Ok(text)
  }

  lemma {:induction false} ConcatAppend(a: seq<string>, b: seq<string>)
    ensures Concat(a + b) == Concat(a) + Concat(b)
  {
    if |a| == 0 {
      assert a + b == b;
    } else {
      ConcatAppend(a[1..], b);
      assert (a + b)[1..] == a[1..] + b;
      ConcatAssoc(a[0], Concat(a[1..]), Concat(b));
    }
  }

  /** `_encode_bounded_json`: stop at the first chunk that crosses the limit, however the encoder cuts its output. */
  method EncodeBoundedJson(stream: seq<string>) returns (r: Result<string, TaskError>)
    ensures r == Bounded(Concat(stream))
  {
    var text := "";
    var encodedLength := 0;
    for i := 0 to |stream|
      invariant text == Concat(stream[..i]) && encodedLength == Utf8Length(text) <= MAX_TASK_BYTES
    {
      Utf8LengthConcat(text, stream[i]);
      ConcatAppend(stream[..i], [stream[i]]);
      assert stream[..i + 1] == stream[..i] + [stream[i]];
      assert Concat([stream[i]]) == stream[i] + "" == stream[i];
      encodedLength := encodedLength + Utf8Length(stream[i]);
      if encodedLength > MAX_TASK_BYTES {
        ConcatAppend(stream[..i + 1], stream[i + 1..]);
        assert stream == stream[..i + 1] + stream[i + 1..];
        Utf8LengthConcat(Concat(stream[..i + 1]), Concat(stream[i + 1..]));
        return Err(TooLarge);
      }
      text := text + stream[i];
    }
    assert stream[..|stream|] == stream;
    r := Ok(text);
  }

  // ---- The task object ----

  datatype PyTask = PyTask(taskId: PyValue, agentName: PyValue, prompt: PyValue, timeout: PyValue, priority: PyValue, metadata: PyValue)

  datatype Task = Task(taskId: string, agentName: string, prompt: string, timeout: int, priority: int, metadata: seq<Member>)

  predicate IsIdentifierStart(c: char) {
    'A' <= c <= 'Z' || 'a' <= c <= 'z' || '0' <= c <= '9'
  }

  predicate IsIdentifier(s: string) {
    0 < |s| <= 128 && IsIdentifierStart(s[0]) && forall c <- s[1..] :: IsIdentifierStart(c) || c in {'.', '_', ':', '-'}
  }

  /** The fields' own rules, all checked before the metadata is touched. */
  predicate FieldsOK(t: PyTask) {
    && t.taskId.PyText? && t.taskId.s != [] && StringBytes(t.taskId.s).Ok?
    && t.agentName.PyText? && IsScalarText(t.agentName.s) && IsIdentifier(Decode(t.agentName.s))
    && t.prompt.PyText? && StringBytes(t.prompt.s).Ok? && Strip(Decode(t.prompt.s)) != ""
    && t.timeout.PyInt? && 1 <= t.timeout.n <= 300
    && t.priority.PyInt? && 0 <= t.priority.n <= 3
    && t.metadata.PyDict?
  }

  const TASK_KEYS: seq<string> := ["task_id", "agent_name", "prompt", "timeout", "priority", "metadata"]

  function Payload(t: Task): Json {
    Obj([Member("task_id", Str(t.taskId)), Member("agent_name", Str(t.agentName)), Member("prompt", Str(t.prompt)),
         Member("timeout", Int(t.timeout)), Member("priority", Int(t.priority)), Member("metadata", Obj(t.metadata))])
  }

  /** `_task_encoding_budget`: everything of the encoded object except the metadata value. */
  function FrameBytes(taskId: PyStr, agentName: PyStr, prompt: PyStr, timeout: int, priority: int): nat {
    2 + 5
    + (|Quote("task_id", false)| + 1) + 2 + BytesOf(taskId)
    + (|Quote("agent_name", false)| + 1) + 2 + BytesOf(agentName)
    + (|Quote("prompt", false)| + 1) + 2 + BytesOf(prompt)
    + (|Quote("timeout", false)| + 1) + |Decimal(timeout)|
    + (|Quote("priority", false)| + 1) + |Decimal(priority)|
    + (|Quote("metadata", false)| + 1)
  }

  /** `_encode_task`. */
  function EncodeTask(t: PyTask): Result<string, TaskError> {
    if !FieldsOK(t) then Err(Unsafe)
    else
      var frame := FrameBytes(t.taskId.s, t.agentName.s, t.prompt.s, t.timeout.n, t.priority.n);
      if frame > MAX_TASK_BYTES then Err(TooLarge)
      else match Normalize(t.metadata, 0, frame)
        case Err(e) => Err(e)
        case Ok(c) =>
          if !c.value.Obj? then Err(Unsafe)
          else Bounded(Print(Canon(Payload(NormalTask(t, c.value.members))), false))
  }

  function NormalTask(t: PyTask, metadata: seq<Member>): Task
    requires FieldsOK(t)
  {
    Task(Decode(t.taskId.s), Decode(t.agentName.s), Decode(t.prompt.s), t.timeout.n, t.priority.n, metadata)
  }

  // ---- The child's side ----

  function CodePoints(s: string): PyStr {
    seq(|s|, i requires 0 <= i < |s| => s[i] as int)
  }

  /** A parsed JSON value as the Python object the child holds. */
  function ToPy(v: Json): PyValue {
    match v
    case Null => PyNone
    case Bool(b) => PyBool(b)
    case Int(n) => PyInt(n)
    case Float(literal) => PyFloat(literal, true)
    case Str(s) => PyText(CodePoints(s))
    case Arr(items) => PySequence(ToPyItems(items))
    case Obj(members) => PyDict(ToPyMembers(members))
  }

  function ToPyItems(items: seq<Json>): seq<PyValue> {
    if |items| == 0 then [] else [ToPy(items[0])] + ToPyItems(items[1..])
  }

  function ToPyMembers(members: seq<Member>): seq<PyMember> {
    if |members| == 0 then []
    else [PyMember(PyText(CodePoints(members[0].key)), ToPy(members[0].value))] + ToPyMembers(members[1..])
  }

  /** `_decode_task`: exact key set, every field checked again, metadata normalised under a fresh budget. */
  function DecodeTask(text: string): Option<Task> {
    if Utf8Length(text) > MAX_TASK_BYTES then None
    else match Parse(text)
      case Some(Obj(members)) =>
        if |members| != |TASK_KEYS| || exists k <- TASK_KEYS :: Lookup(members, k).None? then None
        else
          (match (Lookup(members, "task_id").value, Lookup(members, "agent_name").value, Lookup(members, "prompt").value,
                  Lookup(members, "timeout").value, Lookup(members, "priority").value, Lookup(members, "metadata").value)
           case (Str(taskId), Str(agentName), Str(prompt), Int(timeout), Int(priority), Obj(metadata)) =>
             var t := PyTask(PyText(CodePoints(taskId)), PyText(CodePoints(agentName)), PyText(CodePoints(prompt)),
                             PyInt(timeout), PyInt(priority), ToPy(Obj(metadata)));
             if !FieldsOK(t) then None
             else DecodedMetadata(Task(taskId, agentName, prompt, timeout, priority, []), ToPy(Obj(metadata)))
           case _ => None)
      case _ => None
  }

  function DecodedMetadata(t: Task, metadata: PyValue): Option<Task> {
    match Normalize(metadata, 0, 0)
    case Err(_) => None
    case Ok(c) => if c.value.Obj? then Some(t.(metadata := c.value.members)) else None
  }

  lemma FieldsAreTyped(t: PyTask)
    requires FieldsOK(t)
    ensures t.taskId.PyText? && t.agentName.PyText? && t.prompt.PyText? && t.timeout.PyInt? && t.priority.PyInt?
  {
  }

  method EncodeTaskStream(t: PyTask, cut: string -> seq<string>) returns (r: Result<string, TaskError>)
    requires forall s :: Concat(cut(s)) == s
    ensures r == EncodeTask(t)
  {
    hide FieldsOK, FrameBytes, Normalize, Canon, Payload, Print, Pow10;
    if !FieldsOK(t) { return Err(Unsafe); }
    FieldsAreTyped(t);
    var budget := new JsonNormalizationBudget();
    var ok := budget.Consume(FrameBytes(t.taskId.s, t.agentName.s, t.prompt.s, t.timeout.n, t.priority.n));
    if !ok { return Err(TooLarge); }
    var metadata := NormalizeValue(t.metadata, 0, budget);
    if metadata.Err? { return Err(metadata.error); }
    if !metadata.value.Obj? { return Err(Unsafe); }
    r := EncodeBoundedJson(cut(Print(Canon(Payload(NormalTask(t, metadata.value.members))), false)));
  }
}
