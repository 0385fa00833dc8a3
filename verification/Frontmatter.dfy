/** The version 2 entry file: a frontmatter header of one-line fields, then the body verbatim. */
module Frontmatter {
  import opened Text
  import opened Wrappers
  import opened MemoryIndex
  import opened Json
  import opened MemoryEntry

  const MAX_ENTRY_BYTES: nat := 8 * 1024 * 1024
  const FENCE: string := "---"
  const KEYS: seq<string> := [
    "schema_version", "id", "name", "description", "type", "metadata_json", "tags_json", "created_at",
    "last_accessed", "access_count", "importance", "token_count", "compressed", "parent_id", "probe_cleanup_token"]

  datatype Field = Field(key: string, value: string)

  // ---- Header text values ----

  predicate NeedsEncoding(text: string) {
    || text != Strip(text)
    || (StartsWith(text, "\"") && EndsWith(text, "\""))
    || exists c <- text :: IsControl(c)
  }

  function TranslateSeparators(s: string): string {
    if s == "" then "" else TranslateHead(s[0]) + TranslateSeparators(s[1..])
  }

  function TranslateHead(c: char): string {
    var n := c as int;
    if n == 0x85 || n == 0x2028 || n == 0x2029 then "\\u" + Hex4(n) else [c]
  }

  function FrontmatterText(text: string): string {
    if NeedsEncoding(text) then TranslateSeparators(Quote(text, false)) else text
  }

  function DecodeText(value: string): Option<string> {
    var v := Strip(value);
    if StartsWith(v, "\"") && EndsWith(v, "\"") then
      match Parse(v)
      case Some(Str(s)) => Some(s)
      case _ => None
    else Some(v)
  }

  // ---- Writer ----

  function ParentJson(parent: Option<string>): Json {
    match parent
    case None => Null
    case Some(s) => Str(s)
  }

  /** A field is printed either as header text or as JSON. */
  datatype FieldValue = TextValue(text: string) | JsonValue(value: Json)
  {
    function Encoded(): string {
      match this
      case TextValue(text) => FrontmatterText(text)
      case JsonValue(value) => Print(value, true)
    }
  }

  /** The header values, in the order of KEYS. */
  function HeaderValues(e: MemoryEntry): seq<FieldValue> {
    [ JsonValue(Int(2)), TextValue(e.id), TextValue(e.title), TextValue(Take(e.content, SUMMARY_CHARS)),
      TextValue(e.memoryType), JsonValue(Obj(e.metadata)), JsonValue(Arr(TextItems(e.tags))), TextValue(e.createdAt),
      TextValue(e.lastAccessed), JsonValue(Int(e.accessCount)), JsonValue(e.importance), JsonValue(Int(e.tokenCount)),
      JsonValue(Bool(e.compressed)), JsonValue(ParentJson(e.parentId)), TextValue(e.ProbeToken())]
  }

  function HeaderFields(e: MemoryEntry): seq<Field> {
    var values := HeaderValues(e);
    seq(|KEYS|, i requires 0 <= i < |KEYS| => Field(KEYS[i], values[i].Encoded()))
  }

  function FieldLine(f: Field): string {
    f.key + ": " + f.value
  }

  function FieldLines(fields: seq<Field>): seq<string> {
    seq(|fields|, i requires 0 <= i < |fields| => FieldLine(fields[i]))
  }

  function Payload(e: MemoryEntry): string {
    FENCE + "\n" + CloseLines(FieldLines(HeaderFields(e))) + FENCE + "\n" + "\n" + e.content
  }

  /** `_validate_entry`, for values whose Python types are already right. */
  predicate ValidEntry(e: MemoryEntry) {
    && e.HasValidName()
    && Valid(Obj(e.metadata))
    && (Lookup(e.metadata, PROBE_TOKEN).None? || Lookup(e.metadata, PROBE_TOKEN).value.Str?)
    && (e.importance.Int? || (e.importance.Float? && IsFloatLiteral(e.importance.literal)))
  }

  datatype SerializeError = InvalidEntry | TooLarge | NotLossless

  /** `_serialize_entry`: print, then refuse anything that does not read back as the same entry. */
  function SerializeEntry(e: MemoryEntry): Result<string, SerializeError> {
    if !ValidEntry(e) then Err(InvalidEntry)
    else if Utf8Length(Payload(e)) > MAX_ENTRY_BYTES then Err(TooLarge)
    else if ParseEntry(e.File(), Payload(e)) != Some(e) then Err(NotLossless)
    else Ok(Payload(e))
  }

  // ---- Reader ----

  datatype Raw = NotFrontmatter | Malformed | Raw(fields: seq<Field>, body: string)

  function RStripNewlines(s: string): string {
    if s != "" && (s[|s| - 1] == '\r' || s[|s| - 1] == '\n') then RStripNewlines(s[..|s| - 1]) else s
  }

  /** Index of the first fence line at or after `i`. */
  function FindFence(lines: seq<string>, i: nat): (r: Option<nat>)
    requires i <= |lines|
    ensures r.Some? ==> i <= r.value < |lines|
    decreases |lines| - i
  {
    if i == |lines| then None
    else if RStripNewlines(lines[i]) == FENCE then Some(i)
    else FindFence(lines, i + 1)
  }

  function TotalLength(lines: seq<string>): nat {
    if |lines| == 0 then 0 else |lines[0]| + TotalLength(lines[1..])
  }

  function Get(fields: seq<Field>, key: string): Option<string> {
    if |fields| == 0 then None
    else if fields[0].key == key then Some(fields[0].value)
    else Get(fields[1..], key)
  }

  datatype Header = BadHeader | Header(fields: seq<Field>, stray: bool)

  /** Header lines in order: `key: value` fields with unique keys, remembering any line without a colon. */
  function ParseHeader(lines: seq<string>, seen: seq<Field>, stray: bool): Header
    decreases |lines|
  {
    if |lines| == 0 then Header(seen, stray)
    else
      var line := RStripNewlines(lines[0]);
      var colon := IndexOf(line, ':');
      if colon == |line| then ParseHeader(lines[1..], seen, true)
      else
        var key := Strip(line[..colon]);
        if key == "" || Get(seen, key).Some? then BadHeader
        else ParseHeader(lines[1..], seen + [Field(key, Strip(line[colon + 1..]))], stray)
  }

  function DropOneNewline(body: string): string {
    if StartsWith(body, "\r\n") then body[2..]
    else if StartsWith(body, "\n") || StartsWith(body, "\r") then body[1..]
    else body
  }

  function ParseRaw(content: string): Raw {
    var lines := SplitLinesKeep(content);
    if |lines| == 0 || RStripNewlines(lines[0]) != FENCE then NotFrontmatter
    else match FindFence(lines, 1)
      case None => NotFrontmatter
      case Some(close) =>
        match ParseHeader(lines[1..close], [], false)
        case BadHeader => Malformed
        case Header(fields, stray) =>
          if Get(fields, "schema_version").Some? && stray then Malformed
          else
            var start := TotalLength(lines[..close + 1]);
            if start > |content| then Malformed
            else Raw(fields, DropOneNewline(content[start..]))
  }

  function TextField(fields: seq<Field>, key: string): Option<string> {
    match Get(fields, key)
    case None => None
    case Some(v) => DecodeText(v)
  }

  function JsonField(fields: seq<Field>, key: string): Option<Json> {
    match Get(fields, key)
    case None => None
    case Some(v) => Parse(v)
  }

  function CountField(fields: seq<Field>, key: string): Option<nat> {
    match JsonField(fields, key)
    case Some(Int(n)) => if n >= 0 then Some(n) else None
    case _ => None
  }

  function ParentOf(v: Json): Option<Option<string>> {
    match v
    case Null => Some(None)
    case Str(s) => Some(Some(s))
    case _ => None
  }

  /** `_parse_v2_entry`. */
  function ParseV2(filename: string, fields: seq<Field>, body: string): Option<MemoryEntry> {
    if (exists f <- fields :: f.key !in KEYS) || (exists k <- KEYS :: k != "description" && Get(fields, k).None?) then None
    else if JsonField(fields, "schema_version") != Some(Int(2)) then None
    else if Get(fields, "description").Some? && TextField(fields, "description").None? then None
    else
      match (TextField(fields, "id"), TextField(fields, "type"), TextField(fields, "name"))
      case (Some(id), Some(memoryType), Some(title)) =>
        if !IsSafeEntryId(id) || memoryType !in MEMORY_TYPES || filename != Filename(memoryType, id) then None
        else ParseBody(id, memoryType, title, fields, body)
      case _ => None
  }

  function Pow(base: nat, n: nat): nat {
    if n == 0 then 1 else base * Pow(base, n - 1)
  }

  /** The least integer that does not round to a double: half a unit in the last place above the largest one. */
  function FloatBound(): int {
    Pow(2, 970) * (Pow(2, 54) - 1)
  }

  /** `math.isfinite`, which raises for an integer beyond the doubles; a float literal stands for a finite float. */
  predicate IsFinite(v: Json) {
    match v
    case Int(n) => -FloatBound() < n < FloatBound()
    case _ => true
  }

  function ParseBody(id: string, memoryType: string, title: string, fields: seq<Field>, body: string): Option<MemoryEntry> {
    var metadata := JsonField(fields, "metadata_json");
    var tags := JsonField(fields, "tags_json");
    var importance := JsonField(fields, "importance");
    var compressed := JsonField(fields, "compressed");
    var parent := JsonField(fields, "parent_id");
    var accessCount := CountField(fields, "access_count");
    var tokenCount := CountField(fields, "token_count");
    var createdAt := TextField(fields, "created_at");
    var lastAccessed := TextField(fields, "last_accessed");
    var token := TextField(fields, "probe_cleanup_token");
    if metadata.None? || !metadata.value.Obj? || tags.None? || TextsOf(tags.value).None? then None
    else if importance.None? || !(importance.value.Int? || importance.value.Float?) || !IsFinite(importance.value) then None
    else if compressed.None? || !compressed.value.Bool? || parent.None? || ParentOf(parent.value).None? then None
    else if accessCount.None? || tokenCount.None? || createdAt.None? || lastAccessed.None? then None
    else if token.None? || !TokenAgrees(metadata.value.members, token.value) then None
    else Some(MemoryEntry(id, memoryType, title, body, metadata.value.members, createdAt.value, lastAccessed.value,
                          accessCount.value, TextsOf(tags.value).value, importance.value, tokenCount.value,
                          compressed.value.b, ParentOf(parent.value).value))
  }

  predicate TokenAgrees(metadata: seq<Member>, token: string) {
    match Lookup(metadata, PROBE_TOKEN)
    case None => token == ""
    case Some(v) => v == Str(token)
  }

  /** `_parse_entry` on files that declare a schema version. */
  function ParseEntry(filename: string, content: string): Option<MemoryEntry> {
    match ParseRaw(content)
    case Raw(fields, body) => if Get(fields, "schema_version").Some? then ParseV2(filename, fields, body) else None
    case _ => None
  }
}
