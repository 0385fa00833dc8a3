/** The persisted memory record. */
module MemoryEntry {
  import opened Wrappers
  import opened MemoryIndex
  import Json

  const PROBE_TOKEN: string := "probe_cleanup_token"
  const PROBE_TITLE_PREFIX: string := ".test-local-integration-"

  datatype MemoryEntry = MemoryEntry(
    id: string,
    memoryType: string,
    title: string,
    content: string,
    metadata: seq<Json.Member>,
    createdAt: string,
    lastAccessed: string,
    accessCount: nat,
    tags: seq<string>,
    importance: Json.Json,
    tokenCount: nat,
    compressed: bool,
    parentId: Option<string>)
  {
    function File(): string {
      Filename(memoryType, id)
    }

    predicate HasValidName() {
      memoryType in MEMORY_TYPES && IsSafeEntryId(id)
    }

    /** The recorded cleanup token, or the empty text when there is none. */
    function ProbeToken(): string {
      match Json.Lookup(metadata, PROBE_TOKEN)
      case Some(Str(token)) => token
      case _ => ""
    }
  }
}
