/**
  The memory store's disk protocol. Entry files are authoritative, `MEMORY.md` is derived, and a
  one-record journal names the file a mutation is about to publish. Every atomic disk action takes a
  `Fault` chosen by the environment, so quantifying over plans quantifies over every crash point and
  every in-process failure, including a failed rollback.
 */
module MemoryStore {
  import opened Text
  import opened Wrappers
  import opened Faults
  import opened MemoryIndex
  import opened IndexRewrite
  import opened MemoryEntry

  /** A readable file either parses to an entry or is foreign to this store. */
  datatype FileState = Stored(entry: MemoryEntry) | Foreign

  datatype Operation = StoreIntent | DeleteIntent

  datatype Journal = Journal(operation: Operation, filename: string)

  datatype Disk = Disk(files: map<string, FileState>, index: Option<string>, journal: Option<Journal>)

  /** Creating the index is not atomic: a failure may leave any prefix of the header behind. */
  datatype Creation = Created | RaiseCreate(kept: Option<nat>) | DieCreate(kept: Option<nat>)

  datatype Plan = Plan(readable: bool, create: Creation, journal: Fault, entry: Fault, index: Fault, rollback: Fault, clear: Fault)

  datatype Outcome = Returned(changed: bool) | Raised | Crashed

  datatype Step = Step(disk: Disk, outcome: Outcome)

  /** Whose deletion rules apply: the retention path, the probe path, or a consolidation batch. */
  datatype DeleteKind = Retention | Probe(token: string) | Batch

  predicate DeletionAllowed(kind: DeleteKind, file: FileState) {
    match kind
    case Batch => true
    case Retention => file.Stored? && Json.Lookup(file.entry.metadata, PROBE_TOKEN).None?
    case Probe(token) =>
      && token != "" && file.Stored?
      && StartsWith(file.entry.title, PROBE_TITLE_PREFIX)
      && file.entry.ProbeToken() == token
  }

  predicate IsAscii(text: string) {
    forall c <- text :: c as int < 0x80
  }

  /** `hmac.compare_digest` raises on text outside ASCII; it is reached once the title and the stored token are there. */
  predicate ComparisonRaises(kind: DeleteKind, file: FileState) {
    match kind
    case Probe(token) =>
      && token != "" && file.Stored? && StartsWith(file.entry.title, PROBE_TITLE_PREFIX) && file.entry.ProbeToken() != ""
      && !(IsAscii(token) && IsAscii(file.entry.ProbeToken()))
    case _ => false
  }

  function Failure(fault: Fault): Outcome
    requires !fault.Done?
  {
    if fault.Raise? then Raised else Crashed
  }

  // ---- Specification of each operation as a function of the disk and the environment's plan ----

  function EnsureIndex(d: Disk, create: Creation): Step {
    if d.index.Some? then Step(d, Returned(false))
    else match create
      case Created => Step(d.(index := Some(HEADER)), Returned(false))
      case RaiseCreate(kept) => Step(d.(index := TornHeader(kept)), Raised)
      case DieCreate(kept) => Step(d.(index := TornHeader(kept)), Crashed)
  }

  function TornHeader(kept: Option<nat>): Option<string> {
    match kept
    case None => None
    case Some(k) => Some(Take(HEADER, k))
  }

  function WriteIndex(d: Disk, text: string, fault: Fault): Disk {
    if Applied(fault) then d.(index := Some(text)) else d
  }

  function WriteFile(d: Disk, filename: string, file: FileState, fault: Fault): Disk {
    if Applied(fault) then d.(files := d.files[filename := file]) else d
  }

  function RemoveFile(d: Disk, filename: string, fault: Fault): Disk {
    if Applied(fault) then d.(files := d.files - {filename}) else d
  }

  function ClearJournal(d: Disk, fault: Fault): Step {
    Step(if Applied(fault) then d.(journal := None) else d,
         if fault.Done? then Returned(true) else Failure(fault))
  }

  /** The index text recovery derives for a journalled file, or none when it exceeds the size limit. */
  function RecoveredText(files: map<string, FileState>, filename: string, text: string): Option<string> {
    if filename !in files then WithinLimit(RemovedText(text, filename))
    else match files[filename]
      case Foreign => Some(text)
      case Stored(entry) => WithinLimit(UpdatedText(entry.title, filename, entry.content, text))
  }

  function RecoverSpec(d: Disk, plan: Plan): Step {
    if d.journal.None? then Step(d, Returned(false))
    else
      var filename := d.journal.value.filename;
      var ready := EnsureIndex(d, plan.create);
      if !ready.outcome.Returned? then ready
      else if !plan.readable then Step(ready.disk, Raised)
      else
        var text := ready.disk.index.value;
        match RecoveredText(d.files, filename, text)
        case None => Step(ready.disk, Raised)
        case Some(payload) =>
          if payload != text && !plan.index.Done? then
            Step(WriteIndex(ready.disk, payload, plan.index), Failure(plan.index))
          else
            ClearJournal(ready.disk.(index := Some(payload)), plan.clear)
  }

  /** Undo an installed entry: put the previous payload back, or remove the new file. */
  function Restore(d: Disk, before: Disk, filename: string, fault: Fault): Disk {
    if filename in before.files then WriteFile(d, filename, before.files[filename], fault)
    else RemoveFile(d, filename, fault)
  }

  function FinishIndexWrite(d: Disk, before: Disk, filename: string, text: string, plan: Plan): Step {
    var written := WriteIndex(d, text, plan.index);
    match plan.index
    case Done => ClearJournal(written, plan.clear)
    case Die(_) => Step(written, Crashed)
    case Raise(_) =>
      Step(Restore(written, before, filename, plan.rollback), if plan.rollback.Die? then Crashed else Raised)
  }

  /** `_store_unlocked`: journal, entry, index, clear. */
  function StoreSpec(d: Disk, entry: MemoryEntry, plan: Plan): Step {
    if !entry.HasValidName() || !plan.readable then Step(d, Raised)
    else
      var filename := entry.File();
      var ready := EnsureIndex(d, plan.create);
      if !ready.outcome.Returned? then ready
      else match WithinLimit(UpdatedText(entry.title, filename, entry.content, ready.disk.index.value))
        case None => Step(ready.disk, Raised)
        case Some(text) =>
          if ready.disk.journal.Some? then Step(ready.disk, Raised)
          else
            var journalled := if Applied(plan.journal) then ready.disk.(journal := Some(Journal(StoreIntent, filename))) else ready.disk;
            if !plan.journal.Done? then Step(journalled, Failure(plan.journal))
            else
              var installed := WriteFile(journalled, filename, Stored(entry), plan.entry);
              if !plan.entry.Done? then Step(installed, Failure(plan.entry))
              else FinishIndexWrite(installed, d, filename, text, plan)
  }

  /** `delete`, `delete_probe` and the batch deletion: journal, unlink, index, clear. */
  function DeleteSpec(d: Disk, kind: DeleteKind, filename: string, plan: Plan): Step {
    if !IsEntryFilename(filename) || filename !in d.files || !plan.readable then Step(d, Returned(false))
    else if ComparisonRaises(kind, d.files[filename]) then Step(d, Raised)
    else if !DeletionAllowed(kind, d.files[filename]) then Step(d, Returned(false))
    else
      var ready := EnsureIndex(d, plan.create);
      if ready.outcome.Crashed? then ready
      else if ready.outcome.Raised? then Step(ready.disk, if kind.Batch? then Raised else Returned(false))
      else if ready.disk.journal.Some? then Step(ready.disk, Raised)
      else
        var journalled := if Applied(plan.journal) then ready.disk.(journal := Some(Journal(DeleteIntent, filename))) else ready.disk;
        if !plan.journal.Done? then Step(journalled, Failure(plan.journal))
        else
          var removed := RemoveFile(journalled, filename, plan.entry);
          if !plan.entry.Done? then Step(removed, Failure(plan.entry))
          else match WithinLimit(RemovedText(removed.index.value, filename))
            case None => Step(removed, Raised)
            case Some(text) => FinishIndexWrite(removed, d, filename, text, plan)
  }

  /** Every public mutation first rolls the journal forward; a failed recovery refuses the mutation. */
  datatype Request = Open | Store(entry: MemoryEntry) | Delete(kind: DeleteKind, filename: string)

  datatype Call = Call(request: Request, recovery: Plan, plan: Plan)

  function Body(d: Disk, request: Request, plan: Plan): Step {
    match request
    case Open => EnsureIndex(d, plan.create)
    case Store(entry) => StoreSpec(d, entry, plan)
    case Delete(kind, filename) => DeleteSpec(d, kind, filename, plan)
  }

  function Transaction(d: Disk, call: Call): Step {
    var recovered := RecoverSpec(d, call.recovery);
    if recovered.outcome.Returned? then Body(recovered.disk, call.request, call.plan) else recovered
  }

  /** A whole history of calls by any sequence of processes over one directory. */
  function Run(d: Disk, calls: seq<Call>): Disk
    decreases |calls|
  {
    if |calls| == 0 then d else Run(Transaction(d, calls[0]).disk, calls[1..])
  }

  const EMPTY_DISK: Disk := Disk(map[], None, None)

  // ---- The store itself ----

  class MemoryStore {
    var files: map<string, FileState>
    var index: Option<string>
    var journal: Option<Journal>

    function State(): Disk
      reads this
    {
      Disk(files, index, journal)
    }

    /** A directory as any earlier process left it. */
    constructor (disk: Disk)
      ensures State() == disk
    {
      files, index, journal := disk.files, disk.index, disk.journal;
    }

    method EnsureIndexFile(create: Creation) returns (outcome: Outcome)
      modifies this`index
      ensures Step(State(), outcome) == EnsureIndex(old(State()), create)
      ensures outcome.Returned? ==> index.Some?
    {
      if index.Some? { return Returned(false); }
      match create
      case Created =>
        index := Some(HEADER);
        return Returned(false);
      case RaiseCreate(kept) =>
        index := TornHeader(kept);
        return Raised;
      case DieCreate(kept) =>
        index := TornHeader(kept);
        return Crashed;
    }

    method ReplaceIndex(text: string, fault: Fault)
      modifies this`index
      ensures State() == WriteIndex(old(State()), text, fault)
    {
      if Applied(fault) { index := Some(text); }
    }

    method ReplaceFile(filename: string, file: FileState, fault: Fault)
      modifies this`files
      ensures State() == WriteFile(old(State()), filename, file, fault)
    {
      if Applied(fault) { files := files[filename := file]; }
    }

    method UnlinkFile(filename: string, fault: Fault)
      modifies this`files
      ensures State() == RemoveFile(old(State()), filename, fault)
    {
      if Applied(fault) { files := files - {filename}; }
    }

    method ClearJournalFile(fault: Fault) returns (outcome: Outcome)
      modifies this`journal
      ensures Step(State(), outcome) == ClearJournal(old(State()), fault)
    {
      if Applied(fault) { journal := None; }
      outcome := if fault.Done? then Returned(true) else Failure(fault);
    }

    /** `_recover_journal_unlocked`. */
    method Recover(plan: Plan) returns (outcome: Outcome)
      modifies this
      ensures Step(State(), outcome) == RecoverSpec(old(State()), plan)
    {
      if journal.None? { return Returned(false); }
      var filename := journal.value.filename;
      outcome := EnsureIndexFile(plan.create);
      if !outcome.Returned? { return; }
      if !plan.readable { return Raised; }
      var text := index.value;
      var payload: Option<string>;
      if filename !in files {
        payload := RenderIndexRemoval(text, filename);
      } else if files[filename].Foreign? {
        payload := Some(text);
      } else {
        var entry := files[filename].entry;
        payload := RenderIndexUpdate(entry.title, filename, entry.content, text);
      }
      if payload.None? { return Raised; }
      if payload.value != text {
        ReplaceIndex(payload.value, plan.index);
        if !plan.index.Done? { return Failure(plan.index); }
      }
      outcome := ClearJournalFile(plan.clear);
    }

    /** The index write shared by store and delete: roll the entry back when it raises, else clear the journal. */
    method PublishIndex(ghost before: Disk, previous: Option<FileState>, filename: string, text: string, plan: Plan)
      returns (outcome: Outcome)
      requires previous == if filename in before.files then Some(before.files[filename]) else None
      modifies this
      ensures Step(State(), outcome) == FinishIndexWrite(old(State()), before, filename, text, plan)
    {
      ReplaceIndex(text, plan.index);
      match plan.index
      case Done =>
        outcome := ClearJournalFile(plan.clear);
      case Die(_) =>
        outcome := Crashed;
      case Raise(_) =>
        match previous {
          case Some(file) => ReplaceFile(filename, file, plan.rollback);
          case None => UnlinkFile(filename, plan.rollback);
        }
        outcome := if plan.rollback.Die? then Crashed else Raised;
    }

    /** `_store_unlocked`. */
    method StoreEntry(entry: MemoryEntry, plan: Plan) returns (outcome: Outcome)
      modifies this
      ensures Step(State(), outcome) == StoreSpec(old(State()), entry, plan)
    {
      if !entry.HasValidName() || !plan.readable { return Raised; }
      ghost var before := State();
      var filename := entry.File();
      var previous := if filename in files then Some(files[filename]) else None;
      outcome := EnsureIndexFile(plan.create);
      if !outcome.Returned? { return; }
      var text := RenderIndexUpdate(entry.title, filename, entry.content, index.value);
      if text.None? || journal.Some? { return Raised; }
      if Applied(plan.journal) { journal := Some(Journal(StoreIntent, filename)); }
      if !plan.journal.Done? { return Failure(plan.journal); }
      ReplaceFile(filename, Stored(entry), plan.entry);
      if !plan.entry.Done? { return Failure(plan.entry); }
      outcome := PublishIndex(before, previous, filename, text.value, plan);
    }

    /** `_publish_entry_deletion_unlocked` behind the guards of its three callers. */
    method DeleteEntry(kind: DeleteKind, filename: string, plan: Plan) returns (outcome: Outcome)
      modifies this
      ensures Step(State(), outcome) == DeleteSpec(old(State()), kind, filename, plan)
    {
      if !IsEntryFilename(filename) || filename !in files || !plan.readable { return Returned(false); }
      if ComparisonRaises(kind, files[filename]) { return Raised; }
      if !DeletionAllowed(kind, files[filename]) { return Returned(false); }
      ghost var before := State();
      var previous := files[filename];
      outcome := EnsureIndexFile(plan.create);
      if outcome.Crashed? { return; }
      if outcome.Raised? { return if kind.Batch? then Raised else Returned(false); }
      if journal.Some? { return Raised; }
      if Applied(plan.journal) { journal := Some(Journal(DeleteIntent, filename)); }
      if !plan.journal.Done? { return Failure(plan.journal); }
      UnlinkFile(filename, plan.entry);
      if !plan.entry.Done? { return Failure(plan.entry); }
      var text := RenderIndexRemoval(index.value, filename);
      if text.None? { return Raised; }
      outcome := PublishIndex(before, Some(previous), filename, text.value, plan);
    }

    /** `_mutation_transaction` around one request. */
    method Execute(call: Call) returns (outcome: Outcome)
      modifies this
      ensures Step(State(), outcome) == Transaction(old(State()), call)
    {
      outcome := Recover(call.recovery);
      if !outcome.Returned? { return; }
      match call.request
      case Open => outcome := EnsureIndexFile(call.plan.create);
      case Store(entry) => outcome := StoreEntry(entry, call.plan);
      case Delete(kind, filename) => outcome := DeleteEntry(kind, filename, call.plan);
    }
  }
}
