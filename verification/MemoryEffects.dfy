/** What the operations of the memory store do when nothing fails, and what a failed index write undoes. */
module MemoryEffects {
  import opened Text
  import opened Wrappers
  import opened Faults
  import opened MemoryIndex
  import opened IndexRewrite
  import opened MemoryEntry
  import opened MemoryStore
  import opened MemorySafety
  import opened MemoryCompleteness
  import Json

  /** A whole call in which nothing fails; the file of the request may be unreadable. */
  function Calm(request: Request, readable: bool): Call {
    Call(request, NO_FAULTS, NO_FAULTS.(readable := readable))
  }

  /** Exactly this file is gone, no row targets it, every other row is still there. */
  ghost predicate Removed(d: Disk, d': Disk, filename: string) {
    && d'.files == d.files - {filename} && d'.journal.None?
    && (forall line :: line in IndexLines(d') ==> !Targets(line, filename))
    && (forall line :: line in IndexLines(d) && !Targets(line, filename) ==> line in IndexLines(d'))
  }

  lemma RemovalFits(text: string, filename: string)
    requires TextOK(text)
    ensures WithinLimit(RemovedText(text, filename)).Some?
  {
    if LineClosed(text) {
      RemovalNeverTooLarge(text, filename);
    } else {
      hide Utf8Length, SplitLines;
      TornHasNoRows(text);
      assert text + "" == text;
      assert !Targets(text + "", filename);
      KeepRowsAll([text], filename);
      assert RemovedText(text, filename) == text + "\n";
      Utf8LengthBound(text + "\n");
      assert |text| <= |HEADER|;
    }
  }

  lemma DeletionProceeds(d: Disk, kind: DeleteKind, filename: string)
    requires Inv(d) && d.journal.None? && IsEntryFilename(filename) && filename in d.files
    requires DeletionAllowed(kind, d.files[filename]) && !ComparisonRaises(kind, d.files[filename])
    ensures var step := DeleteSpec(d, kind, filename, NO_FAULTS); step.outcome == Returned(true) && Removed(d, step.disk, filename)
  {
    hide DeletionAllowed, ComparisonRaises, LineTarget, SplitLines, RemovedText, StartsWith, RowPrefix, Utf8Length, CloseLines, HEADER, IsEntryFilename;
    EnsureIndexKeepsInv(d, Created);
    HeaderOK();
    var text := EnsureIndex(d, Created).disk.index.value;
    RemovalFits(text, filename);
    RemovalEffect(text, filename);
    NotARow("");
  }

  lemma {:induction false} NoKeyLookup(metadata: seq<Json.Member>, key: string)
    ensures Json.Lookup(metadata, key).None? <==> forall m <- metadata :: m.key != key
  {
    if |metadata| > 0 {
      NoKeyLookup(metadata[1..], key);
      assert metadata == [metadata[0]] + metadata[1..];
    }
  }

  ghost predicate HoldsOrdinaryRecord(d: Disk, filename: string) {
    filename in d.files && d.files[filename].Stored? && forall m <- d.files[filename].entry.metadata :: m.key != "probe_cleanup_token"
  }

  /**
    `delete` on a settled directory in which nothing fails: it answers true and removes exactly that file and its rows if
    and only if the file is readable and holds a record without a cleanup token; otherwise it answers false and changes nothing.
  */
  lemma DeleteTakesEffectIff(d: Disk, filename: string, readable: bool)
    requires Inv(d) && d.journal.None?
    ensures var step := Transaction(d, Calm(Delete(Retention, filename), readable));
            if readable && HoldsOrdinaryRecord(d, filename)
            then step.outcome == Returned(true) && Removed(d, step.disk, filename)
            else step == Step(d, Returned(false))
  {
    hide Removed, Filename, IsEntryFilename;
    if filename in d.files && d.files[filename].Stored? {
      var entry := d.files[filename].entry;
      FilenameIsEntryFilename(entry.memoryType, entry.id);
      NoKeyLookup(entry.metadata, PROBE_TOKEN);
      if readable && HoldsOrdinaryRecord(d, filename) { DeletionProceeds(d, Retention, filename); }
    }
  }

  /** A probe record: its title carries the reserved prefix and its metadata this cleanup token. */
  ghost predicate HoldsProbe(d: Disk, filename: string, token: string) {
    && filename in d.files && d.files[filename].Stored?
    && var e := d.files[filename].entry;
       (exists rest :: e.title == ".test-local-integration-" + rest) && Json.Lookup(e.metadata, "probe_cleanup_token") == Some(Json.Str(token))
  }

  lemma PrefixIff(text: string, prefix: string)
    ensures StartsWith(text, prefix) <==> exists rest :: text == prefix + rest
  {
    if StartsWith(text, prefix) { assert text == prefix + text[|prefix|..]; }
    if rest :| text == prefix + rest { assert text[..|prefix|] == prefix; }
  }

  /**
    `delete_probe` likewise: it removes the file and its rows if and only if the file is readable and holds a probe with
    this token, the token being non-empty ASCII. It raises exactly when a probe's comparison meets text outside ASCII, and
    answers false otherwise; either way it changes nothing.
  */
  lemma ProbeDeleteTakesEffectIff(d: Disk, filename: string, token: string, readable: bool)
    requires Inv(d) && d.journal.None?
    ensures var step := Transaction(d, Calm(Delete(Probe(token), filename), readable));
            if readable && token != "" && IsAscii(token) && HoldsProbe(d, filename, token)
            then step.outcome == Returned(true) && Removed(d, step.disk, filename)
            else step.disk == d && step.outcome in {Returned(false), Raised}
    ensures Transaction(d, Calm(Delete(Probe(token), filename), readable)).outcome == Raised <==>
            readable && token != "" && exists stored :: stored != "" && HoldsProbe(d, filename, stored) && !(IsAscii(token) && IsAscii(stored))
  {
    hide Removed, Filename, IsEntryFilename, IsAscii, StartsWith;
    if filename in d.files && d.files[filename].Stored? {
      var entry := d.files[filename].entry;
      FilenameIsEntryFilename(entry.memoryType, entry.id);
      PrefixIff(entry.title, PROBE_TITLE_PREFIX);
      var stored := entry.ProbeToken();
      assert StartsWith(entry.title, PROBE_TITLE_PREFIX) && stored != "" ==> HoldsProbe(d, filename, stored);
      if readable && token != "" && IsAscii(token) && HoldsProbe(d, filename, token) { DeletionProceeds(d, Probe(token), filename); }
    }
  }

  // ---- Storing ----

  /** The index text a store works on. */
  function TextFor(d: Disk): string {
    if d.index.Some? then d.index.value else HEADER
  }

  /**
    `store` on a settled directory in which nothing fails: it succeeds if and only if the record has a valid name and the
    new index text fits. Then exactly that file holds the record, no journal is left, and, unless the header is torn, the
    record is listed and the rows of other titles and files stay. Otherwise it raises and no file changes.
  */
  lemma StoreTakesEffectIff(d: Disk, entry: MemoryEntry)
    requires Inv(d) && d.journal.None?
    ensures var step := Transaction(d, Calm(Store(entry), true));
            var fits := Utf8Length(UpdatedText(entry.title, entry.File(), entry.content, TextFor(d))) <= MAX_INDEX_BYTES;
            if entry.HasValidName() && fits then
              && step.outcome == Returned(true) && step.disk.files == d.files[entry.File() := Stored(entry)] && step.disk.journal.None?
              && (LineClosed(TextFor(d)) ==> HasRow(IndexLines(step.disk), entry.title, entry.File())
                                             && RowsSurvive(SplitLines(TextFor(d)), IndexLines(step.disk), entry.File(), entry.title))
            else step.outcome == Raised && step.disk.files == d.files && step.disk.journal.None?
  {
    hide Row, LineTarget, SplitLines, UpdatedText, StartsWith, RowPrefix, Utf8Length, Filename, HEADER, RowsSurvive;
    if entry.HasValidName() {
      FilenameIsEntryFilename(entry.memoryType, entry.id);
      if LineClosed(TextFor(d)) { UpdateSurvival(entry.title, entry.File(), entry.content, TextFor(d)); }
    }
  }

  // ---- Recovery and rollback ----

  /** Recovery in which nothing fails completes if and only if the row it has to write fits. */
  lemma RecoveryCompletesIff(d: Disk)
    requires Inv(d) && d.journal.Some?
    ensures var filename := d.journal.value.filename;
            RecoverSpec(d, NO_FAULTS).outcome.Returned? <==>
            (filename in d.files && d.files[filename].Stored? ==>
               Utf8Length(UpdatedText(d.files[filename].entry.title, filename, d.files[filename].entry.content, TextFor(d))) <= MAX_INDEX_BYTES)
  {
    hide LineTarget, SplitLines, UpdatedText, RemovedText, StartsWith, RowPrefix, Utf8Length, HEADER;
    HeaderOK();
    RemovalFits(TextFor(d), d.journal.value.filename);
  }

  /** An index write that raises and is rolled back leaves every entry file as it was, whatever the request. */
  lemma RolledBackMutationKeepsFiles(d: Disk, request: Request, plan: Plan)
    requires Inv(d) && plan.entry.Done? && plan.index.Raise? && plan.rollback.Done?
    ensures Body(d, request, plan).disk.files == d.files
    ensures Body(d, request, plan).outcome != Returned(true)
  {
    hide Row, LineTarget, SplitLines, UpdatedText, RemovedText, StartsWith, RowPrefix, Utf8Length, HEADER, IsEntryFilename, Filename;
    match request
    case Open =>
    case Store(entry) =>
      var filename := entry.File();
      if filename in d.files { assert d.files[filename := Stored(entry)][filename := d.files[filename]] == d.files; }
      if filename !in d.files { assert d.files[filename := Stored(entry)] - {filename} == d.files; }
    case Delete(_, filename) =>
      EnsureIndexKeepsInv(d, plan.create);
      var ready := EnsureIndex(d, plan.create).disk;
      if ready.index.Some? { RemovalFits(ready.index.value, filename); }
      if filename in d.files { assert (d.files - {filename})[filename := d.files[filename]] == d.files; }
  }
}
