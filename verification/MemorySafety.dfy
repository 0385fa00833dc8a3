/** What every history of calls, failures and crashes keeps true of the memory directory. */
module MemorySafety {
  import opened Text
  import opened Wrappers
  import opened Faults
  import opened MemoryIndex
  import opened IndexRewrite
  import opened MemoryEntry
  import opened MemoryStore

  function IndexLines(d: Disk): seq<string> {
    if d.index.None? then [] else SplitLines(d.index.value)
  }

  /** The file an interrupted mutation left open, if any. */
  function Pending(d: Disk): Option<string> {
    if d.journal.None? then None else Some(d.journal.value.filename)
  }

  /** No dangling row, and no row under a stale title: each row for a settled file has that file and its title. */
  ghost predicate RowsOK(lines: seq<string>, files: map<string, FileState>, exempt: Option<string>) {
    forall line, f :: line in lines && Targets(line, f) && exempt != Some(f) ==>
      f in files && (files[f].Stored? ==> StartsWith(line, RowPrefix(files[f].entry.title)))
  }

  /** The converse: each settled entry file has a row. */
  ghost predicate RowsComplete(lines: seq<string>, files: map<string, FileState>, exempt: Option<string>) {
    forall f :: f in files && files[f].Stored? && exempt != Some(f) ==> HasRow(lines, files[f].entry.title, f)
  }

  ghost predicate HasRow(lines: seq<string>, title: string, filename: string) {
    exists line :: line in lines && IsRowFor(line, title, filename)
  }

  /** The header creation was cut inside its first line. */
  ghost predicate Torn(text: string) {
    text != "" && NoBreak(text) && StartsWith(HEADER, text)
  }

  ghost predicate TextOK(text: string) {
    (LineClosed(text) || Torn(text)) && Utf8Length(text) <= MAX_INDEX_BYTES
  }

  ghost predicate FilesNamed(files: map<string, FileState>) {
    forall f :: f in files && files[f].Stored? ==> files[f].entry.HasValidName() && files[f].entry.File() == f
  }

  ghost predicate Inv(d: Disk) {
    && (d.index.Some? ==> TextOK(d.index.value))
    && (d.journal.Some? ==> IsEntryFilename(d.journal.value.filename))
    && FilesNamed(d.files)
    && RowsOK(IndexLines(d), d.files, Pending(d))
  }

  // ---- One rewrite of the index text ----

  /** Rows for every other file come from the old text. */
  ghost predicate OthersKept(lines: seq<string>, lines': seq<string>, filename: string) {
    forall line, g :: line in lines' && Targets(line, g) && g != filename ==> line in lines
  }

  lemma TornHasNoRows(text: string)
    requires Torn(text)
    ensures SplitLines(text) == [text] && SplitLF(text) == [text]
    ensures forall f, more :: !Targets(text + more, f)
    ensures forall title, f :: !Matches(text, title, f)
  {
    ContentLengthAll(text);
    assert text[|text|..] == "";
    SplitLFSingle(text);
    HeaderNoBreak();
    assert text[0] == HEADER[0] == '#';
    forall f, more ensures !Targets(text + more, f) {
      assert (text + more)[0] == '#';
      assert !StartsWith(text + more, "- [");
    }
    assert text + "" == text;
    forall title, f ensures !Matches(text, title, f) {
      assert RowPrefix(title)[0] == '-';
      assert !Targets(text + "", f);
    }
  }

  lemma {:induction false} ContentLengthAll(text: string)
    requires NoBreak(text)
    ensures ContentLength(text) == |text|
  {
    if text != "" {
      assert text[0] in text;
      ContentLengthAll(text[1..]);
    }
  }

  lemma {:induction false} SplitLFSingle(text: string)
    requires NoBreak(text)
    ensures SplitLF(text) == [text]
  {
    if text != "" {
      assert text[0] in text && IsLineBreak('\n');
      SplitLFSingle(text[1..]);
      assert [text[0]] + text[1..] == text;
    }
  }

  lemma UpdateEffect(title: string, filename: string, content: string, text: string)
    requires IsEntryFilename(filename) && (LineClosed(text) || Torn(text))
    ensures var text' := UpdatedText(title, filename, content, text);
            var lines, lines' := SplitLines(text), SplitLines(text');
            && LineClosed(text')
            && OthersKept(lines, lines', filename)
            && (forall line :: line in lines' && Targets(line, filename) ==> StartsWith(line, RowPrefix(title)))
  {
    var lines := SplitLines(text);
    var row := Row(title, filename, content);
    if LineClosed(text) {
      UpdateRefinesLines(title, filename, content, text);
      UpdateInstallsRow(lines, title, filename, content);
      var lines' := UpdatedLines(lines, title, filename, content);
      forall line, g | line in lines' && Targets(line, g) && g != filename ensures line in lines {
        assert !Matches(line, title, filename);
        UpdateKeepsUnrelatedRows(lines, title, filename, content, line);
      }
    } else {
      TornHasNoRows(text);
      RowNoBreak(title, filename, content);
      assert UpdatedText(title, filename, content, text) == CloseLines([text + row]);
      ClosedIsLineClosed([text + row]);
    }
  }

  lemma RemovalEffect(text: string, filename: string)
    requires LineClosed(text) || Torn(text)
    ensures var text' := RemovedText(text, filename);
            var lines, lines' := SplitLines(text), SplitLines(text');
            && LineClosed(text')
            && (forall line :: line in lines' && line != "" ==> line in lines && !Targets(line, filename))
            && (forall line :: line in lines && !Targets(line, filename) ==> line in lines')
  {
    var lines := SplitLines(text);
    KeepRowsMembers(lines, filename);
    if LineClosed(text) {
      RemovalRefinesLines(text, filename);
    } else {
      TornHasNoRows(text);
      assert text + "" == text;
      assert !Targets(text + "", filename);
      assert KeepRows(lines, filename) == [text] by { KeepRowsAll(lines, filename); }
      JoinClosedByLF([text]);
      ClosedIsLineClosed([text]);
    }
  }

  lemma RowsFrame(lines: seq<string>, lines': seq<string>, files: map<string, FileState>, files': map<string, FileState>, filename: string)
    requires RowsOK(lines, files, None) || RowsOK(lines, files, Some(filename))
    requires OthersKept(lines, lines', filename)
    requires files - {filename} == files' - {filename}
    ensures RowsOK(lines', files', Some(filename))
  {
    forall line, f | line in lines' && Targets(line, f) && Some(filename) != Some(f)
      ensures f in files' && (files'[f].Stored? ==> StartsWith(line, RowPrefix(files'[f].entry.title)))
    {
      assert line in lines;
      assert f in files - {filename};
      assert files[f] == (files - {filename})[f] == (files' - {filename})[f] == files'[f];
    }
  }

  // ---- Every step, whatever fails ----

  lemma HeaderOK()
    ensures LineClosed(HEADER) && SplitLines(HEADER) == [HEADER_LINE, ""] && Utf8Length(HEADER) <= MAX_INDEX_BYTES
    ensures forall f :: !Targets(HEADER_LINE, f) && !Targets("", f)
  {
    hide Utf8Length, SplitLines, LineTarget, ContentLength, LineLength;
    Utf8LengthBound(HEADER);
    HeaderClosed();
    ClosedIsLineClosed([HEADER_LINE, ""]);
    NotARow(HEADER_LINE);
    NotARow("");
  }

  lemma NotARow(line: string)
    requires line == "" || line[0] != '-'
    ensures forall f :: !Targets(line, f)
    ensures forall title, f :: !Matches(line, title, f)
  {
    forall title, f ensures !Matches(line, title, f) {
      assert RowPrefix(title)[0] == '-';
    }
  }

  lemma HeaderClosed()
    ensures CloseLines([HEADER_LINE, ""]) == HEADER && NoBreak(HEADER_LINE)
  {
    hide HEADER_LINE;
    var lines := [HEADER_LINE, ""];
    assert lines[1..] == [""];
    assert CloseLines([""]) == "\n";
    assert (HEADER_LINE + "\n") + "\n" == HEADER_LINE + "\n\n";
    HeaderNoBreak();
  }

  lemma HeaderNoBreak()
    ensures NoBreak(HEADER_LINE) && |HEADER_LINE| == 14 && HEADER_LINE[0] == '#'
  {
  }

  /** A cut header holds no rows, and it is a sound base for appending unless it was cut inside its first line. */
  lemma TornHeaderOK(kept: nat)
    ensures var text := Take(HEADER, kept); TextOK(text) && RowsOK(SplitLines(text), map[], None)
    ensures LineClosed(Take(HEADER, kept)) <==> kept == 0 || kept > |HEADER_LINE|
  {
    hide Utf8Length, LineTarget, ContentLength, LineLength, HEADER_LINE;
    var text := Take(HEADER, kept);
    Utf8LengthBound(text);
    HeaderNoBreak();
    NotARow(HEADER_LINE);
    NotARow("");
    if kept == 0 {
      assert text == CloseLines([]);
      ClosedIsLineClosed([]);
    } else if kept <= |HEADER_LINE| {
      assert text == HEADER_LINE[..kept];
      assert StartsWith(HEADER, text);
      TornHasNoRows(text);
      NotARow(text);
      assert CloseLines([text]) == text + "\n";
    } else if kept == |HEADER_LINE| + 1 {
      assert text == HEADER_LINE + "\n";
      assert text == CloseLines([HEADER_LINE]);
      ClosedIsLineClosed([HEADER_LINE]);
    } else {
      assert text == HEADER;
      HeaderOK();
    }
  }

  lemma EnsureIndexKeepsInv(d: Disk, create: Creation)
    requires Inv(d)
    ensures var s := EnsureIndex(d, create); Inv(s.disk) && s.disk.files == d.files && s.disk.journal == d.journal
    ensures EnsureIndex(d, create).outcome.Returned? ==> EnsureIndex(d, create).disk.index.Some?
  {
    hide LineTarget, SplitLines, UpdatedText, RemovedText, StartsWith, RowPrefix, Utf8Length, CloseLines;
    HeaderOK();
    if d.index.None? {
      match create
      case Created =>
      case RaiseCreate(kept) => if kept.Some? { TornHeaderOK(kept.value); }
      case DieCreate(kept) => if kept.Some? { TornHeaderOK(kept.value); }
    }
  }

  /** While `filename` is journalled, its own file and rows may be in any state; everything else is settled. */
  lemma PendingInv(d: Disk, d': Disk, filename: string)
    requires Inv(d) && Pending(d) in {None, Some(filename)}
    requires IsEntryFilename(filename) && Pending(d') == Some(filename)
    requires d'.files - {filename} == d.files - {filename} && FilesNamed(d'.files)
    requires d'.index.Some? && TextOK(d'.index.value)
    requires OthersKept(IndexLines(d), IndexLines(d'), filename)
    ensures Inv(d')
  {
    RowsFrame(IndexLines(d), IndexLines(d'), d.files, d'.files, filename);
  }

  /** Clearing the journal is sound once the journalled file and its rows agree. */
  lemma SettledInv(d: Disk, filename: string)
    requires Inv(d) && Pending(d) == Some(filename)
    requires forall line :: line in IndexLines(d) && Targets(line, filename) ==>
               filename in d.files && (d.files[filename].Stored? ==> StartsWith(line, RowPrefix(d.files[filename].entry.title)))
    ensures Inv(d.(journal := None))
  {
  }

  lemma RecoveredTextEffect(files: map<string, FileState>, filename: string, text: string)
    requires IsEntryFilename(filename) && TextOK(text) && RecoveredText(files, filename, text).Some?
    ensures var text' := RecoveredText(files, filename, text).value;
            var lines, lines' := SplitLines(text), SplitLines(text');
            && TextOK(text')
            && OthersKept(lines, lines', filename)
            && (filename !in files ==> forall line :: line in lines' ==> !Targets(line, filename))
            && (filename in files && files[filename].Stored? ==>
                forall line :: line in lines' && Targets(line, filename) ==> StartsWith(line, RowPrefix(files[filename].entry.title)))
  {
    if filename !in files {
      RemovalEffect(text, filename);
      NotARow("");
    } else if files[filename].Stored? {
      UpdateEffect(files[filename].entry.title, filename, files[filename].entry.content, text);
    }
  }

  lemma RecoverKeepsInv(d: Disk, plan: Plan)
    requires Inv(d)
    ensures var s := RecoverSpec(d, plan); Inv(s.disk) && s.disk.files == d.files
    ensures RecoverSpec(d, plan).outcome.Returned? ==> RecoverSpec(d, plan).disk.journal.None?
  {
    hide LineTarget, SplitLines, UpdatedText, RemovedText, StartsWith, RowPrefix, Utf8Length, CloseLines;
    EnsureIndexKeepsInv(d, plan.create);
    if d.journal.Some? && plan.readable {
      var filename := d.journal.value.filename;
      var ready := EnsureIndex(d, plan.create).disk;
      if EnsureIndex(d, plan.create).outcome.Returned? {
        var text := ready.index.value;
        if RecoveredText(d.files, filename, text).Some? {
          var text' := RecoveredText(d.files, filename, text).value;
          RecoveredTextEffect(d.files, filename, text);
          PendingInv(ready, ready.(index := Some(text')), filename);
          SettledInv(ready.(index := Some(text')), filename);
        }
      }
    }
  }

  /** Raising or dying at the index write, rolling back, and clearing the journal are all covered here. */
  lemma FinishKeepsInv(d: Disk, before: Disk, filename: string, text: string, plan: Plan)
    requires Inv(d) && Pending(d) == Some(filename) && IsEntryFilename(filename) && d.index.Some?
    requires FilesNamed(before.files) && before.files - {filename} == d.files - {filename}
    requires TextOK(text) && OthersKept(IndexLines(d), SplitLines(text), filename)
    requires forall line :: line in SplitLines(text) && Targets(line, filename) ==>
               filename in d.files && (d.files[filename].Stored? ==> StartsWith(line, RowPrefix(d.files[filename].entry.title)))
    ensures Inv(FinishIndexWrite(d, before, filename, text, plan).disk)
  {
    hide LineTarget, SplitLines, UpdatedText, RemovedText, StartsWith, RowPrefix, Utf8Length, CloseLines;
    var written := WriteIndex(d, text, plan.index);
    PendingInv(d, written, filename);
    match plan.index
    case Done => SettledInv(written, filename);
    case Die(_) =>
    case Raise(_) =>
      var restored := Restore(written, before, filename, plan.rollback);
      assert restored.files - {filename} == d.files - {filename};
      PendingInv(d, restored, filename);
  }

  lemma StoreKeepsInv(d: Disk, entry: MemoryEntry, plan: Plan)
    requires Inv(d)
    ensures Inv(StoreSpec(d, entry, plan).disk)
  {
    hide LineTarget, SplitLines, UpdatedText, RemovedText, StartsWith, RowPrefix, Utf8Length, CloseLines;
    EnsureIndexKeepsInv(d, plan.create);
    if entry.HasValidName() && plan.readable && EnsureIndex(d, plan.create).outcome.Returned? {
      var filename := entry.File();
      FilenameIsEntryFilename(entry.memoryType, entry.id);
      var ready := EnsureIndex(d, plan.create).disk;
      var text := UpdatedText(entry.title, filename, entry.content, ready.index.value);
      if ready.journal.None? && WithinLimit(text).Some? {
        UpdateEffect(entry.title, filename, entry.content, ready.index.value);
        var journalled := ready.(journal := Some(Journal(StoreIntent, filename)));
        PendingInv(ready, journalled, filename);
        var installed := journalled.(files := d.files[filename := Stored(entry)]);
        assert installed.files - {filename} == d.files - {filename};
        PendingInv(ready, installed, filename);
        if plan.journal.Done? && plan.entry.Done? {
          FinishKeepsInv(installed, d, filename, text, plan);
        }
      }
    }
  }

  lemma DeleteKeepsInv(d: Disk, kind: DeleteKind, filename: string, plan: Plan)
    requires Inv(d)
    ensures Inv(DeleteSpec(d, kind, filename, plan).disk)
  {
    hide LineTarget, SplitLines, UpdatedText, RemovedText, StartsWith, RowPrefix, Utf8Length, CloseLines;
    EnsureIndexKeepsInv(d, plan.create);
    if IsEntryFilename(filename) && filename in d.files && EnsureIndex(d, plan.create).outcome.Returned? {
      var ready := EnsureIndex(d, plan.create).disk;
      if ready.journal.None? {
        var text := RemovedText(ready.index.value, filename);
        RemovalEffect(ready.index.value, filename);
        NotARow("");
        var journalled := ready.(journal := Some(Journal(DeleteIntent, filename)));
        PendingInv(ready, journalled, filename);
        var removed := journalled.(files := d.files - {filename});
        assert removed.files - {filename} == d.files - {filename};
        PendingInv(ready, removed, filename);
        if plan.journal.Done? && plan.entry.Done? && WithinLimit(text).Some? {
          FinishKeepsInv(removed, d, filename, text, plan);
        }
      }
    }
  }

  lemma TransactionKeepsInv(d: Disk, call: Call)
    requires Inv(d)
    ensures Inv(Transaction(d, call).disk)
  {
    RecoverKeepsInv(d, call.recovery);
    var recovered := RecoverSpec(d, call.recovery);
    if recovered.outcome.Returned? {
      match call.request
      case Open => EnsureIndexKeepsInv(recovered.disk, call.plan.create);
      case Store(entry) => StoreKeepsInv(recovered.disk, entry, call.plan);
      case Delete(kind, filename) => DeleteKeepsInv(recovered.disk, kind, filename, call.plan);
    }
  }

  /**
    Safety over whole histories: from any consistent directory, after any calls with any failures and
    crashes, every row whose file is not the journalled one has its entry file, under its live title.
  */
  lemma {:induction false} RunKeepsInv(d: Disk, calls: seq<Call>)
    requires Inv(d)
    ensures Inv(Run(d, calls))
    decreases |calls|
  {
    if |calls| > 0 {
      TransactionKeepsInv(d, calls[0]);
      RunKeepsInv(Transaction(d, calls[0]).disk, calls[1..]);
    }
  }

  lemma NoDanglingRow(calls: seq<Call>, line: string, filename: string)
    ensures var d := Run(EMPTY_DISK, calls);
            line in IndexLines(d) && Targets(line, filename) && Pending(d) != Some(filename) ==> filename in d.files
  {
    RunKeepsInv(EMPTY_DISK, calls);
  }
}
