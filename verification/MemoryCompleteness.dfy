/** When every settled entry has a row, and exactly where that promise stops. */
module MemoryCompleteness {
  import opened Text
  import opened Wrappers
  import opened Faults
  import opened MemoryIndex
  import opened IndexRewrite
  import opened MemoryEntry
  import opened MemoryStore
  import opened MemorySafety

  /** No other live entry carries this title. */
  ghost predicate FreshTitle(files: map<string, FileState>, filename: string, title: string) {
    forall g :: g in files && files[g].Stored? && g != filename ==> files[g].entry.title != title
  }

  ghost predicate DistinctTitles(files: map<string, FileState>) {
    forall f :: f in files && files[f].Stored? ==> FreshTitle(files, f, files[f].entry.title)
  }

  /** The index creation was not cut inside the header's first line. */
  predicate Untorn(create: Creation) {
    match create
    case Created => true
    case RaiseCreate(kept) => kept == None || kept.value == 0 || kept.value > |HEADER_LINE|
    case DieCreate(kept) => kept == None || kept.value == 0 || kept.value > |HEADER_LINE|
  }

  /** Consistent in both directions: rows have files, entries have rows, titles are distinct. */
  ghost predicate Good(d: Disk) {
    && Inv(d)
    && (d.index.Some? ==> LineClosed(d.index.value))
    && DistinctTitles(d.files)
    && RowsComplete(IndexLines(d), d.files, Pending(d))
  }

  // ---- Rows of other entries survive a rewrite ----

  ghost predicate RowsSurvive(lines: seq<string>, lines': seq<string>, filename: string, title: string) {
    forall t, g :: g != filename && t != title && HasRow(lines, t, g) ==> HasRow(lines', t, g)
  }

  lemma UpdateSurvival(title: string, filename: string, content: string, text: string)
    requires IsEntryFilename(filename) && LineClosed(text)
    ensures var lines' := SplitLines(UpdatedText(title, filename, content, text));
            RowsSurvive(SplitLines(text), lines', filename, title) && HasRow(lines', title, filename)
  {
    hide Row, RowPrefix, UpdatedText, SplitLines, LineTarget, Strip, StartsWith;
    var lines := SplitLines(text);
    UpdateRefinesLines(title, filename, content, text);
    UpdateInstallsRow(lines, title, filename, content);
    var lines' := UpdatedLines(lines, title, filename, content);
    forall t, g | g != filename && t != title && HasRow(lines, t, g) ensures HasRow(lines', t, g) {
      var line :| line in lines && IsRowFor(line, t, g);
      if StartsWith(line, RowPrefix(title)) { PrefixDeterminesTitle(line, t, title); }
      UpdateKeepsUnrelatedRows(lines, title, filename, content, line);
    }
  }

  lemma RemovalSurvival(filename: string, text: string)
    requires LineClosed(text)
    ensures var lines, lines' := SplitLines(text), SplitLines(RemovedText(text, filename));
            forall t, g :: g != filename && HasRow(lines, t, g) ==> HasRow(lines', t, g)
  {
    hide RowPrefix, RemovedText, SplitLines, LineTarget, StartsWith;
    RemovalEffect(text, filename);
    var lines, lines' := SplitLines(text), SplitLines(RemovedText(text, filename));
    forall t, g | g != filename && HasRow(lines, t, g) ensures HasRow(lines', t, g) {
      var line :| line in lines && IsRowFor(line, t, g);
      assert !Targets(line, filename);
      assert line in lines';
    }
  }

  lemma CreationKeepsGood(d: Disk, create: Creation)
    requires Good(d) && Untorn(create)
    ensures Good(EnsureIndex(d, create).disk)
  {
    hide LineTarget, SplitLines, StartsWith, RowPrefix, Utf8Length, CloseLines;
    EnsureIndexKeepsInv(d, create);
    HeaderOK();
    if d.index.None? {
      match create
      case Created =>
      case RaiseCreate(kept) => if kept.Some? { TornHeaderOK(kept.value); }
      case DieCreate(kept) => if kept.Some? { TornHeaderOK(kept.value); }
      assert forall t, f :: !HasRow(IndexLines(d), t, f);
    }
  }

  /** While `filename` is journalled only the other entries' rows matter. */
  lemma PendingGood(d: Disk, d': Disk, filename: string)
    requires Good(d) && Pending(d) in {None, Some(filename)}
    requires Inv(d') && Pending(d') == Some(filename)
    requires d'.files - {filename} == d.files - {filename} && DistinctTitles(d'.files)
    requires d'.index.Some? && LineClosed(d'.index.value)
    requires forall g :: g in d.files && d.files[g].Stored? && g != filename && HasRow(IndexLines(d), d.files[g].entry.title, g)
               ==> HasRow(IndexLines(d'), d.files[g].entry.title, g)
    ensures Good(d')
  {
    hide LineTarget, SplitLines, StartsWith, RowPrefix, CloseLines;
    forall g | g in d'.files && d'.files[g].Stored? && Pending(d') != Some(g)
      ensures HasRow(IndexLines(d'), d'.files[g].entry.title, g)
    {
      assert g in d'.files - {filename} && d'.files[g] == (d'.files - {filename})[g] == (d.files - {filename})[g] == d.files[g];
    }
  }

  lemma SettledGood(d: Disk, filename: string)
    requires Good(d) && Pending(d) == Some(filename)
    requires Inv(d.(journal := None))
    requires filename in d.files && d.files[filename].Stored? ==> HasRow(IndexLines(d), d.files[filename].entry.title, filename)
    ensures Good(d.(journal := None))
  {
  }

  lemma RecoverKeepsGood(d: Disk, plan: Plan)
    requires Good(d) && Untorn(plan.create)
    ensures Good(RecoverSpec(d, plan).disk)
  {
    hide LineTarget, SplitLines, UpdatedText, RemovedText, StartsWith, RowPrefix, Utf8Length, CloseLines;
    RecoverKeepsInv(d, plan);
    CreationKeepsGood(d, plan.create);
    EnsureIndexKeepsInv(d, plan.create);
    if d.journal.Some? && plan.readable && EnsureIndex(d, plan.create).outcome.Returned? {
      var filename := d.journal.value.filename;
      var ready := EnsureIndex(d, plan.create).disk;
      var text := ready.index.value;
      if RecoveredText(d.files, filename, text).Some? {
        var text' := RecoveredText(d.files, filename, text).value;
        var written := ready.(index := Some(text'));
        RecoveredTextEffect(d.files, filename, text);
        if filename !in d.files {
          RemovalSurvival(filename, text);
          RemovalEffect(text, filename);
        } else if d.files[filename].Stored? {
          UpdateSurvival(d.files[filename].entry.title, filename, d.files[filename].entry.content, text);
          UpdateEffect(d.files[filename].entry.title, filename, d.files[filename].entry.content, text);
        }
        PendingInv(ready, written, filename);
        PendingGood(ready, written, filename);
        SettledInv(written, filename);
        SettledGood(written, filename);
      }
    }
  }

  lemma FinishKeepsGood(d: Disk, before: Disk, filename: string, text: string, plan: Plan)
    requires Good(d) && Pending(d) == Some(filename) && IsEntryFilename(filename) && d.index.Some?
    requires FilesNamed(before.files) && before.files - {filename} == d.files - {filename} && DistinctTitles(before.files)
    requires TextOK(text) && LineClosed(text) && OthersKept(IndexLines(d), SplitLines(text), filename)
    requires forall line :: line in SplitLines(text) && Targets(line, filename) ==>
               filename in d.files && (d.files[filename].Stored? ==> StartsWith(line, RowPrefix(d.files[filename].entry.title)))
    requires forall g :: g in d.files && d.files[g].Stored? && g != filename && HasRow(IndexLines(d), d.files[g].entry.title, g)
               ==> HasRow(SplitLines(text), d.files[g].entry.title, g)
    requires filename in d.files && d.files[filename].Stored? ==> HasRow(SplitLines(text), d.files[filename].entry.title, filename)
    ensures Good(FinishIndexWrite(d, before, filename, text, plan).disk)
  {
    hide LineTarget, SplitLines, StartsWith, RowPrefix, Utf8Length, CloseLines;
    FinishKeepsInv(d, before, filename, text, plan);
    var written := WriteIndex(d, text, plan.index);
    PendingInv(d, written, filename);
    PendingGood(d, written, filename);
    match plan.index
    case Done => SettledInv(written, filename); SettledGood(written, filename);
    case Die(_) =>
    case Raise(_) =>
      var restored := Restore(written, before, filename, plan.rollback);
      assert restored.files - {filename} == d.files - {filename};
      PendingInv(d, restored, filename);
      if Applied(plan.rollback) {
        if filename in before.files {
          assert restored.files == before.files by { MapsAgree(restored.files, before.files, filename); }
        } else {
          assert restored.files == before.files by { MapsAgree(restored.files, before.files, filename); }
        }
      }
      PendingGood(d, restored, filename);
  }

  lemma MapsAgree(a: map<string, FileState>, b: map<string, FileState>, key: string)
    requires a - {key} == b - {key}
    requires (key in a <==> key in b) && (key in a ==> a[key] == b[key])
    ensures a == b
  {
    forall k ensures (k in a <==> k in b) && (k in a ==> a[k] == b[k]) {
      if k != key {
        assert k in a <==> k in a - {key};
        assert k in b <==> k in b - {key};
        if k in a { assert a[k] == (a - {key})[k] == (b - {key})[k] == b[k]; }
      }
    }
  }

  lemma StoreKeepsGood(d: Disk, entry: MemoryEntry, plan: Plan)
    requires Good(d) && Untorn(plan.create)
    requires FreshTitle(d.files, entry.File(), entry.title)
    ensures Good(StoreSpec(d, entry, plan).disk)
  {
    hide LineTarget, SplitLines, UpdatedText, RemovedText, StartsWith, RowPrefix, Utf8Length, CloseLines, Filename;
    StoreKeepsInv(d, entry, plan);
    CreationKeepsGood(d, plan.create);
    EnsureIndexKeepsInv(d, plan.create);
    if entry.HasValidName() && plan.readable && EnsureIndex(d, plan.create).outcome.Returned? {
      var filename := entry.File();
      FilenameIsEntryFilename(entry.memoryType, entry.id);
      var ready := EnsureIndex(d, plan.create).disk;
      var text := UpdatedText(entry.title, filename, entry.content, ready.index.value);
      if ready.journal.None? && WithinLimit(text).Some? {
        UpdateEffect(entry.title, filename, entry.content, ready.index.value);
        UpdateSurvival(entry.title, filename, entry.content, ready.index.value);
        var journalled := ready.(journal := Some(Journal(StoreIntent, filename)));
        PendingInv(ready, journalled, filename);
        PendingGood(ready, journalled, filename);
        var installed := journalled.(files := d.files[filename := Stored(entry)]);
        assert installed.files - {filename} == d.files - {filename};
        PendingInv(ready, installed, filename);
        PendingGood(ready, installed, filename);
        if plan.journal.Done? && plan.entry.Done? {
          FinishKeepsGood(installed, d, filename, text, plan);
        }
      }
    }
  }

  lemma DeleteKeepsGood(d: Disk, kind: DeleteKind, filename: string, plan: Plan)
    requires Good(d) && Untorn(plan.create)
    ensures Good(DeleteSpec(d, kind, filename, plan).disk)
  {
    hide LineTarget, SplitLines, UpdatedText, RemovedText, StartsWith, RowPrefix, Utf8Length, CloseLines;
    DeleteKeepsInv(d, kind, filename, plan);
    CreationKeepsGood(d, plan.create);
    EnsureIndexKeepsInv(d, plan.create);
    if IsEntryFilename(filename) && filename in d.files && EnsureIndex(d, plan.create).outcome.Returned? {
      var ready := EnsureIndex(d, plan.create).disk;
      if ready.journal.None? {
        var text := RemovedText(ready.index.value, filename);
        RemovalEffect(ready.index.value, filename);
        RemovalSurvival(filename, ready.index.value);
        NotARow("");
        var journalled := ready.(journal := Some(Journal(DeleteIntent, filename)));
        PendingInv(ready, journalled, filename);
        PendingGood(ready, journalled, filename);
        var removed := journalled.(files := d.files - {filename});
        assert removed.files - {filename} == d.files - {filename};
        PendingInv(ready, removed, filename);
        PendingGood(ready, removed, filename);
        if plan.journal.Done? && plan.entry.Done? && WithinLimit(text).Some? {
          FinishKeepsGood(removed, d, filename, text, plan);
        }
      }
    }
  }

  /** The environment of a call: any failures, but no creation cut inside the header line and no store under a live title. */
  ghost predicate Admissible(d: Disk, call: Call) {
    && Untorn(call.recovery.create) && Untorn(call.plan.create)
    && (call.request.Store? ==> FreshTitle(d.files, call.request.entry.File(), call.request.entry.title))
  }

  ghost predicate AdmissibleRun(d: Disk, calls: seq<Call>)
    decreases |calls|
  {
    |calls| > 0 ==> Admissible(d, calls[0]) && AdmissibleRun(Transaction(d, calls[0]).disk, calls[1..])
  }

  /** With distinct live titles the index is complete after every history, whatever fails or crashes. */
  lemma {:induction false} RunKeepsGood(d: Disk, calls: seq<Call>)
    requires Good(d) && AdmissibleRun(d, calls)
    ensures Good(Run(d, calls))
    decreases |calls|
  {
    if |calls| > 0 {
      var call := calls[0];
      RecoverKeepsGood(d, call.recovery);
      RecoverKeepsInv(d, call.recovery);
      var recovered := RecoverSpec(d, call.recovery);
      if recovered.outcome.Returned? {
        match call.request
        case Open => CreationKeepsGood(recovered.disk, call.plan.create);
        case Store(entry) => StoreKeepsGood(recovered.disk, entry, call.plan);
        case Delete(kind, filename) => DeleteKeepsGood(recovered.disk, kind, filename, call.plan);
      }
      RunKeepsGood(Transaction(d, call).disk, calls[1..]);
    }
  }

  /** From an empty directory, every settled entry file has its row. */
  lemma EverySettledFileHasRow(calls: seq<Call>, filename: string)
    requires AdmissibleRun(EMPTY_DISK, calls)
    ensures var d := Run(EMPTY_DISK, calls);
            filename in d.files && d.files[filename].Stored? && Pending(d) != Some(filename) ==>
              HasRow(IndexLines(d), d.files[filename].entry.title, filename)
  {
    RunKeepsGood(EMPTY_DISK, calls);
  }

  /** Any number of recovery attempts, each possibly cut short, then one that completes. */
  function Attempts(d: Disk, plans: seq<Plan>): Disk
    decreases |plans|
  {
    if |plans| == 0 then d else Attempts(RecoverSpec(d, plans[0]).disk, plans[1..])
  }

  lemma {:induction false} AttemptsKeep(d: Disk, plans: seq<Plan>)
    requires Inv(d)
    ensures Inv(Attempts(d, plans)) && Attempts(d, plans).files == d.files
    ensures Good(d) && (forall p <- plans :: Untorn(p.create)) ==> Good(Attempts(d, plans))
    decreases |plans|
  {
    if |plans| > 0 {
      RecoverKeepsInv(d, plans[0]);
      if Good(d) && forall p <- plans :: Untorn(p.create) {
        assert plans[0] in plans;
        RecoverKeepsGood(d, plans[0]);
      }
      AttemptsKeep(RecoverSpec(d, plans[0]).disk, plans[1..]);
    }
  }

  /** Once a recovery completes, no journal is left and both directions hold for every filename; no entry file was touched. */
  lemma CompletedRecoverySettlesEverything(d: Disk, interrupted: seq<Plan>, last: Plan)
    requires Inv(d) && RecoverSpec(Attempts(d, interrupted), last).outcome.Returned?
    ensures var r := RecoverSpec(Attempts(d, interrupted), last).disk;
            && r.journal.None? && r.files == d.files
            && RowsOK(IndexLines(r), r.files, None)
            && (Good(d) && (forall p <- interrupted :: Untorn(p.create)) && Untorn(last.create) ==> RowsComplete(IndexLines(r), r.files, None))
  {
    AttemptsKeep(d, interrupted);
    RecoverKeepsInv(Attempts(d, interrupted), last);
    if Good(d) && (forall p <- interrupted :: Untorn(p.create)) && Untorn(last.create) {
      RecoverKeepsGood(Attempts(d, interrupted), last);
    }
  }

  // ---- Exactly when completeness fails ----

  const NO_FAULTS: Plan := Plan(true, Created, Done, Done, Done, Done, Done)

  /**
    A completed store on a consistent directory leaves the index complete if and only if no other live
    entry has the same title: a twin's row is always taken over.
  */
  lemma StoreCompleteIffFreshTitle(d: Disk, entry: MemoryEntry, plan: Plan)
    requires Inv(d) && d.journal.None? && d.index.Some? && LineClosed(d.index.value)
    requires RowsComplete(IndexLines(d), d.files, None)
    requires StoreSpec(d, entry, plan).outcome == Returned(true)
    ensures var d' := StoreSpec(d, entry, plan).disk;
            RowsComplete(IndexLines(d'), d'.files, None) <==> FreshTitle(d.files, entry.File(), entry.title)
  {
    hide Row, LineTarget, SplitLines, UpdatedText, RemovedText, StartsWith, RowPrefix, Utf8Length, CloseLines, Filename;
    var filename := entry.File();
    FilenameIsEntryFilename(entry.memoryType, entry.id);
    var d' := StoreSpec(d, entry, plan).disk;
    var text := d.index.value;
    assert d'.index == Some(UpdatedText(entry.title, filename, entry.content, text));
    assert d'.files == d.files[filename := Stored(entry)];
    StoreKeepsInv(d, entry, plan);
    UpdateSurvival(entry.title, filename, entry.content, text);
    if FreshTitle(d.files, filename, entry.title) {
      forall g | g in d'.files && d'.files[g].Stored? ensures HasRow(IndexLines(d'), d'.files[g].entry.title, g) {
        if g != filename { assert HasRow(IndexLines(d), d.files[g].entry.title, g); }
      }
    } else {
      var g :| g in d.files && d.files[g].Stored? && g != filename && d.files[g].entry.title == entry.title;
      TwinHasNoRow(entry.title, filename, entry.content, text, g);
      assert !HasRow(IndexLines(d'), d'.files[g].entry.title, g);
    }
  }

  lemma TwinHasNoRow(title: string, filename: string, content: string, text: string, twin: string)
    requires IsEntryFilename(filename) && LineClosed(text) && twin != filename
    ensures !HasRow(SplitLines(UpdatedText(title, filename, content, text)), title, twin)
  {
    hide Row, LineTarget, SplitLines, UpdatedText, StartsWith, RowPrefix, Strip;
    UpdateRefinesLines(title, filename, content, text);
    UpdateInstallsRow(SplitLines(text), title, filename, content);
  }

  /**
    A header creation cut after `kept` characters, followed by a store without failures, leaves the new
    entry listed if and only if the cut was not inside the header's first line. The journal is clean
    either way, so nothing repairs the missing row.
  */
  lemma FirstStoreListedIffHeaderWhole(kept: nat, entry: MemoryEntry)
    requires entry.HasValidName()
    requires StoreSpec(Disk(map[], Some(Take(HEADER, kept)), None), entry, NO_FAULTS).outcome == Returned(true)
    ensures var d := StoreSpec(Disk(map[], Some(Take(HEADER, kept)), None), entry, NO_FAULTS).disk;
            && d.journal.None? && d.files == map[entry.File() := Stored(entry)]
            && (HasRow(IndexLines(d), entry.title, entry.File()) <==> kept == 0 || kept > |HEADER_LINE|)
  {
    hide Row, LineTarget, SplitLines, UpdatedText, StartsWith, RowPrefix, Utf8Length, CloseLines, Filename, HEADER, HEADER_LINE, Take;
    var filename := entry.File();
    FilenameIsEntryFilename(entry.memoryType, entry.id);
    var text := Take(HEADER, kept);
    TornHeaderOK(kept);
    if LineClosed(text) {
      UpdateSurvival(entry.title, filename, entry.content, text);
    } else {
      AppendToTornIsHidden(entry.title, filename, entry.content, text);
    }
  }

  lemma AppendToTornIsHidden(title: string, filename: string, content: string, text: string)
    requires Torn(text) && IsEntryFilename(filename)
    ensures !HasRow(SplitLines(UpdatedText(title, filename, content, text)), title, filename)
  {
    hide LineTarget, StartsWith, RowPrefix;
    TornHasNoRows(text);
    RowNoBreak(title, filename, content);
    var row := Row(title, filename, content);
    assert UpdatedText(title, filename, content, text) == CloseLines([text + row]);
    ClosedIsLineClosed([text + row]);
  }

  /**
    Replaying a completed update changes nothing if and only if the first pass replaced a row or its
    row does not end in white space: an appended row keeps the trailing blanks a replaced row loses.
  */
  lemma UpdateTwiceIff(title: string, filename: string, content: string, text: string)
    requires IsEntryFilename(filename) && LineClosed(text)
    ensures var once := UpdatedText(title, filename, content, text);
            var twice := UpdatedText(title, filename, content, once);
            && (twice == once <==> AnyMatch(SplitLines(text), title, filename) || !IsSpace(Row(title, filename, content)[|Row(title, filename, content)| - 1]))
            && UpdatedText(title, filename, content, twice) == twice
  {
    hide LineTarget, SplitLines, UpdatedText, StartsWith, RowPrefix, CloseLines, Inline, Strip;
    var lines := SplitLines(text);
    UpdateRefinesLines(title, filename, content, text);
    var once := UpdatedText(title, filename, content, text);
    UpdateRefinesLines(title, filename, content, once);
    var twice := UpdatedText(title, filename, content, once);
    UpdateRefinesLines(title, filename, content, twice);
    var row := Row(title, filename, content);
    var stripped := Strip(row + "\n");
    RowScansBack(title, filename, content);
    StrippedEqualsIff(title, filename, content);
    var l1 := UpdatedLines(lines, title, filename, content);
    var l2 := UpdatedLines(l1, title, filename, content);
    UpdateInstallsRow(lines, title, filename, content);
    if AnyMatch(lines, title, filename) {
      ReplaceTwice(lines, title, filename, stripped);
      var i :| 0 <= i < |lines| && Matches(lines[i], title, filename);
      assert Matches(l1[i], title, filename);
      assert l2 == l1;
      assert UpdatedLines(l2, title, filename, content) == l2;
    } else {
      assert l1 == lines + [row];
      assert Matches(l1[|lines|], title, filename);
      assert l2[|lines|] == stripped;
      forall i | 0 <= i < |lines| ensures l2[i] == l1[i] {
        assert !Matches(lines[i], title, filename);
      }
      assert |l2| == |l1| && (stripped == row ==> l2 == l1);
      assert Matches(l2[|lines|], title, filename);
      ReplaceTwice(l1, title, filename, stripped);
      assert UpdatedLines(l2, title, filename, content) == l2;
    }
  }

  lemma ReplaceTwice(lines: seq<string>, title: string, filename: string, row: string)
    requires Matches(row, title, filename)
    ensures ReplaceRows(ReplaceRows(lines, title, filename, row), title, filename, row) == ReplaceRows(lines, title, filename, row)
  {
  }

  lemma StrippedEqualsIff(title: string, filename: string, content: string)
    requires IsEntryFilename(filename)
    ensures var row := Row(title, filename, content);
            Strip(row + "\n") == row <==> !IsSpace(row[|row| - 1])
  {
    hide Inline, LineTarget, Filename;
    var row := Row(title, filename, content);
    var line := row + "\n";
    assert line[0] == '-';
    StripLeftId(line);
    StripRightDropsLast(row, '\n');
  }
}
