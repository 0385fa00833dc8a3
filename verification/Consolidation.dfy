/** Consolidation: store every survivor, then delete what did not survive, inside one open transaction. */
module Consolidation {
  import opened Text
  import opened Wrappers
  import opened MemoryIndex
  import opened IndexRewrite
  import opened MemoryEntry
  import opened MemoryStore
  import opened MemorySafety
  import opened Merge
  import opened Compression

  /** The environment of a batch: a fault plan for the k-th store and for the k-th deletion. */
  datatype Schedule = Schedule(stores: nat -> Plan, removals: nat -> Plan)

  datatype Progress = Progress(disk: Disk, outcome: Outcome, removed: nat)

  /** The records consolidation read: distinct names of readable entry files. */
  ghost predicate Listing(files: map<string, FileState>, names: seq<string>) {
    && (forall i :: 0 <= i < |names| ==> names[i] in files && files[names[i]].Stored?)
    && (forall i, j :: 0 <= i < j < |names| ==> names[i] != names[j])
  }

  function EntriesOf(files: map<string, FileState>, names: seq<string>): (entries: seq<MemoryEntry>)
    requires forall i :: 0 <= i < |names| ==> names[i] in files && files[names[i]].Stored?
  {
    seq(|names|, i requires 0 <= i < |names| => files[names[i]].entry)
  }

  function SurvivingFiles(survivors: seq<MemoryEntry>): set<string> {
    set s <- survivors :: s.File()
  }

  function StoreAll(d: Disk, survivors: seq<MemoryEntry>, plans: nat -> Plan): Step
    decreases |survivors|
  {
    if |survivors| == 0 then Step(d, Returned(false))
    else
      var n := |survivors| - 1;
      var before := StoreAll(d, survivors[..n], plans);
      if before.outcome.Returned? then StoreSpec(before.disk, survivors[n], plans(n)) else before
  }

  function RemoveOne(b: Progress, name: string, surviving: set<string>, plan: Plan): Progress {
    if !b.outcome.Returned? || name in surviving then b
    else
      var step := DeleteSpec(b.disk, Batch, name, plan);
      Progress(step.disk, step.outcome, b.removed + if step.outcome == Returned(true) then 1 else 0)
  }

  function RemoveAll(d: Disk, names: seq<string>, surviving: set<string>, plans: nat -> Plan): Progress
    decreases |names|
  {
    if |names| == 0 then Progress(d, Returned(false), 0)
    else var n := |names| - 1; RemoveOne(RemoveAll(d, names[..n], surviving, plans), names[n], surviving, plans(n))
  }

  /** `_consolidate_unlocked`. */
  function ConsolidateSpec(d: Disk, names: seq<string>, budget: int, env: Oracle, schedule: Schedule): Progress
    requires forall i :: 0 <= i < |names| ==> names[i] in d.files && d.files[names[i]].Stored?
  {
    var survivors := Survivors(EntriesOf(d.files, names), budget, env);
    var stored := StoreAll(d, survivors, schedule.stores);
    if stored.outcome.Returned? then RemoveAll(stored.disk, names, SurvivingFiles(survivors), schedule.removals)
    else Progress(stored.disk, stored.outcome, 0)
  }

  method Consolidate(store: MemoryStore, names: seq<string>, budget: int, env: Oracle, schedule: Schedule)
    returns (outcome: Outcome, removed: nat, stats: Stats)
    requires Listing(store.files, names)
    modifies store
    ensures Progress(store.State(), outcome, removed) == ConsolidateSpec(old(store.State()), names, budget, env, schedule)
    ensures stats == StatsOf(EntriesOf(old(store.files), names), budget, env)
  {
    hide StoreSpec, DeleteSpec, Survivors, StatsOf;
    removed := 0;
    var survivors;
    ghost var before := store.State();
    survivors, stats := Compress(EntriesOf(store.files, names), budget, env);
    outcome := Returned(false);
    for k := 0 to |survivors|
      invariant outcome.Returned?
      invariant Step(store.State(), outcome) == StoreAll(before, survivors[..k], schedule.stores)
    {
      assert survivors[..k + 1][..k] == survivors[..k];
      outcome := store.StoreEntry(survivors[k], schedule.stores(k));
      if !outcome.Returned? {
        StoreAllStops(before, survivors, k + 1, schedule.stores);
        return;
      }
    }
    assert survivors[..|survivors|] == survivors;
    outcome := Returned(false);
    ghost var stored := store.State();
    var surviving := SurvivingFiles(survivors);
    for k := 0 to |names|
      invariant outcome.Returned?
      invariant Progress(store.State(), outcome, removed) == RemoveAll(stored, names[..k], surviving, schedule.removals)
    {
      assert names[..k + 1][..k] == names[..k];
      if names[k] in surviving { continue; }
      outcome := store.DeleteEntry(Batch, names[k], schedule.removals(k));
      if outcome == Returned(true) { removed := removed + 1; }
      if !outcome.Returned? {
        RemoveAllStops(stored, names, k + 1, surviving, schedule.removals);
        return;
      }
    }
    assert names[..|names|] == names;
  }

  lemma {:induction false} StoreAllStops(d: Disk, survivors: seq<MemoryEntry>, k: nat, plans: nat -> Plan)
    requires k <= |survivors| && !StoreAll(d, survivors[..k], plans).outcome.Returned?
    ensures StoreAll(d, survivors, plans) == StoreAll(d, survivors[..k], plans)
    decreases |survivors| - k
  {
    hide StoreSpec;
    if k == |survivors| {
      assert survivors[..k] == survivors;
    } else {
      assert survivors[..k + 1][..k] == survivors[..k];
      StoreAllStops(d, survivors, k + 1, plans);
    }
  }

  lemma {:induction false} RemoveAllStops(d: Disk, names: seq<string>, k: nat, surviving: set<string>, plans: nat -> Plan)
    requires k <= |names| && !RemoveAll(d, names[..k], surviving, plans).outcome.Returned?
    ensures RemoveAll(d, names, surviving, plans) == RemoveAll(d, names[..k], surviving, plans)
    decreases |names| - k
  {
    hide DeleteSpec;
    if k == |names| {
      assert names[..k] == names;
    } else {
      assert names[..k + 1][..k] == names[..k];
      RemoveAllStops(d, names, k + 1, surviving, plans);
    }
  }

  // ---- What one step does to the entry files ----

  lemma StoreStepFiles(d: Disk, entry: MemoryEntry, plan: Plan)
    ensures var step := StoreSpec(d, entry, plan);
            var installed := d.files[entry.File() := Stored(entry)];
            && (step.disk.files == d.files || step.disk.files == installed)
            && (step.outcome.Returned? ==> step.disk.files == installed)
  {
    hide UpdatedText, Utf8Length, Filename;
    var f := entry.File();
    if f in d.files {
      assert d.files[f := Stored(entry)][f := d.files[f]] == d.files;
    } else {
      assert d.files[f := Stored(entry)] - {f} == d.files;
    }
  }

  lemma DeleteStepFiles(d: Disk, name: string, plan: Plan)
    ensures var step := DeleteSpec(d, Batch, name, plan);
            && (step.disk.files == d.files || step.disk.files == d.files - {name})
            && (step.outcome == Returned(true) ==> step.disk.files == d.files - {name})
            && (step.outcome == Returned(false) && plan.readable && IsEntryFilename(name) ==> name !in d.files)
  {
    hide RemovedText, Utf8Length, IsEntryFilename;
    if name in d.files {
      assert (d.files - {name})[name := d.files[name]] == d.files;
    }
  }

  // ---- Every prefix of the store phase ----

  /** Each old file is untouched or already replaced by its survivor; every new file is a survivor's. */
  ghost predicate StorePhase(old_: map<string, FileState>, now: map<string, FileState>, survivors: seq<MemoryEntry>) {
    && (forall f :: f in old_ ==> f in now && (now[f] == old_[f] || IsSurvivorAt(survivors, f, now[f])))
    && (forall f :: f in now && f !in old_ ==> IsSurvivorAt(survivors, f, now[f]))
  }

  ghost predicate IsSurvivorAt(survivors: seq<MemoryEntry>, f: string, file: FileState) {
    exists s :: s in survivors && s.File() == f && file == Stored(s)
  }

  lemma {:induction false} StoreAllFiles(d: Disk, survivors: seq<MemoryEntry>, plans: nat -> Plan)
    requires DistinctFiles(survivors)
    ensures var step := StoreAll(d, survivors, plans);
            && StorePhase(d.files, step.disk.files, survivors)
            && (step.outcome.Returned? ==> forall s :: s in survivors ==> s.File() in step.disk.files && step.disk.files[s.File()] == Stored(s))
    decreases |survivors|
  {
    hide StoreSpec, Filename, DistinctFiles;
    if |survivors| > 0 {
      var n := |survivors| - 1;
      var rest, s := survivors[..n], survivors[n];
      DistinctPrefix(survivors);
      StoreAllFiles(d, rest, plans);
      var before := StoreAll(d, rest, plans);
      StoreStepFiles(before.disk, s, plans(n));
      var now := StoreAll(d, survivors, plans).disk.files;
      assert s in survivors;
      assert IsSurvivorAt(survivors, s.File(), Stored(s));
      forall f | f in now && IsSurvivorAt(rest, f, now[f]) ensures IsSurvivorAt(survivors, f, now[f]) {
        var x :| x in rest && x.File() == f && now[f] == Stored(x);
        assert x in survivors;
      }
    }
  }

  lemma {:induction false} RemoveAllFiles(d: Disk, names: seq<string>, surviving: set<string>, plans: nat -> Plan)
    ensures var batch := RemoveAll(d, names, surviving, plans);
            && (forall f :: f in batch.disk.files ==> f in d.files && batch.disk.files[f] == d.files[f])
            && (forall f :: f in d.files && (f in surviving || f !in names) ==> f in batch.disk.files)
            && (batch.outcome.Returned? && (forall k :: 0 <= k < |names| ==> plans(k).readable && IsEntryFilename(names[k])) ==>
                  forall f :: f in names && f !in surviving ==> f !in batch.disk.files)
    decreases |names|
  {
    hide DeleteSpec, IsEntryFilename;
    if |names| > 0 {
      var n := |names| - 1;
      RemoveAllFiles(d, names[..n], surviving, plans);
      var before := RemoveAll(d, names[..n], surviving, plans);
      DeleteStepFiles(before.disk, names[n], plans(n));
      forall f | f in names ensures f in names[..n] || f == names[n] {}
    }
  }

  // ---- The theorems ----

  lemma ListingEntries(d: Disk, names: seq<string>)
    requires FilesNamed(d.files) && Listing(d.files, names)
    ensures var entries := EntriesOf(d.files, names);
            && DistinctFiles(entries)
            && (forall e :: e in entries ==> e.HasValidName() && e.File() in names && d.files[e.File()] == Stored(e))
            && (forall k :: 0 <= k < |names| ==> IsEntryFilename(names[k]))
  {
    hide Filename, IsEntryFilename, IsSafeEntryId;
    var entries := EntriesOf(d.files, names);
    forall k | 0 <= k < |names| ensures entries[k].File() == names[k] && IsEntryFilename(names[k]) {
      FilenameIsEntryFilename(entries[k].memoryType, entries[k].id);
    }
  }

  /**
    However consolidation is interrupted (any store or deletion may fail or die anywhere), a body that
    compression kept unmodified is still part of some file. Every intermediate disk is the result of some
    schedule, so this holds at every step.
  */
  lemma InterruptedConsolidationKeepsBody(d: Disk, names: seq<string>, budget: int, env: Oracle, schedule: Schedule, e: MemoryEntry)
    returns (f: string)
    requires FilesNamed(d.files) && Listing(d.files, names)
    requires e in EntriesOf(d.files, names) && e in Sift(Ranked(EntriesOf(d.files, names), env.weigh), budget, env).kept
    ensures var now := ConsolidateSpec(d, names, budget, env, schedule).disk.files;
            f in now && now[f].Stored? && Contains(now[f].entry.content, e.content)
  {
    hide Sift, Ranked, Survivors, StoreAll, RemoveAll, Filename, Contains, IsEntryFilename;
    var entries := EntriesOf(d.files, names);
    var survivors := Survivors(entries, budget, env);
    ListingEntries(d, names);
    SurvivorsCoverKept(entries, budget, env);
    StoreAllFiles(d, survivors, schedule.stores);
    var stored := StoreAll(d, survivors, schedule.stores);
    if stored.outcome.Returned? {
      var o :| o in survivors && Covers(o, e);
      f := o.File();
      RemoveAllFiles(stored.disk, names, SurvivingFiles(survivors), schedule.removals);
      assert f in SurvivingFiles(survivors);
    } else {
      f := e.File();
      CoversItself(e);
    }
  }

  /** When every step succeeds the listed files are exactly the survivors', each holding its survivor; other files are untouched. */
  lemma CompletedConsolidationIsExact(d: Disk, names: seq<string>, budget: int, env: Oracle, schedule: Schedule)
    requires FilesNamed(d.files) && Listing(d.files, names)
    requires forall k :: 0 <= k < |names| ==> schedule.removals(k).readable
    requires ConsolidateSpec(d, names, budget, env, schedule).outcome.Returned?
    ensures var survivors := Survivors(EntriesOf(d.files, names), budget, env);
            var now := ConsolidateSpec(d, names, budget, env, schedule).disk.files;
            && (forall f :: f in now <==> f in SurvivingFiles(survivors) || (f in d.files && f !in names))
            && (forall s :: s in survivors ==> s.File() in now && now[s.File()] == Stored(s))
            && (forall f :: f in d.files && f !in names ==> f in now && now[f] == d.files[f])
  {
    hide Sift, Ranked, Survivors, StoreAll, RemoveAll, Filename, Covers, IsEntryFilename, DistinctFiles;
    var entries := EntriesOf(d.files, names);
    var survivors := Survivors(entries, budget, env);
    ListingEntries(d, names);
    SurvivorsCoverKept(entries, budget, env);
    StoreAllFiles(d, survivors, schedule.stores);
    var stored := StoreAll(d, survivors, schedule.stores);
    RemoveAllFiles(stored.disk, names, SurvivingFiles(survivors), schedule.removals);
    forall f | f in SurvivingFiles(survivors) ensures f in names && f in stored.disk.files {
      var s :| s in survivors && s.File() == f;
      var e :| e in entries && SameIdentity(e, s);
    }
  }

  // ---- Consolidation inside any history ----

  lemma {:induction false} StoreAllKeepsInv(d: Disk, survivors: seq<MemoryEntry>, plans: nat -> Plan)
    requires Inv(d)
    ensures Inv(StoreAll(d, survivors, plans).disk)
    decreases |survivors|
  {
    hide StoreSpec, Inv;
    if |survivors| > 0 {
      var n := |survivors| - 1;
      StoreAllKeepsInv(d, survivors[..n], plans);
      StoreKeepsInv(StoreAll(d, survivors[..n], plans).disk, survivors[n], plans(n));
    }
  }

  lemma {:induction false} RemoveAllKeepsInv(d: Disk, names: seq<string>, surviving: set<string>, plans: nat -> Plan)
    requires Inv(d)
    ensures Inv(RemoveAll(d, names, surviving, plans).disk)
    decreases |names|
  {
    hide DeleteSpec, Inv;
    if |names| > 0 {
      var n := |names| - 1;
      RemoveAllKeepsInv(d, names[..n], surviving, plans);
      DeleteKeepsInv(RemoveAll(d, names[..n], surviving, plans).disk, Batch, names[n], plans(n));
    }
  }

  /** One public mutation: a single request, or a consolidation of the files it managed to list after recovery. */
  datatype Mutation =
    | Single(call: Call)
    | Consolidation(recovery: Plan, names: seq<string>, budget: int, env: Oracle, schedule: Schedule)

  predicate Lists(d: Disk, names: seq<string>) {
    forall i :: 0 <= i < |names| ==> names[i] in d.files && d.files[names[i]].Stored?
  }

  function Mutate(d: Disk, m: Mutation): Disk {
    match m
    case Single(call) => Transaction(d, call).disk
    case Consolidation(recovery, names, budget, env, schedule) =>
      var recovered := RecoverSpec(d, recovery);
      if recovered.outcome.Returned? && Lists(recovered.disk, names)
      then ConsolidateSpec(recovered.disk, names, budget, env, schedule).disk
      else recovered.disk
  }

  function History(d: Disk, mutations: seq<Mutation>): Disk
    decreases |mutations|
  {
    if |mutations| == 0 then d else History(Mutate(d, mutations[0]), mutations[1..])
  }

  /** From an empty directory, no history of mutations, consolidations, failures and crashes leaves a dangling row for a settled file. */
  lemma {:induction false} HistoryKeepsInv(d: Disk, mutations: seq<Mutation>)
    requires Inv(d)
    ensures Inv(History(d, mutations))
    decreases |mutations|
  {
    hide Inv, Transaction, RecoverSpec, StoreAll, RemoveAll, Survivors;
    if |mutations| > 0 {
      match mutations[0] {
        case Single(call) => TransactionKeepsInv(d, call);
        case Consolidation(recovery, names, budget, env, schedule) =>
          RecoverKeepsInv(d, recovery);
          var recovered := RecoverSpec(d, recovery).disk;
          if Lists(recovered, names) {
            var survivors := Survivors(EntriesOf(recovered.files, names), budget, env);
            StoreAllKeepsInv(recovered, survivors, schedule.stores);
            RemoveAllKeepsInv(StoreAll(recovered, survivors, schedule.stores).disk, names, SurvivingFiles(survivors), schedule.removals);
          }
      }
      HistoryKeepsInv(Mutate(d, mutations[0]), mutations[1..]);
    }
  }
}
