/** What every crash point of save, retry, archive and prune keeps true of the run-state repository. */
module RunStateSafety {
  import opened Text
  import opened Wrappers
  import opened Faults
  import opened Json
  import opened Jsonl
  import opened RunState

  // ---- Well-formed values ----

  ghost predicate AreRecords(records: seq<Json>) {
    forall r <- records :: IsRecord(r)
  }

  ghost predicate AreLineSafe(records: seq<Json>) {
    forall r <- records :: LineSafe(r)
  }

  ghost predicate GoodStored(s: Stored) {
    AreRecords(s.events) && AreRecords(s.decisions) && s.artifacts.Obj? && s.verification.Obj?
  }

  /** Sanitising leaves records and mappings that are JSON objects; the model takes their numbers to be finite. */
  ghost predicate GoodRequest(req: Request) {
    AreRecords(req.events) && AreRecords(req.decisions) && req.artifacts.Obj? && req.verification.Obj?
  }

  /** A stored run can be read back: no record breaks a log line and the six files fit the total limit. */
  ghost predicate Loadable(s: Stored) {
    AreLineSafe(s.events) && AreLineSafe(s.decisions) && TotalSize(Contents(s)) <= MAX_TOTAL_BYTES
  }

  // ---- The invariant ----

  /** The manifest was written for exactly this stored run. */
  ghost predicate Describes(m: Manifest, s: Stored) {
    && m.digests == Contents(s) && EachFits(m.digests) && GoodStored(s)
    && m.runId == s.state.runId && m.revision == s.state.revision && m.request.state == s.state
  }

  /** The manifest's revision directory is there and holds the six files it names. */
  ghost predicate Complete(d: Disk, m: Manifest) {
    && m.revision in DirectoryOf(d, m.runId).revisions
    && DirectoryOf(d, m.runId).revisions[m.revision] == m.digests
    && exists s :: Describes(m, s)
  }

  ghost predicate Inv(d: Disk) {
    && (d.active.Some? ==> Complete(d, d.active.value))
    && (forall r :: r in d.runs && d.runs[r].archive.Some? ==> d.runs[r].archive.value.runId == r && Complete(d, d.runs[r].archive.value))
    && (d.active.Some? ==> DirectoryOf(d, d.active.value.runId).archive in {None, d.active})
  }

  lemma EmptyIsInv()
    ensures Inv(EMPTY_DISK) && Load(EMPTY_DISK).NoRun?
  {
  }

  lemma NewStoredIsGood(existing: Option<Stored>, req: Request)
    requires GoodRequest(req) && (existing.Some? ==> GoodStored(existing.value))
    ensures GoodStored(NewStored(existing, req))
  {
    if existing.Some? {
      var old_ := existing.value;
      forall r | r in old_.events + req.events ensures IsRecord(r) { assert r in old_.events || r in req.events; }
      forall r | r in old_.decisions + req.decisions ensures IsRecord(r) { assert r in old_.decisions || r in req.decisions; }
    }
  }

  // ---- Loading is exact ----

  lemma DecodeContents(s: Stored)
    requires GoodStored(s)
    ensures Decode(Contents(s), s.state.runId, s.state.revision) == if AreLineSafe(s.events) && AreLineSafe(s.decisions) then Some(s) else None
  {
    hide DecodeJsonl, JsonlText, LineSafe, IsRecord;
    JsonlReadsBackIff(s.events);
    JsonlReadsBackIff(s.decisions);
  }

  lemma ContentsMatch(s: Stored)
    ensures Matches(Contents(s), Contents(s))
  {
  }

  /** Loading gives exactly what the manifest was written for, or refuses exactly when that cannot be read back. */
  lemma LoadExact(d: Disk, s: Stored)
    requires d.active.Some? && Complete(d, d.active.value) && Describes(d.active.value, s)
    ensures Load(d) == if Loadable(s) then Active(s, d.active.value) else Corrupt
  {
    hide Decode, Contents, TotalSize, EachFits, AreLineSafe, GoodStored;
    DecodeContents(s);
    ContentsMatch(s);
  }

  lemma ActiveIsSome(d: Disk)
    ensures d.active.None? <==> Load(d).NoRun?
  {
  }

  lemma LoadedDescribes(d: Disk)
    requires Inv(d) && Load(d).Active?
    ensures d.active == Some(Load(d).manifest) && Describes(d.active.value, Load(d).stored) && Loadable(Load(d).stored)
  {
    hide Load, Loadable, Describes;
    ActiveIsSome(d);
    var s :| Describes(d.active.value, s);
    LoadExact(d, s);
  }

  // ---- Publishing is all or nothing ----

  lemma {:induction false} StageHolds(contents: Files, n: nat, plan: FileKind -> Fault)
    requires HasAllKinds(contents) && n <= |KINDS|
    ensures Stage(contents, n, plan).reply.Answered? ==> Stage(contents, n, plan).reply == FINISHED
    ensures var s := Stage(contents, n, plan);
            s.reply == FINISHED ==>
              && (forall i :: 0 <= i < n ==> KINDS[i] in s.files && s.files[KINDS[i]] == contents[KINDS[i]] && Size(contents[KINDS[i]]) <= MAX_FILE_BYTES)
              && (forall k :: k in s.files ==> k in contents)
  {
    hide Size, MAX_FILE_BYTES;
    if n > 0 { StageHolds(contents, n - 1, plan); }
  }

  lemma AllKinds(k: FileKind)
    ensures k in KINDS
  {
    assert KINDS[0].StateFile? && KINDS[1].ResumeFile? && KINDS[2].DecisionsFile?;
    assert KINDS[3].EventsFile? && KINDS[4].ArtifactsFile? && KINDS[5].VerificationFile?;
  }

  lemma StagedIsComplete(contents: Files, plan: FileKind -> Fault)
    requires HasAllKinds(contents)
    ensures var s := Stage(contents, |KINDS|, plan); s.reply == FINISHED ==> s.files == contents && EachFits(contents)
    ensures Stage(contents, |KINDS|, plan).reply.Answered? ==> Stage(contents, |KINDS|, plan).reply == FINISHED
  {
    hide Size, MAX_FILE_BYTES, Stage, KINDS;
    StageHolds(contents, |KINDS|, plan);
    var s := Stage(contents, |KINDS|, plan);
    if s.reply == FINISHED {
      forall k ensures k in s.files && k in contents && s.files[k] == contents[k] && Size(contents[k]) <= MAX_FILE_BYTES {
        AllKinds(k);
        var i :| 0 <= i < |KINDS| && KINDS[i] == k;
      }
      assert s.files == contents;
    }
  }

  /** A revision directory appears only whole, existing directories are never changed, and success means it holds exactly the contents. */
  lemma PublishEffect(dir: RunDirectory, revision: nat, contents: Files, plan: SavePlan)
    requires HasAllKinds(contents)
    ensures var p := Publish(dir, revision, contents, plan);
            && p.dir.archive == dir.archive
            && (p.dir.revisions == dir.revisions || (revision !in dir.revisions && p.dir.revisions == dir.revisions[revision := contents]))
            && (p.reply.Answered? ==> p.reply == FINISHED && revision in p.dir.revisions && p.dir.revisions[revision] == contents && EachFits(contents))
            && (p.dir.staging == dir.staging || p.dir.staging == dir.staging + multiset{revision})
  {
    hide EachFits, Stage;
    StagedIsComplete(contents, plan.files);
  }

  lemma PruneEffect(d: Disk, runId: string, keep: nat, plan: PrunePlan)
    ensures var d' := Prune(d, runId, keep, plan);
            && d'.active == d.active
            && DirectoryOf(d', runId).archive == DirectoryOf(d, runId).archive
            && DirectoryOf(d', runId).staging == DirectoryOf(d, runId).staging
            && (keep in DirectoryOf(d, runId).revisions ==>
                  keep in DirectoryOf(d', runId).revisions && DirectoryOf(d', runId).revisions[keep] == DirectoryOf(d, runId).revisions[keep])
            && (forall r :: r != runId ==> DirectoryOf(d', r) == DirectoryOf(d, r) && (r in d'.runs <==> r in d.runs))
  {
  }

  /** Two disks that agree on the active manifest and on the directory it names load alike. */
  lemma LoadFrame(d: Disk, d': Disk)
    requires d'.active == d.active
    requires d.active.Some? ==>
      var m := d.active.value;
      && (m.revision in DirectoryOf(d, m.runId).revisions <==> m.revision in DirectoryOf(d', m.runId).revisions)
      && (m.revision in DirectoryOf(d, m.runId).revisions ==> DirectoryOf(d, m.runId).revisions[m.revision] == DirectoryOf(d', m.runId).revisions[m.revision])
    ensures Load(d') == Load(d)
  {
    hide Matches, EachFits, Decode, TotalSize;
  }

  lemma CompleteFrame(d: Disk, d': Disk, m: Manifest)
    requires Complete(d, m)
    requires m.revision in DirectoryOf(d', m.runId).revisions
    requires DirectoryOf(d', m.runId).revisions[m.revision] == DirectoryOf(d, m.runId).revisions[m.revision]
    ensures Complete(d', m)
  {
    hide Describes;
  }

  /**
    One directory changed: its archived manifest, if any, is unchanged and still complete, and so is the
    active manifest. Everything else follows from the frame.
  */
  lemma OneDirectoryInv(d: Disk, d': Disk, runId: string)
    requires Inv(d) && d'.active == d.active
    requires forall r :: r != runId ==> DirectoryOf(d', r) == DirectoryOf(d, r) && (r in d'.runs <==> r in d.runs)
    requires DirectoryOf(d', runId).archive == DirectoryOf(d, runId).archive
    requires var old_, now := DirectoryOf(d, runId), DirectoryOf(d', runId);
             && (old_.archive.Some? ==> KeepsRevision(old_, now, old_.archive.value.revision))
             && (d.active.Some? && d.active.value.runId == runId ==> KeepsRevision(old_, now, d.active.value.revision))
    ensures Inv(d') && Load(d') == Load(d)
  {
    hide Describes, Load;
    if d.active.Some? { CompleteFrame(d, d', d.active.value); }
    forall r | r in d'.runs && d'.runs[r].archive.Some?
      ensures d'.runs[r].archive.value.runId == r && Complete(d', d'.runs[r].archive.value)
    {
      assert d'.runs[r] == DirectoryOf(d', r);
      assert r in d.runs && d.runs[r].archive == d'.runs[r].archive;
      CompleteFrame(d, d', d'.runs[r].archive.value);
    }
    LoadFrame(d, d');
  }

  predicate KeepsRevision(old_: RunDirectory, now: RunDirectory, revision: nat) {
    revision in old_.revisions ==> revision in now.revisions && now.revisions[revision] == old_.revisions[revision]
  }

  lemma PruneKeepsInv(d: Disk, runId: string, keep: nat, plan: PrunePlan)
    requires Inv(d)
    requires DirectoryOf(d, runId).archive.Some? ==> DirectoryOf(d, runId).archive.value.revision == keep
    requires d.active.Some? && d.active.value.runId == runId ==> d.active.value.revision == keep
    ensures Inv(Prune(d, runId, keep, plan)) && Load(Prune(d, runId, keep, plan)) == Load(d)
  {
    hide Describes, Load, Prune, Complete;
    PruneEffect(d, runId, keep, plan);
    OneDirectoryInv(d, Prune(d, runId, keep, plan), runId);
  }

  // ---- Saving ----

  function ExistingOf(d: Disk): Option<Stored> {
    match Load(d)
    case Active(stored, _) => Some(stored)
    case _ => None
  }

  /** The request may be installed on top of the active run: newer revision of the same run, no archive pending. */
  ghost predicate Installable(d: Disk, req: Request) {
    && GoodRequest(req)
    && !Load(d).Corrupt?
    && DirectoryOf(d, req.state.runId).archive.None?
    && (d.active.Some? ==> d.active.value.runId == req.state.runId && d.active.value.revision < req.state.revision)
  }

  /** The state after the revision is published, before the manifest is replaced. */
  lemma PublishedInv(d: Disk, req: Request, plan: SavePlan)
    requires Inv(d) && Installable(d, req)
    ensures var runId := req.state.runId;
            var p := Publish(DirectoryOf(d, runId), req.state.revision, Contents(NewStored(ExistingOf(d), req)), plan);
            var d1 := d.(runs := d.runs[runId := p.dir]);
            Inv(d1) && Load(d1) == Load(d)
  {
    hide Describes, Load, Complete, Publish, Contents, NewStored;
    var runId := req.state.runId;
    var contents := Contents(NewStored(ExistingOf(d), req));
    PublishEffect(DirectoryOf(d, runId), req.state.revision, contents, plan);
    var p := Publish(DirectoryOf(d, runId), req.state.revision, contents, plan);
    var d1 := d.(runs := d.runs[runId := p.dir]);
    OneDirectoryInv(d, d1, runId);
  }

  lemma NewManifestDescribes(existing: Option<Stored>, req: Request)
    requires GoodRequest(req) && (existing.Some? ==> GoodStored(existing.value))
    requires EachFits(Contents(NewStored(existing, req)))
    ensures Describes(NewManifest(existing, req), NewStored(existing, req))
  {
    hide Contents, EachFits;
    NewStoredIsGood(existing, req);
  }

  lemma ManifestInv(d1: Disk, existing: Option<Stored>, req: Request)
    requires Inv(d1) && GoodRequest(req) && (existing.Some? ==> GoodStored(existing.value))
    requires var dir := DirectoryOf(d1, req.state.runId);
             && dir.archive.None? && req.state.revision in dir.revisions
             && dir.revisions[req.state.revision] == Contents(NewStored(existing, req)) && EachFits(dir.revisions[req.state.revision])
    ensures var d2 := d1.(active := Some(NewManifest(existing, req)));
            && Inv(d2)
            && Load(d2) == if Loadable(NewStored(existing, req)) then Active(NewStored(existing, req), d2.active.value) else Corrupt
  {
    hide Describes, Load, Contents, NewStored, Loadable, EachFits;
    NewManifestDescribes(existing, req);
    var d2 := d1.(active := Some(NewManifest(existing, req)));
    forall r | r in d2.runs && d2.runs[r].archive.Some? ensures Complete(d2, d2.runs[r].archive.value) {
      CompleteFrame(d1, d2, d2.runs[r].archive.value);
    }
    LoadExact(d2, NewStored(existing, req));
  }

  /** Old or new, never anything else. */
  ghost predicate OldOrNew(d: Disk, d': Disk, req: Request) {
    var new_ := NewStored(ExistingOf(d), req);
    if d'.active == d.active then Load(d') == Load(d)
    else d'.active == Some(NewManifest(ExistingOf(d), req)) && Load(d') == if Loadable(new_) then Active(new_, d'.active.value) else Corrupt
  }

  lemma InstallEffect(d: Disk, req: Request, plan: SavePlan)
    requires Inv(d) && Installable(d, req)
    ensures var step := Install(d, ExistingOf(d), req, plan);
            && Inv(step.disk) && OldOrNew(d, step.disk, req)
            && DirectoryOf(step.disk, req.state.runId).archive.None?
            && (forall r :: r != req.state.runId ==> DirectoryOf(step.disk, r) == DirectoryOf(d, r))
            && (step.reply.Answered? ==>
                  && step.disk.active == Some(NewManifest(ExistingOf(d), req))
                  && step.reply.stored == Some(NewStored(ExistingOf(d), req)) && Loadable(NewStored(ExistingOf(d), req)))
  {
    hide Describes, Load, Complete, Publish, Contents, NewStored, Loadable, EachFits, Prune, Inv, LoadedBase, BaseOf, GoodStored;
    var existing := ExistingOf(d);
    var runId, revision := req.state.runId, req.state.revision;
    ExistingIsGood(d);
    var contents := Contents(NewStored(existing, req));
    PublishEffect(DirectoryOf(d, runId), revision, contents, plan);
    PublishedInv(d, req, plan);
    var p := Publish(DirectoryOf(d, runId), revision, contents, plan);
    var d1 := d.(runs := d.runs[runId := p.dir]);
    if p.reply == FINISHED {
      ManifestInv(d1, existing, req);
      var d2 := d1.(active := Some(NewManifest(existing, req)));
      FinishEffect(d2, runId, revision, plan.prune);
    }
  }

  lemma ExistingIsGood(d: Disk)
    requires Inv(d)
    ensures ExistingOf(d).Some? ==> GoodStored(ExistingOf(d).value)
  {
    hide Load, Inv, Loadable;
    if Load(d).Active? { LoadedDescribes(d); }
  }

  lemma FinishEffect(d2: Disk, runId: string, revision: nat, plan: PrunePlan)
    requires Inv(d2) && d2.active.Some? && d2.active.value.runId == runId && d2.active.value.revision == revision
    ensures var d' := Prune(d2, runId, revision, plan);
            && Inv(d') && Load(d') == Load(d2) && d'.active == d2.active
            && DirectoryOf(d', runId).archive == DirectoryOf(d2, runId).archive
            && (forall r :: r != runId ==> DirectoryOf(d', r) == DirectoryOf(d2, r))
  {
    hide Describes, Load, Complete, Prune;
    PruneEffect(d2, runId, revision, plan);
    PruneKeepsInv(d2, runId, revision, plan);
  }

  function ArchiveOf(d: Disk, runId: string): Option<Manifest> {
    DirectoryOf(d, runId).archive
  }

  /** The active run is the one the accepted retry asked for. */
  ghost predicate IsRetry(d: Disk, req: Request) {
    d.active.Some? && d.active.value.request == req && d.active.value.runId == req.state.runId && d.active.value.revision == req.state.revision
  }

  /**
    A save interrupted anywhere leaves the old run or exactly the new one, touches no archive, installs
    only on top of an older revision of the same unarchived run, and answers only what is then loaded.
  */
  lemma SaveEffect(d: Disk, req: Request, plan: SavePlan)
    requires Inv(d) && GoodRequest(req)
    ensures var step := SaveSpec(d, req, plan);
            && Inv(step.disk) && OldOrNew(d, step.disk, req)
            && (forall r :: ArchiveOf(step.disk, r) == ArchiveOf(d, r))
            && (step.disk.active != d.active ==> Installable(d, req))
            && (step.reply.Answered? ==>
                  && step.reply.stored.Some? && step.disk.active.Some?
                  && Load(step.disk) == Active(step.reply.stored.value, step.disk.active.value)
                  && IsRetry(step.disk, req)
                  && (if IsRetry(d, req) then step.disk.active == d.active
                      else step.disk.active == Some(NewManifest(ExistingOf(d), req)) && step.reply.stored == Some(NewStored(ExistingOf(d), req))))
  {
    hide Load, Complete, Install, Contents, NewStored, Loadable, EachFits, GoodStored, Prune, Inv, GoodRequest;
    ActiveIsSome(d);
    match Load(d)
    case Corrupt =>
    case NoRun =>
      if CanResume(DirectoryOf(d, req.state.runId), req.state.revision) { InstallEffect(d, req, plan); }
    case Active(stored, manifest) =>
      LoadedDescribes(d);
      if ArchiveOf(d, stored.state.runId).None? && stored.state.runId == req.state.runId {
        if req.state.revision > stored.state.revision {
          InstallEffect(d, req, plan);
        } else if req.state.revision == stored.state.revision {
          FinishEffectOf(d, stored.state.runId, stored.state.revision, plan.prune);
        }
      }
  }

  lemma FinishEffectOf(d: Disk, runId: string, revision: nat, plan: PrunePlan)
    requires Inv(d) && d.active.Some? && d.active.value.runId == runId && d.active.value.revision == revision
    ensures var d' := Prune(d, runId, revision, plan);
            Inv(d') && Load(d') == Load(d) && d'.active == d.active && forall r :: ArchiveOf(d', r) == ArchiveOf(d, r)
  {
    hide Load, Complete, Inv, Prune;
    FinishEffect(d, runId, revision, plan);
  }

  // ---- Archiving ----

  /** Archiving interrupted anywhere leaves the run active and unchanged, or inactive and archived under its own manifest. */
  lemma ArchiveEffect(d: Disk, runId: string, plan: ArchivePlan)
    requires Inv(d)
    ensures var d' := ArchiveSpec(d, runId, plan).disk;
            && Inv(d')
            && (if d'.active == d.active then Load(d') == Load(d)
                else d'.active.None? && d.active.Some? && d.active.value.runId == runId && ArchiveOf(d', runId) == d.active)
            && (forall r :: ArchiveOf(d', r) == ArchiveOf(d, r) || (ArchiveOf(d, r).None? && ArchiveOf(d', r) == d.active && d.active.Some? && r == d.active.value.runId))
  {
    hide Load, Complete, Prune, Inv, Describes, Loadable;
    if Load(d).Active? {
      LoadedDescribes(d);
      DescribedIdentity(d.active.value, Load(d).stored);
      var revision := Load(d).stored.state.revision;
      FinishEffectOf(d, d.active.value.runId, revision, plan.prune);
      var pruned := Prune(d, d.active.value.runId, revision, plan.prune);
      ArchivedInv(pruned);
      RemovedInv(pruned);
      RemovedInv(WithArchive(pruned));
    }
  }

  lemma DescribedIdentity(m: Manifest, s: Stored)
    requires Describes(m, s)
    ensures m.runId == s.state.runId && m.revision == s.state.revision
  {
  }

  function WithArchive(d: Disk): Disk
    requires d.active.Some?
  {
    var runId := d.active.value.runId;
    d.(runs := d.runs[runId := DirectoryOf(d, runId).(archive := d.active)])
  }

  lemma ArchivedInv(d: Disk)
    requires Inv(d) && d.active.Some?
    ensures Inv(WithArchive(d)) && Load(WithArchive(d)) == Load(d)
    ensures forall r :: ArchiveOf(WithArchive(d), r) == if r == d.active.value.runId then d.active else ArchiveOf(d, r)
  {
    hide Load, Describes;
    var d' := WithArchive(d);
    var m := d.active.value;
    CompleteFrame(d, d', m);
    forall r | r in d'.runs && d'.runs[r].archive.Some?
      ensures d'.runs[r].archive.value.runId == r && Complete(d', d'.runs[r].archive.value)
    {
      if r != m.runId { CompleteFrame(d, d', d'.runs[r].archive.value); }
    }
    LoadFrame(d, d');
  }

  lemma RemovedInv(d: Disk)
    requires Inv(d)
    ensures Inv(d.(active := None))
  {
    hide Describes;
    var d' := d.(active := None);
    forall r | r in d'.runs && d'.runs[r].archive.Some? ensures Complete(d', d'.runs[r].archive.value) {
      CompleteFrame(d, d', d'.runs[r].archive.value);
    }
  }

  /** A pending archive never conflicts with the active run: the refusal for conflicting manifests is never reached. */
  lemma PendingArchiveAgrees(ops: seq<Operation>)
    requires GoodOperations(ops)
    ensures var d := Run(EMPTY_DISK, ops);
            d.active.Some? && ArchiveOf(d, d.active.value.runId).Some? ==> ArchiveOf(d, d.active.value.runId) == d.active
  {
    EmptyIsInv();
    RunKeepsInv(EMPTY_DISK, ops);
  }

  // ---- Whole histories ----

  ghost predicate GoodOperations(ops: seq<Operation>) {
    forall op <- ops :: op.Save? ==> GoodRequest(op.request)
  }

  lemma ApplyKeepsInv(d: Disk, op: Operation)
    requires Inv(d) && (op.Save? ==> GoodRequest(op.request))
    ensures Inv(Apply(d, op).disk)
  {
    hide Inv, SaveSpec, ArchiveSpec;
    match op
    case Save(request, plan) => SaveEffect(d, request, plan);
    case Archive(runId, plan) => ArchiveEffect(d, runId, plan);
  }

  /** At every point of every history the active manifest, and every archived one, names a complete revision directory. */
  lemma {:induction false} RunKeepsInv(d: Disk, ops: seq<Operation>)
    requires Inv(d) && GoodOperations(ops)
    ensures Inv(Run(d, ops))
    decreases |ops|
  {
    hide Inv, Apply;
    if |ops| > 0 {
      assert ops[0] in ops;
      ApplyKeepsInv(d, ops[0]);
      assert forall op <- ops[1..] :: op in ops;
      RunKeepsInv(Apply(d, ops[0]).disk, ops[1..]);
    }
  }

  /** How far a run has come: at a revision under a manifest, or archived and inactive. */
  ghost predicate Reached(d: Disk, m: Manifest) {
    || (d.active.Some? && d.active.value.runId == m.runId && (d.active == Some(m) || d.active.value.revision > m.revision))
    || RetiredAt(d, m.runId, m.revision)
  }

  /** The run is archived at this revision or later and is not active. */
  ghost predicate RetiredAt(d: Disk, runId: string, revision: nat) {
    && ArchiveOf(d, runId).Some? && ArchiveOf(d, runId).value.revision >= revision
    && (d.active.Some? ==> d.active.value.runId != runId)
  }

  lemma ApplyAdvances(d: Disk, op: Operation, m: Manifest)
    requires Inv(d) && (op.Save? ==> GoodRequest(op.request)) && Reached(d, m)
    ensures Reached(Apply(d, op).disk, m)
    ensures RetiredAt(d, m.runId, m.revision) ==> ArchiveOf(Apply(d, op).disk, m.runId) == ArchiveOf(d, m.runId)
  {
    hide Inv, SaveSpec, ArchiveSpec, Load, Contents, NewStored, Loadable, DirectoryOf, GoodRequest;
    match op
    case Save(request, plan) => SaveEffect(d, request, plan);
    case Archive(runId, plan) => ArchiveEffect(d, runId, plan);
  }

  /**
    Within a run the active revision only grows: after any history the run is still under the same manifest,
    at a later revision, or archived and inactive.
  */
  lemma {:induction false} RevisionOnlyGrows(d: Disk, ops: seq<Operation>, m: Manifest)
    requires Inv(d) && GoodOperations(ops) && Reached(d, m)
    ensures Reached(Run(d, ops), m)
    decreases |ops|
  {
    hide Inv, Apply, Reached;
    if |ops| > 0 {
      assert ops[0] in ops;
      ApplyKeepsInv(d, ops[0]);
      ApplyAdvances(d, ops[0], m);
      assert forall op <- ops[1..] :: op in ops;
      RevisionOnlyGrows(Apply(d, ops[0]).disk, ops[1..], m);
    }
  }

  /** Once archived and inactive, a run never becomes active again and its archive never changes. */
  lemma {:induction false} ArchivedStaysArchived(d: Disk, ops: seq<Operation>, runId: string)
    requires Inv(d) && GoodOperations(ops) && RetiredAt(d, runId, 0)
    ensures RetiredAt(Run(d, ops), runId, 0) && ArchiveOf(Run(d, ops), runId) == ArchiveOf(d, runId)
    decreases |ops|
  {
    hide Inv, Apply;
    if |ops| > 0 {
      assert ops[0] in ops;
      ApplyKeepsInv(d, ops[0]);
      ApplyKeepsRetired(d, ops[0], runId);
      assert forall op <- ops[1..] :: op in ops;
      ArchivedStaysArchived(Apply(d, ops[0]).disk, ops[1..], runId);
    }
  }

  lemma ApplyKeepsRetired(d: Disk, op: Operation, runId: string)
    requires Inv(d) && (op.Save? ==> GoodRequest(op.request)) && RetiredAt(d, runId, 0)
    ensures RetiredAt(Apply(d, op).disk, runId, 0) && ArchiveOf(Apply(d, op).disk, runId) == ArchiveOf(d, runId)
  {
    hide Inv, SaveSpec, ArchiveSpec, Load, Contents, NewStored, Loadable, DirectoryOf, GoodRequest;
    match op
    case Save(request, plan) => SaveEffect(d, request, plan);
    case Archive(id, plan) => ArchiveEffect(d, id, plan);
  }

  // ---- Refusals ----

  /** An unreferenced revision left by an interrupted save refuses every different request at that revision. */
  lemma DifferentRequestRefused(d: Disk, req: Request, plan: SavePlan)
    requires Inv(d) && GoodRequest(req)
    requires var dir := DirectoryOf(d, req.state.runId);
             req.state.revision in dir.revisions && dir.revisions[req.state.revision] != Contents(NewStored(ExistingOf(d), req))
    requires !IsRetry(d, req)
    ensures var step := SaveSpec(d, req, plan);
            step.reply == Refused && step.disk.active == d.active && DirectoryOf(step.disk, req.state.runId) == DirectoryOf(d, req.state.runId)
  {
    hide Load, Complete, Contents, NewStored, Loadable, EachFits, GoodStored, Stage;
    if Load(d).Active? {
      LoadedDescribes(d);
      DescribedIdentity(d.active.value, Load(d).stored);
    }
  }

  /** Once the active run cannot be read back, every later operation refuses and changes nothing. */
  lemma {:induction false} CorruptIsFinal(d: Disk, ops: seq<Operation>)
    requires Load(d).Corrupt?
    ensures Run(d, ops) == d
    decreases |ops|
  {
    hide Load;
    if |ops| > 0 { CorruptIsFinal(Apply(d, ops[0]).disk, ops[1..]); }
  }

  /** A completed manifest write leaves a run that loads if and only if no record breaks a log line and the six files fit the total limit. */
  lemma SaveLoadsBackIff(d: Disk, req: Request, plan: SavePlan)
    requires Inv(d) && GoodRequest(req) && !IsRetry(d, req)
    requires SaveSpec(d, req, plan).disk.active == Some(NewManifest(ExistingOf(d), req))
    ensures Load(SaveSpec(d, req, plan).disk).Active? <==> Loadable(NewStored(ExistingOf(d), req))
    ensures Load(SaveSpec(d, req, plan).disk).Corrupt? <==> !Loadable(NewStored(ExistingOf(d), req))
  {
    hide Load, Complete, Contents, NewStored, Loadable, SaveSpec;
    SaveEffect(d, req, plan);
  }
}
