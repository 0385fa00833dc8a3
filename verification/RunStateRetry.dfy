/** Retrying a save after crashes: the history is appended exactly once, and a retry always gets through. */
module RunStateRetry {
  import opened Text
  import opened Wrappers
  import opened Faults
  import opened Json
  import opened Jsonl
  import opened RunState
  import opened RunStateSafety

  /** The same request tried again and again, each attempt failing or dying wherever its plan says. */
  function Attempts(d: Disk, req: Request, plans: seq<SavePlan>): Disk
    decreases |plans|
  {
    if |plans| == 0 then d else Attempts(SaveSpec(d, req, plans[0]).disk, req, plans[1..])
  }

  lemma {:induction false} AttemptsKeepOldOrNew(d0: Disk, d: Disk, req: Request, plans: seq<SavePlan>)
    requires Inv(d0) && Inv(d) && GoodRequest(req) && OldOrNew(d0, d, req) && !IsRetry(d0, req)
    ensures var d' := Attempts(d, req, plans); Inv(d') && OldOrNew(d0, d', req)
    decreases |plans|
  {
    hide Inv, GoodRequest, SaveSpec, Load, NewStored, Loadable, Contents;
    if |plans| > 0 {
      SaveEffect(d, req, plans[0]);
      AttemptsKeepOldOrNew(d0, SaveSpec(d, req, plans[0]).disk, req, plans[1..]);
    }
  }

  /** However many attempts were cut short, the acknowledged one leaves the request applied exactly once. */
  lemma AcknowledgedOnce(d: Disk, req: Request, plans: seq<SavePlan>, last: SavePlan)
    requires Inv(d) && GoodRequest(req) && !IsRetry(d, req)
    requires SaveSpec(Attempts(d, req, plans), req, last).reply.Answered?
    ensures var step := SaveSpec(Attempts(d, req, plans), req, last);
            && Inv(step.disk)
            && step.disk.active == Some(NewManifest(ExistingOf(d), req))
            && step.reply.stored == Some(NewStored(ExistingOf(d), req))
            && Load(step.disk) == Active(NewStored(ExistingOf(d), req), NewManifest(ExistingOf(d), req))
  {
    hide Inv, GoodRequest, SaveSpec, Load, NewStored, Loadable, Contents;
    AttemptsKeepOldOrNew(d, d, req, plans);
    SaveEffect(Attempts(d, req, plans), req, last);
  }

  // ---- A whole run of retried saves ----

  datatype Session = Session(request: Request, interrupted: seq<SavePlan>, last: SavePlan)

  function After(d: Disk, s: Session): Step {
    SaveSpec(Attempts(d, s.request, s.interrupted), s.request, s.last)
  }

  function AfterAll(d: Disk, sessions: seq<Session>): Disk
    decreases |sessions|
  {
    if |sessions| == 0 then d else AfterAll(After(d, sessions[0]).disk, sessions[1..])
  }

  /** Each request is retried until acknowledged before the next, different one starts. */
  ghost predicate AllAcknowledged(d: Disk, sessions: seq<Session>)
    decreases |sessions|
  {
    |sessions| > 0 ==>
      && GoodRequest(sessions[0].request) && !IsRetry(d, sessions[0].request)
      && After(d, sessions[0]).reply.Answered?
      && AllAcknowledged(After(d, sessions[0]).disk, sessions[1..])
  }

  function AllEvents(sessions: seq<Session>): seq<Json> {
    if |sessions| == 0 then [] else sessions[0].request.events + AllEvents(sessions[1..])
  }

  function AllDecisions(sessions: seq<Session>): seq<Json> {
    if |sessions| == 0 then [] else sessions[0].request.decisions + AllDecisions(sessions[1..])
  }

  function EventsOf(d: Disk): seq<Json> {
    match ExistingOf(d) case Some(s) => s.events case None => []
  }

  function DecisionsOf(d: Disk): seq<Json> {
    match ExistingOf(d) case Some(s) => s.decisions case None => []
  }

  lemma SessionAppends(d: Disk, s: Session)
    requires Inv(d) && GoodRequest(s.request) && !IsRetry(d, s.request) && After(d, s).reply.Answered?
    ensures var d' := After(d, s).disk;
            && Inv(d') && ExistingOf(d').Some? && ExistingOf(d').value.state == s.request.state
            && EventsOf(d') == EventsOf(d) + s.request.events
            && DecisionsOf(d') == DecisionsOf(d) + s.request.decisions
  {
    hide Inv, GoodRequest, SaveSpec, Load, Loadable, Contents, Attempts, IsRetry;
    AcknowledgedOnce(d, s.request, s.interrupted, s.last);
  }

  /**
    Exactly-once history: with any number of crashes inside each save, the stored events and decisions are the
    ones held before followed by every request's own, each once and in order; the last request's state is loaded.
  */
  lemma {:induction false} ExactlyOnceHistory(d: Disk, sessions: seq<Session>)
    requires Inv(d) && AllAcknowledged(d, sessions)
    ensures var d' := AfterAll(d, sessions);
            && Inv(d')
            && EventsOf(d') == EventsOf(d) + AllEvents(sessions)
            && DecisionsOf(d') == DecisionsOf(d) + AllDecisions(sessions)
            && (|sessions| > 0 ==> ExistingOf(d').Some? && ExistingOf(d').value.state == sessions[|sessions| - 1].request.state)
    decreases |sessions|
  {
    hide Inv, GoodRequest, SaveSpec, Load, Loadable, Contents, Attempts, IsRetry, EventsOf, DecisionsOf, ExistingOf, After;
    if |sessions| > 0 {
      var s := sessions[0];
      SessionAppends(d, s);
      var d1 := After(d, s).disk;
      ExactlyOnceHistory(d1, sessions[1..]);
      ConcatAssoc(EventsOf(d), s.request.events, AllEvents(sessions[1..]));
      ConcatAssoc(DecisionsOf(d), s.request.decisions, AllDecisions(sessions[1..]));
      if |sessions| > 1 { assert sessions[1..][|sessions| - 2] == sessions[|sessions| - 1]; }
    }
  }

  // ---- The documents a run holds ----

  /** The last of these that is not the empty object, or what was there before when all are empty. */
  ghost predicate IsLastGiven(documents: seq<Json>, earlier: Json, held: Json) {
    || (exists k :: 0 <= k < |documents| && held == documents[k] && documents[k] != Obj([])
                    && forall j :: k < j < |documents| ==> documents[j] == Obj([]))
    || ((forall j :: 0 <= j < |documents| ==> documents[j] == Obj([])) && held == earlier)
  }

  lemma GivenCons(first: Json, rest: seq<Json>, earlier: Json, held: Json)
    requires IsLastGiven(rest, if first != Obj([]) then first else earlier, held)
    ensures IsLastGiven([first] + rest, earlier, held)
  {
    var all := [first] + rest;
    if k :| 0 <= k < |rest| && held == rest[k] && rest[k] != Obj([]) && forall j :: k < j < |rest| ==> rest[j] == Obj([]) {
      assert all[k + 1] == held;
      forall j | k + 1 < j < |all| ensures all[j] == Obj([]) { assert all[j] == rest[j - 1]; }
    } else if first != Obj([]) {
      assert all[0] == held;
      forall j | 0 < j < |all| ensures all[j] == Obj([]) { assert all[j] == rest[j - 1]; }
    }
  }

  function ArtifactsGiven(sessions: seq<Session>): seq<Json> {
    seq(|sessions|, i requires 0 <= i < |sessions| => sessions[i].request.artifacts)
  }

  function VerificationsGiven(sessions: seq<Session>): seq<Json> {
    seq(|sessions|, i requires 0 <= i < |sessions| => sessions[i].request.verification)
  }

  function ArtifactsOf(d: Disk): Json {
    match ExistingOf(d) case Some(s) => s.artifacts case None => Obj([])
  }

  function VerificationOf(d: Disk): Json {
    match ExistingOf(d) case Some(s) => s.verification case None => Obj([])
  }

  lemma SessionDocuments(d: Disk, s: Session)
    requires Inv(d) && GoodRequest(s.request) && !IsRetry(d, s.request) && After(d, s).reply.Answered?
    ensures var d' := After(d, s).disk;
            && Inv(d') && ExistingOf(d').Some? && ExistingOf(d').value.resume == s.request.resume
            && ArtifactsOf(d') == (if s.request.artifacts != Obj([]) then s.request.artifacts else ArtifactsOf(d))
            && VerificationOf(d') == (if s.request.verification != Obj([]) then s.request.verification else VerificationOf(d))
  {
    hide Inv, GoodRequest, SaveSpec, Load, Loadable, Contents, Attempts, IsRetry;
    AcknowledgedOnce(d, s.request, s.interrupted, s.last);
  }

  /**
    With any number of crashes inside each save, the loaded artifacts and verification are those of the last request that
    gave any, or the earlier ones when none did; the resume is the last request's.
  */
  lemma {:induction false} HistoryKeepsDocuments(d: Disk, sessions: seq<Session>)
    requires Inv(d) && AllAcknowledged(d, sessions)
    ensures var d' := AfterAll(d, sessions);
            && IsLastGiven(ArtifactsGiven(sessions), ArtifactsOf(d), ArtifactsOf(d'))
            && IsLastGiven(VerificationsGiven(sessions), VerificationOf(d), VerificationOf(d'))
            && (|sessions| > 0 ==> ExistingOf(d').Some? && ExistingOf(d').value.resume == sessions[|sessions| - 1].request.resume)
    decreases |sessions|
  {
    hide Inv, GoodRequest, SaveSpec, Load, Loadable, Contents, Attempts, IsRetry, ArtifactsOf, VerificationOf, ExistingOf, After;
    if |sessions| > 0 {
      var s, rest := sessions[0], sessions[1..];
      SessionDocuments(d, s);
      var d1 := After(d, s).disk;
      HistoryKeepsDocuments(d1, rest);
      var d' := AfterAll(d1, rest);
      GivenCons(s.request.artifacts, ArtifactsGiven(rest), ArtifactsOf(d), ArtifactsOf(d'));
      GivenCons(s.request.verification, VerificationsGiven(rest), VerificationOf(d), VerificationOf(d'));
      assert ArtifactsGiven(sessions) == [s.request.artifacts] + ArtifactsGiven(rest);
      assert VerificationsGiven(sessions) == [s.request.verification] + VerificationsGiven(rest);
      if |sessions| > 1 { assert rest[|sessions| - 2] == sessions[|sessions| - 1]; }
    }
  }

  /** After an acknowledged first save the loaded run is the request, field by field. */
  lemma FirstSaveIsRequest(d: Disk, s: Session)
    requires Inv(d) && GoodRequest(s.request) && d.active.None? && After(d, s).reply.Answered?
    ensures var d' := After(d, s).disk;
            && Load(d').Active?
            && var now := Load(d').stored;
               && now.state == s.request.state && now.resume == s.request.resume
               && now.events == s.request.events && now.decisions == s.request.decisions
               && now.artifacts == s.request.artifacts && now.verification == s.request.verification
  {
    hide Inv, GoodRequest, SaveSpec, Load, Loadable, Contents, Attempts;
    AcknowledgedOnce(d, s.request, s.interrupted, s.last);
    ActiveIsSome(d);
  }

  // ---- Archiving takes effect ----

  const NO_ARCHIVE_FAULTS: ArchivePlan := ArchivePlan(true, PrunePlan(_ => Gone, false), true, Done, Done)

  /**
    Archiving in which nothing fails: a readable active run of the expected id becomes inactive under its own manifest;
    with nothing active it answers without a change; any other id, or an unreadable run, is refused without a change.
  */
  lemma ArchiveTakesEffectIff(d: Disk, runId: string)
    requires Inv(d)
    ensures var step := ArchiveSpec(d, runId, NO_ARCHIVE_FAULTS);
            && (d.active.None? ==> step == Step(d, FINISHED))
            && (d.active.Some? && Load(d).Active? && d.active.value.runId == runId ==>
                  step.reply == FINISHED && step.disk.active.None? && ArchiveOf(step.disk, runId) == d.active)
            && (d.active.Some? && !(Load(d).Active? && d.active.value.runId == runId) ==> step == Step(d, Refused))
  {
    hide Load, Complete, Loadable, Pruned;
    ActiveIsSome(d);
    if Load(d).Active? {
      LoadedDescribes(d);
      DescribedIdentity(d.active.value, Load(d).stored);
      PruneEffect(d, d.active.value.runId, Load(d).stored.state.revision, NO_ARCHIVE_FAULTS.prune);
    }
  }

  // ---- Retry gets through ----

  const NO_FAULTS: SavePlan := SavePlan(true, _ => Done, false, Done, true, true, Done, true, PrunePlan(_ => Gone, false))

  /** The target revision is free or already holds what the request would publish. */
  ghost predicate TargetFree(d: Disk, req: Request, contents: Files) {
    var revisions := DirectoryOf(d, req.state.runId).revisions;
    req.state.revision in revisions ==> revisions[req.state.revision] == contents
  }

  lemma {:induction false} StageAllDone(contents: Files, n: nat, plan: FileKind -> Fault)
    requires HasAllKinds(contents) && EachFits(contents) && n <= |KINDS| && forall k :: plan(k).Done?
    ensures Stage(contents, n, plan).reply == FINISHED
  {
    hide Size, MAX_FILE_BYTES;
    if n > 0 {
      assert KINDS[n - 1] in contents;
      StageAllDone(contents, n - 1, plan);
    }
  }

  lemma PublishCompletesIff(dir: RunDirectory, revision: nat, contents: Files)
    requires HasAllKinds(contents)
    ensures Publish(dir, revision, contents, NO_FAULTS).reply == FINISHED <==>
            EachFits(contents) && (revision in dir.revisions ==> dir.revisions[revision] == contents)
  {
    hide EachFits, Stage;
    if EachFits(contents) { StageAllDone(contents, |KINDS|, NO_FAULTS.files); }
    StagedIsComplete(contents, NO_FAULTS.files);
    PublishEffect(dir, revision, contents, NO_FAULTS);
  }

  /** Without faults an installable request gets through exactly when it fits, can be read back, and its revision is free or its own. */
  lemma InstallCompletesIff(d: Disk, req: Request)
    requires Inv(d) && Installable(d, req)
    ensures var new_ := NewStored(ExistingOf(d), req);
            Install(d, ExistingOf(d), req, NO_FAULTS).reply.Answered? <==>
              EachFits(Contents(new_)) && TargetFree(d, req, Contents(new_)) && Loadable(new_)
  {
    hide Describes, Load, Complete, Publish, Contents, NewStored, Loadable, EachFits, Prune, Inv, GoodStored, GoodRequest;
    var existing := ExistingOf(d);
    var runId, revision := req.state.runId, req.state.revision;
    var contents := Contents(NewStored(existing, req));
    ExistingIsGood(d);
    PublishCompletesIff(DirectoryOf(d, runId), revision, contents);
    PublishEffect(DirectoryOf(d, runId), revision, contents, NO_FAULTS);
    PublishedInv(d, req, NO_FAULTS);
    InstallEffect(d, req, NO_FAULTS);
    var p := Publish(DirectoryOf(d, runId), revision, contents, NO_FAULTS);
    var d1 := d.(runs := d.runs[runId := p.dir]);
    if p.reply == FINISHED {
      ExistingBase(d, d1);
      ManifestInv(d1, existing, req);
    }
  }

  lemma ExistingBase(d: Disk, d1: Disk)
    requires Load(d1) == Load(d) && !Load(d).Corrupt?
    ensures !Load(d1).Corrupt? && LoadedBase(Load(d1)) == BaseOf(ExistingOf(d))
  {
    hide Load;
  }

  /**
    The manifest is replaced before the new run is read back: a request that fits but cannot be read back is
    refused only after it has taken the old run's place, and from then on nothing loads.
  */
  lemma UnreadableSaveReplacesRun(d: Disk, req: Request)
    requires Inv(d) && Installable(d, req) && (d.active.None? ==> CanResume(DirectoryOf(d, req.state.runId), req.state.revision))
    requires var new_ := NewStored(ExistingOf(d), req); EachFits(Contents(new_)) && TargetFree(d, req, Contents(new_)) && !Loadable(new_)
    ensures var step := SaveSpec(d, req, NO_FAULTS);
            step.reply == Refused && step.disk.active == Some(NewManifest(ExistingOf(d), req)) && Load(step.disk).Corrupt?
  {
    hide Describes, Load, Complete, Publish, Contents, NewStored, Loadable, EachFits, Prune, Inv, GoodStored, GoodRequest;
    var existing := ExistingOf(d);
    var runId, revision := req.state.runId, req.state.revision;
    var contents := Contents(NewStored(existing, req));
    SaveIsInstall(d, req);
    ExistingIsGood(d);
    PublishCompletesIff(DirectoryOf(d, runId), revision, contents);
    PublishEffect(DirectoryOf(d, runId), revision, contents, NO_FAULTS);
    PublishedInv(d, req, NO_FAULTS);
    var p := Publish(DirectoryOf(d, runId), revision, contents, NO_FAULTS);
    var d1 := d.(runs := d.runs[runId := p.dir]);
    ExistingBase(d, d1);
    ManifestInv(d1, existing, req);
  }

  const SEPARATOR_EVENT: Json := Obj([Member("n", Str([0x2028 as char]))])
  const SEPARATOR_REQUEST: Request := Request(State("r", 1, Obj([])), "", [SEPARATOR_EVENT], [], Obj([]), Obj([]))

  /** One event whose text holds U+2028 is enough: the first save of a run is refused and leaves the repository unreadable. */
  lemma SeparatorMakesRunUnreadable()
    ensures GoodRequest(SEPARATOR_REQUEST)
    ensures var step := SaveSpec(EMPTY_DISK, SEPARATOR_REQUEST, NO_FAULTS);
            step.reply == Refused && step.disk.active.Some? && Load(step.disk).Corrupt?
  {
    var s := NewStored(None, SEPARATOR_REQUEST);
    EmptyIsInv();
    assert GoodRequest(SEPARATOR_REQUEST) by { assert SEPARATOR_REQUEST.events == [SEPARATOR_EVENT] && IsRecord(SEPARATOR_EVENT); }
    assert Installable(EMPTY_DISK, SEPARATOR_REQUEST);
    assert LineSafe(SEPARATOR_EVENT) == false by {
      assert SEPARATOR_EVENT.members[0] in SEPARATOR_EVENT.members;
      assert (0x2028 as char) in [0x2028 as char];
    }
    assert SEPARATOR_EVENT in s.events;
    SeparatorFits();
    UnreadableSaveReplacesRun(EMPTY_DISK, SEPARATOR_REQUEST);
  }

  lemma SeparatorFits()
    ensures EachFits(Contents(NewStored(None, SEPARATOR_REQUEST)))
  {
    hide Utf8Length;
    var s := NewStored(None, SEPARATOR_REQUEST);
    Utf8LengthBound(Indented(Obj([]), 0) + "\n");
    Utf8LengthBound("");
    assert Lines([]) == [];
    assert [SEPARATOR_EVENT][1..] == [];
    assert JsonlText(s.events) == Print(SEPARATOR_EVENT, false) + "\n";
    SeparatorPrints();
    Utf8LengthBound(JsonlText(s.events));
  }

  lemma SeparatorPrints()
    ensures |Print(SEPARATOR_EVENT, false)| < 100
  {
    var m := Member("n", Str([0x2028 as char]));
    assert |EscapeAll("n", false)| == 1 by { assert "n"[1..] == ""; }
    assert |EscapeAll([0x2028 as char], false)| == 1 by { assert [0x2028 as char][1..] == ""; }
    assert |Print(m.value, false)| == 3;
    assert |PrintMember(m, false)| == 7;
    assert [m][1..] == [] && PrintMembers([], false) == "";
  }

  /** What interrupted attempts of one request can leave behind. */
  ghost predicate StillOpen(d0: Disk, d: Disk, req: Request) {
    && Inv(d)
    && ArchiveOf(d, req.state.runId) == ArchiveOf(d0, req.state.runId)
    && OldOrNew(d0, d, req)
    && (d.active == d0.active ==>
          && TargetFree(d, req, Contents(NewStored(ExistingOf(d0), req)))
          && (d0.active.None? ==> HoldsOnly(DirectoryOf(d, req.state.runId), req.state.revision)))
  }

  lemma AttemptStaysOpen(d0: Disk, d: Disk, req: Request, plan: SavePlan)
    requires Inv(d0) && Installable(d0, req) && StillOpen(d0, d, req)
    ensures StillOpen(d0, SaveSpec(d, req, plan).disk, req)
  {
    hide Load, Contents, NewStored, Loadable, Inv, Publish, Prune, GoodRequest, HoldsOnly, CanResume;
    SaveEffect(d, req, plan);
    NotRetry(d0, req);
    if SaveSpec(d, req, plan).disk.active == d0.active {
      InstallLeavesTarget(d, req, plan);
    }
  }

  lemma NotRetry(d: Disk, req: Request)
    requires Installable(d, req)
    ensures !IsRetry(d, req)
  {
    hide Load, GoodRequest;
  }

  lemma PublishHoldsOnly(dir: RunDirectory, revision: nat, contents: Files, plan: SavePlan)
    requires HasAllKinds(contents)
    ensures HoldsOnly(dir, revision) ==> HoldsOnly(Publish(dir, revision, contents, plan).dir, revision)
  {
    hide Publish;
    PublishEffect(dir, revision, contents, plan);
  }

  /** A save that left the manifest alone changed at most its own target revision and staging. */
  lemma InstallLeavesTarget(d: Disk, req: Request, plan: SavePlan)
    requires Inv(d) && GoodRequest(req) && !IsRetry(d, req) && SaveSpec(d, req, plan).disk.active == d.active
    requires TargetFree(d, req, Contents(NewStored(ExistingOf(d), req)))
    ensures var d' := SaveSpec(d, req, plan).disk;
            && TargetFree(d', req, Contents(NewStored(ExistingOf(d), req)))
            && (HoldsOnly(DirectoryOf(d, req.state.runId), req.state.revision) ==> HoldsOnly(DirectoryOf(d', req.state.runId), req.state.revision))
  {
    hide Load, Contents, NewStored, Loadable, Publish, Pruned, GoodRequest, GoodStored, EachFits, HoldsOnly, CanResume;
    var runId, revision := req.state.runId, req.state.revision;
    PublishEffect(DirectoryOf(d, runId), revision, Contents(NewStored(ExistingOf(d), req)), plan);
    PublishHoldsOnly(DirectoryOf(d, runId), revision, Contents(NewStored(ExistingOf(d), req)), plan);
    if Load(d).Active? { LoadedDescribes(d); }
    ActiveIsSome(d);
  }

  lemma {:induction false} AttemptsStayOpen(d0: Disk, d: Disk, req: Request, plans: seq<SavePlan>)
    requires Inv(d0) && Installable(d0, req) && StillOpen(d0, d, req)
    ensures StillOpen(d0, Attempts(d, req, plans), req)
    decreases |plans|
  {
    hide Inv, Installable, StillOpen, SaveSpec;
    if |plans| > 0 {
      AttemptStaysOpen(d0, d, req, plans[0]);
      AttemptsStayOpen(d0, SaveSpec(d, req, plans[0]).disk, req, plans[1..]);
    }
  }

  lemma AcceptedMeansInstallable(d: Disk, req: Request)
    requires Inv(d) && GoodRequest(req) && !IsRetry(d, req) && SaveSpec(d, req, NO_FAULTS).reply.Answered?
    ensures Installable(d, req) && (d.active.None? ==> CanResume(DirectoryOf(d, req.state.runId), req.state.revision))
    ensures SaveSpec(d, req, NO_FAULTS) == Install(d, ExistingOf(d), req, NO_FAULTS)
  {
    hide Load, Install, Loadable, Inv, Prune, GoodRequest;
    ActiveIsSome(d);
    if Load(d).Active? { LoadedDescribes(d); }
  }

  lemma SaveIsInstall(d: Disk, req: Request)
    requires Inv(d) && Installable(d, req)
    requires d.active.None? ==> CanResume(DirectoryOf(d, req.state.runId), req.state.revision)
    ensures SaveSpec(d, req, NO_FAULTS) == Install(d, ExistingOf(d), req, NO_FAULTS)
  {
    hide Load, Install, Loadable, Inv, Prune, GoodRequest;
    ActiveIsSome(d);
    if Load(d).Active? { LoadedDescribes(d); }
  }

  lemma AcceptedRetry(d: Disk, req: Request)
    requires Inv(d) && IsRetry(d, req) && Load(d).Active? && ArchiveOf(d, req.state.runId).None?
    ensures SaveSpec(d, req, NO_FAULTS).reply == Answered(Some(Load(d).stored))
  {
    hide Load, Install, Loadable, Inv, Prune;
    LoadedDescribes(d);
  }

  /** The request may be put in place: a newer revision of the active run, or a run of which nothing but this revision is left over. */
  ghost predicate MayTakePlace(d: Disk, req: Request) {
    var dir := DirectoryOf(d, req.state.runId);
    && dir.archive.None?
    && if d.active.Some? then d.active.value.runId == req.state.runId && d.active.value.revision < req.state.revision
       else
         && (forall r <- dir.revisions :: r == req.state.revision) && (forall r <- dir.staging :: r == req.state.revision)
         && |dir.revisions| + |dir.staging| <= 8192
  }

  /**
    Without faults a save is accepted exactly when the repository is readable and the request is the active one again, its
    run unarchived, or may take its place, fits, reads back and finds its revision free or its own.
  */
  lemma SaveAcceptedIff(d: Disk, req: Request)
    requires Inv(d) && GoodRequest(req)
    ensures var new_ := NewStored(ExistingOf(d), req);
            SaveSpec(d, req, NO_FAULTS).reply.Answered? <==>
            && !Load(d).Corrupt?
            && ((IsRetry(d, req) && DirectoryOf(d, req.state.runId).archive.None?) ||
                (MayTakePlace(d, req) && EachFits(Contents(new_)) && TargetFree(d, req, Contents(new_)) && Loadable(new_)))
  {
    hide Load, Install, Loadable, Inv, Prune, GoodRequest, Contents, NewStored, EachFits, TargetFree;
    ActiveIsSome(d);
    if Load(d).Active? { LoadedDescribes(d); DescribedIdentity(d.active.value, Load(d).stored); }
    if !IsRetry(d, req) && !Load(d).Corrupt? && MayTakePlace(d, req) {
      InstallCompletesIff(d, req);
      SaveIsInstall(d, req);
    }
    if !IsRetry(d, req) && SaveSpec(d, req, NO_FAULTS).reply.Answered? { AcceptedMeansInstallable(d, req); }
  }

  /** An accepted save in which nothing fails leaves its own revision as the only one of the run. */
  lemma AcceptedSavePrunes(d: Disk, req: Request)
    requires Inv(d) && GoodRequest(req) && SaveSpec(d, req, NO_FAULTS).reply.Answered?
    ensures DirectoryOf(SaveSpec(d, req, NO_FAULTS).disk, req.state.runId).revisions.Keys == {req.state.revision}
  {
    hide Load, Loadable, Inv, Prune, GoodRequest, Contents, NewStored, EachFits, Publish, Describes;
    SaveEffect(d, req, NO_FAULTS);
    var step := SaveSpec(d, req, NO_FAULTS);
    LoadedDescribes(step.disk);
    DescribedIdentity(step.disk.active.value, Load(step.disk).stored);
    ActiveIsPresent(step.disk);
    forall before: Disk | step.disk == Prune(before, req.state.runId, req.state.revision, NO_FAULTS.prune)
      ensures DirectoryOf(step.disk, req.state.runId).revisions.Keys <= {req.state.revision}
    {
      PrunedAlone(before, req.state.runId, req.state.revision);
    }
    if Load(d).Active? { LoadedDescribes(d); DescribedIdentity(d.active.value, Load(d).stored); }
  }

  lemma ActiveIsPresent(d: Disk)
    requires Inv(d) && d.active.Some?
    ensures d.active.value.revision in DirectoryOf(d, d.active.value.runId).revisions
  {
  }

  lemma PrunedAlone(d: Disk, runId: string, keep: nat)
    ensures DirectoryOf(Prune(d, runId, keep, NO_FAULTS.prune), runId).revisions.Keys <= {keep}
  {
    hide Trimmed;
  }

  /**
    If a request would have been accepted without failures, then after any number of attempts that failed or
    died anywhere the next attempt without failures is accepted, with the same answer, exactly when the manifest
    has been replaced, another revision was active to begin with, or the entries left over can still be listed.
  */
  lemma RetryGetsThroughIff(d: Disk, req: Request, plans: seq<SavePlan>)
    requires Inv(d) && GoodRequest(req) && !IsRetry(d, req)
    requires SaveSpec(d, req, NO_FAULTS).reply.Answered?
    ensures var now := Attempts(d, req, plans);
            SaveSpec(now, req, NO_FAULTS).reply == SaveSpec(d, req, NO_FAULTS).reply <==>
            now.active.Some? || Entries(DirectoryOf(now, req.state.runId)) <= MAX_DIRECTORY_ENTRIES
  {
    hide Load, Contents, NewStored, Loadable, Inv, Publish, Prune, GoodRequest, EachFits, Entries;
    SaveEffect(d, req, NO_FAULTS);
    AcceptedMeansInstallable(d, req);
    InstallCompletesIff(d, req);
    AttemptsStayOpen(d, d, req, plans);
    var now := Attempts(d, req, plans);
    SaveEffect(now, req, NO_FAULTS);
    if now.active != d.active {
      AcceptedRetry(now, req);
    } else if now.active.Some? || Entries(DirectoryOf(now, req.state.runId)) <= MAX_DIRECTORY_ENTRIES {
      InstallCompletesIff(now, req);
      SaveIsInstall(now, req);
    } else {
      TooManyEntriesRefuse(now, req, NO_FAULTS);
    }
  }

  /** Beyond the bound a run without an active manifest refuses every save of it, at any revision and whatever happens. */
  lemma TooManyEntriesRefuse(d: Disk, req: Request, plan: SavePlan)
    requires d.active.None? && Entries(DirectoryOf(d, req.state.runId)) > MAX_DIRECTORY_ENTRIES
    ensures SaveSpec(d, req, plan) == Step(d, Refused)
  {
  }

  lemma {:induction false} StuckForever(d: Disk, req: Request, plans: seq<SavePlan>)
    requires d.active.None? && Entries(DirectoryOf(d, req.state.runId)) > MAX_DIRECTORY_ENTRIES
    ensures Attempts(d, req, plans) == d
    decreases |plans|
  {
    hide SaveSpec, Entries;
    if |plans| > 0 {
      TooManyEntriesRefuse(d, req, plans[0]);
      StuckForever(d, req, plans[1..]);
    }
  }

  /** Each attempt adds at most one entry, so as many failures as there is room for never block a request. */
  lemma {:induction false} EntriesGrowSlowly(d: Disk, req: Request, plans: seq<SavePlan>)
    ensures Entries(DirectoryOf(Attempts(d, req, plans), req.state.runId)) <= Entries(DirectoryOf(d, req.state.runId)) + |plans|
    decreases |plans|
  {
    hide SaveSpec, Entries;
    if |plans| > 0 {
      AttemptAddsOne(d, req, plans[0]);
      EntriesGrowSlowly(SaveSpec(d, req, plans[0]).disk, req, plans[1..]);
    }
  }

  lemma PublishAddsOne(dir: RunDirectory, revision: nat, contents: Files, plan: SavePlan)
    requires HasAllKinds(contents)
    ensures Entries(Publish(dir, revision, contents, plan).dir) <= Entries(dir) + 1
  {
    hide EachFits, Stage;
  }

  lemma PruneAddsNone(d: Disk, runId: string, keep: nat, plan: PrunePlan)
    ensures Entries(DirectoryOf(Prune(d, runId, keep, plan), runId)) <= Entries(DirectoryOf(d, runId))
  {
    hide Trimmed;
    var dir := DirectoryOf(d, runId);
    var pruned := Pruned(dir, keep, plan.fate);
    assert pruned.revisions.Keys <= dir.revisions.Keys;
    SubsetSize(pruned.revisions.Keys, dir.revisions.Keys);
    assert |pruned.revisions| == |pruned.revisions.Keys| && |dir.revisions| == |dir.revisions.Keys|;
  }

  lemma {:induction false} SubsetSize(a: set<nat>, b: set<nat>)
    requires a <= b
    ensures |a| <= |b|
    decreases |a|
  {
    if a != {} {
      var x :| x in a;
      SubsetSize(a - {x}, b - {x});
    }
  }

  lemma AttemptAddsOne(d: Disk, req: Request, plan: SavePlan)
    ensures Entries(DirectoryOf(SaveSpec(d, req, plan).disk, req.state.runId)) <= Entries(DirectoryOf(d, req.state.runId)) + 1
  {
    hide Load, Contents, NewStored, Publish, Prune, Entries, CanResume;
    var runId, revision := req.state.runId, req.state.revision;
    if plan.readable {
      match Load(d)
      case Corrupt =>
      case NoRun => InstallAddsOne(d, None, req, plan);
      case Active(stored, _) =>
        InstallAddsOne(d, Some(stored), req, plan);
        PruneAddsNone(d, stored.state.runId, stored.state.revision, plan.prune);
    }
  }

  lemma InstallAddsOne(d: Disk, existing: Option<Stored>, req: Request, plan: SavePlan)
    ensures Entries(DirectoryOf(Install(d, existing, req, plan).disk, req.state.runId)) <= Entries(DirectoryOf(d, req.state.runId)) + 1
  {
    hide Load, Contents, NewStored, Publish, Prune, Entries;
    var runId, revision := req.state.runId, req.state.revision;
    var p := Publish(DirectoryOf(d, runId), revision, Contents(NewStored(existing, req)), plan);
    PublishAddsOne(DirectoryOf(d, runId), revision, Contents(NewStored(existing, req)), plan);
    var d1 := d.(runs := d.runs[runId := p.dir]);
    PruneAddsNone(d1, runId, revision, plan.prune);
    PruneAddsNone(d1.(active := Some(NewManifest(existing, req))), runId, revision, plan.prune);
  }

  /** The process dies while the first file is staged. */
  const DIES_EARLY: SavePlan := SavePlan(true, _ => Die(false), true, Done, true, true, Done, true, PrunePlan(_ => Gone, false))

  function Deaths(n: nat): seq<SavePlan> {
    seq(n, _ => DIES_EARLY)
  }

  function Left(runId: string, revision: nat, n: nat): Disk {
    Disk(None, map[runId := RunDirectory(map[], multiset{}[revision := n], None)])
  }

  lemma DeathLeavesOne(req: Request, n: nat)
    requires n <= MAX_DIRECTORY_ENTRIES
    ensures SaveSpec(Left(req.state.runId, req.state.revision, n), req, DIES_EARLY).disk == Left(req.state.runId, req.state.revision, n + 1)
  {
    hide Contents, NewStored;
    var runId, revision := req.state.runId, req.state.revision;
    var contents := Contents(NewStored(None, req));
    var dir := DirectoryOf(Left(runId, revision, n), runId);
    assert CanResume(dir, revision);
    StageDies(contents);
    assert dir.staging + multiset{revision} == multiset{}[revision := n + 1];
  }

  lemma {:induction false} StageDies(contents: Files)
    requires HasAllKinds(contents)
    ensures Stage(contents, |KINDS|, DIES_EARLY.files).reply != FINISHED
  {
    hide Size;
    StageStops(contents, 1, DIES_EARLY.files);
  }

  lemma {:induction false} DeathsPileUp(req: Request, n: nat, k: nat)
    requires n + k <= MAX_DIRECTORY_ENTRIES + 1
    ensures Attempts(Left(req.state.runId, req.state.revision, n), req, Deaths(k)) == Left(req.state.runId, req.state.revision, n + k)
    decreases k
  {
    hide SaveSpec, Left;
    if k > 0 {
      DeathLeavesOne(req, n);
      assert Deaths(k)[1..] == Deaths(k - 1);
      DeathsPileUp(req, n + 1, k - 1);
    }
  }

  /** 8193 deaths during a first save: from then on the run can never be saved, by this or any other request. */
  lemma DeathsBlockRun(req: Request, later: Request, plan: SavePlan)
    requires later.state.runId == req.state.runId
    ensures var d := Attempts(EMPTY_DISK, req, Deaths(MAX_DIRECTORY_ENTRIES + 1));
            Entries(DirectoryOf(d, req.state.runId)) == MAX_DIRECTORY_ENTRIES + 1 && SaveSpec(d, later, plan) == Step(d, Refused)
  {
    hide SaveSpec, Attempts;
    var d := Left(req.state.runId, req.state.revision, MAX_DIRECTORY_ENTRIES + 1);
    assert Attempts(EMPTY_DISK, req, Deaths(MAX_DIRECTORY_ENTRIES + 1)) == d by { FromEmpty(req); }
    TooManyEntriesRefuse(d, later, plan);
  }

  lemma FromEmpty(req: Request)
    ensures Attempts(EMPTY_DISK, req, Deaths(MAX_DIRECTORY_ENTRIES + 1)) == Left(req.state.runId, req.state.revision, MAX_DIRECTORY_ENTRIES + 1)
  {
    hide SaveSpec;
    FirstDeath(req);
    assert Deaths(MAX_DIRECTORY_ENTRIES + 1)[1..] == Deaths(MAX_DIRECTORY_ENTRIES);
    DeathsPileUp(req, 1, MAX_DIRECTORY_ENTRIES);
  }

  lemma FirstDeath(req: Request)
    ensures SaveSpec(EMPTY_DISK, req, DIES_EARLY).disk == Left(req.state.runId, req.state.revision, 1)
  {
    hide Contents, NewStored;
    StageDies(Contents(NewStored(None, req)));
    assert multiset{} + multiset{req.state.revision} == multiset{}[req.state.revision := 1];
  }
}
