/**
  The run-state repository: a save stages six files, renames them into a revision directory, replaces
  the signed active manifest and prunes older revisions; archiving copies the manifest and then removes
  it. SHA-256 and HMAC are injective, so a digest is identified with the content it names and a request
  digest with the request.
 */
module RunState {
  import opened Text
  import opened Wrappers
  import opened Faults
  import opened Json
  import opened Jsonl

  const MAX_FILE_BYTES: nat := 8 * 1024 * 1024
  const MAX_TOTAL_BYTES: nat := 32 * 1024 * 1024
  const MAX_DIRECTORY_ENTRIES: nat := 8192

  datatype FileKind = StateFile | ResumeFile | DecisionsFile | EventsFile | ArtifactsFile | VerificationFile

  const KINDS: seq<FileKind> := [StateFile, ResumeFile, DecisionsFile, EventsFile, ArtifactsFile, VerificationFile]

  /** The run's own state: its identity and the document `to_dict` gives. */
  datatype State = State(runId: string, revision: nat, document: Json)

  /** An indented document is identified with its value; the logs and the resume are text. */
  datatype Content = StateText(state: State) | Document(value: Json) | Plain(text: string)

  datatype Request = Request(state: State, resume: string, events: seq<Json>, decisions: seq<Json>, artifacts: Json, verification: Json)

  datatype Stored = Stored(state: State, resume: string, decisions: seq<Json>, events: seq<Json>, artifacts: Json, verification: Json)

  datatype Base = Base(runId: string, revision: nat)

  datatype Manifest = Manifest(runId: string, revision: nat, digests: map<FileKind, Content>, expected: Option<Base>, request: Request)

  type Files = map<FileKind, Content>

  datatype RunDirectory = RunDirectory(revisions: map<nat, Files>, staging: multiset<nat>, archive: Option<Manifest>)

  const NO_RUN: RunDirectory := RunDirectory(map[], multiset{}, None)

  datatype Disk = Disk(active: Option<Manifest>, runs: map<string, RunDirectory>)

  function DirectoryOf(d: Disk, runId: string): RunDirectory {
    if runId in d.runs then d.runs[runId] else NO_RUN
  }

  // ---- Sizes ----

  function Spaces(n: nat): string {
    if n == 0 then "" else " " + Spaces(n - 1)
  }

  /** `json.dumps(value, indent=2)`. */
  function Indented(v: Json, depth: nat): string {
    match v
    case Arr(items) =>
      if |items| == 0 then "[]" else "[\n" + IndentedItems(items, depth + 2) + "\n" + Spaces(depth) + "]"
    case Obj(members) =>
      if |members| == 0 then "{}" else "{\n" + IndentedMembers(members, depth + 2) + "\n" + Spaces(depth) + "}"
    case _ => Print(v, false)
  }

  function IndentedItems(items: seq<Json>, depth: nat): string {
    if |items| == 0 then ""
    else Spaces(depth) + Indented(items[0], depth) + (if |items| == 1 then "" else ",\n") + IndentedItems(items[1..], depth)
  }

  function IndentedMembers(members: seq<Member>, depth: nat): string {
    if |members| == 0 then ""
    else
      Spaces(depth) + Quote(members[0].key, false) + ": " + Indented(members[0].value, depth)
      + (if |members| == 1 then "" else ",\n") + IndentedMembers(members[1..], depth)
  }

  function Size(c: Content): nat {
    match c
    case StateText(state) => Utf8Length(Indented(state.document, 0) + "\n")
    case Document(value) => Utf8Length(Indented(value, 0) + "\n")
    case Plain(text) => Utf8Length(text)
  }

  predicate EachFits(files: Files) {
    forall k <- files :: Size(files[k]) <= MAX_FILE_BYTES
  }

  predicate HasAllKinds(files: Files) {
    forall k <- KINDS :: k in files
  }

  function TotalSize(files: Files): nat
    requires HasAllKinds(files)
  {
    Size(files[StateFile]) + Size(files[ResumeFile]) + Size(files[DecisionsFile])
    + Size(files[EventsFile]) + Size(files[ArtifactsFile]) + Size(files[VerificationFile])
  }

  // ---- Loading ----

  datatype Loaded = NoRun | Corrupt | Active(stored: Stored, manifest: Manifest)

  /** The directory holds every file the manifest names, with its digest. */
  predicate Matches(files: Files, digests: Files) {
    forall k <- KINDS :: k in files && k in digests && files[k] == digests[k]
  }

  /** Decode the six verified files; the logs are parsed line by line. */
  function Decode(files: Files, runId: string, revision: nat): Option<Stored>
    requires HasAllKinds(files)
  {
    match (files[StateFile], files[ResumeFile], files[DecisionsFile], files[EventsFile], files[ArtifactsFile], files[VerificationFile])
    case (StateText(state), Plain(resume), Plain(decisionText), Plain(eventText), Document(artifacts), Document(verification)) =>
      if state.runId != runId || state.revision != revision || !artifacts.Obj? || !verification.Obj? then None
      else (match (DecodeJsonl(decisionText), DecodeJsonl(eventText))
        case (Some(decisions), Some(events)) => Some(Stored(state, resume, decisions, events, artifacts, verification))
        case _ => None)
    case _ => None
  }

  /** `_load_authenticated_active_locked`. */
  function Load(d: Disk): Loaded {
    if d.active.None? then NoRun
    else
      var m := d.active.value;
      var revisions := DirectoryOf(d, m.runId).revisions;
      if m.revision !in revisions || !Matches(revisions[m.revision], m.digests) then Corrupt
      else
        var files := revisions[m.revision];
        if !EachFits(files) || TotalSize(files) > MAX_TOTAL_BYTES then Corrupt
        else match Decode(files, m.runId, m.revision)
          case Some(stored) => Active(stored, m)
          case None => Corrupt
  }

  // ---- Environment ----

  datatype Fate = Whole | Without(files: set<FileKind>) | Gone

  /** Pruning is best effort: each older revision may stay, lose some files or go, and the process may die during it. */
  datatype PrunePlan = PrunePlan(fate: nat -> Fate, dies: bool)

  datatype SavePlan = SavePlan(
    readable: bool, files: FileKind -> Fault, leftover: bool, rename: Fault, verify: bool,
    recheck: bool, manifest: Fault, reload: bool, prune: PrunePlan)

  datatype ArchivePlan = ArchivePlan(readable: bool, prune: PrunePlan, reread: bool, archive: Fault, unlink: Fault)

  datatype Reply = Answered(stored: Option<Stored>) | Refused | Died

  datatype Step = Step(disk: Disk, reply: Reply)

  const FINISHED: Reply := Answered(None)

  function Failure(fault: Fault): Reply
    requires !fault.Done?
  {
    if fault.Raise? then Refused else Died
  }

  // ---- Publishing a revision ----

  datatype Staged = Staged(files: Files, reply: Reply)

  function StageOne(s: Staged, kind: FileKind, content: Content, fault: Fault): Staged {
    if s.reply != FINISHED then s
    else if Size(content) > MAX_FILE_BYTES then s.(reply := Refused)
    else Staged(if Applied(fault) then s.files[kind := content] else s.files, if fault.Done? then FINISHED else Failure(fault))
  }

  /** The first n files of the staging directory, each written atomically. */
  function Stage(contents: Files, n: nat, plan: FileKind -> Fault): Staged
    requires HasAllKinds(contents) && n <= |KINDS|
  {
    if n == 0 then Staged(map[], FINISHED)
    else StageOne(Stage(contents, n - 1, plan), KINDS[n - 1], contents[KINDS[n - 1]], plan(KINDS[n - 1]))
  }

  datatype Published = Published(dir: RunDirectory, reply: Reply)

  /** `_publish_revision`. */
  function Publish(dir: RunDirectory, revision: nat, contents: Files, plan: SavePlan): Published
    requires HasAllKinds(contents)
  {
    if revision in dir.revisions then
      Published(dir, if plan.verify && EachFits(dir.revisions[revision]) && dir.revisions[revision] == contents then FINISHED else Refused)
    else
      var staged := Stage(contents, |KINDS|, plan.files);
      var abandoned := if plan.leftover then dir.(staging := dir.staging + multiset{revision}) else dir;
      if staged.reply != FINISHED then Published(abandoned, staged.reply)
      else
        var renamed := if Applied(plan.rename) then dir.(revisions := dir.revisions[revision := staged.files]) else abandoned;
        Published(renamed,
          if !plan.rename.Done? then Failure(plan.rename)
          else if plan.verify && staged.files == contents then FINISHED else Refused)
  }

  function Trimmed(files: Files, fate: Fate): Files {
    match fate
    case Whole => files
    case Without(gone) => files - gone
    case Gone => map[]
  }

  /** `_prune_revision_snapshots`: only numeric siblings of the kept revision are touched. */
  function Pruned(dir: RunDirectory, keep: nat, fate: nat -> Fate): RunDirectory {
    dir.(revisions := map r | r in dir.revisions && (r == keep || fate(r) != Gone) ::
      if r == keep then dir.revisions[r] else Trimmed(dir.revisions[r], fate(r)))
  }

  function Prune(d: Disk, runId: string, keep: nat, plan: PrunePlan): Disk {
    d.(runs := d.runs[runId := Pruned(DirectoryOf(d, runId), keep, plan.fate)])
  }

  // ---- Saving ----

  predicate IsEmptyObject(v: Json) { v == Obj([]) }

  /** What the repository holds once the request is saved on top of `existing`. */
  function NewStored(existing: Option<Stored>, req: Request): Stored {
    match existing
    case None => Stored(req.state, req.resume, req.decisions, req.events, req.artifacts, req.verification)
    case Some(old_) =>
      Stored(req.state, req.resume, old_.decisions + req.decisions, old_.events + req.events,
             if IsEmptyObject(req.artifacts) then old_.artifacts else req.artifacts,
             if IsEmptyObject(req.verification) then old_.verification else req.verification)
  }

  function Contents(s: Stored): (files: Files)
    ensures HasAllKinds(files)
  {
    map[StateFile := StateText(s.state), ResumeFile := Plain(s.resume), DecisionsFile := Plain(JsonlText(s.decisions)),
        EventsFile := Plain(JsonlText(s.events)), ArtifactsFile := Document(s.artifacts), VerificationFile := Document(s.verification)]
  }

  function BaseOf(existing: Option<Stored>): Option<Base> {
    match existing
    case None => None
    case Some(s) => Some(Base(s.state.runId, s.state.revision))
  }

  function NewManifest(existing: Option<Stored>, req: Request): Manifest {
    Manifest(req.state.runId, req.state.revision, Contents(NewStored(existing, req)), BaseOf(existing), req)
  }

  /** What lies under `revisions`: published directories and left-over staging directories, each under its own name. */
  function Entries(dir: RunDirectory): nat {
    |dir.revisions| + |dir.staging|
  }

  predicate HoldsOnly(dir: RunDirectory, revision: nat) {
    && dir.archive.None?
    && (forall r <- dir.revisions :: r == revision)
    && (forall r <- dir.staging :: r == revision)
  }

  /** An unreferenced run directory may be resumed only at the revision it already holds, and while its entries can be listed. */
  predicate CanResume(dir: RunDirectory, revision: nat) {
    HoldsOnly(dir, revision) && Entries(dir) <= MAX_DIRECTORY_ENTRIES
  }

  function LoadedBase(l: Loaded): Option<Base> {
    match l
    case Active(stored, _) => Some(Base(stored.state.runId, stored.state.revision))
    case _ => None
  }

  function FinishSave(d: Disk, runId: string, revision: nat, stored: Stored, plan: PrunePlan): Step {
    Step(Prune(d, runId, revision, plan), if plan.dies then Died else Answered(Some(stored)))
  }

  /** Publish the revision, replace the manifest, read it back, prune. */
  function Install(d: Disk, existing: Option<Stored>, req: Request, plan: SavePlan): Step {
    var runId, revision := req.state.runId, req.state.revision;
    var published := Publish(DirectoryOf(d, runId), revision, Contents(NewStored(existing, req)), plan);
    var d1 := d.(runs := d.runs[runId := published.dir]);
    if published.reply != FINISHED then Step(d1, published.reply)
    else
      var now := Load(d1);
      if !plan.recheck || now.Corrupt? || LoadedBase(now) != BaseOf(existing) then Step(d1, Refused)
      else
        var d2 := if Applied(plan.manifest) then d1.(active := Some(NewManifest(existing, req))) else d1;
        if !plan.manifest.Done? then Step(d2, Failure(plan.manifest))
        else
          var reloaded := Load(d2);
          if !plan.reload || !reloaded.Active? then Step(d2, Refused)
          else FinishSave(d2, runId, revision, reloaded.stored, plan.prune)
  }

  /** `_save_locked`. */
  function SaveSpec(d: Disk, req: Request, plan: SavePlan): Step {
    if !plan.readable then Step(d, Refused)
    else match Load(d)
      case Corrupt => Step(d, Refused)
      case NoRun =>
        if CanResume(DirectoryOf(d, req.state.runId), req.state.revision) then Install(d, None, req, plan) else Step(d, Refused)
      case Active(stored, manifest) =>
        if DirectoryOf(d, stored.state.runId).archive.Some? || stored.state.runId != req.state.runId then Step(d, Refused)
        else if req.state.revision > stored.state.revision then Install(d, Some(stored), req, plan)
        else if req.state.revision == stored.state.revision && manifest.request == req then
          FinishSave(d, stored.state.runId, stored.state.revision, stored, plan.prune)
        else Step(d, Refused)
  }

  // ---- Archiving ----

  function RemoveActive(d: Disk, fault: Fault): Step {
    Step(if Applied(fault) then d.(active := None) else d, if fault.Done? then FINISHED else Failure(fault))
  }

  /** `archive_active`. */
  function ArchiveSpec(d: Disk, expectedRunId: string, plan: ArchivePlan): Step {
    if !plan.readable then Step(d, Refused)
    else match Load(d)
      case NoRun => Step(d, FINISHED)
      case Corrupt => Step(d, Refused)
      case Active(stored, manifest) =>
        if stored.state.runId != expectedRunId then Step(d, Refused)
        else
          var runId := stored.state.runId;
          var pruned := Prune(d, runId, stored.state.revision, plan.prune);
          if plan.prune.dies then Step(pruned, Died)
          else
            var dir := DirectoryOf(pruned, runId);
            if dir.archive.Some? then
              if plan.reread && dir.archive == Some(manifest) then RemoveActive(pruned, plan.unlink) else Step(pruned, Refused)
            else
              var archived := if Applied(plan.archive) then pruned.(runs := pruned.runs[runId := dir.(archive := Some(manifest))]) else pruned;
              if !plan.archive.Done? then Step(archived, Failure(plan.archive)) else RemoveActive(archived, plan.unlink)
  }

  // ---- Histories ----

  datatype Operation = Save(request: Request, plan: SavePlan) | Archive(runId: string, archivePlan: ArchivePlan)

  function Apply(d: Disk, op: Operation): Step {
    match op
    case Save(request, plan) => SaveSpec(d, request, plan)
    case Archive(runId, plan) => ArchiveSpec(d, runId, plan)
  }

  function Run(d: Disk, ops: seq<Operation>): Disk
    decreases |ops|
  {
    if |ops| == 0 then d else Run(Apply(d, ops[0]).disk, ops[1..])
  }

  const EMPTY_DISK: Disk := Disk(None, map[])

  // ---- The repository ----

  class FileRunStateRepository {
    var active: Option<Manifest>
    var runs: map<string, RunDirectory>

    function Disk_(): Disk
      reads this
    {
      Disk(active, runs)
    }

    constructor (disk: Disk)
      ensures Disk_() == disk
    {
      active, runs := disk.active, disk.runs;
    }

    /** Write the six files into a staging directory, stopping at the first failure. */
    method StageFiles(contents: Files, plan: FileKind -> Fault) returns (staging: Files, reply: Reply)
      requires HasAllKinds(contents)
      ensures Staged(staging, reply) == Stage(contents, |KINDS|, plan)
    {
      hide Size, MAX_FILE_BYTES, KINDS, HasAllKinds;
      staging, reply := map[], FINISHED;
      for n := 0 to |KINDS|
        invariant reply == FINISHED && Stage(contents, n, plan) == Staged(staging, FINISHED)
      {
        var kind := KINDS[n];
        HasKind(contents, kind);
        if Size(contents[kind]) > MAX_FILE_BYTES {
          StageStops(contents, n + 1, plan);
          return staging, Refused;
        }
        var fault := plan(kind);
        if Applied(fault) { staging := staging[kind := contents[kind]]; }
        if !fault.Done? {
          StageStops(contents, n + 1, plan);
          return staging, Failure(fault);
        }
      }
    }

    method PublishRevision(runId: string, revision: nat, contents: Files, plan: SavePlan) returns (reply: Reply)
      requires HasAllKinds(contents)
      modifies this`runs
      ensures var published := Publish(DirectoryOf(old(Disk_()), runId), revision, contents, plan);
              runs == old(runs)[runId := published.dir] && reply == published.reply
    {
      hide EachFits, Stage, HasAllKinds;
      var dir := if runId in runs then runs[runId] else NO_RUN;
      runs := runs[runId := dir];
      if revision in dir.revisions {
        return if plan.verify && EachFits(dir.revisions[revision]) && dir.revisions[revision] == contents then FINISHED else Refused;
      }
      var staging;
      staging, reply := StageFiles(contents, plan.files);
      if (reply != FINISHED || !Applied(plan.rename)) && plan.leftover {
        runs := runs[runId := dir.(staging := dir.staging + multiset{revision})];
      }
      if reply != FINISHED { return; }
      if Applied(plan.rename) { runs := runs[runId := dir.(revisions := dir.revisions[revision := staging])]; }
      if !plan.rename.Done? { return Failure(plan.rename); }
      reply := if plan.verify && staging == contents then FINISHED else Refused;
    }

    /** Discard what can be discarded of every other revision, one directory at a time. */
    method PrunedRevisions(dir: RunDirectory, keep: nat, fate: nat -> Fate) returns (revisions: map<nat, Files>)
      ensures revisions == Pruned(dir, keep, fate).revisions
    {
      hide Trimmed, Pruned, Untouched;
      revisions := dir.revisions;
      var candidates := dir.revisions.Keys;
      PruneStartsWhole(dir, keep, fate);
      while candidates != {}
        invariant candidates <= dir.revisions.Keys
        invariant revisions == Pruned(dir, keep, Untouched(candidates, fate)).revisions
        decreases |candidates|
      {
        var candidate :| candidate in candidates;
        PruneStep(dir, keep, fate, candidates, candidate);
        candidates := candidates - {candidate};
        if candidate != keep {
          if fate(candidate).Gone? {
            revisions := revisions - {candidate};
          } else {
            revisions := revisions[candidate := Trimmed(revisions[candidate], fate(candidate))];
          }
        }
      }
      PruneEnds(dir, keep, fate);
    }

    method PruneRevisionSnapshots(runId: string, keep: nat, plan: PrunePlan)
      modifies this`runs
      ensures Disk_() == Prune(old(Disk_()), runId, keep, plan)
    {
      var dir := if runId in runs then runs[runId] else NO_RUN;
      var revisions := PrunedRevisions(dir, keep, plan.fate);
      runs := runs[runId := dir.(revisions := revisions)];
    }

    method InstallRevision(existing: Option<Stored>, req: Request, plan: SavePlan) returns (reply: Reply)
      modifies this
      ensures Step(Disk_(), reply) == Install(old(Disk_()), existing, req, plan)
    {
      hide Publish, Load, Contents, NewStored;
      var runId, revision := req.state.runId, req.state.revision;
      reply := PublishRevision(runId, revision, Contents(NewStored(existing, req)), plan);
      if reply != FINISHED { return; }
      var now := Load(Disk_());
      if !plan.recheck || now.Corrupt? || LoadedBase(now) != BaseOf(existing) { return Refused; }
      if Applied(plan.manifest) { active := Some(NewManifest(existing, req)); }
      if !plan.manifest.Done? { return Failure(plan.manifest); }
      var reloaded := Load(Disk_());
      if !plan.reload || !reloaded.Active? { return Refused; }
      PruneRevisionSnapshots(runId, revision, plan.prune);
      reply := if plan.prune.dies then Died else Answered(Some(reloaded.stored));
    }

    method SaveState(req: Request, plan: SavePlan) returns (reply: Reply)
      modifies this
      ensures Step(Disk_(), reply) == SaveSpec(old(Disk_()), req, plan)
    {
      hide Install, Load, Prune;
      if !plan.readable { return Refused; }
      var loaded := Load(Disk_());
      match loaded
      case Corrupt => return Refused;
      case NoRun =>
        if !CanResume(DirectoryOf(Disk_(), req.state.runId), req.state.revision) { return Refused; }
        reply := InstallRevision(None, req, plan);
      case Active(stored, manifest) =>
        if DirectoryOf(Disk_(), stored.state.runId).archive.Some? || stored.state.runId != req.state.runId { return Refused; }
        if req.state.revision <= stored.state.revision {
          if req.state.revision == stored.state.revision && manifest.request == req {
            PruneRevisionSnapshots(stored.state.runId, stored.state.revision, plan.prune);
            return if plan.prune.dies then Died else Answered(Some(stored));
          }
          return Refused;
        }
        reply := InstallRevision(Some(stored), req, plan);
    }

    method ArchiveActive(expectedRunId: string, plan: ArchivePlan) returns (reply: Reply)
      modifies this
      ensures Step(Disk_(), reply) == ArchiveSpec(old(Disk_()), expectedRunId, plan)
    {
      hide Load, Pruned;
      if !plan.readable { return Refused; }
      var loaded := Load(Disk_());
      match loaded
      case NoRun => return FINISHED;
      case Corrupt => return Refused;
      case Active(stored, manifest) =>
        var runId := stored.state.runId;
        if runId != expectedRunId { return Refused; }
        PruneRevisionSnapshots(runId, stored.state.revision, plan.prune);
        if plan.prune.dies { return Died; }
        var dir := DirectoryOf(Disk_(), runId);
        if dir.archive.Some? {
          if !plan.reread || dir.archive != Some(manifest) { return Refused; }
        } else {
          if Applied(plan.archive) { runs := runs[runId := dir.(archive := Some(manifest))]; }
          if !plan.archive.Done? { return Failure(plan.archive); }
        }
        if Applied(plan.unlink) { active := None; }
        reply := if plan.unlink.Done? then FINISHED else Failure(plan.unlink);
    }
  }

  lemma HasKind(files: Files, kind: FileKind)
    requires HasAllKinds(files) && kind in KINDS
    ensures kind in files
  {
  }

  lemma WholeTrim(files: Files)
    ensures Trimmed(files, Whole) == files
  {
  }

  /** The fates once all but these candidates have been visited. */
  ghost function Untouched(candidates: set<nat>, fate: nat -> Fate): nat -> Fate {
    (r: nat) => if r in candidates then Whole else fate(r)
  }

  lemma PruneStartsWhole(dir: RunDirectory, keep: nat, fate: nat -> Fate)
    ensures Pruned(dir, keep, Untouched(dir.revisions.Keys, fate)).revisions == dir.revisions
  {
  }

  lemma PruneEnds(dir: RunDirectory, keep: nat, fate: nat -> Fate)
    ensures Pruned(dir, keep, Untouched({}, fate)).revisions == Pruned(dir, keep, fate).revisions
  {
    hide Trimmed;
  }

  /** Discarding one more candidate. */
  lemma PruneStep(dir: RunDirectory, keep: nat, fate: nat -> Fate, candidates: set<nat>, candidate: nat)
    requires candidate in candidates && candidates <= dir.revisions.Keys
    ensures var before := Pruned(dir, keep, Untouched(candidates, fate)).revisions;
            var after := Pruned(dir, keep, Untouched(candidates - {candidate}, fate)).revisions;
            && candidate in before && before[candidate] == dir.revisions[candidate]
            && after == if candidate == keep then before
                        else if fate(candidate).Gone? then before - {candidate}
                        else before[candidate := Trimmed(dir.revisions[candidate], fate(candidate))]
  {
    hide Trimmed;
    WholeTrim(dir.revisions[candidate]);
  }

  /** A failed write ends the staging. */
  lemma {:induction false} StageStops(contents: Files, n: nat, plan: FileKind -> Fault)
    requires HasAllKinds(contents) && n <= |KINDS| && Stage(contents, n, plan).reply != FINISHED
    ensures Stage(contents, |KINDS|, plan) == Stage(contents, n, plan)
    decreases |KINDS| - n
  {
    hide Size;
    if n < |KINDS| { StageStops(contents, n + 1, plan); }
  }
}
