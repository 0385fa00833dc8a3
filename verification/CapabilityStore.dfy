/**
  The capability store: an index of installed revisions over immutable revision directories. Install and
  upgrade publish a directory before the index names it; remove moves the directory aside, rewrites the
  index and puts the directory back when the write raises.
 */
module CapabilityStore {
  import opened Text
  import opened Wrappers
  import opened Faults
  import MemoryIndex

  const MAX_REVISIONS: nat := 64
  const MAX_IDENTIFIER: nat := 128
  const KINDS: set<string> := {"skill", "plugin", "ui_component"}

  // ---- Identifiers and directory names ----

  predicate IsIdentifierStart(c: char) { 'a' <= c <= 'z' || '0' <= c <= '9' }

  predicate IsIdentifierChar(c: char) { IsIdentifierStart(c) || c == '.' || c == '_' || c == '-' }

  predicate IsStorageSafe(c: char) { IsIdentifierStart(c) || c == '_' || c == '-' }

  predicate IsHexDigit(c: char) { '0' <= c <= '9' || 'a' <= c <= 'f' }

  /** `kind:identifier`, split. */
  datatype CapabilityId = CapabilityId(kind: string, identifier: string)
  {
    predicate Valid() {
      && kind in KINDS
      && 1 <= |identifier| <= MAX_IDENTIFIER && IsIdentifierStart(identifier[0])
      && forall c <- identifier :: IsIdentifierChar(c)
    }
  }

  predicate IsRevision(revision: string) {
    |revision| == 64 && forall c <- revision :: IsHexDigit(c)
  }

  function StorageChar(c: char): string {
    if IsStorageSafe(c) then [c] else "~2e"
  }

  /** The identifier as one portable path component: the dot is the only character written as `~` and its code. */
  function StorageIdentifier(identifier: string): string {
    if identifier == "" then "" else StorageChar(identifier[0]) + StorageIdentifier(identifier[1..])
  }

  function RevisionPath(id: CapabilityId, revision: string): string {
    "capabilities/" + id.kind + "/" + StorageIdentifier(id.identifier) + "/revisions/" + revision
  }

  lemma {:induction false} StorageInjective(a: string, b: string)
    requires forall c <- a :: IsIdentifierChar(c)
    requires forall c <- b :: IsIdentifierChar(c)
    requires StorageIdentifier(a) == StorageIdentifier(b)
    ensures a == b
  {
    if a != "" && b != "" {
      assert a[0] in a && b[0] in b;
      var x, y := StorageIdentifier(a[1..]), StorageIdentifier(b[1..]);
      assert (StorageChar(a[0]) + x)[0] == StorageChar(a[0])[0] && (StorageChar(b[0]) + y)[0] == StorageChar(b[0])[0];
      assert a[0] == b[0];
      assert StorageIdentifier(a)[|StorageChar(a[0])|..] == x && StorageIdentifier(b)[|StorageChar(b[0])|..] == y;
      StorageInjective(a[1..], b[1..]);
      assert a == [a[0]] + a[1..] && b == [b[0]] + b[1..];
    }
  }

  lemma {:induction false} StorageHasNoSlash(identifier: string)
    ensures '/' !in StorageIdentifier(identifier)
  {
    if identifier != "" { StorageHasNoSlash(identifier[1..]); }
  }

  /** Components without a slash can be told apart in the joined path. */
  lemma SlashSplits(a: string, x: string, b: string, y: string)
    requires '/' !in a && '/' !in b && a + "/" + x == b + "/" + y
    ensures a == b && x == y
  {
    var s := a + "/" + x;
    assert s[|a|] == '/' && s == b + "/" + y;
    MemoryIndex.IndexOfUnique(s, '/', |a|);
    MemoryIndex.IndexOfUnique(s, '/', |b|);
    assert a == s[..|a|] == b && x == s[|a| + 1..] == y;
  }

  lemma KindHasNoSlash(kind: string)
    requires kind in KINDS
    ensures '/' !in kind
  {
  }

  /** Distinct ids, or distinct revisions, never share a directory. */
  lemma RevisionPathInjective(a: CapabilityId, r: string, b: CapabilityId, q: string)
    requires a.Valid() && b.Valid() && RevisionPath(a, r) == RevisionPath(b, q)
    ensures a == b && r == q
  {
    hide KINDS, RevisionPath, StorageIdentifier;
    KindHasNoSlash(a.kind);
    KindHasNoSlash(b.kind);
    StorageHasNoSlash(a.identifier);
    StorageHasNoSlash(b.identifier);
    PathShape(a, r);
    PathShape(b, q);
    SlashSplits(a.kind, StorageIdentifier(a.identifier) + "/" + ("revisions/" + r), b.kind, StorageIdentifier(b.identifier) + "/" + ("revisions/" + q));
    SlashSplits(StorageIdentifier(a.identifier), "revisions/" + r, StorageIdentifier(b.identifier), "revisions/" + q);
    SamePrefix("revisions/", r, q);
    StorageInjective(a.identifier, b.identifier);
  }

  lemma SamePrefix(prefix: string, r: string, q: string)
    requires prefix + r == prefix + q
    ensures r == q
  {
    assert r == (prefix + r)[|prefix|..] && q == (prefix + q)[|prefix|..];
  }

  lemma PathShape(id: CapabilityId, r: string)
    ensures RevisionPath(id, r)[13..] == id.kind + "/" + (StorageIdentifier(id.identifier) + "/" + ("revisions/" + r))
  {
    hide StorageIdentifier;
    var storage := StorageIdentifier(id.identifier);
    assert RevisionPath(id, r) == "capabilities/" + (id.kind + "/" + (storage + "/" + ("revisions/" + r))) by {
      assert storage + "/revisions/" + r == storage + "/" + ("revisions/" + r);
    }
  }

  // ---- The store ----

  /** A verified package, as installed: its revision is the digest of its bundle. */
  datatype Installed = Installed(id: CapabilityId, revision: string, record: string)

  datatype Entry = Entry(selected: string, revisions: seq<string>)

  type Index = map<CapabilityId, Entry>

  datatype Disk = Disk(index: Index, directories: map<string, Installed>)

  const EMPTY_DISK: Disk := Disk(map[], map[])

  /** `readable` covers every read of state the operation makes, `intact` the digests of the stored payload. */
  datatype Plan = Plan(readable: bool, intact: bool, publish: Fault, write: Fault, sweep: Fault)

  datatype Reply = Done_(installed: Option<Installed>) | Refused | Died

  datatype Step = Step(disk: Disk, reply: Reply)

  function Failure(fault: Fault): Reply
    requires !fault.Done?
  {
    if fault.Raise? then Refused else Died
  }

  /** `_load_revision`. */
  function LoadRevision(d: Disk, id: CapabilityId, revision: string): Option<Installed> {
    var path := RevisionPath(id, revision);
    if path in d.directories && d.directories[path].id == id && d.directories[path].revision == revision then Some(d.directories[path]) else None
  }

  function Position(revisions: seq<string>, revision: string): (i: nat)
    requires revision in revisions
    ensures i < |revisions| && revisions[i] == revision && forall j :: 0 <= j < i ==> revisions[j] != revision
  {
    if revisions[0] == revision then 0 else 1 + Position(revisions[1..], revision)
  }

  function Without(revisions: seq<string>, revision: string): (r: seq<string>)
    ensures forall x :: x in r <==> x in revisions && x != revision
  {
    if |revisions| == 0 then []
    else (if revisions[0] == revision then [] else [revisions[0]]) + Without(revisions[1..], revision)
  }

  /** The same package again: accepted when what is stored matches and is intact. */
  function Again(d: Disk, package: Installed, plan: Plan): Step {
    if LoadRevision(d, package.id, package.revision) == Some(package) && plan.intact then Step(d, Done_(Some(package))) else Step(d, Refused)
  }

  function WriteIndex(d: Disk, index: Index, fault: Fault): Disk {
    if Applied(fault) then d.(index := index) else d
  }

  /** `_publish_revision`, then the index write and the final read. */
  function PublishAndWrite(d: Disk, package: Installed, entry: Entry, plan: Plan): Step {
    var path := RevisionPath(package.id, package.revision);
    if path in d.directories && d.directories[path] != package then Step(d, Refused)
    else if path !in d.directories && !plan.publish.Done? then
      Step(if Applied(plan.publish) then d.(directories := d.directories[path := package]) else d, Failure(plan.publish))
    else
      var published := d.(directories := d.directories[path := package]);
      var written := WriteIndex(published, d.index[package.id := entry], plan.write);
      Step(written, if plan.write.Done? then Done_(Some(package)) else Failure(plan.write))
  }

  function InstallSpec(d: Disk, package: Installed, plan: Plan): Step {
    if !plan.readable then Step(d, Refused)
    else if package.id in d.index then
      if package.revision in d.index[package.id].revisions then Again(d, package, plan) else Step(d, Refused)
    else PublishAndWrite(d, package, Entry(package.revision, [package.revision]), plan)
  }

  function UpgradeSpec(d: Disk, package: Installed, plan: Plan): Step {
    if !plan.readable || package.id !in d.index then Step(d, Refused)
    else
      var entry := d.index[package.id];
      if package.revision in entry.revisions then Again(d, package, plan)
      else if |entry.revisions| >= MAX_REVISIONS then Step(d, Refused)
      else PublishAndWrite(d, package, Entry(package.revision, entry.revisions + [package.revision]), plan)
  }

  /** The revision a rollback selects: the one named, or the one before the selected one. */
  function RollbackTarget(entry: Entry, revision: Option<string>): Option<string> {
    match revision
    case Some(r) => if r in entry.revisions then Some(r) else None
    case None =>
      if entry.selected !in entry.revisions || Position(entry.revisions, entry.selected) == 0 then None
      else Some(entry.revisions[Position(entry.revisions, entry.selected) - 1])
  }

  function RollbackSpec(d: Disk, id: CapabilityId, revision: Option<string>, plan: Plan): Step {
    if !plan.readable || id !in d.index then Step(d, Refused)
    else match RollbackTarget(d.index[id], revision)
      case None => Step(d, Refused)
      case Some(target) =>
        (match LoadRevision(d, id, target)
         case None => Step(d, Refused)
         case Some(installed) =>
           if !plan.intact then Step(d, Refused)
           else if d.index[id].selected == target then Step(d, Done_(Some(installed)))
           else
             Step(WriteIndex(d, d.index[id := d.index[id].(selected := target)], plan.write),
                  if plan.write.Done? then Done_(Some(installed)) else Failure(plan.write)))
  }

  /** What the entry becomes without the revision; a removed selection falls back to its predecessor, or to the first left. */
  function Reduced(entry: Entry, target: string): Option<Entry>
    requires target in entry.revisions
  {
    var remaining := Without(entry.revisions, target);
    var i := Position(entry.revisions, target);
    if |remaining| == 0 then None
    else if entry.selected != target then Some(Entry(entry.selected, remaining))
    else Some(Entry(if i > 0 then entry.revisions[i - 1] else remaining[0], remaining))
  }

  function IndexWithout(index: Index, id: CapabilityId, target: string): Index
    requires id in index && target in index[id].revisions
  {
    match Reduced(index[id], target)
    case None => index - {id}
    case Some(entry) => index[id := entry]
  }

  /** `remove`; `publish` is the move of the directory to its tombstone, a single rename that has no effect when it raises, and `sweep` the deletion of the tombstone, whose failure is answered although the removal took effect. */
  function RemoveSpec(d: Disk, id: CapabilityId, revision: Option<string>, plan: Plan): Step {
    if !plan.readable then Step(d, Refused)
    else if id !in d.index then Step(d, Done_(None))
    else
      var entry := d.index[id];
      var target := if revision.Some? then revision.value else entry.selected;
      if target !in entry.revisions then Step(d, Done_(None))
      else if LoadRevision(d, id, target).None? then Step(d, Refused)
      else if entry.selected == target && Reduced(entry, target).Some?
              && (LoadRevision(d, id, Reduced(entry, target).value.selected).None? || !plan.intact) then Step(d, Refused)
      else
        var moved := if plan.publish.Done? || plan.publish == Die(true) then d.(directories := d.directories - {RevisionPath(id, target)}) else d;
        if !plan.publish.Done? then Step(moved, Failure(plan.publish))
        else
          var written := WriteIndex(moved, IndexWithout(d.index, id, target), plan.write);
          match plan.write
          case Done => Step(written, if plan.sweep.Done? then Done_(LoadRevision(d, id, target)) else Failure(plan.sweep))
          case Raise(_) => Step(written.(directories := d.directories), Refused)
          case Die(_) => Step(written, Died)
  }

  class FileCapabilityStore {
    var index: Index
    var directories: map<string, Installed>

    function Disk_(): Disk
      reads this
    {
      Disk(index, directories)
    }

    constructor (disk: Disk)
      ensures Disk_() == disk
    {
      index, directories := disk.index, disk.directories;
    }

    method PublishAndRecord(package: Installed, entry: Entry, plan: Plan) returns (reply: Reply)
      modifies this
      ensures Step(Disk_(), reply) == PublishAndWrite(old(Disk_()), package, entry, plan)
    {
      hide RevisionPath;
      var path := RevisionPath(package.id, package.revision);
      if path in directories {
        if directories[path] != package { return Refused; }
      } else {
        if Applied(plan.publish) { directories := directories[path := package]; }
        if !plan.publish.Done? { return Failure(plan.publish); }
      }
      assert directories == old(directories)[path := package];
      if Applied(plan.write) { index := index[package.id := entry]; }
      reply := if plan.write.Done? then Done_(Some(package)) else Failure(plan.write);
    }

    method Install(package: Installed, plan: Plan) returns (reply: Reply)
      modifies this
      ensures Step(Disk_(), reply) == InstallSpec(old(Disk_()), package, plan)
    {
      hide RevisionPath;
      if !plan.readable { return Refused; }
      if package.id in index {
        if package.revision !in index[package.id].revisions { return Refused; }
        return Again(Disk_(), package, plan).reply;
      }
      reply := PublishAndRecord(package, Entry(package.revision, [package.revision]), plan);
    }

    method Upgrade(package: Installed, plan: Plan) returns (reply: Reply)
      modifies this
      ensures Step(Disk_(), reply) == UpgradeSpec(old(Disk_()), package, plan)
    {
      hide RevisionPath;
      if !plan.readable || package.id !in index { return Refused; }
      var entry := index[package.id];
      if package.revision in entry.revisions { return Again(Disk_(), package, plan).reply; }
      if |entry.revisions| >= MAX_REVISIONS { return Refused; }
      reply := PublishAndRecord(package, Entry(package.revision, entry.revisions + [package.revision]), plan);
    }

    method Rollback(id: CapabilityId, revision: Option<string>, plan: Plan) returns (reply: Reply)
      modifies this
      ensures Step(Disk_(), reply) == RollbackSpec(old(Disk_()), id, revision, plan)
    {
      hide RevisionPath;
      if !plan.readable || id !in index { return Refused; }
      var target := RollbackTarget(index[id], revision);
      if target.None? { return Refused; }
      var installed := LoadRevision(Disk_(), id, target.value);
      if installed.None? || !plan.intact { return Refused; }
      if index[id].selected == target.value { return Done_(installed); }
      if Applied(plan.write) { index := index[id := index[id].(selected := target.value)]; }
      reply := if plan.write.Done? then Done_(installed) else Failure(plan.write);
    }

    method Remove(id: CapabilityId, revision: Option<string>, plan: Plan) returns (reply: Reply)
      modifies this
      ensures Step(Disk_(), reply) == RemoveSpec(old(Disk_()), id, revision, plan)
    {
      hide RevisionPath, LoadRevision, Reduced;
      if !plan.readable { return Refused; }
      if id !in index { return Done_(None); }
      var entry := index[id];
      var target := if revision.Some? then revision.value else entry.selected;
      if target !in entry.revisions { return Done_(None); }
      var installed := LoadRevision(Disk_(), id, target);
      if installed.None? { return Refused; }
      var reduced := Reduced(entry, target);
      if entry.selected == target && reduced.Some? {
        if LoadRevision(Disk_(), id, reduced.value.selected).None? || !plan.intact { return Refused; }
      }
      var before := directories;
      if plan.publish.Done? || plan.publish == Die(true) { directories := directories - {RevisionPath(id, target)}; }
      if !plan.publish.Done? { return Failure(plan.publish); }
      if Applied(plan.write) { index := IndexWithout(index, id, target); }
      match plan.write
      case Done => reply := if plan.sweep.Done? then Done_(installed) else Failure(plan.sweep);
      case Raise(_) =>
        directories := before;
        reply := Refused;
      case Die(_) => reply := Died;
    }
  }

  // ---- Invariant ----

  ghost predicate EntryOK(entry: Entry) {
    && 1 <= |entry.revisions| <= MAX_REVISIONS
    && (forall i, j :: 0 <= i < j < |entry.revisions| ==> entry.revisions[i] != entry.revisions[j])
    && entry.selected in entry.revisions
  }

  /** Each listed revision's directory is there and holds that very revision. */
  ghost predicate Present(d: Disk, id: CapabilityId) {
    id in d.index ==> forall r <- d.index[id].revisions :: LoadRevision(d, id, r).Some?
  }

  ghost predicate Inv(d: Disk) {
    && (forall id :: id in d.index ==> id.Valid() && EntryOK(d.index[id]) && Present(d, id))
    && (forall path :: path in d.directories ==>
          d.directories[path].id.Valid() && path == RevisionPath(d.directories[path].id, d.directories[path].revision))
  }

  lemma EmptyIsInv()
    ensures Inv(EMPTY_DISK)
  {
  }

  /** The index moves to a sound entry for one capability while the directories stay or grow. */
  lemma EntryChangeKeepsInv(d: Disk, directories: map<string, Installed>, id: CapabilityId, entry: Entry)
    requires Inv(d) && id.Valid() && EntryOK(entry)
    requires Inv(Disk(d.index, directories))
    requires forall r <- entry.revisions :: LoadRevision(Disk(d.index, directories), id, r).Some?
    ensures Inv(Disk(d.index[id := entry], directories))
  {
    hide RevisionPath, EntryOK;
    var d' := Disk(d.index[id := entry], directories);
    forall i | i in d'.index ensures Present(d', i) {
      if i != id { assert Present(Disk(d.index, directories), i); }
    }
  }

  lemma DirectoryAddedKeepsInv(d: Disk, package: Installed)
    requires Inv(d) && package.id.Valid()
    requires RevisionPath(package.id, package.revision) !in d.directories || d.directories[RevisionPath(package.id, package.revision)] == package
    ensures Inv(d.(directories := d.directories[RevisionPath(package.id, package.revision) := package]))
  {
    hide RevisionPath, EntryOK;
    var d' := d.(directories := d.directories[RevisionPath(package.id, package.revision) := package]);
    forall i | i in d'.index ensures Present(d', i) { assert Present(d, i); }
  }

  lemma PublishKeepsInv(d: Disk, package: Installed, entry: Entry, plan: Plan)
    requires Inv(d) && package.id.Valid() && EntryOK(entry)
    requires forall r <- entry.revisions :: r == package.revision || (package.id in d.index && r in d.index[package.id].revisions)
    ensures Inv(PublishAndWrite(d, package, entry, plan).disk)
  {
    hide RevisionPath, EntryOK;
    var path := RevisionPath(package.id, package.revision);
    if path !in d.directories || d.directories[path] == package {
      DirectoryAddedKeepsInv(d, package);
      var directories := d.directories[path := package];
      forall r <- entry.revisions ensures LoadRevision(Disk(d.index, directories), package.id, r).Some? {
        if r != package.revision { assert Present(Disk(d.index, directories), package.id); }
      }
      EntryChangeKeepsInv(d, directories, package.id, entry);
    }
  }

  lemma InstallKeepsInv(d: Disk, package: Installed, plan: Plan)
    requires Inv(d) && package.id.Valid()
    ensures Inv(InstallSpec(d, package, plan).disk)
  {
    hide RevisionPath;
    if package.id !in d.index { PublishKeepsInv(d, package, Entry(package.revision, [package.revision]), plan); }
  }

  lemma UpgradeKeepsInv(d: Disk, package: Installed, plan: Plan)
    requires Inv(d) && package.id.Valid()
    ensures Inv(UpgradeSpec(d, package, plan).disk)
  {
    hide RevisionPath;
    if package.id in d.index {
      var entry := d.index[package.id];
      if package.revision !in entry.revisions && |entry.revisions| < MAX_REVISIONS {
        var longer := Entry(package.revision, entry.revisions + [package.revision]);
        assert longer.revisions[|entry.revisions|] == package.revision;
        PublishKeepsInv(d, package, longer, plan);
      }
    }
  }

  lemma RollbackKeepsInv(d: Disk, id: CapabilityId, revision: Option<string>, plan: Plan)
    requires Inv(d)
    ensures Inv(RollbackSpec(d, id, revision, plan).disk)
  {
    hide RevisionPath, LoadRevision;
    if id in d.index && RollbackTarget(d.index[id], revision).Some? {
      assert Present(d, id);
      EntryChangeKeepsInv(d, d.directories, id, d.index[id].(selected := RollbackTarget(d.index[id], revision).value));
    }
  }

  lemma {:induction false} WithoutShorter(revisions: seq<string>, target: string)
    requires forall i, j :: 0 <= i < j < |revisions| ==> revisions[i] != revisions[j]
    ensures |Without(revisions, target)| <= |revisions|
    ensures forall i, j :: 0 <= i < j < |Without(revisions, target)| ==> Without(revisions, target)[i] != Without(revisions, target)[j]
  {
    if |revisions| > 0 {
      var rest := Without(revisions[1..], target);
      WithoutShorter(revisions[1..], target);
      forall k | 0 <= k < |rest| ensures rest[k] != revisions[0] {
        assert rest[k] in rest;
        var j :| 0 <= j < |revisions| - 1 && revisions[1..][j] == rest[k];
        assert revisions[j + 1] == rest[k];
      }
    }
  }

  lemma {:induction false} CutAt(revisions: seq<string>, i: nat)
    requires i < |revisions| && forall j, k :: 0 <= j < k < |revisions| ==> revisions[j] != revisions[k]
    ensures Without(revisions, revisions[i]) == revisions[..i] + revisions[i + 1..]
  {
    if i > 0 {
      assert revisions[0] != revisions[i] && revisions[1..][i - 1] == revisions[i];
      CutAt(revisions[1..], i - 1);
      assert revisions[..i] == [revisions[0]] + revisions[1..][..i - 1] && revisions[1..][i..] == revisions[i + 1..];
    } else {
      NothingToCut(revisions[1..], revisions[0]);
    }
  }

  lemma {:induction false} NothingToCut(revisions: seq<string>, x: string)
    requires forall j :: 0 <= j < |revisions| ==> revisions[j] != x
    ensures Without(revisions, x) == revisions
  {
    if |revisions| > 0 { NothingToCut(revisions[1..], x); }
  }

  /** Removing keeps the entry sound: the selection moves only when it was removed, to its predecessor or the first left. */
  lemma ReducedOK(entry: Entry, target: string)
    requires EntryOK(entry) && target in entry.revisions
    ensures Reduced(entry, target).None? <==> entry.revisions == [target]
    ensures Reduced(entry, target).Some? ==>
              var reduced := Reduced(entry, target).value;
              && EntryOK(reduced) && target !in reduced.revisions && (forall r <- reduced.revisions :: r in entry.revisions)
              && (entry.selected != target ==> reduced.selected == entry.selected)
  {
    WithoutShorter(entry.revisions, target);
    assert Without([target], target) == [] by { assert [target][1..] == []; }
    var remaining := Without(entry.revisions, target);
    var i := Position(entry.revisions, target);
    if |remaining| == 0 {
      forall k | 0 <= k < |entry.revisions| ensures entry.revisions[k] == target {
        assert entry.revisions[k] in entry.revisions;
      }
      assert |entry.revisions| == 1;
    } else {
      assert remaining[0] in remaining;
      if i > 0 { assert entry.revisions[i - 1] in remaining; }
    }
  }

  /** The list loses exactly the i-th revision; a removed selection falls back to its predecessor, or to the next when it was the oldest. */
  lemma ReducedCut(entry: Entry, i: nat)
    requires EntryOK(entry) && i < |entry.revisions| && |entry.revisions| > 1
    ensures var target := entry.revisions[i];
            && Reduced(entry, target).Some?
            && var reduced := Reduced(entry, target).value;
               && reduced.revisions == entry.revisions[..i] + entry.revisions[i + 1..]
               && reduced.selected == (if entry.selected != target then entry.selected else entry.revisions[if i > 0 then i - 1 else 1])
  {
    CutAt(entry.revisions, i);
    PositionUnique(entry.revisions, i);
    hide Position, Without;
    assert |entry.revisions[..i] + entry.revisions[i + 1..]| == |entry.revisions| - 1;
    if i == 0 { assert (entry.revisions[..0] + entry.revisions[1..])[0] == entry.revisions[1]; }
  }

  /** The directory of a removed revision goes; every other listed one stays. */
  lemma DirectoryGone(d: Disk, index: Index, id: CapabilityId, target: string)
    requires Inv(d) && id in d.index && target in d.index[id].revisions
    requires index == IndexWithout(d.index, id, target)
    ensures Inv(Disk(index, d.directories - {RevisionPath(id, target)}))
  {
    hide RevisionPath, EntryOK, Reduced, LoadRevision;
    ReducedOK(d.index[id], target);
    var d' := Disk(index, d.directories - {RevisionPath(id, target)});
    forall i | i in d'.index ensures Present(d', i) {
      assert Present(d, i);
      forall r <- d'.index[i].revisions ensures LoadRevision(d', i, r).Some? {
        assert r in d.index[i].revisions && (i != id || r != target);
        OtherDirectoryStays(d, i, r, id, target);
      }
    }
  }

  lemma OtherDirectoryStays(d: Disk, i: CapabilityId, r: string, id: CapabilityId, target: string)
    requires i.Valid() && id.Valid() && (i != id || r != target) && LoadRevision(d, i, r).Some?
    ensures forall index: Index :: LoadRevision(Disk(index, d.directories - {RevisionPath(id, target)}), i, r).Some?
  {
    hide RevisionPath;
    if RevisionPath(i, r) == RevisionPath(id, target) { RevisionPathInjective(i, r, id, target); }
  }

  lemma IndexShrinksKeepsInv(d: Disk, id: CapabilityId, target: string)
    requires Inv(d) && id in d.index && target in d.index[id].revisions
    ensures Inv(Disk(IndexWithout(d.index, id, target), d.directories))
  {
    hide RevisionPath, EntryOK;
    ReducedOK(d.index[id], target);
    var d' := Disk(IndexWithout(d.index, id, target), d.directories);
    forall i | i in d'.index ensures Present(d', i) { assert Present(d, i); }
  }

  /** Whether the process died after the directory was moved aside and before the index stopped naming it. */
  predicate DiedBetween(plan: Plan) {
    plan.publish == Die(true) || (plan.publish.Done? && plan.write == Die(false))
  }

  lemma RemoveKeepsInv(d: Disk, id: CapabilityId, revision: Option<string>, plan: Plan)
    requires Inv(d) && !DiedBetween(plan)
    ensures Inv(RemoveSpec(d, id, revision, plan).disk)
  {
    hide RevisionPath, LoadRevision, EntryOK, Present, Reduced;
    if id in d.index {
      var target := if revision.Some? then revision.value else d.index[id].selected;
      if target in d.index[id].revisions {
        DirectoryGone(d, IndexWithout(d.index, id, target), id, target);
        IndexShrinksKeepsInv(d, id, target);
      }
    }
  }

  /** The removal got as far as moving the directory. */
  ghost predicate ReachesMove(d: Disk, id: CapabilityId, target: string, plan: Plan) {
    && plan.readable && id in d.index && target in d.index[id].revisions && LoadRevision(d, id, target).Some?
    && (d.index[id].selected == target && Reduced(d.index[id], target).Some? ==>
          LoadRevision(d, id, Reduced(d.index[id], target).value.selected).Some? && plan.intact)
  }

  /** A removal that gets to the move leaves every listed revision present exactly unless the process dies between the move and the index write. */
  lemma RemoveKeepsInvIff(d: Disk, id: CapabilityId, target: string, plan: Plan)
    requires Inv(d) && ReachesMove(d, id, target, plan)
    ensures Inv(RemoveSpec(d, id, Some(target), plan).disk) <==> !DiedBetween(plan)
  {
    hide RevisionPath, EntryOK, Reduced;
    if DiedBetween(plan) {
      var d' := RemoveSpec(d, id, Some(target), plan).disk;
      assert target in d'.index[id].revisions && LoadRevision(d', id, target).None?;
      assert !Present(d', id);
    } else {
      RemoveKeepsInv(d, id, Some(target), plan);
    }
  }

  // ---- Histories ----

  datatype Operation =
    | Install(package: Installed)
    | Upgrade(package: Installed)
    | Rollback(id: CapabilityId, revision: Option<string>)
    | Remove(id: CapabilityId, revision: Option<string>)

  datatype Call = Call(operation: Operation, plan: Plan)

  function Apply(d: Disk, c: Call): Step {
    match c.operation
    case Install(package) => InstallSpec(d, package, c.plan)
    case Upgrade(package) => UpgradeSpec(d, package, c.plan)
    case Rollback(id, revision) => RollbackSpec(d, id, revision, c.plan)
    case Remove(id, revision) => RemoveSpec(d, id, revision, c.plan)
  }

  function Run(d: Disk, calls: seq<Call>): Disk
    decreases |calls|
  {
    if |calls| == 0 then d else Run(Apply(d, calls[0]).disk, calls[1..])
  }

  /** Verified packages carry well-formed ids, and no removal dies in its window. */
  predicate Admissible(c: Call) {
    match c.operation
    case Install(package) => package.id.Valid()
    case Upgrade(package) => package.id.Valid()
    case Rollback(_, _) => true
    case Remove(_, _) => !DiedBetween(c.plan)
  }

  /** After any history every indexed capability has 1 to 64 distinct revisions containing the selected one, each in its own directory. */
  lemma {:induction false} RunKeepsInv(d: Disk, calls: seq<Call>)
    requires Inv(d) && forall c <- calls :: Admissible(c)
    ensures Inv(Run(d, calls))
    decreases |calls|
  {
    hide Inv, InstallSpec, UpgradeSpec, RollbackSpec, RemoveSpec;
    if |calls| > 0 {
      var c := calls[0];
      assert c in calls;
      match c.operation {
        case Install(package) => InstallKeepsInv(d, package, c.plan);
        case Upgrade(package) => UpgradeKeepsInv(d, package, c.plan);
        case Rollback(id, revision) => RollbackKeepsInv(d, id, revision, c.plan);
        case Remove(id, revision) => RemoveKeepsInv(d, id, revision, c.plan);
      }
      RunKeepsInv(Apply(d, c).disk, calls[1..]);
    }
  }

  // ---- Rollback ----

  const NO_FAULTS: Plan := Plan(true, true, Done, Done, Done)

  function SelectedAt(d: Disk, id: CapabilityId): nat
    requires id in d.index && d.index[id].selected in d.index[id].revisions
  {
    Position(d.index[id].revisions, d.index[id].selected)
  }

  lemma {:induction false} PositionUnique(revisions: seq<string>, i: nat)
    requires i < |revisions| && forall j, k :: 0 <= j < k < |revisions| ==> revisions[j] != revisions[k]
    ensures Position(revisions, revisions[i]) == i
  {
    if i > 0 {
      assert revisions[0] != revisions[i];
      assert revisions[1..][i - 1] == revisions[i];
      PositionUnique(revisions[1..], i - 1);
    }
  }

  /** A default rollback selects the revision just before the selected one, and is refused exactly at the oldest. */
  lemma DefaultRollbackDescends(d: Disk, id: CapabilityId)
    requires Inv(d) && id in d.index
    ensures var step := RollbackSpec(d, id, None, NO_FAULTS);
            && id in step.disk.index && step.disk.index[id].selected in step.disk.index[id].revisions
            && step.disk.index[id].revisions == d.index[id].revisions
            && (step.reply == Refused <==> SelectedAt(d, id) == 0)
            && (SelectedAt(d, id) > 0 ==> SelectedAt(step.disk, id) == SelectedAt(d, id) - 1)
  {
    hide RevisionPath, LoadRevision;
    var entry := d.index[id];
    var i := Position(entry.revisions, entry.selected);
    if i > 0 {
      assert Present(d, id) && entry.revisions[i - 1] in entry.revisions;
      PositionUnique(entry.revisions, i - 1);
    }
  }

  function Rollbacks(d: Disk, id: CapabilityId, n: nat): Disk
    decreases n
  {
    if n == 0 then d else Rollbacks(RollbackSpec(d, id, None, NO_FAULTS).disk, id, n - 1)
  }

  /** Repeated default rollback walks down the revisions one by one and then stays refused at the oldest. */
  lemma {:induction false} RollbacksReachOldest(d: Disk, id: CapabilityId, n: nat)
    requires Inv(d) && id in d.index
    ensures var d' := Rollbacks(d, id, n);
            && Inv(d') && id in d'.index && d'.index[id].revisions == d.index[id].revisions
            && SelectedAt(d', id) == (if n <= SelectedAt(d, id) then SelectedAt(d, id) - n else 0)
            && (RollbackSpec(d', id, None, NO_FAULTS).reply == Refused <==> n >= SelectedAt(d, id))
    decreases n
  {
    hide RollbackSpec, LoadRevision, RevisionPath;
    DefaultRollbackDescends(d, id);
    if n > 0 {
      RollbackKeepsInv(d, id, None, NO_FAULTS);
      RollbackRefusedKeeps(d, id);
      RollbacksReachOldest(RollbackSpec(d, id, None, NO_FAULTS).disk, id, n - 1);
    }
  }

  lemma RollbackRefusedKeeps(d: Disk, id: CapabilityId)
    ensures RollbackSpec(d, id, None, NO_FAULTS).reply == Refused ==> RollbackSpec(d, id, None, NO_FAULTS).disk == d
  {
    hide LoadRevision;
  }

  /** Upgrading and rolling back restores the previous selection if and only if the newest revision was selected. */
  lemma UpgradeThenRollback(d: Disk, package: Installed)
    requires Inv(d) && package.id in d.index && package.id.Valid()
    requires package.revision !in d.index[package.id].revisions
    requires UpgradeSpec(d, package, NO_FAULTS).reply.Done_?
    ensures var entry := d.index[package.id];
            var d' := RollbackSpec(UpgradeSpec(d, package, NO_FAULTS).disk, package.id, None, NO_FAULTS).disk;
            && package.id in d'.index
            && (d'.index[package.id].selected == entry.selected <==> entry.selected == entry.revisions[|entry.revisions| - 1])
  {
    hide RevisionPath, LoadRevision;
    var entry := d.index[package.id];
    var upgraded := UpgradeSpec(d, package, NO_FAULTS).disk;
    UpgradeKeepsInv(d, package, NO_FAULTS);
    assert upgraded.index[package.id] == Entry(package.revision, entry.revisions + [package.revision]);
    var revisions := upgraded.index[package.id].revisions;
    PositionUnique(revisions, |entry.revisions|);
    assert Present(upgraded, package.id) && revisions[|entry.revisions| - 1] in revisions;
  }

  // ---- What the operations do when nothing fails ----

  /** The revision's directory holds another package. */
  predicate Clashes(d: Disk, package: Installed) {
    var path := RevisionPath(package.id, package.revision);
    path in d.directories && d.directories[path] != package
  }

  /** The capability has this entry, the revision holds the package, and nothing else changed. */
  ghost predicate Holds(d: Disk, d': Disk, package: Installed, entry: Entry) {
    && package.id in d'.index && d'.index[package.id] == entry && d'.index - {package.id} == d.index - {package.id}
    && LoadRevision(d', package.id, package.revision) == Some(package)
    && d'.directories - {RevisionPath(package.id, package.revision)} == d.directories - {RevisionPath(package.id, package.revision)}
  }

  /** A new capability is installed with its one revision; the same package again is answered without a change; anything else is refused without one. */
  lemma InstallTakesEffectIff(d: Disk, package: Installed)
    requires Inv(d) && package.id.Valid()
    ensures var step := InstallSpec(d, package, NO_FAULTS);
            if package.id !in d.index && !Clashes(d, package) then
              step.reply == Done_(Some(package)) && Holds(d, step.disk, package, Entry(package.revision, [package.revision]))
            else if package.id in d.index && package.revision in d.index[package.id].revisions && !Clashes(d, package) then
              step == Step(d, Done_(Some(package)))
            else step == Step(d, Refused)
  {
    hide RevisionPath, EntryOK;
    if package.id in d.index { assert Present(d, package.id); }
  }

  /** A new revision of an installed capability is appended and selected, up to 64; a listed one is answered without a change; anything else is refused without one. */
  lemma UpgradeTakesEffectIff(d: Disk, package: Installed)
    requires Inv(d) && package.id.Valid()
    ensures var step := UpgradeSpec(d, package, NO_FAULTS);
            if package.id !in d.index || Clashes(d, package) then step == Step(d, Refused)
            else
              var revisions := d.index[package.id].revisions;
              if package.revision in revisions then step == Step(d, Done_(Some(package)))
              else if |revisions| >= 64 then step == Step(d, Refused)
              else step.reply == Done_(Some(package)) && Holds(d, step.disk, package, Entry(package.revision, revisions + [package.revision]))
  {
    hide RevisionPath, EntryOK;
    if package.id in d.index { assert Present(d, package.id); }
  }

  /** A rollback to a listed revision selects it and answers it; any other is refused; nothing else changes. */
  lemma NamedRollbackIff(d: Disk, id: CapabilityId, revision: string)
    requires Inv(d)
    ensures var step := RollbackSpec(d, id, Some(revision), NO_FAULTS);
            if id in d.index && revision in d.index[id].revisions then
              && step.disk == d.(index := d.index[id := Entry(revision, d.index[id].revisions)])
              && LoadRevision(d, id, revision).Some? && step.reply == Done_(LoadRevision(d, id, revision))
            else step == Step(d, Refused)
  {
    hide RevisionPath, EntryOK, LoadRevision;
    if id in d.index {
      assert Present(d, id);
      if d.index[id].selected == revision { assert d.index[id := d.index[id]] == d.index; }
    }
  }

  /** Removing the i-th revision answers it, takes exactly its directory and its place in the list, and moves the selection only from it: to its predecessor, or to the next when it was the oldest. */
  lemma RemoveTakesEffect(d: Disk, id: CapabilityId, i: nat)
    requires Inv(d) && id in d.index && i < |d.index[id].revisions|
    ensures var entry := d.index[id];
            var target := entry.revisions[i];
            var step := RemoveSpec(d, id, Some(target), NO_FAULTS);
            && LoadRevision(d, id, target).Some? && step.reply == Done_(LoadRevision(d, id, target))
            && step.disk.directories == d.directories - {RevisionPath(id, target)}
            && step.disk.index - {id} == d.index - {id}
            && (|entry.revisions| == 1 <==> id !in step.disk.index)
            && (|entry.revisions| > 1 ==>
                  && step.disk.index[id].revisions == entry.revisions[..i] + entry.revisions[i + 1..]
                  && step.disk.index[id].selected ==
                     (if entry.selected != target then entry.selected else entry.revisions[if i > 0 then i - 1 else 1]))
  {
    hide RevisionPath, LoadRevision, Reduced;
    var entry := d.index[id];
    var target := entry.revisions[i];
    assert Present(d, id) && EntryOK(entry) && target in entry.revisions;
    ReducedOK(entry, target);
    if |entry.revisions| == 1 {
      assert entry.revisions == [target];
    } else {
      ReducedCut(entry, i);
      assert Reduced(entry, target).value.selected in entry.revisions;
    }
  }

  /** Without a revision named, the selected one is removed; an unknown capability or revision is answered without a change. */
  lemma RemoveDefaults(d: Disk, id: CapabilityId, revision: Option<string>)
    requires Inv(d)
    ensures id in d.index ==> RemoveSpec(d, id, None, NO_FAULTS) == RemoveSpec(d, id, Some(d.index[id].selected), NO_FAULTS)
    ensures id !in d.index || (revision.Some? && revision.value !in d.index[id].revisions) ==> RemoveSpec(d, id, revision, NO_FAULTS) == Step(d, Done_(None))
  {
    hide RevisionPath, LoadRevision, Reduced;
  }

  // ---- Archive paths ----

  datatype EntryKind = Plain | Directory

  /** An archive member after normalisation: its path without a trailing slash, and what it is. */
  datatype Member = Member(path: string, kind: EntryKind)

  /** The path lies strictly below another. */
  predicate Below(path: string, ancestor: string) {
    StartsWith(path, ancestor + "/")
  }

  /** The members can be laid out as one tree: each path has one kind and nothing lies below a file. */
  ghost predicate IsTree(members: seq<Member>) {
    forall i, j :: 0 <= i < |members| && 0 <= j < |members| ==>
      && (members[i].path == members[j].path ==> members[i].kind == members[j].kind)
      && (members[i].kind.Plain? ==> !Below(members[j].path, members[i].path))
  }

  ghost predicate KindsOf(kinds: map<string, set<EntryKind>>, members: seq<Member>) {
    && (forall p :: p in kinds ==> kinds[p] != {})
    && (forall p, b :: p in kinds ==> (b in kinds[p] <==> Member(p, b) in members))
    && (forall m <- members :: m.path in kinds)
  }

  /** The kinds seen at each path. */
  method CollectKinds(members: seq<Member>) returns (kinds: map<string, set<EntryKind>>)
    ensures KindsOf(kinds, members)
  {
    kinds := map[];
    for k := 0 to |members|
      invariant KindsOf(kinds, members[..k])
    {
      var m := members[k];
      kinds := kinds[m.path := (if m.path in kinds then kinds[m.path] else {}) + {m.kind}];
      assert members[..k + 1] == members[..k] + [m];
    }
    assert members[..|members|] == members;
  }

  /** The conflict loops of `_verify_archive`: compare every pair of paths. */
  method PathsAreConsistent(members: seq<Member>) returns (consistent: bool)
    ensures consistent <==> IsTree(members)
  {
    hide Below, IsTree, KindsOf;
    var kinds := CollectKinds(members);
    KindsNotEmpty(kinds, members);
    var todo := kinds.Keys;
    while todo != {}
      invariant todo <= kinds.Keys
      invariant forall p :: p in kinds && p !in todo ==> PathConsistent(kinds, p)
      decreases |todo|
    {
      var path :| path in todo;
      if |kinds[path]| != 1 {
        TwoKinds(kinds[path]);
        assert !PathConsistent(kinds, path);
        ConsistentIffTree(members, kinds);
        return false;
      }
      var others := kinds.Keys;
      while others != {}
        invariant others <= kinds.Keys
        invariant forall q :: q in kinds && q !in others ==> NoConflict(kinds, path, q)
        decreases |others|
      {
        var other :| other in others;
        if other != path && ((Plain in kinds[path] && Below(other, path)) || (Plain in kinds[other] && Below(path, other))) {
          PairConflicts(kinds, path, other);
          ConsistentIffTree(members, kinds);
          return false;
        }
        OwnPathIsNotBelow(path);
        others := others - {other};
      }
      TwoKinds(kinds[path]);
      todo := todo - {path};
    }
    ConsistentIffTree(members, kinds);
    consistent := true;
  }

  predicate NoConflict(kinds: map<string, set<EntryKind>>, p: string, q: string)
    requires p in kinds && q in kinds
  {
    !(Plain in kinds[p] && Below(q, p)) && !(Plain in kinds[q] && Below(p, q))
  }

  ghost predicate PathConsistent(kinds: map<string, set<EntryKind>>, p: string)
    requires p in kinds
  {
    !(Directory in kinds[p] && Plain in kinds[p]) && forall q :: q in kinds ==> NoConflict(kinds, p, q)
  }

  lemma KindsNotEmpty(kinds: map<string, set<EntryKind>>, members: seq<Member>)
    requires KindsOf(kinds, members)
    ensures forall p :: p in kinds ==> kinds[p] != {}
  {
  }

  lemma OwnPathIsNotBelow(path: string)
    ensures !Below(path, path)
  {
  }

  lemma TwoKinds(s: set<EntryKind>)
    requires s != {}
    ensures |s| != 1 <==> Directory in s && Plain in s
    ensures Directory in s || Plain in s
  {
    var b :| b in s;
    forall x <- s ensures x == Directory || x == Plain { assert x.Plain? || x.Directory?; }
    if Directory in s {
      if Plain in s { assert s == {Directory, Plain}; } else { assert s == {Directory}; }
    } else {
      assert s == {Plain};
    }
  }

  lemma PairConflicts(kinds: map<string, set<EntryKind>>, p: string, q: string)
    requires p in kinds && q in kinds && !NoConflict(kinds, p, q)
    ensures !PathConsistent(kinds, p)
  {
  }

  lemma Witnesses(members: seq<Member>, kinds: map<string, set<EntryKind>>, p: string, q: string) returns (i: nat, j: nat)
    requires KindsOf(kinds, members) && p in kinds && q in kinds && Plain in kinds[p]
    ensures i < |members| && j < |members| && members[i] == Member(p, Plain) && members[j].path == q
  {
    i :| 0 <= i < |members| && members[i] == Member(p, Plain);
    TwoKinds(kinds[q]);
    var b := if Directory in kinds[q] then Directory else Plain;
    j :| 0 <= j < |members| && members[j] == Member(q, b);
  }

  lemma OneKindPerPath(members: seq<Member>, kinds: map<string, set<EntryKind>>, p: string)
    requires KindsOf(kinds, members) && p in kinds && IsTree(members) && Plain in kinds[p]
    ensures Directory !in kinds[p]
  {
    hide Below;
    var i :| 0 <= i < |members| && members[i] == Member(p, Plain);
    forall j | 0 <= j < |members| ensures members[j] != Member(p, Directory) { assert members[i].path == p; }
  }

  lemma ConsistentIffTree(members: seq<Member>, kinds: map<string, set<EntryKind>>)
    requires KindsOf(kinds, members)
    ensures (forall p :: p in kinds ==> PathConsistent(kinds, p)) <==> IsTree(members)
  {
    hide Below;
    if IsTree(members) {
      forall p | p in kinds ensures PathConsistent(kinds, p) {
        if Plain in kinds[p] { OneKindPerPath(members, kinds, p); }
        forall q | q in kinds ensures NoConflict(kinds, p, q) {
          TreeHasNoConflict(members, kinds, p, q);
        }
      }
    }
    if forall p :: p in kinds ==> PathConsistent(kinds, p) {
      forall i, j | 0 <= i < |members| && 0 <= j < |members|
        ensures (members[i].path == members[j].path ==> members[i].kind == members[j].kind)
        ensures members[i].kind.Plain? ==> !Below(members[j].path, members[i].path)
      {
        assert members[i] == Member(members[i].path, members[i].kind) && members[j] == Member(members[j].path, members[j].kind);
        assert members[i] in members && members[j] in members;
        assert PathConsistent(kinds, members[i].path) && NoConflict(kinds, members[i].path, members[j].path);
      }
    }
  }

  lemma TreeHasNoConflict(members: seq<Member>, kinds: map<string, set<EntryKind>>, p: string, q: string)
    requires KindsOf(kinds, members) && IsTree(members) && p in kinds && q in kinds
    ensures NoConflict(kinds, p, q)
  {
    hide Below;
    if Plain in kinds[p] { var i, j := Witnesses(members, kinds, p, q); }
    if Plain in kinds[q] { var i, j := Witnesses(members, kinds, q, p); }
  }
}
