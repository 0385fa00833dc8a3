/** Role inheritance: registration keeps the parent relation free of cycles, so resolution always ends. */
module RoleRegistry {
  import opened Wrappers
  import opened Lists
  import opened Json

  datatype Profile = Profile(
    name: string, displayName: string, description: string, promptTemplate: string, parent: Option<string>,
    capabilities: seq<string>, constraints: seq<string>, tools: seq<string>, priority: int, metadata: map<string, Json>)

  type Roles = map<string, Profile>

  // ---- Walking up ----

  /** The role n parent steps above `name`; it need not be registered. */
  function Up(roles: Roles, name: string, n: nat): Option<string> {
    if n == 0 then Some(name)
    else match Up(roles, name, n - 1)
      case None => None
      case Some(below) => if below in roles then roles[below].parent else None
  }

  lemma UpNext(roles: Roles, name: string, n: nat)
    ensures Up(roles, name, 0) == Some(name)
    ensures Up(roles, name, n + 1) == match Up(roles, name, n)
                                       case None => None
                                       case Some(below) => if below in roles then roles[below].parent else None
  {
  }

  ghost predicate Ends(roles: Roles, name: string) {
    exists n: nat :: Up(roles, name, n).None?
  }

  /** No inheritance cycle: every walk towards the parents ends. */
  ghost predicate Acyclic(roles: Roles) {
    forall name :: Ends(roles, name)
  }

  lemma {:induction false} UpStaysNone(roles: Roles, name: string, n: nat, m: nat)
    requires n <= m && Up(roles, name, n).None?
    ensures Up(roles, name, m).None?
  {
    if n < m { UpStaysNone(roles, name, n, m - 1); }
  }

  lemma {:induction false} UpCompose(roles: Roles, name: string, n: nat, m: nat)
    requires Up(roles, name, n).Some?
    ensures Up(roles, name, n + m) == Up(roles, Up(roles, name, n).value, m)
  {
    if m > 0 { UpCompose(roles, name, n, m - 1); }
  }

  /** A walk that comes back to a place it was at never ends. */
  lemma {:induction false} RepeatNeverEnds(roles: Roles, name: string, i: nat, j: nat, n: nat)
    requires i < j && Up(roles, name, i).Some? && Up(roles, name, j) == Up(roles, name, i)
    ensures Up(roles, name, n).Some?
  {
    if n <= j {
      if Up(roles, name, n).None? { UpStaysNone(roles, name, n, j); }
    } else {
      RepeatNeverEnds(roles, name, i, j, n - (j - i));
      UpCompose(roles, name, i, n - j);
      UpCompose(roles, name, j, n - j);
      assert i + (n - j) == n - (j - i);
    }
  }

  lemma EndingWalksNeverRepeat(roles: Roles, name: string, i: nat, j: nat)
    requires Ends(roles, name) && i < j && Up(roles, name, i).Some?
    ensures Up(roles, name, j) != Up(roles, name, i)
  {
    if Up(roles, name, j) == Up(roles, name, i) {
      var n: nat :| Up(roles, name, n).None?;
      RepeatNeverEnds(roles, name, i, j, n);
    }
  }

  lemma RepeatIsCycle(roles: Roles, name: string, i: nat, j: nat)
    requires i < j && Up(roles, name, i).Some? && Up(roles, name, j) == Up(roles, name, i)
    ensures !Acyclic(roles)
  {
    if Ends(roles, name) { EndingWalksNeverRepeat(roles, name, i, j); }
  }

  lemma StepsToEnd(roles: Roles, name: string) returns (n: nat)
    requires Acyclic(roles)
    ensures Up(roles, name, n).None?
  {
    assert Ends(roles, name);
    n :| Up(roles, name, n).None?;
  }

  lemma BeforeTheEnd(roles: Roles, name: string, k: nat, limit: nat)
    requires Up(roles, name, k).Some? && Up(roles, name, limit).None?
    ensures k < limit
  {
    if limit <= k { UpStaysNone(roles, name, limit, k); }
  }

  // ---- Removing and adding a role ----

  lemma {:induction false} UpAfterRemoval(roles: Roles, gone: string, name: string, n: nat)
    ensures Up(roles - {gone}, name, n).None? || Up(roles - {gone}, name, n) == Up(roles, name, n)
  {
    if n > 0 { UpAfterRemoval(roles, gone, name, n - 1); }
  }

  lemma UnregisterKeepsAcyclic(roles: Roles, gone: string)
    requires Acyclic(roles)
    ensures Acyclic(roles - {gone})
  {
    forall name ensures Ends(roles - {gone}, name) {
      assert Ends(roles, name);
      var n: nat :| Up(roles, name, n).None?;
      UpAfterRemoval(roles, gone, name, n);
    }
  }

  /** Until it reaches the new role a walk is the same with and without it. */
  lemma {:induction false} UpBeforeNew(roles: Roles, profile: Profile, name: string, n: nat)
    requires profile.name !in roles
    requires forall i: nat :: i < n ==> Up(roles, name, i) != Some(profile.name)
    ensures Up(roles[profile.name := profile], name, n) == Up(roles, name, n)
  {
    if n > 0 { UpBeforeNew(roles, profile, name, n - 1); }
  }

  /** If the walk from the new role ends, every walk does. */
  lemma NewRoleKeepsAcyclic(roles: Roles, profile: Profile)
    requires Acyclic(roles) && profile.name !in roles && Ends(roles[profile.name := profile], profile.name)
    ensures Acyclic(roles[profile.name := profile])
  {
    var grown := roles[profile.name := profile];
    forall name ensures Ends(grown, name) {
      assert Ends(roles, name);
      var n: nat :| Up(roles, name, n).None?;
      WalkMeetsNewRole(roles, profile, name, n);
    }
  }

  lemma {:induction false} WalkMeetsNewRole(roles: Roles, profile: Profile, name: string, n: nat)
    requires profile.name !in roles && Up(roles, name, n).None? && Ends(roles[profile.name := profile], profile.name)
    ensures Ends(roles[profile.name := profile], name)
  {
    var grown := roles[profile.name := profile];
    if i: nat :| i < n && Up(roles, name, i) == Some(profile.name) {
      var first := FirstVisit(roles, name, profile.name, i);
      UpBeforeNew(roles, profile, name, first);
      var m: nat :| Up(grown, profile.name, m).None?;
      UpCompose(grown, name, first, m);
      assert Up(grown, name, first + m).None?;
    } else {
      UpBeforeNew(roles, profile, name, n);
    }
  }

  lemma {:induction false} FirstVisit(roles: Roles, name: string, target: string, i: nat) returns (first: nat)
    requires Up(roles, name, i) == Some(target)
    ensures first <= i && Up(roles, name, first) == Some(target)
    ensures forall k: nat :: k < first ==> Up(roles, name, k) != Some(target)
  {
    if k: nat :| k < i && Up(roles, name, k) == Some(target) {
      first := FirstVisit(roles, name, target, k);
    } else {
      first := i;
    }
  }

  // ---- Resolution ----

  /** A profile and its registered ancestors, nearest first. */
  ghost predicate IsChain(roles: Roles, profile: Profile, chain: seq<Profile>) {
    && |chain| > 0 && chain[0] == profile
    && (forall i :: 0 <= i < |chain| - 1 ==> HasParent(roles, chain[i]) && chain[i + 1] == roles[chain[i].parent.value])
    && !HasParent(roles, chain[|chain| - 1])
  }

  predicate HasParent(roles: Roles, p: Profile) {
    p.parent.Some? && p.parent.value in roles
  }

  lemma {:induction false} ChainUnique(roles: Roles, profile: Profile, a: seq<Profile>, b: seq<Profile>)
    requires IsChain(roles, profile, a) && IsChain(roles, profile, b)
    ensures a == b
    decreases |a|
  {
    if |a| > 1 && |b| > 1 {
      assert IsChain(roles, a[1], a[1..]) && IsChain(roles, b[1], b[1..]);
      ChainUnique(roles, a[1], a[1..], b[1..]);
      assert a == [a[0]] + a[1..] && b == [b[0]] + b[1..];
    } else {
      assert |a| == 1 ==> !HasParent(roles, a[0]);
      assert |b| == 1 ==> !HasParent(roles, b[0]);
    }
  }

  function Larger(a: int, b: int): int {
    if b > a then b else a
  }

  /** One step down: the child's own presentation on top of what its ancestors resolved to. */
  function Inherit(resolved: Profile, child: Profile): Profile {
    child.(parent := None,
           capabilities := Distinct(resolved.capabilities + child.capabilities),
           constraints := Distinct(resolved.constraints + child.constraints),
           tools := Distinct(resolved.tools + child.tools),
           priority := Larger(resolved.priority, child.priority),
           metadata := resolved.metadata + child.metadata)
  }

  function Resolved(chain: seq<Profile>): Profile
    requires |chain| > 0
  {
    if |chain| == 1 then chain[0] else Inherit(Resolved(chain[1..]), chain[0])
  }

  datatype ListField = Capabilities | Constraints | Tools

  function Items(p: Profile, field: ListField): seq<string> {
    match field
    case Capabilities => p.capabilities
    case Constraints => p.constraints
    case Tools => p.tools
  }

  /** One list field along the chain, root first. */
  function RootFirst(chain: seq<Profile>, field: ListField): seq<string> {
    if |chain| == 0 then [] else RootFirst(chain[1..], field) + Items(chain[0], field)
  }

  function HighestPriority(chain: seq<Profile>): int
    requires |chain| > 0
  {
    if |chain| == 1 then chain[0].priority else Larger(HighestPriority(chain[1..]), chain[0].priority)
  }

  /**
    With at least one ancestor every list field is the ordered, repetition-free union along the chain, root
    first; a role without registered ancestors keeps its own lists exactly as registered.
  */
  lemma {:induction false} ResolvedIsUnion(chain: seq<Profile>)
    requires |chain| > 0
    ensures var r := Resolved(chain);
            && r.priority == HighestPriority(chain)
            && r.name == chain[0].name && r.displayName == chain[0].displayName
            && r.description == chain[0].description && r.promptTemplate == chain[0].promptTemplate
            && (|chain| == 1 ==> r == chain[0])
            && (|chain| > 1 ==> r.parent.None? && forall field: ListField :: Items(r, field) == Distinct(RootFirst(chain, field)))
  {
    hide Distinct;
    if |chain| > 1 {
      ResolvedIsUnion(chain[1..]);
      forall field: ListField ensures Items(Resolved(chain), field) == Distinct(RootFirst(chain, field)) {
        UnionStep(chain, field, Items(Resolved(chain[1..]), field));
      }
    }
  }

  lemma UnionStep(chain: seq<Profile>, field: ListField, above: seq<string>)
    requires |chain| > 1
    requires above == if |chain| == 2 then Items(chain[1], field) else Distinct(RootFirst(chain[1..], field))
    ensures Distinct(above + Items(chain[0], field)) == Distinct(RootFirst(chain, field))
  {
    hide Distinct, Items;
    if |chain| == 2 {
      assert chain[1..][1..] == [];
      assert RootFirst(chain[1..], field) == [] + Items(chain[1], field) == Items(chain[1], field);
    } else {
      DistinctPrefix(RootFirst(chain[1..], field), Items(chain[0], field));
    }
  }

  /** A metadata key resolves to the nearest profile on the chain that has it. */
  lemma {:induction false} NearestMetadataWins(chain: seq<Profile>, key: string)
    requires |chain| > 0
    ensures key in Resolved(chain).metadata <==> exists i :: 0 <= i < |chain| && key in chain[i].metadata
    ensures forall i :: 0 <= i < |chain| && key in chain[i].metadata && (forall j :: 0 <= j < i ==> key !in chain[j].metadata) ==>
              Resolved(chain).metadata[key] == chain[i].metadata[key]
  {
    hide Distinct;
    if |chain| > 1 {
      NearestMetadataWins(chain[1..], key);
      forall i | 0 < i < |chain| ensures chain[i] == chain[1..][i - 1] {}
    }
  }

  // ---- The registry ----

  datatype Registration = Registered | AlreadyRegistered | CycleDetected

  class RoleRegistry {
    var roles: Roles

    ghost predicate Valid()
      reads this
    {
      Acyclic(roles) && forall name :: name in roles ==> roles[name].name == name
    }

    constructor ()
      ensures Valid() && roles == map[]
    {
      roles := map[];
      new;
      forall name ensures Ends(roles, name) { assert Up(roles, name, 1).None?; }
    }

    /** `_validate_acyclic_registration`: walk from the new role until a parent is missing or a role repeats. */
    method ValidateAcyclicRegistration(profile: Profile) returns (accepted: bool)
      requires Valid() && profile.name !in roles
      ensures accepted <==> Acyclic(roles[profile.name := profile])
    {
      hide Acyclic, Up;
      ghost var grown := roles[profile.name := profile];
      UpNext(grown, profile.name, 0);
      if profile.parent.None? {
        assert Up(grown, profile.name, 1).None?;
        NewRoleKeepsAcyclic(roles, profile);
        return true;
      }
      UpNext(roles, profile.parent.value, 0);
      ghost var limit := StepsToEnd(roles, profile.parent.value);
      var path := [profile.name];
      var seen := {profile.name};
      var parentName := profile.parent;
      while parentName.Some?
        invariant 0 < |path| && forall i :: 0 <= i < |path| ==> Up(grown, profile.name, i) == Some(path[i])
        invariant forall x :: x in seen <==> x in path
        invariant Up(grown, profile.name, |path|) == Up(roles, profile.parent.value, |path| - 1) == parentName
        decreases limit - |path|
      {
        ghost var k := |path|;
        BeforeTheEnd(roles, profile.parent.value, k - 1, limit);
        UpNext(roles, profile.parent.value, k - 1);
        UpNext(grown, profile.name, k);
        if parentName.value in seen {
          var i :| 0 <= i < |path| && path[i] == parentName.value;
          RepeatIsCycle(grown, profile.name, i, k);
          return false;
        }
        assert parentName.value != profile.name by { assert path[0] in path; }
        if parentName.value !in roles {
          assert Up(grown, profile.name, k + 1).None?;
          NewRoleKeepsAcyclic(roles, profile);
          return true;
        }
        seen := seen + {parentName.value};
        path := path + [parentName.value];
        parentName := roles[parentName.value].parent;
      }
      NewRoleKeepsAcyclic(roles, profile);
      accepted := true;
    }

    method Register(profile: Profile) returns (result: Registration)
      requires Valid()
      modifies this
      ensures Valid()
      ensures result.AlreadyRegistered? <==> profile.name in old(roles)
      ensures result.CycleDetected? <==> profile.name !in old(roles) && !Acyclic(old(roles)[profile.name := profile])
      ensures roles == if result.Registered? then old(roles)[profile.name := profile] else old(roles)
      ensures roles == Applied(old(roles), Add(profile))
    {
      if profile.name !in roles { CycleIff(roles, profile); }
      if profile.name in roles { return AlreadyRegistered; }
      var accepted := ValidateAcyclicRegistration(profile);
      if !accepted { return CycleDetected; }
      roles := roles[profile.name := profile];
      result := Registered;
    }

    method Unregister(name: string) returns (removed: bool)
      requires Valid()
      modifies this
      ensures Valid() && removed == (name in old(roles)) && roles == old(roles) - {name} == Applied(old(roles), Remove(name))
    {
      UnregisterKeepsAcyclic(roles, name);
      removed := name in roles;
      roles := roles - {name};
    }

    /** The chain `_resolve_inheritance` collects, nearest first. */
    method CollectChain(profile: Profile) returns (chain: seq<Profile>)
      requires Valid() && profile.name in roles && roles[profile.name] == profile
      ensures IsChain(roles, profile, chain)
    {
      ghost var limit := StepsToEnd(roles, profile.name);
      chain := [profile];
      var current := profile;
      while current.parent.Some? && current.parent.value in roles
        invariant 0 < |chain| && chain[0] == profile && chain[|chain| - 1] == current
        invariant forall i :: 0 <= i < |chain| - 1 ==> HasParent(roles, chain[i]) && chain[i + 1] == roles[chain[i].parent.value]
        invariant current.name in roles && roles[current.name] == current && Up(roles, profile.name, |chain| - 1) == Some(current.name)
        decreases limit - |chain|
      {
        var parent := roles[current.parent.value];
        assert Up(roles, profile.name, |chain|) == Some(parent.name);
        BeforeTheEnd(roles, profile.name, |chain|, limit);
        chain := chain + [parent];
        current := parent;
      }
    }

    /** `_resolve_inheritance`: fold the chain from the root down. */
    method ResolveInheritance(profile: Profile) returns (resolved: Profile)
      requires Valid() && profile.name in roles && roles[profile.name] == profile
      ensures exists chain :: IsChain(roles, profile, chain) && resolved == Resolved(chain)
    {
      hide Inherit;
      var ancestors := CollectChain(profile);
      resolved := ancestors[|ancestors| - 1];
      var k := |ancestors| - 1;
      while k > 0
        invariant 0 <= k < |ancestors|
        invariant resolved == Resolved(ancestors[k..])
      {
        k := k - 1;
        assert ancestors[k..][1..] == ancestors[k + 1..];
        resolved := Inherit(resolved, ancestors[k]);
      }
      assert ancestors[0..] == ancestors;
    }

    method Get(name: string) returns (found: Option<Profile>)
      requires Valid()
      ensures found.None? <==> name !in roles
      ensures found.Some? ==> exists chain :: IsChain(roles, roles[name], chain) && found.value == Resolved(chain)
    {
      if name !in roles { return None; }
      var resolved := ResolveInheritance(roles[name]);
      found := Some(resolved);
    }
  }

  // ---- Any order of registrations ----

  datatype Change = Add(profile: Profile) | Remove(name: string)

  /** Following parents from the new role's own parent comes back to it. */
  ghost predicate LeadsBack(roles: Roles, profile: Profile) {
    profile.parent.Some? && exists n: nat :: Up(roles, profile.parent.value, n) == Some(profile.name)
  }

  /** The role table after one call; a duplicate or a role whose parents lead back to it changes nothing. */
  ghost function Applied(roles: Roles, c: Change): Roles {
    match c
    case Add(p) => if p.name in roles || LeadsBack(roles, p) then roles else roles[p.name := p]
    case Remove(name) => roles - {name}
  }

  ghost function AfterAll(roles: Roles, changes: seq<Change>): Roles
    decreases |changes|
  {
    if |changes| == 0 then roles else AfterAll(Applied(roles, changes[0]), changes[1..])
  }

  /** Inheritance stays acyclic under any order of calls, including a parent registered after roles that name it: every role resolves. */
  lemma {:induction false} AlwaysAcyclic(roles: Roles, changes: seq<Change>)
    requires Acyclic(roles)
    ensures Acyclic(AfterAll(roles, changes))
    decreases |changes|
  {
    hide Acyclic, LeadsBack, Up;
    if |changes| > 0 {
      match changes[0] {
        case Remove(name) => UnregisterKeepsAcyclic(roles, name);
        case Add(p) => if p.name !in roles { CycleIff(roles, p); }
      }
      AlwaysAcyclic(Applied(roles, changes[0]), changes[1..]);
    }
  }

  /** A registration is refused for a cycle exactly when following parents from the new role's own parent comes back to it. */
  lemma CycleIff(roles: Roles, profile: Profile)
    requires Acyclic(roles) && profile.name !in roles
    ensures !Acyclic(roles[profile.name := profile]) <==> LeadsBack(roles, profile)
  {
    var grown := roles[profile.name := profile];
    if profile.parent.Some? {
      var above := profile.parent.value;
      assert Up(grown, profile.name, 1) == Some(above);
      if n: nat :| Up(roles, above, n) == Some(profile.name) {
        var first := FirstVisit(roles, above, profile.name, n);
        UpBeforeNew(roles, profile, above, first);
        UpCompose(grown, profile.name, 1, first);
        assert Up(grown, profile.name, 1 + first) == Up(grown, profile.name, 0);
        if Acyclic(grown) { EndingWalksNeverRepeat(grown, profile.name, 0, 1 + first); }
      } else {
        assert Ends(roles, above);
        var m: nat :| Up(roles, above, m).None?;
        UpBeforeNew(roles, profile, above, m);
        UpCompose(grown, profile.name, 1, m);
        assert Up(grown, profile.name, 1 + m).None?;
        NewRoleKeepsAcyclic(roles, profile);
      }
    } else {
      assert Up(grown, profile.name, 1).None?;
      NewRoleKeepsAcyclic(roles, profile);
    }
  }
}
