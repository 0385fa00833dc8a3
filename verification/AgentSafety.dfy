/**
  One handler thread per agent name, quarantine until the thread ends, shutdown for good: kept by every
  interleaving except through a `join` that raises while the handler runs and a failure verdict that
  arrives after the success, and lost through exactly those.
 */
module AgentSafety {
  import opened Wrappers
  import opened AgentLifecycle

  predicate HasThread(stage: Stage, thread: ThreadId) {
    (stage.Waiting? || stage.TimedOut?) && stage.thread == thread
  }

  /** Identities: every reference is to something that exists, and fresh numbers are fresh. */
  ghost predicate IdsOK(s: System) {
    && (forall name :: name in s.registry ==> s.registry[name] in s.objects && s.objects[s.registry[name]].name == name)
    && (forall id :: id in s.objects ==> id < s.next)
    && (forall d :: d in s.dispatches ==> d < s.next && s.dispatches[d].agent in s.objects)
    && (forall d :: d in s.recording ==> s.recording[d] in s.objects)
    && (forall t :: t in s.owners ==> t < s.next && s.owners[t] in s.objects)
    && (forall t :: t in s.alive ==> t in s.owners)
    && (forall d, t :: d in s.dispatches && HasThread(s.dispatches[d].stage, t) ==> t in s.owners && s.owners[t] == s.dispatches[d].agent)
  }

  /** An agent with a quarantined thread is out of service and not recoverable while the thread lives. */
  predicate AgentOK(a: Agent, alive: set<ThreadId>) {
    a.pending.Some? ==> a.status in {Error, ShutDown} && (a.status == Error && a.pending.value in alive ==> !a.recoverable)
  }

  ghost predicate AgentsOK(s: System) {
    && (forall id :: id in s.objects ==> AgentOK(s.objects[id].agent, s.alive) && (s.objects[id].agent.status == ShutDown ==> s.shutdown))
    && (forall id :: id in s.objects && s.objects[id].agent.pending.Some? ==>
          s.objects[id].agent.pending.value in s.owners && s.owners[s.objects[id].agent.pending.value] == id)
    && (forall id :: id in s.closing ==> s.shutdown)
  }

  /** A dispatch has its agent to itself, and the agent is busy or shut down. */
  ghost predicate DispatchesOK(s: System) {
    && (forall d :: d in s.dispatches && s.dispatches[d].agent in s.objects ==> Occupied(s.objects[s.dispatches[d].agent].agent))
    && (forall d, e :: d in s.dispatches && e in s.dispatches && s.dispatches[d].agent == s.dispatches[e].agent ==> d == e)
  }

  predicate Occupied(a: Agent) {
    a.status in {Busy, ShutDown} && a.pending.None?
  }

  /** Every live handler thread is accounted for: a dispatch waits for it or its agent is quarantined on it. */
  ghost predicate ThreadsOK(s: System) {
    forall t :: t in s.alive && t in s.owners && s.owners[t] in s.objects ==> Held(s, t)
  }

  ghost predicate Held(s: System, t: ThreadId)
    requires t in s.owners && s.owners[t] in s.objects
  {
    s.objects[s.owners[t]].agent.pending == Some(t) || exists d :: d in s.dispatches && HasThread(s.dispatches[d].stage, t)
  }

  ghost predicate Live(s: System, id: nat) {
    || (exists d :: d in s.dispatches && s.dispatches[d].agent == id)
    || (exists t :: t in s.alive && t in s.owners && s.owners[t] == id)
  }

  /** Until shutdown only registered objects are live; in any case no two live objects share a name. */
  ghost predicate PlacesOK(s: System) {
    && (!s.shutdown ==> forall id :: id in s.objects && Live(s, id) ==> s.objects[id].name in s.registry && s.registry[s.objects[id].name] == id)
    && (forall a, b :: a in s.objects && b in s.objects && s.objects[a].name == s.objects[b].name && Live(s, a) && Live(s, b) ==> a == b)
  }

  ghost predicate Inv(s: System) {
    IdsOK(s) && AgentsOK(s) && DispatchesOK(s) && ThreadsOK(s) && PlacesOK(s)
  }

  lemma InitialInv()
    ensures Inv(INITIAL)
  {
  }

  // ---- Changes of one agent that touch neither dispatches nor threads ----

  /** Shutdown stays, and a quarantine is lifted only after its thread ended. */
  predicate Gentle(a: Agent, b: Agent, alive: set<ThreadId>, shutdown: bool) {
    && (b.pending == a.pending || (b.pending.None? && a.pending.Some? && a.pending.value !in alive))
    && (a.status == ShutDown ==> b.status == ShutDown)
    && (b.status == ShutDown ==> a.status == ShutDown || shutdown)
    && AgentOK(b, alive)
  }

  /** A dispatch holds this agent. */
  ghost predicate Taken(s: System, id: nat) {
    exists d :: d in s.dispatches && s.dispatches[d].agent == id
  }

  predicate StaysOccupied(a: Agent, b: Agent) {
    Occupied(a) ==> Occupied(b)
  }

  lemma AgentStepsAreGentle(a: Agent, task: nat, alive: set<ThreadId>)
    requires AgentOK(a, alive)
    ensures Gentle(a, Reap(a, alive), alive, false) && StaysOccupied(a, Reap(a, alive))
    ensures Gentle(a, Reset(a, alive), alive, false) && StaysOccupied(a, Reset(a, alive))
    ensures Gentle(a, Recover(a, alive).0, alive, false) && StaysOccupied(a, Recover(a, alive).0)
    ensures Gentle(a, CanUnregister(a, alive).0, alive, false) && StaysOccupied(a, CanUnregister(a, alive).0)
    ensures Gentle(a, Stop(a), alive, true) && StaysOccupied(a, Stop(a))
    ensures !TryAssign(a, task, alive).1 ==> Gentle(a, TryAssign(a, task, alive).0, alive, false) && StaysOccupied(a, TryAssign(a, task, alive).0)
  {
  }

  lemma GentleMore(a: Agent, b: Agent, alive: set<ThreadId>, shutdown: bool)
    requires Gentle(a, b, alive, false)
    ensures Gentle(a, b, alive, shutdown)
  {
  }

  lemma LiveFrame(s: System, t: System)
    requires t.dispatches == s.dispatches && t.alive == s.alive && t.owners == s.owners
    ensures forall id :: Live(t, id) == Live(s, id)
  {
  }

  lemma GentleIds(s: System, id: nat, b: Agent)
    requires IdsOK(s) && id in s.objects
    ensures IdsOK(SetAgent(s, id, b))
  {
  }

  lemma GentleAgents(s: System, id: nat, b: Agent)
    requires AgentsOK(s) && id in s.objects && Gentle(s.objects[id].agent, b, s.alive, s.shutdown)
    ensures AgentsOK(SetAgent(s, id, b))
  {
  }

  lemma GentleDispatches(s: System, id: nat, b: Agent)
    requires DispatchesOK(s) && id in s.objects && (Taken(s, id) ==> StaysOccupied(s.objects[id].agent, b))
    ensures DispatchesOK(SetAgent(s, id, b))
  {
  }

  lemma GentleThreads(s: System, id: nat, b: Agent)
    requires ThreadsOK(s) && id in s.objects && Gentle(s.objects[id].agent, b, s.alive, s.shutdown)
    ensures ThreadsOK(SetAgent(s, id, b))
  {
    var t := SetAgent(s, id, b);
    forall x | x in t.alive && x in t.owners && t.owners[x] in t.objects ensures Held(t, x) {
      assert Held(s, x);
    }
  }

  lemma GentlePlaces(s: System, id: nat, b: Agent)
    requires PlacesOK(s) && id in s.objects
    ensures PlacesOK(SetAgent(s, id, b))
  {
    hide Live;
    LiveFrame(s, SetAgent(s, id, b));
  }

  lemma GentleKeepsInv(s: System, id: nat, b: Agent)
    requires Inv(s) && id in s.objects && Gentle(s.objects[id].agent, b, s.alive, s.shutdown)
    requires Taken(s, id) ==> StaysOccupied(s.objects[id].agent, b)
    ensures Inv(SetAgent(s, id, b))
  {
    hide IdsOK, AgentsOK, DispatchesOK, ThreadsOK, PlacesOK, SetAgent, Gentle, StaysOccupied, Taken;
    GentleIds(s, id, b);
    GentleAgents(s, id, b);
    GentleDispatches(s, id, b);
    GentleThreads(s, id, b);
    GentlePlaces(s, id, b);
  }

  // ---- Registration ----

  lemma LiveMeansOccupied(s: System, id: nat)
    requires Inv(s) && id in s.objects && Live(s, id)
    ensures Occupied(s.objects[id].agent) || s.objects[id].agent.pending.Some?
  {
    if t :| t in s.alive && t in s.owners && s.owners[t] == id {
      assert Held(s, t);
    }
  }

  /** An agent that may be unregistered before shutdown has neither a dispatch nor a live thread. */
  lemma RemovableIsNotLive(s: System, id: nat)
    requires Inv(s) && id in s.objects && !s.shutdown
    requires s.objects[id].agent.status != Busy && s.objects[id].agent.pending.None?
    ensures !Live(s, id)
  {
    hide Live, IdsOK, DispatchesOK, ThreadsOK, PlacesOK;
    if Live(s, id) { LiveMeansOccupied(s, id); }
  }

  lemma ThreadsFrame(s: System, t: System)
    requires ThreadsOK(s) && IdsOK(s)
    requires t.alive <= s.alive && t.owners == s.owners && t.dispatches == s.dispatches
    requires forall id :: id in s.objects ==> id in t.objects && t.objects[id] == s.objects[id]
    ensures ThreadsOK(t)
  {
    forall x | x in t.alive && x in t.owners && t.owners[x] in t.objects ensures Held(t, x) {
      assert s.owners[x] in s.objects && Held(s, x);
    }
  }

  lemma AddAgentKeepsInv(s: System, name: string)
    requires Inv(s)
    requires !s.shutdown && name in s.registry ==> !Live(s, s.registry[name])
    ensures Inv(AddAgent(s, name))
  {
    hide Live, ThreadsOK, PlacesOK, IdsOK, AgentsOK, DispatchesOK;
    AddAgentIds(s, name);
    AddAgentStates(s, name);
    ThreadsFrame(s, AddAgent(s, name));
    AddAgentPlaces(s, name);
  }

  lemma AddAgentIds(s: System, name: string)
    requires IdsOK(s)
    ensures IdsOK(AddAgent(s, name)) && s.next !in s.objects
  {
  }

  lemma AddAgentStates(s: System, name: string)
    requires IdsOK(s) && AgentsOK(s) && DispatchesOK(s)
    ensures AgentsOK(AddAgent(s, name)) && DispatchesOK(AddAgent(s, name))
  {
  }

  lemma AddAgentPlaces(s: System, name: string)
    requires IdsOK(s) && PlacesOK(s)
    requires !s.shutdown && name in s.registry ==> !Live(s, s.registry[name])
    ensures PlacesOK(AddAgent(s, name))
  {
    var t := AddAgent(s, name);
    LiveFrame(s, t);
    assert !Live(s, s.next) by {
      forall d | d in s.dispatches ensures s.dispatches[d].agent != s.next { assert s.dispatches[d].agent in s.objects; }
      forall x | x in s.alive && x in s.owners ensures s.owners[x] != s.next { assert s.owners[x] in s.objects; }
    }
    hide Live;
  }

  lemma RegisterKeepsInv(s: System, name: string)
    requires Inv(s)
    ensures Inv(RegisterStep(s, name))
  {
    hide Inv, Live, AddAgent;
    if !Known(s, name) {
      UnknownIsAbsent(s, name);
      AddAgentKeepsInv(s, name);
    } else {
      ReapedForRemoval(s, name);
      var reaped := SetAgent(s, s.registry[name], CanUnregister(AgentAt(s, name), s.alive).0);
      if CanUnregister(AgentAt(s, name), s.alive).1 { AddAgentKeepsInv(reaped, name); }
    }
  }

  lemma UnknownIsAbsent(s: System, name: string)
    requires Inv(s) && !Known(s, name)
    ensures name !in s.registry
  {
  }

  lemma KnownAgentOK(s: System, name: string)
    requires Inv(s) && Known(s, name)
    ensures AgentOK(AgentAt(s, name), s.alive) && s.objects[s.registry[name]].name == name
  {
  }

  lemma ReapedForRemoval(s: System, name: string)
    requires Inv(s) && Known(s, name)
    ensures var (a, allowed) := CanUnregister(AgentAt(s, name), s.alive);
            var reaped := SetAgent(s, s.registry[name], a);
            Inv(reaped) && (allowed && !s.shutdown ==> !Live(reaped, s.registry[name]))
  {
    hide Inv, Live, CanUnregister;
    var id := s.registry[name];
    var a := CanUnregister(AgentAt(s, name), s.alive).0;
    KnownAgentOK(s, name);
    AgentStepsAreGentle(AgentAt(s, name), 0, s.alive);
    GentleMore(AgentAt(s, name), a, s.alive, s.shutdown);
    GentleKeepsInv(s, id, a);
    if CanUnregister(AgentAt(s, name), s.alive).1 && !s.shutdown {
      CanUnregisterMeans(AgentAt(s, name), s.alive);
      RemovableIsNotLive(SetAgent(s, id, a), id);
    }
  }

  lemma CanUnregisterMeans(a: Agent, alive: set<ThreadId>)
    ensures CanUnregister(a, alive).1 <==> CanUnregister(a, alive).0.status != Busy && CanUnregister(a, alive).0.pending.None?
  {
  }

  lemma UnregisterKeepsInv(s: System, name: string)
    requires Inv(s)
    ensures Inv(UnregisterStep(s, name))
  {
    hide Inv, Live, CanUnregister;
    if Known(s, name) {
      ReapedForRemoval(s, name);
      var (a, allowed) := CanUnregister(AgentAt(s, name), s.alive);
      if allowed { DropNameKeepsInv(SetAgent(s, s.registry[name], a), name); }
    }
  }

  lemma DropNameKeepsInv(s: System, name: string)
    requires Inv(s) && name in s.registry && (!s.shutdown ==> !Live(s, s.registry[name]))
    ensures Inv(s.(registry := s.registry - {name}))
  {
    hide Live, ThreadsOK, PlacesOK;
    ThreadsFrame(s, s.(registry := s.registry - {name}));
    DropNamePlaces(s, name);
  }

  lemma DropNamePlaces(s: System, name: string)
    requires IdsOK(s) && PlacesOK(s) && name in s.registry && (!s.shutdown ==> !Live(s, s.registry[name]))
    ensures PlacesOK(s.(registry := s.registry - {name}))
  {
    hide Live;
    LiveFrame(s, s.(registry := s.registry - {name}));
  }

  // ---- Dispatch and handler threads ----

  lemma AssignMeans(a: Agent, task: nat, alive: set<ThreadId>)
    requires AgentOK(a, alive) && TryAssign(a, task, alive).1
    ensures var b := TryAssign(a, task, alive).0;
            b.status == Busy && b.pending.None? && !Occupied(a) && (a.pending.Some? ==> a.pending.value !in alive)
  {
  }

  lemma DispatchKeepsInv(s: System, name: string)
    requires Inv(s)
    ensures Inv(DispatchStep(s, name))
  {
    hide Inv, Live, TryAssign;
    if !s.shutdown && Known(s, name) {
      KnownAgentOK(s, name);
      var a := TryAssign(AgentAt(s, name), s.next, s.alive).0;
      AgentStepsAreGentle(AgentAt(s, name), s.next, s.alive);
      if TryAssign(AgentAt(s, name), s.next, s.alive).1 {
        AssignMeans(AgentAt(s, name), s.next, s.alive);
        AssignKeepsInv(s, s.registry[name], a);
      } else {
        GentleMore(AgentAt(s, name), a, s.alive, s.shutdown);
        GentleKeepsInv(s, s.registry[name], a);
      }
    }
  }

  function WithDispatch(s: System, id: nat, a: Agent): System
    requires id in s.objects
  {
    SetAgent(s, id, a).(dispatches := s.dispatches[s.next := Dispatch(id, Assigned)], next := s.next + 1)
  }

  lemma AssignKeepsInv(s: System, id: nat, a: Agent)
    requires Inv(s) && id in s.objects && !s.shutdown
    requires s.objects[id].name in s.registry && s.registry[s.objects[id].name] == id
    requires !Occupied(s.objects[id].agent) && a.status == Busy && a.pending.None?
    requires s.objects[id].agent.pending.Some? ==> s.objects[id].agent.pending.value !in s.alive
    ensures Inv(WithDispatch(s, id, a))
  {
    hide Live, ThreadsOK, PlacesOK, IdsOK, AgentsOK, DispatchesOK;
    FreshDispatch(s);
    AssignIds(s, id, a);
    AssignAgents(s, id, a);
    AssignDispatches(s, id, a);
    AssignThreads(s, id, a);
    AssignPlaces(s, id, a);
  }

  lemma FreshDispatch(s: System)
    requires IdsOK(s)
    ensures s.next !in s.dispatches && s.next !in s.owners && s.next !in s.alive
  {
  }

  lemma AssignIds(s: System, id: nat, a: Agent)
    requires IdsOK(s) && id in s.objects
    ensures IdsOK(WithDispatch(s, id, a))
  {
  }

  lemma AssignAgents(s: System, id: nat, a: Agent)
    requires AgentsOK(s) && id in s.objects && a.status == Busy && a.pending.None?
    ensures AgentsOK(WithDispatch(s, id, a))
  {
  }

  lemma AssignDispatches(s: System, id: nat, a: Agent)
    requires DispatchesOK(s) && IdsOK(s) && id in s.objects && !Occupied(s.objects[id].agent) && a.status == Busy && a.pending.None?
    ensures DispatchesOK(WithDispatch(s, id, a))
  {
  }

  lemma AssignThreads(s: System, id: nat, a: Agent)
    requires ThreadsOK(s) && IdsOK(s) && id in s.objects && s.next !in s.dispatches
    requires s.objects[id].agent.pending.Some? ==> s.objects[id].agent.pending.value !in s.alive
    ensures ThreadsOK(WithDispatch(s, id, a))
  {
    hide IdsOK;
    var t := WithDispatch(s, id, a);
    forall x | x in t.alive && x in t.owners && t.owners[x] in t.objects ensures Held(t, x) {
      assert Held(s, x);
      if s.objects[s.owners[x]].agent.pending != Some(x) {
        var d :| d in s.dispatches && HasThread(s.dispatches[d].stage, x);
        assert d in t.dispatches && HasThread(t.dispatches[d].stage, x);
      }
    }
  }

  lemma AssignPlaces(s: System, id: nat, a: Agent)
    requires IdsOK(s) && PlacesOK(s) && id in s.objects && !s.shutdown
    requires s.objects[id].name in s.registry && s.registry[s.objects[id].name] == id
    ensures PlacesOK(WithDispatch(s, id, a))
  {
    var t := WithDispatch(s, id, a);
    forall i | Live(t, i) ensures i == id || Live(s, i) {
      if d :| d in t.dispatches && t.dispatches[d].agent == i {
        if d != s.next { assert d in s.dispatches; }
      }
    }
    hide Live;
  }

  /** The stage of one dispatch moves on; its thread, if it had one that is still alive, stays with it. */
  lemma StageKeepsInv(s: System, d: nat, stage: Stage)
    requires Inv(s) && d in s.dispatches
    requires forall t :: HasThread(stage, t) ==> HasThread(s.dispatches[d].stage, t)
    requires forall t :: HasThread(s.dispatches[d].stage, t) && t in s.alive ==> HasThread(stage, t)
    ensures Inv(s.(dispatches := s.dispatches[d := s.dispatches[d].(stage := stage)]))
  {
    hide ThreadsOK, PlacesOK;
    StageThreads(s, d, stage);
    StagePlaces(s, d, stage);
  }

  lemma StageThreads(s: System, d: nat, stage: Stage)
    requires ThreadsOK(s) && d in s.dispatches
    requires forall t :: HasThread(s.dispatches[d].stage, t) && t in s.alive ==> HasThread(stage, t)
    ensures ThreadsOK(s.(dispatches := s.dispatches[d := s.dispatches[d].(stage := stage)]))
  {
    var t := s.(dispatches := s.dispatches[d := s.dispatches[d].(stage := stage)]);
    forall x | x in t.alive && x in t.owners && t.owners[x] in t.objects ensures Held(t, x) {
      assert Held(s, x);
      if s.objects[s.owners[x]].agent.pending != Some(x) {
        var e :| e in s.dispatches && HasThread(s.dispatches[e].stage, x);
        assert e in t.dispatches && HasThread(t.dispatches[e].stage, x);
      }
    }
  }

  lemma StagePlaces(s: System, d: nat, stage: Stage)
    requires PlacesOK(s) && d in s.dispatches
    ensures PlacesOK(s.(dispatches := s.dispatches[d := s.dispatches[d].(stage := stage)]))
  {
    var t := s.(dispatches := s.dispatches[d := s.dispatches[d].(stage := stage)]);
    forall i | Live(t, i) ensures Live(s, i) {
      if e :| e in t.dispatches && t.dispatches[e].agent == i { assert e in s.dispatches && s.dispatches[e].agent == i; }
    }
    hide Live;
  }

  lemma StartKeepsInv(s: System, d: nat, succeeds: bool)
    requires Inv(s)
    ensures Inv(StartStep(s, d, succeeds))
  {
    hide Inv;
    if d in s.dispatches && s.dispatches[d].stage.Assigned? {
      if succeeds {
        ThreadStartsInv(s, d);
      } else {
        StageKeepsInv(s, d, Finishing(false, true));
      }
    }
  }

  lemma ThreadStartsInv(s: System, d: nat)
    requires Inv(s) && d in s.dispatches && s.dispatches[d].stage.Assigned?
    ensures Inv(StartStep(s, d, true))
  {
    hide ThreadsOK, PlacesOK, DispatchesOK, AgentsOK, IdsOK;
    FreshDispatch(s);
    StartIds(s, d);
    StartAgents(s, d);
    StartDispatches(s, d);
    StartThreads(s, d);
    StartPlaces(s, d);
  }

  lemma StartIds(s: System, d: nat)
    requires IdsOK(s) && d in s.dispatches && s.dispatches[d].stage.Assigned?
    ensures IdsOK(StartStep(s, d, true))
  {
    FreshDispatch(s);
    var t := StartStep(s, d, true);
    forall e, x | e in t.dispatches && HasThread(t.dispatches[e].stage, x) ensures x in t.owners && t.owners[x] == t.dispatches[e].agent {
      if e != d { assert e in s.dispatches && HasThread(s.dispatches[e].stage, x); }
    }
  }

  lemma StartAgents(s: System, d: nat)
    requires AgentsOK(s) && IdsOK(s) && d in s.dispatches && s.dispatches[d].stage.Assigned?
    ensures AgentsOK(StartStep(s, d, true))
  {
  }

  lemma StartDispatches(s: System, d: nat)
    requires DispatchesOK(s) && d in s.dispatches && s.dispatches[d].stage.Assigned?
    ensures DispatchesOK(StartStep(s, d, true))
  {
  }

  lemma StartThreads(s: System, d: nat)
    requires ThreadsOK(s) && IdsOK(s) && d in s.dispatches && s.dispatches[d].stage.Assigned?
    ensures ThreadsOK(StartStep(s, d, true))
  {
    var t := StartStep(s, d, true);
    assert HasThread(t.dispatches[d].stage, s.next);
    forall x | x in t.alive && x in t.owners && t.owners[x] in t.objects ensures Held(t, x) {
      if x != s.next {
        assert Held(s, x);
        if s.objects[s.owners[x]].agent.pending != Some(x) {
          var e :| e in s.dispatches && HasThread(s.dispatches[e].stage, x);
          assert e in t.dispatches && HasThread(t.dispatches[e].stage, x);
        }
      }
    }
  }

  lemma StartPlaces(s: System, d: nat)
    requires PlacesOK(s) && IdsOK(s) && d in s.dispatches && s.dispatches[d].stage.Assigned?
    ensures PlacesOK(StartStep(s, d, true))
  {
    var t := StartStep(s, d, true);
    forall i | Live(t, i) ensures Live(s, i) {
      if e :| e in t.dispatches && t.dispatches[e].agent == i {
        assert e in s.dispatches && s.dispatches[e].agent == i;
      } else {
        var x :| x in t.alive && x in t.owners && t.owners[x] == i;
        if x == s.next { assert s.dispatches[d].agent == i; } else { assert x in s.alive && s.owners[x] == i; }
      }
    }
    hide Live;
  }

  lemma ThreadEndsKeepsInv(s: System, thread: ThreadId)
    requires Inv(s)
    ensures Inv(s.(alive := s.alive - {thread}))
  {
    hide ThreadsOK, PlacesOK;
    ThreadsFrame(s, s.(alive := s.alive - {thread}));
    EndPlaces(s, thread);
  }

  lemma EndPlaces(s: System, thread: ThreadId)
    requires PlacesOK(s)
    ensures PlacesOK(s.(alive := s.alive - {thread}))
  {
    var t := s.(alive := s.alive - {thread});
    forall i | Live(t, i) ensures Live(s, i) { }
    hide Live;
  }

  lemma JoinKeepsInv(s: System, d: nat, ok: bool, recoverable: bool)
    requires Inv(s)
    ensures Inv(JoinStep(s, d, ok, recoverable))
  {
    hide Inv;
    if d in s.dispatches && s.dispatches[d].stage.Waiting? {
      var thread := s.dispatches[d].stage.thread;
      StageKeepsInv(s, d, if thread in s.alive then TimedOut(thread) else Finishing(ok, recoverable));
    }
  }

  // ---- The verdict ----

  lemma VerdictMeans(a: Agent, stage: Stage, alive: set<ThreadId>)
    requires Occupied(a) && (stage.Finishing? || stage.TimedOut?)
    ensures var b := Verdict(a, stage, alive);
            && AgentOK(b, alive) && (b.status == ShutDown <==> a.status == ShutDown)
            && b.pending == if stage.TimedOut? then Some(stage.thread) else None
  {
  }

  lemma ConcludeKeepsInv(s: System, d: nat)
    requires Inv(s)
    ensures Inv(ConcludeStep(s, d))
  {
    hide ThreadsOK, PlacesOK, Verdict;
    if d in s.dispatches && (s.dispatches[d].stage.Finishing? || s.dispatches[d].stage.TimedOut?) {
      var id := s.dispatches[d].agent;
      VerdictMeans(s.objects[id].agent, s.dispatches[d].stage, s.alive);
      ConcludeThreads(s, d);
      ConcludePlaces(s, d);
      ConcludeDispatches(s, d);
      ConcludeAgents(s, d);
      ConcludeIds(s, d);
    }
  }

  predicate Concluding(s: System, d: nat) {
    d in s.dispatches && s.dispatches[d].agent in s.objects && (s.dispatches[d].stage.Finishing? || s.dispatches[d].stage.TimedOut?)
  }

  lemma ConcludeIds(s: System, d: nat)
    requires IdsOK(s) && Concluding(s, d)
    ensures IdsOK(ConcludeStep(s, d))
  {
    hide Verdict;
  }

  lemma ConcludeAgents(s: System, d: nat)
    requires AgentsOK(s) && IdsOK(s) && DispatchesOK(s) && Concluding(s, d)
    ensures AgentsOK(ConcludeStep(s, d))
  {
    hide Verdict;
    var id, stage := s.dispatches[d].agent, s.dispatches[d].stage;
    VerdictMeans(s.objects[id].agent, stage, s.alive);
    if stage.TimedOut? { assert HasThread(stage, stage.thread) && s.owners[stage.thread] == id; }
    hide IdsOK, DispatchesOK, Occupied, HasThread;
    SetAgentsOK(s, id, Verdict(s.objects[id].agent, stage, s.alive));
    hide AgentOK;
  }

  lemma SetAgentsOK(s: System, id: nat, b: Agent)
    requires AgentsOK(s) && id in s.objects && AgentOK(b, s.alive) && (b.status == ShutDown ==> s.shutdown)
    requires b.pending.Some? ==> b.pending.value in s.owners && s.owners[b.pending.value] == id
    ensures AgentsOK(SetAgent(s, id, b))
  {
    hide AgentOK;
  }

  lemma ConcludeDispatches(s: System, d: nat)
    requires DispatchesOK(s) && Concluding(s, d)
    ensures DispatchesOK(ConcludeStep(s, d))
  {
    hide Verdict;
  }

  lemma ConcludeThreads(s: System, d: nat)
    requires ThreadsOK(s) && IdsOK(s) && DispatchesOK(s) && Concluding(s, d)
    ensures ThreadsOK(ConcludeStep(s, d))
  {
    hide Verdict;
    var t := ConcludeStep(s, d);
    var id := s.dispatches[d].agent;
    VerdictMeans(s.objects[id].agent, s.dispatches[d].stage, s.alive);
    assert s.objects[id].agent.pending.None?;
    ConcludeObjects(s, d);
    hide ConcludeStep, DispatchesOK, Occupied;
    forall x | x in t.alive && x in t.owners && t.owners[x] in t.objects ensures Held(t, x) {
      assert Held(s, x);
      if s.objects[s.owners[x]].agent.pending == Some(x) {
        assert s.owners[x] != id;
      } else {
        var e :| e in s.dispatches && HasThread(s.dispatches[e].stage, x);
        if e == d {
          assert s.owners[x] == id && s.dispatches[d].stage == TimedOut(x);
        } else {
          assert e in t.dispatches && HasThread(t.dispatches[e].stage, x);
        }
      }
    }
  }

  lemma ConcludeObjects(s: System, d: nat)
    requires Concluding(s, d)
    ensures var t, id := ConcludeStep(s, d), s.dispatches[d].agent;
            && t.alive == s.alive && t.owners == s.owners && t.dispatches == s.dispatches - {d}
            && t.objects == s.objects[id := Registered(s.objects[id].name, Verdict(s.objects[id].agent, s.dispatches[d].stage, s.alive))]
  {
    hide Verdict;
  }

  lemma ConcludePlaces(s: System, d: nat)
    requires PlacesOK(s) && Concluding(s, d)
    ensures PlacesOK(ConcludeStep(s, d))
  {
    hide Verdict;
    var t := ConcludeStep(s, d);
    forall i | Live(t, i) ensures Live(s, i) {
      if e :| e in t.dispatches && t.dispatches[e].agent == i { assert e in s.dispatches && s.dispatches[e].agent == i; }
    }
    hide Live;
  }

  // ---- Shutdown ----

  lemma BeginShutdownKeepsInv(s: System)
    requires Inv(s)
    ensures Inv(s.(shutdown := true, closing := s.closing + s.registry.Values))
  {
    hide Live, Held;
    var t := s.(shutdown := true, closing := s.closing + s.registry.Values);
    LiveFrame(s, t);
    hide ThreadsOK;
    ThreadsFrame(s, t);
  }

  lemma ClosingKeepsInv(s: System, closing: set<nat>)
    requires Inv(s) && closing <= s.closing
    ensures Inv(s.(closing := closing))
  {
    hide Live, ThreadsOK;
    LiveFrame(s, s.(closing := closing));
    ThreadsFrame(s, s.(closing := closing));
  }

  lemma CloseKeepsInv(s: System, id: nat)
    requires Inv(s)
    ensures Inv(Step(s, CloseAgent(id)))
  {
    hide Live, ThreadsOK, PlacesOK, DispatchesOK, IdsOK;
    if id in s.closing && id in s.objects {
      AgentStepsAreGentle(s.objects[id].agent, 0, s.alive);
      GentleKeepsInv(s, id, Stop(s.objects[id].agent));
      ClosingKeepsInv(SetAgent(s, id, Stop(s.objects[id].agent)), s.closing - {id});
    }
  }

  lemma ServiceKeepsInv(s: System, e: Event)
    requires Inv(s) && (e.RecoverAgent? || e.ResetAgent? || e.Inspect?)
    ensures Inv(Step(s, e))
  {
    hide Inv, Reap, Reset, Recover, Gentle;
    if Known(s, e.name) {
      var a := AgentAt(s, e.name);
      KnownAgentOK(s, e.name);
      AgentStepsAreGentle(a, 0, s.alive);
      GentleMore(a, Reap(a, s.alive), s.alive, s.shutdown);
      GentleMore(a, Reset(a, s.alive), s.alive, s.shutdown);
      GentleMore(a, Recover(a, s.alive).0, s.alive, s.shutdown);
      match e
      case RecoverAgent(name) => GentleKeepsInv(s, s.registry[name], Recover(a, s.alive).0);
      case ResetAgent(name) => GentleKeepsInv(s, s.registry[name], Reset(a, s.alive));
      case Inspect(name) => GentleKeepsInv(s, s.registry[name], Reap(a, s.alive));
    }
  }

  // ---- The two ways out ----

  /** A failure verdict for an agent in service that another dispatch holds, or a recoverable one for a quarantined agent. */
  ghost predicate HarmfulVerdict(s: System, id: nat, recoverable: bool)
    requires id in s.objects
  {
    var a := s.objects[id].agent;
    a.status != ShutDown && (Taken(s, id) || (recoverable && a.pending.Some? && a.pending.value in s.alive))
  }

  /** `join` raises while the handler runs, or a late failure verdict hits an agent that is busy again or quarantined. */
  ghost predicate Harmful(s: System, e: Event) {
    match e
    case JoinRaises(d) => d in s.dispatches && s.dispatches[d].stage.Waiting? && s.dispatches[d].stage.thread in s.alive
    case RecordRaises(d, recoverable) => d in s.recording && s.recording[d] in s.objects && HarmfulVerdict(s, s.recording[d], recoverable)
    case _ => false
  }

  lemma JoinRaisesKeepsInv(s: System, d: nat)
    requires Inv(s) && !Harmful(s, JoinRaises(d))
    ensures Inv(JoinRaisesStep(s, d))
  {
    hide Inv;
    if d in s.dispatches && s.dispatches[d].stage.Waiting? { StageKeepsInv(s, d, Finishing(false, true)); }
  }

  lemma FailIsGentle(a: Agent, recoverable: bool, alive: set<ThreadId>, shutdown: bool)
    requires AgentOK(a, alive)
    requires a.status != ShutDown && recoverable && a.pending.Some? ==> a.pending.value !in alive
    ensures Gentle(a, Fail(a, recoverable), alive, shutdown)
    ensures a.status == ShutDown ==> StaysOccupied(a, Fail(a, recoverable))
  {
  }

  lemma RecordRaisesKeepsInv(s: System, d: nat, recoverable: bool)
    requires Inv(s) && !Harmful(s, RecordRaises(d, recoverable))
    ensures Inv(RecordRaisesStep(s, d, recoverable))
  {
    hide Inv, Gentle, StaysOccupied, Taken, Fail;
    if d in s.recording && s.recording[d] in s.objects {
      var id := s.recording[d];
      QuarantinedIsOK(s, id);
      FailIsGentle(s.objects[id].agent, recoverable, s.alive, s.shutdown);
      GentleKeepsInv(s, id, Fail(s.objects[id].agent, recoverable));
      RecordingKeepsInv(SetAgent(s, id, Fail(s.objects[id].agent, recoverable)), s.recording - {d});
    }
  }

  lemma RecordingKeepsInv(s: System, recording: map<nat, nat>)
    requires Inv(s) && forall d :: d in recording ==> d in s.recording && recording[d] == s.recording[d]
    ensures Inv(s.(recording := recording))
  {
    hide Live, ThreadsOK;
    LiveFrame(s, s.(recording := recording));
    ThreadsFrame(s, s.(recording := recording));
  }

  lemma StepKeepsInv(s: System, e: Event)
    requires Inv(s) && !Harmful(s, e)
    ensures Inv(Step(s, e))
  {
    hide Inv, Harmful, RegisterStep, UnregisterStep, DispatchStep, StartStep, JoinStep, JoinRaisesStep, ConcludeStep, RecordRaisesStep;
    match e
    case Register(name) => RegisterKeepsInv(s, name);
    case Unregister(name) => UnregisterKeepsInv(s, name);
    case RecoverAgent(name) => ServiceKeepsInv(s, e);
    case ResetAgent(name) => ServiceKeepsInv(s, e);
    case Inspect(name) => ServiceKeepsInv(s, e);
    case DispatchTask(name) => DispatchKeepsInv(s, name);
    case StartThread(d, succeeds) => StartKeepsInv(s, d, succeeds);
    case ThreadEnds(thread) => ThreadEndsKeepsInv(s, thread);
    case JoinReturns(d, ok, recoverable) => JoinKeepsInv(s, d, ok, recoverable);
    case JoinRaises(d) => JoinRaisesKeepsInv(s, d);
    case Conclude(d) => ConcludeKeepsInv(s, d);
    case RecordRaises(d, recoverable) => RecordRaisesKeepsInv(s, d, recoverable);
    case BeginShutdown => BeginShutdownKeepsInv(s);
    case CloseAgent(id) => CloseKeepsInv(s, id);
  }

  /** No event of the run is harmful where it happens. */
  ghost predicate Undisturbed(s: System, events: seq<Event>)
    decreases |events|
  {
    |events| == 0 || (!Harmful(s, events[0]) && Undisturbed(Step(s, events[0]), events[1..]))
  }

  lemma {:induction false} RunKeepsInv(s: System, events: seq<Event>)
    requires Inv(s) && Undisturbed(s, events)
    ensures Inv(Run(s, events))
    decreases |events|
  {
    hide Inv, Step, Harmful;
    if |events| > 0 {
      StepKeepsInv(s, events[0]);
      RunKeepsInv(Step(s, events[0]), events[1..]);
    }
  }

  // ---- The theorems ----

  function NameOf(s: System, thread: ThreadId): Option<string> {
    if thread in s.owners && s.owners[thread] in s.objects then Some(s.objects[s.owners[thread]].name) else None
  }

  /** A live handler thread either is the one its agent is quarantined on or has a dispatch waiting for it. */
  lemma ThreadMeansOccupied(s: System, thread: ThreadId)
    requires Inv(s) && thread in s.alive
    ensures thread in s.owners && s.owners[thread] in s.objects && Live(s, s.owners[thread])
    ensures var a := s.objects[s.owners[thread]].agent;
            if a.pending.Some? then a.pending == Some(thread) else Occupied(a) && exists d :: d in s.dispatches && HasThread(s.dispatches[d].stage, thread)
  {
    assert Held(s, thread);
  }

  lemma SameNameSameThread(s: System, t1: ThreadId, t2: ThreadId)
    requires Inv(s) && t1 in s.alive && t2 in s.alive && NameOf(s, t1) == NameOf(s, t2)
    ensures t1 == t2
  {
    hide Live, AgentsOK, ThreadsOK;
    ThreadMeansOccupied(s, t1);
    ThreadMeansOccupied(s, t2);
    var a := s.objects[s.owners[t1]].agent;
    if a.pending.None? {
      var d1 :| d1 in s.dispatches && HasThread(s.dispatches[d1].stage, t1);
      var d2 :| d2 in s.dispatches && HasThread(s.dispatches[d2].stage, t2);
    }
  }

  /** A new dispatch is accepted only when no earlier handler of that name is alive and no dispatch holds its agent. */
  lemma AcceptedMeansAlone(s: System, name: string, thread: ThreadId)
    requires Inv(s) && Step(s, DispatchTask(name)).dispatches != s.dispatches
    ensures !s.shutdown && Known(s, name)
    ensures forall d :: d in s.dispatches ==> s.dispatches[d].agent != s.registry[name]
    ensures thread in s.alive ==> NameOf(s, thread) != Some(name)
  {
    hide TryAssign, Live, ThreadsOK;
    KnownAgentOK(s, name);
    AssignMeans(AgentAt(s, name), s.next, s.alive);
    if thread in s.alive { ThreadMeansOccupied(s, thread); }
  }

  // ---- After shutdown ----

  /** The name a dispatch is for. */
  function TargetOf(s: System, d: nat): Option<string> {
    if d in s.dispatches && s.dispatches[d].agent in s.objects then Some(s.objects[s.dispatches[d].agent].name) else None
  }

  ghost predicate OneHandler(s: System) {
    forall t1, t2 :: t1 in s.alive && t2 in s.alive && NameOf(s, t1) == NameOf(s, t2) ==> t1 == t2
  }

  predicate IsAssigned(s: System, d: nat) {
    d in s.dispatches && s.dispatches[d].stage.Assigned?
  }

  /** A name has at most one claim on a handler: a live thread, or a dispatch that is still to start one. */
  ghost predicate OneClaim(s: System) {
    && OneHandler(s)
    && (forall d1, d2 :: IsAssigned(s, d1) && IsAssigned(s, d2) && TargetOf(s, d1) == TargetOf(s, d2) ==> d1 == d2)
    && (forall t, d :: t in s.alive && IsAssigned(s, d) ==> NameOf(s, t) != TargetOf(s, d))
  }

  lemma InvMeansOneClaim(s: System)
    requires Inv(s)
    ensures OneClaim(s)
  {
    forall t1, t2 | t1 in s.alive && t2 in s.alive && NameOf(s, t1) == NameOf(s, t2) ensures t1 == t2 {
      SameNameSameThread(s, t1, t2);
    }
    hide ThreadsOK, AgentsOK;
    forall d1, d2 | IsAssigned(s, d1) && IsAssigned(s, d2) && TargetOf(s, d1) == TargetOf(s, d2) ensures d1 == d2 {
      assert Live(s, s.dispatches[d1].agent) && Live(s, s.dispatches[d2].agent);
    }
    forall t, d | t in s.alive && IsAssigned(s, d) ensures NameOf(s, t) != TargetOf(s, d) {
      ThreadMeansOccupied(s, t);
      assert Live(s, s.dispatches[d].agent);
    }
  }

  /** Objects keep their names, threads and dispatches their objects. */
  ghost predicate Follows(s: System, t: System) {
    && (forall id :: id in s.objects ==> id in t.objects && t.objects[id].name == s.objects[id].name)
    && (forall x :: x in t.alive ==> x in s.alive && x in s.owners && x in t.owners && t.owners[x] == s.owners[x])
    && (forall d :: IsAssigned(t, d) ==> IsAssigned(s, d) && t.dispatches[d].agent == s.dispatches[d].agent)
  }

  lemma FollowsKeepsClaims(s: System, t: System)
    requires IdsOK(s) && OneClaim(s) && Follows(s, t)
    ensures OneClaim(t)
  {
    forall x | x in t.alive ensures NameOf(t, x) == NameOf(s, x) { }
    forall d | IsAssigned(t, d) ensures TargetOf(t, d) == TargetOf(s, d) { }
  }

  /** After shutdown no event whatever gives a name a second claim. */
  lemma ShutdownStepKeepsClaims(s: System, e: Event)
    requires s.shutdown && IdsOK(s) && OneClaim(s)
    ensures Step(s, e).shutdown && IdsOK(Step(s, e)) && OneClaim(Step(s, e))
  {
    StepKeepsIds(s, e);
    if e.StartThread? && e.succeeds && IsAssigned(s, e.dispatch) {
      StartMovesClaim(s, e.dispatch);
    } else {
      hide OneClaim, Step, IdsOK;
      StepFollows(s, e);
      FollowsKeepsClaims(s, Step(s, e));
    }
    ShutdownStays(s, e);
  }

  lemma ShutdownStays(s: System, e: Event)
    requires s.shutdown
    ensures Step(s, e).shutdown
  {
    hide TryAssign, Recover, Reset, Reap, CanUnregister, Verdict, Stop, Fail;
  }

  lemma StepFollows(s: System, e: Event)
    requires s.shutdown && IdsOK(s) && !(e.StartThread? && e.succeeds && IsAssigned(s, e.dispatch))
    ensures Follows(s, Step(s, e))
  {
    hide Step, IdsOK, Follows;
    if IsRegistration(e) { RegistrationFollows(s, e); } else if IsDispatching(e) { DispatchingFollows(s, e); } else { ServiceFollows(s, e); }
  }

  lemma ServiceFollows(s: System, e: Event)
    requires IdsOK(s) && !IsRegistration(e) && !IsDispatching(e)
    ensures Follows(s, Step(s, e))
  {
    hide Recover, Reset, Reap, Stop, IdsOK;
    FollowsItself(s);
    match e
    case RecoverAgent(name) => if Known(s, name) { SetAgentFollows(s, s.registry[name], Recover(AgentAt(s, name), s.alive).0); }
    case ResetAgent(name) => if Known(s, name) { SetAgentFollows(s, s.registry[name], Reset(AgentAt(s, name), s.alive)); }
    case Inspect(name) => if Known(s, name) { SetAgentFollows(s, s.registry[name], Reap(AgentAt(s, name), s.alive)); }
    case CloseAgent(id) => if id in s.objects { SetAgentFollows(s, id, Stop(s.objects[id].agent)); }
    case ThreadEnds(_) =>
    case BeginShutdown =>
  }

  lemma SetAgentFollows(s: System, id: nat, b: Agent)
    requires IdsOK(s) && id in s.objects
    ensures Follows(s, SetAgent(s, id, b))
  {
  }

  lemma RegistrationFollows(s: System, e: Event)
    requires IdsOK(s) && IsRegistration(e)
    ensures Follows(s, Step(s, e))
  {
    hide CanUnregister, IdsOK, Follows, AddAgent;
    FollowsItself(s);
    var reaped := if Known(s, e.name) then SetAgent(s, s.registry[e.name], CanUnregister(AgentAt(s, e.name), s.alive).0) else s;
    if Known(s, e.name) {
      SetAgentFollows(s, s.registry[e.name], CanUnregister(AgentAt(s, e.name), s.alive).0);
      GentleIds(s, s.registry[e.name], CanUnregister(AgentAt(s, e.name), s.alive).0);
    }
    AddAgentFollows(s, reaped, e.name);
    DropNameFollows(s, reaped, e.name);
  }

  lemma AddAgentFollows(s: System, t: System, name: string)
    requires IdsOK(t) && Follows(s, t)
    ensures Follows(s, AddAgent(t, name))
  {
    assert t.next !in t.objects;
    hide IdsOK;
  }

  lemma DropNameFollows(s: System, t: System, name: string)
    requires Follows(s, t)
    ensures Follows(s, t.(registry := s.registry - {name}))
  {
  }

  lemma DispatchingFollows(s: System, e: Event)
    requires s.shutdown && IdsOK(s) && IsDispatching(e) && !(e.StartThread? && e.succeeds && IsAssigned(s, e.dispatch))
    ensures Follows(s, Step(s, e))
  {
    hide TryAssign, Follows, ConcludeStep, RecordRaisesStep;
    FollowsItself(s);
    match e
    case Conclude(d) => ConcludeFollows(s, d);
    case RecordRaises(d, recoverable) => RecordFollows(s, d, recoverable);
    case DispatchTask(_) =>
    case JoinReturns(d, ok, recoverable) =>
      if d in s.dispatches && s.dispatches[d].stage.Waiting? {
        var thread := s.dispatches[d].stage.thread;
        StageFollows(s, d, if thread in s.alive then TimedOut(thread) else Finishing(ok, recoverable));
      }
    case JoinRaises(d) => if d in s.dispatches && s.dispatches[d].stage.Waiting? { StageFollows(s, d, Finishing(false, true)); }
    case StartThread(d, _) => if IsAssigned(s, d) { StageFollows(s, d, Finishing(false, true)); }
  }

  lemma StageFollows(s: System, d: nat, stage: Stage)
    requires IdsOK(s) && d in s.dispatches && !stage.Assigned?
    ensures Follows(s, s.(dispatches := s.dispatches[d := s.dispatches[d].(stage := stage)]))
  {
  }

  lemma ConcludeFollows(s: System, d: nat)
    requires IdsOK(s)
    ensures Follows(s, ConcludeStep(s, d))
  {
    hide Verdict, IdsOK;
    FollowsItself(s);
    if Concluding(s, d) {
      SetAgentFollows(s, s.dispatches[d].agent, Verdict(s.objects[s.dispatches[d].agent].agent, s.dispatches[d].stage, s.alive));
    }
  }

  lemma RecordFollows(s: System, d: nat, recoverable: bool)
    requires IdsOK(s)
    ensures Follows(s, RecordRaisesStep(s, d, recoverable))
  {
    hide Fail, HasThread;
  }

  lemma FollowsItself(s: System)
    requires IdsOK(s)
    ensures Follows(s, s)
  {
  }

  lemma StartMovesClaim(s: System, d: nat)
    requires IdsOK(s) && OneClaim(s) && IsAssigned(s, d)
    ensures OneClaim(StartStep(s, d, true))
  {
    FreshDispatch(s);
    var t := StartStep(s, d, true);
    assert NameOf(t, s.next) == TargetOf(s, d);
    forall x | x in s.alive ensures NameOf(t, x) == NameOf(s, x) { }
    forall e | IsAssigned(t, e) ensures e != d && IsAssigned(s, e) && TargetOf(t, e) == TargetOf(s, e) { }
  }

  lemma StepKeepsIds(s: System, e: Event)
    requires IdsOK(s)
    ensures IdsOK(Step(s, e))
  {
    hide TryAssign, Recover, Reset, Reap, CanUnregister, Verdict, Stop, Fail;
    if IsRegistration(e) {
      RegistrationIds(s, e);
    } else if IsDispatching(e) {
      DispatchingIds(s, e);
    } else {
      ServiceIds(s, e);
    }
  }

  lemma RegistrationIds(s: System, e: Event)
    requires IdsOK(s) && IsRegistration(e)
    ensures IdsOK(Step(s, e))
  {
    hide CanUnregister;
    if e.Register? { RegisterIds(s, e.name); }
  }

  lemma DispatchingIds(s: System, e: Event)
    requires IdsOK(s) && IsDispatching(e)
    ensures IdsOK(Step(s, e))
  {
    hide TryAssign, Verdict, Fail, IdsOK;
    match e
    case StartThread(d, succeeds) =>
      if IsAssigned(s, d) { if succeeds { StartIds(s, d); } else { StageIds(s, d, Finishing(false, true)); } }
    case DispatchTask(name) =>
      if !s.shutdown && Known(s, name) {
        AssignIds(s, s.registry[name], TryAssign(AgentAt(s, name), s.next, s.alive).0);
        GentleIds(s, s.registry[name], TryAssign(AgentAt(s, name), s.next, s.alive).0);
      }
    case Conclude(d) => if Concluding(s, d) { ConcludeIds(s, d); }
    case RecordRaises(d, recoverable) =>
      if d in s.recording && s.recording[d] in s.objects {
        GentleIds(s, s.recording[d], Fail(s.objects[s.recording[d]].agent, recoverable));
        RecordingIds(SetAgent(s, s.recording[d], Fail(s.objects[s.recording[d]].agent, recoverable)), d);
      }
    case JoinReturns(d, ok, recoverable) =>
      if d in s.dispatches && s.dispatches[d].stage.Waiting? {
        var thread := s.dispatches[d].stage.thread;
        StageIds(s, d, if thread in s.alive then TimedOut(thread) else Finishing(ok, recoverable));
      }
    case JoinRaises(d) => if d in s.dispatches && s.dispatches[d].stage.Waiting? { StageIds(s, d, Finishing(false, true)); }
  }

  lemma StageIds(s: System, d: nat, stage: Stage)
    requires IdsOK(s) && d in s.dispatches
    requires forall t :: HasThread(stage, t) ==> HasThread(s.dispatches[d].stage, t)
    ensures IdsOK(s.(dispatches := s.dispatches[d := s.dispatches[d].(stage := stage)]))
  {
  }

  lemma RecordingIds(s: System, d: nat)
    requires IdsOK(s)
    ensures IdsOK(s.(recording := s.recording - {d}))
  {
  }

  lemma ServiceIds(s: System, e: Event)
    requires IdsOK(s) && !IsRegistration(e) && !IsDispatching(e)
    ensures IdsOK(Step(s, e))
  {
    hide Recover, Reset, Reap, Stop;
  }

  lemma RegisterIds(s: System, name: string)
    requires IdsOK(s)
    ensures IdsOK(RegisterStep(s, name))
  {
    hide CanUnregister, AddAgent, IdsOK;
    if !Known(s, name) {
      AddAgentIds(s, name);
    } else {
      var reaped := SetAgent(s, s.registry[name], CanUnregister(AgentAt(s, name), s.alive).0);
      GentleIds(s, s.registry[name], CanUnregister(AgentAt(s, name), s.alive).0);
      AddAgentIds(reaped, name);
    }
  }

  /** No event before the shutdown is harmful where it happens; afterwards anything may. */
  ghost predicate UndisturbedService(s: System, events: seq<Event>)
    decreases |events|
  {
    |events| == 0 || ((s.shutdown || !Harmful(s, events[0])) && UndisturbedService(Step(s, events[0]), events[1..]))
  }

  lemma {:induction false} RunKeepsOneClaim(s: System, events: seq<Event>)
    requires Inv(s) || (s.shutdown && IdsOK(s) && OneClaim(s))
    requires UndisturbedService(s, events)
    ensures OneClaim(Run(s, events))
    decreases |events|
  {
    if Inv(s) { InvMeansOneClaim(s); assert IdsOK(s); }
    hide Inv, IdsOK, OneClaim, Step, Harmful;
    if |events| > 0 {
      if s.shutdown { ShutdownStepKeepsClaims(s, events[0]); } else { StepKeepsInv(s, events[0]); }
      RunKeepsOneClaim(Step(s, events[0]), events[1..]);
    }
  }

  /** At most one handler thread per agent name is alive, in every interleaving with no harmful event before the shutdown. */
  lemma OneHandlerPerName(events: seq<Event>, t1: ThreadId, t2: ThreadId)
    requires UndisturbedService(INITIAL, events)
    ensures var s := Run(INITIAL, events);
            t1 in s.alive && t2 in s.alive && NameOf(s, t1) == NameOf(s, t2) ==> t1 == t2
  {
    InitialInv();
    RunKeepsOneClaim(INITIAL, events);
  }

  // ---- Quarantine ----

  lemma LiveOwner(s: System, thread: ThreadId)
    requires IdsOK(s) && thread in s.alive
    ensures thread in s.owners && Live(s, s.owners[thread])
  {
  }

  /** The agent is quarantined on a handler thread that has not ended. */
  ghost predicate Quarantined(s: System, id: nat, thread: ThreadId) {
    id in s.objects && s.objects[id].agent.pending == Some(thread) && thread in s.alive
  }

  /** While its timed-out thread lives, a quarantined agent stays quarantined, out of service and in its place through every event that is not harmful. */
  lemma QuarantineHolds(s: System, e: Event, id: nat, thread: ThreadId)
    requires Inv(s) && !Harmful(s, e) && Quarantined(s, id, thread) && thread in Step(s, e).alive
    ensures var s' := Step(s, e);
            && Quarantined(s', id, thread) && s'.objects[id].agent.status in {Error, ShutDown}
            && s'.objects[id].name == s.objects[id].name
            && (s.objects[id].name in s.registry && s.registry[s.objects[id].name] == id ==>
                  s.objects[id].name in s'.registry && s'.registry[s.objects[id].name] == id)
            && (forall d :: d in s'.dispatches ==> s'.dispatches[d].agent != id)
  {
    hide Live, ThreadsOK, PlacesOK;
    StepKeepsInv(s, e);
    assert id < s.next;
    forall d | d in s.dispatches ensures s.dispatches[d].agent != id { }
    QuarantineStep(s, e, id, thread);
    forall d | d in Step(s, e).dispatches ensures Step(s, e).dispatches[d].agent != id { }
  }

  lemma QuarantinedAgentStays(a: Agent, task: nat, alive: set<ThreadId>)
    requires AgentOK(a, alive) && a.pending.Some? && a.pending.value in alive
    ensures Reap(a, alive).pending == Reset(a, alive).pending == Recover(a, alive).0.pending == Stop(a).pending == a.pending
    ensures CanUnregister(a, alive).0.pending == TryAssign(a, task, alive).0.pending == a.pending
    ensures !CanUnregister(a, alive).1 && !TryAssign(a, task, alive).1
  {
  }

  predicate IsRegistration(e: Event) { e.Register? || e.Unregister? }

  predicate IsDispatching(e: Event) {
    e.DispatchTask? || e.StartThread? || e.JoinReturns? || e.JoinRaises? || e.Conclude? || e.RecordRaises?
  }

  lemma QuarantineRegistration(s: System, e: Event, id: nat, thread: ThreadId)
    requires Inv(s) && Quarantined(s, id, thread) && IsRegistration(e)
    ensures var s' := Step(s, e);
            && id in s'.objects && s'.objects[id].agent.pending == Some(thread) && s'.objects[id].name == s.objects[id].name
            && (s.objects[id].name in s.registry && s.registry[s.objects[id].name] == id ==>
                  s.objects[id].name in s'.registry && s'.registry[s.objects[id].name] == id)
  {
    hide Inv, RegisterStep, UnregisterStep;
    if e.Register? { QuarantineRegister(s, e, id, thread); } else { QuarantineUnregister(s, e, id, thread); }
  }

  lemma QuarantineRegister(s: System, e: Event, id: nat, thread: ThreadId)
    requires Inv(s) && Quarantined(s, id, thread) && e.Register?
    ensures var s' := Step(s, e);
            && id in s'.objects && s'.objects[id].agent.pending == Some(thread) && s'.objects[id].name == s.objects[id].name
            && (s.objects[id].name in s.registry && s.registry[s.objects[id].name] == id ==>
                  s.objects[id].name in s'.registry && s'.registry[s.objects[id].name] == id)
  {
    hide Live, ThreadsOK, PlacesOK, DispatchesOK, CanUnregister;
    assert id < s.next;
    QuarantinedAgentStays(s.objects[id].agent, s.next, s.alive);
  }

  lemma QuarantineUnregister(s: System, e: Event, id: nat, thread: ThreadId)
    requires Inv(s) && Quarantined(s, id, thread) && e.Unregister?
    ensures var s' := Step(s, e);
            && id in s'.objects && s'.objects[id].agent.pending == Some(thread) && s'.objects[id].name == s.objects[id].name
            && (s.objects[id].name in s.registry && s.registry[s.objects[id].name] == id ==>
                  s.objects[id].name in s'.registry && s'.registry[s.objects[id].name] == id)
  {
    hide Live, ThreadsOK, PlacesOK, DispatchesOK, CanUnregister;
    QuarantinedAgentStays(s.objects[id].agent, s.next, s.alive);
  }

  lemma QuarantineDispatching(s: System, e: Event, id: nat, thread: ThreadId)
    requires Inv(s) && Quarantined(s, id, thread) && IsDispatching(e)
    requires forall d :: d in s.dispatches ==> s.dispatches[d].agent != id
    ensures var s' := Step(s, e);
            && id in s'.objects && s'.objects[id].agent.pending == Some(thread) && s'.objects[id].name == s.objects[id].name
            && (s.objects[id].name in s.registry && s.registry[s.objects[id].name] == id ==>
                  s.objects[id].name in s'.registry && s'.registry[s.objects[id].name] == id)
  {
    hide Inv, Step, DispatchStep, ConcludeStep, RecordRaisesStep, StartStep, JoinStep, JoinRaisesStep, AgentOK;
    QuarantinedIsOK(s, id);
    DispatchingSteps(s, e);
    match e
    case DispatchTask(name) => QuarantineDispatch(s, name, id, thread);
    case Conclude(d) => QuarantineConclude(s, d, id);
    case RecordRaises(d, recoverable) => QuarantineRecord(s, d, recoverable, id);
    case StartThread(d, succeeds) => JoinFrame(s, d, succeeds, false);
    case JoinReturns(d, ok, recoverable) => JoinFrame(s, d, ok, recoverable);
    case JoinRaises(d) => JoinFrame(s, d, false, false);
  }

  lemma DispatchingSteps(s: System, e: Event)
    requires IsDispatching(e)
    ensures Step(s, e) ==
            match e {
              case DispatchTask(name) => DispatchStep(s, name)
              case StartThread(d, succeeds) => StartStep(s, d, succeeds)
              case JoinReturns(d, ok, recoverable) => JoinStep(s, d, ok, recoverable)
              case JoinRaises(d) => JoinRaisesStep(s, d)
              case Conclude(d) => ConcludeStep(s, d)
              case RecordRaises(d, recoverable) => RecordRaisesStep(s, d, recoverable)
              case _ => s
            }
  {
    hide DispatchStep, ConcludeStep, RecordRaisesStep, StartStep, JoinStep, JoinRaisesStep;
  }

  lemma QuarantineDispatch(s: System, name: string, id: nat, thread: ThreadId)
    requires Quarantined(s, id, thread) && AgentOK(s.objects[id].agent, s.alive)
    ensures var s' := DispatchStep(s, name);
            && id in s'.objects && s'.objects[id].agent.pending == Some(thread) && s'.objects[id].name == s.objects[id].name
            && s'.registry == s.registry
  {
    QuarantinedAgentStays(s.objects[id].agent, s.next, s.alive);
    hide TryAssign;
  }

  lemma QuarantineConclude(s: System, d: nat, id: nat)
    requires id in s.objects && forall d :: d in s.dispatches ==> s.dispatches[d].agent != id
    ensures id in ConcludeStep(s, d).objects && ConcludeStep(s, d).objects[id] == s.objects[id] && ConcludeStep(s, d).registry == s.registry
  {
    hide Verdict;
  }

  lemma QuarantineRecord(s: System, d: nat, recoverable: bool, id: nat)
    requires id in s.objects
    ensures var s' := RecordRaisesStep(s, d, recoverable);
            && id in s'.objects && s'.objects[id].name == s.objects[id].name && s'.objects[id].agent.pending == s.objects[id].agent.pending
            && s'.registry == s.registry
  {
  }

  lemma QuarantineStep(s: System, e: Event, id: nat, thread: ThreadId)
    requires Inv(s) && Quarantined(s, id, thread)
    requires forall d :: d in s.dispatches ==> s.dispatches[d].agent != id
    ensures var s' := Step(s, e);
            && id in s'.objects && s'.objects[id].agent.pending == Some(thread) && s'.objects[id].name == s.objects[id].name
            && (s.objects[id].name in s.registry && s.registry[s.objects[id].name] == id ==>
                  s.objects[id].name in s'.registry && s'.registry[s.objects[id].name] == id)
  {
    hide Live, Inv, Reap, Reset, Recover, Stop, RegisterStep, UnregisterStep, DispatchStep, StartStep, JoinStep, JoinRaisesStep, ConcludeStep, RecordRaisesStep;
    if IsRegistration(e) {
      QuarantineRegistration(s, e, id, thread);
    } else if IsDispatching(e) {
      QuarantineDispatching(s, e, id, thread);
    } else {
      QuarantinedIsOK(s, id);
      QuarantinedAgentStays(s.objects[id].agent, s.next, s.alive);
    }
  }

  lemma QuarantinedIsOK(s: System, id: nat)
    requires Inv(s) && id in s.objects
    ensures AgentOK(s.objects[id].agent, s.alive)
  {
  }

  /** Shutdown is final: for every agent object and for the orchestrator. */
  lemma StoppedAgentStays(a: Agent, task: nat, stage: Stage, alive: set<ThreadId>)
    requires a.status == ShutDown
    ensures Reap(a, alive).status == Reset(a, alive).status == Recover(a, alive).0.status == Stop(a).status == ShutDown
    ensures CanUnregister(a, alive).0.status == TryAssign(a, task, alive).0.status == Verdict(a, stage, alive).status == ShutDown
    ensures !TryAssign(a, task, alive).1
  {
  }

  lemma ShutdownRegistration(s: System, e: Event, id: nat)
    requires IdsOK(s) && IsRegistration(e)
    ensures s.shutdown ==> Step(s, e).shutdown && (forall d :: d in Step(s, e).dispatches ==> d in s.dispatches)
    ensures id in s.objects && s.objects[id].agent.status == ShutDown ==> id in Step(s, e).objects && Step(s, e).objects[id].agent.status == ShutDown
  {
    hide CanUnregister;
    if id in s.objects && s.objects[id].agent.status == ShutDown {
      assert id < s.next;
      StoppedAgentStays(s.objects[id].agent, s.next, Assigned, s.alive);
    }
  }

  lemma ShutdownDispatching(s: System, e: Event, id: nat)
    requires IdsOK(s) && IsDispatching(e)
    ensures s.shutdown ==> Step(s, e).shutdown && (forall d :: d in Step(s, e).dispatches ==> d in s.dispatches)
    ensures id in s.objects && s.objects[id].agent.status == ShutDown ==> id in Step(s, e).objects && Step(s, e).objects[id].agent.status == ShutDown
  {
    hide IdsOK, TryAssign, Verdict;
    if id in s.objects && s.objects[id].agent.status == ShutDown {
      StoppedAgentStays(s.objects[id].agent, s.next, if e.Conclude? && e.dispatch in s.dispatches then s.dispatches[e.dispatch].stage else Assigned, s.alive);
    }
  }

  lemma StepKeepsShutdown(s: System, e: Event, id: nat)
    requires IdsOK(s)
    ensures s.shutdown ==> Step(s, e).shutdown && (forall d :: d in Step(s, e).dispatches ==> d in s.dispatches)
    ensures id in s.objects && s.objects[id].agent.status == ShutDown ==> id in Step(s, e).objects && Step(s, e).objects[id].agent.status == ShutDown
  {
    hide IdsOK, Reap, Reset, Recover, Stop, RegisterStep, UnregisterStep, DispatchStep, StartStep, JoinStep, JoinRaisesStep, ConcludeStep, RecordRaisesStep;
    if IsRegistration(e) {
      ShutdownRegistration(s, e, id);
    } else if IsDispatching(e) {
      ShutdownDispatching(s, e, id);
    } else if id in s.objects && s.objects[id].agent.status == ShutDown {
      StoppedAgentStays(s.objects[id].agent, s.next, Assigned, s.alive);
    }
  }

  lemma {:induction false} ShutdownIsAbsorbing(s: System, events: seq<Event>, id: nat)
    requires IdsOK(s)
    ensures s.shutdown ==> Run(s, events).shutdown && (forall d :: d in Run(s, events).dispatches ==> d in s.dispatches)
    ensures id in s.objects && s.objects[id].agent.status == ShutDown ==> id in Run(s, events).objects && Run(s, events).objects[id].agent.status == ShutDown
    decreases |events|
  {
    hide IdsOK, Step;
    if |events| > 0 {
      StepKeepsIds(s, events[0]);
      StepKeepsShutdown(s, events[0], id);
      ShutdownIsAbsorbing(Step(s, events[0]), events[1..], id);
    }
  }

  /** A name is taken from an agent with a live handler exactly by registering or unregistering it when the agent is shut down and not quarantined. */
  lemma NameTakenIff(s: System, e: Event, name: string, thread: ThreadId)
    requires Inv(s) && Known(s, name) && thread in s.alive && s.owners[thread] == s.registry[name]
    ensures (!Known(Step(s, e), name) || Step(s, e).registry[name] != s.registry[name]) <==>
            (e == Register(name) || e == Unregister(name)) && AgentAt(s, name).status == ShutDown && AgentAt(s, name).pending.None?
  {
    ThreadMeansOccupied(s, thread);
    assert AgentAt(s, name).status == ShutDown <==> AgentAt(s, name).status !in {Idle, Busy, Error};
    RemovalIff(AgentAt(s, name), s.alive);
    hide Inv, CanUnregister, Step;
    if e == Register(name) || e == Unregister(name) { RegistrationIff(s, e, name); } else { StepKeepsRegistry(s, e, name); }
  }

  lemma RemovalIff(a: Agent, alive: set<ThreadId>)
    requires if a.pending.Some? then a.pending.value in alive else Occupied(a)
    ensures CanUnregister(a, alive).1 <==> a.status == ShutDown && a.pending.None?
  {
  }

  lemma RegistrationIff(s: System, e: Event, name: string)
    requires IdsOK(s) && Known(s, name) && (e == Register(name) || e == Unregister(name))
    ensures (!Known(Step(s, e), name) || Step(s, e).registry[name] != s.registry[name]) <==> CanUnregister(AgentAt(s, name), s.alive).1
  {
    hide CanUnregister;
  }

  lemma StepKeepsRegistry(s: System, e: Event, name: string)
    requires Known(s, name) && e != Register(name) && e != Unregister(name)
    ensures Known(Step(s, e), name) && Step(s, e).registry[name] == s.registry[name]
  {
    hide Verdict, TryAssign, Recover, Reset, CanUnregister, Fail, Reap, Stop, ConcludeStep, RecordRaisesStep, StartStep, JoinStep, JoinRaisesStep;
    hide RegisterStep, UnregisterStep;
    match e
    case Register(other) => RegistrationFrame(s, other, name);
    case Unregister(other) => RegistrationFrame(s, other, name);
    case Conclude(d) => ConcludeFrame(s, d);
    case RecordRaises(d, recoverable) => RecordFrame(s, d, recoverable);
    case StartThread(d, succeeds) => JoinFrame(s, d, succeeds, false);
    case JoinReturns(d, ok, recoverable) => JoinFrame(s, d, ok, recoverable);
    case JoinRaises(d) => JoinFrame(s, d, false, false);
    case _ =>
  }

  lemma RegistrationFrame(s: System, other: string, name: string)
    requires Known(s, name) && other != name
    ensures Known(RegisterStep(s, other), name) && RegisterStep(s, other).registry[name] == s.registry[name]
    ensures Known(UnregisterStep(s, other), name) && UnregisterStep(s, other).registry[name] == s.registry[name]
  {
    hide CanUnregister;
  }

  lemma JoinFrame(s: System, d: nat, ok: bool, recoverable: bool)
    ensures StartStep(s, d, ok).registry == JoinStep(s, d, ok, recoverable).registry == JoinRaisesStep(s, d).registry == s.registry
    ensures StartStep(s, d, ok).objects == JoinStep(s, d, ok, recoverable).objects == JoinRaisesStep(s, d).objects == s.objects
  {
  }

  lemma ConcludeFrame(s: System, d: nat)
    ensures var t := ConcludeStep(s, d);
            && t.registry == s.registry && t.objects.Keys == s.objects.Keys && t.alive == s.alive && t.shutdown == s.shutdown
            && t.dispatches.Keys <= s.dispatches.Keys
  {
    hide Verdict;
  }

  lemma RecordFrame(s: System, d: nat, recoverable: bool)
    ensures var t := RecordRaisesStep(s, d, recoverable);
            && t.registry == s.registry && t.objects.Keys == s.objects.Keys && t.alive == s.alive && t.shutdown == s.shutdown
            && t.dispatches == s.dispatches
  {
    hide Fail;
  }

  /** Before shutdown a name is taken from an agent only when none of its handler threads is alive. */
  lemma ReplacedMeansFinished(s: System, e: Event, name: string, thread: ThreadId)
    requires Inv(s) && !s.shutdown && Known(s, name) && thread in s.alive && NameOf(s, thread) == Some(name)
    ensures Known(Step(s, e), name) && Step(s, e).registry[name] == s.registry[name]
  {
    LiveOwner(s, thread);
    hide Live, ThreadsOK, DispatchesOK;
    assert Live(s, s.owners[thread]);
    NameTakenIff(s, e, name, thread);
  }

  /** A timed-out agent stays quarantined and in its place through any history in which its thread has not ended. */
  lemma {:induction false} QuarantineOutlastsHistory(s: System, events: seq<Event>, id: nat, thread: ThreadId)
    requires Inv(s) && Quarantined(s, id, thread) && ThreadEnds(thread) !in events && Undisturbed(s, events)
    requires s.objects[id].name in s.registry && s.registry[s.objects[id].name] == id
    ensures var s' := Run(s, events);
            && Inv(s') && Quarantined(s', id, thread)
            && s'.objects[id].name == s.objects[id].name && s.objects[id].name in s'.registry && s'.registry[s.objects[id].name] == id
    decreases |events|
  {
    hide Inv, Step, Harmful;
    if |events| > 0 {
      assert events[0] in events;
      StillAlive(s, events[0], thread);
      StepKeepsInv(s, events[0]);
      QuarantineHolds(s, events[0], id, thread);
      QuarantineOutlastsHistory(Step(s, events[0]), events[1..], id, thread);
    }
  }

  lemma StillAlive(s: System, e: Event, thread: ThreadId)
    requires thread in s.alive && e != ThreadEnds(thread)
    ensures thread in Step(s, e).alive
  {
    hide Recover, Reset, Reap, TryAssign, CanUnregister, Verdict, Stop, Fail, ConcludeStep, RecordRaisesStep;
    if e.Conclude? { ConcludeFrame(s, e.dispatch); }
    if e.RecordRaises? { RecordFrame(s, e.dispatch, e.recoverable); }
  }

  lemma RunFirst(s: System, events: seq<Event>)
    requires |events| > 0
    ensures Run(s, events) == Run(Step(s, events[0]), events[1..])
  {
    hide Step;
  }

  lemma RunNone(s: System)
    ensures Run(s, []) == s
  {
  }
}
