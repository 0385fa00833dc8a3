/** What the orchestrator does for one agent: who is accepted, and how a task ends. */
module AgentService {
  import opened Wrappers
  import opened AgentLifecycle
  import opened AgentSafety
  import opened AgentOverlap

  /** Idle, or quarantined on a handler that has ended. */
  predicate Free(a: Agent, alive: set<ThreadId>) {
    a.status == Idle || (a.status == Error && a.pending.Some? && a.pending.value !in alive)
  }

  /** A dispatch is accepted exactly when the orchestrator serves, the name is registered and its agent is free; the agent is then busy with it. */
  lemma AcceptedIff(s: System, name: string)
    requires Inv(s)
    ensures var s' := Step(s, DispatchTask(name));
            if !s.shutdown && Known(s, name) && Free(AgentAt(s, name), s.alive) then
              && s'.dispatches == s.dispatches[s.next := Dispatch(s.registry[name], Assigned)]
              && Known(s', name) && AgentAt(s', name).status == Busy && AgentAt(s', name).task == Some(s.next)
            else s'.dispatches == s.dispatches
  {
    if Known(s, name) { KnownAgentOK(s, name); AssignedIff(AgentAt(s, name), s.next, s.alive); }
    hide Inv, TryAssign, Free;
  }

  lemma AssignedIff(a: Agent, task: nat, alive: set<ThreadId>)
    requires AgentOK(a, alive)
    ensures TryAssign(a, task, alive).1 <==> Free(a, alive)
    ensures TryAssign(a, task, alive).1 ==> TryAssign(a, task, alive).0.status == Busy && TryAssign(a, task, alive).0.task == Some(task)
  {
  }

  /** The name is free: unknown, or of an agent that is neither busy nor quarantined on a live handler. */
  predicate Available(s: System, name: string) {
    Known(s, name) ==> AgentAt(s, name).status != Busy && (AgentAt(s, name).pending.Some? ==> AgentAt(s, name).pending.value !in s.alive)
  }

  /** Registering puts a new idle agent under the name exactly when the name is available; otherwise the name stays where it is. */
  lemma RegisterIff(s: System, name: string)
    requires Inv(s)
    ensures var s' := Step(s, Register(name));
            && (Available(s, name) ==> Known(s', name) && s'.registry[name] !in s.objects && AgentAt(s', name) == NEW_AGENT)
            && (!Available(s, name) ==> s'.registry == s.registry)
  {
    FreshObject(s);
    if Known(s, name) { KnownRemovable(s, name); }
    hide Inv, CanUnregister;
  }

  lemma KnownRemovable(s: System, name: string)
    requires Inv(s) && Known(s, name)
    ensures CanUnregister(AgentAt(s, name), s.alive).1 <==> Available(s, name)
  {
    KnownAgentOK(s, name);
    hide Inv;
  }

  lemma FreshObject(s: System)
    requires Inv(s)
    ensures s.next !in s.objects
  {
    hide AgentsOK, DispatchesOK, ThreadsOK, PlacesOK;
  }

  /** Unregistering takes the name away exactly when it is registered and available. */
  lemma UnregisterIff(s: System, name: string)
    requires Inv(s)
    ensures var s' := Step(s, Unregister(name));
            if Known(s, name) && Available(s, name) then s'.registry == s.registry - {name} else s'.registry == s.registry
  {
    if Known(s, name) { KnownRemovable(s, name); }
    hide Inv, CanUnregister, Available;
  }

  /** Recovery returns an agent to idle exactly when its error is recoverable or its quarantined handler has ended. */
  lemma RecoverIff(s: System, name: string)
    requires Inv(s) && Known(s, name) && AgentAt(s, name).status == Error
    ensures AgentAt(Step(s, RecoverAgent(name)), name).status == Idle <==>
            if AgentAt(s, name).pending.Some? then AgentAt(s, name).pending.value !in s.alive else AgentAt(s, name).recoverable
  {
    KnownAgentOK(s, name);
    hide Inv;
  }

  // ---- One task from beginning to end ----

  lemma TaskStarts(s: System, name: string)
    requires Inv(s) && !s.shutdown && Known(s, name) && AgentAt(s, name).status == Idle
    ensures var id, k := s.registry[name], s.next;
            var t := Step(Step(s, DispatchTask(name)), StartThread(k, true));
            && t == SetAgent(s, id, AgentAt(s, name).(task := Some(k), status := Busy, recoverable := false)).(
                      dispatches := s.dispatches[k := Dispatch(id, Waiting(k + 1))], owners := s.owners[k + 1 := id],
                      alive := s.alive + {k + 1}, next := k + 2)
            && AgentAt(s, name).pending.None? && k + 1 !in s.alive && k !in s.dispatches
  {
    KnownAgentOK(s, name);
    FreshNumbers(s);
    hide Inv;
    IdleStarts(s, name);
    assert TryAssign(AgentAt(s, name), s.next, s.alive).0 == AgentAt(s, name).(task := Some(s.next), status := Busy, recoverable := false);
    hide TryAssign, Step;
  }

  lemma FreshNumbers(s: System)
    requires Inv(s)
    ensures s.next !in s.dispatches && s.next + 1 !in s.alive
  {
    hide AgentsOK, DispatchesOK, ThreadsOK, PlacesOK;
  }

  /** How the agent looks after the join of the k-th dispatch returns and its verdict is in. */
  lemma VerdictComes(t: System, name: string, k: nat, ok: bool, recoverable: bool)
    requires Known(t, name) && k in t.dispatches && t.dispatches[k].agent == t.registry[name] && t.dispatches[k].stage.Waiting?
    ensures var thread := t.dispatches[k].stage.thread;
            var u := Step(Step(t, JoinReturns(k, ok, recoverable)), Conclude(k));
            && Known(u, name) && u.dispatches == t.dispatches - {k} && u.alive == t.alive && u.registry == t.registry
            && AgentAt(u, name) == Verdict(AgentAt(t, name), if thread in t.alive then TimedOut(thread) else Finishing(ok, recoverable), t.alive)
  {
    hide Verdict;
    var u := Step(t, JoinReturns(k, ok, recoverable));
    assert u.objects == t.objects;
  }

  /** A task whose handler ends in time: its agent is idle with one more success, or in error, recoverable as the failure says, with one more error. */
  lemma TaskEnds(s: System, name: string, ok: bool, recoverable: bool)
    requires Inv(s) && !s.shutdown && Known(s, name) && AgentAt(s, name).status == Idle
    ensures var k := s.next;
            var s' := Run(s, [DispatchTask(name), StartThread(k, true), ThreadEnds(k + 1), JoinReturns(k, ok, recoverable), Conclude(k)]);
            var a := AgentAt(s, name);
            && Known(s', name) && s'.dispatches == s.dispatches && s'.alive == s.alive
            && AgentAt(s', name) ==
               if ok then a.(task := None, completed := a.completed + 1, recoverable := false)
               else a.(task := None, status := Error, errors := a.errors + 1, recoverable := recoverable)
  {
    hide Run, Inv;
    var k := s.next;
    TaskStarts(s, name);
    var t := Step(Step(s, DispatchTask(name)), StartThread(k, true));
    var t1 := Step(t, ThreadEnds(k + 1));
    EndThread(t, k + 1);
    VerdictComes(t1, name, k, ok, recoverable);
    assert t1.alive == s.alive && t1.dispatches - {k} == s.dispatches;
    hide Step;
    RunFive(s, DispatchTask(name), StartThread(k, true), ThreadEnds(k + 1), JoinReturns(k, ok, recoverable), Conclude(k));
  }

  lemma EndThread(t: System, thread: ThreadId)
    ensures Step(t, ThreadEnds(thread)) == t.(alive := t.alive - {thread})
  {
  }

  /** A task whose handler outlives its timeout: its agent is quarantined on that handler with one more error, and back to idle once the handler has ended and the agent is looked at. */
  lemma TaskTimesOut(s: System, name: string, ok: bool, recoverable: bool)
    requires Inv(s) && !s.shutdown && Known(s, name) && AgentAt(s, name).status == Idle
    ensures var k := s.next;
            var s' := Run(s, [DispatchTask(name), StartThread(k, true), JoinReturns(k, ok, recoverable), Conclude(k)]);
            var a := AgentAt(s, name);
            && Known(s', name) && s'.dispatches == s.dispatches && s'.alive == s.alive + {k + 1}
            && AgentAt(s', name) == a.(task := Some(k), status := Error, errors := a.errors + 1, recoverable := false, pending := Some(k + 1))
            && var s'' := Run(s', [ThreadEnds(k + 1), Inspect(name)]);
               Known(s'', name) && AgentAt(s'', name) == a.(task := None, errors := a.errors + 1, recoverable := false)
  {
    hide Run, Inv;
    var k := s.next;
    TaskStarts(s, name);
    var t := Step(Step(s, DispatchTask(name)), StartThread(k, true));
    VerdictComes(t, name, k, ok, recoverable);
    var s' := Step(Step(t, JoinReturns(k, ok, recoverable)), Conclude(k));
    assert t.dispatches - {k} == s.dispatches;
    EndThread(s', k + 1);
    InspectReaps(Step(s', ThreadEnds(k + 1)), name);
    hide Step, TryAssign;
    RunFour(s, DispatchTask(name), StartThread(k, true), JoinReturns(k, ok, recoverable), Conclude(k));
    RunTwo(s', ThreadEnds(k + 1), Inspect(name));
  }

  lemma InspectReaps(s: System, name: string)
    requires Known(s, name)
    ensures Known(Step(s, Inspect(name)), name) && AgentAt(Step(s, Inspect(name)), name) == Reap(AgentAt(s, name), s.alive)
  {
    hide Reap;
  }

  lemma RunTwo(s: System, a: Event, b: Event)
    ensures Run(s, [a, b]) == Step(Step(s, a), b)
  {
    hide Step, Run;
    RunAppend(s, [a], [b]);
    RunOne(s, a);
    RunOne(Step(s, a), b);
    assert [a, b] == [a] + [b];
  }

  lemma RunFive(s: System, a: Event, b: Event, c: Event, d: Event, e: Event)
    ensures Run(s, [a, b, c, d, e]) == Step(Step(Step(Step(Step(s, a), b), c), d), e)
  {
    hide Step, Run;
    RunFour(s, a, b, c, d);
    RunAppend(s, [a, b, c, d], [e]);
    RunOne(Run(s, [a, b, c, d]), e);
    assert [a, b, c, d, e] == [a, b, c, d] + [e];
  }

  // ---- Shutdown ----

  /** Shutdown stops every agent registered when it begins: its own closing step leaves it shut down, without a task. */
  lemma ShutdownStops(s: System, name: string)
    requires Inv(s) && Known(s, name)
    ensures var s' := Run(s, [BeginShutdown, CloseAgent(s.registry[name])]);
            && s'.shutdown && Known(s', name)
            && AgentAt(s', name) == AgentAt(s, name).(status := ShutDown, task := None, recoverable := false)
  {
    hide Inv, Run;
    var s1 := Step(s, BeginShutdown);
    assert s.registry[name] in s.registry.Values;
    RunTwo(s, BeginShutdown, CloseAgent(s.registry[name]));
  }
}
