/**
  The harmful events are exactly the ones that let two handlers of one name run at a time: after each of
  them an ordinary continuation reaches the overlap, after every other event none does.
 */
module AgentOverlap {
  import opened Wrappers
  import opened AgentLifecycle
  import opened AgentSafety

  /** Neither a `join` that raises nor a failure verdict after a success. */
  predicate Ordinary(events: seq<Event>) {
    forall e <- events :: !e.JoinRaises? && !e.RecordRaises?
  }

  lemma {:induction false} OrdinaryIsUndisturbed(s: System, events: seq<Event>)
    requires Ordinary(events)
    ensures UndisturbedService(s, events)
    decreases |events|
  {
    hide Step;
    if |events| > 0 {
      assert events[0] in events;
      OrdinaryIsUndisturbed(Step(s, events[0]), events[1..]);
    }
  }

  lemma {:induction false} RunAppend(s: System, a: seq<Event>, b: seq<Event>)
    ensures Run(s, a + b) == Run(Run(s, a), b)
    decreases |a|
  {
    hide Step;
    if |a| == 0 {
      assert a + b == b;
    } else {
      assert (a + b)[0] == a[0] && (a + b)[1..] == a[1..] + b;
      RunAppend(Step(s, a[0]), a[1..], b);
    }
  }

  lemma RunOne(s: System, e: Event)
    ensures Run(s, [e]) == Step(s, e)
  {
    hide Step;
    assert [e][1..] == [];
  }

  // ---- Putting an agent back to work ----

  /** Recover or reset the agent, give it a task and start the handler; `k` is the number the dispatch gets. */
  function Rerun(name: string, k: nat): seq<Event> {
    [RecoverAgent(name), ResetAgent(name), DispatchTask(name), StartThread(k, true)]
  }

  /** One of recovery and reset brings this agent back to idle. */
  predicate Returnable(a: Agent, alive: set<ThreadId>) {
    || a.status == Idle
    || (a.status == Error && (a.recoverable || a.pending.None? || a.pending.value !in alive))
  }

  lemma ReturnsToIdle(a: Agent, alive: set<ThreadId>, task: nat)
    requires Returnable(a, alive)
    ensures var b := Reset(Recover(a, alive).0, alive);
            && b.status == Idle && TryAssign(b, task, alive).1 && TryAssign(b, task, alive).0.status == Busy
            && (a.pending.None? ==> TryAssign(b, task, alive).0.pending.None?)
  {
  }

  /** The agent of this name has a new dispatch whose handler runs. */
  ghost predicate Reran(s: System, t: System, name: string)
    requires Known(s, name)
  {
    var id := s.registry[name];
    && t.registry == s.registry && t.objects.Keys == s.objects.Keys && (forall i :: i in s.objects ==> t.objects[i].name == s.objects[i].name)
    && t.objects[id].agent.status == Busy && (s.objects[id].agent.pending.None? ==> t.objects[id].agent.pending.None?)
    && t.dispatches == s.dispatches[s.next := Dispatch(id, Waiting(s.next + 1))]
    && t.owners == s.owners[s.next + 1 := id] && t.alive == s.alive + {s.next + 1}
    && t.next == s.next + 2 && t.shutdown == s.shutdown
  }

  lemma RerunStarts(s: System, name: string)
    requires !s.shutdown && Known(s, name) && Returnable(AgentAt(s, name), s.alive)
    ensures Reran(s, Run(s, Rerun(name, s.next)), name)
  {
    hide Recover, Reset, TryAssign, Run, Step, Reran;
    var id := s.registry[name];
    var b := Reset(Recover(AgentAt(s, name), s.alive).0, s.alive);
    ReturnsToIdle(AgentAt(s, name), s.alive, s.next);
    IdleAgain(s, name);
    var s2 := SetAgent(s, id, b);
    RunFour(s, RecoverAgent(name), ResetAgent(name), DispatchTask(name), StartThread(s.next, true));
    IdleStarts(s2, name);
    RanAgain(s, s2, name);
  }

  lemma IdleAgain(s: System, name: string)
    requires Known(s, name)
    ensures Step(Step(s, RecoverAgent(name)), ResetAgent(name))
            == SetAgent(s, s.registry[name], Reset(Recover(AgentAt(s, name), s.alive).0, s.alive))
  {
    hide Recover, Reset;
    var s1 := Step(s, RecoverAgent(name));
    assert AgentAt(s1, name) == Recover(AgentAt(s, name), s.alive).0;
  }

  function Started(s: System, name: string, a: Agent): System
    requires Known(s, name)
  {
    var id := s.registry[name];
    SetAgent(s, id, a).(dispatches := s.dispatches[s.next := Dispatch(id, Waiting(s.next + 1))], owners := s.owners[s.next + 1 := id],
                        alive := s.alive + {s.next + 1}, next := s.next + 2)
  }

  lemma IdleStarts(s: System, name: string)
    requires !s.shutdown && Known(s, name) && TryAssign(AgentAt(s, name), s.next, s.alive).1
    ensures Step(Step(s, DispatchTask(name)), StartThread(s.next, true)) == Started(s, name, TryAssign(AgentAt(s, name), s.next, s.alive).0)
  {
    hide TryAssign;
    var id, k := s.registry[name], s.next;
    var s1 := Step(s, DispatchTask(name));
    assert s1.dispatches == s.dispatches[k := Dispatch(id, Assigned)];
    assert s1.dispatches[k := Dispatch(id, Waiting(k + 1))] == s.dispatches[k := Dispatch(id, Waiting(k + 1))];
  }

  lemma RanAgain(s: System, s2: System, name: string)
    requires Known(s, name) && exists b :: s2 == SetAgent(s, s.registry[name], b)
    requires var a := TryAssign(AgentAt(s2, name), s.next, s.alive).0;
             a.status == Busy && (AgentAt(s, name).pending.None? ==> a.pending.None?)
    ensures Reran(s, Started(s2, name, TryAssign(AgentAt(s2, name), s.next, s.alive).0), name)
  {
    hide TryAssign;
  }

  lemma RunFour(s: System, a: Event, b: Event, c: Event, d: Event)
    ensures Run(s, [a, b, c, d]) == Step(Step(Step(Step(s, a), b), c), d)
  {
    hide Step, Run;
    RunAppend(s, [a, b], [c, d]);
    RunAppend(s, [a], [b]);
    RunAppend(Run(s, [a, b]), [c], [d]);
    RunOne(s, a);
    RunOne(Step(s, a), b);
    RunOne(Run(s, [a, b]), c);
    RunOne(Step(Run(s, [a, b]), c), d);
    assert [a, b, c, d] == [a, b] + [c, d] && [a, b] == [a] + [b] && [c, d] == [c] + [d];
  }

  lemma RerunOrdinary(name: string, k: nat)
    ensures Ordinary(Rerun(name, k))
  {
  }

  // ---- After a join that raised ----

  function AfterJoin(s: System, d: nat, name: string): seq<Event> {
    [Conclude(d)] + Rerun(name, s.next)
  }

  /** The running handler is forgotten, the agent is recovered and runs another. */
  lemma JoinOverlap(s: System, d: nat)
    requires Inv(s) && !s.shutdown && Harmful(s, JoinRaises(d))
    ensures var name := s.objects[s.dispatches[d].agent].name;
            Ordinary(AfterJoin(s, d, name)) && !OneHandler(Run(Step(s, JoinRaises(d)), AfterJoin(s, d, name)))
  {
    hide Inv, Harmful, Run, OneHandler, Reran, Step, Fail, Returnable, Ordinary, Rerun;
    WaitingAgentIsBusy(s, d);
    var id, thread := s.dispatches[d].agent, s.dispatches[d].stage.thread;
    var name := s.objects[id].name;
    var s1 := Step(s, JoinRaises(d));
    JoinForgets(s, d);
    var s2 := Step(s1, Conclude(d));
    RerunStarts(s2, name);
    AfterJoinOrdinary(s, d, name);
    RunOne(s1, Conclude(d));
    RunAppend(s1, [Conclude(d)], Rerun(name, s.next));
    RerunOverlaps(s2, Run(s2, Rerun(name, s.next)), name, thread);
  }

  lemma AfterJoinOrdinary(s: System, d: nat, name: string)
    ensures Ordinary(AfterJoin(s, d, name))
  {
    RerunOrdinary(name, s.next);
  }

  lemma WaitingAgentIsBusy(s: System, d: nat)
    requires Inv(s) && !s.shutdown && Harmful(s, JoinRaises(d))
    ensures var id, thread := s.dispatches[d].agent, s.dispatches[d].stage.thread;
            && d in s.dispatches && id in s.objects && s.objects[id].agent.status == Busy
            && s.objects[id].name in s.registry && s.registry[s.objects[id].name] == id
            && s.dispatches[d].stage.Waiting? && thread in s.alive && thread in s.owners && s.owners[thread] == id && thread < s.next
  {
    var id, thread := s.dispatches[d].agent, s.dispatches[d].stage.thread;
    assert HasThread(s.dispatches[d].stage, thread) && s.owners[thread] == id;
    TakenAgentIsBusy(s, id, d);
  }

  lemma JoinForgets(s: System, d: nat)
    requires d in s.dispatches && s.dispatches[d].stage.Waiting? && s.dispatches[d].agent in s.objects
    requires s.objects[s.dispatches[d].agent].agent.status == Busy
    ensures var id := s.dispatches[d].agent;
            var t := Step(Step(s, JoinRaises(d)), Conclude(d));
            && t.objects == s.objects[id := Registered(s.objects[id].name, Fail(s.objects[id].agent, true))]
            && Returnable(t.objects[id].agent, t.alive)
            && t.alive == s.alive && t.owners == s.owners && t.registry == s.registry && t.next == s.next && t.shutdown == s.shutdown
  {
  }

  lemma RerunOverlaps(s: System, t: System, name: string, running: ThreadId)
    requires Known(s, name) && Reran(s, t, name)
    requires running in s.alive && running in s.owners && s.owners[running] == s.registry[name] && running <= s.next
    ensures !OneHandler(t)
  {
    TwoHandlers(t, running, s.next + 1);
  }

  lemma TwoHandlers(t: System, x: ThreadId, y: ThreadId)
    requires x != y && x in t.alive && y in t.alive && NameOf(t, x) == NameOf(t, y)
    ensures !OneHandler(t)
  {
  }

  // ---- After a late failure verdict ----

  /** What the dispatch that holds the agent does after its agent was given a second handler. */
  function Rest(t: System, e: nat, name: string): seq<Event>
    requires e in t.dispatches
  {
    match t.dispatches[e].stage
    case Assigned => [StartThread(e, true)]
    case Waiting(thread) => if thread in t.alive then [] else [JoinReturns(e, true, true), Conclude(e)] + Rerun(name, t.next)
    case TimedOut(thread) => if thread in t.alive then [] else [Conclude(e)] + Rerun(name, t.next)
    case Finishing(_, _) => [Conclude(e)] + Rerun(name, t.next)
  }

  lemma RestOrdinary(t: System, e: nat, name: string)
    requires e in t.dispatches
    ensures Ordinary(Rest(t, e, name))
  {
    RerunOrdinary(name, t.next);
  }

  /** An agent runs a handler while another dispatch holds it. */
  ghost predicate Shared(t: System, e: nat, name: string, running: ThreadId) {
    && !t.shutdown && Known(t, name) && AgentAt(t, name).status == Busy && AgentAt(t, name).pending.None?
    && t.objects[t.registry[name]].name == name
    && running in t.alive && running in t.owners && t.owners[running] == t.registry[name] && running < t.next
    && e in t.dispatches && t.dispatches[e].agent == t.registry[name] && !HasThread(t.dispatches[e].stage, running)
    && (forall x :: HasThread(t.dispatches[e].stage, x) ==> x in t.owners && t.owners[x] == t.registry[name])
  }

  lemma SharedOverlaps(t: System, e: nat, name: string, running: ThreadId)
    requires Shared(t, e, name, running)
    ensures !OneHandler(Run(t, Rest(t, e, name)))
  {
    hide Run, OneHandler;
    var id, stage := t.registry[name], t.dispatches[e].stage;
    if stage.Assigned? {
      RunOne(t, StartThread(e, true));
      TwoHandlers(Step(t, StartThread(e, true)), running, t.next);
    } else if HasLiveThread(t, stage) {
      assert HasThread(stage, stage.thread) && t.owners[stage.thread] == id;
      RunNone(t);
      TwoHandlers(t, running, stage.thread);
    } else if stage.Waiting? {
      var u := Step(t, JoinReturns(e, true, true));
      assert u == t.(dispatches := t.dispatches[e := Dispatch(id, Finishing(true, true))]);
      RunOne(t, JoinReturns(e, true, true));
      RunAppend(t, [JoinReturns(e, true, true)], [Conclude(e)] + Rerun(name, t.next));
      assert [JoinReturns(e, true, true), Conclude(e)] + Rerun(name, t.next) == [JoinReturns(e, true, true)] + ([Conclude(e)] + Rerun(name, t.next));
      ConcludedOverlaps(u, e, name, running);
    } else {
      ConcludedOverlaps(t, e, name, running);
    }
  }

  predicate HasLiveThread(t: System, stage: Stage) {
    (stage.Waiting? || stage.TimedOut?) && stage.thread in t.alive
  }

  /** The verdict of the other dispatch frees the agent although its second handler runs. */
  lemma ConcludedOverlaps(t: System, e: nat, name: string, running: ThreadId)
    requires Shared(t, e, name, running)
    requires t.dispatches[e].stage.Finishing? || (t.dispatches[e].stage.TimedOut? && t.dispatches[e].stage.thread !in t.alive)
    ensures !OneHandler(Run(t, [Conclude(e)] + Rerun(name, t.next)))
  {
    hide Run, OneHandler;
    var id := t.registry[name];
    var u := Step(t, Conclude(e));
    VerdictReturns(t.objects[id].agent, t.dispatches[e].stage, t.alive);
    assert u.objects[id] == Registered(name, Verdict(t.objects[id].agent, t.dispatches[e].stage, t.alive));
    hide Verdict, Returnable;
    RerunStarts(u, name);
    RunOne(t, Conclude(e));
    RunAppend(t, [Conclude(e)], Rerun(name, t.next));
    TwoHandlers(Run(u, Rerun(name, t.next)), running, t.next + 1);
  }

  lemma VerdictReturns(a: Agent, stage: Stage, alive: set<ThreadId>)
    requires a.status == Busy && a.pending.None?
    requires stage.Finishing? || (stage.TimedOut? && stage.thread !in alive)
    ensures Returnable(Verdict(a, stage, alive), alive)
  {
  }

  /** The agent another dispatch holds gets the late verdict: it is put back to work beside that dispatch. */
  lemma BusyVerdictShares(s: System, d: nat, recoverable: bool, e: nat)
    requires Inv(s) && !s.shutdown && d in s.recording && e in s.dispatches && s.dispatches[e].agent == s.recording[d]
    ensures var s1 := Step(s, RecordRaises(d, recoverable));
            var name := s.objects[s.recording[d]].name;
            Shared(Run(s1, Rerun(name, s.next)), e, name, s.next + 1)
  {
    hide Inv, Run, Reran, Shared, HasThread, Step, Returnable, Rerun;
    var id := s.recording[d];
    TakenAgentIsBusy(s, id, e);
    var name := s.objects[id].name;
    var s1 := Step(s, RecordRaises(d, recoverable));
    RecordStep(s, d, recoverable);
    FailReturns(s.objects[id].agent, recoverable, s.alive);
    hide Fail;
    RerunStarts(s1, name);
    RanBeside(s1, Run(s1, Rerun(name, s.next)), e, name);
  }

  lemma RecordStep(s: System, d: nat, recoverable: bool)
    requires d in s.recording && s.recording[d] in s.objects
    ensures var id := s.recording[d];
            Step(s, RecordRaises(d, recoverable)) == SetAgent(s, id, Fail(s.objects[id].agent, recoverable)).(recording := s.recording - {d})
  {
    hide Fail;
  }

  lemma FailReturns(a: Agent, recoverable: bool, alive: set<ThreadId>)
    requires a.status != ShutDown && (recoverable || a.pending.None?)
    ensures Returnable(Fail(a, recoverable), alive) && Fail(a, recoverable).pending == a.pending
  {
  }

  lemma TakenAgentIsBusy(s: System, id: nat, e: nat)
    requires Inv(s) && !s.shutdown && e in s.dispatches && s.dispatches[e].agent == id
    ensures e < s.next && id in s.objects && s.objects[id].agent.status == Busy && s.objects[id].agent.pending.None?
    ensures s.objects[id].name in s.registry && s.registry[s.objects[id].name] == id
    ensures forall x: ThreadId :: HasThread(s.dispatches[e].stage, x) ==> x in s.owners && s.owners[x] == id && x < s.next
  {
    hide Inv, IdsOK, AgentsOK, DispatchesOK, PlacesOK;
    InvParts(s);
    TakenIds(s, e);
    TakenStatus(s, id, e);
    TakenPlace(s, id, e);
  }

  lemma InvParts(s: System)
    requires Inv(s)
    ensures IdsOK(s) && AgentsOK(s) && DispatchesOK(s) && PlacesOK(s)
  {
    hide IdsOK, AgentsOK, DispatchesOK, PlacesOK;
  }

  lemma TakenIds(s: System, e: nat)
    requires IdsOK(s) && e in s.dispatches
    ensures e < s.next && s.dispatches[e].agent in s.objects
    ensures forall x: ThreadId :: HasThread(s.dispatches[e].stage, x) ==> x in s.owners && s.owners[x] == s.dispatches[e].agent && x < s.next
  {
    hide HasThread;
  }

  lemma TakenStatus(s: System, id: nat, e: nat)
    requires AgentsOK(s) && DispatchesOK(s) && !s.shutdown && e in s.dispatches && s.dispatches[e].agent == id && id in s.objects
    ensures s.objects[id].agent.status == Busy && s.objects[id].agent.pending.None?
  {
    assert Occupied(s.objects[id].agent);
  }

  lemma TakenPlace(s: System, id: nat, e: nat)
    requires PlacesOK(s) && !s.shutdown && e in s.dispatches && s.dispatches[e].agent == id && id in s.objects
    ensures s.objects[id].name in s.registry && s.registry[s.objects[id].name] == id
  {
    assert Live(s, id);
    hide Live;
  }

  lemma RanBeside(s: System, t: System, e: nat, name: string)
    requires !s.shutdown && Known(s, name) && AgentAt(s, name).pending.None? && s.objects[s.registry[name]].name == name && Reran(s, t, name)
    requires e in s.dispatches && e < s.next && s.dispatches[e].agent == s.registry[name]
    requires forall x: ThreadId :: HasThread(s.dispatches[e].stage, x) ==> x in s.owners && s.owners[x] == s.registry[name] && x < s.next
    ensures Shared(t, e, name, s.next + 1)
  {
  }

  function AfterVerdict(s: System, d: nat, recoverable: bool, e: nat, name: string): seq<Event> {
    var t := Run(Step(s, RecordRaises(d, recoverable)), Rerun(name, s.next));
    Rerun(name, s.next) + if e in t.dispatches then Rest(t, e, name) else []
  }

  lemma BusyVerdictOverlap(s: System, d: nat, recoverable: bool, e: nat)
    requires Inv(s) && !s.shutdown && d in s.recording && e in s.dispatches && s.dispatches[e].agent == s.recording[d]
    requires s.recording[d] in s.objects
    ensures var events := AfterVerdict(s, d, recoverable, e, s.objects[s.recording[d]].name);
            Ordinary(events) && !OneHandler(Run(Step(s, RecordRaises(d, recoverable)), events))
  {
    var name := s.objects[s.recording[d]].name;
    var s1 := Step(s, RecordRaises(d, recoverable));
    var t := Run(s1, Rerun(name, s.next));
    BusyVerdictShares(s, d, recoverable, e);
    assert e in t.dispatches;
    SharedOverlaps(t, e, name, s.next + 1);
    RunAppend(s1, Rerun(name, s.next), Rest(t, e, name));
    RerunOrdinary(name, s.next);
    RestOrdinary(t, e, name);
    hide Inv, Rerun, Rest, Run, Step, OneHandler;
  }

  /** The quarantined agent becomes recoverable while its timed-out handler runs. */
  lemma QuarantineVerdictOverlap(s: System, d: nat)
    requires Inv(s) && !s.shutdown && d in s.recording && s.recording[d] in s.objects
    requires s.objects[s.recording[d]].agent.pending.Some? && s.objects[s.recording[d]].agent.pending.value in s.alive
    ensures var events := Rerun(s.objects[s.recording[d]].name, s.next);
            Ordinary(events) && !OneHandler(Run(Step(s, RecordRaises(d, true)), events))
  {
    var id := s.recording[d];
    var name, thread := s.objects[id].name, s.objects[id].agent.pending.value;
    assert s.owners[thread] == id && thread < s.next;
    assert Live(s, id) && s.registry[name] == id;
    assert s.objects[id].agent.status == Error;
    hide Inv, Live, Run, OneHandler, Step, Reran, Returnable;
    var s1 := Step(s, RecordRaises(d, true));
    RecordStep(s, d, true);
    FailReturns(s.objects[id].agent, true, s.alive);
    hide Fail;
    RerunStarts(s1, name);
    RerunOrdinary(name, s.next);
    RerunOverlaps(s1, Run(s1, Rerun(name, s.next)), name, thread);
  }

  // ---- The exact condition ----

  lemma HarmfulOverlaps(s: System, e: Event) returns (events: seq<Event>)
    requires Inv(s) && !s.shutdown && Harmful(s, e)
    ensures Ordinary(events) && !OneHandler(Run(Step(s, e), events))
  {
    assert IdsOK(s);
    hide Inv, Run, Step, OneHandler, Ordinary, Rerun, AfterVerdict, AfterJoin;
    match e
    case JoinRaises(d) =>
      events := AfterJoin(s, d, s.objects[s.dispatches[d].agent].name);
      JoinOverlap(s, d);
    case RecordRaises(d, recoverable) =>
      var id := s.recording[d];
      if other :| other in s.dispatches && s.dispatches[other].agent == id {
        events := AfterVerdict(s, d, recoverable, other, s.objects[id].name);
        BusyVerdictOverlap(s, d, recoverable, other);
      } else {
        events := Rerun(s.objects[id].name, s.next);
        QuarantineVerdictOverlap(s, d);
      }
  }

  /** Before shutdown, one handler per name survives every ordinary continuation of an event exactly when the event is not harmful; after shutdown it survives all. */
  lemma OneHandlerIff(s: System, e: Event)
    requires Inv(s)
    ensures (forall events :: Ordinary(events) ==> OneHandler(Run(Step(s, e), events))) <==> s.shutdown || !Harmful(s, e)
  {
    hide Inv, Run, Step, OneHandler, Harmful, Ordinary;
    if s.shutdown || !Harmful(s, e) {
      forall events | Ordinary(events) ensures OneHandler(Run(Step(s, e), events)) {
        OrdinaryIsUndisturbed(Step(s, e), events);
        AfterStep(s, e, events);
      }
    } else {
      var events := HarmfulOverlaps(s, e);
    }
  }

  lemma AfterStep(s: System, e: Event, events: seq<Event>)
    requires Inv(s) && (s.shutdown || !Harmful(s, e)) && UndisturbedService(Step(s, e), events)
    ensures OneHandler(Run(Step(s, e), events))
  {
    assert IdsOK(s);
    hide Run, Step, OneHandler, Harmful, IdsOK;
    InvMeansOneClaim(s);
    hide Inv;
    if s.shutdown { ShutdownStepKeepsClaims(s, e); } else { StepKeepsInv(s, e); }
    RunKeepsOneClaim(Step(s, e), events);
  }

  // ---- Whole runs ----

  ghost predicate InOrder(s: System) {
    Inv(s) || (s.shutdown && IdsOK(s) && OneClaim(s))
  }

  lemma StepKeepsInOrder(s: System, e: Event)
    requires InOrder(s) && (s.shutdown || !Harmful(s, e))
    ensures InOrder(Step(s, e))
  {
    if Inv(s) { InvMeansOneClaim(s); assert IdsOK(s); }
    hide Inv, IdsOK, OneClaim, Step, Harmful;
    if s.shutdown { ShutdownStepKeepsClaims(s, e); } else { StepKeepsInv(s, e); }
  }

  lemma {:induction false} PrefixIsUndisturbed(s: System, events: seq<Event>, k: nat, rest: seq<Event>)
    requires UndisturbedService(s, events) && k <= |events| && Ordinary(rest)
    ensures UndisturbedService(s, events[..k] + rest)
    decreases k
  {
    hide Step, Harmful, Ordinary;
    if k == 0 {
      OrdinaryIsUndisturbed(s, rest);
      assert events[..0] + rest == rest;
    } else {
      var all := events[..k] + rest;
      assert all[0] == events[0] && all[1..] == events[1..][..k - 1] + rest;
      PrefixIsUndisturbed(Step(s, events[0]), events[1..], k - 1, rest);
    }
  }

  /** The first harmful event before the shutdown has an ordinary continuation with two handlers of one name. */
  lemma {:induction false} FirstHarm(s: System, events: seq<Event>) returns (k: nat, rest: seq<Event>)
    requires InOrder(s) && !UndisturbedService(s, events)
    ensures k <= |events| && Ordinary(rest) && !OneHandler(Run(s, events[..k] + rest))
    decreases |events|
  {
    hide InOrder, Inv, Step, Harmful, Ordinary, OneHandler;
    if s.shutdown || !Harmful(s, events[0]) {
      StepKeepsInOrder(s, events[0]);
      k, rest := FirstHarm(Step(s, events[0]), events[1..]);
      var all := events[..k + 1] + rest;
      assert all[0] == events[0] && all[1..] == events[1..][..k] + rest;
      k := k + 1;
    } else {
      assert Inv(s) by { InOrderServing(s); }
      rest := HarmfulOverlaps(s, events[0]);
      k := 1;
      var all := events[..1] + rest;
      assert all[0] == events[0] && all[1..] == rest;
    }
  }

  lemma InOrderServing(s: System)
    requires InOrder(s) && !s.shutdown
    ensures Inv(s)
  {
  }

  /** A history has no harmful event before the shutdown exactly when none of its prefixes, continued in any ordinary way, runs two handlers of one name. */
  lemma ExclusiveIff(events: seq<Event>)
    ensures UndisturbedService(INITIAL, events) <==>
            forall k: nat, rest :: k <= |events| && Ordinary(rest) ==> OneHandler(Run(INITIAL, events[..k] + rest))
  {
    InitialInv();
    hide Inv, OneHandler, Run, Ordinary;
    if UndisturbedService(INITIAL, events) {
      forall k: nat, rest | k <= |events| && Ordinary(rest) ensures OneHandler(Run(INITIAL, events[..k] + rest)) {
        PrefixIsUndisturbed(INITIAL, events, k, rest);
        RunKeepsOneClaim(INITIAL, events[..k] + rest);
      }
    } else {
      var k, rest := FirstHarm(INITIAL, events);
    }
  }

  // ---- Inputs ----

  const RUNNING: System := System(
    map[0 := Registered("a", Agent(Busy, Some(1), 0, 0, false, None))], map["a" := 0],
    map[1 := Dispatch(0, Waiting(2))], map[], map[2 := 0], {2}, {}, false, 3)

  lemma FirstTaskRuns()
    ensures Run(INITIAL, [Register("a"), DispatchTask("a"), StartThread(1, true)]) == RUNNING
  {
    hide Run;
    var events := [Register("a"), DispatchTask("a"), StartThread(1, true)];
    var s1 := Step(INITIAL, Register("a"));
    assert s1 == System(map[0 := Registered("a", NEW_AGENT)], map["a" := 0], map[], map[], map[], {}, {}, false, 1);
    var s2 := Step(s1, DispatchTask("a"));
    assert s2 == RUNNING.(dispatches := map[1 := Dispatch(0, Assigned)], owners := map[], alive := {}, next := 2);
    assert Step(s2, StartThread(1, true)) == RUNNING;
    RunFirst(INITIAL, events);
    assert events[1..] == [DispatchTask("a"), StartThread(1, true)] && events[1..][1..] == [StartThread(1, true)];
    RunFirst(s1, events[1..]);
    RunFirst(s2, [StartThread(1, true)]);
    assert [StartThread(1, true)][1..] == [];
    RunNone(RUNNING);
  }

  /** After shutdown a name can be taken while its handler still runs: the busy mark is gone before the handler is. */
  lemma ShutdownAllowsEarlyReplacement()
    ensures Run(INITIAL, [Register("a"), DispatchTask("a"), StartThread(1, true)]) == RUNNING
    ensures var s := Run(RUNNING, [BeginShutdown, CloseAgent(0)]);
            2 in s.alive && NameOf(s, 2) == Some("a") && s.owners[2] == 0 && Known(s, "a") && s.registry["a"] == 0
            && Step(s, Register("a")).registry["a"] != 0
  {
    hide Run;
    FirstTaskRuns();
    var s4 := Step(RUNNING, BeginShutdown);
    assert 0 in s4.closing by { assert RUNNING.registry["a"] == 0; }
    var s5 := Step(s4, CloseAgent(0));
    assert [BeginShutdown, CloseAgent(0)][1..] == [CloseAgent(0)];
    RunFirst(RUNNING, [BeginShutdown, CloseAgent(0)]);
    RunFirst(s4, [CloseAgent(0)]);
    assert [CloseAgent(0)][1..] == [];
    RunNone(s5);
  }

  lemma RunningIsReached()
    ensures Run(INITIAL, [Register("a"), DispatchTask("a"), StartThread(1, true)]) == RUNNING && Inv(RUNNING)
  {
    hide Inv, Step;
    var events := [Register("a"), DispatchTask("a"), StartThread(1, true)];
    FirstTaskRuns();
    InitialInv();
    PlainEventsAreUndisturbed(INITIAL, events);
    RunKeepsInv(INITIAL, events);
  }

  lemma {:induction false} PlainEventsAreUndisturbed(s: System, events: seq<Event>)
    requires Ordinary(events)
    ensures Undisturbed(s, events)
    decreases |events|
  {
    hide Step;
    if |events| > 0 {
      assert events[0] in events;
      PlainEventsAreUndisturbed(Step(s, events[0]), events[1..]);
    }
  }

  /** One agent, one task whose timeout `join` refuses: recovering the agent starts a second handler beside the first. */
  lemma RefusedTimeoutOverlaps()
    ensures Run(INITIAL, [Register("a"), DispatchTask("a"), StartThread(1, true)]) == RUNNING
    ensures !OneHandler(Run(Step(RUNNING, JoinRaises(1)), [Conclude(1)] + Rerun("a", 3)))
  {
    hide Inv, Run, Step, OneHandler, Rerun;
    RunningIsReached();
    JoinOverlap(RUNNING, 1);
  }

  const FINISHED: seq<Event> := [ThreadEnds(2), JoinReturns(1, true, true), Conclude(1), DispatchTask("a"), StartThread(3, true)]

  /** The first task succeeded with a result that cannot be copied, the second one runs. */
  const SECOND: System := System(
    map[0 := Registered("a", Agent(Busy, Some(3), 1, 0, false, None))], map["a" := 0],
    map[3 := Dispatch(0, Waiting(4))], map[1 := 0], map[2 := 0, 4 := 0], {4}, {}, false, 5)

  const IDLE_AGAIN: System := System(
    map[0 := Registered("a", Agent(Idle, None, 1, 0, false, None))], map["a" := 0],
    map[], map[1 := 0], map[2 := 0], {}, {}, false, 3)

  lemma FirstJoinReturns()
    ensures Step(Step(RUNNING, ThreadEnds(2)), JoinReturns(1, true, true)) == RUNNING.(alive := {}, dispatches := map[1 := Dispatch(0, Finishing(true, true))])
  {
    var s1 := Step(RUNNING, ThreadEnds(2));
    assert s1 == RUNNING.(alive := {});
  }

  lemma FirstTaskFinishes()
    ensures Step(Step(Step(RUNNING, ThreadEnds(2)), JoinReturns(1, true, true)), Conclude(1)) == IDLE_AGAIN
  {
    FirstJoinReturns();
    var s2 := RUNNING.(alive := {}, dispatches := map[1 := Dispatch(0, Finishing(true, true))]);
    var s3 := ConcludeStep(s2, 1);
    assert s3.objects == IDLE_AGAIN.objects && s3.dispatches == map[] && s3.recording == map[1 := 0];
    hide ConcludeStep;
    assert Step(s2, Conclude(1)) == s3;
    hide Step;
  }

  lemma SecondTaskStarts()
    ensures Step(Step(IDLE_AGAIN, DispatchTask("a")), StartThread(3, true)) == SECOND
  {
    var s4 := Step(IDLE_AGAIN, DispatchTask("a"));
    assert s4 == SECOND.(dispatches := map[3 := Dispatch(0, Assigned)], owners := map[2 := 0], alive := {}, next := 4);
  }

  lemma SecondTaskRuns()
    ensures Run(RUNNING, FINISHED) == SECOND
  {
    hide Run, Step;
    FirstTaskFinishes();
    SecondTaskStarts();
    RunFour(RUNNING, ThreadEnds(2), JoinReturns(1, true, true), Conclude(1), DispatchTask("a"));
    RunAppend(RUNNING, [ThreadEnds(2), JoinReturns(1, true, true), Conclude(1), DispatchTask("a")], [StartThread(3, true)]);
    RunOne(Step(IDLE_AGAIN, DispatchTask("a")), StartThread(3, true));
    assert FINISHED == [ThreadEnds(2), JoinReturns(1, true, true), Conclude(1), DispatchTask("a")] + [StartThread(3, true)];
  }

  /** The failure verdict for the first task hits the agent that runs the second: a third handler starts beside it. */
  lemma LateVerdictOverlaps()
    ensures Run(RUNNING, FINISHED) == SECOND
    ensures exists events :: Ordinary(events) && !OneHandler(Run(Step(SECOND, RecordRaises(1, true)), events))
  {
    assert Ordinary(FINISHED);
    hide Inv, Run, Step, OneHandler, Ordinary;
    RunningIsReached();
    SecondTaskRuns();
    PlainEventsAreUndisturbed(RUNNING, FINISHED);
    RunKeepsInv(RUNNING, FINISHED);
    BusyVerdictOverlap(SECOND, 1, true, 3);
  }

  /** The second task has timed out. */
  const TIMED_OUT: System :=
    SECOND.(objects := map[0 := Registered("a", Agent(Error, Some(3), 1, 1, false, Some(4)))], dispatches := map[])

  lemma SecondJoinExpires()
    ensures JoinStep(SECOND, 3, true, true) == SECOND.(dispatches := map[3 := Dispatch(0, TimedOut(4))])
    ensures ConcludeStep(SECOND.(dispatches := map[3 := Dispatch(0, TimedOut(4))]), 3) == TIMED_OUT
  {
    var s1 := SECOND.(dispatches := map[3 := Dispatch(0, TimedOut(4))]);
    assert JoinStep(SECOND, 3, true, true).dispatches == s1.dispatches;
    assert ConcludeStep(s1, 3).objects == TIMED_OUT.objects;
  }

  lemma ConcludingSteps(s: System)
    ensures Step(SECOND, JoinReturns(3, true, true)) == JoinStep(SECOND, 3, true, true) && Step(s, Conclude(3)) == ConcludeStep(s, 3)
  {
    hide JoinStep, ConcludeStep;
  }

  lemma SecondTaskTimesOut()
    ensures Run(SECOND, [JoinReturns(3, true, true), Conclude(3)]) == TIMED_OUT
  {
    hide Run, Step, JoinStep, ConcludeStep;
    var s1 := SECOND.(dispatches := map[3 := Dispatch(0, TimedOut(4))]);
    SecondJoinExpires();
    ConcludingSteps(s1);
    RunOne(SECOND, JoinReturns(3, true, true));
    RunOne(s1, Conclude(3));
    RunAppend(SECOND, [JoinReturns(3, true, true)], [Conclude(3)]);
    assert [JoinReturns(3, true, true)] + [Conclude(3)] == [JoinReturns(3, true, true), Conclude(3)];
  }

  /** The same verdict after the second task has timed out makes its quarantined agent recoverable: its handler gets company. */
  lemma LateVerdictEndsQuarantine()
    ensures Run(SECOND, [JoinReturns(3, true, true), Conclude(3)]) == TIMED_OUT && Quarantined(TIMED_OUT, 0, 4)
    ensures !OneHandler(Run(Step(TIMED_OUT, RecordRaises(1, true)), Rerun("a", 5)))
  {
    assert Ordinary(FINISHED) && Ordinary([JoinReturns(3, true, true), Conclude(3)]);
    hide Inv, Run, Step, OneHandler, Rerun, Ordinary;
    RunningIsReached();
    SecondTaskRuns();
    PlainEventsAreUndisturbed(RUNNING, FINISHED);
    RunKeepsInv(RUNNING, FINISHED);
    SecondTaskTimesOut();
    PlainEventsAreUndisturbed(SECOND, [JoinReturns(3, true, true), Conclude(3)]);
    RunKeepsInv(SECOND, [JoinReturns(3, true, true), Conclude(3)]);
    QuarantineVerdictOverlap(TIMED_OUT, 1);
  }
}
