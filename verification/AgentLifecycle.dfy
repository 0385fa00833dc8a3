/**
  In-process agents of the orchestrator: assignment, handler threads, quarantine of timed-out handlers,
  re-registration and shutdown. Each method of the registered agent runs under its own lock; the system
  interleaves them with handler threads that may outlive their timeout.
 */
module AgentLifecycle {
  import opened Wrappers

  datatype Status = Idle | Busy | Error | ShutDown

  type ThreadId = nat

  datatype Agent = Agent(
    status: Status, task: Option<nat>, completed: nat, errors: nat, recoverable: bool, pending: Option<ThreadId>)

  const NEW_AGENT: Agent := Agent(Idle, None, 0, 0, false, None)

  // ---- One agent, as functions of its fields and of the handler threads still alive ----

  function Freed(a: Agent): Agent {
    a.(task := None, recoverable := false, status := if a.status == ShutDown then ShutDown else Idle)
  }

  /** `_reap_finished_execution_locked`. */
  function Reap(a: Agent, alive: set<ThreadId>): Agent {
    if a.pending.Some? && a.pending.value !in alive then Freed(a.(pending := None)) else a
  }

  function TryAssign(a: Agent, task: nat, alive: set<ThreadId>): (Agent, bool) {
    var r := Reap(a, alive);
    if r.status != Idle then (r, false) else (r.(task := Some(task), status := Busy, recoverable := false), true)
  }

  function Complete(a: Agent): Agent {
    Freed(a.(completed := a.completed + 1))
  }

  function Fail(a: Agent, recoverable: bool): Agent {
    a.(errors := a.errors + 1, task := None, recoverable := recoverable, status := if a.status == ShutDown then ShutDown else Error)
  }

  function Reset(a: Agent, alive: set<ThreadId>): Agent {
    var r := Reap(a, alive);
    if r.pending.Some? || r.status != Error then r else r.(status := Idle, task := None, recoverable := false)
  }

  function Recover(a: Agent, alive: set<ThreadId>): (Agent, bool) {
    var r := Reap(a, alive);
    if r.status != Error || !r.recoverable then (r, false) else (r.(status := Idle, task := None, recoverable := false), true)
  }

  function Quarantine(a: Agent, thread: ThreadId, alive: set<ThreadId>): Agent {
    var r := Reap(a, alive);
    r.(errors := r.errors + 1, status := if r.status == ShutDown then ShutDown else Error, recoverable := false, pending := Some(thread))
  }

  function CanUnregister(a: Agent, alive: set<ThreadId>): (Agent, bool) {
    var r := Reap(a, alive);
    (r, r.status != Busy && r.pending.None?)
  }

  function Stop(a: Agent): Agent {
    a.(status := ShutDown, task := None, recoverable := false)
  }

  class RegisteredAgent {
    var status: Status
    var currentTask: Option<nat>
    var tasksCompleted: nat
    var errorsCount: nat
    var errorRecoverable: bool
    var pendingThread: Option<ThreadId>

    function View(): Agent
      reads this
    {
      Agent(status, currentTask, tasksCompleted, errorsCount, errorRecoverable, pendingThread)
    }

    constructor ()
      ensures View() == NEW_AGENT
    {
      status, currentTask, tasksCompleted, errorsCount, errorRecoverable, pendingThread := Idle, None, 0, 0, false, None;
    }

    method ReapFinishedExecution(alive: set<ThreadId>)
      modifies this
      ensures View() == Reap(old(View()), alive)
    {
      if pendingThread.Some? {
        if pendingThread.value in alive { return; }
        pendingThread := None;
        currentTask := None;
        errorRecoverable := false;
        if status != ShutDown { status := Idle; }
      }
    }

    method TryAssignTask(task: nat, alive: set<ThreadId>) returns (accepted: bool)
      modifies this
      ensures (View(), accepted) == TryAssign(old(View()), task, alive)
    {
      ReapFinishedExecution(alive);
      if status != Idle { return false; }
      currentTask := Some(task);
      status := Busy;
      errorRecoverable := false;
      accepted := true;
    }

    method CompleteTask()
      modifies this
      ensures View() == Complete(old(View()))
    {
      tasksCompleted := tasksCompleted + 1;
      currentTask := None;
      errorRecoverable := false;
      if status != ShutDown { status := Idle; }
    }

    method FailTask(recoverable: bool)
      modifies this
      ensures View() == Fail(old(View()), recoverable)
    {
      errorsCount := errorsCount + 1;
      currentTask := None;
      errorRecoverable := recoverable;
      if status != ShutDown { status := Error; }
    }

    method ResetError(alive: set<ThreadId>)
      modifies this
      ensures View() == Reset(old(View()), alive)
    {
      ReapFinishedExecution(alive);
      if pendingThread.Some? || status != Error { return; }
      status := Idle;
      currentTask := None;
      errorRecoverable := false;
    }

    method RecoverFromError(alive: set<ThreadId>) returns (recovered: bool)
      modifies this
      ensures (View(), recovered) == Recover(old(View()), alive)
    {
      ReapFinishedExecution(alive);
      if status != Error || !errorRecoverable { return false; }
      status := Idle;
      currentTask := None;
      errorRecoverable := false;
      recovered := true;
    }

    method QuarantineThread(thread: ThreadId, alive: set<ThreadId>)
      modifies this
      ensures View() == Quarantine(old(View()), thread, alive)
    {
      ReapFinishedExecution(alive);
      errorsCount := errorsCount + 1;
      if status != ShutDown { status := Error; }
      errorRecoverable := false;
      pendingThread := Some(thread);
    }

    method MayUnregister(alive: set<ThreadId>) returns (allowed: bool)
      modifies this
      ensures (View(), allowed) == CanUnregister(old(View()), alive)
    {
      ReapFinishedExecution(alive);
      allowed := status != Busy && pendingThread.None?;
    }

    method ShutdownAgent()
      modifies this
      ensures View() == Stop(old(View()))
    {
      status := ShutDown;
      currentTask := None;
      errorRecoverable := false;
    }
  }

  // ---- The orchestrator ----

  /** A dispatch between its assignment and its verdict on the agent. */
  datatype Stage = Assigned | Waiting(thread: ThreadId) | Finishing(ok: bool, recoverable: bool) | TimedOut(thread: ThreadId)

  datatype Dispatch = Dispatch(agent: nat, stage: Stage)

  datatype Registered = Registered(name: string, agent: Agent)

  /** `recording` holds the dispatches whose success is on the agent but not yet in the history. */
  datatype System = System(
    objects: map<nat, Registered>, registry: map<string, nat>, dispatches: map<nat, Dispatch>, recording: map<nat, nat>,
    owners: map<ThreadId, nat>, alive: set<ThreadId>, closing: set<nat>, shutdown: bool, next: nat)

  const INITIAL: System := System(map[], map[], map[], map[], map[], {}, {}, false, 0)

  datatype Event =
    | Register(name: string)
    | Unregister(name: string)
    | RecoverAgent(name: string)
    | ResetAgent(name: string)
    | Inspect(name: string)
    | DispatchTask(name: string)
    | StartThread(dispatch: nat, succeeds: bool)
    | ThreadEnds(thread: ThreadId)
    | JoinReturns(dispatch: nat, ok: bool, recoverable: bool)
    | JoinRaises(dispatch: nat)
    | Conclude(dispatch: nat)
    | RecordRaises(dispatch: nat, recoverable: bool)
    | BeginShutdown
    | CloseAgent(agent: nat)

  function SetAgent(s: System, id: nat, a: Agent): System
    requires id in s.objects
  {
    s.(objects := s.objects[id := s.objects[id].(agent := a)])
  }

  function AddAgent(s: System, name: string): System {
    s.(objects := s.objects[s.next := Registered(name, NEW_AGENT)], registry := s.registry[name := s.next], next := s.next + 1)
  }

  /** The registered object under a name, when there is one. */
  predicate Known(s: System, name: string) {
    name in s.registry && s.registry[name] in s.objects
  }

  function AgentAt(s: System, name: string): Agent
    requires Known(s, name)
  {
    s.objects[s.registry[name]].agent
  }

  function RegisterStep(s: System, name: string): System {
    if !Known(s, name) then AddAgent(s, name)
    else
      var (a, allowed) := CanUnregister(AgentAt(s, name), s.alive);
      var reaped := SetAgent(s, s.registry[name], a);
      if allowed then AddAgent(reaped, name) else reaped
  }

  function UnregisterStep(s: System, name: string): System {
    if !Known(s, name) then s
    else
      var (a, allowed) := CanUnregister(AgentAt(s, name), s.alive);
      var reaped := SetAgent(s, s.registry[name], a);
      if allowed then reaped.(registry := s.registry - {name}) else reaped
  }

  function DispatchStep(s: System, name: string): System {
    if s.shutdown || !Known(s, name) then s
    else
      var id := s.registry[name];
      var (a, accepted) := TryAssign(AgentAt(s, name), s.next, s.alive);
      var t := SetAgent(s, id, a);
      if accepted then t.(dispatches := s.dispatches[s.next := Dispatch(id, Assigned)], next := s.next + 1) else t
  }

  function StartStep(s: System, d: nat, succeeds: bool): System {
    if d !in s.dispatches || !s.dispatches[d].stage.Assigned? then s
    else
      var id := s.dispatches[d].agent;
      if succeeds then
        s.(dispatches := s.dispatches[d := Dispatch(id, Waiting(s.next))], owners := s.owners[s.next := id], alive := s.alive + {s.next}, next := s.next + 1)
      else s.(dispatches := s.dispatches[d := Dispatch(id, Finishing(false, true))])
  }

  function JoinStep(s: System, d: nat, ok: bool, recoverable: bool): System {
    if d !in s.dispatches || !s.dispatches[d].stage.Waiting? then s
    else
      var thread := s.dispatches[d].stage.thread;
      s.(dispatches := s.dispatches[d := s.dispatches[d].(stage := if thread in s.alive then TimedOut(thread) else Finishing(ok, recoverable))])
  }

  /** The timeout is one `join` refuses: the error is taken for the handler's, whether or not the handler still runs. */
  function JoinRaisesStep(s: System, d: nat): System {
    if d !in s.dispatches || !s.dispatches[d].stage.Waiting? then s
    else s.(dispatches := s.dispatches[d := s.dispatches[d].(stage := Finishing(false, true))])
  }

  function Verdict(a: Agent, stage: Stage, alive: set<ThreadId>): Agent {
    match stage
    case Finishing(ok, recoverable) => if ok then Complete(a) else Fail(a, recoverable)
    case TimedOut(thread) => Quarantine(a, thread, alive)
    case _ => a
  }

  function ConcludeStep(s: System, d: nat): System {
    if d !in s.dispatches || s.dispatches[d].agent !in s.objects || s.dispatches[d].stage.Assigned? || s.dispatches[d].stage.Waiting? then s
    else
      var id := s.dispatches[d].agent;
      var t := SetAgent(s, id, Verdict(s.objects[id].agent, s.dispatches[d].stage, s.alive)).(dispatches := s.dispatches - {d});
      if s.dispatches[d].stage.Finishing? && s.dispatches[d].stage.ok then t.(recording := s.recording[d := id]) else t
  }

  /** The result of a completed dispatch cannot be copied into the history: the agent gets a second verdict, a failure. */
  function RecordRaisesStep(s: System, d: nat, recoverable: bool): System {
    if d !in s.recording || s.recording[d] !in s.objects then s
    else
      var id := s.recording[d];
      SetAgent(s, id, Fail(s.objects[id].agent, recoverable)).(recording := s.recording - {d})
  }

  function Step(s: System, e: Event): System {
    match e
    case Register(name) => RegisterStep(s, name)
    case Unregister(name) => UnregisterStep(s, name)
    case RecoverAgent(name) => if Known(s, name) then SetAgent(s, s.registry[name], Recover(AgentAt(s, name), s.alive).0) else s
    case ResetAgent(name) => if Known(s, name) then SetAgent(s, s.registry[name], Reset(AgentAt(s, name), s.alive)) else s
    case Inspect(name) => if Known(s, name) then SetAgent(s, s.registry[name], Reap(AgentAt(s, name), s.alive)) else s
    case DispatchTask(name) => DispatchStep(s, name)
    case StartThread(d, succeeds) => StartStep(s, d, succeeds)
    case ThreadEnds(thread) => s.(alive := s.alive - {thread})
    case JoinReturns(d, ok, recoverable) => JoinStep(s, d, ok, recoverable)
    case JoinRaises(d) => JoinRaisesStep(s, d)
    case Conclude(d) => ConcludeStep(s, d)
    case RecordRaises(d, recoverable) => RecordRaisesStep(s, d, recoverable)
    case BeginShutdown => s.(shutdown := true, closing := s.closing + s.registry.Values)
    case CloseAgent(id) =>
      if id in s.closing && id in s.objects then SetAgent(s, id, Stop(s.objects[id].agent)).(closing := s.closing - {id}) else s
  }

  function Run(s: System, events: seq<Event>): System
    decreases |events|
  {
    if |events| == 0 then s else Run(Step(s, events[0]), events[1..])
  }
}
