/**
  Transport-fault containment of one plugin worker. The shared fields are changed in sections guarded by
  the fault lock; the operation flag is set and cleared outside it. The class gives each section as code,
  and the step relation interleaves them for the reader thread, one operation at a time, and the
  containment thread.
 */
module PluginTransport {
  import opened Wrappers

  datatype Code = Crashed | HandshakeFailed | OutputLimit

  datatype Actor = Reader | Operator

  /** The containment thread object: absent, created but not started, running, or past its termination call. */
  datatype Containment = NoThread | Created(actor: Actor) | Running | Finishing

  datatype Shared = Shared(
    ready: bool,
    terminating: bool,
    fault: Option<Code>,
    hello: bool,
    eofExpected: bool,
    eofDeferred: bool,
    containment: Containment,
    active: bool,
    usable: bool,
    started: bool)

  // ---- Each section as a function of the shared fields ----

  datatype Observed = Observed(shared: Shared, contain: bool)

  /** The first fault wins; a crash before hello is reported as a failed handshake. */
  function Record(s: Shared, code: Code): Observed {
    if s.fault.Some? then Observed(s, false)
    else
      var recorded := if code == Crashed && !s.hello then HandshakeFailed else code;
      Observed(s.(fault := Some(recorded), usable := false), !s.active)
  }

  /** `_observe_transport_fault`. */
  function Observe(s: Shared, code: Code, eof: bool): Observed {
    if !s.ready || s.terminating then Observed(s, false)
    else if eof && s.eofExpected then Observed(s.(eofDeferred := true), false)
    else Record(s, code)
  }

  /** `_complete_shutdown_response`: a failed response gives a deferred end of stream its fault back. */
  function CompleteShutdown(s: Shared, success: bool): Observed {
    var cleared := s.(eofDeferred := false);
    if success then Observed(cleared, false)
    else
      var t := cleared.(eofExpected := false);
      if s.eofDeferred && s.fault.None? then Observed(t.(fault := Some(Crashed), usable := false), !s.active) else Observed(t, false)
  }

  /** The locked part of `_schedule_transport_containment`: whether this actor must start the new thread. */
  function Schedule(s: Shared, actor: Actor): Observed {
    if s.terminating || s.containment != NoThread then Observed(s, false)
    else Observed(s.(containment := Created(actor)), true)
  }

  /** The locked part of `_terminate_process`. */
  function Terminate(s: Shared): Shared {
    s.(terminating := true, eofExpected := false, eofDeferred := false)
  }

  /** The end of `start`: hello is validated and the generation becomes usable unless a fault came first. */
  function FinishStart(s: Shared): Shared {
    s.(hello := true, usable := if s.fault.None? then true else s.usable)
  }

  class SubprocessPluginRuntime {
    var transportReady: bool
    var terminationStarted: bool
    var transportFault: Option<Code>
    var handshakeHelloValidated: bool
    var shutdownResponseEofExpected: bool
    var shutdownResponseEofDeferred: bool
    var containmentThread: Containment
    var operationActive: bool
    var usable: bool
    var started: bool

    function View(): Shared
      reads this
    {
      Shared(transportReady, terminationStarted, transportFault, handshakeHelloValidated, shutdownResponseEofExpected,
             shutdownResponseEofDeferred, containmentThread, operationActive, usable, started)
    }

    constructor ()
      ensures View() == INITIAL
    {
      transportReady, terminationStarted, transportFault, handshakeHelloValidated := false, false, None, false;
      shutdownResponseEofExpected, shutdownResponseEofDeferred := false, false;
      containmentThread, operationActive, usable, started := NoThread, false, false, false;
    }

    method ObserveTransportFault(code: Code, eof: bool) returns (shouldContain: bool)
      modifies this
      ensures Observed(View(), shouldContain) == Observe(old(View()), code, eof)
    {
      shouldContain := false;
      if !transportReady { return; }
      if terminationStarted { return; }
      if eof && shutdownResponseEofExpected {
        shutdownResponseEofDeferred := true;
        return;
      }
      if transportFault.None? {
        var recorded := code;
        if code == Crashed && !handshakeHelloValidated { recorded := HandshakeFailed; }
        transportFault := Some(recorded);
        usable := false;
        shouldContain := !operationActive;
      }
    }

    method CompleteShutdownResponse(success: bool) returns (shouldContain: bool)
      modifies this
      ensures Observed(View(), shouldContain) == CompleteShutdown(old(View()), success)
    {
      shouldContain := false;
      var deferred := shutdownResponseEofDeferred;
      shutdownResponseEofDeferred := false;
      if success { return; }
      shutdownResponseEofExpected := false;
      if deferred && transportFault.None? {
        transportFault := Some(Crashed);
        usable := false;
        shouldContain := !operationActive;
      }
    }

    method ScheduleTransportContainment(actor: Actor) returns (mustStart: bool)
      modifies this
      ensures Observed(View(), mustStart) == Schedule(old(View()), actor)
    {
      if terminationStarted { return false; }
      if containmentThread != NoThread { return false; }
      containmentThread := Created(actor);
      mustStart := true;
    }

    method BeginTermination()
      modifies this
      ensures View() == Terminate(old(View()))
    {
      terminationStarted := true;
      shutdownResponseEofExpected := false;
      shutdownResponseEofDeferred := false;
    }

    method ValidateHello()
      modifies this
      ensures View() == FinishStart(old(View()))
    {
      handshakeHelloValidated := true;
      if transportFault.None? { usable := true; }
    }
  }

  // ---- Threads ----

  /** What a thread still has to do after a section told it to contain. */
  datatype Duty = Free | MustSchedule | MustStart | MustUndo | MustTerminate

  /** Where the single operation stands; an answered or expecting shutdown has to terminate or complete before it leaves. */
  datatype Phase = Absent | Starting | Working | Expecting | Responded | Leaving | Cleaning

  /** The last shutdown request, as the events tell it: none stands, one stands, or one was carried off by an exception; and whether the reader reported an end of stream since the request or its answer. */
  datatype Request = NotAsked | Asked(seen: bool) | Escaped(seen: bool)

  datatype System = System(shared: Shared, phase: Phase, operator: Duty, reader: Duty, request: Request)

  const INITIAL: Shared := Shared(false, false, None, false, false, false, NoThread, false, false, false)
  const INITIAL_SYSTEM: System := System(INITIAL, Absent, Free, Free, NotAsked)

  datatype Event =
    // the operation, which holds the operation lock from Enter to the end of its clean-up
    | Enter(start: bool)
    | PublishReady
    | CompleteHello
    | ExpectEof
    | CompleteResponse(success: bool)
    | OperationTerminates
    | MarkUnusable
    | Escape
    | Leave
    | ReadFault
    // the reader
    | ReaderObserves(code: Code, eof: bool)
    | ReaderSeesHello
    // scheduling, by either thread; starting the thread may fail
    | DoSchedule(actor: Actor)
    | DoStart(actor: Actor, succeeds: bool)
    | DoUndo(actor: Actor)
    | DoTerminate(actor: Actor)
    // the containment thread
    | ContainmentTerminates
    | ContainmentEnds

  function DutyOf(s: System, actor: Actor): Duty {
    if actor.Reader? then s.reader else s.operator
  }

  function WithDuty(s: System, actor: Actor, duty: Duty): System {
    if actor.Reader? then s.(reader := duty) else s.(operator := duty)
  }

  predicate InOperation(s: System) {
    s.phase in {Starting, Working, Expecting, Responded}
  }

  predicate Enabled(s: System, e: Event) {
    match e
    case Enter(start) => s.phase == Absent && s.operator == Free && (start ==> !s.shared.started)
    case PublishReady => s.phase == Starting
    case CompleteHello => s.phase == Starting && s.shared.ready
    case ExpectEof => s.phase == Working && s.shared.started
    case CompleteResponse(_) => s.phase == Expecting
    case OperationTerminates => InOperation(s) && s.shared.started
    case MarkUnusable => InOperation(s)
    case Escape => s.phase == Expecting
    case Leave => s.phase in {Starting, Working}
    case ReadFault => s.phase == Leaving
    case ReaderObserves(_, _) => s.reader == Free && s.shared.ready
    case ReaderSeesHello => s.reader == Free && s.shared.ready
    case DoSchedule(actor) => DutyOf(s, actor) == MustSchedule
    case DoStart(actor, _) => DutyOf(s, actor) == MustStart
    case DoUndo(actor) => DutyOf(s, actor) == MustUndo
    case DoTerminate(actor) => DutyOf(s, actor) == MustTerminate
    case ContainmentTerminates => s.shared.containment == Running
    case ContainmentEnds => s.shared.containment == Finishing
  }

  function Next(s: System, e: Event): System
    requires Enabled(s, e)
  {
    var h := s.shared;
    match e
    case Enter(start) =>
      s.(phase := if start then Starting else Working, shared := h.(active := true, started := h.started || start))
    case PublishReady => s.(shared := h.(ready := true))
    case CompleteHello => s.(phase := Working, shared := FinishStart(h))
    case ExpectEof => s.(phase := Expecting, shared := h.(eofExpected := true, eofDeferred := false), request := Asked(false))
    case CompleteResponse(success) =>
      var o := CompleteShutdown(h, success);
      s.(phase := if success then Responded else Working, shared := o.shared, operator := if o.contain then MustSchedule else Free,
        request := if success && s.request.Asked? then Asked(false) else NotAsked)
    case OperationTerminates => s.(phase := Working, shared := Terminate(h).(usable := false), request := NotAsked)
    case MarkUnusable => s.(shared := h.(usable := false))
    case Escape => s.(phase := Leaving, shared := h.(active := false), request := if s.request.Asked? then Escaped(s.request.seen) else s.request)
    case Leave => s.(phase := Leaving, shared := h.(active := false))
    case ReadFault => s.(phase := Cleaning, operator := if h.fault.Some? then MustSchedule else Free)
    case ReaderObserves(code, eof) =>
      var o := Observe(h, code, eof);
      s.(shared := o.shared, reader := if o.contain then MustSchedule else Free,
         request := if s.request.NotAsked? || !eof then s.request else s.request.(seen := true))
    case ReaderSeesHello => s.(shared := h.(hello := true))
    case DoSchedule(actor) =>
      var o := Schedule(h, actor);
      WithDuty(s.(shared := o.shared), actor, if o.contain then MustStart else Free)
    case DoStart(actor, succeeds) =>
      if succeeds then WithDuty(s.(shared := h.(containment := Running)), actor, Free) else WithDuty(s, actor, MustUndo)
    case DoUndo(actor) => WithDuty(s.(shared := h.(containment := if h.containment == Created(actor) then NoThread else h.containment)), actor, MustTerminate)
    case DoTerminate(actor) => WithDuty(s.(shared := Terminate(h).(usable := false), request := NotAsked), actor, Free)
    case ContainmentTerminates => s.(shared := Terminate(h).(usable := false, containment := Finishing), request := NotAsked)
    case ContainmentEnds => s.(shared := h.(containment := NoThread))
  }

  /** An operation whose clean-up is done gives up the lock. */
  function Settle(s: System): System {
    if s.phase == Cleaning && s.operator == Free then s.(phase := Absent) else s
  }

  function Step(s: System, e: Event): System {
    if Enabled(s, e) then Settle(Next(s, e)) else s
  }

  function Run(s: System, events: seq<Event>): System
    decreases |events|
  {
    if |events| == 0 then s else Run(Step(s, events[0]), events[1..])
  }

  // ---- The invariant ----

  /** The operation flag and the clean-up duty follow the operation's phase. */
  predicate PhaseOK(s: System) {
    && (s.shared.active <==> InOperation(s))
    && (s.operator != Free <==> s.phase == Cleaning)
    && (s.phase == Starting || s.shared.ready || s.shared.terminating ==> s.shared.started)
    && (s.phase == Starting && s.shared.terminating ==> s.shared.fault.Some?)
  }

  /** Somebody is going to contain the fault. */
  predicate BeingContained(s: System) {
    || s.shared.terminating || s.shared.containment != NoThread
    || InOperation(s) || s.phase == Leaving || s.operator != Free || s.reader != Free
  }

  ghost predicate FaultOK(s: System) {
    && (s.shared.fault.Some? ==> s.shared.ready && !s.shared.usable && BeingContained(s))
    && (s.reader != Free || s.operator != Free || s.shared.containment != NoThread ==> s.shared.fault.Some?)
    && (forall actor: Actor :: s.shared.containment == Created(actor) <==> DutyOf(s, actor) in {MustStart, MustUndo})
    && (s.shared.containment == Finishing ==> s.shared.terminating)
  }

  /** An end of stream is expected while a request stands, and deferred once the reader reported it before termination started. */
  predicate EofOK(s: System) {
    && (s.shared.eofExpected <==> !s.request.NotAsked?)
    && (s.request.Asked? ==> s.phase in {Expecting, Responded})
    && (s.request.Escaped? ==> s.phase !in {Expecting, Responded})
    && (s.shared.eofDeferred <==> !s.request.NotAsked? && s.request.seen && !s.shared.terminating)
    && (s.shared.eofDeferred ==> s.shared.ready)
  }

  ghost predicate Inv(s: System) {
    PhaseOK(s) && FaultOK(s) && EofOK(s)
  }

  lemma InitialInv()
    ensures Inv(INITIAL_SYSTEM)
  {
  }

  lemma OperationEventKeepsInv(s: System, e: Event)
    requires Inv(s) && Enabled(s, e)
    requires e.Enter? || e.PublishReady? || e.CompleteHello? || e.ExpectEof? || e.CompleteResponse? || e.OperationTerminates? || e.MarkUnusable?
    ensures Inv(Next(s, e)) && Next(s, e).phase != Cleaning
  {
  }

  lemma LeavingKeepsInv(s: System, e: Event)
    requires Inv(s) && Enabled(s, e) && (e.Escape? || e.Leave? || e.ReadFault?)
    ensures Inv(Settle(Next(s, e)))
  {
  }

  lemma ReaderKeepsInv(s: System, e: Event)
    requires Inv(s) && Enabled(s, e) && (e.ReaderObserves? || e.ReaderSeesHello?)
    ensures Inv(Next(s, e))
  {
  }

  lemma SchedulingKeepsInv(s: System, e: Event)
    requires Inv(s) && Enabled(s, e) && e.DoSchedule?
    ensures Inv(Settle(Next(s, e)))
  {
  }

  lemma StartingKeepsInv(s: System, e: Event)
    requires Inv(s) && Enabled(s, e) && e.DoStart?
    ensures Inv(Settle(Next(s, e)))
  {
  }

  lemma UndoingKeepsInv(s: System, e: Event)
    requires Inv(s) && Enabled(s, e) && e.DoUndo?
    ensures Inv(Settle(Next(s, e)))
  {
  }

  lemma TerminatingKeepsInv(s: System, e: Event)
    requires Inv(s) && Enabled(s, e) && e.DoTerminate?
    ensures Inv(Settle(Next(s, e)))
  {
  }

  lemma ContainmentKeepsInv(s: System, e: Event)
    requires Inv(s) && Enabled(s, e) && (e.ContainmentTerminates? || e.ContainmentEnds?)
    ensures Inv(Next(s, e))
  {
  }

  lemma SettledAlready(s: System)
    requires Inv(s)
    ensures Settle(s) == s
  {
  }

  lemma StepKeepsInv(s: System, e: Event)
    requires Inv(s)
    ensures Inv(Step(s, e))
  {
    hide Inv, Enabled, Next, Settle;
    if Enabled(s, e) {
      if e.Escape? || e.Leave? || e.ReadFault? {
        LeavingKeepsInv(s, e);
      } else if e.DoSchedule? {
        SchedulingKeepsInv(s, e);
      } else if e.DoStart? {
        StartingKeepsInv(s, e);
      } else if e.DoUndo? {
        UndoingKeepsInv(s, e);
      } else if e.DoTerminate? {
        TerminatingKeepsInv(s, e);
      } else {
        if e.ReaderObserves? || e.ReaderSeesHello? {
          ReaderKeepsInv(s, e);
        } else if e.ContainmentTerminates? || e.ContainmentEnds? {
          ContainmentKeepsInv(s, e);
        } else {
          OperationEventKeepsInv(s, e);
        }
        SettledAlready(Next(s, e));
      }
    }
  }

  /** What one event may do to the fault, to termination and to usability. */
  ghost predicate Final(s: System, e: Event, s': System) {
    && (s.shared.fault.Some? ==> s'.shared.fault == s.shared.fault)
    && (s.shared.terminating ==> s'.shared.terminating)
    && (s'.shared.usable && !s.shared.usable ==> e == CompleteHello && s.shared.fault.None? && !s.shared.terminating)
  }

  predicate IsDutyEvent(e: Event) {
    e.DoSchedule? || e.DoStart? || e.DoUndo? || e.DoTerminate?
  }

  lemma DutyIsFinal(s: System, e: Event)
    requires Enabled(s, e) && IsDutyEvent(e)
    ensures Final(s, e, Next(s, e))
  {
    hide InOperation;
  }

  lemma NextIsFinal(s: System, e: Event)
    requires PhaseOK(s) && Enabled(s, e)
    ensures Final(s, e, Next(s, e))
  {
    hide InOperation, Schedule, Final, WithDuty;
    if IsDutyEvent(e) {
      DutyIsFinal(s, e);
    } else {
      OtherIsFinal(s, e);
    }
  }

  lemma OtherIsFinal(s: System, e: Event)
    requires PhaseOK(s) && Enabled(s, e) && !IsDutyEvent(e)
    ensures Final(s, e, Next(s, e))
  {
    hide InOperation, Schedule, WithDuty, DutyOf;
  }

  /** A recorded fault is never replaced, and a generation becomes usable only at the end of a start without fault or termination. */
  lemma StepIsFinal(s: System, e: Event)
    requires Inv(s)
    ensures Final(s, e, Step(s, e))
  {
    hide Next, Enabled, FaultOK, EofOK, Final, PhaseOK;
    if Enabled(s, e) {
      NextIsFinal(s, e);
      SettleShares(s, e);
    } else {
      StayingIsFinal(s, e);
    }
  }

  lemma SettleShares(s: System, e: Event)
    requires Enabled(s, e) && Final(s, e, Next(s, e))
    ensures Final(s, e, Settle(Next(s, e)))
  {
    hide Next, Enabled;
  }

  lemma StayingIsFinal(s: System, e: Event)
    ensures Final(s, e, s)
  {
  }

  lemma {:induction false} RunKeepsInv(s: System, events: seq<Event>)
    requires Inv(s)
    ensures Inv(Run(s, events))
    decreases |events|
  {
    hide Inv, Step;
    if |events| > 0 {
      StepKeepsInv(s, events[0]);
      RunKeepsInv(Step(s, events[0]), events[1..]);
    }
  }

  /** In every interleaving: the first fault stays the fault, termination stays started, and neither is followed by a usable generation. */
  lemma {:induction false} FirstFaultIsFinal(s: System, events: seq<Event>)
    requires Inv(s)
    ensures var s' := Run(s, events);
            && (s.shared.fault.Some? ==> s'.shared.fault == s.shared.fault && !s'.shared.usable)
            && (s.shared.terminating ==> s'.shared.terminating)
            && (s.shared.terminating && !s.shared.usable ==> !s'.shared.usable)
    decreases |events|
  {
    hide Step, PhaseOK, EofOK;
    if |events| > 0 {
      StepKeepsInv(s, events[0]);
      StepIsFinal(s, events[0]);
      FirstFaultIsFinal(Step(s, events[0]), events[1..]);
    }
  }

  /** No operation holds the lock and no thread is in the middle of containing. */
  predicate Quiet(s: System) {
    s.phase == Absent && s.reader == Free
  }

  /** No wake-up is lost: whenever nothing is under way, a recorded fault is being terminated by a live thread or already was. */
  lemma NoLostWakeUp(events: seq<Event>)
    ensures var s := Run(INITIAL_SYSTEM, events);
            Quiet(s) && s.shared.fault.Some? ==> s.shared.terminating || s.shared.containment == Running
  {
    InitialInv();
    RunKeepsInv(INITIAL_SYSTEM, events);
    var s := Run(INITIAL_SYSTEM, events);
    if Quiet(s) { NothingCreated(s); }
  }

  lemma NothingCreated(s: System)
    requires Inv(s) && s.reader == Free && s.operator == Free
    ensures !s.shared.containment.Created?
  {
    assert DutyOf(s, Reader) == Free && DutyOf(s, Operator) == Free;
  }

  /** Between operations an end of stream is expected exactly after a request an exception carried off, and one is deferred exactly when the reader has also reported it and termination has not started. */
  lemma DeferredEofIff(events: seq<Event>)
    ensures var s := Run(INITIAL_SYSTEM, events);
            && (!InOperation(s) ==> (s.shared.eofExpected <==> s.request.Escaped?))
            && (!InOperation(s) ==> (s.shared.eofDeferred <==> s.request == Escaped(true) && !s.shared.terminating))
  {
    InitialInv();
    RunKeepsInv(INITIAL_SYSTEM, events);
  }

  // ---- Containment gets done ----

  /** The remaining steps of one thread's duty; starting the thread may fail. */
  function FinishDuty(s: System, actor: Actor, startSucceeds: bool): System {
    var s1 := if DutyOf(s, actor) == MustSchedule then Step(s, DoSchedule(actor)) else s;
    var s2 := if DutyOf(s1, actor) == MustStart then Step(s1, DoStart(actor, startSucceeds)) else s1;
    var s3 := if DutyOf(s2, actor) == MustUndo then Step(s2, DoUndo(actor)) else s2;
    if DutyOf(s3, actor) == MustTerminate then Step(s3, DoTerminate(actor)) else s3
  }

  function FinishContainment(s: System): System {
    Step(Step(s, ContainmentTerminates), ContainmentEnds)
  }

  /** Let every thread run its remaining steps once no operation is in progress. */
  function Drain(s: System, readerStarts: bool, operatorStarts: bool): System {
    var s1 := Step(s, ReadFault);
    var s2 := FinishDuty(s1, Operator, operatorStarts);
    FinishContainment(FinishDuty(s2, Reader, readerStarts))
  }

  lemma DutyGetsDone(s: System, actor: Actor, startSucceeds: bool)
    requires Inv(s)
    ensures var s' := FinishDuty(s, actor, startSucceeds);
            && Inv(s') && DutyOf(s', actor) == Free
            && s'.shared.fault == s.shared.fault
            && (actor.Operator? ==> s'.reader == s.reader)
            && (actor.Reader? ==> s'.operator == s.operator && s'.phase == s.phase)
            && (!InOperation(s) && s.phase != Leaving ==> !InOperation(s') && s'.phase != Leaving)
  {
    hide Inv, Step;
    var s1 := if DutyOf(s, actor) == MustSchedule then Step(s, DoSchedule(actor)) else s;
    StepKeepsInv(s, DoSchedule(actor));
    DutyStep(s, DoSchedule(actor), actor);
    var s2 := if DutyOf(s1, actor) == MustStart then Step(s1, DoStart(actor, startSucceeds)) else s1;
    StepKeepsInv(s1, DoStart(actor, startSucceeds));
    DutyStep(s1, DoStart(actor, startSucceeds), actor);
    var s3 := if DutyOf(s2, actor) == MustUndo then Step(s2, DoUndo(actor)) else s2;
    StepKeepsInv(s2, DoUndo(actor));
    DutyStep(s2, DoUndo(actor), actor);
    StepKeepsInv(s3, DoTerminate(actor));
    DutyStep(s3, DoTerminate(actor), actor);
  }

  lemma DutyStep(s: System, e: Event, actor: Actor)
    requires Inv(s)
    requires e in {DoSchedule(actor), DoStart(actor, true), DoStart(actor, false), DoUndo(actor), DoTerminate(actor)}
    ensures var s' := Step(s, e);
            && s'.shared.fault == s.shared.fault
            && (actor.Operator? ==> s'.reader == s.reader)
            && (actor.Reader? ==> s'.operator == s.operator && s'.phase == s.phase)
            && (!InOperation(s) && s.phase != Leaving ==> !InOperation(s') && s'.phase != Leaving)
            && (DutyOf(s, actor) == MustSchedule && e.DoSchedule? ==> DutyOf(s', actor) in {MustStart, Free})
            && (DutyOf(s, actor) == MustStart && e.DoStart? ==> DutyOf(s', actor) in {MustUndo, Free})
            && (DutyOf(s, actor) == MustUndo && e.DoUndo? ==> DutyOf(s', actor) == MustTerminate)
            && (DutyOf(s, actor) == MustTerminate && e.DoTerminate? ==> DutyOf(s', actor) == Free)
  {
  }

  /** Whatever thread starts fail, once every thread has run its remaining steps a recorded fault has led to termination. */
  lemma EveryFaultIsContained(s: System, readerStarts: bool, operatorStarts: bool)
    requires Inv(s) && !InOperation(s) && s.shared.fault.Some?
    ensures Drain(s, readerStarts, operatorStarts).shared.terminating
    ensures Drain(s, readerStarts, operatorStarts).shared.fault == s.shared.fault
  {
    hide FinishDuty, Step;
    var s1 := Step(s, ReadFault);
    StepKeepsInv(s, ReadFault);
    ReadFaultStep(s);
    var s2 := FinishDuty(s1, Operator, operatorStarts);
    DutyGetsDone(s1, Operator, operatorStarts);
    var s3 := FinishDuty(s2, Reader, readerStarts);
    DutyGetsDone(s2, Reader, readerStarts);
    ContainmentStep(s3);
  }

  lemma ReadFaultStep(s: System)
    requires Inv(s) && !InOperation(s)
    ensures var s' := Step(s, ReadFault); !InOperation(s') && s'.phase != Leaving && s'.shared.fault == s.shared.fault
  {
  }

  lemma ContainmentStep(s: System)
    requires Inv(s) && !InOperation(s) && s.phase != Leaving && s.operator == Free && s.reader == Free && s.shared.fault.Some?
    ensures var s' := FinishContainment(s); s'.shared.terminating && s'.shared.fault == s.shared.fault
  {
    NothingCreated(s);
  }

  // ---- Every observed fault counts ----

  /** An observation the fault fields take in: a ready worker, no termination yet, no end of stream a shutdown waits for, no earlier fault. */
  predicate CountsAsFault(s: System, eof: bool) {
    s.reader == Free && s.shared.ready && !s.shared.terminating && !(eof && s.shared.eofExpected) && s.shared.fault.None?
  }

  /**
    In every reachable state an observation records a fault exactly when it counts, whether or not an operation is active: the
    code observed, or a failed handshake for a crash before hello; and the generation is then unusable.
  */
  lemma FaultRecordedIff(s: System, code: Code, eof: bool)
    requires Inv(s)
    ensures var s' := Step(s, ReaderObserves(code, eof));
            && (s'.shared.fault != s.shared.fault <==> CountsAsFault(s, eof))
            && (CountsAsFault(s, eof) ==> !s'.shared.usable && s'.shared.fault.Some?)
            && (CountsAsFault(s, eof) && (code != Crashed || s.shared.hello) ==> s'.shared.fault == Some(code))
            && (CountsAsFault(s, eof) && code == Crashed && !s.shared.hello ==> s'.shared.fault == Some(HandshakeFailed))
  {
    hide FaultOK;
  }

  /** A shutdown answered with failure turns the end of stream it held back into a crash. */
  lemma FailedResponseRecords(s: System)
    requires Inv(s) && s.phase == Expecting && s.shared.eofDeferred && s.shared.fault.None?
    ensures var s' := Step(s, CompleteResponse(false)); s'.shared.fault == Some(Crashed) && !s'.shared.usable
  {
  }

  /** A start makes the generation usable exactly when no fault came first. */
  lemma StartUsableIff(s: System)
    requires Inv(s) && s.phase == Starting && s.shared.ready
    ensures Step(s, CompleteHello).shared.usable <==> s.shared.fault.None?
  {
  }

  /** Whatever happens after it counted, an observation has led to termination, under its own code, once the operation is over and every thread has run its remaining steps. */
  lemma ObservedFaultTerminates(s: System, code: Code, eof: bool, events: seq<Event>, readerStarts: bool, operatorStarts: bool)
    requires Inv(s) && CountsAsFault(s, eof)
    requires !InOperation(Run(Step(s, ReaderObserves(code, eof)), events))
    ensures var s' := Drain(Run(Step(s, ReaderObserves(code, eof)), events), readerStarts, operatorStarts);
            && s'.shared.terminating && !s'.shared.usable
            && s'.shared.fault == Some(if code == Crashed && !s.shared.hello then HandshakeFailed else code)
  {
    hide Inv, Step, CountsAsFault, Drain, InOperation;
    var s1 := Step(s, ReaderObserves(code, eof));
    FaultRecordedIff(s, code, eof);
    StepKeepsInv(s, ReaderObserves(code, eof));
    FirstFaultIsFinal(s1, events);
    RunKeepsInv(s1, events);
    var s2 := Run(s1, events);
    EveryFaultIsContained(s2, readerStarts, operatorStarts);
    DrainKeepsInv(s2, readerStarts, operatorStarts);
    FaultyIsUnusable(Drain(s2, readerStarts, operatorStarts));
  }

  lemma FaultyIsUnusable(s: System)
    requires Inv(s) && s.shared.fault.Some?
    ensures !s.shared.usable
  {
  }

  lemma DrainKeepsInv(s: System, readerStarts: bool, operatorStarts: bool)
    requires Inv(s)
    ensures Inv(Drain(s, readerStarts, operatorStarts))
  {
    hide Inv, Step, FinishDuty;
    StepKeepsInv(s, ReadFault);
    DutyGetsDone(Step(s, ReadFault), Operator, operatorStarts);
    var s2 := FinishDuty(Step(s, ReadFault), Operator, operatorStarts);
    DutyGetsDone(s2, Reader, readerStarts);
    var s3 := FinishDuty(s2, Reader, readerStarts);
    StepKeepsInv(s3, ContainmentTerminates);
    StepKeepsInv(Step(s3, ContainmentTerminates), ContainmentEnds);
  }

  // ---- The exception ----

  const ESCAPE: seq<Event> := [
    Enter(true), PublishReady, CompleteHello, Leave, ReadFault,
    Enter(false), ExpectEof, ReaderObserves(Crashed, true), Escape, ReadFault]

  /** If an exception leaves a shutdown between the request and its answer, a worker that has already gone stays unnoticed: usable, no fault, nothing terminating. */
  lemma EscapedShutdownLosesEof()
    ensures var s := Run(INITIAL_SYSTEM, ESCAPE);
            Quiet(s) && s.request == Escaped(true) && s.shared.eofDeferred && s.shared.fault.None? && !s.shared.terminating && s.shared.usable
  {
    hide Run, Step;
    var s1 := Run5(INITIAL_SYSTEM, ESCAPE, 0);
    StartSucceeds();
    var s2 := Run5(STARTED, ESCAPE, 5);
    ShutdownEscapes();
    assert ESCAPE[0..] == ESCAPE && ESCAPE[10..] == [];
    RunNothing(s2);
  }

  const STARTED: System := System(Shared(true, false, None, true, false, false, NoThread, false, true, true), Absent, Free, Free, NotAsked)

  lemma StartSucceeds()
    ensures Step(Step(Step(Step(Step(INITIAL_SYSTEM, Enter(true)), PublishReady), CompleteHello), Leave), ReadFault) == STARTED
  {
    var a := Step(INITIAL_SYSTEM, Enter(true));
    var b := Step(a, PublishReady);
    var c := Step(b, CompleteHello);
    assert c == System(Shared(true, false, None, true, false, false, NoThread, true, true, true), Working, Free, Free, NotAsked);
  }

  lemma ShutdownEscapes()
    ensures Step(Step(Step(Step(Step(STARTED, Enter(false)), ExpectEof), ReaderObserves(Crashed, true)), Escape), ReadFault)
            == System(Shared(true, false, None, true, true, true, NoThread, false, true, true), Absent, Free, Free, Escaped(true))
  {
    var a := Step(STARTED, Enter(false));
    var b := Step(a, ExpectEof);
    var c := Step(b, ReaderObserves(Crashed, true));
    assert c == System(Shared(true, false, None, true, true, true, NoThread, true, true, true), Expecting, Free, Free, Asked(true));
  }

  lemma RunNothing(s: System)
    ensures Run(s, []) == s
  {
  }

  lemma RunStep(s: System, events: seq<Event>, k: nat)
    requires k < |events|
    ensures Run(s, events[k..]) == Run(Step(s, events[k]), events[k + 1..])
  {
    hide Step;
    assert events[k..][1..] == events[k + 1..];
  }

  lemma Run5(s: System, events: seq<Event>, k: nat) returns (s': System)
    requires k + 5 <= |events|
    ensures s' == Step(Step(Step(Step(Step(s, events[k]), events[k + 1]), events[k + 2]), events[k + 3]), events[k + 4])
    ensures Run(s, events[k..]) == Run(s', events[k + 5..])
  {
    hide Step, Run;
    s' := s;
    for i := 0 to 5
      invariant Run(s, events[k..]) == Run(s', events[k + i..])
      invariant i == 0 ==> s' == s
      invariant i == 1 ==> s' == Step(s, events[k])
      invariant i == 2 ==> s' == Step(Step(s, events[k]), events[k + 1])
      invariant i == 3 ==> s' == Step(Step(Step(s, events[k]), events[k + 1]), events[k + 2])
      invariant i == 4 ==> s' == Step(Step(Step(Step(s, events[k]), events[k + 1]), events[k + 2]), events[k + 3])
      invariant i == 5 ==> s' == Step(Step(Step(Step(Step(s, events[k]), events[k + 1]), events[k + 2]), events[k + 3]), events[k + 4])
    {
      RunStep(s', events, k + i);
      s' := Step(s', events[k + i]);
    }
  }
}
