/**
  One task per role: the lease table and the pending submissions of the dispatch service, against any
  supervisor that keeps the record of a task until its termination is confirmed.
 */
module RoleLease {
  import opened Wrappers

  type TaskId = nat

  /** The supervisor's view of one task. A record may be dropped only after confirmation. */
  datatype Record = NoRecord | Running | Terminal | Confirmed | Dropped

  /** What `supervisor.get` answers. */
  datatype Answer = Unknown | Known(terminal: bool, confirmed: bool)

  function Get(r: Record): Answer {
    match r
    case NoRecord => Unknown
    case Dropped => Unknown
    case Running => Known(false, false)
    case Terminal => Known(true, false)
    case Confirmed => Known(true, true)
  }

  datatype Leases = Leases(leases: map<string, TaskId>, pending: set<TaskId>)

  predicate Holds(l: Leases, role: string, task: TaskId) {
    role in l.leases && l.leases[role] == task
  }

  function Release(l: Leases, role: string, task: TaskId): Leases {
    l.(pending := l.pending - {task}, leases := if Holds(l, role, task) then l.leases - {role} else l.leases)
  }

  /** A lease can be taken over when its task is not being submitted and is unknown or confirmed terminal. */
  predicate Free(l: Leases, role: string, get: TaskId -> Answer) {
    role in l.leases ==>
      var current := l.leases[role];
      current !in l.pending && (get(current).Unknown? || (get(current).terminal && get(current).confirmed))
  }

  function Reserve(l: Leases, role: string, task: TaskId, get: TaskId -> Answer): (Leases, bool) {
    if Free(l, role, get) then (Leases(l.leases[role := task], l.pending + {task}), true) else (l, false)
  }

  class RoleDispatchService {
    var leases: map<string, TaskId>
    var pendingSubmissions: set<TaskId>

    function View(): Leases
      reads this
    {
      Leases(leases, pendingSubmissions)
    }

    constructor ()
      ensures View() == Leases(map[], {})
    {
      leases, pendingSubmissions := map[], {};
    }

    /** `_reserve`. */
    method ReserveRole(role: string, task: TaskId, get: TaskId -> Answer) returns (reserved: bool)
      modifies this
      ensures (View(), reserved) == Reserve(old(View()), role, task, get)
    {
      if role in leases {
        var current := leases[role];
        if current in pendingSubmissions { return false; }
        var record := get(current);
        if record.Unknown? || (record.terminal && record.confirmed) {
          leases := leases - {role};
        } else {
          return false;
        }
      }
      leases := leases[role := task];
      pendingSubmissions := pendingSubmissions + {task};
      assert leases == old(leases)[role := task];
      reserved := true;
    }

    /** `_release_terminal_lease`. */
    method ReleaseTerminalLease(role: string, task: TaskId, record: Answer)
      modifies this
      ensures View() == if record.Known? && record.terminal && record.confirmed then Release(old(View()), role, task) else old(View())
    {
      if record.Unknown? || !record.terminal || !record.confirmed { return; }
      pendingSubmissions := pendingSubmissions - {task};
      if role in leases && leases[role] == task { leases := leases - {role}; }
    }

    /** The clean-up after `submit` raised, with what the supervisor answered. */
    method SubmissionFailed(role: string, task: TaskId, record: Answer)
      modifies this
      ensures View() == if record.Unknown? then Release(old(View()), role, task) else old(View()).(pending := old(View()).pending - {task})
    {
      pendingSubmissions := pendingSubmissions - {task};
      if record.Unknown? && role in leases && leases[role] == task { leases := leases - {role}; }
    }

    method SubmissionReturned(task: TaskId)
      modifies this
      ensures View() == old(View()).(pending := old(View()).pending - {task})
    {
      pendingSubmissions := pendingSubmissions - {task};
    }
  }

  // ---- Dispatching threads, the supervisor and its callbacks, interleaved ----

  /** Where `dispatch_by_role` stands with its task. */
  datatype Stage = Submitting | Returned | Raised | Looked(answer: Answer) | Finished

  datatype Task = Task(role: string, stage: Stage, record: Record)

  datatype System = System(table: Leases, tasks: map<TaskId, Task>)

  const INITIAL: System := System(Leases(map[], {}), map[])

  datatype Event =
    | TryReserve(role: string, task: TaskId)
    | SupervisorRecords(task: TaskId)
    | SubmitReturns(task: TaskId)
    | SubmitRaises(task: TaskId)
    | LookUp(task: TaskId)
    | CleanUp(task: TaskId)
    | Discard(task: TaskId)
    | RecordAdvances(task: TaskId)
    | Callback(task: TaskId)

  function GetIn(tasks: map<TaskId, Task>): TaskId -> Answer {
    t => if t in tasks then Get(tasks[t].record) else Unknown
  }

  function SetStage(s: System, t: TaskId, stage: Stage): System
    requires t in s.tasks
  {
    s.(tasks := s.tasks[t := s.tasks[t].(stage := stage)])
  }

  function SetRecord(s: System, t: TaskId, record: Record): System
    requires t in s.tasks
  {
    s.(tasks := s.tasks[t := s.tasks[t].(record := record)])
  }

  function Step(s: System, e: Event): System {
    match e
    case TryReserve(role, t) =>
      // task ids are unique: a used one is never drawn again
      if t in s.tasks then s
      else
        var (table, reserved) := Reserve(s.table, role, t, GetIn(s.tasks));
        if reserved then System(table, s.tasks[t := Task(role, Submitting, NoRecord)]) else s
    case SupervisorRecords(t) =>
      if t in s.tasks && s.tasks[t].stage == Submitting && s.tasks[t].record == NoRecord then SetRecord(s, t, Running) else s
    case SubmitReturns(t) =>
      if t in s.tasks && s.tasks[t].stage == Submitting && s.tasks[t].record != NoRecord then SetStage(s, t, Returned) else s
    case SubmitRaises(t) =>
      if t in s.tasks && s.tasks[t].stage == Submitting then SetStage(s, t, Raised) else s
    case LookUp(t) =>
      if t in s.tasks && s.tasks[t].stage == Raised then SetStage(s, t, Looked(Get(s.tasks[t].record))) else s
    case CleanUp(t) =>
      if t in s.tasks && s.tasks[t].stage.Looked? then
        SetStage(s, t, Finished).(table :=
          if s.tasks[t].stage.answer.Unknown? then Release(s.table, s.tasks[t].role, t) else s.table.(pending := s.table.pending - {t}))
      else s
    case Discard(t) =>
      if t in s.tasks && s.tasks[t].stage == Returned then SetStage(s, t, Finished).(table := s.table.(pending := s.table.pending - {t})) else s
    case RecordAdvances(t) =>
      if t !in s.tasks then s
      else (match s.tasks[t].record
        case Running => SetRecord(s, t, Terminal)
        case Terminal => SetRecord(s, t, Confirmed)
        case Confirmed => SetRecord(s, t, Dropped)
        case _ => s)
    case Callback(t) =>
      if t in s.tasks && s.tasks[t].record in {Confirmed, Dropped} then s.(table := Release(s.table, s.tasks[t].role, t)) else s
  }

  function Run(s: System, events: seq<Event>): System
    decreases |events|
  {
    if |events| == 0 then s else Run(Step(s, events[0]), events[1..])
  }

  // ---- Safety ----

  /** The supervisor has the task and has not confirmed its termination. */
  predicate Unconfirmed(s: System, t: TaskId) {
    t in s.tasks && s.tasks[t].record in {Running, Terminal}
  }

  /** A record for this task may still appear. */
  predicate MayStart(task: Task) {
    task.stage == Submitting && task.record == NoRecord
  }

  /** Unconfirmed tasks hold their role's lease, and a task whose record may still appear is pending. */
  ghost predicate LeasesOK(s: System) {
    && (forall t :: Unconfirmed(s, t) ==> Holds(s.table, s.tasks[t].role, t))
    && (forall t :: t in s.tasks && MayStart(s.tasks[t]) ==> t in s.table.pending)
    && (forall role :: role in s.table.leases ==> s.table.leases[role] in s.tasks && s.tasks[s.table.leases[role]].role == role)
  }

  /** Pending submissions are under way and hold their lease. */
  ghost predicate PendingOK(s: System) {
    forall t :: t in s.table.pending ==> t in s.tasks && s.tasks[t].stage != Finished && Holds(s.table, s.tasks[t].role, t)
  }

  /** What a dispatch has learned so far still holds. */
  predicate StageOK(task: Task) {
    && (task.stage.Looked? && task.stage.answer.Unknown? ==> task.record in {NoRecord, Dropped})
    && (task.record == NoRecord ==> task.stage != Returned)
  }

  ghost predicate Inv(s: System) {
    LeasesOK(s) && PendingOK(s) && forall t :: t in s.tasks ==> StageOK(s.tasks[t])
  }

  lemma InitialInv()
    ensures Inv(INITIAL)
  {
  }

  lemma AnswerMeans(r: Record)
    ensures Get(r).Unknown? || (Get(r).terminal && Get(r).confirmed) <==> r !in {Running, Terminal}
    ensures Get(r).Unknown? <==> r in {NoRecord, Dropped}
  {
  }

  lemma ReserveKeepsInv(s: System, role: string, t: TaskId)
    requires Inv(s)
    ensures Inv(Step(s, TryReserve(role, t)))
  {
    hide Get, LeasesOK, PendingOK;
    if t !in s.tasks && Free(s.table, role, GetIn(s.tasks)) {
      ReserveKeepsLeases(s, role, t);
      ReserveKeepsPending(s, role, t);
    }
  }

  lemma ReserveKeepsLeases(s: System, role: string, t: TaskId)
    requires LeasesOK(s) && t !in s.tasks && Free(s.table, role, GetIn(s.tasks))
    ensures LeasesOK(Step(s, TryReserve(role, t)))
  {
    hide Get;
    if role in s.table.leases { AnswerMeans(s.tasks[s.table.leases[role]].record); }
  }

  lemma ReserveKeepsPending(s: System, role: string, t: TaskId)
    requires PendingOK(s) && t !in s.tasks && Free(s.table, role, GetIn(s.tasks))
    ensures PendingOK(Step(s, TryReserve(role, t)))
  {
    hide Get;
  }

  /** A dispatch or a record moves on while the table stays. */
  lemma TaskMovesKeepsInv(s: System, t: TaskId, task: Task)
    requires Inv(s) && t in s.tasks && task.role == s.tasks[t].role && StageOK(task)
    requires task.record in {Running, Terminal} ==> s.tasks[t].record in {Running, Terminal} || MayStart(s.tasks[t])
    requires MayStart(task) ==> MayStart(s.tasks[t])
    requires task.stage == Finished ==> s.tasks[t].stage == Finished || t !in s.table.pending
    ensures Inv(s.(tasks := s.tasks[t := task]))
  {
    if MayStart(s.tasks[t]) { assert t in s.table.pending; }
  }

  lemma ReleaseKeepsInv(s: System, t: TaskId)
    requires Inv(s) && t in s.tasks && !Unconfirmed(s, t) && !MayStart(s.tasks[t])
    ensures Inv(s.(table := Release(s.table, s.tasks[t].role, t))) && t !in Release(s.table, s.tasks[t].role, t).pending
  {
  }

  lemma DiscardKeepsInv(s: System, t: TaskId)
    requires Inv(s) && t in s.tasks && !MayStart(s.tasks[t])
    ensures Inv(s.(table := s.table.(pending := s.table.pending - {t})))
  {
  }

  lemma CleanUpKeepsInv(s: System, t: TaskId)
    requires Inv(s)
    ensures Inv(Step(s, CleanUp(t)))
  {
    hide LeasesOK, PendingOK, Release;
    if t in s.tasks && s.tasks[t].stage.Looked? {
      if s.tasks[t].stage.answer.Unknown? {
        ReleaseKeepsInv(s, t);
        TaskMovesKeepsInv(s.(table := Release(s.table, s.tasks[t].role, t)), t, s.tasks[t].(stage := Finished));
      } else {
        DiscardKeepsInv(s, t);
        TaskMovesKeepsInv(s.(table := s.table.(pending := s.table.pending - {t})), t, s.tasks[t].(stage := Finished));
      }
    }
  }

  lemma StepKeepsInv(s: System, e: Event)
    requires Inv(s)
    ensures Inv(Step(s, e))
  {
    hide Reserve, Get, LeasesOK, PendingOK, Release;
    match e
    case TryReserve(role, t) => ReserveKeepsInv(s, role, t);
    case SupervisorRecords(t) =>
      if t in s.tasks && s.tasks[t].stage == Submitting && s.tasks[t].record == NoRecord { TaskMovesKeepsInv(s, t, s.tasks[t].(record := Running)); }
    case SubmitReturns(t) =>
      if t in s.tasks && s.tasks[t].stage == Submitting && s.tasks[t].record != NoRecord { TaskMovesKeepsInv(s, t, s.tasks[t].(stage := Returned)); }
    case SubmitRaises(t) =>
      if t in s.tasks && s.tasks[t].stage == Submitting { TaskMovesKeepsInv(s, t, s.tasks[t].(stage := Raised)); }
    case LookUp(t) =>
      if t in s.tasks && s.tasks[t].stage == Raised {
        AnswerMeans(s.tasks[t].record);
        TaskMovesKeepsInv(s, t, s.tasks[t].(stage := Looked(Get(s.tasks[t].record))));
      }
    case CleanUp(t) => CleanUpKeepsInv(s, t);
    case Discard(t) =>
      if t in s.tasks && s.tasks[t].stage == Returned {
        DiscardKeepsInv(s, t);
        TaskMovesKeepsInv(s.(table := s.table.(pending := s.table.pending - {t})), t, s.tasks[t].(stage := Finished));
      }
    case RecordAdvances(t) =>
      if t in s.tasks {
        match s.tasks[t].record
        case Running => TaskMovesKeepsInv(s, t, s.tasks[t].(record := Terminal));
        case Terminal => TaskMovesKeepsInv(s, t, s.tasks[t].(record := Confirmed));
        case Confirmed => TaskMovesKeepsInv(s, t, s.tasks[t].(record := Dropped));
        case _ =>
      }
    case Callback(t) =>
      if t in s.tasks && s.tasks[t].record in {Confirmed, Dropped} { ReleaseKeepsInv(s, t); }
  }

  lemma {:induction false} RunKeepsInv(s: System, events: seq<Event>)
    requires Inv(s)
    ensures Inv(Run(s, events))
    decreases |events|
  {
    hide Inv, Step;
    if |events| > 0 {
      StepKeepsInv(s, events[0]);
      RunKeepsInv(Step(s, events[0]), events[1..]);
    }
  }

  /** In every interleaving a role has at most one submitted task without confirmed termination, and its lease names that task. */
  lemma OneUnconfirmedTaskPerRole(events: seq<Event>, t1: TaskId, t2: TaskId)
    ensures var s := Run(INITIAL, events);
            && (Unconfirmed(s, t1) ==> Holds(s.table, s.tasks[t1].role, t1))
            && (Unconfirmed(s, t1) && Unconfirmed(s, t2) && s.tasks[t1].role == s.tasks[t2].role ==> t1 == t2)
  {
    InitialInv();
    RunKeepsInv(INITIAL, events);
  }

  /** A role is refused as busy exactly while one of its tasks is being submitted or runs unconfirmed: no lease is leaked. */
  lemma BusyIff(events: seq<Event>, role: string, t: TaskId)
    ensures var s := Run(INITIAL, events);
            t !in s.tasks ==>
              (t !in Step(s, TryReserve(role, t)).tasks <==>
                 exists u :: u in s.tasks && s.tasks[u].role == role && (u in s.table.pending || Unconfirmed(s, u)))
  {
    InitialInv();
    RunKeepsInv(INITIAL, events);
    var s := Run(INITIAL, events);
    if t !in s.tasks { BusyExactly(s, role, t); }
  }

  lemma BusyExactly(s: System, role: string, t: TaskId)
    requires Inv(s) && t !in s.tasks
    ensures t !in Step(s, TryReserve(role, t)).tasks <==>
            exists u :: u in s.tasks && s.tasks[u].role == role && (u in s.table.pending || Unconfirmed(s, u))
  {
    hide Get;
    if role in s.table.leases {
      var u := s.table.leases[role];
      AnswerMeans(s.tasks[u].record);
      if u in s.table.pending || Unconfirmed(s, u) { assert u in s.tasks && s.tasks[u].role == role; }
    }
  }

  /** Once a task's dispatch is over and its termination confirmed, its callback or the next reservation frees the role. */
  lemma FinishedRoleIsFree(events: seq<Event>, role: string, t: TaskId)
    ensures var s := Run(INITIAL, events);
            t !in s.tasks && (forall u :: u in s.tasks && s.tasks[u].role == role ==> s.tasks[u].stage == Finished && !Unconfirmed(s, u)) ==>
              Holds(Step(s, TryReserve(role, t)).table, role, t)
  {
    InitialInv();
    RunKeepsInv(INITIAL, events);
    var s := Run(INITIAL, events);
    if t !in s.tasks && (forall u :: u in s.tasks && s.tasks[u].role == role ==> s.tasks[u].stage == Finished && !Unconfirmed(s, u)) {
      BusyExactly(s, role, t);
    }
  }
}
