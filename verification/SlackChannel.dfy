/** The Slack channel around its inbox: two workers, admission, shutdown,
    operator maintenance, crash and reopen. Code between two awaits is one step;
    a step that is not enabled changes nothing, so a run is any list of actions. */
module SlackChannel {
  import opened Basics
  import opened SlackInboxState
  import opened SlackInbox

  datatype Phase =
    | Idle
    | Claiming
    | Working(id: EnvelopeId)
    | Settling(id: EnvelopeId, release: bool)
    | Failing(id: EnvelopeId)

  /** Why the lifecycle signal was aborted; the first reason stays. */
  datatype Abort = NotAborted | ShutdownAbort | FailureAbort

  datatype Caller = PrimaryWorker | ControlWorker | Socket | ShutdownRoutine | Operator

  /** The one commit in progress. `persisted` tells whether the file was replaced. */
  datatype Flight = Flight(caller: Caller, op: Op, next: State, reply: Reply, persisted: bool)

  /** The open inbox of a live process. */
  datatype Store = Store(mem: State, recoveryBlocked: bool, poisoned: bool, flight: Option<Flight>)

  /** The channel's variables in a live process. */
  datatype Workers = Workers(
    maintenance: bool, running: bool, stopping: bool, abort: Abort, recoverySafe: bool,
    primary: Phase, control: Phase, abortedIds: set<EnvelopeId>)

  datatype Proc = Proc(store: Store, workers: Workers)

  /** What has become durable, in order, and how the work on claimed envelopes ended. */
  datatype LogEvent =
    | LogEnqueue(event: Event)
    | LogClaim(lane: Lane, event: Event)
    | LogRelease(id: EnvelopeId, byOperator: bool)
    | LogRequeue(ids: set<EnvelopeId>)
    | LogComplete(id: EnvelopeId)
    | LogWork(id: EnvelopeId, outcome: WorkOutcome)

  /** `completions`, `acked` and `log` record history; the rest is real. */
  datatype System = System(
    disk: State, proc: Option<Proc>,
    completions: seq<EnvelopeId>, acked: set<EnvelopeId>, log: seq<LogEvent>)

  datatype WorkOutcome = Consumed | NotConsumed | OwnedAbort | WorkError

  datatype Action =
    | Boot(maintenance: bool)
    | Crash
    | StartWorker(lane: Lane)
    | Submit(caller: Caller, op: Op, fits: bool)
    | Persist
    | Finish(ok: bool)
    | WorkDone(lane: Lane, outcome: WorkOutcome)
    | BeginShutdown
    | AbortWorkers
    | TransportFailure

  function Init(disk: State): System {
    System(disk, None, disk.receipts, {}, [])
  }

  function NewProc(disk: State, maintenance: bool): Proc {
    Proc(Store(disk, OpensBlocked(disk), false, None),
         Workers(maintenance, !maintenance, false, NotAborted, true, Idle, Idle, {}))
  }

  // ---------- the channel's variables ----------

  function PhaseOf(w: Workers, lane: Lane): Phase {
    if lane == Primary then w.primary else w.control
  }

  function WithPhase(w: Workers, lane: Lane, phase: Phase): Workers {
    if lane == Primary then w.(primary := phase) else w.(control := phase)
  }

  function FailClosed(w: Workers): Workers {
    w.(recoverySafe := false, running := false, abort := if w.abort == NotAborted then FailureAbort else w.abort)
  }

  predicate WorkerCall(phase: Phase, lane: Lane, op: Op) {
    match phase
    case Claiming => op.Claim? && op.lane == lane
    case Settling(id, release) => op == if release then Release(id) else Complete(id)
    case Failing(id) => op == Fail(id)
    case _ => false
  }

  predicate IsWorker(caller: Caller) {
    caller == PrimaryWorker || caller == ControlWorker
  }

  function LaneOf(caller: Caller): Lane {
    if caller == ControlWorker then Control else Primary
  }

  /** Which inbox call each party has outstanding. */
  predicate Calls(w: Workers, caller: Caller, op: Op) {
    if IsWorker(caller) then WorkerCall(PhaseOf(w, LaneOf(caller)), LaneOf(caller), op)
    else if caller == Socket then !w.maintenance && op.Enqueue?
    else if caller == Operator then w.maintenance && op.Release?
    else
      && w.stopping && w.abort == ShutdownAbort && w.primary == w.control == Idle
      && op.Requeue? && Elements(op.ids) == w.abortedIds && |op.ids| == |w.abortedIds|
  }

  predicate MaySubmit(p: Proc, caller: Caller, op: Op) {
    && p.store.flight.None? && Calls(p.workers, caller, op)
    && (caller == ShutdownRoutine ==> p.workers.recoverySafe && p.workers.abortedIds != {})
    && (caller == Operator ==> op.Release? && op.id in Having(p.store.mem, Processing))
  }

  /** `fail` and the shutdown requeue are called without the inbox signal. */
  predicate SignalAborted(w: Workers, caller: Caller, op: Op) {
    w.abort == FailureAbort && (IsWorker(caller) || caller == Socket) && !op.Fail?
  }

  function AfterWorkerCall(w: Workers, lane: Lane, r: Outcome): Workers {
    match PhaseOf(w, lane)
    case Claiming =>
      if r.Err? then FailClosed(WithPhase(w, lane, Idle))
      else if r.reply.Claimed? then WithPhase(w, lane, Working(r.reply.event.envelopeId))
      else WithPhase(w, lane, Idle)
    case Settling(id, _) =>
      if r.Err? then WithPhase(w, lane, Failing(id)).(recoverySafe := false)
      else WithPhase(w, lane, if lane == Primary && w.abort == NotAborted then Claiming else Idle)
    case Failing(_) => FailClosed(WithPhase(w, lane, Idle))
    case _ => w
  }

  function AfterCall(w: Workers, caller: Caller, r: Outcome): Workers {
    if IsWorker(caller) then AfterWorkerCall(w, LaneOf(caller), r)
    else if r.Ok? || caller == Operator then w
    else if caller == Socket then FailClosed(w)
    else w.(recoverySafe := false)
  }

  // ---------- steps ----------

  function Answer(s: System, p: Proc, caller: Caller, op: Op, r: Outcome): System {
    s.(proc := Some(p.(workers := AfterCall(p.workers, caller, r))),
       acked := if op.Enqueue? && r.Ok? then s.acked + {op.event.envelopeId} else s.acked)
  }

  function Submitted(s: System, p: Proc, caller: Caller, op: Op, fits: bool): System {
    if p.store.poisoned then Answer(s, p, caller, op, Err(Poisoned))
    else if SignalAborted(p.workers, caller, op) then Answer(s, p, caller, op, Err(Aborted))
    else match Transition(p.store.mem, p.store.recoveryBlocked, op)
      case Refuse(error) => Answer(s, p, caller, op, Err(error))
      case Keep(reply) => Answer(s, p, caller, op, Ok(reply))
      case Write(next, reply) =>
        if !fits then Answer(s, p, caller, op, Err(Full))
        else s.(proc := Some(p.(store := p.store.(flight := Some(Flight(caller, op, next, reply, false))))))
  }

  function LogOf(mem: State, caller: Caller, op: Op, reply: Reply): seq<LogEvent> {
    match op
    case Enqueue(event) => [LogEnqueue(event)]
    case Claim(lane, _) => if reply.Claimed? then [LogClaim(lane, reply.event)] else []
    case Release(id) => [LogRelease(id, caller == Operator)]
    case Requeue(ids) => [LogRequeue(Requeues(mem, ids))]
    case Complete(id) => [LogComplete(id)]
    case _ => []
  }

  function Persisted(s: System, p: Proc, f: Flight): System {
    System(f.next, Some(p.(store := p.store.(flight := Some(f.(persisted := true))))),
           if f.op.Complete? then s.completions + [f.op.id] else s.completions,
           s.acked, s.log + LogOf(p.store.mem, f.caller, f.op, f.reply))
  }

  function Finished(s: System, p: Proc, f: Flight, ok: bool): System {
    if ok then Answer(s, p.(store := p.store.(flight := None, mem := f.next)), f.caller, f.op, Ok(f.reply))
    else Answer(s, p.(store := p.store.(flight := None, poisoned := true)), f.caller, f.op, Err(Poisoned))
  }

  function AfterWork(w: Workers, lane: Lane, id: EnvelopeId, outcome: WorkOutcome): Workers {
    match outcome
    case Consumed => WithPhase(w, lane, Settling(id, false))
    case NotConsumed => if lane == Primary then w else WithPhase(w, lane, Settling(id, true))
    case OwnedAbort =>
      if w.abort != ShutdownAbort then w else WithPhase(w, lane, Idle).(abortedIds := w.abortedIds + {id})
    case WorkError => WithPhase(w, lane, Failing(id)).(recoverySafe := false)
  }

  /** Only the control lane may decline an envelope, and only a shutdown owns an abort. */
  predicate CanEnd(w: Workers, lane: Lane, outcome: WorkOutcome) {
    match outcome
    case NotConsumed => lane == Control
    case OwnedAbort => w.abort == ShutdownAbort
    case _ => true
  }

  function WorkedOut(s: System, p: Proc, lane: Lane, id: EnvelopeId, outcome: WorkOutcome): System {
    s.(proc := Some(p.(workers := AfterWork(p.workers, lane, id, outcome))),
       log := if CanEnd(p.workers, lane, outcome) then s.log + [LogWork(id, outcome)] else s.log)
  }

  /** Steps that only change the channel's variables. */
  function FlagStep(w: Workers, a: Action): Workers {
    match a
    case StartWorker(lane) =>
      if w.running && !w.stopping && w.abort == NotAborted && PhaseOf(w, lane) == Idle
      then WithPhase(w, lane, Claiming) else w
    case BeginShutdown => if w.maintenance then w else w.(stopping := true, running := false)
    case AbortWorkers => if w.stopping && w.abort == NotAborted then w.(abort := ShutdownAbort) else w
    case TransportFailure => w.(recoverySafe := false, running := false)
    case _ => w
  }

  function StepProc(s: System, p: Proc, a: Action): System {
    match a
    case Crash => s.(proc := None)
    case Submit(caller, op, fits) =>
      if MaySubmit(p, caller, op) then Submitted(s, p, caller, op, fits) else s
    case Persist =>
      if p.store.flight.Some? && !p.store.flight.value.persisted then Persisted(s, p, p.store.flight.value) else s
    case Finish(ok) =>
      if p.store.flight.Some? && (ok ==> p.store.flight.value.persisted)
      then Finished(s, p, p.store.flight.value, ok) else s
    case WorkDone(lane, outcome) =>
      var phase := PhaseOf(p.workers, lane);
      if phase.Working? then WorkedOut(s, p, lane, phase.id, outcome) else s
    case _ => s.(proc := Some(p.(workers := FlagStep(p.workers, a))))
  }

  function Step(s: System, a: Action): System {
    match s.proc
    case Some(p) => StepProc(s, p, a)
    case None => if a.Boot? && Valid(s.disk) then s.(proc := Some(NewProc(s.disk, a.maintenance))) else s
  }

  function Exec(s: System, actions: seq<Action>): System {
    if actions == [] then s else Step(Exec(s, actions[..|actions| - 1]), actions[|actions| - 1])
  }
}
