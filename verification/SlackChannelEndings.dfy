/** How work in the Slack channel ends badly or early: failed work is marked in the file and stops
    the channel, trouble forbids the shutdown requeue for the life of the process, and a safe
    shutdown puts the envelopes it interrupted back where they were. */
module SlackChannelEndings {
  import opened Basics
  import opened SlackInboxState
  import opened SlackInboxLaws
  import opened SlackInboxQueue
  import opened SlackInbox
  import opened SlackChannel
  import opened SlackChannelSafety
  import opened SlackChannelTheorems
  import opened SlackChannelProgress

  // ---------- trouble ----------

  /** A step after which nobody can be sure of what is in flight: work that failed, a transport that
      failed, or an inbox call of the channel that was refused or whose outcome is unknown. */
  predicate Trouble(p: Proc, a: Action) {
    match a
    case WorkDone(lane, outcome) => PhaseOf(p.workers, lane).Working? && outcome == WorkError
    case TransportFailure => true
    case Finish(ok) => !ok && p.store.flight.Some? && p.store.flight.value.caller != Operator
    case Submit(caller, op, fits) =>
      && MaySubmit(p, caller, op) && caller != Operator
      && (p.store.poisoned || SignalAborted(p.workers, caller, op) || Refused(p, op, fits))
    case _ => false
  }

  predicate Refused(p: Proc, op: Op, fits: bool) {
    var c := Transition(p.store.mem, p.store.recoveryBlocked, op);
    c.Refuse? || (c.Write? && !fits)
  }

  predicate Unsafe(s: System) {
    s.proc.Some? && !s.proc.value.workers.recoverySafe
  }

  lemma ErrorIsUnsafe(w: Workers, caller: Caller, op: Op, e: Error)
    requires Calls(w, caller, op) && caller != Operator
    ensures !AfterCall(w, caller, Err(e)).recoverySafe
  {
  }

  lemma TroubleIsUnsafe(s: System, p: Proc, a: Action)
    requires s.proc == Some(p) && Trouble(p, a)
    requires p.store.flight.Some? ==> Calls(p.workers, p.store.flight.value.caller, p.store.flight.value.op)
    ensures Unsafe(Step(s, a))
  {
    hide Transition, AfterCall, Calls, SignalAborted;
    match a {
      case Submit(caller, op, fits) =>
        var c := Transition(p.store.mem, p.store.recoveryBlocked, op);
        forall e ensures !AfterCall(p.workers, caller, Err(e)).recoverySafe { ErrorIsUnsafe(p.workers, caller, op, e); }
      case Finish(ok) => ErrorIsUnsafe(p.workers, p.store.flight.value.caller, p.store.flight.value.op, Poisoned);
      case _ =>
    }
  }

  predicate Requeuing(s: System) {
    s.proc.Some? && s.proc.value.store.flight.Some? && s.proc.value.store.flight.value.op.Requeue?
  }

  /** Nothing has been requeued from `s` to `t`. */
  predicate NothingRequeued(s: System, t: System) {
    s.log <= t.log && forall k :: |s.log| <= k < |t.log| ==> !t.log[k].LogRequeue?
  }

  lemma AnswersStayUnsafe(w: Workers, caller: Caller, r: Outcome)
    requires !w.recoverySafe
    ensures !AfterCall(w, caller, r).recoverySafe
  {
  }

  lemma WorkStaysUnsafe(w: Workers, lane: Lane, id: EnvelopeId, outcome: WorkOutcome)
    requires !w.recoverySafe
    ensures !AfterWork(w, lane, id, outcome).recoverySafe
  {
  }

  lemma UnsafeSubmit(s: System, p: Proc, caller: Caller, op: Op, fits: bool)
    requires s.proc == Some(p) && !p.workers.recoverySafe && MaySubmit(p, caller, op)
    ensures var t := Submitted(s, p, caller, op, fits); Unsafe(t) && !Requeuing(t) && t.log == s.log
  {
    hide Transition, AfterCall, SignalAborted;
    forall r ensures !AfterCall(p.workers, caller, r).recoverySafe { AnswersStayUnsafe(p.workers, caller, r); }
  }

  lemma UnsafeStays(s: System, p: Proc, a: Action)
    requires s.proc == Some(p) && !p.workers.recoverySafe && !Requeuing(s) && a != Crash
    ensures var t := Step(s, a); Unsafe(t) && !Requeuing(t) && NothingRequeued(s, t)
  {
    hide AfterCall, AfterWork, Transition, MaySubmit, Submitted;
    match a {
      case Submit(caller, op, fits) => if MaySubmit(p, caller, op) { UnsafeSubmit(s, p, caller, op, fits); }
      case WorkDone(lane, outcome) =>
        if PhaseOf(p.workers, lane).Working? { WorkStaysUnsafe(p.workers, lane, PhaseOf(p.workers, lane).id, outcome); }
      case Finish(ok) =>
        forall caller, r ensures !AfterCall(p.workers, caller, r).recoverySafe {
          AnswersStayUnsafe(p.workers, caller, r);
        }
      case _ =>
    }
  }

  lemma {:induction false} UnsafeLife(s: System, actions: seq<Action>)
    requires Unsafe(s) && !Requeuing(s) && Crash !in actions
    ensures var t := Exec(s, actions); Unsafe(t) && !Requeuing(t) && NothingRequeued(s, t)
  {
    hide Step;
    if actions != [] {
      var prefix, last := actions[..|actions| - 1], actions[|actions| - 1];
      UnsafeLife(s, prefix);
      UnsafeStays(Exec(s, prefix), Exec(s, prefix).proc.value, last);
    }
  }

  /** After trouble the process puts nothing back for as long as it lives, whatever happens,
      unless the shutdown's requeue is already being written: what may have started stays in
      flight in the file and blocks the next start. */
  lemma TroubleForbidsRequeue(disk: State, before: seq<Action>, a: Action, after: seq<Action>)
    requires Valid(disk) && Crash !in after
    requires var s := Exec(Init(disk), before);
      s.proc.Some? && Trouble(s.proc.value, a) && !Requeuing(Step(s, a))
    ensures var s := Step(Exec(Init(disk), before), a); var t := Exec(s, after);
      Unsafe(t) && NothingRequeued(s, t)
  {
    hide Exec, Step, Valid, Having, DurableInv, CommitInv, FlagsInv, IdsValid, AbortsLogged, OwnedBy, Trouble, Calls;
    RunKeepsInv(disk, before);
    var s := Exec(Init(disk), before);
    TroubleIsUnsafe(s, s.proc.value, a);
    UnsafeLife(Step(s, a), after);
  }

  // ---------- a stopped channel ----------

  /** The channel no longer runs, and the lane rests. */
  predicate Stopped(s: System, lane: Lane) {
    s.proc.Some? && !s.proc.value.workers.running && PhaseOf(s.proc.value.workers, lane) == Idle
  }

  lemma CallsStayStopped(w: Workers, caller: Caller, op: Op, r: Outcome, lane: Lane)
    requires Calls(w, caller, op) && !w.running && PhaseOf(w, lane) == Idle
    ensures !AfterCall(w, caller, r).running && PhaseOf(AfterCall(w, caller, r), lane) == Idle
  {
  }

  lemma StoppedStays(s: System, p: Proc, a: Action, lane: Lane)
    requires s.proc == Some(p) && Stopped(s, lane) && a != Crash
    requires p.store.flight.Some? ==> Calls(p.workers, p.store.flight.value.caller, p.store.flight.value.op)
    ensures Stopped(Step(s, a), lane)
  {
    hide AfterCall, Transition, Calls;
    var w := p.workers;
    match a {
      case Submit(caller, op, fits) =>
        if MaySubmit(p, caller, op) {
          forall r ensures !AfterCall(w, caller, r).running && PhaseOf(AfterCall(w, caller, r), lane) == Idle {
            CallsStayStopped(w, caller, op, r, lane);
          }
        }
      case Finish(ok) =>
        if p.store.flight.Some? {
          var f := p.store.flight.value;
          forall r ensures !AfterCall(w, f.caller, r).running && PhaseOf(AfterCall(w, f.caller, r), lane) == Idle {
            CallsStayStopped(w, f.caller, f.op, r, lane);
          }
        }
      case _ =>
    }
  }

  /** A channel that has stopped running never runs again in this process: a lane that rests
      takes no envelope any more. */
  lemma {:induction false} StoppedForLife(disk: State, before: seq<Action>, after: seq<Action>, lane: Lane)
    requires Valid(disk) && Crash !in after && Stopped(Exec(Init(disk), before), lane)
    ensures Stopped(Exec(Init(disk), before + after), lane)
    decreases |after|
  {
    hide Step, Valid, Having, DurableInv, CommitInv, FlagsInv, IdsValid, AbortsLogged, OwnedBy, Calls;
    if after == [] {
      assert before + after == before;
    } else {
      var prefix, last := after[..|after| - 1], after[|after| - 1];
      assert (before + after)[..|before + after| - 1] == before + prefix;
      RunKeepsInv(disk, before + prefix);
      StoppedForLife(disk, before, prefix, lane);
      var u := Exec(Init(disk), before + prefix);
      StoppedStays(u, u.proc.value, last, lane);
    }
  }

  /** A transport that fails stops the channel. */
  lemma TransportStops(s: System, lane: Lane)
    requires s.proc.Some? && PhaseOf(s.proc.value.workers, lane) == Idle
    ensures Stopped(Step(s, TransportFailure), lane)
  {
  }

  /** After a failure the socket's envelopes and the workers' claims and settlements are turned
      down before they reach the inbox. */
  lemma AbortedIsRefused(s: System, p: Proc, caller: Caller, op: Op, fits: bool)
    requires s.proc == Some(p) && p.workers.abort == FailureAbort && p.store.flight.None?
    requires caller == Socket || (caller in {PrimaryWorker, ControlWorker} && !op.Fail?)
    ensures var t := Step(s, Submit(caller, op, fits));
      t.disk == s.disk && t.acked == s.acked && t.log == s.log && t.proc.Some? && t.proc.value.store == p.store
  {
    hide Transition, AfterCall;
    if MaySubmit(p, caller, op) { assert caller == Socket ==> op.Enqueue?; }
  }

  // ---------- failed work ----------

  /** The entry of `id` is marked failed and all else is as it was. */
  predicate MarksFailed(before: State, after: State, id: EnvelopeId) {
    && after.receipts == before.receipts && |after.entries| == |before.entries|
    && forall i :: 0 <= i < |before.entries| ==>
         var e := before.entries[i];
         after.entries[i] == if e.envelopeId == id then Entry(e.envelopeId, Failed, None, e.event) else e
  }

  lemma FailMarks(s: State, recoveryBlocked: bool, id: EnvelopeId)
    requires Valid(s) && id in Having(s, Processing)
    ensures var c := Transition(s, recoveryBlocked, Fail(id));
      c.Write? && c.reply == Done && MarksFailed(s, c.next, id)
  {
    hide Valid, Having;
    SettlingWrites(s, recoveryBlocked, Fail(id));
    ValidIdsUnique(s);
  }

  /** How the work of a lane can go wrong: the work itself fails, or its settlement is refused. */
  function GoesWrong(lane: Lane, id: EnvelopeId, refused: bool): seq<Action> {
    if refused then [WorkDone(lane, Consumed), Submit(CallerOf(lane), Complete(id), false)]
    else [WorkDone(lane, WorkError)]
  }

  lemma WrongLeadsToFailing(s: System, p: Proc, lane: Lane, id: EnvelopeId, refused: bool)
    requires s.proc == Some(p) && PhaseOf(p.workers, lane) == Working(id) && p.workers.abort == NotAborted
    requires p.store.flight.None? && !p.store.poisoned
    requires Transition(p.store.mem, p.store.recoveryBlocked, Complete(id)).Write?
    ensures var t := Exec(s, GoesWrong(lane, id, refused));
      && t.disk == s.disk && t.proc.Some? && t.proc.value.store == p.store
      && t.proc.value.workers == WithPhase(p.workers, lane, Failing(id)).(recoverySafe := false)
  {
    hide Exec, Transition;
    if refused {
      var a, b := WorkDone(lane, Consumed), Submit(CallerOf(lane), Complete(id), false);
      assert GoesWrong(lane, id, true) == [a] + [b];
      ExecTwo(s, [a], [b]);
      ExecOne(s, a);
      ExecOne(Exec(s, [a]), b);
    } else {
      ExecOne(s, WorkDone(lane, WorkError));
    }
  }

  /** Work that fails, or that cannot be settled, is marked failed in the file; the channel then
      neither takes envelopes nor works on any, and will put nothing back. */
  lemma FailedWorkIsMarked(disk: State, actions: seq<Action>, lane: Lane, refused: bool)
    requires Valid(disk)
    requires var s := Exec(Init(disk), actions);
      s.proc.Some? && Serving(s.proc.value) && PhaseOf(s.proc.value.workers, lane).Working?
    ensures var s := Exec(Init(disk), actions);
      var id := PhaseOf(s.proc.value.workers, lane).id;
      var t := Exec(s, GoesWrong(lane, id, refused) + Call(CallerOf(lane), Fail(id)));
      && MarksFailed(s.disk, t.disk, id) && t.proc.Some?
      && var w := t.proc.value.workers;
        !w.running && !w.recoverySafe && w.abort == FailureAbort && PhaseOf(w, lane) == Idle
  {
    hide Exec, Valid, Having, DurableInv, CommitInv, WorkerInv, Transition, Calls, MarksFailed;
    RunKeepsInv(disk, actions);
    var s := Exec(Init(disk), actions);
    var p := s.proc.value;
    var id := PhaseOf(p.workers, lane).id;
    WorkingIsHeld(s, p, lane, id);
    SettlingWrites(p.store.mem, p.store.recoveryBlocked, Complete(id));
    WrongLeadsToFailing(s, p, lane, id, refused);
    FailMarks(p.store.mem, p.store.recoveryBlocked, id);
    var wrong := GoesWrong(lane, id, refused);
    ExecTwo(s, wrong, Call(CallerOf(lane), Fail(id)));
    var t := Exec(s, wrong);
    MayFail(t.proc.value, lane, id);
    CallSucceeds(t, t.proc.value, CallerOf(lane), Fail(id));
  }

  lemma MayFail(p: Proc, lane: Lane, id: EnvelopeId)
    requires p.store.flight.None? && PhaseOf(p.workers, lane) == Failing(id)
    ensures MaySubmit(p, CallerOf(lane), Fail(id)) && !SignalAborted(p.workers, CallerOf(lane), Fail(id))
  {
  }

  lemma WorkingIsHeld(s: System, p: Proc, lane: Lane, id: EnvelopeId)
    requires CommitInv(s.disk, p.store) && WorkerInv(s.log, p) && PhaseOf(p.workers, lane) == Working(id)
    requires p.store.flight.None? && !p.store.poisoned
    ensures Valid(p.store.mem) && p.store.mem == s.disk && id in Having(p.store.mem, Processing)
  {
    hide Valid, Having, FlagsInv, IdsValid, AbortsLogged, Calls, Transition;
  }

  // ---------- a safe shutdown ----------

  /** A live channel in which nothing has gone wrong, its workers idle or at work on an envelope. */
  predicate Sound(p: Proc) {
    && p.store.flight.None? && !p.store.poisoned && !p.store.recoveryBlocked
    && var w := p.workers;
    && !w.maintenance && w.recoverySafe && w.abort == NotAborted
    && (w.primary == Idle || w.primary.Working?) && (w.control == Idle || w.control.Working?)
  }

  /** The envelopes being worked on. */
  function AtWork(w: Workers): seq<EnvelopeId> {
    (if w.primary.Working? then [w.primary.id] else []) + (if w.control.Working? then [w.control.id] else [])
  }

  /** The grace period ends, the workers are aborted, and what they were doing ends with the abort. */
  const ABORTS: seq<Action> :=
    [BeginShutdown, AbortWorkers] + [WorkDone(Primary, OwnedAbort), WorkDone(Control, OwnedAbort)]

  /** What is in flight in `before` waits in `after`, in its place, and all else is as it was. */
  predicate PutsBack(before: State, after: State) {
    && after.receipts == before.receipts && |after.entries| == |before.entries|
    && forall i :: 0 <= i < |before.entries| ==>
         var e := before.entries[i];
         after.entries[i] == if e.status == Processing then Entry(e.envelopeId, Pending, None, e.event) else e
  }

  function Ended(w: Workers): Workers {
    w.(stopping := true, running := false, abort := ShutdownAbort, primary := Idle, control := Idle,
       abortedIds := Elements(AtWork(w)))
  }

  lemma ExecAborts(s: System)
    ensures Exec(s, ABORTS) == Step(
      Step(Step(Step(s, BeginShutdown), AbortWorkers), WorkDone(Primary, OwnedAbort)), WorkDone(Control, OwnedAbort))
  {
    hide Step, Exec;
    ExecTwo(s, [BeginShutdown, AbortWorkers], [WorkDone(Primary, OwnedAbort), WorkDone(Control, OwnedAbort)]);
    assert [BeginShutdown] + [AbortWorkers] == [BeginShutdown, AbortWorkers];
    ExecTwo(s, [BeginShutdown], [AbortWorkers]);
    ExecOne(s, BeginShutdown);
    ExecOne(Exec(s, [BeginShutdown]), AbortWorkers);
    var t := Exec(s, [BeginShutdown, AbortWorkers]);
    assert [WorkDone(Primary, OwnedAbort)] + [WorkDone(Control, OwnedAbort)]
      == [WorkDone(Primary, OwnedAbort), WorkDone(Control, OwnedAbort)];
    ExecTwo(t, [WorkDone(Primary, OwnedAbort)], [WorkDone(Control, OwnedAbort)]);
    ExecOne(t, WorkDone(Primary, OwnedAbort));
    ExecOne(Exec(t, [WorkDone(Primary, OwnedAbort)]), WorkDone(Control, OwnedAbort));
  }

  lemma FewElements(a: EnvelopeId, b: EnvelopeId)
    ensures Elements<EnvelopeId>([]) == {} && Elements([a]) == {a} && Elements([a, b]) == {a, b}
    ensures |Elements([a])| == 1 && (a != b ==> |Elements([a, b])| == 2)
  {
  }

  lemma AtWorkIds(w: Workers)
    requires (w.primary == Idle || w.primary.Working?) && (w.control == Idle || w.control.Working?)
    ensures Elements(AtWork(w)) == PhaseIds(w.primary) + PhaseIds(w.control)
    ensures PhaseIds(w.primary) !! PhaseIds(w.control) ==> |Elements(AtWork(w))| == |AtWork(w)|
  {
    hide Elements;
    if w.primary.Working? && w.control.Working? {
      FewElements(w.primary.id, w.control.id);
      assert [w.primary.id] + [w.control.id] == [w.primary.id, w.control.id];
      assert {w.primary.id, w.control.id} == {w.primary.id} + {w.control.id};
    } else if w.primary.Working? {
      FewElements(w.primary.id, w.primary.id);
      assert [w.primary.id] + [] == [w.primary.id];
    } else if w.control.Working? {
      FewElements(w.control.id, w.control.id);
      assert [] + [w.control.id] == [w.control.id];
    } else {
      FewElements(EnvelopeId(""), EnvelopeId(""));
      assert AtWork(w) == [];
    }
  }

  lemma AbortOne(s: System, p: Proc, lane: Lane)
    requires s.proc == Some(p) && p.workers.abort == ShutdownAbort
    requires PhaseOf(p.workers, lane) == Idle || PhaseOf(p.workers, lane).Working?
    ensures var phase := PhaseOf(p.workers, lane);
      Step(s, WorkDone(lane, OwnedAbort)) == s.(
        proc := Some(p.(workers := WithPhase(p.workers, lane, Idle).(
          abortedIds := p.workers.abortedIds + PhaseIds(phase)))),
        log := s.log + if phase.Working? then [LogWork(phase.id, OwnedAbort)] else [])
  {
    if PhaseOf(p.workers, lane) == Idle {
      assert WithPhase(p.workers, lane, Idle) == p.workers && s.log + [] == s.log;
      assert p.workers.abortedIds + {} == p.workers.abortedIds;
    }
  }

  lemma FlagsEnd(s: System, p: Proc)
    requires s.proc == Some(p) && Sound(p)
    ensures Step(Step(s, BeginShutdown), AbortWorkers)
      == s.(proc := Some(p.(workers := p.workers.(stopping := true, running := false, abort := ShutdownAbort))))
  {
  }

  lemma AbortsEnd(s: System, p: Proc)
    requires s.proc == Some(p) && Sound(p) && p.workers.abortedIds == {}
    ensures var t := Exec(s, ABORTS);
      && t.disk == s.disk && t.proc == Some(Proc(p.store, Ended(p.workers)))
      && t.log == s.log + Aborted(AtWork(p.workers))
  {
    hide Exec, Step, Elements;
    ExecAborts(s);
    FlagsEnd(s, p);
    var w := p.workers;
    var s1 := s.(proc := Some(p.(workers := w.(stopping := true, running := false, abort := ShutdownAbort))));
    AbortOne(s1, s1.proc.value, Primary);
    var s2 := Step(s1, WorkDone(Primary, OwnedAbort));
    AbortOne(s2, s2.proc.value, Control);
    AtWorkIds(w);
    assert {} + PhaseIds(w.primary) + PhaseIds(w.control) == PhaseIds(w.primary) + PhaseIds(w.control);
    AbortedLog(s.log, w);
  }

  lemma AbortedLog(log: seq<LogEvent>, w: Workers)
    ensures log + (if w.primary.Working? then [LogWork(w.primary.id, OwnedAbort)] else [])
      + (if w.control.Working? then [LogWork(w.control.id, OwnedAbort)] else []) == log + Aborted(AtWork(w))
  {
    var a := if w.primary.Working? then [LogWork(w.primary.id, OwnedAbort)] else [];
    var b := if w.control.Working? then [LogWork(w.control.id, OwnedAbort)] else [];
    assert a + b == Aborted(AtWork(w));
    assert log + a + b == log + (a + b);
  }

  function Aborted(ids: seq<EnvelopeId>): seq<LogEvent> {
    seq(|ids|, i requires 0 <= i < |ids| => LogWork(ids[i], OwnedAbort))
  }

  lemma RequeuePutsBack(s: State, ids: seq<EnvelopeId>)
    requires Having(s, Processing) <= Elements(ids) && Having(s, Processing) != {}
    requires |ids| <= 2 && Distinct(ids) && forall id <- ids :: ValidEnvelopeId(id)
    ensures var c := Transition(s, false, Requeue(ids));
      c.Write? && PutsBack(s, c.next) && Having(s, Processing) == Requeues(s, ids)
  {
    hide ValidEnvelopeId, Distinct, Having;
    RequeuesAll(s, ids);
    RequeueAccepted(s, false, ids);
    forall i | 0 <= i < |s.entries| && s.entries[i].status == Processing ensures s.entries[i].envelopeId in ids {
      HavingFrom(s, Processing, i);
    }
  }

  lemma AtWorkInFlight(s: System, p: Proc)
    requires CommitInv(s.disk, p.store) && WorkerInv(s.log, p) && Sound(p)
    ensures p.workers.abortedIds == {} && p.store.mem == s.disk
    ensures |Elements(AtWork(p.workers))| == |AtWork(p.workers)|
    ensures Having(s.disk, Processing) == Elements(AtWork(p.workers))
  {
    hide Valid, Having, IdsValid, AbortsLogged, Transition;
    AtWorkIds(p.workers);
  }

  /** A shutdown of a sound channel puts the envelopes it interrupts back where they were: they
      wait again, in their old places and with their events, and nothing else in the file has
      changed. */
  lemma ShutdownPutsBack(disk: State, actions: seq<Action>)
    requires Valid(disk)
    requires var s := Exec(Init(disk), actions);
      s.proc.Some? && Sound(s.proc.value) && AtWork(s.proc.value.workers) != []
    ensures var s := Exec(Init(disk), actions);
      var ids := AtWork(s.proc.value.workers);
      var t := Exec(s, ABORTS + Call(ShutdownRoutine, Requeue(ids)));
      && PutsBack(s.disk, t.disk)
      && t.log == s.log + Aborted(ids) + [LogRequeue(Elements(ids))]
      && t.proc.Some? && t.proc.value.workers == Ended(s.proc.value.workers)
  {
    hide Exec, Valid, Having, DurableInv, CommitInv, WorkerInv, Transition, Sound, PutsBack, Requeues, Aborted,
      Distinct, ValidEnvelopeId;
    RunKeepsInv(disk, actions);
    var s := Exec(Init(disk), actions);
    var p, ids := s.proc.value, AtWork(s.proc.value.workers);
    AtWorkInFlight(s, p);
    AbortsEnd(s, p);
    ExecTwo(Init(disk), actions, ABORTS);
    RunKeepsInv(disk, actions + ABORTS);
    var t := Exec(s, ABORTS);
    var q := t.proc.value;
    MayRequeue(p, ids);
    ShutdownOwnsAll(t.log, q, ids);
    assert ids[0] in Elements(ids);
    RequeuePutsBack(s.disk, ids);
    CallSucceeds(t, q, ShutdownRoutine, Requeue(ids));
    ExecTwo(s, ABORTS, Call(ShutdownRoutine, Requeue(ids)));
    RequeueAnswers(q.workers, s.disk, ids);
  }

  lemma MayRequeue(p: Proc, ids: seq<EnvelopeId>)
    requires Sound(p) && ids == AtWork(p.workers) && ids != [] && |Elements(ids)| == |ids|
    ensures var q := Proc(p.store, Ended(p.workers));
      && MaySubmit(q, ShutdownRoutine, Requeue(ids)) && !SignalAborted(q.workers, ShutdownRoutine, Requeue(ids))
      && !q.store.poisoned && !q.store.recoveryBlocked
  {
    assert ids[0] in Elements(ids);
  }

  lemma RequeueAnswers(w: Workers, mem: State, ids: seq<EnvelopeId>)
    ensures forall reply :: AfterCall(w, ShutdownRoutine, Ok(reply)) == w
    ensures forall reply :: LogOf(mem, ShutdownRoutine, Requeue(ids), reply) == [LogRequeue(Requeues(mem, ids))]
  {
    hide Requeues;
  }

  // ---------- the operator ----------

  /** What a crash left in flight the operator can put back, one envelope at a time: opened for
      maintenance, the file gets the envelope back where it was. */
  lemma OperatorPutsBack(disk: State, actions: seq<Action>, id: EnvelopeId)
    requires Valid(disk)
    requires var s := Exec(Init(disk), actions); s.proc.None? && id in Having(s.disk, Processing)
    ensures var s := Exec(Init(disk), actions);
      var t := Exec(s, [Boot(true)] + Call(Operator, Release(id)));
      && t.disk.receipts == s.disk.receipts && |t.disk.entries| == |s.disk.entries|
      && (forall i :: 0 <= i < |s.disk.entries| ==>
          var e := s.disk.entries[i];
          t.disk.entries[i] == if e.envelopeId == id then Entry(e.envelopeId, Pending, None, e.event) else e)
      && t.log == s.log + [LogRelease(id, true)]
  {
    hide Exec, Valid, Having, DurableInv, Transition;
    RunKeepsInv(disk, actions);
    var s := Exec(Init(disk), actions);
    assert Valid(s.disk) by { DurableValid(disk.receipts, s); }
    ExecTwo(s, [Boot(true)], Call(Operator, Release(id)));
    ExecOne(s, Boot(true));
    var t := Step(s, Boot(true));
    ReleasePutsBack(s.disk, OpensBlocked(s.disk), id);
    CallSucceeds(t, t.proc.value, Operator, Release(id));
  }

  lemma ReleasePutsBack(s: State, recoveryBlocked: bool, id: EnvelopeId)
    requires Valid(s) && id in Having(s, Processing)
    ensures var c := Transition(s, recoveryBlocked, Release(id));
      && c.Write? && c.next.receipts == s.receipts && |c.next.entries| == |s.entries|
      && forall i :: 0 <= i < |s.entries| ==>
           var e := s.entries[i];
           c.next.entries[i] == if e.envelopeId == id then Entry(e.envelopeId, Pending, None, e.event) else e
  {
    hide Valid, Having;
    SettlingWrites(s, recoveryBlocked, Release(id));
    ValidIdsUnique(s);
  }
}
