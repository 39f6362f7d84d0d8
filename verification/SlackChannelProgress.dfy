/** What the Slack channel gets done: an admitted envelope is appended, the oldest one can always be
    claimed, worked on and completed, and a declined one goes back to its place. */
module SlackChannelProgress {
  import opened Basics
  import opened SlackInboxState
  import opened SlackInboxLaws
  import opened SlackInboxQueue
  import opened SlackInbox
  import opened SlackChannel
  import opened SlackChannelSafety
  import opened SlackChannelQueue
  import opened SlackChannelTheorems

  /** A started channel that nothing has stopped, with no call in progress. */
  predicate Serving(p: Proc) {
    && p.store.flight.None? && !p.store.poisoned && !p.store.recoveryBlocked
    && var w := p.workers;
    && !w.maintenance && w.running && !w.stopping && w.abort == NotAborted && w.recoverySafe
  }

  function CallerOf(lane: Lane): Caller {
    if lane == Control then ControlWorker else PrimaryWorker
  }

  /** A call that writes, and whose commit succeeds, in three steps. */
  function Call(caller: Caller, op: Op): seq<Action> {
    [Submit(caller, op, true), Persist, Finish(true)]
  }

  /** What such a call leaves. */
  function Called(s: System, p: Proc, caller: Caller, op: Op, next: State, reply: Reply): System {
    System(
      next, Some(Proc(p.store.(mem := next), AfterCall(p.workers, caller, Ok(reply)))),
      if op.Complete? then s.completions + [op.id] else s.completions,
      if op.Enqueue? then s.acked + {op.event.envelopeId} else s.acked,
      s.log + LogOf(p.store.mem, caller, op, reply))
  }

  lemma ExecTwo(s: System, a: seq<Action>, b: seq<Action>)
    ensures Exec(s, a + b) == Exec(Exec(s, a), b)
    decreases |b|
  {
    hide Step;
    if b == [] {
      assert a + b == a;
    } else {
      assert (a + b)[..|a + b| - 1] == a + b[..|b| - 1];
      ExecTwo(s, a, b[..|b| - 1]);
    }
  }

  lemma ExecOne(s: System, a: Action)
    ensures Exec(s, [a]) == Step(s, a)
  {
    hide Step;
    assert Exec(s, []) == s;
    assert [a][..0] == [];
  }

  lemma ExecThree(s: System, a: Action, b: Action, c: Action)
    ensures Exec(s, [a, b, c]) == Step(Step(Step(s, a), b), c)
  {
    hide Step, Exec;
    ExecTwo(s, [a], [b]);
    ExecTwo(s, [a] + [b], [c]);
    assert [a] + [b] + [c] == [a, b, c];
    ExecOne(s, a);
    ExecOne(Exec(s, [a]), b);
    ExecOne(Exec(s, [a] + [b]), c);
  }

  lemma CallSucceeds(s: System, p: Proc, caller: Caller, op: Op)
    requires s.proc == Some(p) && MaySubmit(p, caller, op) && !p.store.poisoned && !SignalAborted(p.workers, caller, op)
    requires Transition(p.store.mem, p.store.recoveryBlocked, op).Write?
    ensures var c := Transition(p.store.mem, p.store.recoveryBlocked, op);
      Exec(s, Call(caller, op)) == Called(s, p, caller, op, c.next, c.reply)
  {
    hide Transition, AfterCall, Calls, Exec, LogOf, Step;
    var c := Transition(p.store.mem, p.store.recoveryBlocked, op);
    ExecThree(s, Submit(caller, op, true), Persist, Finish(true));
    SubmitFlies(s, caller, op);
    var f := Flight(caller, op, c.next, c.reply, false);
    PersistsTo(Step(s, Submit(caller, op, true)), f);
    var flying := Step(s, Submit(caller, op, true));
    FinishesTo(Persisted(flying, flying.proc.value, f), f.(persisted := true));
  }

  lemma PersistsTo(s: System, f: Flight)
    requires s.proc.Some? && s.proc.value.store.flight == Some(f) && !f.persisted
    ensures Step(s, Persist) == Persisted(s, s.proc.value, f)
  {
    hide Persisted;
  }

  lemma FinishesTo(s: System, f: Flight)
    requires s.proc.Some? && s.proc.value.store.flight == Some(f) && f.persisted
    ensures Step(s, Finish(true)) == Finished(s, s.proc.value, f, true)
  {
    hide Finished;
  }

  /** An event with a new id is appended to the file and then acknowledged. */
  lemma EnvelopeIsAdmitted(disk: State, actions: seq<Action>, event: Event)
    requires Valid(disk)
    requires var s := Exec(Init(disk), actions);
      && s.proc.Some? && Serving(s.proc.value) && ValidEnvelopeId(event.envelopeId)
      && event.envelopeId !in Known(s.disk) && event.envelopeId !in s.disk.receipts
      && Having(s.disk, Failed) == {} && |s.disk.entries| < 256
    ensures var s, t := Exec(Init(disk), actions), Exec(Init(disk), actions + Call(Socket, Enqueue(event)));
      && t.disk == State(s.disk.entries + [Entry(event.envelopeId, Pending, None, event)], s.disk.receipts)
      && event.envelopeId in t.acked && t.log == s.log + [LogEnqueue(event)]
  {
    hide Exec, Valid, Known, Having, WorkerInv, DurableInv, AfterCall;
    RunKeepsInv(disk, actions);
    var s := Exec(Init(disk), actions);
    EnqueueExactly(s.disk, false, event);
    CallSucceeds(s, s.proc.value, Socket, Enqueue(event));
    ExecTwo(Init(disk), actions, Call(Socket, Enqueue(event)));
  }

  // ---------- the oldest envelope is served ----------

  function LaneFor(e: Entry, eligible: set<EnvelopeId>): Lane {
    if e.envelopeId in eligible then Control else Primary
  }

  /** The worker of a lane claims, works, and settles. */
  function Serve(lane: Lane, eligible: set<EnvelopeId>, id: EnvelopeId, outcome: WorkOutcome): seq<Action> {
    ([StartWorker(lane)] + Call(CallerOf(lane), Claim(lane, eligible))) +
    ([WorkDone(lane, outcome)] + Call(CallerOf(lane), if outcome == Consumed then Complete(id) else Release(id)))
  }

  predicate Rested(p: Proc) {
    Serving(p) && p.workers.primary == p.workers.control == Idle
  }

  lemma NothingInFlight(log: seq<LogEvent>, p: Proc)
    requires WorkerInv(log, p) && Rested(p)
    ensures Having(p.store.mem, Processing) == {}
  {
    hide Having, FlagsInv, IdsValid, AbortsLogged;
    assert p.workers.abortedIds == {} by { NoAborts(p.workers); }
  }

  lemma NoAborts(w: Workers)
    requires FlagsInv(w) && !w.stopping
    ensures w.abortedIds == {}
  {
  }

  lemma HeadIsNext(s: State, eligible: set<EnvelopeId>)
    requires Valid(s) && s.entries != [] && Having(s, Failed) == {} && Having(s, Processing) == {}
    ensures var lane := LaneFor(s.entries[0], eligible);
      Transition(s, false, Claim(lane, eligible)) == Taking(s, lane, 0)
  {
    hide Transition, Having, Valid;
    var lane := LaneFor(s.entries[0], eligible);
    HasIffHaving(s);
    assert s.entries[0].status == Pending;
    assert forall i: nat :: !InFlight(s, i);
    assert NextFor(s, lane, eligible, 0);
    ClaimExactly(s, false, lane, eligible);
    forall i: nat | NextFor(s, lane, eligible, i) ensures i == 0 {
      NextIsIndex(s, lane, eligible, i);
      NextIsIndex(s, lane, eligible, 0);
    }
  }

  /** The lane starts and claims the head. */
  lemma HeadIsClaimed(s: System, p: Proc, eligible: set<EnvelopeId>)
    requires s.proc == Some(p) && Rested(p) && Valid(p.store.mem) && p.store.mem.entries != []
    requires Having(p.store.mem, Failed) == {} && Having(p.store.mem, Processing) == {}
    ensures var mem := p.store.mem;
      var head := mem.entries[0]; var lane := LaneFor(head, eligible);
      var t := Exec(s, [StartWorker(lane)] + Call(CallerOf(lane), Claim(lane, eligible)));
      && t.disk == Taking(mem, lane, 0).next
      && t.proc == Some(Proc(p.store.(mem := t.disk), WithPhase(p.workers, lane, Working(head.envelopeId))))
      && t.log == s.log + [LogClaim(lane, head.event)]
      && t.completions == s.completions
  {
    hide Exec, Valid, Having, Transition;
    var mem := p.store.mem;
    var head := mem.entries[0];
    var lane := LaneFor(head, eligible);
    HeadIsNext(mem, eligible);
    assert head.event.envelopeId == head.envelopeId by { EntryIsValid(mem, 0); }
    ExecTwo(s, [StartWorker(lane)], Call(CallerOf(lane), Claim(lane, eligible)));
    ExecOne(s, StartWorker(lane));
    var q := p.(workers := WithPhase(p.workers, lane, Claiming));
    CallSucceeds(Step(s, StartWorker(lane)), q, CallerOf(lane), Claim(lane, eligible));
  }

  /** The file without its first entry, whose id is now the last receipt. */
  function HeadDone(s: State): State
    requires s.entries != []
  {
    State(s.entries[1..], LastN(s.receipts + [s.entries[0].envelopeId], MAX_RECEIPTS))
  }

  /** Completing what was claimed at the head takes it out; releasing it restores the file. */
  lemma HeadIsSettled(s: State, lane: Lane, op: Op)
    requires Valid(s) && s.entries != [] && s.entries[0].status == Pending
    requires var id := s.entries[0].envelopeId; op == Complete(id) || op == Release(id)
    requires Valid(Taking(s, lane, 0).next)
    ensures Transition(Taking(s, lane, 0).next, false, op) == Write(if op.Complete? then HeadDone(s) else s, Done)
  {
    hide Having, Valid, LastN, IndexOf, ValidEnvelopeId, Without;
    var t := Taking(s, lane, 0).next;
    IndexOfUnique(t, op.id, 0);
    EntryIsValid(t, 0);
    EntryIsValid(s, 0);
    ValidIdsUnique(t);
    if op.Complete? {
      WithoutAbsent(t.receipts, op.id);
      assert t.entries[..0] + t.entries[1..] == s.entries[1..];
    } else {
      assert t.entries[0 := ToPending(t.entries[0])] == s.entries;
    }
  }

  lemma HeadIsWorked(s: System, p: Proc, mem: State, lane: Lane, outcome: WorkOutcome)
    requires s.proc == Some(p) && Serving(p) && Valid(mem) && mem.entries != [] && mem.entries[0].status == Pending
    requires PhaseOf(p.workers, lane) == Working(mem.entries[0].envelopeId)
    requires outcome == Consumed || (outcome == NotConsumed && lane == Control)
    requires p.store.mem == Taking(mem, lane, 0).next && Valid(p.store.mem)
    ensures var id := mem.entries[0].envelopeId; var op := if outcome == Consumed then Complete(id) else Release(id);
      var t := Exec(s, [WorkDone(lane, outcome)] + Call(CallerOf(lane), op));
      && t.disk == (if outcome == Consumed then HeadDone(mem) else mem)
      && t.log == s.log + [LogWork(id, outcome), if outcome == Consumed then LogComplete(id) else LogRelease(id, false)]
      && t.proc == Some(Proc(
           p.store.(mem := t.disk),
           WithPhase(p.workers, lane, if lane == Primary then Claiming else Idle)))
  {
    hide Exec, Valid, Having, Transition, HeadDone;
    var id := mem.entries[0].envelopeId;
    var op := if outcome == Consumed then Complete(id) else Release(id);
    ExecTwo(s, [WorkDone(lane, outcome)], Call(CallerOf(lane), op));
    ExecOne(s, WorkDone(lane, outcome));
    HeadIsSettled(mem, lane, op);
    var q := p.(workers := WithPhase(p.workers, lane, Settling(id, outcome == NotConsumed)));
    CallSucceeds(Step(s, WorkDone(lane, outcome)), q, CallerOf(lane), op);
  }

  /** In a serving channel at rest the oldest envelope can be served whatever is control-eligible: the
      lane it is for claims it, and when its work ends consumed it leaves the file with a receipt;
      when the control lane declines it, the file is what it was. */
  lemma OldestIsServed(disk: State, actions: seq<Action>, eligible: set<EnvelopeId>, outcome: WorkOutcome)
    requires Valid(disk)
    requires var s := Exec(Init(disk), actions);
      && s.proc.Some? && Rested(s.proc.value) && s.disk.entries != [] && Having(s.disk, Failed) == {}
      && (outcome == Consumed ||
          (outcome == NotConsumed && LaneFor(s.disk.entries[0], eligible) == Control))
    ensures var s := Exec(Init(disk), actions); var head := s.disk.entries[0]; var lane := LaneFor(head, eligible);
      var t := Exec(s, Serve(lane, eligible, head.envelopeId, outcome));
      && t.disk == (if outcome == Consumed then HeadDone(s.disk) else s.disk)
      && t.log == s.log + [LogClaim(lane, head.event), LogWork(head.envelopeId, outcome),
           if outcome == Consumed then LogComplete(head.envelopeId) else LogRelease(head.envelopeId, false)]
      && t.proc.Some? && Serving(t.proc.value)
  {
    hide Exec, Valid, Having, DurableInv, WorkerInv, HeadDone, Transition;
    RunKeepsInv(disk, actions);
    var s := Exec(Init(disk), actions);
    var p, head := s.proc.value, s.disk.entries[0];
    var lane := LaneFor(head, eligible);
    NothingInFlight(s.log, p);
    HeadIsClaimed(s, p, eligible);
    var claim := [StartWorker(lane)] + Call(CallerOf(lane), Claim(lane, eligible));
    var u := Exec(s, claim);
    HeadIsNext(s.disk, eligible);
    TransitionKeepsValid(s.disk, false, Claim(lane, eligible));
    HeadPending(s.disk);
    HeadIsWorked(u, u.proc.value, s.disk, lane, outcome);
    ExecTwo(s, claim, [WorkDone(lane, outcome)] + Call(CallerOf(lane),
      if outcome == Consumed then Complete(head.envelopeId) else Release(head.envelopeId)));
  }

  lemma HeadPending(s: State)
    requires s.entries != [] && Having(s, Failed) == {} && Having(s, Processing) == {}
    ensures s.entries[0].status == Pending
  {
    HasIffHaving(s);
  }

  /** A process booted on a file without failed or unfinished work serves it. */
  lemma BootServes(disk: State, actions: seq<Action>)
    requires Valid(disk)
    requires var s := Exec(Init(disk), actions);
      s.proc.None? && Having(s.disk, Failed) == {} && Having(s.disk, Processing) == {}
    ensures var s, t := Exec(Init(disk), actions), Exec(Init(disk), actions + [Boot(false)]);
      t.proc.Some? && Rested(t.proc.value) && t.disk == s.disk && t.log == s.log
  {
    hide Exec, Valid, Having, DurableInv;
    RunKeepsInv(disk, actions);
    var s := Exec(Init(disk), actions);
    assert Valid(s.disk) by { DurableValid(disk.receipts, s); }
    ExecTwo(Init(disk), actions, [Boot(false)]);
    ExecOne(s, Boot(false));
    HasIffHaving(s.disk);
  }

  lemma DurableValid(base: seq<EnvelopeId>, s: System)
    requires DurableInv(base, s)
    ensures Valid(s.disk)
  {
    hide Valid, Having, OpenClaim, AllJustified;
  }
}
