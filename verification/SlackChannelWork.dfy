/** How the work on an envelope decides what becomes of it: only what was consumed is completed, and
    only what the control lane declined is released by a worker. */
module SlackChannelWork {
  import opened Basics
  import opened SlackInboxState
  import opened SlackInboxLaws
  import SlackInbox
  import opened SlackChannel
  import opened SlackChannelSafety
  import opened SlackChannelTheorems

  function Ending(release: bool): WorkOutcome {
    if release then NotConsumed else Consumed
  }

  /** Before this event the work on its envelope had ended as the event needs it. */
  predicate Earned(before: seq<LogEvent>, e: LogEvent) {
    match e
    case LogComplete(id) => EndedSinceClaim(before, id, Consumed)
    case LogRelease(id, byOperator) => byOperator || EndedSinceClaim(before, id, NotConsumed)
    case _ => true
  }

  predicate AllEarned(log: seq<LogEvent>) {
    forall k :: 0 <= k < |log| ==> Earned(log[..k], log[k])
  }

  predicate SettlesItsWork(log: seq<LogEvent>, phase: Phase) {
    phase.Settling? ==> EndedSinceClaim(log, phase.id, Ending(phase.release))
  }

  predicate WorkersEarn(log: seq<LogEvent>, w: Workers) {
    SettlesItsWork(log, w.primary) && SettlesItsWork(log, w.control)
  }

  predicate WorkInv(s: System) {
    AllEarned(s.log) && (s.proc.Some? ==> WorkersEarn(s.log, s.proc.value.workers))
  }

  lemma EarnedSnoc(log: seq<LogEvent>, e: LogEvent)
    requires AllEarned(log) && Earned(log, e)
    ensures AllEarned(log + [e])
  {
    hide Earned;
    var all := log + [e];
    forall k | 0 <= k < |all| ensures Earned(all[..k], all[k]) {
      assert k < |log| ==> all[..k] == log[..k];
      assert k == |log| ==> all[..k] == log;
    }
  }

  lemma EndedStays(log: seq<LogEvent>, e: LogEvent, id: EnvelopeId, outcome: WorkOutcome)
    requires EndedSinceClaim(log, id, outcome) && !Claims(e, id)
    ensures EndedSinceClaim(log + [e], id, outcome)
  {
    assert (log + [e])[..|log|] == log;
  }

  /** A claim takes an envelope that no worker is busy with. */
  lemma ClaimSparesWorkers(log: seq<LogEvent>, p: Proc, f: Flight, id: EnvelopeId)
    requires Valid(p.store.mem) && WorkerInv(log, p) && !p.store.poisoned
    requires Transition(p.store.mem, p.store.recoveryBlocked, f.op) == Write(f.next, f.reply) && f.op.Claim?
    requires id in PhaseIds(p.workers.primary) + PhaseIds(p.workers.control)
    ensures f.reply.Claimed? && f.reply.event.envelopeId != id
  {
    hide Transition, Valid, Having, FlagsInv, IdsValid, AbortsLogged, Calls;
    TransitionEffect(p.store.mem, p.store.recoveryBlocked, f.op);
    ValidIdsUnique(p.store.mem);
  }

  lemma CommitIsEarned(log: seq<LogEvent>, p: Proc, f: Flight)
    requires WorkersEarn(log, p.workers) && Calls(p.workers, f.caller, f.op)
    ensures forall e :: e in LogOf(p.store.mem, f.caller, f.op, f.reply) ==> Earned(log, e)
  {
    hide EndedSinceClaim;
  }

  lemma CommitKeepsEnded(log: seq<LogEvent>, p: Proc, f: Flight, phase: Phase)
    requires Valid(p.store.mem) && WorkerInv(log, p) && !p.store.poisoned
    requires Transition(p.store.mem, p.store.recoveryBlocked, f.op) == Write(f.next, f.reply)
    requires SettlesItsWork(log, phase) && (phase == p.workers.primary || phase == p.workers.control)
    ensures SettlesItsWork(log + LogOf(p.store.mem, f.caller, f.op, f.reply), phase)
  {
    hide Transition, Valid, EndedSinceClaim, WorkerInv, Having;
    var events := LogOf(p.store.mem, f.caller, f.op, f.reply);
    if events == [] {
      assert log + events == log;
    } else if phase.Settling? {
      assert events == [events[0]];
      if f.op.Claim? { ClaimSparesWorkers(log, p, f, phase.id); }
      EndedStays(log, events[0], phase.id, Ending(phase.release));
    }
  }

  lemma PersistKeepsWork(base: seq<EnvelopeId>, s: System, p: Proc, f: Flight)
    requires Inv(base, s) && WorkInv(s) && s.proc == Some(p)
    requires p.store.flight == Some(f) && !f.persisted
    ensures WorkInv(Persisted(s, p, f))
  {
    hide Valid, Transition, DurableInv, Earned, SettlesItsWork, AllEarned, Having, OwnedBy;
    var events := LogOf(p.store.mem, f.caller, f.op, f.reply);
    CommitIsEarned(s.log, p, f);
    CommitKeepsEnded(s.log, p, f, p.workers.primary);
    CommitKeepsEnded(s.log, p, f, p.workers.control);
    if events == [] {
      assert s.log + events == s.log;
    } else {
      assert events == [events[0]] && events[0] in events;
      EarnedSnoc(s.log, events[0]);
    }
  }

  lemma WorkKeepsWork(s: System, p: Proc, lane: Lane, id: EnvelopeId, outcome: WorkOutcome)
    requires WorkInv(s) && s.proc == Some(p) && PhaseOf(p.workers, lane) == Working(id)
    ensures WorkInv(WorkedOut(s, p, lane, id, outcome))
  {
    hide AllEarned;
    var e := LogWork(id, outcome);
    EarnedSnoc(s.log, e);
    assert (s.log + [e])[..|s.log|] == s.log;
  }

  lemma AnswerKeepsWork(s: System, p: Proc, caller: Caller, op: Op, r: SlackInbox.Outcome)
    requires WorkInv(s) && WorkersEarn(s.log, p.workers)
    ensures WorkInv(Answer(s, p, caller, op, r))
  {
    hide EndedSinceClaim, AllEarned;
  }

  lemma FlagsKeepWork(log: seq<LogEvent>, w: Workers, a: Action)
    requires WorkersEarn(log, w)
    ensures WorkersEarn(log, FlagStep(w, a))
  {
    hide EndedSinceClaim;
  }

  lemma StepKeepsWork(base: seq<EnvelopeId>, s: System, a: Action)
    requires Inv(base, s) && WorkInv(s)
    ensures WorkInv(Step(s, a))
  {
    hide Inv, Persisted, WorkedOut, Transition, Answer, SignalAborted, AllEarned, Valid, FlagStep, Calls,
      SettlesItsWork;
    match s.proc {
      case None => IdleEarns(s.log, s.disk, a.Boot? && a.maintenance);
      case Some(p) =>
        match a {
          case Submit(caller, op, fits) => SubmitKeepsWork(s, p, caller, op, fits);
          case Persist =>
            if p.store.flight.Some? && !p.store.flight.value.persisted {
              PersistKeepsWork(base, s, p, p.store.flight.value);
            }
          case Finish(ok) =>
            if p.store.flight.Some? { FinishKeepsWork(s, p, p.store.flight.value, ok); }
          case WorkDone(lane, outcome) =>
            if PhaseOf(p.workers, lane).Working? {
              WorkKeepsWork(s, p, lane, PhaseOf(p.workers, lane).id, outcome);
            }
          case _ => FlagsKeepWork(s.log, p.workers, a);
        }
    }
  }

  lemma IdleEarns(log: seq<LogEvent>, disk: State, maintenance: bool)
    ensures WorkersEarn(log, NewProc(disk, maintenance).workers)
  {
  }

  lemma SubmitKeepsWork(s: System, p: Proc, caller: Caller, op: Op, fits: bool)
    requires WorkInv(s) && s.proc == Some(p)
    ensures WorkInv(Submitted(s, p, caller, op, fits))
  {
    hide Transition, Answer, SignalAborted, AllEarned, SettlesItsWork;
    forall r { AnswerKeepsWork(s, p, caller, op, r); }
  }

  lemma FinishKeepsWork(s: System, p: Proc, f: Flight, ok: bool)
    requires WorkInv(s) && s.proc == Some(p)
    ensures WorkInv(Finished(s, p, f, ok))
  {
    hide Answer, AllEarned, SettlesItsWork;
    forall q: Proc, r | q.workers == p.workers ensures WorkInv(Answer(s, q, f.caller, f.op, r)) {
      AnswerKeepsWork(s, q, f.caller, f.op, r);
    }
  }

  lemma {:induction false} RunKeepsWork(disk: State, actions: seq<Action>)
    requires Valid(disk)
    ensures WorkInv(Exec(Init(disk), actions))
  {
    hide Valid, Inv, Step, AllEarned;
    if actions == [] {
      assert AllEarned([]) by { NothingEarned(); }
    } else {
      var before := actions[..|actions| - 1];
      RunKeepsInv(disk, before);
      RunKeepsWork(disk, before);
      StepKeepsWork(disk.receipts, Exec(Init(disk), before), actions[|actions| - 1]);
    }
  }

  lemma NothingEarned()
    ensures AllEarned([])
  {
  }

  predicate Settles(e: LogEvent, id: EnvelopeId) {
    e == LogComplete(id) || e == LogRelease(id, false)
  }

  function EndOf(e: LogEvent): WorkOutcome {
    if e.LogComplete? then Consumed else NotConsumed
  }

  /** In every run an envelope is completed only after its work ended consumed, and released by a
      worker only after the control lane declined it, each time since its last claim. */
  lemma SettledAsWorked(disk: State, actions: seq<Action>, k: nat, id: EnvelopeId)
    requires Valid(disk)
    requires var log := Exec(Init(disk), actions).log; k < |log| && Settles(log[k], id)
    ensures var log := Exec(Init(disk), actions).log;
      exists i :: 0 <= i < k && EndedAt(log[..k], i, id, EndOf(log[k]))
  {
    hide Exec, EndedAt;
    RunKeepsWork(disk, actions);
    var log := Exec(Init(disk), actions).log;
    assert Earned(log[..k], log[k]);
    EndBefore(log[..k], id, EndOf(log[k]));
  }
}
