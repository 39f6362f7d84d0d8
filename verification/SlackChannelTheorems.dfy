/** What the Slack channel promises, over every run from every valid file. */
module SlackChannelTheorems {
  import opened Basics
  import opened SlackInboxState
  import opened SlackInboxLaws
  import opened SlackInbox
  import opened SlackChannel
  import opened SlackChannelSafety

  // ---------- no silent rerun ----------

  lemma {:induction false} ResolvedBetween(log: seq<LogEvent>, i: nat, j: nat, id: EnvelopeId)
    requires i < j <= |log| && Claims(log[i], id) && !OpenClaim(log[..j], id)
    ensures exists k :: i < k < j && Resolves(log[k], id)
  {
    assert log[..j][..j - 1] == log[..j - 1];
    if j - 1 > i && !Resolves(log[j - 1], id) {
      ResolvedBetween(log, i, j - 1, id);
    }
  }

  lemma {:induction false} CompletionsConcat(a: seq<LogEvent>, b: seq<LogEvent>)
    ensures Completions(a + b) == Completions(a) + Completions(b)
  {
    if b == [] {
      assert a + b == a;
    } else {
      var n := |b| - 1;
      assert (a + b)[..|a + b| - 1] == a + b[..n];
      CompletionsConcat(a, b[..n]);
    }
  }

  /** A completion of `id` that precedes a justified claim of `id` has left the
      deduplication window. */
  lemma CompletionLeftWindow(base: seq<EnvelopeId>, log: seq<LogEvent>, k: nat, j: nat, id: EnvelopeId)
    requires k < j <= |log| && log[k] == LogComplete(id)
    requires id !in LastN(base + Completions(log[..j]), MAX_RECEIPTS)
    ensures |Completions(log[k + 1..j])| >= MAX_RECEIPTS
  {
    var first, last := log[..k], log[k + 1..j];
    assert log[..j] == first + [LogComplete(id)] + last;
    CompletionsConcat(first + [LogComplete(id)], last);
    var all := base + Completions(log[..j]);
    var n := |base| + |Completions(first)|;
    assert all[n] == id && |all| == n + 1 + |Completions(last)|;
  }

  /** In every run, two claims of one envelope that reached the file are separated by
      a release or a shutdown requeue naming it, or by its completion, and then at
      least 4,096 further completions happened before the second claim. */
  lemma NoSilentRerun(disk: State, actions: seq<Action>, i: nat, j: nat, id: EnvelopeId)
    requires Valid(disk)
    requires i < j < |Exec(Init(disk), actions).log|
    requires var log := Exec(Init(disk), actions).log; Claims(log[i], id) && Claims(log[j], id)
    ensures var log := Exec(Init(disk), actions).log;
      && (exists k :: i < k < j && Resolves(log[k], id))
      && (forall k :: i < k < j && log[k] == LogComplete(id) ==> |Completions(log[k + 1..j])| >= 4_096)
  {
    hide Exec;
    RunKeepsInv(disk, actions);
    var log := Exec(Init(disk), actions).log;
    assert Justified(disk.receipts, log[..j], log[j]);
    ResolvedBetween(log, i, j, id);
    forall k | i < k < j && log[k] == LogComplete(id) ensures |Completions(log[k + 1..j])| >= MAX_RECEIPTS {
      CompletionLeftWindow(disk.receipts, log, k, j, id);
    }
  }

  // ---------- no acknowledged loss, exact dedup window ----------

  /** Whatever was acknowledged is in the file's entries or has been completed, after
      any interleaving, failed or uncertain commits, and crashes. */
  lemma NoAcknowledgedLoss(disk: State, actions: seq<Action>, id: EnvelopeId)
    requires Valid(disk) && id in Exec(Init(disk), actions).acked
    ensures var s := Exec(Init(disk), actions);
      && Valid(s.disk) && (id in Known(s.disk) || id in s.completions)
      && (id in s.completions ==> id in disk.receipts || LogComplete(id) in s.log)
  {
    hide Exec;
    RunKeepsInv(disk, actions);
    var s := Exec(Init(disk), actions);
    if id in s.completions && id !in disk.receipts {
      assert id in Completions(s.log);
      CompletionsAreLogged(s.log, id);
    }
  }

  lemma {:induction false} CompletionsAreLogged(log: seq<LogEvent>, id: EnvelopeId)
    requires id in Completions(log)
    ensures LogComplete(id) in log
  {
    if log[|log| - 1] != LogComplete(id) {
      CompletionsAreLogged(log[..|log| - 1], id);
    }
  }

  predicate Spaced(history: seq<EnvelopeId>) {
    forall i, j :: 0 <= i < j < |history| && history[i] == history[j] ==> j - i > 4_096
  }

  lemma SpacedSnoc(history: seq<EnvelopeId>, id: EnvelopeId)
    requires Spaced(history) && id !in LastN(history, MAX_RECEIPTS)
    ensures Spaced(history + [id])
  {
    var n := |history|;
    assert forall i :: 0 <= i < n && history[i] == id ==> n - i > MAX_RECEIPTS;
  }

  lemma LastJustified(base: seq<EnvelopeId>, log: seq<LogEvent>)
    requires log != [] && AllJustified(base, log)
    ensures var n := |log| - 1;
      && AllJustified(base, log[..n])
      && (log[n].LogComplete? ==> log[n].id !in LastN(base + Completions(log[..n]), MAX_RECEIPTS))
  {
    hide Completions, LastN, OpenClaim, AbortedSinceClaim;
    var n := |log| - 1;
    assert forall k :: 0 <= k < n ==> log[..n][..k] == log[..k];
    assert Justified(base, log[..n], log[n]);
  }

  lemma {:induction false} HistorySpaced(base: seq<EnvelopeId>, log: seq<LogEvent>)
    requires Distinct(base) && AllJustified(base, log)
    ensures Spaced(base + Completions(log))
  {
    if log == [] {
      assert base + Completions(log) == base;
    } else {
      var n := |log| - 1;
      var before := Completions(log[..n]);
      assert Completions(log) == if log[n].LogComplete? then before + [log[n].id] else before;
      hide Completions, AllJustified, Spaced, LastN, Distinct;
      LastJustified(base, log);
      HistorySpaced(base, log[..n]);
      if log[n].LogComplete? {
        SpacedSnoc(base + before, log[n].id);
        assert base + (before + [log[n].id]) == base + before + [log[n].id];
      }
    }
  }

  /** The receipts in the file are exactly the last 4,096 completions, and two
      completions of one envelope are more than 4,096 completions apart. */
  lemma DedupWindowExact(disk: State, actions: seq<Action>)
    requires Valid(disk)
    ensures var s := Exec(Init(disk), actions);
      && s.completions == disk.receipts + Completions(s.log)
      && s.disk.receipts ==
           (if |s.completions| <= 4_096 then s.completions else s.completions[|s.completions| - 4_096..])
      && Spaced(s.completions)
  {
    hide Exec;
    RunKeepsInv(disk, actions);
    ValidIdsUnique(disk);
    HistorySpaced(disk.receipts, Exec(Init(disk), actions).log);
  }

  // ---------- an inbox opened with uncertain work ----------

  predicate NoNewClaims(before: seq<LogEvent>, after: seq<LogEvent>) {
    && |before| <= |after| && after[..|before|] == before
    && forall k :: |before| <= k < |after| ==> !after[k].LogClaim?
  }

  lemma BlockedStep(base: seq<EnvelopeId>, s: System, a: Action)
    requires Inv(base, s) && s.proc.Some? && s.proc.value.store.recoveryBlocked && a != Crash
    ensures var t := Step(s, a);
      t.proc.Some? && t.proc.value.store.recoveryBlocked && NoNewClaims(s.log, t.log)
  {
    hide Transition, Valid, Having, DurableInv, WorkerInv, AfterCall, AfterWork, FlagStep, Calls;
    var p := s.proc.value;
    if a == Persist && p.store.flight.Some? {
      TransitionEffect(p.store.mem, p.store.recoveryBlocked, p.store.flight.value.op);
    }
  }

  /** An inbox opened while its file held a processing or failed entry claims nothing
      for as long as the process lives. */
  lemma {:induction false} BlockedClaimsNothing(disk: State, before: seq<Action>, after: seq<Action>)
    requires Valid(disk) && Crash !in after
    requires var s := Exec(Init(disk), before); s.proc.Some? && s.proc.value.store.recoveryBlocked
    ensures var t := Exec(Exec(Init(disk), before), after);
      t.proc.Some? && t.proc.value.store.recoveryBlocked && NoNewClaims(Exec(Init(disk), before).log, t.log)
    ensures Inv(disk.receipts, Exec(Exec(Init(disk), before), after))
  {
    hide Inv, Step;
    var s := Exec(Init(disk), before);
    if after == [] {
      RunKeepsInv(disk, before);
    } else {
      var n := |after| - 1;
      BlockedClaimsNothing(disk, before, after[..n]);
      StepKeepsInv(disk.receipts, Exec(s, after[..n]), after[n]);
      BlockedStep(disk.receipts, Exec(s, after[..n]), after[n]);
    }
  }

  // ---------- shutdown ----------

  /** From `i` on nothing claims `id`. */
  predicate NoClaimFrom(log: seq<LogEvent>, i: nat, id: EnvelopeId) {
    forall k :: i <= k < |log| ==> !Claims(log[k], id)
  }

  /** The work on `id` ended at `i` with this outcome, and nothing claimed `id` after that. */
  predicate EndedAt(log: seq<LogEvent>, i: nat, id: EnvelopeId, outcome: WorkOutcome) {
    i < |log| && log[i] == LogWork(id, outcome) && NoClaimFrom(log, i, id)
  }

  lemma {:induction false} EndBefore(log: seq<LogEvent>, id: EnvelopeId, outcome: WorkOutcome)
    requires EndedSinceClaim(log, id, outcome)
    ensures exists i :: 0 <= i < |log| && EndedAt(log, i, id, outcome)
  {
    var n := |log| - 1;
    if log[n] == LogWork(id, outcome) {
      assert EndedAt(log, n, id, outcome);
    } else {
      EndBefore(log[..n], id, outcome);
      var i :| 0 <= i < n && EndedAt(log[..n], i, id, outcome);
      assert forall k :: i <= k < n ==> log[k] == log[..n][k];
      assert EndedAt(log, i, id, outcome);
    }
  }

  /** Shutdown requeues at most two envelopes, and each one's worker ended in the owned
      abort after its last claim. */
  lemma ShutdownRequeuesOwnAborts(disk: State, actions: seq<Action>, k: nat, id: EnvelopeId)
    requires Valid(disk)
    requires var log := Exec(Init(disk), actions).log; k < |log| && log[k].LogRequeue? && id in log[k].ids
    ensures var log := Exec(Init(disk), actions).log;
      && |log[k].ids| <= 2
      && exists i :: 0 <= i < k && EndedAt(log[..k], i, id, OwnedAbort)
  {
    hide Exec;
    RunKeepsInv(disk, actions);
    var log := Exec(Init(disk), actions).log;
    assert Justified(disk.receipts, log[..k], log[k]);
    EndBefore(log[..k], id, OwnedAbort);
  }

  lemma SmallListDistinct(ids: seq<EnvelopeId>)
    requires |ids| <= 2 && |Elements(ids)| == |ids|
    ensures Distinct(ids)
  {
    if |ids| == 2 {
      assert Elements(ids) == {ids[0], ids[1]};
    }
  }

  lemma ShutdownOwnsAll(log: seq<LogEvent>, p: Proc, ids: seq<EnvelopeId>)
    requires WorkerInv(log, p) && !p.store.poisoned && !p.store.recoveryBlocked
    requires MaySubmit(p, ShutdownRoutine, Requeue(ids))
    ensures Having(p.store.mem, Processing) <= Elements(ids) && |ids| <= 2 && Distinct(ids)
    ensures forall id <- ids :: ValidEnvelopeId(id)
  {
    hide Having, ValidEnvelopeId, AbortsLogged, Distinct;
    SmallListDistinct(ids);
    assert forall id <- ids :: id in Elements(ids);
  }

  lemma RequeueAccepted(s: State, recoveryBlocked: bool, ids: seq<EnvelopeId>)
    requires |ids| <= 2 && Distinct(ids) && forall id <- ids :: ValidEnvelopeId(id)
    ensures var c := Transition(s, recoveryBlocked, Requeue(ids));
      if Requeues(s, ids) == {} then c.Keep? else c.Write?
  {
    hide Requeues;
  }

  /** The requeue that a safe shutdown submits is never refused, and once committed
      the file holds nothing in flight, so the next start is not blocked by it. */
  lemma GracefulShutdownUnblocks(disk: State, actions: seq<Action>, ids: seq<EnvelopeId>)
    requires Valid(disk)
    requires var s := Exec(Init(disk), actions);
      && s.proc.Some? && !s.proc.value.store.poisoned && !s.proc.value.store.recoveryBlocked
      && MaySubmit(s.proc.value, ShutdownRoutine, Requeue(ids))
    ensures var s := Exec(Init(disk), actions);
      var t := Step(Step(Step(s, Submit(ShutdownRoutine, Requeue(ids), true)), Persist), Finish(true));
      && Having(t.disk, Processing) == {} && Having(t.disk, Pending) >= Elements(ids) * Having(s.disk, Processing)
      && Having(t.disk, Failed) == Having(s.disk, Failed)
  {
    hide Exec, Valid, Having, DurableInv, WorkerInv, Transition, Step, Calls;
    RunKeepsInv(disk, actions);
    var s := Exec(Init(disk), actions);
    var p := s.proc.value;
    var c := Transition(p.store.mem, p.store.recoveryBlocked, Requeue(ids));
    ShutdownOwnsAll(s.log, p, ids);
    RequeueAccepted(p.store.mem, p.store.recoveryBlocked, ids);
    Attempted(s, ShutdownRoutine, Requeue(ids), true, Committed);
    RequeuesAll(p.store.mem, ids);
    if c.Write? {
      TransitionEffect(p.store.mem, p.store.recoveryBlocked, Requeue(ids));
    }
  }

  lemma RequeuesAll(s: State, ids: seq<EnvelopeId>)
    requires Having(s, Processing) <= Elements(ids)
    ensures Requeues(s, ids) == Having(s, Processing)
  {
    hide Having;
  }

  // ---------- the steps and the object agree ----------

  /** Submitting, replacing the file and finishing, for each of the three ways a commit can end. */
  function Attempt(s: System, caller: Caller, op: Op, fits: bool, io: Io): System {
    var submitted := Step(s, Submit(caller, op, fits));
    match io
    case Committed => Step(Step(submitted, Persist), Finish(true))
    case FailedBeforeRename => Step(submitted, Finish(false))
    case FailedAfterRename => Step(Step(submitted, Persist), Finish(false))
  }

  lemma SubmitFlies(s: System, caller: Caller, op: Op)
    requires s.proc.Some? && MaySubmit(s.proc.value, caller, op)
    requires var p := s.proc.value; !p.store.poisoned && !SignalAborted(p.workers, caller, op)
    requires Transition(s.proc.value.store.mem, s.proc.value.store.recoveryBlocked, op).Write?
    ensures var p := s.proc.value; var c := Transition(p.store.mem, p.store.recoveryBlocked, op);
      Step(s, Submit(caller, op, true))
      == s.(proc := Some(p.(store := p.store.(flight := Some(Flight(caller, op, c.next, c.reply, false))))))
  {
    hide Transition, MaySubmit, SignalAborted;
  }

  lemma SubmitAnswers(s: System, caller: Caller, op: Op, fits: bool)
    requires s.proc.Some? && MaySubmit(s.proc.value, caller, op)
    requires var p := s.proc.value;
      || p.store.poisoned || SignalAborted(p.workers, caller, op) || !fits
      || !Transition(p.store.mem, p.store.recoveryBlocked, op).Write?
    ensures var t := Step(s, Submit(caller, op, fits));
      t.proc.Some? && t.proc.value.store == s.proc.value.store && t.proc.value.store.flight.None? && t.disk == s.disk
  {
    hide Transition, SignalAborted, Calls, AfterCall;
  }

  lemma PersistFlies(s: System, f: Flight)
    requires s.proc.Some? && s.proc.value.store.flight == Some(f) && !f.persisted
    ensures var t := Step(s, Persist);
      && t.proc.Some? && t.disk == f.next
      && t.proc.value.store == s.proc.value.store.(flight := Some(f.(persisted := true)))
  {
    hide LogOf;
  }

  lemma FinishFlies(s: System, f: Flight, ok: bool)
    requires s.proc.Some? && s.proc.value.store.flight == Some(f) && (ok ==> f.persisted)
    ensures var store, t := s.proc.value.store, Step(s, Finish(ok));
      && t.proc.Some? && t.disk == s.disk
      && t.proc.value.store == if ok then store.(flight := None, mem := f.next)
        else store.(flight := None, poisoned := true)
  {
    hide AfterCall;
  }

  lemma NothingFlies(s: System, a: Action)
    requires s.proc.Some? && s.proc.value.store.flight.None? && (a.Persist? || a.Finish?)
    ensures Step(s, a) == s
  {
  }

  lemma FlightEnds(s: System, f: Flight, io: Io)
    requires s.proc.Some? && s.proc.value.store.flight == Some(f) && !f.persisted
    ensures var store := s.proc.value.store;
      var t := match io
        case Committed => Step(Step(s, Persist), Finish(true))
        case FailedBeforeRename => Step(s, Finish(false))
        case FailedAfterRename => Step(Step(s, Persist), Finish(false));
      && t.proc.Some?
      && t.proc.value.store == (
           if io == Committed then store.(flight := None, mem := f.next) else store.(flight := None, poisoned := true))
      && t.disk == if io == FailedBeforeRename then s.disk else f.next
  {
    hide Step;
    var g := f.(persisted := true);
    match io {
      case Committed =>
        PersistFlies(s, f);
        FinishFlies(Step(s, Persist), g, true);
      case FailedBeforeRename => FinishFlies(s, f, false);
      case FailedAfterRename =>
        PersistFlies(s, f);
        FinishFlies(Step(s, Persist), g, false);
    }
  }

  /** What an attempt leaves in memory and in the file. */
  lemma Attempted(s: System, caller: Caller, op: Op, fits: bool, io: Io)
    requires s.proc.Some? && MaySubmit(s.proc.value, caller, op)
    ensures var p, t := s.proc.value, Attempt(s, caller, op, fits, io);
      var c := Transition(p.store.mem, p.store.recoveryBlocked, op);
      && t.proc.Some? && t.proc.value.store.recoveryBlocked == p.store.recoveryBlocked
      && if p.store.poisoned || SignalAborted(p.workers, caller, op) || !c.Write? || !fits
         then t.proc.value.store == p.store && t.disk == s.disk
         else
           && t.proc.value.store.mem == (if io == Committed then c.next else p.store.mem)
           && t.proc.value.store.poisoned == (io != Committed)
           && t.disk == if io == FailedBeforeRename then s.disk else c.next
  {
    hide Transition, SignalAborted, MaySubmit, Step;
    var p, submitted := s.proc.value, Step(s, Submit(caller, op, fits));
    var c := Transition(p.store.mem, p.store.recoveryBlocked, op);
    if p.store.poisoned || SignalAborted(p.workers, caller, op) || !c.Write? || !fits {
      SubmitAnswers(s, caller, op, fits);
      NothingFlies(submitted, Persist);
      NothingFlies(submitted, Finish(true));
      NothingFlies(submitted, Finish(false));
    } else {
      SubmitFlies(s, caller, op);
      FlightEnds(submitted, Flight(caller, op, c.next, c.reply, false), io);
    }
  }

  function ViewOf(s: System): View
    requires s.proc.Some?
  {
    View(s.proc.value.store.mem, s.disk, s.proc.value.store.poisoned, false)
  }

  /** An attempt in three separate steps is one `mutate` call of the object, whichever
      of its three endings it has. */
  lemma StepsAreMutate(s: System, caller: Caller, op: Op, fits: bool, io: Io)
    requires s.proc.Some? && MaySubmit(s.proc.value, caller, op)
    ensures var p, t := s.proc.value, Attempt(s, caller, op, fits, io);
      && t.proc.Some?
      && ViewOf(t)
         == Mutated(ViewOf(s), p.store.recoveryBlocked, op, SignalAborted(p.workers, caller, op), fits, io).0
  {
    hide Transition, SignalAborted, Malformed, MaySubmit, Attempt;
    MalformedIsRefused(s.proc.value.store.mem, s.proc.value.store.recoveryBlocked, op);
    Attempted(s, caller, op, fits, io);
  }
}
