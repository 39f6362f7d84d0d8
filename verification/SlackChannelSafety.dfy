/** Safety of the Slack channel over every run, with crashes and uncertain commits. */
module SlackChannelSafety {
  import opened Basics
  import opened SlackInboxState
  import opened SlackInboxLaws
  import opened SlackInbox
  import opened SlackChannel

  // ---------- what the log says ----------

  predicate Claims(e: LogEvent, id: EnvelopeId) {
    e.LogClaim? && e.event.envelopeId == id
  }

  /** `e` undoes or completes an earlier claim of `id`. */
  predicate Resolves(e: LogEvent, id: EnvelopeId) {
    || (e.LogRelease? && e.id == id)
    || e == LogComplete(id)
    || (e.LogRequeue? && id in e.ids)
  }

  /** The last event about `id` is a claim that nothing has undone or completed. */
  predicate OpenClaim(log: seq<LogEvent>, id: EnvelopeId) {
    && log != []
    && var last := log[|log| - 1];
    && !Resolves(last, id)
    && (Claims(last, id) || OpenClaim(log[..|log| - 1], id))
  }

  /** Since the last claim of `id` its worker has ended with this outcome. */
  predicate EndedSinceClaim(log: seq<LogEvent>, id: EnvelopeId, outcome: WorkOutcome) {
    && log != []
    && var last := log[|log| - 1];
    && !Claims(last, id)
    && (last == LogWork(id, outcome) || EndedSinceClaim(log[..|log| - 1], id, outcome))
  }

  predicate AbortedSinceClaim(log: seq<LogEvent>, id: EnvelopeId) {
    EndedSinceClaim(log, id, OwnedAbort)
  }

  function Completions(log: seq<LogEvent>): seq<EnvelopeId> {
    if log == [] then []
    else
      var before, last := Completions(log[..|log| - 1]), log[|log| - 1];
      if last.LogComplete? then before + [last.id] else before
  }

  /** What each log event had to satisfy when it was appended. */
  predicate Justified(base: seq<EnvelopeId>, before: seq<LogEvent>, e: LogEvent) {
    match e
    case LogClaim(_, event) =>
      !OpenClaim(before, event.envelopeId) && event.envelopeId !in LastN(base + Completions(before), MAX_RECEIPTS)
    case LogRequeue(ids) => |ids| <= 2 && forall id <- ids :: AbortedSinceClaim(before, id)
    case LogComplete(id) => id !in LastN(base + Completions(before), MAX_RECEIPTS)
    case _ => true
  }

  predicate AllJustified(base: seq<EnvelopeId>, log: seq<LogEvent>) {
    forall k :: 0 <= k < |log| ==> Justified(base, log[..k], log[k])
  }

  lemma LogSnoc(log: seq<LogEvent>, e: LogEvent, id: EnvelopeId, outcome: WorkOutcome)
    ensures OpenClaim(log + [e], id) == (!Resolves(e, id) && (Claims(e, id) || OpenClaim(log, id)))
    ensures EndedSinceClaim(log + [e], id, outcome)
      == (!Claims(e, id) && (e == LogWork(id, outcome) || EndedSinceClaim(log, id, outcome)))
  {
    assert (log + [e])[..|log|] == log;
  }

  lemma CompletionsSnoc(log: seq<LogEvent>, e: LogEvent)
    ensures Completions(log + [e]) == if e.LogComplete? then Completions(log) + [e.id] else Completions(log)
  {
    assert (log + [e])[..|log|] == log;
  }

  lemma JustifiedSnoc(base: seq<EnvelopeId>, log: seq<LogEvent>, e: LogEvent)
    requires AllJustified(base, log) && Justified(base, log, e)
    ensures AllJustified(base, log + [e])
  {
    var all := log + [e];
    forall k | 0 <= k < |all| ensures Justified(base, all[..k], all[k]) {
      assert k < |log| ==> all[..k] == log[..k];
      assert k == |log| ==> all[..k] == log;
    }
  }

  // ---------- invariants ----------

  ghost predicate DurableInv(base: seq<EnvelopeId>, s: System) {
    && Valid(s.disk)
    && s.completions == base + Completions(s.log)
    && s.disk.receipts == LastN(s.completions, MAX_RECEIPTS)
    && s.acked <= Known(s.disk) + Elements(s.completions)
    && (forall id :: OpenClaim(s.log, id) ==> id in Held(s.disk))
    && AllJustified(base, s.log)
  }

  /** Memory, file and the commit in progress agree. */
  ghost predicate CommitInv(disk: State, store: Store) {
    && Valid(store.mem)
    && (store.flight.None? && !store.poisoned ==> disk == store.mem)
    && (store.flight.Some? ==>
         var f := store.flight.value;
         && !store.poisoned
         && Transition(store.mem, store.recoveryBlocked, f.op) == Write(f.next, f.reply)
         && disk == (if f.persisted then f.next else store.mem))
  }

  function PhaseIds(phase: Phase): set<EnvelopeId> {
    match phase
    case Working(id) => {id}
    case Settling(id, _) => {id}
    case Failing(id) => {id}
    case _ => {}
  }

  function IdleCount(w: Workers): nat {
    (if w.primary == Idle then 1 else 0) + (if w.control == Idle then 1 else 0)
  }

  predicate FlagsInv(w: Workers) {
    && (w.maintenance ==> !w.running && !w.stopping && w.primary == w.control == Idle)
    && (w.abort == ShutdownAbort ==> w.stopping)
    && (w.abortedIds != {} ==> w.stopping && w.abort == ShutdownAbort)
    && |w.abortedIds| <= IdleCount(w)
  }

  predicate IdsValid(w: Workers) {
    forall id <- PhaseIds(w.primary) + PhaseIds(w.control) + w.abortedIds :: ValidEnvelopeId(id)
  }

  predicate AbortsLogged(log: seq<LogEvent>, ids: set<EnvelopeId>) {
    forall id <- ids :: AbortedSinceClaim(log, id)
  }

  /** Each worker's envelope is in flight, workers and aborts name different ones,
      and after a safe life everything in flight belongs to a worker or an abort. */
  predicate OwnedBy(processing: set<EnvelopeId>, recoveryBlocked: bool, w: Workers) {
    var p, c := PhaseIds(w.primary), PhaseIds(w.control);
    && p <= processing && c <= processing && p !! c && w.abortedIds !! (p + c)
    && (w.abortedIds <= processing || w.primary == w.control == Idle)
    && (w.recoverySafe && !recoveryBlocked && !w.maintenance ==> processing <= p + c + w.abortedIds)
  }

  ghost predicate WorkerInv(log: seq<LogEvent>, p: Proc) {
    && FlagsInv(p.workers) && IdsValid(p.workers)
    && AbortsLogged(log, p.workers.abortedIds)
    && (p.store.flight.Some? ==> Calls(p.workers, p.store.flight.value.caller, p.store.flight.value.op))
    && (!p.store.poisoned ==> OwnedBy(Having(p.store.mem, Processing), p.store.recoveryBlocked, p.workers))
  }

  ghost predicate Inv(base: seq<EnvelopeId>, s: System) {
    && DurableInv(base, s)
    && (s.proc.Some? ==> CommitInv(s.disk, s.proc.value.store) && WorkerInv(s.log, s.proc.value))
  }

  // ---------- every step keeps the invariant: the file and the log ----------

  lemma IdsCountedOnce(ids: seq<EnvelopeId>, mem: State)
    requires |Elements(ids)| == |ids|
    ensures |Requeues(mem, ids)| <= |ids|
  {
    hide Having;
    SubsetSize(Requeues(mem, ids), Elements(ids));
  }

  lemma NotInReceipts(s: State, st: Status, id: EnvelopeId)
    requires Valid(s) && id in Having(s, st)
    ensures id !in s.receipts
  {
    ValidIdsUnique(s);
    var k := HavingIndex(s, st, id);
  }

  /** The event a commit appends is justified by what the log already held. */
  lemma EventJustified(base: seq<EnvelopeId>, s: System, p: Proc, f: Flight, e: LogEvent)
    requires DurableInv(base, s) && CommitInv(s.disk, p.store) && WorkerInv(s.log, p)
    requires p.store.flight == Some(f) && !f.persisted && LogOf(p.store.mem, f.caller, f.op, f.reply) == [e]
    ensures Justified(base, s.log, e)
  {
    hide Transition, Valid, Having, OwnedBy;
    TransitionEffect(p.store.mem, p.store.recoveryBlocked, f.op);
    ValidIdsUnique(p.store.mem);
    match f.op {
      case Claim(_, _) => NotInReceipts(p.store.mem, Pending, f.reply.event.envelopeId);
      case Complete(id) => NotInReceipts(p.store.mem, Processing, id);
      case Requeue(ids) =>
        IdsCountedOnce(ids, p.store.mem);
      case _ =>
    }
  }

  /** Claims that stay open stay held by the replaced file, and a known envelope
      leaves the entries only by completion. */
  lemma PersistMovesHeld(s: System, p: Proc, f: Flight, id: EnvelopeId)
    requires p.store.mem == s.disk && Effect(p.store.mem, f.op, f.next, f.reply)
    requires OpenClaim(s.log, id) ==> id in Held(s.disk)
    ensures OpenClaim(Persisted(s, p, f).log, id) ==> id in Held(f.next)
    ensures id in Known(s.disk) ==> id in Known(f.next) || f.op == Complete(id)
  {
    hide Having;
    var events := LogOf(p.store.mem, f.caller, f.op, f.reply);
    if events == [] {
      assert s.log + events == s.log;
    } else {
      assert events == [events[0]];
    }
  }

  lemma PersistLog(base: seq<EnvelopeId>, s: System, p: Proc, f: Flight)
    requires DurableInv(base, s) && CommitInv(s.disk, p.store) && WorkerInv(s.log, p)
    requires p.store.flight == Some(f) && !f.persisted && (f.op.Claim? ==> f.reply.Claimed?)
    ensures Persisted(s, p, f).completions == base + Completions(Persisted(s, p, f).log)
    ensures AllJustified(base, Persisted(s, p, f).log)
  {
    hide Transition, Valid, Having, OpenClaim, AllJustified, Justified, CommitInv, WorkerInv, Completions;
    var events := LogOf(p.store.mem, f.caller, f.op, f.reply);
    if events == [] {
      assert s.log + events == s.log;
    } else {
      var e := events[0];
      assert events == [e];
      EventJustified(base, s, p, f, e);
      JustifiedSnoc(base, s.log, e);
      CompletionsSnoc(s.log, e);
    }
  }

  lemma PersistKeepsDurable(base: seq<EnvelopeId>, s: System, p: Proc, f: Flight)
    requires DurableInv(base, s) && CommitInv(s.disk, p.store) && WorkerInv(s.log, p)
    requires p.store.flight == Some(f) && !f.persisted
    ensures DurableInv(base, Persisted(s, p, f))
  {
    hide Transition, Valid, Having, OpenClaim, AllJustified, Completions, WorkerInv;
    TransitionKeepsValid(p.store.mem, p.store.recoveryBlocked, f.op);
    TransitionEffect(p.store.mem, p.store.recoveryBlocked, f.op);
    PersistLog(base, s, p, f);
    forall id
      ensures OpenClaim(Persisted(s, p, f).log, id) ==> id in Held(f.next)
      ensures id in Known(s.disk) ==> id in Known(f.next) || f.op == Complete(id)
    {
      PersistMovesHeld(s, p, f, id);
    }
  }

  lemma ClaimSparesAborted(p: Proc, f: Flight, id: EnvelopeId)
    requires Calls(p.workers, f.caller, f.op) && f.op.Claim? && Effect(p.store.mem, f.op, f.next, f.reply)
    requires OwnedBy(Having(p.store.mem, Processing), p.store.recoveryBlocked, p.workers)
    requires Having(p.store.mem, Pending) !! Having(p.store.mem, Processing) && id in p.workers.abortedIds
    ensures f.reply.event.envelopeId != id
  {
    hide Having;
  }

  lemma PersistKeepsWorkers(s: System, p: Proc, f: Flight)
    requires CommitInv(s.disk, p.store) && WorkerInv(s.log, p)
    requires p.store.flight == Some(f) && !f.persisted
    ensures WorkerInv(Persisted(s, p, f).log, p.(store := p.store.(flight := Some(f.(persisted := true)))))
  {
    hide Transition, Valid, Having, OwnedBy, FlagsInv, Calls;
    TransitionEffect(p.store.mem, p.store.recoveryBlocked, f.op);
    ValidIdsUnique(p.store.mem);
    var events := LogOf(p.store.mem, f.caller, f.op, f.reply);
    forall id | id in p.workers.abortedIds ensures AbortedSinceClaim(s.log + events, id) {
      if events == [] {
        assert s.log + events == s.log;
      } else {
        assert events == [events[0]];
        if f.op.Claim? {
          ClaimSparesAborted(p, f, id);
        }
      }
    }
  }

  // ---------- every step keeps the invariant: the workers ----------

  lemma WorkerCallKeepsFlags(w: Workers, lane: Lane, op: Op, r: Outcome)
    requires FlagsInv(w) && WorkerCall(PhaseOf(w, lane), lane, op)
    ensures FlagsInv(AfterWorkerCall(w, lane, r))
    ensures AfterWorkerCall(w, lane, r).abortedIds == w.abortedIds
  {
  }

  predicate Quiet(caller: Caller, op: Op, r: Outcome) {
    IsWorker(caller) && r.Ok? ==> op.Claim? && r.reply == NothingToClaim
  }

  /** The envelope names a worker step can mention. */
  function NewIds(r: Outcome): set<EnvelopeId> {
    if r.Ok? && r.reply.Claimed? then {r.reply.event.envelopeId} else {}
  }

  function Other(lane: Lane): Lane {
    if lane == Primary then Control else Primary
  }

  /** A worker's call changes its own phase only. */
  lemma OtherPhaseStays(w: Workers, lane: Lane, r: Outcome)
    ensures PhaseOf(AfterWorkerCall(w, lane, r), Other(lane)) == PhaseOf(w, Other(lane))
  {
  }

  lemma WorkerCallFrame(w: Workers, lane: Lane, r: Outcome)
    ensures var v := AfterWorkerCall(w, lane, r);
      v.abortedIds == w.abortedIds && v.maintenance == w.maintenance && (v.recoverySafe ==> w.recoverySafe)
  {
  }

  lemma OwnPhaseIds(w: Workers, lane: Lane, r: Outcome)
    ensures PhaseIds(PhaseOf(AfterWorkerCall(w, lane, r), lane)) <= PhaseIds(PhaseOf(w, lane)) + NewIds(r)
  {
  }

  lemma PhaseIdsAfter(w: Workers, lane: Lane, r: Outcome)
    ensures PhaseIds(AfterWorkerCall(w, lane, r).primary) <= PhaseIds(w.primary) + NewIds(r)
    ensures PhaseIds(AfterWorkerCall(w, lane, r).control) <= PhaseIds(w.control) + NewIds(r)
    ensures AfterWorkerCall(w, lane, r).abortedIds == w.abortedIds
  {
    hide AfterWorkerCall, PhaseIds, NewIds;
    OtherPhaseStays(w, lane, r);
    WorkerCallFrame(w, lane, r);
    OwnPhaseIds(w, lane, r);
  }

  /** Phases may give up envelopes once recovery is no longer safe. */
  lemma OwnedShrinks(processing: set<EnvelopeId>, blocked: bool, w: Workers, v: Workers)
    requires OwnedBy(processing, blocked, w)
    requires PhaseIds(v.primary) <= PhaseIds(w.primary) && PhaseIds(v.control) <= PhaseIds(w.control)
    requires v.abortedIds == w.abortedIds && v.maintenance == w.maintenance
    requires w.primary == w.control == Idle ==> v.primary == v.control == Idle
    requires v.recoverySafe ==> w.recoverySafe
    requires v.recoverySafe ==> PhaseIds(v.primary) == PhaseIds(w.primary) && PhaseIds(v.control) == PhaseIds(w.control)
    ensures OwnedBy(processing, blocked, v)
  {
    hide PhaseIds;
  }

  lemma QuietPhase(w: Workers, lane: Lane, op: Op, r: Outcome)
    requires WorkerCall(PhaseOf(w, lane), lane, op) && (r.Ok? ==> op.Claim? && r.reply == NothingToClaim)
    ensures var v := AfterWorkerCall(w, lane, r);
      && PhaseOf(w, lane) != Idle
      && PhaseIds(PhaseOf(v, lane)) <= PhaseIds(PhaseOf(w, lane))
      && (v.recoverySafe ==> PhaseIds(PhaseOf(v, lane)) == PhaseIds(PhaseOf(w, lane)))
  {
  }

  /** A call that changes nothing in the inbox leaves the workers consistent. */
  lemma QuietCallKeepsOwned(processing: set<EnvelopeId>, blocked: bool, w: Workers, caller: Caller, op: Op, r: Outcome)
    requires OwnedBy(processing, blocked, w) && Calls(w, caller, op) && Quiet(caller, op, r)
    ensures OwnedBy(processing, blocked, AfterCall(w, caller, r))
  {
    hide AfterWorkerCall, PhaseIds, OwnedBy, WorkerCall;
    if IsWorker(caller) {
      OtherPhaseStays(w, LaneOf(caller), r);
      WorkerCallFrame(w, LaneOf(caller), r);
      QuietPhase(w, LaneOf(caller), op, r);
    }
    OwnedShrinks(processing, blocked, w, AfterCall(w, caller, r));
  }

  lemma CallKeepsIds(w: Workers, caller: Caller, r: Outcome)
    requires IdsValid(w) && forall id <- NewIds(r) :: ValidEnvelopeId(id)
    ensures IdsValid(AfterCall(w, caller, r))
  {
    hide ValidEnvelopeId, AfterWorkerCall, PhaseIds, NewIds;
    PhaseIdsAfter(w, LaneOf(caller), r);
  }

  lemma ClaimedIsValid(s: State, op: Op, t: State, reply: Reply)
    requires Valid(s) && Effect(s, op, t, reply) && reply.Claimed?
    ensures ValidEnvelopeId(reply.event.envelopeId)
  {
    var k := HavingIndex(s, Pending, reply.event.envelopeId);
    assert ValidEntry(s.entries[k]);
  }

  lemma CallKeepsFlags(w: Workers, caller: Caller, op: Op, r: Outcome)
    requires FlagsInv(w) && Calls(w, caller, op)
    ensures FlagsInv(AfterCall(w, caller, r)) && AfterCall(w, caller, r).abortedIds == w.abortedIds
  {
    hide AfterWorkerCall;
    if IsWorker(caller) {
      WorkerCallKeepsFlags(w, LaneOf(caller), op, r);
    }
  }

  lemma QuietAnswer(base: seq<EnvelopeId>, s: System, p: Proc, caller: Caller, op: Op, r: Outcome)
    requires DurableInv(base, s) && CommitInv(s.disk, p.store) && WorkerInv(s.log, p)
    requires p.store.flight.None? && Calls(p.workers, caller, op) && Quiet(caller, op, r)
    requires !(r.Ok? && r.reply.Claimed?)
    requires op.Enqueue? && r.Ok? ==> op.event.envelopeId in Known(s.disk) + Elements(s.disk.receipts)
    ensures Inv(base, Answer(s, p, caller, op, r))
  {
    hide Transition, Valid, Having, OpenClaim, AllJustified, Completions, AbortedSinceClaim, Calls, FlagsInv, IdsValid,
      OwnedBy, AfterCall, Quiet;
    CallKeepsIds(p.workers, caller, r);
    CallKeepsFlags(p.workers, caller, op, r);
    if !p.store.poisoned {
      QuietCallKeepsOwned(Having(p.store.mem, Processing), p.store.recoveryBlocked, p.workers, caller, op, r);
    }
  }

  lemma ClaimCommits(w: Workers, lane: Lane, before: set<EnvelopeId>, blocked: bool, reply: Reply)
    requires OwnedBy(before, blocked, w) && PhaseOf(w, lane) == Claiming
    requires reply.Claimed? && reply.event.envelopeId !in before
    ensures OwnedBy(before + {reply.event.envelopeId}, blocked, AfterWorkerCall(w, lane, Ok(reply)))
  {
  }

  lemma SettleCommits(w: Workers, lane: Lane, before: set<EnvelopeId>, blocked: bool, op: Op)
    requires OwnedBy(before, blocked, w) && WorkerCall(PhaseOf(w, lane), lane, op) && !op.Claim?
    ensures op.id in before && OwnedBy(before - {op.id}, blocked, AfterWorkerCall(w, lane, Ok(Done)))
  {
  }

  lemma OtherCommits(w: Workers, caller: Caller, op: Op, before: set<EnvelopeId>, after: set<EnvelopeId>, blocked: bool)
    requires OwnedBy(before, blocked, w) && Calls(w, caller, op) && !IsWorker(caller)
    requires FlagsInv(w) && after <= before && (op.Enqueue? ==> after == before)
    ensures OwnedBy(after, blocked, w)
  {
  }

  /** A committed call moves envelopes and phases together. */
  lemma CommitKeepsOwned(p: Proc, f: Flight)
    requires FlagsInv(p.workers) && Calls(p.workers, f.caller, f.op)
    requires OwnedBy(Having(p.store.mem, Processing), p.store.recoveryBlocked, p.workers)
    requires Effect(p.store.mem, f.op, f.next, f.reply)
    requires Having(p.store.mem, Pending) !! Having(p.store.mem, Processing)
    ensures OwnedBy(Having(f.next, Processing), p.store.recoveryBlocked, AfterCall(p.workers, f.caller, Ok(f.reply)))
  {
    hide Having, OwnedBy, AfterWorkerCall, FlagsInv;
    var before, blocked := Having(p.store.mem, Processing), p.store.recoveryBlocked;
    if !IsWorker(f.caller) {
      OtherCommits(p.workers, f.caller, f.op, before, Having(f.next, Processing), blocked);
    } else if f.op.Claim? {
      ClaimCommits(p.workers, LaneOf(f.caller), before, blocked, f.reply);
    } else {
      SettleCommits(p.workers, LaneOf(f.caller), before, blocked, f.op);
    }
  }

  /** A finished commit changes only the process and the acknowledgements, and
      acknowledges only what the file now holds. */
  lemma CommitAcknowledges(base: seq<EnvelopeId>, s: System, p: Proc, f: Flight)
    requires DurableInv(base, s) && s.disk == f.next && Effect(p.store.mem, f.op, f.next, f.reply)
    ensures DurableInv(base, Finished(s, p, f, true))
  {
    hide Transition, Valid, Having, OpenClaim, AllJustified, Completions, AfterCall;
  }

  lemma CommitFinishes(base: seq<EnvelopeId>, s: System, p: Proc, f: Flight)
    requires DurableInv(base, s) && CommitInv(s.disk, p.store) && WorkerInv(s.log, p)
    requires p.store.flight == Some(f) && f.persisted
    ensures Inv(base, Finished(s, p, f, true))
  {
    hide Transition, Valid, Having, DurableInv, AbortedSinceClaim, Calls, FlagsInv, IdsValid, OwnedBy, AfterCall,
      Effect;
    TransitionKeepsValid(p.store.mem, p.store.recoveryBlocked, f.op);
    TransitionEffect(p.store.mem, p.store.recoveryBlocked, f.op);
    CommitAcknowledges(base, s, p, f);
    if f.reply.Claimed? {
      ClaimedIsValid(p.store.mem, f.op, f.next, f.reply);
    }
    CallKeepsIds(p.workers, f.caller, Ok(f.reply));
    ValidIdsUnique(p.store.mem);
    CallKeepsFlags(p.workers, f.caller, f.op, Ok(f.reply));
    CommitKeepsOwned(p, f);
  }

  lemma CommitFails(base: seq<EnvelopeId>, s: System, p: Proc, f: Flight)
    requires DurableInv(base, s) && CommitInv(s.disk, p.store) && WorkerInv(s.log, p)
    requires p.store.flight == Some(f)
    ensures Inv(base, Finished(s, p, f, false))
  {
    hide Transition, Valid, Having, OpenClaim, AllJustified, Completions, AbortedSinceClaim, Calls, FlagsInv, IdsValid,
      OwnedBy, AfterCall;
    CallKeepsIds(p.workers, f.caller, Err(Poisoned));
    CallKeepsFlags(p.workers, f.caller, f.op, Err(Poisoned));
  }

  /** A duplicate answer is given only for an envelope the inbox already knows. */
  lemma DuplicateIsKnown(s: State, recoveryBlocked: bool, op: Op)
    requires op.Enqueue? && Transition(s, recoveryBlocked, op).Keep?
    ensures op.event.envelopeId in Known(s) + Elements(s.receipts)
  {
    if op.event.envelopeId !in s.receipts {
      var i := IndexOf(s.entries, op.event.envelopeId);
      HavingFrom(s, s.entries[i].status, i);
    }
  }

  lemma OwnCallIsHeld(log: seq<LogEvent>, p: Proc, caller: Caller, op: Op)
    requires WorkerInv(log, p) && !p.store.poisoned && IsWorker(caller) && Calls(p.workers, caller, op) && !op.Claim?
    ensures (op.Release? || op.Complete? || op.Fail?) && op.id in Having(p.store.mem, Processing)
  {
    hide Having, FlagsInv, IdsValid, AbortsLogged;
  }

  lemma SettlingWrites(s: State, recoveryBlocked: bool, op: Op)
    requires Valid(s) && (op.Release? || op.Complete? || op.Fail?) && op.id in Having(s, Processing)
    ensures Transition(s, recoveryBlocked, op).Write?
  {
    hide Valid, Having, IndexOf;
    var k := HavingIndex(s, Processing, op.id);
    IndexOfUnique(s, op.id, k);
    EntryIsValid(s, k);
  }

  /** A worker settling its own claim is never refused and never answered without
      a commit. */
  lemma OwnCallWrites(log: seq<LogEvent>, p: Proc, caller: Caller, op: Op)
    requires Valid(p.store.mem) && WorkerInv(log, p) && !p.store.poisoned
    requires IsWorker(caller) && Calls(p.workers, caller, op) && !op.Claim?
    ensures Transition(p.store.mem, p.store.recoveryBlocked, op).Write?
  {
    hide Valid, Having, Transition, WorkerInv, Calls;
    OwnCallIsHeld(log, p, caller, op);
    SettlingWrites(p.store.mem, p.store.recoveryBlocked, op);
  }

  lemma KeptIsNoClaim(s: State, recoveryBlocked: bool, op: Op)
    requires Transition(s, recoveryBlocked, op).Keep?
    ensures !Transition(s, recoveryBlocked, op).reply.Claimed?
  {
  }

  lemma KeptIsQuiet(log: seq<LogEvent>, p: Proc, caller: Caller, op: Op)
    requires Valid(p.store.mem) && WorkerInv(log, p) && !p.store.poisoned && Calls(p.workers, caller, op)
    requires Transition(p.store.mem, p.store.recoveryBlocked, op).Keep?
    ensures Quiet(caller, op, Ok(Transition(p.store.mem, p.store.recoveryBlocked, op).reply))
  {
    hide Valid, WorkerInv, Calls;
    if IsWorker(caller) && !op.Claim? {
      OwnCallWrites(log, p, caller, op);
    }
  }

  lemma SubmitKeepsInv(base: seq<EnvelopeId>, s: System, p: Proc, caller: Caller, op: Op, fits: bool)
    requires DurableInv(base, s) && CommitInv(s.disk, p.store) && WorkerInv(s.log, p)
    requires p.store.flight.None? && Calls(p.workers, caller, op)
    ensures Inv(base, Submitted(s, p, caller, op, fits))
  {
    hide Transition, Valid, Having, DurableInv, FlagsInv, OwnedBy, AbortedSinceClaim, Calls, SignalAborted, Answer;
    var c := Transition(p.store.mem, p.store.recoveryBlocked, op);
    if p.store.poisoned {
      QuietAnswer(base, s, p, caller, op, Err(Poisoned));
    } else if SignalAborted(p.workers, caller, op) {
      QuietAnswer(base, s, p, caller, op, Err(Aborted));
    } else if c.Refuse? {
      QuietAnswer(base, s, p, caller, op, Err(c.error));
    } else if c.Keep? {
      if op.Enqueue? {
        DuplicateIsKnown(p.store.mem, p.store.recoveryBlocked, op);
      }
      KeptIsQuiet(s.log, p, caller, op);
      KeptIsNoClaim(p.store.mem, p.store.recoveryBlocked, op);
      QuietAnswer(base, s, p, caller, op, Ok(c.reply));
    } else if !fits {
      QuietAnswer(base, s, p, caller, op, Err(Full));
    } else {
      DurableIgnoresProc(base, s, Submitted(s, p, caller, op, fits).proc);
    }
  }

  lemma DurableIgnoresProc(base: seq<EnvelopeId>, s: System, proc: Option<Proc>)
    requires DurableInv(base, s)
    ensures DurableInv(base, s.(proc := proc))
  {
    hide Valid, Having, OpenClaim, AllJustified, Completions;
  }

  lemma WorkLogged(base: seq<EnvelopeId>, s: System, e: LogEvent, proc: Option<Proc>)
    requires DurableInv(base, s) && e.LogWork?
    ensures DurableInv(base, s.(log := s.log + [e], proc := proc))
    ensures forall x, o ::
      EndedSinceClaim(s.log + [e], x, o) <==> (e == LogWork(x, o) || EndedSinceClaim(s.log, x, o))
  {
    hide Valid, Having, AllJustified, OpenClaim, EndedSinceClaim, Completions, Justified;
    forall x ensures OpenClaim(s.log + [e], x) == OpenClaim(s.log, x) { LogSnoc(s.log, e, x, Consumed); }
    forall x, o
      ensures EndedSinceClaim(s.log + [e], x, o) <==> (e == LogWork(x, o) || EndedSinceClaim(s.log, x, o))
    {
      LogSnoc(s.log, e, x, o);
    }
    CompletionsSnoc(s.log, e);
    assert Justified(base, s.log, e) by { WorkIsJustified(base, s.log, e); }
    JustifiedSnoc(base, s.log, e);
  }

  lemma WorkIsJustified(base: seq<EnvelopeId>, log: seq<LogEvent>, e: LogEvent)
    requires e.LogWork?
    ensures Justified(base, log, e)
  {
  }

  lemma WorkKeepsCalls(w: Workers, lane: Lane, id: EnvelopeId, outcome: WorkOutcome, caller: Caller, op: Op)
    requires PhaseOf(w, lane) == Working(id) && Calls(w, caller, op)
    ensures Calls(AfterWork(w, lane, id, outcome), caller, op)
  {
  }

  lemma WorkKeepsFlags(w: Workers, lane: Lane, id: EnvelopeId, outcome: WorkOutcome)
    requires FlagsInv(w) && PhaseOf(w, lane) == Working(id)
    ensures FlagsInv(AfterWork(w, lane, id, outcome))
    ensures AfterWork(w, lane, id, outcome).abortedIds ==
      if outcome == OwnedAbort && w.abort == ShutdownAbort then w.abortedIds + {id} else w.abortedIds
  {
  }

  lemma WorkKeepsIds(w: Workers, lane: Lane, id: EnvelopeId, outcome: WorkOutcome)
    requires IdsValid(w) && PhaseOf(w, lane) == Working(id)
    ensures IdsValid(AfterWork(w, lane, id, outcome))
  {
    hide ValidEnvelopeId;
  }

  lemma WorkKeepsOwned(processing: set<EnvelopeId>, blocked: bool, w: Workers, lane: Lane, id: EnvelopeId,
      outcome: WorkOutcome)
    requires OwnedBy(processing, blocked, w) && PhaseOf(w, lane) == Working(id)
    ensures OwnedBy(processing, blocked, AfterWork(w, lane, id, outcome))
  {
  }

  lemma WorkDoneKeepsInv(base: seq<EnvelopeId>, s: System, p: Proc, lane: Lane, id: EnvelopeId, outcome: WorkOutcome)
    requires DurableInv(base, s) && CommitInv(s.disk, p.store) && WorkerInv(s.log, p)
    requires PhaseOf(p.workers, lane) == Working(id)
    ensures Inv(base, WorkedOut(s, p, lane, id, outcome))
  {
    hide Transition, Valid, Having, EndedSinceClaim, DurableInv, FlagsInv, IdsValid, OwnedBy, AfterWork, Calls;
    var proc := WorkedOut(s, p, lane, id, outcome).proc;
    DurableIgnoresProc(base, s, proc);
    WorkKeepsIds(p.workers, lane, id, outcome);
    WorkLogged(base, s, LogWork(id, outcome), proc);
    WorkKeepsFlags(p.workers, lane, id, outcome);
    if p.store.flight.Some? {
      WorkKeepsCalls(p.workers, lane, id, outcome, p.store.flight.value.caller, p.store.flight.value.op);
    }
    if !p.store.poisoned {
      WorkKeepsOwned(Having(p.store.mem, Processing), p.store.recoveryBlocked, p.workers, lane, id, outcome);
    }
  }

  lemma FlagStepKeepsFlags(w: Workers, a: Action)
    requires FlagsInv(w)
    ensures FlagsInv(FlagStep(w, a)) && FlagStep(w, a).abortedIds == w.abortedIds
    ensures PhaseIds(FlagStep(w, a).primary) == PhaseIds(w.primary)
    ensures PhaseIds(FlagStep(w, a).control) == PhaseIds(w.control)
  {
  }

  lemma FlagStepKeepsCalls(w: Workers, a: Action, caller: Caller, op: Op)
    requires Calls(w, caller, op)
    ensures Calls(FlagStep(w, a), caller, op)
  {
  }

  lemma FlagStepKeepsOwned(processing: set<EnvelopeId>, blocked: bool, w: Workers, a: Action)
    requires FlagsInv(w) && OwnedBy(processing, blocked, w)
    ensures OwnedBy(processing, blocked, FlagStep(w, a))
  {
  }

  lemma FlagsKeepInv(base: seq<EnvelopeId>, s: System, p: Proc, a: Action)
    requires DurableInv(base, s) && CommitInv(s.disk, p.store) && WorkerInv(s.log, p)
    ensures Inv(base, s.(proc := Some(p.(workers := FlagStep(p.workers, a)))))
  {
    hide Transition, Valid, Having, AbortedSinceClaim, DurableInv, FlagsInv, OwnedBy, FlagStep, Calls;
    DurableIgnoresProc(base, s, Some(p.(workers := FlagStep(p.workers, a))));
    FlagStepKeepsFlags(p.workers, a);
    if p.store.flight.Some? {
      FlagStepKeepsCalls(p.workers, a, p.store.flight.value.caller, p.store.flight.value.op);
    }
    if !p.store.poisoned {
      FlagStepKeepsOwned(Having(p.store.mem, Processing), p.store.recoveryBlocked, p.workers, a);
    }
  }

  lemma BootKeepsInv(base: seq<EnvelopeId>, s: System, maintenance: bool)
    requires DurableInv(base, s)
    ensures CommitInv(s.disk, NewProc(s.disk, maintenance).store) && WorkerInv(s.log, NewProc(s.disk, maintenance))
  {
    HasIffHaving(s.disk);
  }

  lemma StepKeepsInv(base: seq<EnvelopeId>, s: System, a: Action)
    requires Inv(base, s)
    ensures Inv(base, Step(s, a))
  {
    hide DurableInv, CommitInv, WorkerInv, Having, Submitted, Persisted, Finished, WorkedOut, FlagStep, Calls, NewProc,
      Valid;
    match s.proc {
      case None =>
        BootKeepsInv(base, s, a.Boot? && a.maintenance);
        DurableIgnoresProc(base, s, Step(s, a).proc);
      case Some(p) =>
        match a {
          case Crash => DurableIgnoresProc(base, s, None);
          case Submit(caller, op, fits) =>
            if MaySubmit(p, caller, op) {
              SubmitKeepsInv(base, s, p, caller, op, fits);
            }
          case Persist =>
            if p.store.flight.Some? && !p.store.flight.value.persisted {
              PersistKeepsInv(base, s, p, p.store.flight.value);
            }
          case Finish(ok) =>
            if p.store.flight.Some? && (ok ==> p.store.flight.value.persisted) {
              if ok {
                CommitFinishes(base, s, p, p.store.flight.value);
              } else {
                CommitFails(base, s, p, p.store.flight.value);
              }
            }
          case WorkDone(lane, outcome) =>
            if PhaseOf(p.workers, lane).Working? {
              WorkDoneKeepsInv(base, s, p, lane, PhaseOf(p.workers, lane).id, outcome);
            }
          case _ => FlagsKeepInv(base, s, p, a);
        }
    }
  }

  lemma PersistKeepsInv(base: seq<EnvelopeId>, s: System, p: Proc, f: Flight)
    requires DurableInv(base, s) && CommitInv(s.disk, p.store) && WorkerInv(s.log, p)
    requires p.store.flight == Some(f) && !f.persisted
    ensures Inv(base, Persisted(s, p, f))
  {
    hide DurableInv, WorkerInv, Valid, Transition;
    PersistKeepsDurable(base, s, p, f);
    PersistKeepsWorkers(s, p, f);
  }

  lemma {:induction false} RunKeepsInv(disk: State, actions: seq<Action>)
    requires Valid(disk)
    ensures Inv(disk.receipts, Exec(Init(disk), actions))
  {
    if actions == [] {
      assert disk.receipts + Completions([]) == disk.receipts;
    } else {
      RunKeepsInv(disk, actions[..|actions| - 1]);
      StepKeepsInv(disk.receipts, Exec(Init(disk), actions[..|actions| - 1]), actions[|actions| - 1]);
    }
  }
}
