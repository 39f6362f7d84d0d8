/** The file as a queue over whole runs: it holds the envelopes durably enqueued and not yet
    completed, each with the content it was enqueued with, in the order of their admission. */
module SlackChannelQueue {
  import opened Basics
  import opened SlackInboxState
  import opened SlackInboxLaws
  import opened SlackInboxQueue
  import opened SlackChannel
  import opened SlackChannelSafety

  // ---------- the queue that a log describes ----------

  /** What is enqueued joins at the end, what is completed leaves. */
  function Advanced(queue: seq<Event>, e: LogEvent): seq<Event> {
    match e
    case LogEnqueue(event) => queue + [event]
    case LogComplete(id) => Dropped(queue, id)
    case _ => queue
  }

  function Queue(first: seq<Event>, log: seq<LogEvent>): seq<Event> {
    if log == [] then first else Advanced(Queue(first, log[..|log| - 1]), log[|log| - 1])
  }

  predicate Absent(events: seq<Event>, id: EnvelopeId) {
    forall i :: 0 <= i < |events| ==> events[i].envelopeId != id
  }

  /** A claim takes an envelope of the queue, on the primary lane the first one; only an envelope
      that is not queued is enqueued, and only one that is queued is completed. */
  predicate Fits(queue: seq<Event>, e: LogEvent) {
    match e
    case LogEnqueue(event) => Absent(queue, event.envelopeId)
    case LogClaim(lane, event) => event in queue && (lane == Primary ==> event == queue[0])
    case LogComplete(id) => !Absent(queue, id)
    case _ => true
  }

  predicate AllFit(first: seq<Event>, log: seq<LogEvent>) {
    forall k :: 0 <= k < |log| ==> Fits(Queue(first, log[..k]), log[k])
  }

  lemma FitSnoc(first: seq<Event>, log: seq<LogEvent>, e: LogEvent)
    requires AllFit(first, log) && Fits(Queue(first, log), e)
    ensures AllFit(first, log + [e])
  {
    hide Fits, Queue;
    var all := log + [e];
    forall k | 0 <= k < |all| ensures Fits(Queue(first, all[..k]), all[k]) {
      assert k < |log| ==> all[..k] == log[..k];
      assert k == |log| ==> all[..k] == log;
    }
  }

  lemma QueueSnoc(first: seq<Event>, log: seq<LogEvent>, e: LogEvent)
    ensures Queue(first, log + [e]) == Advanced(Queue(first, log), e)
  {
    assert (log + [e])[..|log|] == log;
  }

  // ---------- the file is that queue ----------

  ghost predicate QueueInv(first: seq<Event>, s: System) {
    Events(s.disk.entries) == Queue(first, s.log) && AllFit(first, s.log)
  }

  lemma AbsentUnlessKnown(s: State, id: EnvelopeId)
    requires Valid(s)
    ensures Absent(Events(s.entries), id) <==> id !in Known(s)
  {
    hide Known;
    KnownAt(s, id);
    forall i | 0 <= i < |s.entries| ensures Events(s.entries)[i].envelopeId == s.entries[i].envelopeId {
      EntryIsValid(s, i);
    }
    if IndexOf(s.entries, id) != -1 {
      assert Events(s.entries)[IndexOf(s.entries, id)].envelopeId == id;
    }
  }

  lemma PrimaryTakesFirst(s: State, eligible: set<EnvelopeId>, i: nat)
    requires Valid(s) && Having(s, Failed) == {} && LaneFree(s, Primary) && NextFor(s, Primary, eligible, i)
    ensures i == 0
  {
    HasIffHaving(s);
    assert forall j: nat :: !InFlight(s, j);
    assert !InFlight(s, 0) && s.entries[0].status == Pending;
  }

  /** What a commit logs fits the queue it found, and the queue it leaves is the one the log describes. */
  lemma CommitFits(s: State, recoveryBlocked: bool, caller: Caller, op: Op)
    requires Valid(s) && Transition(s, recoveryBlocked, op).Write?
    ensures var c := Transition(s, recoveryBlocked, op);
      var log := LogOf(s, caller, op, c.reply);
      && (forall e :: e in log ==> Fits(Events(s.entries), e))
      && Queue(Events(s.entries), log) == Events(c.next.entries)
  {
    hide Valid, Transition, Known, Having, LaneFree;
    var c := Transition(s, recoveryBlocked, op);
    TransitionQueue(s, recoveryBlocked, op);
    match op {
      case Enqueue(event) =>
        EnqueueExactly(s, recoveryBlocked, event);
        AbsentUnlessKnown(s, event.envelopeId);
      case Claim(lane, eligible) =>
        ClaimExactly(s, recoveryBlocked, lane, eligible);
        var i: nat :| NextFor(s, lane, eligible, i) && i < |s.entries| && c == Taking(s, lane, i);
        assert Events(s.entries)[i] == s.entries[i].event;
        if lane == Primary { PrimaryTakesFirst(s, eligible, i); }
      case Complete(id) =>
        TransitionEffect(s, recoveryBlocked, op);
        assert id in Known(s) by { InKnown(s, id); }
        AbsentUnlessKnown(s, id);
      case _ =>
    }
  }

  lemma InKnown(s: State, id: EnvelopeId)
    requires id in Having(s, Processing)
    ensures id in Known(s)
  {
  }

  lemma {:induction false} QueueConcat(first: seq<Event>, a: seq<LogEvent>, b: seq<LogEvent>)
    ensures Queue(first, a + b) == Queue(Queue(first, a), b)
  {
    if b == [] {
      assert a + b == a;
    } else {
      QueueConcat(first, a, b[..|b| - 1]);
      assert (a + b)[..|a + b| - 1] == a + b[..|b| - 1];
    }
  }

  lemma PersistKeepsQueue(base: seq<EnvelopeId>, first: seq<Event>, s: System, p: Proc, f: Flight)
    requires Inv(base, s) && QueueInv(first, s) && s.proc == Some(p)
    requires p.store.flight == Some(f) && !f.persisted
    ensures QueueInv(first, Persisted(s, p, f))
  {
    hide Valid, Transition, DurableInv, WorkerInv, Fits, Queue;
    var log := LogOf(p.store.mem, f.caller, f.op, f.reply);
    CommitFits(p.store.mem, p.store.recoveryBlocked, f.caller, f.op);
    QueueConcat(first, s.log, log);
    if log == [] {
      assert s.log + log == s.log;
    } else {
      assert log == [log[0]] && log[0] in log;
      FitSnoc(first, s.log, log[0]);
    }
  }

  lemma WorkKeepsQueue(first: seq<Event>, s: System, p: Proc, lane: Lane, id: EnvelopeId, outcome: WorkOutcome)
    requires QueueInv(first, s)
    ensures QueueInv(first, WorkedOut(s, p, lane, id, outcome))
  {
    hide AfterWork, Queue;
    QueueSnoc(first, s.log, LogWork(id, outcome));
    FitSnoc(first, s.log, LogWork(id, outcome));
  }

  lemma StepKeepsQueue(base: seq<EnvelopeId>, first: seq<Event>, s: System, a: Action)
    requires Inv(base, s) && QueueInv(first, s)
    ensures QueueInv(first, Step(s, a))
  {
    hide Inv, Persisted, WorkedOut, Transition, AfterCall, SignalAborted, Queue, AllFit, Valid, FlagStep, Calls;
    match s.proc {
      case None =>
      case Some(p) =>
        match a {
          case Persist =>
            if p.store.flight.Some? && !p.store.flight.value.persisted {
              PersistKeepsQueue(base, first, s, p, p.store.flight.value);
            }
          case WorkDone(lane, outcome) =>
            if PhaseOf(p.workers, lane).Working? {
              WorkKeepsQueue(first, s, p, lane, PhaseOf(p.workers, lane).id, outcome);
            }
          case _ =>
        }
    }
  }

  lemma {:induction false} RunKeepsQueue(disk: State, actions: seq<Action>)
    requires Valid(disk)
    ensures QueueInv(Events(disk.entries), Exec(Init(disk), actions))
  {
    hide Valid, Inv, Step;
    if actions != [] {
      var before := actions[..|actions| - 1];
      RunKeepsInv(disk, before);
      RunKeepsQueue(disk, before);
      StepKeepsQueue(disk.receipts, Events(disk.entries), Exec(Init(disk), before), actions[|actions| - 1]);
    }
  }

  /** In every run the file holds exactly the envelopes that were in it at first or were durably
      enqueued, without those completed, with their content and in that order. */
  lemma FileIsTheQueue(disk: State, actions: seq<Action>)
    requires Valid(disk)
    ensures var s := Exec(Init(disk), actions); Events(s.disk.entries) == Queue(Events(disk.entries), s.log)
  {
    hide Exec;
    RunKeepsQueue(disk, actions);
  }

  /** Every claim that reached the file answered an envelope of the queue with the content it was
      enqueued with; on the primary lane it was the oldest. */
  lemma ClaimsAnswerTheQueue(disk: State, actions: seq<Action>, k: nat)
    requires Valid(disk)
    requires var log := Exec(Init(disk), actions).log; k < |log| && log[k].LogClaim?
    ensures var log := Exec(Init(disk), actions).log;
      var queue := Queue(Events(disk.entries), log[..k]);
      log[k].event in queue && (log[k].lane == Primary ==> log[k].event == queue[0])
  {
    hide Exec, Queue;
    RunKeepsQueue(disk, actions);
    var log := Exec(Init(disk), actions).log;
    assert Fits(Queue(Events(disk.entries), log[..k]), log[k]);
  }

  // ---------- the order of admission ----------

  /** All envelopes ever admitted, in order: those of the first file, then those enqueued. */
  function Admitted(first: seq<Event>, log: seq<LogEvent>): seq<Event> {
    if log == [] then first
    else
      var before, last := Admitted(first, log[..|log| - 1]), log[|log| - 1];
      if last.LogEnqueue? then before + [last.event] else before
  }

  /** `at` gives for each queued envelope where it was admitted: in the same order, with the same
      content, and never again under that id. */
  predicate AdmittedAt(queue: seq<Event>, admitted: seq<Event>, at: seq<nat>) {
    && |at| == |queue|
    && (forall i :: 0 <= i < |at| ==> at[i] < |admitted| && admitted[at[i]] == queue[i])
    && (forall i, j :: 0 <= i < j < |at| ==> at[i] < at[j])
    && (forall i, m :: 0 <= i < |at| && at[i] < m < |admitted| ==> admitted[m].envelopeId != queue[i].envelopeId)
  }

  lemma AdmitOne(queue: seq<Event>, admitted: seq<Event>, at: seq<nat>, event: Event)
    requires AdmittedAt(queue, admitted, at) && Absent(queue, event.envelopeId)
    ensures AdmittedAt(queue + [event], admitted + [event], at + [|admitted|])
  {
  }

  lemma AdmittedTail(queue: seq<Event>, admitted: seq<Event>, at: seq<nat>)
    requires AdmittedAt(queue, admitted, at) && queue != []
    ensures AdmittedAt(queue[1..], admitted, at[1..])
  {
  }

  lemma {:induction false} DropKeepsAdmitted(queue: seq<Event>, admitted: seq<Event>, at: seq<nat>, id: EnvelopeId)
    returns (rest: seq<nat>)
    requires AdmittedAt(queue, admitted, at)
    ensures AdmittedAt(Dropped(queue, id), admitted, rest)
    ensures |at| == |queue| && |rest| == |Dropped(queue, id)|
    ensures queue != [] && rest != [] ==> at[0] <= rest[0]
    decreases |queue|
  {
    hide AdmittedAt;
    assert |at| == |queue| by { AtLength(queue, admitted, at); }
    if queue == [] {
      rest := at;
    } else {
      AdmittedTail(queue, admitted, at);
      rest := DropKeepsAdmitted(queue[1..], admitted, at[1..], id);
      AtLater(queue, admitted, at);
      if queue[0].envelopeId != id {
        AdmittedCons(queue, admitted, at, Dropped(queue[1..], id), rest);
        rest := [at[0]] + rest;
      }
    }
  }

  lemma AtLength(queue: seq<Event>, admitted: seq<Event>, at: seq<nat>)
    requires AdmittedAt(queue, admitted, at)
    ensures |at| == |queue|
  {
  }

  lemma AtLater(queue: seq<Event>, admitted: seq<Event>, at: seq<nat>)
    requires AdmittedAt(queue, admitted, at) && queue != []
    ensures |at| == |queue| && (|queue| > 1 ==> at[0] < at[1..][0])
  {
  }

  lemma AdmittedCons(queue: seq<Event>, admitted: seq<Event>, at: seq<nat>, q: seq<Event>, r: seq<nat>)
    requires AdmittedAt(queue, admitted, at) && queue != [] && AdmittedAt(q, admitted, r)
    requires r != [] ==> at[0] < r[0]
    ensures AdmittedAt([queue[0]] + q, admitted, [at[0]] + r)
  {
    assert forall i :: 0 < i < |r| ==> r[0] < r[i];
  }

  /** The queue that a log describes is in the order of admission, and holds of each envelope what
      was last admitted under its id. */
  lemma {:induction false} QueueIsInOrder(first: seq<Event>, log: seq<LogEvent>) returns (at: seq<nat>)
    requires AllFit(first, log) && forall i, j :: 0 <= i < j < |first| ==> first[i].envelopeId != first[j].envelopeId
    ensures AdmittedAt(Queue(first, log), Admitted(first, log), at)
  {
    if log == [] {
      at := seq(|first|, i => i);
    } else {
      var n := |log| - 1;
      hide AdmittedAt;
      assert AllFit(first, log[..n]) by {
        assert forall k :: 0 <= k < n ==> log[..n][..k] == log[..k];
      }
      at := QueueIsInOrder(first, log[..n]);
      assert Fits(Queue(first, log[..n]), log[n]);
      match log[n] {
        case LogEnqueue(event) =>
          AdmitOne(Queue(first, log[..n]), Admitted(first, log[..n]), at, event);
          at := at + [|Admitted(first, log[..n])|];
        case LogComplete(id) =>
          at := DropKeepsAdmitted(Queue(first, log[..n]), Admitted(first, log[..n]), at, id);
        case _ =>
      }
    }
  }

  /** In every run the entries of the file stand in the order in which they were admitted, and the
      event of each is the one last admitted under its id. */
  lemma FileIsInAdmissionOrder(disk: State, actions: seq<Action>)
    requires Valid(disk)
    ensures var s := Exec(Init(disk), actions);
      exists at :: AdmittedAt(Events(s.disk.entries), Admitted(Events(disk.entries), s.log), at)
  {
    hide Exec, AdmittedAt, Queue, Admitted;
    RunKeepsQueue(disk, actions);
    ValidIdsUnique(disk);
    forall i | 0 <= i < |disk.entries| ensures Events(disk.entries)[i].envelopeId == disk.entries[i].envelopeId {
      EntryIsValid(disk, i);
    }
    var at := QueueIsInOrder(Events(disk.entries), Exec(Init(disk), actions).log);
  }

  // ---------- nothing admitted is lost ----------

  lemma {:induction false} StaysQueued(first: seq<Event>, log: seq<LogEvent>, k: nat)
    requires k < |log| && log[k].LogEnqueue?
    ensures log[k].event in Queue(first, log)
      || exists j :: k < j < |log| && log[j] == LogComplete(log[k].event.envelopeId)
    decreases |log|
  {
    var n := |log| - 1;
    if k < n {
      StaysQueued(first, log[..n], k);
      if log[n].LogComplete? { DroppedHas(Queue(first, log[..n]), log[n].id, log[k].event); }
    }
  }

  /** An envelope once durably enqueued is in the file as it was enqueued, or has been completed since. */
  lemma NoEnvelopeLost(disk: State, actions: seq<Action>, k: nat)
    requires Valid(disk)
    requires var log := Exec(Init(disk), actions).log; k < |log| && log[k].LogEnqueue?
    ensures var s := Exec(Init(disk), actions);
      || s.log[k].event in Events(s.disk.entries)
      || exists j :: k < j < |s.log| && s.log[j] == LogComplete(s.log[k].event.envelopeId)
  {
    hide Exec, Queue, AllFit;
    RunKeepsQueue(disk, actions);
    StaysQueued(Events(disk.entries), Exec(Init(disk), actions).log, k);
  }

  predicate LogsEnqueue(log: seq<LogEvent>, id: EnvelopeId) {
    exists k :: 0 <= k < |log| && log[k].LogEnqueue? && log[k].event.envelopeId == id
  }

  lemma LogsMore(log: seq<LogEvent>, more: seq<LogEvent>, id: EnvelopeId)
    ensures LogsEnqueue(log, id) ==> LogsEnqueue(log + more, id)
  {
    if LogsEnqueue(log, id) {
      var k :| 0 <= k < |log| && log[k].LogEnqueue? && log[k].event.envelopeId == id;
      assert (log + more)[k] == log[k];
    }
  }

  lemma {:induction false} QueuedWasLogged(first: seq<Event>, log: seq<LogEvent>, id: EnvelopeId)
    requires !Absent(Queue(first, log), id)
    ensures !Absent(first, id) || LogsEnqueue(log, id)
  {
    if log != [] {
      var n := |log| - 1;
      var before := Queue(first, log[..n]);
      assert log == log[..n] + [log[n]];
      LogsMore(log[..n], [log[n]], id);
      var i :| 0 <= i < |Queue(first, log)| && Queue(first, log)[i].envelopeId == id;
      var e := Queue(first, log)[i];
      if log[n].LogComplete? { DroppedHas(before, log[n].id, e); }
      if e in before {
        var m :| 0 <= m < |before| && before[m] == e;
        QueuedWasLogged(first, log[..n], id);
      }
    }
  }

  lemma {:induction false} CompletedWasLogged(first: seq<Event>, log: seq<LogEvent>, id: EnvelopeId)
    requires AllFit(first, log) && id in Completions(log)
    ensures !Absent(first, id) || LogsEnqueue(log, id)
  {
    var n := |log| - 1;
    assert log == log[..n] + [log[n]];
    assert AllFit(first, log[..n]) by {
      assert forall k :: 0 <= k < n ==> log[..n][..k] == log[..k];
    }
    LogsMore(log[..n], [log[n]], id);
    if log[n] == LogComplete(id) {
      assert Fits(Queue(first, log[..n]), log[n]);
      QueuedWasLogged(first, log[..n], id);
    } else {
      CompletedWasLogged(first, log[..n], id);
    }
  }

  /** What the socket was answered for was in the first file, as an entry or a receipt, or has been
      durably enqueued. */
  lemma AcknowledgedWasAdmitted(disk: State, actions: seq<Action>, id: EnvelopeId)
    requires Valid(disk) && id in Exec(Init(disk), actions).acked
    ensures id in Known(disk) || id in disk.receipts || LogsEnqueue(Exec(Init(disk), actions).log, id)
  {
    hide Exec, Queue, AllFit, Known, Absent, LogsEnqueue, Completions;
    RunKeepsInv(disk, actions);
    RunKeepsQueue(disk, actions);
    var s := Exec(Init(disk), actions);
    AbsentUnlessKnown(disk, id);
    AbsentUnlessKnown(s.disk, id);
    if id in Known(s.disk) {
      QueuedWasLogged(Events(disk.entries), s.log, id);
    } else if id !in disk.receipts {
      CompletedWasLogged(Events(disk.entries), s.log, id);
    }
  }
}
