/** The inbox as a queue of events: exactly when each call writes, refuses or has nothing to do,
    and what it leaves of the queue, said without the functions that compute it. */
module SlackInboxQueue {
  import opened Basics
  import opened SlackInboxState
  import opened SlackInboxLaws

  // ---------- the queue ----------

  /** The envelopes the inbox holds, oldest first. */
  function Events(entries: seq<Entry>): (events: seq<Event>)
    ensures |events| == |entries| && forall i :: 0 <= i < |entries| ==> events[i] == entries[i].event
  {
    seq(|entries|, i requires 0 <= i < |entries| => entries[i].event)
  }

  function Dropped(events: seq<Event>, id: EnvelopeId): seq<Event> {
    if events == [] then []
    else if events[0].envelopeId == id then Dropped(events[1..], id)
    else [events[0]] + Dropped(events[1..], id)
  }

  lemma {:induction false} DroppedHas(events: seq<Event>, id: EnvelopeId, e: Event)
    ensures e in Dropped(events, id) <==> e in events && e.envelopeId != id
  {
    if events != [] {
      DroppedHas(events[1..], id, e);
    }
  }

  lemma {:induction false} DroppedNothing(events: seq<Event>, id: EnvelopeId)
    requires forall k :: 0 <= k < |events| ==> events[k].envelopeId != id
    ensures Dropped(events, id) == events
  {
    if events != [] {
      DroppedNothing(events[1..], id);
    }
  }

  lemma {:induction false} DroppedOne(events: seq<Event>, i: nat, id: EnvelopeId)
    requires i < |events| && forall k :: 0 <= k < |events| ==> (events[k].envelopeId == id <==> k == i)
    ensures Dropped(events, id) == events[..i] + events[i + 1..]
  {
    if i == 0 {
      DroppedNothing(events[1..], id);
    } else {
      DroppedOne(events[1..], i - 1, id);
      assert events[1..][..i - 1] == events[1..i] && events[1..][i..] == events[i + 1..];
      assert events[..i] == [events[0]] + events[1..i];
    }
  }

  // ---------- what a call leaves of the queue ----------

  /** Admission appends the event it was given, completion takes its envelope out, and every other
      call leaves envelopes and order alone. */
  function QueueAfter(events: seq<Event>, op: Op): seq<Event> {
    match op
    case Enqueue(event) => events + [event]
    case Complete(id) => Dropped(events, id)
    case _ => events
  }

  lemma CompleteQueue(s: State, recoveryBlocked: bool, id: EnvelopeId)
    requires Valid(s) && Transition(s, recoveryBlocked, Complete(id)).Write?
    ensures Events(Transition(s, recoveryBlocked, Complete(id)).next.entries) == Dropped(Events(s.entries), id)
  {
    hide Transition, LastN, Having;
    CompleteShape(s, recoveryBlocked, id);
    ValidIdsUnique(s);
    var i, events := IndexOf(s.entries, id), Events(s.entries);
    forall k | 0 <= k < |events| ensures events[k].envelopeId == id <==> k == i { EntryIsValid(s, k); }
    DroppedOne(events, i, id);
  }

  lemma TransitionQueue(s: State, recoveryBlocked: bool, op: Op)
    requires Valid(s) && Transition(s, recoveryBlocked, op).Write?
    ensures Events(Transition(s, recoveryBlocked, op).next.entries) == QueueAfter(Events(s.entries), op)
  {
    hide Valid, ClaimIndex, Having, HasFailed, FirstIndex, LastN, Without, Dropped;
    if op.Complete? { CompleteQueue(s, recoveryBlocked, op.id); }
  }

  // ---------- exactly when a call succeeds ----------

  lemma KnownAt(s: State, id: EnvelopeId)
    ensures id in Known(s) <==> IndexOf(s.entries, id) != -1
  {
    if id in Known(s) {
      var st: Status :| id in Having(s, st);
      var k := HavingIndex(s, st, id);
    } else if IndexOf(s.entries, id) != -1 {
      var k := IndexOf(s.entries, id);
      HavingFrom(s, s.entries[k].status, k);
    }
  }

  /** An event is admitted exactly when its id is well formed and new to entries and receipts,
      nothing has failed, the inbox is not blocked, and it holds fewer than 256 envelopes. */
  lemma EnqueueExactly(s: State, recoveryBlocked: bool, event: Event)
    requires Valid(s)
    ensures var c, id := Transition(s, recoveryBlocked, Enqueue(event)), event.envelopeId;
      var seen := id in Known(s) || id in s.receipts;
      && (c == Refuse(Invalid) <==> !ValidEnvelopeId(id))
      && (c == Keep(Duplicate) <==> ValidEnvelopeId(id) && seen)
      && (c == Refuse(Blocked) <==> ValidEnvelopeId(id) && !seen && (Having(s, Failed) != {} || recoveryBlocked))
      && (c == Refuse(Full) <==>
          ValidEnvelopeId(id) && !seen && Having(s, Failed) == {} && !recoveryBlocked && |s.entries| == 256)
      && (c.Write? <==>
          ValidEnvelopeId(id) && !seen && Having(s, Failed) == {} && !recoveryBlocked && |s.entries| < 256)
  {
    hide Having, IndexOf, HasFailed, Known;
    KnownAt(s, event.envelopeId);
    HasIffHaving(s);
  }

  /** Whether the event may be taken by the lane: control takes what is eligible, primary the rest. */
  predicate For(lane: Lane, eligible: set<EnvelopeId>, e: Entry) {
    lane == Control <==> e.envelopeId in eligible
  }

  predicate InFlight(s: State, i: nat) {
    i < |s.entries| && s.entries[i].status == Processing
  }

  /** The primary lane works alone; the control lane works beside a primary only. */
  ghost predicate LaneFree(s: State, lane: Lane) {
    forall i: nat :: InFlight(s, i) ==> lane == Control && s.entries[i].lane == Some(Primary)
  }

  /** Entry `i` is next for the lane: it waits and is for the lane, nothing older waits for the
      lane, and if nothing is in flight nothing older waits at all. */
  ghost predicate NextFor(s: State, lane: Lane, eligible: set<EnvelopeId>, i: nat) {
    && i < |s.entries| && s.entries[i].status == Pending && For(lane, eligible, s.entries[i])
    && forall k :: 0 <= k < i && s.entries[k].status == Pending ==>
         !For(lane, eligible, s.entries[k]) && exists j: nat :: InFlight(s, j)
  }

  function Taking(s: State, lane: Lane, i: nat): Change
    requires i < |s.entries|
  {
    var e := s.entries[i];
    Write(
      State(s.entries[i := Entry(e.envelopeId, Processing, Some(lane), e.event)], s.receipts), Claimed(e.event))
  }

  lemma BusyIsNotFree(s: State, lane: Lane)
    requires Valid(s)
    ensures LaneBusy(s, lane) <==> !LaneFree(s, lane)
  {
    if LaneBusy(s, lane) {
      var i :| 0 <= i < |s.entries| && s.entries[i].status == Processing
        && (lane == Control ==> s.entries[i].lane != Some(Primary));
      assert InFlight(s, i);
    }
  }

  lemma NextIsIndex(s: State, lane: Lane, eligible: set<EnvelopeId>, i: nat)
    requires Valid(s) && !HasFailed(s) && LaneFree(s, lane)
    ensures NextFor(s, lane, eligible, i) <==> ClaimIndex(s, false, lane, eligible) == i
  {
    BusyIsNotFree(s, lane);
    assert HasProcessing(s) <==> exists j: nat :: InFlight(s, j) by {
      if HasProcessing(s) {
        var j :| 0 <= j < |s.entries| && s.entries[j].status == Processing;
        assert InFlight(s, j);
      }
    }
  }

  /** A lane claims exactly when nothing has failed, the inbox is not blocked, the lane is free and
      something is next for it; it then claims that, answers its event, and changes nothing else. */
  lemma ClaimExactly(s: State, recoveryBlocked: bool, lane: Lane, eligible: set<EnvelopeId>)
    requires Valid(s)
    ensures var c := Transition(s, recoveryBlocked, Claim(lane, eligible));
      && (c.Write? <==>
          && Having(s, Failed) == {} && !recoveryBlocked && LaneFree(s, lane)
          && exists i: nat :: NextFor(s, lane, eligible, i))
      && (c.Write? ==> exists i: nat :: NextFor(s, lane, eligible, i) && c == Taking(s, lane, i))
      && (!c.Write? ==> c == Keep(NothingToClaim))
  {
    hide Having, NextFor, LaneFree, LaneBusy, HasFailed, HasProcessing, FirstIndex;
    HasIffHaving(s);
    BusyIsNotFree(s, lane);
    if !HasFailed(s) && !recoveryBlocked && LaneFree(s, lane) {
      forall i: nat ensures NextFor(s, lane, eligible, i) <==> ClaimIndex(s, false, lane, eligible) == i {
        NextIsIndex(s, lane, eligible, i);
      }
      var i := ClaimIndex(s, false, lane, eligible);
      if i != -1 { assert NextFor(s, lane, eligible, i); }
    }
  }

  /** Release, completion and failure are accepted exactly for an envelope in flight; completion is
      repeated quietly while its receipt is kept, and failure moreover for a failed envelope. */
  lemma SettleExactly(s: State, recoveryBlocked: bool, op: Op)
    requires Valid(s) && (op.Release? || op.Complete? || op.Fail?) && ValidEnvelopeId(op.id)
    ensures var c := Transition(s, recoveryBlocked, op);
      && (c.Write? <==> op.id in Having(s, Processing))
      && (c.Keep? <==> (!op.Release? && op.id in s.receipts) || (op.Fail? && op.id in Having(s, Failed)))
      && (c.Refuse? ==> c.error == Corrupt)
  {
    hide Having, Valid;
    ValidIdsUnique(s);
    var i := IndexOf(s.entries, op.id);
    forall st: Status ensures op.id in Having(s, st) <==> i != -1 && s.entries[i].status == st {
      if op.id in Having(s, st) {
        var k := HavingIndex(s, st, op.id);
        IndexOfUnique(s, op.id, k);
      } else if i != -1 && s.entries[i].status == st {
        HavingFrom(s, st, i);
      }
    }
  }
}
