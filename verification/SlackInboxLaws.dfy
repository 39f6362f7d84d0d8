/** What every inbox transition keeps and does, and the order in which the two
    lanes take work. */
module SlackInboxLaws {
  import opened Basics
  import opened SlackInboxState

  lemma IndexOfUnique(s: State, id: EnvelopeId, i: int)
    requires Valid(s) && 0 <= i < |s.entries| && s.entries[i].envelopeId == id
    ensures IndexOf(s.entries, id) == i
  {
    ValidIdsUnique(s);
  }

  lemma EntryUpdateValid(s: State, i: int, e: Entry)
    requires Valid(s) && 0 <= i < |s.entries|
    requires ValidEntry(e) && e.envelopeId == s.entries[i].envelopeId
    requires forall j :: 0 <= j < |s.entries| && j != i ==> Compatible(s.entries[j], e)
    ensures Valid(s.(entries := s.entries[i := e]))
  {
    ValidIdsUnique(s);
    var t := s.(entries := s.entries[i := e]);
    forall j, k | 0 <= j < k < |t.entries| ensures Compatible(t.entries[j], t.entries[k]) {
      assert j != i && k != i ==> Compatible(s.entries[j], s.entries[k]);
      assert k == i ==> Compatible(s.entries[j], e);
      assert j == i ==> Compatible(s.entries[k], e);
    }
  }

  lemma HavingFrom(s: State, st: Status, i: int)
    requires 0 <= i < |s.entries| && s.entries[i].status == st
    ensures s.entries[i].envelopeId in Having(s, st)
  {
  }

  lemma HavingIndex(s: State, st: Status, id: EnvelopeId) returns (i: int)
    requires id in Having(s, st)
    ensures 0 <= i < |s.entries| && s.entries[i].status == st && s.entries[i].envelopeId == id
  {
    i :| 0 <= i < |s.entries| && s.entries[i].status == st && s.entries[i].envelopeId == id;
  }

  function Moved(ids: set<EnvelopeId>, id: EnvelopeId, into: bool): set<EnvelopeId> {
    if into then ids + {id} else ids - {id}
  }

  /** Replacing entry i moves its envelope from one status to another. */
  lemma EntryUpdateMoves(s: State, i: int, e: Entry, st: Status)
    requires Valid(s) && 0 <= i < |s.entries|
    requires e.envelopeId == s.entries[i].envelopeId
    ensures Having(s.(entries := s.entries[i := e]), st) == Moved(Having(s, st), e.envelopeId, e.status == st)
  {
    ValidIdsUnique(s);
    var t := s.(entries := s.entries[i := e]);
    forall id | id in Moved(Having(s, st), e.envelopeId, e.status == st) ensures id in Having(t, st) {
      if id == e.envelopeId {
        HavingFrom(t, st, i);
      } else {
        var k := HavingIndex(s, st, id);
        HavingFrom(t, st, k);
      }
    }
    forall id | id in Having(t, st) ensures id in Moved(Having(s, st), e.envelopeId, e.status == st) {
      var k := HavingIndex(t, st, id);
      if k != i {
        HavingFrom(s, st, k);
      }
    }
  }

  lemma EntryUpdateMovesAll(s: State, i: int, e: Entry)
    requires Valid(s) && 0 <= i < |s.entries|
    requires e.envelopeId == s.entries[i].envelopeId
    ensures forall st: Status ::
      Having(s.(entries := s.entries[i := e]), st) == Moved(Having(s, st), e.envelopeId, e.status == st)
  {
    forall st: Status
      ensures Having(s.(entries := s.entries[i := e]), st) == Moved(Having(s, st), e.envelopeId, e.status == st)
    {
      EntryUpdateMoves(s, i, e, st);
    }
  }

  lemma ClaimIsCompatible(s: State, recoveryBlocked: bool, lane: Lane, eligible: set<EnvelopeId>)
    requires Valid(s) && ClaimIndex(s, recoveryBlocked, lane, eligible) != -1
    ensures var i := ClaimIndex(s, recoveryBlocked, lane, eligible);
      && s.entries[i].status == Pending
      && forall j :: 0 <= j < |s.entries| && j != i ==>
           Compatible(s.entries[j], s.entries[i].(status := Processing, lane := Some(lane)))
  {
  }

  function Removed(entries: seq<Entry>, i: int): (r: seq<Entry>)
    requires 0 <= i < |entries|
    ensures |r| == |entries| - 1
    ensures forall k :: 0 <= k < |r| ==> r[k] == entries[if k < i then k else k + 1]
  {
    entries[..i] + entries[i + 1..]
  }

  lemma RemovalMoves(s: State, i: int, receipts: seq<EnvelopeId>, st: Status)
    requires Valid(s) && 0 <= i < |s.entries|
    ensures Having(State(Removed(s.entries, i), receipts), st) == Having(s, st) - {s.entries[i].envelopeId}
  {
    ValidIdsUnique(s);
    var t := State(Removed(s.entries, i), receipts);
    forall id | id in Having(s, st) - {s.entries[i].envelopeId} ensures id in Having(t, st) {
      var k := HavingIndex(s, st, id);
      assert k != i;
      HavingFrom(t, st, if k < i then k else k - 1);
    }
    forall id | id in Having(t, st) ensures id in Having(s, st) - {s.entries[i].envelopeId} {
      var k := HavingIndex(t, st, id);
      HavingFrom(s, st, if k < i then k else k + 1);
    }
  }

  lemma WindowSlides(receipts: seq<EnvelopeId>, id: EnvelopeId, n: nat)
    requires Distinct(receipts) && id !in receipts
    ensures |LastN(receipts + [id], n)| <= n && Distinct(LastN(receipts + [id], n))
    ensures forall r <- LastN(receipts + [id], n) :: r == id || r in receipts
  {
    var all := receipts + [id];
  }

  lemma RemovalValid(s: State, i: int, receipts: seq<EnvelopeId>)
    requires Valid(s) && 0 <= i < |s.entries|
    requires |receipts| <= MAX_RECEIPTS && Distinct(receipts)
    requires forall r <- receipts :: r == s.entries[i].envelopeId || r in s.receipts
    ensures Valid(State(Removed(s.entries, i), receipts))
  {
    hide Having;
    ValidIdsUnique(s);
    var t := State(Removed(s.entries, i), receipts);
    forall k | 0 <= k < |receipts| ensures ValidEnvelopeId(receipts[k]) {
      assert receipts[k] in receipts;
      assert ValidEntry(s.entries[i]);
    }
    forall j, k | 0 <= j < k < |t.entries| ensures Compatible(t.entries[j], t.entries[k]) {
      assert Compatible(s.entries[if j < i then j else j + 1], s.entries[if k < i then k else k + 1]);
    }
  }

  lemma CompleteShape(s: State, recoveryBlocked: bool, id: EnvelopeId)
    requires Valid(s) && Transition(s, recoveryBlocked, Complete(id)).Write?
    ensures var i := IndexOf(s.entries, id);
      && 0 <= i < |s.entries| && s.entries[i].envelopeId == id && s.entries[i].status == Processing
      && id !in s.receipts
      && Transition(s, recoveryBlocked, Complete(id))
         == Write(State(Removed(s.entries, i), LastN(s.receipts + [id], MAX_RECEIPTS)), Done)
  {
    hide Valid, Having, LastN;
    ValidIdsUnique(s);
    WithoutAbsent(s.receipts, id);
  }

  lemma EnqueueValid(s: State, e: Entry)
    requires Valid(s) && |s.entries| < MAX_ENTRIES
    requires ValidEntry(e) && e.status == Pending
    requires e.envelopeId !in s.receipts && forall i :: 0 <= i < |s.entries| ==> s.entries[i].envelopeId != e.envelopeId
    ensures Valid(s.(entries := s.entries + [e]))
  {
    ValidIdsUnique(s);
  }

  lemma RequeueValid(s: State, ids: seq<EnvelopeId>)
    requires Valid(s)
    ensures Valid(s.(entries := RequeueEntries(s.entries, ids)))
  {
    ValidIdsUnique(s);
    var t := s.(entries := RequeueEntries(s.entries, ids));
    forall i, j | 0 <= i < j < |t.entries| ensures Compatible(t.entries[i], t.entries[j]) {
      assert Compatible(s.entries[i], s.entries[j]);
    }
  }

  lemma EntryIsValid(s: State, i: int)
    requires Valid(s) && 0 <= i < |s.entries|
    ensures ValidEntry(s.entries[i])
  {
  }

  /** A malformed call is refused whatever the inbox holds. */
  lemma MalformedIsRefused(s: State, recoveryBlocked: bool, op: Op)
    ensures Malformed(op) <==> Transition(s, recoveryBlocked, op) == Refuse(Invalid)
  {
  }

  /** Every transition of a valid inbox gives a valid inbox, so the structural
      half of `validateState` never fires on a commit. */
  lemma TransitionKeepsValid(s: State, recoveryBlocked: bool, op: Op)
    requires Valid(s) && Transition(s, recoveryBlocked, op).Write?
    ensures Valid(Transition(s, recoveryBlocked, op).next)
  {
    hide Valid, ClaimIndex, Having, HasFailed;
    match op {
      case Enqueue(event) => EnqueueValid(s, Entry(event.envelopeId, Pending, None, event));
      case Claim(lane, eligible) =>
        ClaimIsCompatible(s, recoveryBlocked, lane, eligible);
        var i := ClaimIndex(s, recoveryBlocked, lane, eligible);
        EntryIsValid(s, i);
        EntryUpdateValid(s, i, s.entries[i].(status := Processing, lane := Some(lane)));
      case Release(id) =>
        var i := IndexOf(s.entries, id);
        EntryIsValid(s, i);
        EntryUpdateValid(s, i, ToPending(s.entries[i]));
      case Requeue(ids) => RequeueValid(s, ids);
      case Complete(id) =>
        CompleteShape(s, recoveryBlocked, id);
        ValidIdsUnique(s);
        WindowSlides(s.receipts, id, MAX_RECEIPTS);
        RemovalValid(s, IndexOf(s.entries, id), LastN(s.receipts + [id], MAX_RECEIPTS));
      case Fail(id) =>
        var i := IndexOf(s.entries, id);
        EntryIsValid(s, i);
        EntryUpdateValid(s, i, s.entries[i].(status := Failed, lane := None));
    }
  }

  /** The whole effect of a transition on which envelopes are where. */
  ghost predicate Effect(s: State, op: Op, t: State, reply: Reply) {
    match op
    case Enqueue(event) =>
      && reply == Enqueued && event.envelopeId !in Known(s) && event.envelopeId !in s.receipts
      && Having(t, Pending) == Having(s, Pending) + {event.envelopeId}
      && Having(t, Processing) == Having(s, Processing) && Having(t, Failed) == Having(s, Failed) == {}
      && t.receipts == s.receipts
    case Claim(lane, eligible) =>
      && reply.Claimed?
      && var id := reply.event.envelopeId;
      && id in Having(s, Pending) && (lane == Control <==> id in eligible)
      && (lane == Primary ==> Having(s, Processing) == {})
      && Having(t, Pending) == Having(s, Pending) - {id}
      && Having(t, Processing) == Having(s, Processing) + {id}
      && Having(t, Failed) == Having(s, Failed) == {} && t.receipts == s.receipts
    case Release(id) =>
      && reply == Done && id in Having(s, Processing)
      && Having(t, Pending) == Having(s, Pending) + {id}
      && Having(t, Processing) == Having(s, Processing) - {id}
      && Having(t, Failed) == Having(s, Failed) && t.receipts == s.receipts
    case Requeue(ids) =>
      && var moved := Requeues(s, ids);
      && moved != {} && reply == Requeued(|moved|) && |ids| <= 2
      && Having(t, Pending) == Having(s, Pending) + moved
      && Having(t, Processing) == Having(s, Processing) - moved
      && Having(t, Failed) == Having(s, Failed) && t.receipts == s.receipts
    case Complete(id) =>
      && reply == Done && id in Having(s, Processing)
      && Having(t, Pending) == Having(s, Pending)
      && Having(t, Processing) == Having(s, Processing) - {id}
      && Having(t, Failed) == Having(s, Failed)
      && t.receipts == LastN(s.receipts + [id], MAX_RECEIPTS)
    case Fail(id) =>
      && reply == Done && id in Having(s, Processing)
      && Having(t, Pending) == Having(s, Pending)
      && Having(t, Processing) == Having(s, Processing) - {id}
      && Having(t, Failed) == Having(s, Failed) + {id} && t.receipts == s.receipts
  }

  lemma HasIffHaving(s: State)
    ensures HasFailed(s) <==> Having(s, Failed) != {}
    ensures HasProcessing(s) <==> Having(s, Processing) != {}
  {
    if HasFailed(s) {
      var i :| 0 <= i < |s.entries| && s.entries[i].status == Failed;
      HavingFrom(s, Failed, i);
    }
    if HasProcessing(s) {
      var i :| 0 <= i < |s.entries| && s.entries[i].status == Processing;
      HavingFrom(s, Processing, i);
    }
  }

  lemma RequeuedEntry(s: State, ids: seq<EnvelopeId>, k: nat)
    requires k < |s.entries|
    ensures var e, r := s.entries[k], RequeueEntries(s.entries, ids)[k];
      && r.envelopeId == e.envelopeId
      && r.status == if e.status == Processing && e.envelopeId in ids then Pending else e.status
  {
  }

  lemma RequeueMoves(s: State, ids: seq<EnvelopeId>, st: Status)
    requires Valid(s)
    ensures Having(s.(entries := RequeueEntries(s.entries, ids)), st)
      == match st
         case Pending => Having(s, st) + Requeues(s, ids)
         case Processing => Having(s, st) - Requeues(s, ids)
         case Failed => Having(s, st)
  {
    hide Valid, Having, RequeueEntries;
    ValidIdsUnique(s);
    var t := s.(entries := RequeueEntries(s.entries, ids));
    assert |t.entries| == |s.entries|;
    forall id | id in Having(t, st)
      ensures if st == Pending && id in Requeues(s, ids) then true else id in Having(s, st)
      ensures st == Processing ==> id !in Requeues(s, ids)
    {
      var k := HavingIndex(t, st, id);
      RequeuedEntry(s, ids, k);
      HavingFrom(s, s.entries[k].status, k);
    }
    forall id | id in Having(s, st) && !(st == Processing && id in ids) ensures id in Having(t, st) {
      var k := HavingIndex(s, st, id);
      RequeuedEntry(s, ids, k);
      HavingFrom(t, st, k);
    }
    forall id | id in Requeues(s, ids) ensures id in Having(t, Pending) {
      var k := HavingIndex(s, Processing, id);
      RequeuedEntry(s, ids, k);
      HavingFrom(t, Pending, k);
    }
  }

  lemma EnqueueMoves(s: State, e: Entry, st: Status)
    ensures Having(s.(entries := s.entries + [e]), st)
      == if e.status == st then Having(s, st) + {e.envelopeId} else Having(s, st)
  {
    var t := s.(entries := s.entries + [e]);
    forall id | id in Having(s, st) ensures id in Having(t, st) {
      var k := HavingIndex(s, st, id);
      HavingFrom(t, st, k);
    }
    if e.status == st {
      HavingFrom(t, st, |s.entries|);
    }
  }

  lemma EnqueueEffect(s: State, recoveryBlocked: bool, event: Event)
    requires Valid(s) && Transition(s, recoveryBlocked, Enqueue(event)).Write?
    ensures Effect(s, Enqueue(event), Transition(s, recoveryBlocked, Enqueue(event)).next, Enqueued)
  {
    hide Valid, Having;
    HasIffHaving(s);
    var e := Entry(event.envelopeId, Pending, None, event);
    forall st: Status | event.envelopeId in Having(s, st) ensures false {
      var k := HavingIndex(s, st, event.envelopeId);
    }
    EnqueueMoves(s, e, Pending);
    EnqueueMoves(s, e, Processing);
    EnqueueMoves(s, e, Failed);
  }

  lemma ClaimEffect(s: State, recoveryBlocked: bool, lane: Lane, eligible: set<EnvelopeId>)
    requires Valid(s) && Transition(s, recoveryBlocked, Claim(lane, eligible)).Write?
    ensures var c := Transition(s, recoveryBlocked, Claim(lane, eligible));
      Effect(s, Claim(lane, eligible), c.next, c.reply)
  {
    hide Valid, Having;
    ValidIdsUnique(s);
    HasIffHaving(s);
    ClaimIsCompatible(s, recoveryBlocked, lane, eligible);
    var i := ClaimIndex(s, recoveryBlocked, lane, eligible);
    EntryIsValid(s, i);
    HavingFrom(s, Pending, i);
    EntryUpdateMovesAll(s, i, s.entries[i].(status := Processing, lane := Some(lane)));
  }

  lemma CompleteRemoves(s: State, recoveryBlocked: bool, id: EnvelopeId, st: Status)
    requires Valid(s) && Transition(s, recoveryBlocked, Complete(id)).Write?
    ensures Having(Transition(s, recoveryBlocked, Complete(id)).next, st) == Having(s, st) - {id}
  {
    hide Valid, Transition, Having, Removed, LastN, IndexOf;
    CompleteShape(s, recoveryBlocked, id);
    RemovalMoves(s, IndexOf(s.entries, id), LastN(s.receipts + [id], MAX_RECEIPTS), st);
  }

  lemma CompleteEffect(s: State, recoveryBlocked: bool, id: EnvelopeId)
    requires Valid(s) && Transition(s, recoveryBlocked, Complete(id)).Write?
    ensures Effect(s, Complete(id), Transition(s, recoveryBlocked, Complete(id)).next, Done)
  {
    hide Valid, Transition, Having, Removed, LastN, IndexOf;
    ValidIdsUnique(s);
    CompleteShape(s, recoveryBlocked, id);
    HavingFrom(s, Processing, IndexOf(s.entries, id));
    CompleteRemoves(s, recoveryBlocked, id, Pending);
    CompleteRemoves(s, recoveryBlocked, id, Processing);
    CompleteRemoves(s, recoveryBlocked, id, Failed);
  }

  lemma SettleEffect(s: State, recoveryBlocked: bool, op: Op)
    requires op.Release? || op.Fail?
    requires Valid(s) && Transition(s, recoveryBlocked, op).Write?
    ensures Effect(s, op, Transition(s, recoveryBlocked, op).next, Done)
  {
    hide Valid, Having;
    ValidIdsUnique(s);
    var i := IndexOf(s.entries, op.id);
    HavingFrom(s, Processing, i);
    EntryUpdateMovesAll(s, i, Transition(s, recoveryBlocked, op).next.entries[i]);
  }

  lemma RequeueEffect(s: State, recoveryBlocked: bool, ids: seq<EnvelopeId>)
    requires Valid(s) && Transition(s, recoveryBlocked, Requeue(ids)).Write?
    ensures var c := Transition(s, recoveryBlocked, Requeue(ids)); Effect(s, Requeue(ids), c.next, c.reply)
  {
    hide Valid, Having, RequeueEntries;
    RequeueMoves(s, ids, Pending);
    RequeueMoves(s, ids, Processing);
    RequeueMoves(s, ids, Failed);
  }

  lemma AdmitsUnblocked(s: State, recoveryBlocked: bool, op: Op)
    requires Transition(s, recoveryBlocked, op).Write? && (op.Claim? || op.Enqueue?)
    ensures !recoveryBlocked && !HasFailed(s)
  {
    hide HasFailed, FirstIndex;
  }

  /** What a settled call answers. */
  lemma SettleReplies(s: State, recoveryBlocked: bool, op: Op)
    requires Transition(s, recoveryBlocked, op).Write?
    ensures op.Enqueue? ==> Transition(s, recoveryBlocked, op).reply == Enqueued
    ensures op.Release? || op.Complete? || op.Fail? ==> Transition(s, recoveryBlocked, op).reply == Done
  {
    hide HasFailed, FirstIndex, ClaimIndex, Having, RequeueEntries;
  }

  /** Each transition that writes moves exactly the envelopes it names. */
  lemma TransitionEffect(s: State, recoveryBlocked: bool, op: Op)
    requires Valid(s) && Transition(s, recoveryBlocked, op).Write?
    ensures Effect(s, op, Transition(s, recoveryBlocked, op).next, Transition(s, recoveryBlocked, op).reply)
    ensures op.Claim? || op.Enqueue? ==> !recoveryBlocked && !HasFailed(s)
  {
    hide Transition, Effect, Valid, HasFailed;
    if op.Claim? || op.Enqueue? { AdmitsUnblocked(s, recoveryBlocked, op); }
    SettleReplies(s, recoveryBlocked, op);
    match op {
      case Enqueue(event) => EnqueueEffect(s, recoveryBlocked, event);
      case Claim(lane, eligible) => ClaimEffect(s, recoveryBlocked, lane, eligible);
      case Requeue(ids) => RequeueEffect(s, recoveryBlocked, ids);
      case Complete(id) => CompleteEffect(s, recoveryBlocked, id);
      case Release(_) => SettleEffect(s, recoveryBlocked, op);
      case Fail(_) => SettleEffect(s, recoveryBlocked, op);
    }
  }

  // ---------- queue order ----------

  /** From an unblocked, non-empty inbox with nothing in flight, exactly one lane
      can claim, and it claims the oldest entry. */
  lemma IdleClaimTakesOldest(s: State, eligible: set<EnvelopeId>)
    requires Valid(s) && s.entries != [] && !HasFailed(s) && !HasProcessing(s)
    ensures var p := ClaimIndex(s, false, Primary, eligible);
      var c := ClaimIndex(s, false, Control, eligible);
      (p == 0 && c == -1) || (p == -1 && c == 0)
  {
    assert s.entries[0].status == Pending;
  }

  /** A claim passes over an older entry only on the control lane while a primary
      is in flight, and then that entry is the primary itself or is not eligible. */
  lemma OvertakeOnlyOnControl(s: State, recoveryBlocked: bool, lane: Lane, eligible: set<EnvelopeId>, older: nat)
    requires Valid(s) && older < ClaimIndex(s, recoveryBlocked, lane, eligible)
    ensures lane == Control
    ensures exists p :: 0 <= p < |s.entries| && s.entries[p].status == Processing && s.entries[p].lane == Some(Primary)
    ensures (s.entries[older].status == Processing && s.entries[older].lane == Some(Primary))
      || (s.entries[older].status == Pending && s.entries[older].envelopeId !in eligible)
  {
    if !HasProcessing(s) {
      assert false;
    }
    var p :| 0 <= p < |s.entries| && s.entries[p].status == Processing;
    assert s.entries[p].lane == Some(Primary);
  }
}
