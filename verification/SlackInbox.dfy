/** The open inbox: an in-memory state, the file it commits to, and the flags
    that make it fail closed. */
module SlackInbox {
  import opened Basics
  import opened SlackInboxState
  import opened SlackInboxLaws

  /** How far the replacement of the state file got. */
  datatype Io = Committed | FailedBeforeRename | FailedAfterRename

  datatype Outcome = Ok(reply: Reply) | Err(error: Error)

  datatype View = View(state: State, disk: State, poisoned: bool, closing: bool)

  /** Specification of one serialized `mutate` call. `aborted` is the caller's
      signal and `fits` tells whether the encoding is within the byte limit. */
  function Mutated(v: View, recoveryBlocked: bool, op: Op, aborted: bool, fits: bool, io: Io): (View, Outcome) {
    if Malformed(op) then (v, Err(Invalid))
    else if v.closing then (v, Err(Closed))
    else if v.poisoned then (v, Err(Poisoned))
    else if aborted then (v, Err(Aborted))
    else match Transition(v.state, recoveryBlocked, op)
      case Refuse(error) => (v, Err(error))
      case Keep(reply) => (v, Ok(reply))
      case Write(next, reply) =>
        if !fits then (v, Err(Full))
        else match io
          case Committed => (v.(state := next, disk := next), Ok(reply))
          case FailedBeforeRename => (v.(poisoned := true), Err(Poisoned))
          case FailedAfterRename => (v.(disk := next, poisoned := true), Err(Poisoned))
  }

  predicate Consistent(v: View) {
    Valid(v.state) && Valid(v.disk) && (!v.poisoned ==> v.disk == v.state)
  }

  /** Fail-closed persistence: a call leaves memory and file equal and valid unless
      it poisons the inbox, after which no call changes anything. */
  lemma MutatedFailsClosed(v: View, recoveryBlocked: bool, op: Op, aborted: bool, fits: bool, io: Io)
    requires Consistent(v)
    ensures var (w, r) := Mutated(v, recoveryBlocked, op, aborted, fits, io);
      && Consistent(w)
      && (v.poisoned ==> w == v && r.Err?)
      && (r.Ok? ==> !w.poisoned && w.disk == w.state)
      && (w.state != v.state ==> r.Ok?)
      && (r.Err? ==> w.state == v.state)
  {
    var c := Transition(v.state, recoveryBlocked, op);
    if c.Write? {
      TransitionKeepsValid(v.state, recoveryBlocked, op);
    }
  }

  // ---------- the structural check a file must pass to be opened ----------

  function ProcessingLanes(entries: seq<Entry>): seq<Option<Lane>> {
    if entries == [] then []
    else
      var before := ProcessingLanes(entries[..|entries| - 1]);
      var last := entries[|entries| - 1];
      if last.status == Processing then before + [last.lane] else before
  }

  predicate Differ(a: Option<Lane>, b: Option<Lane>) {
    a.Some? && b.Some? && a != b
  }

  predicate LaneSeqExclusive(lanes: seq<Option<Lane>>) {
    forall i, j :: 0 <= i < j < |lanes| ==> Differ(lanes[i], lanes[j])
  }

  predicate LaneCountsAllowed(processing: nat, primary: nat, control: nat) {
    processing <= 2 && primary <= 1 && control <= 1 && (processing == 2 ==> primary > 0 && control > 0)
  }

  lemma {:induction false} ProcessingLanesOccur(entries: seq<Entry>, e: Entry)
    ensures (forall l <- ProcessingLanes(entries) :: Differ(l, e.lane))
      <==> (forall i :: 0 <= i < |entries| && entries[i].status == Processing ==> Differ(entries[i].lane, e.lane))
  {
    hide Differ;
    if entries != [] {
      var n := |entries| - 1;
      var before := entries[..n];
      ProcessingLanesOccur(before, e);
      assert forall i :: 0 <= i < n ==> before[i] == entries[i];
      assert forall l :: l in ProcessingLanes(entries) <==>
        l in ProcessingLanes(before) || (entries[n].status == Processing && l == entries[n].lane);
    }
  }

  lemma LaneSeqSnoc(lanes: seq<Option<Lane>>, l: Option<Lane>)
    ensures LaneSeqExclusive(lanes + [l]) <==> (LaneSeqExclusive(lanes) && forall x <- lanes :: Differ(x, l))
  {
    hide Differ;
    var all, n := lanes + [l], |lanes|;
    assert all[n] == l && forall i :: 0 <= i < n ==> all[i] == lanes[i];
    if LaneSeqExclusive(all) {
      forall x | x in lanes ensures Differ(x, l) {
        var i :| 0 <= i < n && lanes[i] == x;
        assert Differ(all[i], all[n]);
      }
      forall i, j | 0 <= i < j < n ensures Differ(lanes[i], lanes[j]) {
        assert Differ(all[i], all[j]);
      }
    }
  }

  lemma {:induction false} LanesExclusiveBySeq(entries: seq<Entry>)
    ensures LanesExclusive(entries) <==> LaneSeqExclusive(ProcessingLanes(entries))
  {
    if entries != [] {
      var n := |entries| - 1;
      var before, last := entries[..n], entries[n];
      LanesExclusiveBySeq(before);
      ProcessingLanesOccur(before, last);
      var lanes := ProcessingLanes(before);
      assert forall i :: 0 <= i < n ==> before[i] == entries[i];
      assert LanesExclusive(entries)
        <==> (LanesExclusive(before) && forall i :: 0 <= i < n ==> Compatible(entries[i], last));
      LaneSeqSnoc(lanes, last.lane);
    }
  }

  lemma LaneCases(l: Option<Lane>)
    ensures l == None || l == Some(Primary) || l == Some(Control)
  {
    match l {
      case None =>
      case Some(lane) => match lane { case Primary => case Control => }
    }
  }

  lemma LaneSeqByCounts(lanes: seq<Option<Lane>>)
    ensures LaneSeqExclusive(lanes)
      <==> LaneCountsAllowed(|lanes|, multiset(lanes)[Some(Primary)], multiset(lanes)[Some(Control)])
  {
    if |lanes| == 1 {
      assert lanes == [lanes[0]];
    } else if |lanes| == 2 {
      assert lanes == [lanes[0], lanes[1]];
      forall x: Option<Lane>
        ensures multiset(lanes)[x] == (if lanes[0] == x then 1 else 0) + (if lanes[1] == x then 1 else 0)
      {
        assert multiset(lanes) == multiset{lanes[0], lanes[1]};
      }
      LaneCases(lanes[0]);
      LaneCases(lanes[1]);
      assert LaneSeqExclusive(lanes) <==> Differ(lanes[0], lanes[1]);
    } else if |lanes| > 2 {
      LaneCases(lanes[0]);
      LaneCases(lanes[1]);
      LaneCases(lanes[2]);
    }
  }

  method CountLanes(entries: seq<Entry>) returns (processing: nat, primary: nat, control: nat)
    ensures LaneCountsAllowed(processing, primary, control) <==> LanesExclusive(entries)
  {
    processing, primary, control := 0, 0, 0;
    for i := 0 to |entries|
      invariant processing == |ProcessingLanes(entries[..i])|
      invariant primary == multiset(ProcessingLanes(entries[..i]))[Some(Primary)]
      invariant control == multiset(ProcessingLanes(entries[..i]))[Some(Control)]
    {
      assert entries[..i + 1][..i] == entries[..i];
      if entries[i].status == Processing {
        processing := processing + 1;
        if entries[i].lane == Some(Primary) {
          primary := primary + 1;
        } else if entries[i].lane == Some(Control) {
          control := control + 1;
        }
      }
    }
    assert entries[..|entries|] == entries;
    LanesExclusiveBySeq(entries);
    LaneSeqByCounts(ProcessingLanes(entries));
  }

  /** One pass of `validateState`: every id is new among those already seen. */
  method AllNew(all: seq<EnvelopeId>) returns (ok: bool)
    ensures ok <==> Distinct(all)
  {
    var seen: set<EnvelopeId> := {};
    for k := 0 to |all|
      invariant Distinct(all[..k]) && seen == Elements(all[..k])
    {
      if all[k] in seen {
        return false;
      }
      seen := seen + {all[k]};
    }
    assert all[..|all|] == all;
    ok := true;
  }

  /** `validateState` on decoded records: entries and receipts are checked one by
      one while `seen` fills, then the lanes are counted. It accepts exactly the
      valid states. */
  method ValidateState(candidate: State) returns (ok: bool)
    ensures ok <==> Valid(candidate)
  {
    if |candidate.entries| > MAX_ENTRIES || |candidate.receipts| > MAX_RECEIPTS {
      return false;
    }
    for i := 0 to |candidate.entries|
      invariant forall k :: 0 <= k < i ==> ValidEntry(candidate.entries[k])
    {
      if !ValidEntry(candidate.entries[i]) {
        return false;
      }
    }
    for i := 0 to |candidate.receipts|
      invariant forall k :: 0 <= k < i ==> ValidEnvelopeId(candidate.receipts[k])
    {
      if !ValidEnvelopeId(candidate.receipts[i]) {
        return false;
      }
    }
    var unique := AllNew(EnvelopeIds(candidate.entries) + candidate.receipts);
    if !unique {
      return false;
    }
    var processing, primary, control := CountLanes(candidate.entries);
    ok := LaneCountsAllowed(processing, primary, control);
  }

  // ---------- the object ----------

  class SlackInbox {
    var state: State
    var disk: State
    var poisoned: bool
    var closing: bool
    const recoveryBlocked: bool

    ghost function AsView(): View
      reads this
    {
      View(state, disk, poisoned, closing)
    }

    constructor (loaded: State)
      requires Valid(loaded)
      ensures AsView() == View(loaded, loaded, false, false) && Consistent(AsView())
      ensures recoveryBlocked == OpensBlocked(loaded)
    {
      state, disk, poisoned, closing := loaded, loaded, false, false;
      recoveryBlocked := OpensBlocked(loaded);
    }

    method Mutate(op: Op, aborted: bool, fits: bool, io: Io) returns (r: Outcome)
      requires Consistent(AsView())
      modifies this
      ensures Consistent(AsView())
      ensures (AsView(), r) == Mutated(old(AsView()), recoveryBlocked, op, aborted, fits, io)
    {
      MutatedFailsClosed(AsView(), recoveryBlocked, op, aborted, fits, io);
      if Malformed(op) {
        return Err(Invalid);
      }
      if closing {
        return Err(Closed);
      }
      if poisoned {
        return Err(Poisoned);
      }
      if aborted {
        return Err(Aborted);
      }
      match Transition(state, recoveryBlocked, op) {
        case Refuse(error) => r := Err(error);
        case Keep(reply) => r := Ok(reply);
        case Write(next, reply) =>
          TransitionKeepsValid(state, recoveryBlocked, op);
          var structural := ValidateState(next);
          if !structural {
            return Err(Corrupt);
          }
          if !fits {
            return Err(Full);
          }
          if io != FailedBeforeRename {
            disk := next;
          }
          if io == Committed {
            state := next;
            r := Ok(reply);
          } else {
            poisoned := true;
            r := Err(Poisoned);
          }
      }
    }

    method Close()
      modifies this`closing
      ensures AsView() == old(AsView()).(closing := true)
    {
      closing := true;
    }
  }

  /** Opens what is on disk, refusing a file the structural check rejects. */
  method Open(disk: State) returns (accepted: bool, inbox: SlackInbox?)
    ensures accepted <==> Valid(disk)
    ensures accepted <==> inbox != null
    ensures inbox != null ==>
      fresh(inbox) && inbox.AsView() == View(disk, disk, false, false) && inbox.recoveryBlocked == OpensBlocked(disk)
  {
    accepted := ValidateState(disk);
    inbox := null;
    if accepted {
      inbox := new SlackInbox(disk);
    }
  }
}
