/** The persisted state of the Slack durable inbox and the pure transitions that
    `SlackInbox` passes to its commit routine. */
module SlackInboxState {
  import opened Basics

  const MAX_ENTRIES: nat := 256
  const MAX_RECEIPTS: nat := 4096

  datatype EnvelopeId = EnvelopeId(text: string)

  datatype Event = Event(envelopeId: EnvelopeId, payload: string)

  datatype Lane = Primary | Control

  datatype Status = Pending | Processing | Failed

  datatype Entry = Entry(envelopeId: EnvelopeId, status: Status, lane: Option<Lane>, event: Event)

  datatype State = State(entries: seq<Entry>, receipts: seq<EnvelopeId>)

  /** One inbox call. A claim carries the envelopes that are control-eligible at
      the moment its transition runs. */
  datatype Op =
    | Enqueue(event: Event)
    | Claim(lane: Lane, controlEligible: set<EnvelopeId>)
    | Release(id: EnvelopeId)
    | Requeue(ids: seq<EnvelopeId>)
    | Complete(id: EnvelopeId)
    | Fail(id: EnvelopeId)

  datatype Error = Invalid | Closed | Blocked | Full | Corrupt | Aborted | Poisoned

  datatype Reply = Enqueued | Duplicate | Claimed(event: Event) | NothingToClaim | Requeued(count: nat) | Done

  datatype Change = Refuse(error: Error) | Keep(reply: Reply) | Write(next: State, reply: Reply)

  // ---------- validity ----------

  predicate ValidEnvelopeId(id: EnvelopeId) {
    0 < |id.text| <= 512 && forall c <- id.text :: c >= ' ' && c != '\U{007f}'
  }

  predicate ValidEntry(e: Entry) {
    && ValidEnvelopeId(e.envelopeId)
    && e.event.envelopeId == e.envelopeId
    && (e.lane.Some? ==> e.status == Processing)
  }

  predicate Compatible(a: Entry, b: Entry) {
    a.status == Processing && b.status == Processing ==>
      a.lane.Some? && b.lane.Some? && a.lane != b.lane
  }

  /** Any two entries in flight occupy different, named lanes. */
  predicate LanesExclusive(entries: seq<Entry>) {
    forall i, j :: 0 <= i < j < |entries| ==> Compatible(entries[i], entries[j])
  }

  predicate Distinct<T(==)>(xs: seq<T>) {
    forall i, j :: 0 <= i < j < |xs| ==> xs[i] != xs[j]
  }

  function Elements<T(==)>(xs: seq<T>): set<T> {
    set x | x in xs
  }

  function EnvelopeIds(entries: seq<Entry>): (ids: seq<EnvelopeId>)
    ensures |ids| == |entries|
    ensures forall i :: 0 <= i < |ids| ==> ids[i] == entries[i].envelopeId
  {
    seq(|entries|, i requires 0 <= i < |entries| => entries[i].envelopeId)
  }

  predicate Valid(s: State) {
    && |s.entries| <= MAX_ENTRIES
    && |s.receipts| <= MAX_RECEIPTS
    && (forall i :: 0 <= i < |s.entries| ==> ValidEntry(s.entries[i]))
    && (forall i :: 0 <= i < |s.receipts| ==> ValidEnvelopeId(s.receipts[i]))
    && Distinct(EnvelopeIds(s.entries) + s.receipts)
    && LanesExclusive(s.entries)
  }

  // ---------- transitions ----------

  function FirstIndex(entries: seq<Entry>, want: Entry -> bool): (r: int)
    ensures -1 <= r < |entries|
    ensures r >= 0 ==> want(entries[r])
    ensures forall k :: 0 <= k < (if r >= 0 then r else |entries|) ==> !want(entries[k])
  {
    if entries == [] then -1
    else if want(entries[0]) then 0
    else
      var r := FirstIndex(entries[1..], want);
      assert forall k :: 1 <= k < |entries| ==> entries[k] == entries[1..][k - 1];
      if r == -1 then -1 else r + 1
  }

  function IndexOf(entries: seq<Entry>, id: EnvelopeId): int {
    FirstIndex(entries, (e: Entry) => e.envelopeId == id)
  }

  predicate HasFailed(s: State) {
    exists i :: 0 <= i < |s.entries| && s.entries[i].status == Failed
  }

  predicate HasProcessing(s: State) {
    exists i :: 0 <= i < |s.entries| && s.entries[i].status == Processing
  }

  /** What opening a store with this state records for the life of the inbox. */
  predicate OpensBlocked(s: State) {
    HasFailed(s) || HasProcessing(s)
  }

  function LastN<T>(xs: seq<T>, n: nat): seq<T> {
    if |xs| <= n then xs else xs[|xs| - n..]
  }

  function Without(xs: seq<EnvelopeId>, x: EnvelopeId): seq<EnvelopeId> {
    if xs == [] then []
    else if xs[0] == x then Without(xs[1..], x)
    else [xs[0]] + Without(xs[1..], x)
  }

  function ToPending(e: Entry): Entry {
    e.(status := Pending, lane := None)
  }

  predicate LaneBusy(s: State, lane: Lane) {
    match lane
    case Primary => HasProcessing(s)
    case Control =>
      exists i :: 0 <= i < |s.entries| && s.entries[i].status == Processing && s.entries[i].lane != Some(Primary)
  }

  predicate Wanted(e: Entry, lane: Lane, controlEligible: set<EnvelopeId>) {
    match lane
    case Primary => e.envelopeId !in controlEligible
    case Control => e.envelopeId in controlEligible
  }

  /** The entry a claim takes, or -1. With nothing in flight only the oldest
      pending entry is looked at. */
  function ClaimIndex(s: State, recoveryBlocked: bool, lane: Lane, controlEligible: set<EnvelopeId>): (r: int)
    ensures -1 <= r < |s.entries|
  {
    if recoveryBlocked || HasFailed(s) || LaneBusy(s, lane) then -1
    else if HasProcessing(s) then
      FirstIndex(s.entries, (e: Entry) => e.status == Pending && Wanted(e, lane, controlEligible))
    else
      var first := FirstIndex(s.entries, (e: Entry) => e.status == Pending);
      if first != -1 && Wanted(s.entries[first], lane, controlEligible) then first else -1
  }

  /** Arguments a call rejects before it looks at the inbox. */
  predicate Malformed(op: Op) {
    match op
    case Enqueue(event) => !ValidEnvelopeId(event.envelopeId)
    case Claim(_, _) => false
    case Requeue(ids) => |ids| > 2 || !Distinct(ids) || exists id <- ids :: !ValidEnvelopeId(id)
    case Release(id) => !ValidEnvelopeId(id)
    case Complete(id) => !ValidEnvelopeId(id)
    case Fail(id) => !ValidEnvelopeId(id)
  }

  function Transition(s: State, recoveryBlocked: bool, op: Op): Change {
    match op
    case Enqueue(event) =>
      if !ValidEnvelopeId(event.envelopeId) then Refuse(Invalid)
      else if event.envelopeId in s.receipts || IndexOf(s.entries, event.envelopeId) != -1 then Keep(Duplicate)
      else if HasFailed(s) || recoveryBlocked then Refuse(Blocked)
      else if |s.entries| >= MAX_ENTRIES then Refuse(Full)
      else Write(s.(entries := s.entries + [Entry(event.envelopeId, Pending, None, event)]), Enqueued)
    case Claim(lane, controlEligible) =>
      var i := ClaimIndex(s, recoveryBlocked, lane, controlEligible);
      if i == -1 then Keep(NothingToClaim)
      else Write(s.(entries := s.entries[i := s.entries[i].(status := Processing, lane := Some(lane))]),
                 Claimed(s.entries[i].event))
    case Release(id) =>
      var i := IndexOf(s.entries, id);
      if !ValidEnvelopeId(id) then Refuse(Invalid)
      else if i == -1 || s.entries[i].status != Processing then Refuse(Corrupt)
      else Write(s.(entries := s.entries[i := ToPending(s.entries[i])]), Done)
    case Requeue(ids) =>
      var selected := Requeues(s, ids);
      if |ids| > 2 || !Distinct(ids) || (exists id <- ids :: !ValidEnvelopeId(id)) then Refuse(Invalid)
      else if selected == {} then Keep(Requeued(0))
      else Write(s.(entries := RequeueEntries(s.entries, ids)), Requeued(|selected|))
    case Complete(id) =>
      var i := IndexOf(s.entries, id);
      if !ValidEnvelopeId(id) then Refuse(Invalid)
      else if i == -1 then (if id in s.receipts then Keep(Done) else Refuse(Corrupt))
      else if s.entries[i].status != Processing then Refuse(Corrupt)
      else Write(State(s.entries[..i] + s.entries[i + 1..],
                       LastN(Without(s.receipts, id) + [id], MAX_RECEIPTS)), Done)
    case Fail(id) =>
      var i := IndexOf(s.entries, id);
      if !ValidEnvelopeId(id) then Refuse(Invalid)
      else if i == -1 then (if id in s.receipts then Keep(Done) else Refuse(Corrupt))
      else if s.entries[i].status == Failed then Keep(Done)
      else if s.entries[i].status != Processing then Refuse(Corrupt)
      else Write(s.(entries := s.entries[i := s.entries[i].(status := Failed, lane := None)]), Done)
  }

  /** The envelopes a requeue puts back. */
  function Requeues(s: State, ids: seq<EnvelopeId>): set<EnvelopeId> {
    set id | id in Having(s, Processing) && id in ids
  }

  function RequeueEntries(entries: seq<Entry>, ids: seq<EnvelopeId>): (r: seq<Entry>)
    ensures |r| == |entries|
    ensures forall i :: 0 <= i < |r| ==>
      r[i] == if entries[i].status == Processing && entries[i].envelopeId in ids
              then ToPending(entries[i]) else entries[i]
  {
    seq(|entries|, i requires 0 <= i < |entries| =>
      if entries[i].status == Processing && entries[i].envelopeId in ids then ToPending(entries[i]) else entries[i])
  }

  // ---------- the sets of envelopes in each status ----------

  function Having(s: State, status: Status): set<EnvelopeId> {
    set i | 0 <= i < |s.entries| && s.entries[i].status == status :: s.entries[i].envelopeId
  }

  function Known(s: State): set<EnvelopeId> {
    Having(s, Pending) + Having(s, Processing) + Having(s, Failed)
  }

  /** Work that may have started and has not been completed. */
  function Held(s: State): set<EnvelopeId> {
    Having(s, Processing) + Having(s, Failed)
  }

  lemma WithoutAbsent(xs: seq<EnvelopeId>, x: EnvelopeId)
    requires x !in xs
    ensures Without(xs, x) == xs
  {
    if xs != [] {
      WithoutAbsent(xs[1..], x);
    }
  }

  lemma ValidIdsUnique(s: State)
    requires Valid(s)
    ensures forall i, j :: 0 <= i < j < |s.entries| ==> s.entries[i].envelopeId != s.entries[j].envelopeId
    ensures forall i :: 0 <= i < |s.entries| ==> s.entries[i].envelopeId !in s.receipts
    ensures Distinct(s.receipts)
    ensures Having(s, Pending) !! Having(s, Processing) !! Having(s, Failed)
  {
    var all := EnvelopeIds(s.entries) + s.receipts;
    assert forall i :: 0 <= i < |s.entries| ==> all[i] == s.entries[i].envelopeId;
    assert forall j :: 0 <= j < |s.receipts| ==> all[|s.entries| + j] == s.receipts[j];
  }

}
