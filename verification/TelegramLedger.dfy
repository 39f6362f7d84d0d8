/** The bounded window of Telegram updates that are tracked but not yet consumed,
    its two lanes, and the frontier below which every update has settled. */
module TelegramLedger {
  import opened Basics

  const MAX_TRACKED_UPDATES: nat := 100

  datatype Lane = Primary | Control

  datatype UpdateState = Queued | InPrimary | InControl | Settled

  datatype Ledger = Ledger(
    offset: int,
    tracked: map<int, UpdateState>,
    received: seq<int>,
    primary: Option<int>,
    control: Option<int>)

  /** `halted` is an aborted turn signal or a forced stop; `stopped` forbids only new
      primaries. The control sets are the updates that `isControlUpdate` accepts when
      the primary and the control lane are considered. */
  datatype Scheduling = Scheduling(halted: bool, stopped: bool, controlFirst: set<int>, controlThen: set<int>)

  predicate Ascending(s: seq<int>) {
    forall i, j :: 0 <= i < j < |s| ==> s[i] < s[j]
  }

  function Elements(s: seq<int>): set<int> {
    set x | x in s
  }

  /** What every segment of the channel leaves true of the ledger. */
  ghost predicate Valid(l: Ledger) {
    && Ascending(l.received)
    && Elements(l.received) == l.tracked.Keys
    && |l.received| <= MAX_TRACKED_UPDATES
    && (l.received != [] ==> l.offset == l.received[0] && l.tracked[l.received[0]] != Settled)
    && LanesAgree(l)
  }

  ghost predicate LanesAgree(l: Ledger) {
    && (forall id <- l.tracked :: l.tracked[id] == InPrimary <==> l.primary == Some(id))
    && (forall id <- l.tracked :: l.tracked[id] == InControl <==> l.control == Some(id))
    && (l.primary.Some? ==> l.primary.value in l.tracked)
    && (l.control.Some? ==> l.control.value in l.tracked)
  }

  // ---------- the consumed frontier ----------

  function SettledPrefix(received: seq<int>, tracked: map<int, UpdateState>): (k: nat)
    ensures k <= |received|
    ensures forall i :: 0 <= i < k ==> received[i] in tracked && tracked[received[i]] == Settled
    ensures k < |received| ==> !(received[k] in tracked && tracked[received[k]] == Settled)
  {
    if received != [] && received[0] in tracked && tracked[received[0]] == Settled
    then 1 + SettledPrefix(received[1..], tracked) else 0
  }

  function Advance(l: Ledger): Ledger {
    var k := SettledPrefix(l.received, l.tracked);
    var rest := l.received[k..];
    l.(received := rest,
       tracked := l.tracked - Elements(l.received[..k]),
       offset := if rest != [] then Max(l.offset, rest[0])
                 else if k > 0 then Max(l.offset, l.received[k - 1] + 1)
                 else l.offset)
  }

  // ---------- scheduling ----------

  predicate QueuedIn(l: Ledger, id: int, control: set<int>, wantControl: bool) {
    id in l.tracked && l.tracked[id] == Queued && ((id in control) == wantControl)
  }

  /** Index of the first received update that is queued for the wanted lane, or -1. */
  function FirstQueued(l: Ledger, ids: seq<int>, control: set<int>, wantControl: bool): (r: int)
    ensures -1 <= r < |ids|
    ensures r >= 0 ==> QueuedIn(l, ids[r], control, wantControl)
    ensures forall j :: 0 <= j < (if r >= 0 then r else |ids|) ==> !QueuedIn(l, ids[j], control, wantControl)
  {
    if ids == [] then -1
    else if QueuedIn(l, ids[0], control, wantControl) then 0
    else
      var r := FirstQueued(l, ids[1..], control, wantControl);
      assert forall j :: 1 <= j < |ids| ==> ids[j] == ids[1..][j - 1];
      if r == -1 then -1 else r + 1
  }

  /** An earlier update is running on the control lane or is waiting for it. */
  predicate EarlierControlBarrier(l: Ledger, id: int, control: set<int>) {
    exists i :: 0 <= i < |l.received| && l.received[i] < id && l.received[i] in l.tracked
      && (l.tracked[l.received[i]] == InControl || QueuedIn(l, l.received[i], control, true))
  }

  function Start(l: Ledger, id: int, lane: Lane): Ledger {
    match lane
    case Primary => l.(tracked := l.tracked[id := InPrimary], primary := Some(id))
    case Control => l.(tracked := l.tracked[id := InControl], control := Some(id))
  }

  function PrimaryToStart(l: Ledger, sched: Scheduling): Option<int> {
    var next := FirstQueued(l, l.received, sched.controlFirst, false);
    if sched.halted || sched.stopped || l.primary.Some? || next == -1
       || EarlierControlBarrier(l, l.received[next], sched.controlFirst)
    then None else Some(l.received[next])
  }

  function ControlToStart(l: Ledger, sched: Scheduling): Option<int> {
    var next := FirstQueued(l, l.received, sched.controlThen, true);
    if sched.halted || l.control.Some? || next == -1 then None else Some(l.received[next])
  }

  function AfterPrimary(l: Ledger, sched: Scheduling): Ledger {
    var next := PrimaryToStart(l, sched);
    if next.Some? then Start(l, next.value, Primary) else l
  }

  function Schedule(l: Ledger, sched: Scheduling): Ledger {
    var middle := AfterPrimary(l, sched);
    var next := ControlToStart(middle, sched);
    if next.Some? then Start(middle, next.value, Control) else middle
  }

  // ---------- settlement and ingestion ----------

  function LaneHolder(l: Ledger, lane: Lane): Option<int> {
    if lane == Primary then l.primary else l.control
  }

  /** The `finally` block of a started update, up to rescheduling. */
  function Returned(l: Ledger, id: int, lane: Lane, settled: bool): Ledger {
    var marked := l.(tracked := l.tracked[id := if settled then Settled else Queued]);
    Advance(if lane == Primary then marked.(primary := None) else marked.(control := None))
  }

  function Insert(s: seq<int>, x: int): seq<int> {
    if s == [] || x < s[0] then [x] + s else [s[0]] + Insert(s[1..], x)
  }

  /** The ids of a batch that are new: not consumed, not tracked, first in the batch. */
  function Additions(l: Ledger, updates: seq<int>): seq<int> {
    if updates == [] then []
    else
      var before := Additions(l, updates[..|updates| - 1]);
      var u := updates[|updates| - 1];
      if u < l.offset || u in l.tracked || u in before then before else before + [u]
  }

  function Added(l: Ledger, additions: seq<int>): Ledger {
    if additions == [] then l
    else
      var before := Added(l, additions[..|additions| - 1]);
      var u := additions[|additions| - 1];
      before.(tracked := before.tracked[u := Queued], received := Insert(before.received, u))
  }

  predicate Saturated(l: Ledger, updates: seq<int>) {
    var additions := Additions(l, updates);
    || |l.tracked| + |additions| > MAX_TRACKED_UPDATES
    || (|updates| >= MAX_TRACKED_UPDATES && additions == [] && |l.tracked| >= MAX_TRACKED_UPDATES)
  }

  function Ingest(l: Ledger, updates: seq<int>): Ledger {
    if Saturated(l, updates) then l else Advance(Added(l, Additions(l, updates)))
  }

  // ---------- facts about the pieces ----------

  /** What is left after the first `n` received updates, all settled, have been dropped. */
  ghost predicate Dropped(l: Ledger, n: nat, received: seq<int>, tracked: map<int, UpdateState>, last: Option<int>) {
    && n <= SettledPrefix(l.received, l.tracked)
    && received == l.received[n..]
    && tracked == l.tracked - Elements(l.received[..n])
    && last == if n > 0 then Some(l.received[n - 1]) else None
  }

  predicate FrontSettled(received: seq<int>, tracked: map<int, UpdateState>) {
    received != [] && received[0] in tracked && tracked[received[0]] == Settled
  }

  lemma DropStarts(l: Ledger)
    ensures Dropped(l, 0, l.received, l.tracked, None)
  {
  }

  lemma DropOne(l: Ledger, n: nat, received: seq<int>, tracked: map<int, UpdateState>, last: Option<int>)
    requires Dropped(l, n, received, tracked, last) && FrontSettled(received, tracked)
    ensures Dropped(l, n + 1, received[1..], tracked - {received[0]}, Some(received[0]))
  {
    hide Elements;
    assert l.received[n] == received[0];
    DropKeys(l.received, n);
    assert l.received[n] in l.tracked && l.tracked[l.received[n]] == Settled;
  }

  lemma DropKeys(s: seq<int>, n: nat)
    requires n < |s|
    ensures Elements(s[..n + 1]) == Elements(s[..n]) + {s[n]}
  {
    assert s[..n + 1] == s[..n] + [s[n]];
  }

  /** Where the loop stops is the end of the settled prefix. */
  lemma PrefixEnds(l: Ledger, n: nat, received: seq<int>, tracked: map<int, UpdateState>, last: Option<int>)
    requires Dropped(l, n, received, tracked, last) && Ascending(l.received) && !FrontSettled(received, tracked)
    ensures n == SettledPrefix(l.received, l.tracked)
  {
    if n < |l.received| {
      assert received[0] == l.received[n];
      assert l.received[n] !in l.received[..n];
    }
  }

  /** The frontier in terms of what the loop leaves. */
  lemma DroppedAll(l: Ledger, n: nat, received: seq<int>, tracked: map<int, UpdateState>, last: Option<int>)
    requires Dropped(l, n, received, tracked, last) && n == SettledPrefix(l.received, l.tracked)
    ensures Advance(l).received == received && Advance(l).tracked == tracked
    ensures Advance(l).primary == l.primary && Advance(l).control == l.control
    ensures Advance(l).offset ==
      if received != [] then Max(l.offset, received[0])
      else if last.Some? then Max(l.offset, last.value + 1) else l.offset
  {
  }

  lemma InFront(x: int, s: seq<int>)
    requires Ascending(s) && forall y :: y in Elements(s) ==> x < y
    ensures Ascending([x] + s) && Elements([x] + s) == {x} + Elements(s)
  {
    forall i | 0 <= i < |s| ensures x < s[i] { assert s[i] in Elements(s); }
  }

  lemma AboveFirst(s: seq<int>)
    requires Ascending(s) && s != []
    ensures Ascending(s[1..]) && Elements(s) == {s[0]} + Elements(s[1..])
    ensures forall y :: y in Elements(s[1..]) ==> s[0] < y
  {
    assert s == [s[0]] + s[1..];
  }

  lemma {:induction false} InsertKeepsAscending(s: seq<int>, x: int)
    requires Ascending(s) && x !in Elements(s)
    ensures Ascending(Insert(s, x)) && Elements(Insert(s, x)) == Elements(s) + {x}
    ensures |Insert(s, x)| == |s| + 1
  {
    if s == [] {
      assert Insert(s, x) == [x];
    } else {
      AboveFirst(s);
      hide Ascending, Elements;
      if x < s[0] {
        InFront(x, s);
      } else {
        InsertKeepsAscending(s[1..], x);
        InFront(s[0], Insert(s[1..], x));
      }
    }
  }

  /** Each new id of the batch once. */
  ghost predicate NewOf(l: Ledger, updates: seq<int>, a: seq<int>) {
    && (forall u :: u in a <==> u in updates && l.offset <= u && u !in l.tracked)
    && (forall i, j :: 0 <= i < j < |a| ==> a[i] != a[j])
  }

  lemma OneMoreAddition(l: Ledger, before: seq<int>, updates: seq<int>, u: int)
    requires NewOf(l, updates, before)
    ensures NewOf(l, updates + [u], if u < l.offset || u in l.tracked || u in before then before else before + [u])
  {
  }

  lemma AdditionsNext(l: Ledger, updates: seq<int>, u: int)
    ensures var before := Additions(l, updates);
      Additions(l, updates + [u]) == if u < l.offset || u in l.tracked || u in before then before else before + [u]
  {
    assert (updates + [u])[..|updates|] == updates;
  }

  lemma NoAdditions(l: Ledger)
    ensures NewOf(l, [], Additions(l, []))
  {
  }

  lemma {:induction false} AdditionsAreNew(l: Ledger, updates: seq<int>)
    ensures NewOf(l, updates, Additions(l, updates))
  {
    hide NewOf, Additions;
    if updates == [] {
      NoAdditions(l);
    } else {
      var rest, u := updates[..|updates| - 1], updates[|updates| - 1];
      AdditionsAreNew(l, rest);
      OneMoreAddition(l, Additions(l, rest), rest, u);
      AdditionsNext(l, rest, u);
      assert updates == rest + [u];
    }
  }

  /** What adding `a` to the ledger leaves. */
  predicate AddedTo(l: Ledger, a: seq<int>, m: Ledger) {
    && Ascending(m.received) && |m.received| == |l.received| + |a|
    && Elements(m.received) == Elements(l.received) + Elements(a)
    && m.tracked.Keys == l.tracked.Keys + Elements(a)
    && (forall u <- l.tracked :: m.tracked[u] == l.tracked[u])
    && (forall u <- a :: m.tracked[u] == Queued)
    && m.offset == l.offset && m.primary == l.primary && m.control == l.control
  }

  lemma AddOne(l: Ledger, a: seq<int>, m: Ledger, u: int)
    requires AddedTo(l, a, m) && Elements(l.received) == l.tracked.Keys && u !in l.tracked && u !in a
    ensures AddedTo(l, a + [u], m.(tracked := m.tracked[u := Queued], received := Insert(m.received, u)))
  {
    hide Insert, Ascending;
    InsertKeepsAscending(m.received, u);
    assert Elements(a + [u]) == Elements(a) + {u};
  }

  lemma AddedNext(l: Ledger, a: seq<int>, u: int)
    ensures var m := Added(l, a);
      Added(l, a + [u]) == m.(tracked := m.tracked[u := Queued], received := Insert(m.received, u))
  {
    assert (a + [u])[..|a|] == a;
  }

  lemma {:induction false} AddedAscending(l: Ledger, updates: seq<int>, n: nat)
    requires Ascending(l.received) && n <= |Additions(l, updates)|
    requires Elements(l.received) == l.tracked.Keys
    ensures AddedTo(l, Additions(l, updates)[..n], Added(l, Additions(l, updates)[..n]))
  {
    var all := Additions(l, updates);
    if n == 0 {
      assert all[..0] == [];
    } else {
      hide Additions, Added, AddedTo, Insert;
      AddedAscending(l, updates, n - 1);
      AdditionsAreNew(l, updates);
      assert all[..n] == all[..n - 1] + [all[n - 1]];
      AddedNext(l, all[..n - 1], all[n - 1]);
      AddOne(l, all[..n - 1], Added(l, all[..n - 1]), all[n - 1]);
    }
  }

  // ---------- the closure's variables, changed in place ----------

  class Channel {
    var offset: int
    var trackedUpdates: map<int, UpdateState>
    var receivedUpdateIds: seq<int>
    var primaryUpdate: Option<int>
    var controlUpdate: Option<int>

    ghost function AsLedger(): Ledger
      reads this
    {
      Ledger(offset, trackedUpdates, receivedUpdateIds, primaryUpdate, controlUpdate)
    }

    constructor ()
      ensures AsLedger() == Ledger(0, map[], [], None, None)
    {
      offset, trackedUpdates, receivedUpdateIds := 0, map[], [];
      primaryUpdate, controlUpdate := None, None;
    }

    method AdvanceConsumedFrontier() returns (moved: bool)
      requires Ascending(receivedUpdateIds)
      modifies this
      ensures AsLedger() == Advance(old(AsLedger()))
      ensures moved <==> offset != old(offset)
    {
      hide Dropped, SettledPrefix, Ascending, Elements;
      var previousOffset := offset;
      var lastSettled: Option<int> := None;
      ghost var before := AsLedger();
      ghost var n := 0;
      DropStarts(before);
      while FrontSettled(receivedUpdateIds, trackedUpdates)
        invariant Dropped(before, n, receivedUpdateIds, trackedUpdates, lastSettled)
        invariant offset == previousOffset && unchanged(`primaryUpdate) && unchanged(`controlUpdate)
        decreases |receivedUpdateIds|
      {
        var updateId := receivedUpdateIds[0];
        DropOne(before, n, receivedUpdateIds, trackedUpdates, lastSettled);
        receivedUpdateIds := receivedUpdateIds[1..];
        trackedUpdates := trackedUpdates - {updateId};
        lastSettled := Some(updateId);
        n := n + 1;
      }
      PrefixEnds(before, n, receivedUpdateIds, trackedUpdates, lastSettled);
      DroppedAll(before, n, receivedUpdateIds, trackedUpdates, lastSettled);
      if receivedUpdateIds != [] {
        offset := Max(offset, receivedUpdateIds[0]);
      } else if lastSettled.Some? {
        offset := Max(offset, lastSettled.value + 1);
      }
      moved := offset != previousOffset;
    }

    method HasEarlierControlBarrier(candidate: int, control: set<int>) returns (barrier: bool)
      ensures barrier == EarlierControlBarrier(AsLedger(), candidate, control)
    {
      for i := 0 to |receivedUpdateIds|
        invariant forall k :: 0 <= k < i ==>
          receivedUpdateIds[k] < candidate && receivedUpdateIds[k] in trackedUpdates ==>
            && trackedUpdates[receivedUpdateIds[k]] != InControl
            && !QueuedIn(AsLedger(), receivedUpdateIds[k], control, true)
      {
        var id := receivedUpdateIds[i];
        if id < candidate && id in trackedUpdates {
          if trackedUpdates[id] == InControl || (trackedUpdates[id] == Queued && id in control) {
            assert QueuedIn(AsLedger(), id, control, true) || trackedUpdates[id] == InControl;
            return true;
          }
        }
      }
      barrier := false;
    }

    method FindQueued(control: set<int>, wantControl: bool) returns (index: int)
      ensures index == FirstQueued(AsLedger(), receivedUpdateIds, control, wantControl)
    {
      for i := 0 to |receivedUpdateIds|
        invariant forall k :: 0 <= k < i ==> !QueuedIn(AsLedger(), receivedUpdateIds[k], control, wantControl)
      {
        var id := receivedUpdateIds[i];
        if id in trackedUpdates && trackedUpdates[id] == Queued && ((id in control) == wantControl) {
          return i;
        }
      }
      index := -1;
    }

    method StartTrackedUpdate(id: int, lane: Lane)
      modifies this
      ensures AsLedger() == Start(old(AsLedger()), id, lane)
    {
      if lane == Primary {
        trackedUpdates := trackedUpdates[id := InPrimary];
        primaryUpdate := Some(id);
      } else {
        trackedUpdates := trackedUpdates[id := InControl];
        controlUpdate := Some(id);
      }
    }

    method ScheduleUpdates(sched: Scheduling)
      modifies this
      ensures AsLedger() == Schedule(old(AsLedger()), sched)
      ensures offset == old(offset)
    {
      if sched.halted {
        return;
      }
      if !sched.stopped && primaryUpdate.None? {
        var next := FindQueued(sched.controlFirst, false);
        if next != -1 {
          var barrier := HasEarlierControlBarrier(receivedUpdateIds[next], sched.controlFirst);
          if !barrier {
            StartTrackedUpdate(receivedUpdateIds[next], Primary);
          }
        }
      }
      assert AsLedger() == AfterPrimary(old(AsLedger()), sched);
      if controlUpdate.None? {
        var next := FindQueued(sched.controlThen, true);
        if next != -1 {
          StartTrackedUpdate(receivedUpdateIds[next], Control);
        }
      }
    }

    /** The `finally` block: the update leaves its lane, the frontier advances and the
        lanes are refilled. */
    method FinishUpdate(id: int, lane: Lane, settled: bool, sched: Scheduling) returns (moved: bool)
      requires Ascending(receivedUpdateIds)
      modifies this
      ensures AsLedger() == Schedule(Returned(old(AsLedger()), id, lane, settled), sched)
      ensures moved <==> offset != old(offset)
    {
      trackedUpdates := trackedUpdates[id := if settled then Settled else Queued];
      if lane == Primary {
        primaryUpdate := None;
      } else {
        controlUpdate := None;
      }
      moved := AdvanceConsumedFrontier();
      ScheduleUpdates(sched);
    }

    /** The source sorts the batch before filtering it; since the received ids are kept
        sorted, only the order inside this list depends on that. */
    method NewUpdates(updates: seq<int>) returns (additions: seq<int>)
      ensures additions == Additions(AsLedger(), updates)
    {
      additions := [];
      for i := 0 to |updates|
        invariant additions == Additions(AsLedger(), updates[..i])
      {
        assert updates[..i + 1][..i] == updates[..i];
        if !(updates[i] < offset || updates[i] in trackedUpdates || updates[i] in additions) {
          additions := additions + [updates[i]];
        }
      }
      assert updates[..|updates|] == updates;
    }

    method Track(additions: seq<int>)
      modifies this`trackedUpdates, this`receivedUpdateIds
      ensures AsLedger() == Added(old(AsLedger()), additions)
    {
      for i := 0 to |additions|
        invariant AsLedger() == Added(old(AsLedger()), additions[..i])
      {
        assert additions[..i + 1][..i] == additions[..i];
        trackedUpdates := trackedUpdates[additions[i] := Queued];
        receivedUpdateIds := Insert(receivedUpdateIds, additions[i]);
      }
      assert additions[..|additions|] == additions;
    }

    method IngestUpdates(updates: seq<int>, sched: Scheduling)
      returns (added: nat, saturated: bool, frontierMoved: bool)
      requires Ascending(receivedUpdateIds) && Elements(receivedUpdateIds) == trackedUpdates.Keys
      modifies this
      ensures AsLedger() == Schedule(Ingest(old(AsLedger()), updates), sched)
      ensures saturated == Saturated(old(AsLedger()), updates)
      ensures added == if saturated then 0 else |Additions(old(AsLedger()), updates)|
      ensures frontierMoved <==> offset != old(offset)
    {
      hide Schedule, Advance, Additions, Added, Ascending, Elements;
      var additions := NewUpdates(updates);
      var fullDuplicateWindow :=
        |updates| >= MAX_TRACKED_UPDATES && additions == [] && |trackedUpdates| >= MAX_TRACKED_UPDATES;
      if |trackedUpdates| + |additions| > MAX_TRACKED_UPDATES || fullDuplicateWindow {
        ScheduleUpdates(sched);
        return 0, true, false;
      }
      AddedAscending(AsLedger(), updates, |additions|);
      assert additions[..|additions|] == additions;
      Track(additions);
      frontierMoved := AdvanceConsumedFrontier();
      ScheduleUpdates(sched);
      added, saturated := |additions|, false;
    }
  }
}
