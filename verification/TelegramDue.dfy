/** What is due runs: which updates a scheduling starts and which a batch adds, said by ids alone
    and without the functions that choose them. */
module TelegramDue {
  import opened Basics
  import opened TelegramLedger
  import opened TelegramPolling
  import opened TelegramPromises

  // ---------- scheduling ----------

  predicate Waits(l: Ledger, id: int) {
    id in l.tracked && l.tracked[id] == Queued
  }

  /** The first waiting update that is no control update, with nothing older in the control lane or
      waiting for it. */
  ghost predicate PrimaryDue(l: Ledger, control: set<int>, id: int) {
    && Waits(l, id) && id !in control
    && (forall x :: x < id && Waits(l, x) ==> x in control)
    && (forall x :: x < id && x in l.tracked ==> l.tracked[x] != InControl && !(Waits(l, x) && x in control))
  }

  /** The first waiting control update that has not just been started as primary. */
  ghost predicate ControlDue(l: Ledger, primary: Option<int>, control: set<int>, id: int) {
    && Waits(l, id) && id in control && primary != Some(id)
    && (forall x :: x < id && Waits(l, x) && x in control ==> primary == Some(x))
  }

  lemma ReceivedAt(l: Ledger, id: int) returns (i: nat)
    requires Valid(l) && id in l.tracked
    ensures i < |l.received| && l.received[i] == id
  {
    assert id in Elements(l.received);
    i :| 0 <= i < |l.received| && l.received[i] == id;
  }

  /** The first queued index is the smallest queued id. */
  lemma FirstIsSmallest(l: Ledger, control: set<int>, want: bool, id: int)
    requires Valid(l)
    ensures var n := FirstQueued(l, l.received, control, want);
      (n != -1 && l.received[n] == id)
      <==> QueuedIn(l, id, control, want) && forall x :: x < id ==> !QueuedIn(l, x, control, want)
  {
    hide LanesAgree;
    var n := FirstQueued(l, l.received, control, want);
    if n != -1 && l.received[n] == id {
      forall x | x < id ensures !QueuedIn(l, x, control, want) {
        if QueuedIn(l, x, control, want) { var i := ReceivedAt(l, x); }
      }
    } else if QueuedIn(l, id, control, want) {
      var i := ReceivedAt(l, id);
      assert n != -1 && l.received[n] < id by { assert n <= i && n != i; }
    }
  }

  lemma BarrierByIds(l: Ledger, id: int, control: set<int>)
    requires Valid(l)
    ensures EarlierControlBarrier(l, id, control) <==>
      exists x :: x < id && x in l.tracked && (l.tracked[x] == InControl || QueuedIn(l, x, control, true))
  {
    hide LanesAgree;
    if x :| x < id && x in l.tracked && (l.tracked[x] == InControl || QueuedIn(l, x, control, true)) {
      var i := ReceivedAt(l, x);
    }
  }

  lemma PrimaryDueByQueue(l: Ledger, control: set<int>, id: int)
    ensures PrimaryDue(l, control, id) <==>
      && QueuedIn(l, id, control, false) && (forall x :: x < id ==> !QueuedIn(l, x, control, false))
      && !(exists x :: x < id && x in l.tracked && (l.tracked[x] == InControl || QueuedIn(l, x, control, true)))
  {
    if PrimaryDue(l, control, id) {
      forall x | x < id ensures !QueuedIn(l, x, control, false) { assert !Waits(l, x) || x in control; }
    } else if forall x :: x < id ==> !QueuedIn(l, x, control, false) {
      forall x | x < id && Waits(l, x) ensures x in control { assert !QueuedIn(l, x, control, false); }
    }
  }

  lemma ControlDueByQueue(l: Ledger, control: set<int>, id: int)
    ensures ControlDue(l, None, control, id) <==>
      QueuedIn(l, id, control, true) && forall x :: x < id ==> !QueuedIn(l, x, control, true)
  {
    if ControlDue(l, None, control, id) {
      forall x | x < id ensures !QueuedIn(l, x, control, true) { assert !Waits(l, x) || x !in control; }
    } else if forall x :: x < id ==> !QueuedIn(l, x, control, true) {
      forall x | x < id && Waits(l, x) ensures x !in control { assert !QueuedIn(l, x, control, true); }
    }
  }

  lemma PrimaryChoice(l: Ledger, sched: Scheduling, id: int)
    requires Valid(l)
    ensures PrimaryToStart(l, sched) == Some(id) <==>
      !sched.halted && !sched.stopped && l.primary.None? && PrimaryDue(l, sched.controlFirst, id)
  {
    hide Valid, FirstQueued, EarlierControlBarrier, PrimaryDue, QueuedIn;
    FirstIsSmallest(l, sched.controlFirst, false, id);
    BarrierByIds(l, id, sched.controlFirst);
    PrimaryDueByQueue(l, sched.controlFirst, id);
  }

  lemma ControlChoice(l: Ledger, sched: Scheduling, id: int)
    requires Valid(l)
    ensures ControlToStart(l, sched) == Some(id) <==>
      !sched.halted && l.control.None? && ControlDue(l, None, sched.controlThen, id)
  {
    hide Valid, FirstQueued, ControlDue, QueuedIn;
    FirstIsSmallest(l, sched.controlThen, true, id);
    ControlDueByQueue(l, sched.controlThen, id);
  }

  /** The state of an update by the lanes, or else the one it had. */
  function StateBeside(m: Ledger, id: int, state: UpdateState): UpdateState {
    if m.primary == Some(id) then InPrimary else if m.control == Some(id) then InControl else state
  }

  /** What scheduling does. Halted, nothing. Otherwise a free primary lane, unless stopped, takes the
      update that is due for it and a free control lane the one that is due for it; with none due the
      lane stays free, a lane in use keeps its update, and no other update changes. */
  lemma ScheduleExactly(l: Ledger, sched: Scheduling)
    requires Valid(l)
    ensures var m := Schedule(l, sched);
      && (sched.halted ==> m == l)
      && (!sched.halted ==>
          && (if l.primary.None? && !sched.stopped
              then forall id :: m.primary == Some(id) <==> PrimaryDue(l, sched.controlFirst, id)
              else m.primary == l.primary)
          && (if l.control.None?
              then forall id :: m.control == Some(id) <==> ControlDue(l, m.primary, sched.controlThen, id)
              else m.control == l.control))
      && m.offset == l.offset && m.received == l.received && m.tracked.Keys == l.tracked.Keys
      && (forall id :: id in l.tracked ==> m.tracked[id] == StateBeside(m, id, l.tracked[id]))
  {
    hide Valid, PrimaryToStart, ControlToStart, PrimaryDue, ControlDue;
    var middle := AfterPrimary(l, sched);
    ScheduleKeepsValid(l, sched);
    forall id
      ensures PrimaryToStart(l, sched) == Some(id) <==>
        !sched.halted && !sched.stopped && l.primary.None? && PrimaryDue(l, sched.controlFirst, id)
      ensures ControlToStart(middle, sched) == Some(id) <==>
        !sched.halted && l.control.None? && ControlDue(l, middle.primary, sched.controlThen, id)
    {
      PrimaryChoice(l, sched, id);
      ControlChoice(middle, sched, id);
      DueAfterPrimary(l, sched, id);
    }
    LanesHold(l);
    StartedStates(l, sched);
  }

  lemma LanesHold(l: Ledger)
    requires Valid(l)
    ensures forall id :: id in l.tracked ==> (l.primary == Some(id) ==> l.tracked[id] == InPrimary)
    ensures forall id :: id in l.tracked ==> (l.control == Some(id) ==> l.tracked[id] == InControl)
  {
  }

  lemma DueAfterPrimary(l: Ledger, sched: Scheduling, id: int)
    requires Valid(l)
    ensures var middle := AfterPrimary(l, sched);
      ControlDue(middle, None, sched.controlThen, id) <==> ControlDue(l, middle.primary, sched.controlThen, id)
  {
    hide PrimaryToStart;
    var p := PrimaryToStart(l, sched);
    var middle := AfterPrimary(l, sched);
    if p.Some? { PrimaryStartsAtFrontier(l, sched); }
    assert forall x :: Waits(middle, x) <==> Waits(l, x) && middle.primary != Some(x);
  }

  lemma StartedStates(l: Ledger, sched: Scheduling)
    requires Valid(l)
    ensures var m := Schedule(l, sched);
      && m.offset == l.offset && m.received == l.received && m.tracked.Keys == l.tracked.Keys
      && (forall id :: id in l.tracked ==> m.tracked[id] == StateBeside(m, id, l.tracked[id]))
  {
    hide Valid, PrimaryToStart, ControlToStart;
    ScheduleKeepsValid(l, sched);
    LanesHold(l);
    var middle := AfterPrimary(l, sched);
    LanesHold(middle);
    LanesHold(Schedule(l, sched));
    if PrimaryToStart(l, sched).Some? { PrimaryStartsAtFrontier(l, sched); }
    if ControlToStart(middle, sched).Some? { ControlStartsQueued(middle, sched); }
  }

  lemma {:induction false} SomeIsDue(l: Ledger, primary: Option<int>, control: set<int>, id: int)
    requires Valid(l) && Waits(l, id) && id in control && primary != Some(id)
    ensures exists d :: ControlDue(l, primary, control, d)
    decreases id - l.offset
  {
    ValidIsPending(l);
    if x :| x < id && Waits(l, x) && x in control && primary != Some(x) {
      SomeIsDue(l, primary, control, x);
    } else {
      assert ControlDue(l, primary, control, id);
    }
  }

  /** After any scheduling that is not halted the control lane is in use or no control update waits. */
  lemma ControlNeverIdles(l: Ledger, sched: Scheduling, id: int)
    requires Valid(l) && !sched.halted
    ensures var m := Schedule(l, sched); m.control.None? ==> !(Waits(m, id) && id in sched.controlThen)
  {
    hide Valid, Schedule, PrimaryDue, ControlDue;
    var m := Schedule(l, sched);
    ScheduleExactly(l, sched);
    if m.control.None? && Waits(m, id) && id in sched.controlThen {
      SomeIsDue(l, m.primary, sched.controlThen, id);
    }
  }

  // ---------- what a batch adds ----------

  /** The history records exactly the lanes' new updates as started. */
  lemma StartsAreRecorded(l: Ledger, sched: Scheduling, id: int)
    ensures var m := Schedule(l, sched);
      && (Started(id, Primary) in StartsOf(l, sched) <==> l.primary.None? && m.primary == Some(id))
      && (Started(id, Control) in StartsOf(l, sched) <==> l.control.None? && m.control == Some(id))
  {
    hide FirstQueued, EarlierControlBarrier;
  }

  /** An id of the batch that is neither consumed nor tracked. */
  predicate IsNew(l: Ledger, updates: seq<int>, id: int) {
    id in updates && l.offset <= id && id !in l.tracked
  }

  /** A batch is refused exactly when the window cannot hold its new ids, or when it is a full batch
      that only repeats a full window; a refused batch changes nothing. */
  lemma RefusedExactly(l: Ledger, updates: seq<int>)
    requires Valid(l)
    ensures var news := set id | id in updates && IsNew(l, updates, id);
      && (Saturated(l, updates) <==>
          |l.tracked| + |news| > 100 || (|updates| >= 100 && news == {} && |l.tracked| >= 100))
      && (Saturated(l, updates) ==> Ingest(l, updates) == l)
  {
    hide Valid, Additions, Added;
    var a := Additions(l, updates);
    AdditionsAreNew(l, updates);
    assert forall i, j :: 0 <= i < j < |a| ==> a[i] != a[j];
    hide NewOf;
    var news := set id | id in updates && IsNew(l, updates, id);
    forall id ensures id in news <==> id in Elements(a) { NewIsAdded(l, updates, a, id); }
    assert news == Elements(a);
    DistinctSize(a);
    assert a == [] <==> news == {} by {
      if a != [] { assert a[0] in news; }
    }
  }

  lemma NewIsAdded(l: Ledger, updates: seq<int>, a: seq<int>, id: int)
    requires NewOf(l, updates, a)
    ensures id in a <==> IsNew(l, updates, id)
  {
  }

  /** A batch that is taken adds each of its new ids, waiting, and nothing else; of all tracked ids
      it consumes those below the frontier, and they have settled. */
  lemma TakenExactly(l: Ledger, updates: seq<int>, id: int)
    requires Valid(l) && !Saturated(l, updates)
    ensures var m := Ingest(l, updates);
      && (id in m.tracked <==> (id in l.tracked || IsNew(l, updates, id)) && m.offset <= id)
      && (id in m.tracked ==> m.tracked[id] == if id in l.tracked then l.tracked[id] else Queued)
      && (IsNew(l, updates, id) ==> id in m.tracked)
      && (id in l.tracked && id !in m.tracked ==> l.tracked[id] == Settled)
      && m.primary == l.primary && m.control == l.control
  {
    hide Valid, Additions, Added, Advance, AddedTo, NewOf, LanesAgree;
    var a := Additions(l, updates);
    var added := Added(l, a);
    ValidIsPending(l);
    ValidIsAscending(l);
    AddedFacts(l, updates);
    WhatIsAdded(l, updates, a, added, id);
    AddedIsPending(l, updates);
    AdvanceFrame(added);
    if id in added.tracked { AdvanceSplits(added, id); }
  }

  lemma ValidIsAscending(l: Ledger)
    requires Valid(l)
    ensures Ascending(l.received) && Elements(l.received) == l.tracked.Keys
  {
  }

  lemma WhatIsAdded(l: Ledger, updates: seq<int>, a: seq<int>, added: Ledger, id: int)
    requires AddedTo(l, a, added) && NewOf(l, updates, a)
    ensures id in added.tracked <==> id in l.tracked || IsNew(l, updates, id)
    ensures id in added.tracked ==> added.tracked[id] == if id in l.tracked then l.tracked[id] else Queued
    ensures added.primary == l.primary && added.control == l.control
  {
    assert id in added.tracked <==> id in added.tracked.Keys;
    assert id in Elements(a) <==> id in a;
  }

  // ---------- an update is fetched, run and acknowledged ----------

  const ALL_PRIMARY := Scheduling(false, false, {}, {})

  lemma HasElements(s: seq<int>)
    ensures s != [] ==> Elements(s) != {}
  {
    if s != [] { assert s[0] in Elements(s); }
  }

  lemma EmptyLedger(l: Ledger)
    requires Valid(l) && l.tracked == map[]
    ensures l == Ledger(l.offset, map[], [], None, None)
  {
    HasElements(l.received);
  }

  lemma OneIngested(offset: int, id: int)
    requires offset <= id
    ensures Ingest(Ledger(offset, map[], [], None, None), [id]) == Ledger(id, map[id := Queued], [id], None, None)
  {
    var l := Ledger(offset, map[], [], None, None);
    assert [id][..0] == [];
    assert Additions(l, []) == [] && Additions(l, [id]) == [id];
    assert Added(l, []) == l && Added(l, [id]) == Ledger(offset, map[id := Queued], [id], None, None);
    assert SettledPrefix([id], map[id := Queued]) == 0;
    assert Elements([id][..0]) == {};
  }

  lemma OneScheduled(id: int)
    ensures Schedule(Ledger(id, map[id := Queued], [id], None, None), ALL_PRIMARY)
      == Ledger(id, map[id := InPrimary], [id], Some(id), None)
    ensures StartsOf(Ledger(id, map[id := Queued], [id], None, None), ALL_PRIMARY) == [Started(id, Primary)]
  {
    var l := Ledger(id, map[id := Queued], [id], None, None);
    var m := Ledger(id, map[id := InPrimary], [id], Some(id), None);
    assert FirstQueued(l, [id], {}, false) == 0 && FirstQueued(m, [id], {}, true) == -1;
    assert AfterPrimary(l, ALL_PRIMARY) == m;
  }

  lemma OneSettled(id: int)
    ensures var l := Ledger(id, map[id := InPrimary], [id], Some(id), None);
      var r := Ledger(id + 1, map[], [], None, None);
      && Returned(l, id, Primary, true) == r && Schedule(r, ALL_PRIMARY) == r && StartsOf(r, ALL_PRIMARY) == []
  {
    assert SettledPrefix([], map[id := Settled]) == 0;
    assert [id][1..] == [] && [id][..1] == [id];
    assert SettledPrefix([id], map[id := Settled]) == 1;
    assert Elements([id]) == {id};
    var r := Ledger(id + 1, map[], [], None, None);
    assert FirstQueued(r, [], {}, false) == -1 && FirstQueued(r, [], {}, true) == -1;
  }

  lemma OneAnswered(issued: seq<int>, offset: int, id: int)
    requires Ascending(issued) && id in issued && offset <= id
    requires forall x :: x in issued && offset <= x ==> id <= x
    ensures Response(issued, offset, 1) == [id]
  {
    ResponseIsPrefix(issued, offset);
    var held := AtOrAbove(issued, offset);
    assert id in held && held != [] && held[0] in held;
    assert held[..1] == [held[0]];
  }

  /** With nothing tracked and no poll under way, the oldest update that the server still holds is
      fetched, runs, settles, and is acknowledged by the next poll. */
  lemma NextUpdateIsProcessed(actions: seq<Action>, id: int)
    requires var w := Exec(actions);
      && w.poll.None? && w.ledger.tracked == map[] && id in w.issued && w.ledger.offset <= id
      && forall x :: x in w.issued && w.ledger.offset <= x ==> id <= x
    ensures var w := Exec(actions);
      var t := Exec(
        actions + [SendPoll, ReplyPoll(1, ALL_PRIMARY), FinishUpdate(Primary, true, ALL_PRIMARY), SendPoll]);
      && t.log == w.log + [Started(id, Primary), Settles(id)]
      && t.ledger == Ledger(id + 1, map[], [], None, None)
      && t.polled == w.polled + [w.ledger.offset, id + 1]
  {
    hide Exec, Schedule, Ingest, Returned, StartsOf, Response, Valid;
    RunKeepsInv(actions);
    var w, offset := Exec(actions), Exec(actions).ledger.offset;
    EmptyLedger(w.ledger);
    OneAnswered(w.issued, offset, id);
    OneIngested(offset, id);
    OneScheduled(id);
    OneSettled(id);
    ExecMore(actions, SendPoll);
    ExecMore(actions + [SendPoll], ReplyPoll(1, ALL_PRIMARY));
    ExecMore(actions + [SendPoll] + [ReplyPoll(1, ALL_PRIMARY)], FinishUpdate(Primary, true, ALL_PRIMARY));
    ExecMore(
      actions + [SendPoll] + [ReplyPoll(1, ALL_PRIMARY)] + [FinishUpdate(Primary, true, ALL_PRIMARY)], SendPoll);
    assert actions + [SendPoll, ReplyPoll(1, ALL_PRIMARY), FinishUpdate(Primary, true, ALL_PRIMARY), SendPoll]
      == actions + [SendPoll] + [ReplyPoll(1, ALL_PRIMARY)] + [FinishUpdate(Primary, true, ALL_PRIMARY)] + [SendPoll];
  }

  lemma ExecMore(actions: seq<Action>, a: Action)
    ensures Exec(actions + [a]) == Step(Exec(actions), a)
  {
    assert (actions + [a])[..|actions|] == actions;
  }

  /** A poll is over with its answer or its failure, and the next one asks from the frontier as it
      then is. The answer to a poll that was interrupted, and a failure, change nothing else. */
  lemma PollingGoesOn(actions: seq<Action>, a: Action)
    requires Exec(actions).poll.Some? && (a.ReplyPoll? || a == FailPoll)
    ensures var w, v, t := Exec(actions), Exec(actions + [a]), Exec(actions + [a, SendPoll]);
      && v.poll == None && v.polled == w.polled
      && (a == FailPoll || w.poll.value.interrupted ==> v.ledger == w.ledger && v.log == w.log)
      && t.polled == w.polled + [v.ledger.offset] && t.poll == Some(Poll(v.ledger.offset, false))
  {
    hide Exec, Schedule, Ingest, Response, StartsOf;
    ExecMore(actions, a);
    ExecMore(actions + [a], SendPoll);
    assert actions + [a, SendPoll] == actions + [a] + [SendPoll];
  }
}
