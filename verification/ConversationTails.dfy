/** Per-conversation admission: a chain of promises that lets operations on one id run one
    at a time in arrival order, and forgets the chain when its last call is over. */
module ConversationTails {
  import opened Basics

  /** Calls are numbered in arrival order; a number also names the call's promise. */
  type Ticket = nat

  // ---------- the map of tails ----------

  type TailMap = map<string, Ticket>

  function Previous(tails: TailMap, id: string): Option<Ticket> {
    if id in tails then Some(tails[id]) else None
  }

  /** Only the call that is still the tail removes the entry. */
  function Collected(tails: TailMap, id: string, ticket: Ticket): TailMap {
    if id in tails && tails[id] == ticket then tails - {id} else tails
  }

  class Tails {
    var tails: TailMap
    var next: Ticket

    constructor ()
      ensures tails == map[] && next == 0
    {
      tails, next := map[], 0;
    }

    /** The part of `run` before its first await. */
    method Enter(id: string) returns (previous: Option<Ticket>, ticket: Ticket)
      modifies this
      ensures previous == Previous(old(tails), id) && ticket == old(next) && next == old(next) + 1
      ensures tails == old(tails)[id := ticket]
    {
      previous := if id in tails then Some(tails[id]) else None;
      ticket := next;
      next := next + 1;
      tails := tails[id := ticket];
    }

    /** What runs once the call's own promise has settled. */
    method Collect(id: string, ticket: Ticket)
      modifies this`tails
      ensures tails == Collected(old(tails), id, ticket)
    {
      if id in tails && tails[id] == ticket {
        tails := tails - {id};
      }
    }
  }

  // ---------- the protocol ----------

  datatype Phase = Waiting | Running | Ended

  /** `settled`: the call's promise, hence every promise before it in the chain, is done. */
  datatype Call = Call(id: string, previous: Option<Ticket>, phase: Phase, settled: bool, collected: bool)

  datatype World = World(calls: seq<Call>, tails: TailMap, starts: seq<Ticket>)

  datatype Action =
    | Arrive(id: string)
    | Start(k: Ticket)
    | Abort(k: Ticket)
    | Finish(k: Ticket)
    | Settle(k: Ticket)
    | Collect(k: Ticket)

  const INITIAL := World([], map[], [])

  predicate Ready(calls: seq<Call>, k: Ticket)
    requires k < |calls|
  {
    var previous := calls[k].previous;
    previous.None? || (previous.value < |calls| && calls[previous.value].settled)
  }

  function Update(w: World, k: Ticket, call: Call): World
    requires k < |w.calls|
  {
    w.(calls := w.calls[k := call])
  }

  /** A step that does not apply changes nothing. A waiting call may be aborted at any
      time; it then releases its gate without having run. */
  function Next(w: World, a: Action): World {
    if a.Arrive? then
      World(w.calls + [Call(a.id, Previous(w.tails, a.id), Waiting, false, false)], w.tails[a.id := |w.calls|],
        w.starts)
    else if a.k >= |w.calls| then w
    else
      var call := w.calls[a.k];
      match a
      case Start(k) =>
        if call.phase == Waiting && Ready(w.calls, k)
        then Update(w, k, call.(phase := Running)).(starts := w.starts + [k]) else w
      case Abort(k) => if call.phase == Waiting then Update(w, k, call.(phase := Ended)) else w
      case Finish(k) => if call.phase == Running then Update(w, k, call.(phase := Ended)) else w
      case Settle(k) =>
        if call.phase == Ended && Ready(w.calls, k) then Update(w, k, call.(settled := true)) else w
      case Collect(k) =>
        if call.settled && !call.collected
        then Update(w, k, call.(collected := true)).(tails := Collected(w.tails, call.id, k)) else w
  }

  function Exec(w: World, actions: seq<Action>): World {
    if actions == [] then w else Next(Exec(w, actions[..|actions| - 1]), actions[|actions| - 1])
  }

  // ---------- invariant ----------

  /** Every call of the conversation before the `k`-th is settled. */
  ghost predicate SettledBefore(calls: seq<Call>, k: Ticket, id: string)
    requires k <= |calls|
  {
    forall i :: 0 <= i < k && calls[i].id == id ==> calls[i].settled
  }

  /** A settled predecessor means that everything before is settled. */
  ghost predicate ChainInv(calls: seq<Call>, k: Ticket)
    requires k < |calls|
  {
    && (calls[k].settled ==> calls[k].phase == Ended && SettledBefore(calls, k, calls[k].id))
    && (calls[k].phase == Running ==> SettledBefore(calls, k, calls[k].id))
    && match calls[k].previous
       case None => SettledBefore(calls, k, calls[k].id)
       case Some(j) => j < k && calls[j].id == calls[k].id && forall i :: j < i < k ==> calls[i].id != calls[k].id
  }

  ghost predicate CallsInv(calls: seq<Call>) {
    forall k :: 0 <= k < |calls| ==> ChainInv(calls, k)
  }

  ghost predicate TailInv(w: World, id: string) {
    if id in w.tails then
      && w.tails[id] < |w.calls| && w.calls[w.tails[id]].id == id && !w.calls[w.tails[id]].collected
      && (forall i :: w.tails[id] < i < |w.calls| ==> w.calls[i].id != id)
    else SettledBefore(w.calls, |w.calls|, id)
  }

  /** Whoever has started found everything before it settled. */
  ghost predicate StartInv(calls: seq<Call>, k: Ticket) {
    k < |calls| && calls[k].phase != Waiting && SettledBefore(calls, k, calls[k].id)
  }

  ghost predicate StartsInv(w: World) {
    && (forall i :: 0 <= i < |w.starts| ==> StartInv(w.calls, w.starts[i]))
    && (forall i, j :: 0 <= i < j < |w.starts| && w.calls[w.starts[i]].id == w.calls[w.starts[j]].id ==>
      w.starts[i] < w.starts[j])
  }

  ghost predicate Inv(w: World) {
    CallsInv(w.calls) && (forall id :: TailInv(w, id)) && StartsInv(w)
  }

  /** A ready call has only settled calls before it. */
  lemma ReadyMeansSettled(calls: seq<Call>, k: Ticket)
    requires CallsInv(calls) && k < |calls| && Ready(calls, k)
    ensures SettledBefore(calls, k, calls[k].id)
  {
    assert ChainInv(calls, k);
    if calls[k].previous.Some? {
      assert ChainInv(calls, calls[k].previous.value);
    }
  }

  // ---------- every step keeps the invariant ----------

  /** A call moves forward: its identity and predecessor stay, settled stays settled. */
  predicate Advances(before: Call, after: Call) {
    && after.id == before.id && after.previous == before.previous && (before.settled ==> after.settled)
    && (before.phase != Waiting ==> after.phase != Waiting)
  }

  lemma ArriveKeepsInv(w: World, id: string)
    requires Inv(w)
    ensures Inv(Next(w, Arrive(id)))
  {
    var v := Next(w, Arrive(id));
    assert TailInv(w, id);
    forall k | 0 <= k < |v.calls| ensures ChainInv(v.calls, k) {
      if k < |w.calls| { assert ChainInv(w.calls, k); }
    }
    forall other ensures TailInv(v, other) { assert TailInv(w, other); }
  }

  lemma UpdateKeepsInv(w: World, k: Ticket, call: Call)
    requires Inv(w) && k < |w.calls| && Advances(w.calls[k], call) && call.collected == w.calls[k].collected
    requires call.settled ==> call.phase == Ended
    requires (call.settled || call.phase == Running) ==> SettledBefore(w.calls, k, call.id)
    ensures Inv(Update(w, k, call))
  {
    var calls := w.calls[k := call];
    forall i | 0 <= i < |calls| ensures ChainInv(calls, i) { assert ChainInv(w.calls, i); }
    forall id ensures TailInv(Update(w, k, call), id) { assert TailInv(w, id); }
  }

  /** No later call of the conversation has started: it would have had to wait for this one. */
  lemma WaitingIsAfterStarts(w: World, k: Ticket, i: nat)
    requires CallsInv(w.calls) && StartsInv(w) && k < |w.calls| && w.calls[k].phase == Waiting
    requires i < |w.starts| && w.calls[w.starts[i]].id == w.calls[k].id
    ensures w.starts[i] < k
  {
    assert StartInv(w.calls, w.starts[i]);
    assert ChainInv(w.calls, k);
  }

  lemma StartKeepsInv(w: World, k: Ticket)
    requires Inv(w) && k < |w.calls| && w.calls[k].phase == Waiting && Ready(w.calls, k)
    ensures Inv(Next(w, Start(k)))
  {
    var call, v := w.calls[k], Next(w, Start(k));
    assert ChainInv(w.calls, k);
    ReadyMeansSettled(w.calls, k);
    UpdateKeepsInv(w, k, call.(phase := Running));
    var u := Update(w, k, call.(phase := Running));
    forall id ensures TailInv(v, id) { assert TailInv(u, id); }
    forall i | 0 <= i < |w.starts| && w.calls[w.starts[i]].id == call.id
      ensures w.starts[i] < k { WaitingIsAfterStarts(w, k, i); }
    forall i | 0 <= i < |v.starts| ensures StartInv(v.calls, v.starts[i]) {
      if i < |w.starts| { assert StartInv(u.calls, u.starts[i]); }
    }
  }

  lemma CollectKeepsInv(w: World, k: Ticket)
    requires Inv(w) && k < |w.calls| && w.calls[k].settled && !w.calls[k].collected
    ensures Inv(Next(w, Collect(k)))
  {
    var v := Next(w, Collect(k));
    assert ChainInv(w.calls, k);
    forall i | 0 <= i < |v.calls| ensures ChainInv(v.calls, i) { assert ChainInv(w.calls, i); }
    forall id ensures TailInv(v, id) { assert TailInv(w, id); }
  }

  lemma NextKeepsInv(w: World, a: Action)
    requires Inv(w)
    ensures Inv(Next(w, a))
  {
    hide Inv, CallsInv, TailInv, StartsInv;
    if a.Arrive? {
      ArriveKeepsInv(w, a.id);
    } else if a.k < |w.calls| {
      var call := w.calls[a.k];
      StepFacts(w, a.k);
      match a {
        case Start(k) => if call.phase == Waiting && Ready(w.calls, k) { StartKeepsInv(w, k); }
        case Abort(k) => if call.phase == Waiting { UpdateKeepsInv(w, k, call.(phase := Ended)); }
        case Finish(k) => if call.phase == Running { UpdateKeepsInv(w, k, call.(phase := Ended)); }
        case Settle(k) => if call.phase == Ended && Ready(w.calls, k) { UpdateKeepsInv(w, k, call.(settled := true)); }
        case Collect(k) => if call.settled && !call.collected { CollectKeepsInv(w, k); }
      }
    }
  }

  lemma StepFacts(w: World, k: Ticket)
    requires Inv(w) && k < |w.calls|
    ensures Ready(w.calls, k) || w.calls[k].settled || w.calls[k].phase == Running ==>
      SettledBefore(w.calls, k, w.calls[k].id)
    ensures w.calls[k].settled ==> w.calls[k].phase == Ended
  {
    assert ChainInv(w.calls, k);
    if Ready(w.calls, k) { ReadyMeansSettled(w.calls, k); }
  }

  lemma {:induction false} RunKeepsInv(actions: seq<Action>)
    ensures Inv(Exec(INITIAL, actions))
  {
    if actions != [] {
      RunKeepsInv(actions[..|actions| - 1]);
      NextKeepsInv(Exec(INITIAL, actions[..|actions| - 1]), actions[|actions| - 1]);
    }
  }

  // ---------- theorems over every interleaving ----------

  /** Operations of one conversation never overlap. */
  lemma MutualExclusion(actions: seq<Action>, j: Ticket, k: Ticket)
    ensures var calls := Exec(INITIAL, actions).calls;
      j < |calls| && k < |calls| && calls[j].id == calls[k].id && calls[j].phase == Running && calls[k].phase == Running
      ==> j == k
  {
    hide Exec;
    var w := Exec(INITIAL, actions);
    RunKeepsInv(actions);
    if j < |w.calls| { StepFacts(w, j); }
    if k < |w.calls| { StepFacts(w, k); }
    assert forall i :: 0 <= i < |w.calls| && w.calls[i].settled ==> w.calls[i].phase == Ended by {
      forall i | 0 <= i < |w.calls| && w.calls[i].settled ensures w.calls[i].phase == Ended { StepFacts(w, i); }
    }
  }

  /** They start in arrival order, whichever of the waiting calls give up. */
  lemma StartsInArrivalOrder(actions: seq<Action>, i: nat, j: nat)
    ensures var w := Exec(INITIAL, actions);
      i < j < |w.starts| && w.starts[i] < |w.calls| && w.starts[j] < |w.calls| &&
        w.calls[w.starts[i]].id == w.calls[w.starts[j]].id
      ==> w.starts[i] < w.starts[j]
  {
    hide Exec;
    RunKeepsInv(actions);
  }

  /** No newcomer overtakes: a call only starts once everything before it in its
      conversation has ended, also when the tail was forgotten in between. */
  lemma NothingIsOvertaken(actions: seq<Action>, k: Ticket, i: Ticket)
    ensures var w := Exec(INITIAL, actions);
      i < k < |w.calls| && w.calls[i].id == w.calls[k].id && w.calls[k].phase == Waiting
      && Next(w, Start(k)).calls[k].phase == Running
      ==> w.calls[i].phase == Ended
  {
    hide Exec;
    var w := Exec(INITIAL, actions);
    RunKeepsInv(actions);
    if i < k < |w.calls| {
      StepFacts(w, k);
      StepFacts(w, i);
    }
  }

  /** The conversation's map entry, if any, names its last call; without one, everything
      that ever arrived for it is over. */
  lemma TailIsLastCall(actions: seq<Action>, id: string, i: Ticket)
    ensures var w := Exec(INITIAL, actions);
      i < |w.calls| && w.calls[i].id == id ==>
      if id in w.tails then i <= w.tails[id] < |w.calls| && w.calls[w.tails[id]].id == id else w.calls[i].settled
  {
    hide Exec;
    RunKeepsInv(actions);
    assert TailInv(Exec(INITIAL, actions), id);
  }

  predicate Quiet(w: World) {
    forall k :: 0 <= k < |w.calls| ==> w.calls[k].phase == Ended && Next(w, Settle(k)) == w && Next(w, Collect(k)) == w
  }

  lemma {:induction false} QuietIsSettled(w: World, k: Ticket)
    requires CallsInv(w.calls) && Quiet(w) && k < |w.calls|
    ensures w.calls[k].settled
    decreases k
  {
    assert ChainInv(w.calls, k);
    if w.calls[k].previous.Some? {
      QuietIsSettled(w, w.calls[k].previous.value);
    }
    assert Next(w, Settle(k)).calls[k] == w.calls[k];
  }

  lemma QuietIsCollected(w: World, k: Ticket)
    requires CallsInv(w.calls) && Quiet(w) && k < |w.calls|
    ensures w.calls[k].collected
  {
    QuietIsSettled(w, k);
    assert Next(w, Collect(k)).calls[k] == w.calls[k];
  }

  /** When every call has ended and no pending promise step is left, the map is empty. */
  lemma QuietMapIsEmpty(actions: seq<Action>)
    requires Quiet(Exec(INITIAL, actions))
    ensures Exec(INITIAL, actions).tails == map[]
  {
    hide Exec;
    var w := Exec(INITIAL, actions);
    RunKeepsInv(actions);
    forall id ensures id !in w.tails {
      assert TailInv(w, id);
      if id in w.tails {
        QuietIsCollected(w, w.tails[id]);
      }
    }
  }

  // ---------- every call's turn comes ----------

  /** The same call, its promise perhaps settled meanwhile. */
  predicate Settles(before: Call, after: Call) {
    (before.settled ==> after.settled) && after == before.(settled := after.settled)
  }

  /** Only promises have settled from `w` to `v`. */
  predicate OnlySettles(w: World, v: World) {
    && v.tails == w.tails && v.starts == w.starts && |v.calls| == |w.calls|
    && forall i :: 0 <= i < |w.calls| ==> Settles(w.calls[i], v.calls[i])
  }

  lemma ExecMore(w: World, actions: seq<Action>, a: Action)
    ensures Exec(w, actions + [a]) == Next(Exec(w, actions), a)
  {
    assert (actions + [a])[..|actions|] == actions;
  }

  lemma {:induction false} ExecConcat(w: World, a: seq<Action>, b: seq<Action>)
    ensures Exec(w, a + b) == Exec(Exec(w, a), b)
    decreases |b|
  {
    hide Next;
    if b == [] {
      assert a + b == a;
    } else {
      var n := |b| - 1;
      ExecConcat(w, a, b[..n]);
      assert (a + b)[..|a + b| - 1] == a + b[..n];
    }
  }

  lemma SettlesOne(w: World, v: World, i: Ticket)
    requires OnlySettles(w, v) && i < |w.calls| && w.calls[i].phase == Ended && Ready(v.calls, i)
    ensures OnlySettles(w, Next(v, Settle(i))) && Next(v, Settle(i)).calls[i].settled
    ensures forall j :: 0 <= j < |v.calls| && v.calls[j].settled ==> Next(v, Settle(i)).calls[j].settled
  {
    assert Settles(w.calls[i], v.calls[i]);
    var u := Next(v, Settle(i));
    forall j | 0 <= j < |w.calls| ensures Settles(w.calls[j], u.calls[j]) {
      assert Settles(w.calls[j], v.calls[j]);
    }
  }

  lemma ReadyByChain(w: World, v: World, k: Ticket)
    requires Inv(v) && OnlySettles(w, v) && k < |w.calls| && SettledBefore(v.calls, k, w.calls[k].id)
    ensures Ready(v.calls, k)
  {
    assert Settles(w.calls[k], v.calls[k]) && ChainInv(v.calls, k);
  }

  /** When the calls of a conversation before the `k`-th have ended, their promises settle
      one after the other. */
  lemma {:induction false} ChainSettles(w: World, k: Ticket, id: string) returns (more: seq<Action>)
    requires Inv(w) && k <= |w.calls| && forall i :: 0 <= i < k && w.calls[i].id == id ==> w.calls[i].phase == Ended
    ensures forall a :: a in more ==> a.Settle?
    ensures var v := Exec(w, more); Inv(v) && OnlySettles(w, v) && SettledBefore(v.calls, k, id)
    decreases k
  {
    hide Inv, Next;
    more := [];
    if k > 0 {
      more := ChainSettles(w, k - 1, id);
      var v := Exec(w, more);
      assert Settles(w.calls[k - 1], v.calls[k - 1]);
      if w.calls[k - 1].id == id {
        ReadyByChain(w, v, k - 1);
        SettlesOne(w, v, k - 1);
        NextKeepsInv(v, Settle(k - 1));
        ExecMore(w, more, Settle(k - 1));
        assert SettledBefore(Next(v, Settle(k - 1)).calls, k, id) by {
          var u := Next(v, Settle(k - 1));
          forall i | 0 <= i < k && u.calls[i].id == id ensures u.calls[i].settled {
            assert Settles(w.calls[i], v.calls[i]) && Settles(w.calls[i], u.calls[i]);
          }
        }
        more := more + [Settle(k - 1)];
      }
    }
  }

  /** Every earlier call of the `k`-th call's conversation has ended. */
  predicate Unblocked(calls: seq<Call>, k: Ticket)
    requires k < |calls|
  {
    forall i :: 0 <= i < k && calls[i].id == calls[k].id ==> calls[i].phase == Ended
  }

  /** A waiting call whose conversation has nothing unfinished before it runs as soon as the
      promises before it have settled, whatever goes on in other conversations. */
  lemma TurnComes(actions: seq<Action>, k: Ticket) returns (more: seq<Action>)
    requires var calls := Exec(INITIAL, actions).calls; k < |calls| && calls[k].phase == Waiting && Unblocked(calls, k)
    ensures forall a :: a in more ==> a.Settle?
    ensures var w, v := Exec(INITIAL, actions), Exec(INITIAL, actions + more + [Start(k)]);
      && |v.calls| == |w.calls| && v.calls[k].phase == Running && v.starts == w.starts + [k] && v.tails == w.tails
  {
    hide Exec, Inv;
    RunKeepsInv(actions);
    var w := Exec(INITIAL, actions);
    more := ChainSettles(w, k, w.calls[k].id);
    var v := Exec(w, more);
    ExecConcat(INITIAL, actions, more);
    ExecMore(INITIAL, actions + more, Start(k));
    assert Settles(w.calls[k], v.calls[k]);
    ReadyByChain(w, v, k);
  }

  /** What runs has been recorded as started. */
  lemma {:induction false} RunningHasStarted(actions: seq<Action>, k: Ticket)
    requires var w := Exec(INITIAL, actions); k < |w.calls| && w.calls[k].phase == Running
    ensures k in Exec(INITIAL, actions).starts
  {
    if actions != [] {
      var n := |actions| - 1;
      var w := Exec(INITIAL, actions[..n]);
      if k < |w.calls| && w.calls[k].phase == Running {
        RunningHasStarted(actions[..n], k);
      }
    }
  }

  // ---------- everything can come to an end ----------

  predicate Over(call: Call) {
    call.phase == Ended && call.settled && call.collected
  }

  predicate OverBefore(calls: seq<Call>, k: nat) {
    forall i :: 0 <= i < k && i < |calls| ==> Over(calls[i])
  }

  /** The tickets below `k` of the calls that still wait. */
  function WaitingBelow(calls: seq<Call>, k: nat): seq<Ticket>
    requires k <= |calls|
  {
    if k == 0 then []
    else WaitingBelow(calls, k - 1) + if calls[k - 1].phase == Waiting then [k - 1] else []
  }

  /** What happens to a call that is next: it starts unless it has already, finishes, and
      its promise settles and is collected. */
  function Steps(call: Call, k: Ticket): seq<Action> {
    (if call.phase == Waiting then [Start(k)] else []) + (if call.phase == Ended then [] else [Finish(k)])
    + [Settle(k)] + [Collect(k)]
  }

  /** Nothing but the `k`-th call and the records of its start and its tail differ. */
  predicate OnlyEnds(w: World, v: World, k: Ticket)
    requires k < |w.calls|
  {
    && |v.calls| == |w.calls| && Over(v.calls[k]) && v.calls[k].id == w.calls[k].id
    && (forall i :: 0 <= i < |w.calls| && i != k ==> v.calls[i] == w.calls[i])
    && v.starts == w.starts + if w.calls[k].phase == Waiting then [k] else []
  }

  /** The first half of those steps: the start of a call that waits. */
  function Begun(w: World, k: Ticket): World
    requires k < |w.calls|
  {
    if w.calls[k].phase == Waiting then Next(w, Start(k)) else w
  }

  /** The second: the finish of a call that runs. */
  function Finished(w: World, k: Ticket): World
    requires k < |w.calls|
  {
    if w.calls[k].phase == Ended then w else Next(w, Finish(k))
  }

  lemma StepsRun(w: World, k: Ticket)
    requires k < |w.calls| && |Begun(w, k).calls| == |w.calls|
    requires Begun(w, k).calls[k].phase == Ended <==> w.calls[k].phase == Ended
    ensures Exec(w, Steps(w.calls[k], k)) == Next(Next(Finished(Begun(w, k), k), Settle(k)), Collect(k))
  {
    hide Next;
    var call := w.calls[k];
    var a := if call.phase == Waiting then [Start(k)] else [];
    var b := if call.phase == Ended then [] else [Finish(k)];
    if call.phase == Waiting { ExecMore(w, [], Start(k)); assert [] + [Start(k)] == a; }
    if call.phase == Ended { assert a + b == a; } else { ExecMore(w, a, Finish(k)); }
    ExecMore(w, a + b, Settle(k));
    ExecMore(w, a + b + [Settle(k)], Collect(k));
  }

  lemma BegunFacts(w: World, k: Ticket)
    requires Inv(w) && k < |w.calls| && OverBefore(w.calls, k)
    ensures var v := Begun(w, k);
      && Inv(v) && |v.calls| == |w.calls| && v.calls[k].phase == (if w.calls[k].phase == Ended then Ended else Running)
      && v.calls == w.calls[k := w.calls[k].(phase := v.calls[k].phase)] && OverBefore(v.calls, k)
      && v.starts == w.starts + if w.calls[k].phase == Waiting then [k] else []
  {
    ReadyFirst(w, k);
    NextKeepsInv(w, Start(k));
    hide Inv;
  }

  lemma RestFacts(v: World, k: Ticket)
    requires Inv(v) && k < |v.calls| && OverBefore(v.calls, k) && v.calls[k].phase != Waiting
    ensures var u := Next(Next(Finished(v, k), Settle(k)), Collect(k));
      && Inv(u) && |u.calls| == |v.calls| && Over(u.calls[k]) && u.calls[k].id == v.calls[k].id
      && (forall i :: 0 <= i < |v.calls| && i != k ==> u.calls[i] == v.calls[i])
      && u.starts == v.starts
  {
    ReadyFirst(v, k);
    NextKeepsInv(v, Finish(k));
    NextKeepsInv(Finished(v, k), Settle(k));
    NextKeepsInv(Next(Finished(v, k), Settle(k)), Collect(k));
    hide Inv;
  }

  lemma FirstEnds(w: World, k: Ticket)
    requires Inv(w) && k < |w.calls| && OverBefore(w.calls, k)
    ensures var v := Exec(w, Steps(w.calls[k], k)); Inv(v) && OnlyEnds(w, v, k)
  {
    hide Inv, Next, Exec, Steps, Begun, Finished;
    BegunFacts(w, k);
    StepsRun(w, k);
    RestFacts(Begun(w, k), k);
  }

  lemma ReadyFirst(w: World, k: Ticket)
    requires Inv(w) && k < |w.calls| && OverBefore(w.calls, k)
    ensures Ready(w.calls, k)
  {
    assert ChainInv(w.calls, k);
  }

  /** The continuation in which the calls below `k` end one after the other. */
  function Ending(calls: seq<Call>, k: nat): seq<Action>
    requires k <= |calls|
  {
    if k == 0 then [] else Ending(calls, k - 1) + Steps(calls[k - 1], k - 1)
  }

  lemma {:induction false} EndingEnds(w: World, k: nat)
    requires Inv(w) && k <= |w.calls|
    ensures var v := Exec(w, Ending(w.calls, k));
      && Inv(v) && |v.calls| == |w.calls| && OverBefore(v.calls, k)
      && (forall i :: k <= i < |w.calls| ==> v.calls[i] == w.calls[i])
      && v.starts == w.starts + WaitingBelow(w.calls, k)
  {
    hide Inv, Next, Exec, Steps;
    if k == 0 {
      assert Exec(w, []) == w by { ExecEmpty(w); }
    } else {
      EndingEnds(w, k - 1);
      var v := Exec(w, Ending(w.calls, k - 1));
      FirstEnds(v, k - 1);
      ExecConcat(w, Ending(w.calls, k - 1), Steps(w.calls[k - 1], k - 1));
      var u := Exec(v, Steps(v.calls[k - 1], k - 1));
      assert OnlyEnds(v, u, k - 1);
      forall i | 0 <= i < k ensures Over(u.calls[i]) {
        if i < k - 1 { assert u.calls[i] == v.calls[i]; }
      }
    }
  }

  lemma ExecEmpty(w: World)
    ensures Exec(w, []) == w
  {
  }

  /** No call is ever stuck: from wherever the run has got to, every operation that waits can
      still run, in arrival order and without anybody giving up, and at the end no tail is
      left. */
  lemma EverythingCanRun(actions: seq<Action>)
    ensures var w := Exec(INITIAL, actions);
      var v := Exec(INITIAL, actions + Ending(w.calls, |w.calls|));
      && |v.calls| == |w.calls| && OverBefore(v.calls, |v.calls|)
      && v.starts == w.starts + WaitingBelow(w.calls, |w.calls|) && v.tails == map[]
  {
    hide Exec, Next, Ending, Inv;
    RunKeepsInv(actions);
    var w := Exec(INITIAL, actions);
    EndingEnds(w, |w.calls|);
    ExecConcat(INITIAL, actions, Ending(w.calls, |w.calls|));
    var v := Exec(INITIAL, actions + Ending(w.calls, |w.calls|));
    assert v.tails == map[] by { OverMapIsEmpty(v); }
  }

  lemma OverMapIsEmpty(v: World)
    requires Inv(v) && OverBefore(v.calls, |v.calls|)
    ensures v.tails == map[]
  {
    forall id ensures id !in v.tails { assert TailInv(v, id); }
  }

  /** An arrival adds a waiting call and nothing else; giving up ends a call that waits
      without starting it; either way the other calls stay as they are. */
  lemma ArrivalAndAbort(actions: seq<Action>, id: string, k: Ticket)
    ensures var w := Exec(INITIAL, actions);
      var v := Exec(INITIAL, actions + [Arrive(id)]);
      |v.calls| == |w.calls| + 1 && v.calls[..|w.calls|] == w.calls && v.calls[|w.calls|].id == id
      && v.calls[|w.calls|].phase == Waiting && v.starts == w.starts
    ensures var w := Exec(INITIAL, actions);
      var v := Exec(INITIAL, actions + [Abort(k)]);
      && v.starts == w.starts && |v.calls| == |w.calls|
      && (k < |w.calls| && w.calls[k].phase == Waiting ==> v.calls[k].phase == Ended)
      && (forall i :: 0 <= i < |w.calls| && (i != k || w.calls[i].phase != Waiting) ==> v.calls[i] == w.calls[i])
  {
    hide Exec;
    ExecMore(INITIAL, actions, Arrive(id));
    ExecMore(INITIAL, actions, Abort(k));
  }
}
