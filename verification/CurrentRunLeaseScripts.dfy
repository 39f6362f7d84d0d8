/** Stretches of the lease protocol that run undisturbed, and where they lead. */
module CurrentRunLeaseScripts {
  import opened Basics
  import opened CurrentRunLease
  import opened CurrentRunLeaseLaws

  function Does(p: Process, steps: seq<Step>): seq<Action> {
    seq(|steps|, i requires 0 <= i < |steps| => Action(p, steps[i]))
  }

  lemma {:induction false} ExecConcat(w: World, a: seq<Action>, b: seq<Action>)
    ensures Exec(w, a + b) == Exec(Exec(w, a), b)
    decreases |b|
  {
    hide Next;
    if b == [] {
      assert a + b == a;
    } else {
      ExecConcat(w, a, b[..|b| - 1]);
      assert (a + b)[..|a + b| - 1] == a + b[..|b| - 1];
    }
  }

  lemma ExecNext(w: World, actions: seq<Action>, k: nat)
    requires k < |actions|
    ensures Exec(w, actions[..k + 1]) == Next(Exec(w, actions[..k]), actions[k])
    ensures k == 0 ==> Exec(w, actions[..k]) == w
    ensures k + 1 == |actions| ==> actions[..k + 1] == actions
  {
    assert actions[..k + 1][..k] == actions[..k];
  }

  lemma GotoTwice(w: World, p: Process, a: Phase, b: Phase)
    ensures Goto(Goto(w, p, a), p, b) == Goto(w, p, b)
  {
  }

  // ---------- single steps ----------

  lemma Reserves(w: World, p: Process)
    requires p !in w.procs
    ensures Next(w, Action(p, Reserve)) == Goto(w, p, Reserved)
  {
  }

  lemma Lists(w: World, p: Process)
    requires p in w.procs && w.procs[p] == Reserved
    ensures Next(w, Action(p, List)) == Goto(w, p, Listed(w.lease.None? && !w.residue))
  {
  }

  lemma Inspects(w: World, p: Process)
    requires p in w.procs && w.procs[p].Listed? && (w.lease.Some? ==> w.lease.value in w.written)
    ensures Next(w, Action(p, Inspect)) ==
      if w.lease.Some? then Goto(w, p, Inspected(w.lease.value))
      else if w.procs[p].empty then Goto(w, p, Missing) else Leave(w, p)
  {
  }

  lemma Creates(w: World, p: Process)
    requires p in w.procs && w.procs[p] == Missing && w.lease.None?
    ensures Next(w, Action(p, Create)) == Goto(w.(lease := Some(w.next), next := w.next + 1), p, Creating(w.next))
  {
  }

  lemma Writes(w: World, p: Process, i: Inode)
    requires p in w.procs && w.procs[p] == Creating(i)
    ensures Next(w, Action(p, Write)) == Goto(w.(written := w.written + {i}), p, Created(i))
  {
  }

  lemma Finishes(w: World, p: Process, i: Inode)
    requires p in w.procs && w.procs[p] == Created(i) && Linked(w, i)
    ensures Next(w, Action(p, Finish)) == Goto(w, p, Inspected(i))
    ensures Next(w, Action(p, FailCreation)) == Goto(w, p, Revoking(i))
  {
  }

  lemma OpensFile(w: World, p: Process, i: Inode)
    requires p in w.procs && w.procs[p] == Inspected(i) && Linked(w, i)
    ensures Next(w, Action(p, Open)) == Goto(w, p, Anchored(i))
  {
  }

  lemma Locks(w: World, p: Process, i: Inode)
    requires p in w.procs && w.procs[p] == Anchored(i) && i !in w.locks
    ensures Next(w, Action(p, Lock)) == Goto(w.(locks := w.locks[i := p]), p, Locked(i))
  {
  }

  lemma ChecksAnchor(w: World, p: Process, i: Inode)
    requires p in w.procs && w.procs[p] == Locked(i) && Linked(w, i)
    ensures Next(w, Action(p, CheckAnchor)) == Goto(w, p, AnchorChecked(i))
  {
  }

  lemma ChecksPath(w: World, p: Process, i: Inode)
    requires p in w.procs && w.procs[p] == AnchorChecked(i) && Linked(w, i)
    ensures Next(w, Action(p, CheckPath)) == Goto(w, p, Acquired(i))
  {
  }

  // ---------- opening ----------

  const FIND: seq<Step> := [Reserve, List, Inspect]
  const CREATE: seq<Step> := [Reserve, List, Inspect, Create, Write]
  const ACQUIRE: seq<Step> := [Open, Lock, CheckAnchor, CheckPath]

  lemma Finds(w: World, p: Process)
    requires p !in w.procs && w.lease.Some? && w.lease.value in w.written
    ensures Exec(w, Does(p, FIND)) == Goto(w, p, Inspected(w.lease.value))
  {
    hide Exec, Next;
    var a := Does(p, FIND);
    ExecNext(w, a, 0);
    ExecNext(w, a, 1);
    ExecNext(w, a, 2);
    Reserves(w, p);
    var w1 := Goto(w, p, Reserved);
    Lists(w1, p);
    GotoTwice(w, p, Reserved, Listed(false));
    Inspects(Goto(w, p, Listed(false)), p);
    GotoTwice(w, p, Listed(false), Inspected(w.lease.value));
  }

  /** A root that holds something but has no lease is refused. */
  lemma OrphanedRefuses(w: World, p: Process)
    requires Inv(w) && Orphaned(w) && p !in w.procs
    ensures Exec(w, Does(p, FIND)) == w
  {
    hide Exec, Next, Inv, Leave;
    var a := Does(p, FIND);
    ExecNext(w, a, 0);
    ExecNext(w, a, 1);
    ExecNext(w, a, 2);
    Reserves(w, p);
    Lists(Goto(w, p, Reserved), p);
    GotoTwice(w, p, Reserved, Listed(false));
    Inspects(Goto(w, p, Listed(false)), p);
    LeavesAsItCame(w, p, Listed(false));
  }

  lemma LeavesAsItCame(w: World, p: Process, phase: Phase)
    requires Inv(w) && p !in w.procs
    ensures Leave(Goto(w, p, phase), p) == w
  {
    hide Inv;
    NoLocks(w, p);
  }

  function WithLease(w: World, p: Process): World {
    Goto(w.(lease := Some(w.next), next := w.next + 1, written := w.written + {w.next}), p, Created(w.next))
  }

  lemma MakesLease(w: World, p: Process)
    requires p !in w.procs && w.lease.None? && !w.residue
    ensures Exec(w, Does(p, CREATE)) == WithLease(w, p)
  {
    hide Exec, Next;
    var a := Does(p, CREATE);
    ExecNext(w, a, 0);
    ExecNext(w, a, 1);
    ExecNext(w, a, 2);
    Reserves(w, p);
    Lists(Goto(w, p, Reserved), p);
    GotoTwice(w, p, Reserved, Listed(true));
    Inspects(Goto(w, p, Listed(true)), p);
    GotoTwice(w, p, Listed(true), Missing);
    LeaseMade(w, p, a);
  }

  lemma LeaseMade(w: World, p: Process, a: seq<Action>)
    requires a == Does(p, CREATE) && w.lease.None? && Exec(w, a[..3]) == Goto(w, p, Missing)
    ensures Exec(w, a) == WithLease(w, p)
  {
    hide Exec, Next;
    ExecNext(w, a, 3);
    ExecNext(w, a, 4);
    var w3 := Goto(w, p, Missing);
    Creates(w3, p);
    var w4 := Next(w3, Action(p, Create));
    Writes(w4, p, w.next);
    assert Next(w4, Action(p, Write)) == WithLease(w, p);
  }

  function Locking(w: World, p: Process, i: Inode): World {
    Goto(w.(locks := w.locks[i := p]), p, Acquired(i))
  }

  lemma Acquires(w: World, p: Process, i: Inode)
    requires p in w.procs && w.procs[p] == Inspected(i) && Linked(w, i) && i !in w.locks
    ensures Exec(w, Does(p, ACQUIRE)) == Locking(w, p, i)
  {
    hide Exec, Next;
    var a := Does(p, ACQUIRE);
    ExecNext(w, a, 0);
    ExecNext(w, a, 1);
    OpensFile(w, p, i);
    Locks(Goto(w, p, Anchored(i)), p, i);
    var w2 := Goto(w.(locks := w.locks[i := p]), p, Locked(i));
    assert Exec(w, a[..2]) == w2;
    LeaseChecked(w, w2, p, i, a);
  }

  lemma LeaseChecked(w: World, w2: World, p: Process, i: Inode, a: seq<Action>)
    requires a == Does(p, ACQUIRE) && Exec(w, a[..2]) == w2 && Linked(w, i)
    requires w2 == Goto(w.(locks := w.locks[i := p]), p, Locked(i))
    ensures Exec(w, a) == Locking(w, p, i)
  {
    hide Exec, Next;
    ExecNext(w, a, 2);
    ExecNext(w, a, 3);
    ChecksAnchor(w2, p, i);
    GotoTwice(w2, p, AnchorChecked(i), Acquired(i));
    ChecksPath(Goto(w2, p, AnchorChecked(i)), p, i);
    GotoTwice(w.(locks := w.locks[i := p]), p, Locked(i), Acquired(i));
  }

  /** Opening a root whose lease nobody has locked. */
  lemma Opens(w: World, p: Process, i: Inode)
    requires p !in w.procs && w.lease == Some(i) && i in w.written && i !in w.locks
    ensures Exec(w, Does(p, FIND) + Does(p, ACQUIRE)) == Locking(w, p, i)
  {
    hide Exec, Next;
    Finds(w, p);
    ExecConcat(w, Does(p, FIND), Does(p, ACQUIRE));
    Acquires(Goto(w, p, Inspected(i)), p, i);
    assert Locking(Goto(w, p, Inspected(i)), p, i) == Locking(w, p, i);
  }

  /** Opening an empty root without a lease. */
  function TakeOver(p: Process): seq<Action> {
    Does(p, CREATE) + Does(p, [Finish]) + Does(p, ACQUIRE)
  }

  function TakenOver(w: World, p: Process): World {
    Locking(w.(lease := Some(w.next), next := w.next + 1, written := w.written + {w.next}), p, w.next)
  }

  lemma TakesOver(w: World, p: Process)
    requires p !in w.procs && w.lease.None? && !w.residue && w.next !in w.locks
    ensures Exec(w, TakeOver(p)) == TakenOver(w, p)
  {
    hide Exec, Next;
    var i := w.next;
    MakesLease(w, p);
    var w1 := WithLease(w, p);
    ExecConcat(w, Does(p, CREATE), Does(p, [Finish]));
    ExecConcat(w, Does(p, CREATE) + Does(p, [Finish]), Does(p, ACQUIRE));
    ExecNext(w1, Does(p, [Finish]), 0);
    Finishes(w1, p, i);
    var w2 := Goto(w1, p, Inspected(i));
    Acquires(w2, p, i);
    assert Locking(w2, p, i) == TakenOver(w, p);
  }

  // ---------- a run ----------

  const CHECK_RUN: seq<Step> := [Clear, Recovered, StartRun(0), CheckRun(0)]

  function Ready(i: Inode): Phase {
    Holding(i, false, Workspace({}, false), {}, {}, NotRemoving)
  }

  function RunChecked(i: Inode): Phase {
    Holding(i, false, Workspace({0}, false), {0}, {}, NotRemoving)
  }

  lemma StartsRun(w: World, p: Process, i: Inode)
    requires p in w.procs && w.procs[p] == Acquired(i) && Linked(w, i)
    ensures Exec(w, Does(p, CHECK_RUN)) == Goto(w.(residue := false), p, RunChecked(i))
  {
    hide Exec;
    var a := Does(p, CHECK_RUN);
    ExecNext(w, a, 0);
    ExecNext(w, a, 1);
    var w2 := Goto(w.(residue := false), p, Ready(i));
    assert Exec(w, a[..2]) == w2;
    ChecksRun(w, w2, p, i, a);
  }

  lemma ChecksRun(w: World, w2: World, p: Process, i: Inode, a: seq<Action>)
    requires a == Does(p, CHECK_RUN) && Exec(w, a[..2]) == w2 && Linked(w, i)
    requires w2 == Goto(w.(residue := false), p, Ready(i))
    ensures Exec(w, a) == Goto(w.(residue := false), p, RunChecked(i))
  {
    hide Exec;
    ExecNext(w, a, 2);
    ExecNext(w, a, 3);
    var w3 := Goto(w2, p, Holding(i, false, Workspace({0}, false), {}, {}, NotRemoving));
    assert Next(w2, Action(p, StartRun(0))) == w3 by { assert {} + {0} == {0}; }
    assert Next(w3, Action(p, CheckRun(0))) == Goto(w3, p, RunChecked(i)) by { assert {} + {0} == {0}; }
    GotoTwice(w2, p, w3.procs[p], RunChecked(i));
    GotoTwice(w.(residue := false), p, w2.procs[p], RunChecked(i));
  }

  lemma MakesRun(w: World, p: Process, i: Inode)
    requires p in w.procs && w.procs[p] == RunChecked(i)
    ensures var t := Exec(w, Does(p, [MakeRun(0)]));
      t == Goto(w.(residue := true), p, Holding(i, false, Workspace({0}, false), {}, {0}, NotRemoving))
  {
    hide Exec;
    ExecNext(w, Does(p, [MakeRun(0)]), 0);
    assert {0} - {0} == {} && {} + {0} == {0};
  }
}
