/** What the current-run lease promises in every run of any number of processes, and the exact
    condition: nobody loses the path while holding, unless a creation fails beside a holder. */
module CurrentRunLeasePromises {
  import opened Basics
  import opened CurrentRunLease
  import opened CurrentRunLeaseLaws
  import opened CurrentRunLeaseScripts

  // ---------- when a holder loses the path ----------

  ghost predicate TearsAt(w: World, actions: seq<Action>, n: nat)
    requires n < |actions|
  {
    Tears(Exec(w, actions[..n]), actions[n])
  }

  /** Some creation of the run fails and unlinks the lease that another process holds. */
  ghost predicate TearsAlong(w: World, actions: seq<Action>) {
    exists n :: 0 <= n < |actions| && TearsAt(w, actions, n)
  }

  ghost predicate TornAt(w: World, actions: seq<Action>, n: nat)
    requires n <= |actions|
  {
    Torn(Exec(w, actions[..n]))
  }

  ghost predicate TornAlong(w: World, actions: seq<Action>) {
    exists n :: 0 <= n <= |actions| && TornAt(w, actions, n)
  }

  lemma {:induction false} NotTorn(w: World, actions: seq<Action>, n: nat)
    requires Inv(w) && !Torn(w) && !TearsAlong(w, actions) && n <= |actions|
    ensures !TornAt(w, actions, n)
    decreases n
  {
    hide Inv, Torn, Tears, Exec;
    if n == 0 {
      assert actions[..0] == [];
      ExecNothing(w);
    } else {
      NotTorn(w, actions, n - 1);
      ExecKeepsInv(w, actions[..n - 1]);
      ExecNext(w, actions, n - 1);
      assert !TearsAt(w, actions, n - 1);
      TornBy(Exec(w, actions[..n - 1]), actions[n - 1]);
    }
  }

  lemma ExecNothing(w: World)
    ensures Exec(w, []) == w
  {
  }

  lemma NothingTorn()
    ensures Inv(INITIAL) && !Torn(INITIAL)
  {
  }

  lemma LossExactly(w: World, actions: seq<Action>)
    requires Inv(w) && !Torn(w)
    ensures TornAlong(w, actions) <==> TearsAlong(w, actions)
  {
    hide Inv, Torn, Tears, Exec;
    if TearsAlong(w, actions) {
      var n :| 0 <= n < |actions| && TearsAt(w, actions, n);
      ExecNext(w, actions, n);
      TearingTears(Exec(w, actions[..n]), actions[n]);
      assert TornAt(w, actions, n + 1);
    } else {
      forall n | 0 <= n <= |actions| ensures !TornAt(w, actions, n) { NotTorn(w, actions, n); }
    }
  }

  /** In a run some process goes on holding a lease whose path it has lost exactly if, in the
      run, a creation fails and unlinks the lease that another process holds. */
  lemma HolderLosesPathExactly(actions: seq<Action>)
    ensures TornAlong(INITIAL, actions) <==> TearsAlong(INITIAL, actions)
  {
    NothingTorn();
    LossExactly(INITIAL, actions);
  }

  lemma RunNotTorn(actions: seq<Action>)
    requires !TearsAlong(INITIAL, actions)
    ensures Inv(Exec(INITIAL, actions)) && !Torn(Exec(INITIAL, actions))
  {
    hide Inv, Torn, Tears, Exec;
    NothingTorn();
    RunKeepsInv(actions);
    NotTorn(INITIAL, actions, |actions|);
    assert actions[..|actions|] == actions;
  }

  // ---------- what holds in every run ----------

  /** Holders have different inodes: of any two at most one holds the lease at the path. */
  lemma OneHolderAtThePath(actions: seq<Action>, p: Process, q: Process)
    requires var w := Exec(INITIAL, actions); IsHolder(w, p) && IsHolder(w, q) && p != q
    ensures var w := Exec(INITIAL, actions);
      && w.procs[p].ino != w.procs[q].ino
      && !(Linked(w, w.procs[p].ino) && Linked(w, w.procs[q].ino))
  {
    hide Inv, Exec;
    RunKeepsInv(actions);
    OneAtThePath(Exec(INITIAL, actions), p, q);
  }

  /** The path is taken away only by the closing holder without runs, or by a creation that failed;
      and in a run that tears no lease the holder takes its own, from a root that is empty. */
  lemma PathIsTakenBy(actions: seq<Action>, a: Action)
    requires var w := Exec(INITIAL, actions); w.lease.Some? && Next(w, a).lease != w.lease
    ensures var w := Exec(INITIAL, actions);
      || Revokes(w, a)
      || (&& IsHolder(w, a.process)
          && w.procs[a.process].workspace.closing && w.procs[a.process].workspace.activeRuns == {}
          && (!TearsAlong(INITIAL, actions) ==> Linked(w, w.procs[a.process].ino) && !w.residue))
  {
    hide Exec, Next, TearsAlong;
    var w, p := Exec(INITIAL, actions), a.process;
    PathTaken(w, a);
    RunKeepsInv(actions);
    if IsHolder(w, p) {
      assert ProcessInv(w, p, w.procs[p]);
      if !TearsAlong(INITIAL, actions) {
        RunNotTorn(actions);
        RunGuarded(actions);
        assert Guarded(w, p);
      }
    }
  }

  predicate Stale(w: World, ino: Inode) {
    ino < w.next && !Linked(w, ino)
  }

  /** The runs a holder may go on with: those the lease was validated for. */
  function Validated(h: Phase): set<nat>
    requires h.Holding?
  {
    h.checked + h.made
  }

  lemma StaleStays(w: World, a: Action, ino: Inode)
    requires Stale(w, ino)
    ensures Stale(Next(w, a), ino)
  {
    hide Next;
    LeaseMoves(w, a);
  }

  lemma StaleRuns(w: World, p: Process, step: Step)
    requires IsHolder(w, p) && !Linked(w, w.procs[p].ino)
    ensures Validated(Running(w, p, w.procs[p], step).procs[p]) <= Validated(w.procs[p])
  {
  }

  lemma StaleGains(w: World, a: Action, p: Process)
    requires IsHolder(Next(w, a), p) && Stale(w, Next(w, a).procs[p].ino)
    ensures IsHolder(w, p) && w.procs[p].ino == Next(w, a).procs[p].ino
    ensures Validated(Next(w, a).procs[p]) <= Validated(w.procs[p])
  {
    if p == a.process {
      OwnHolder(w, a);
      StaleOwn(w, a);
    } else {
      OthersStay(w, a, p);
    }
  }

  lemma StaleOwn(w: World, a: Action)
    requires IsHolder(w, a.process) && IsHolder(Next(w, a), a.process) && !Linked(w, w.procs[a.process].ino)
    ensures Validated(Next(w, a).procs[a.process]) <= Validated(w.procs[a.process])
  {
    hide Running;
    RunningTouches(w, a.process, a.step);
    StaleRuns(w, a.process, a.step);
  }

  /** The process has a lease file in hand. */
  predicate Named(phase: Phase) {
    !phase.Reserved? && !phase.Listed? && !phase.Missing?
  }

  /** How many of the checks of its lease a process has passed, from the making of the file to the
      removal. Locking checks nothing; a creation that fails takes away what it checked. */
  function ChecksPassed(phase: Phase): nat {
    match phase
    case Reserved => 0
    case Listed(_) => 0
    case Missing => 0
    case Creating(_) => 0
    case Created(_) => 0
    case Revoking(_) => 1
    case Inspected(_) => 1
    case Anchored(_) => 2
    case Locked(_) => 2
    case AnchorChecked(_) => 3
    case Holding(_, recovering, _, _, _, removal) => if removal == PathChecked then 6 else if recovering then 4 else 5
    case Unlinked(_) => 6
  }

  /** The process had the same lease in hand before, and has passed no further check since. */
  predicate NoFurther(v: World, w: World, p: Process) {
    p in w.procs && Named(w.procs[p]) ==>
      && p in v.procs && Named(v.procs[p]) && v.procs[p].ino == w.procs[p].ino
      && ChecksPassed(w.procs[p]) <= ChecksPassed(v.procs[p])
  }

  lemma StaleCreation(w: World, p: Process, step: Step)
    requires p in w.procs && !w.procs[p].Holding?
    ensures var t := Creation(w, p, w.procs[p], step);
      p in t.procs && Named(t.procs[p]) && Stale(w, t.procs[p].ino) ==> NoFurther(w, t, p)
  {
  }

  lemma StaleOpening(w: World, p: Process, step: Step)
    requires p in w.procs && !w.procs[p].Holding?
    ensures var t := Opening(w, p, w.procs[p], step);
      p in t.procs && Named(t.procs[p]) && Stale(w, t.procs[p].ino) ==> NoFurther(w, t, p)
  {
    hide Creation;
    StaleCreation(w, p, step);
  }

  lemma StaleUsing(w: World, p: Process, step: Step)
    requires IsHolder(w, p)
    ensures var t := Using(w, p, w.procs[p], step);
      p in t.procs && Named(t.procs[p]) && Stale(w, t.procs[p].ino) ==> NoFurther(w, t, p)
  {
    hide Running;
    RunningTouches(w, p, step);
    StaleRunning(w, p, step);
  }

  lemma StaleRunning(w: World, p: Process, step: Step)
    requires IsHolder(w, p)
    ensures Running(w, p, w.procs[p], step).procs[p].recovering == w.procs[p].recovering
  {
  }

  lemma StalePasses(w: World, a: Action, p: Process)
    requires p in Next(w, a).procs && Named(Next(w, a).procs[p]) && Stale(w, Next(w, a).procs[p].ino)
    ensures NoFurther(w, Next(w, a), p)
  {
    hide Opening, Using;
    if p != a.process {
      OthersStay(w, a, p);
    } else if IsHolder(w, p) {
      StaleUsing(w, p, a.step);
    } else if p in w.procs {
      StaleOpening(w, p, a.step);
    }
  }

  /** An inode that has lost the path never regains it. Nobody comes to hold the lease through
      it: whoever has it in hand, opening, recovering or closing, passes none of the checks still
      ahead, and of a holder no run is let in. */
  lemma {:induction false} StaleGetsNothing(before: seq<Action>, after: seq<Action>, ino: Inode, p: Process)
    requires Stale(Exec(INITIAL, before), ino)
    ensures var v, w := Exec(INITIAL, before), Exec(Exec(INITIAL, before), after);
      && Stale(w, ino)
      && (p in w.procs && Named(w.procs[p]) && w.procs[p].ino == ino ==> NoFurther(v, w, p))
      && (IsHolder(w, p) && w.procs[p].ino == ino ==>
          IsHolder(v, p) && v.procs[p].ino == ino && Validated(w.procs[p]) <= Validated(v.procs[p]))
  {
    hide Next;
    if after != [] {
      var prefix, last := after[..|after| - 1], after[|after| - 1];
      var u := Exec(Exec(INITIAL, before), prefix);
      var w := Next(u, last);
      StaleGetsNothing(before, prefix, ino, p);
      StaleStays(u, last, ino);
      if p in w.procs && Named(w.procs[p]) && w.procs[p].ino == ino { StalePasses(u, last, p); }
      if IsHolder(w, p) && w.procs[p].ino == ino { StaleGains(u, last, p); }
    }
  }

  // ---------- exclusion ----------

  ghost predicate Doubled(w: World) {
    exists p, q :: p != q && IsHolder(w, p) && IsHolder(w, q)
  }

  predicate RecoversBeside(w: World, p: Process, q: Process) {
    p != q && IsHolder(w, p) && w.procs[p].recovering && IsHolder(w, q) && w.procs[q].made != {}
  }

  /** A process recovers the root while another has a live run in it. */
  ghost predicate RecoveryMeetsRun(w: World) {
    exists p, q :: RecoversBeside(w, p, q)
  }

  lemma DoubledIsTorn(w: World)
    requires Inv(w) && Doubled(w)
    ensures Torn(w)
  {
    hide Inv;
    var p, q :| p != q && IsHolder(w, p) && IsHolder(w, q);
    OneAtThePath(w, p, q);
  }

  /** In a run in which no creation fails beside a holder, no two processes are ever both past
      validated acquisition and before release. */
  lemma MutualExclusion(actions: seq<Action>, p: Process, q: Process)
    ensures var w := Exec(INITIAL, actions);
      !TearsAlong(INITIAL, actions) && IsHolder(w, p) && IsHolder(w, q) ==> p == q
  {
    hide Inv, Exec, TearsAlong;
    if !TearsAlong(INITIAL, actions) {
      RunNotTorn(actions);
      var w := Exec(INITIAL, actions);
      if IsHolder(w, p) && IsHolder(w, q) { OnlyHolder(w, p, q); }
    }
  }

  /** In such a run no process has an active run while one recovers the root. */
  lemma RecoveryExcludesRuns(actions: seq<Action>, p: Process, q: Process)
    ensures var w := Exec(INITIAL, actions);
      !TearsAlong(INITIAL, actions) && IsHolder(w, p) && w.procs[p].recovering && IsHolder(w, q)
      ==> w.procs[q].workspace.activeRuns == {}
  {
    hide Exec, TearsAlong;
    var w := Exec(INITIAL, actions);
    MutualExclusion(actions, p, q);
    RunKeepsInv(actions);
    if IsHolder(w, p) { assert ProcessInv(w, p, w.procs[p]); }
  }

  // ---------- the condition is exact ----------

  ghost predicate CanTear(w: World) {
    exists more :: TearsAlong(w, more)
  }

  ghost predicate CanDouble(w: World) {
    exists more :: Doubled(Exec(w, more))
  }

  ghost predicate CanMeetRun(w: World) {
    exists more :: RecoveryMeetsRun(Exec(w, more))
  }

  lemma DoubledNeedsTearing(w: World, more: seq<Action>)
    requires Inv(w) && !Torn(w) && Doubled(Exec(w, more))
    ensures TearsAlong(w, more)
  {
    hide Inv, Exec, Torn, Doubled, TearsAlong;
    ExecKeepsInv(w, more);
    DoubledIsTorn(Exec(w, more));
    assert more[..|more|] == more;
    assert TornAt(w, more, |more|);
    LossExactly(w, more);
  }

  lemma MeetingDoubles(w: World)
    requires RecoveryMeetsRun(w)
    ensures Doubled(w)
  {
    var p, q :| RecoversBeside(w, p, q);
    assert p != q && IsHolder(w, p) && IsHolder(w, q);
  }

  lemma {:induction false} Above(s: set<nat>) returns (m: nat)
    ensures forall x :: x in s ==> x < m
  {
    if s == {} {
      m := 0;
    } else {
      var x :| x in s;
      var n := Above(s - {x});
      m := if x < n then n else x + 1;
      assert forall y :: y in s ==> y == x || y in s - {x};
    }
  }

  /** The holder stops, a newcomer opens the root and checks a run, the creation fails, another
      newcomer creates the lease anew, and the run is made. */
  function Collision(p: Process, q: Process, s: Process, r: Process): seq<Action> {
    [Action(q, Stop)] + (Does(s, FIND) + Does(s, ACQUIRE)) + Does(s, CHECK_RUN) + [Action(p, Revoke)]
    + TakeOver(r) + Does(s, [MakeRun(0)])
  }

  lemma HolderStops(w: World, p: Process, q: Process, i: Inode)
    requires Inv(w) && p in w.procs && w.procs[p].Revoking? && IsHolder(w, q) && w.procs[q].ino == i
    ensures var t := Exec(w, [Action(q, Stop)]);
      && t == Leave(w, q) && Inv(t) && i !in t.locks && p in t.procs && t.procs[p] == w.procs[p] && i in t.written
  {
    assert ProcessInv(w, q, w.procs[q]);
    LeaveKeepsInv(w, q);
    ExecOne(w, Action(q, Stop));
  }

  lemma ExecOne(w: World, a: Action)
    ensures Exec(w, [a]) == Next(w, a)
  {
    assert [a][..0] == [];
  }

  lemma CreationFails(w: World, p: Process)
    requires p in w.procs && w.procs[p].Revoking?
    ensures Exec(w, [Action(p, Revoke)]) == Leave(w.(lease := None), p)
  {
    ExecOne(w, Action(p, Revoke));
  }

  /** Up to the point where the newcomer has checked its run and the creation fails. */
  lemma UpToRevoke(w: World, p: Process, s: Process, i: Inode)
    requires Inv(w) && w.lease == Some(i) && i in w.written && i !in w.locks
    requires p in w.procs && w.procs[p].Revoking? && s !in w.procs
    ensures var t := Exec(w, (Does(s, FIND) + Does(s, ACQUIRE)) + Does(s, CHECK_RUN) + [Action(p, Revoke)]);
      && Inv(t) && t.lease.None? && !t.residue && s in t.procs && t.procs[s] == RunChecked(i)
      && (forall r :: r !in w.procs && r != s ==> r !in t.procs)
  {
    hide Inv, Exec, Next;
    var open := Does(s, FIND) + Does(s, ACQUIRE);
    Opens(w, s, i);
    var w1 := Locking(w, s, i);
    StartsRun(w1, s, i);
    var w2 := Goto(w1.(residue := false), s, RunChecked(i));
    ExecConcat(w, open, Does(s, CHECK_RUN));
    ExecConcat(w, open + Does(s, CHECK_RUN), [Action(p, Revoke)]);
    CreationFails(w2, p);
    assert w2.procs == w.procs[s := RunChecked(i)];
    ExecKeepsInv(w, open + Does(s, CHECK_RUN) + [Action(p, Revoke)]);
  }

  lemma RunMeetsRecovery(w: World, s: Process, r: Process, i: Inode)
    requires Inv(w) && w.lease.None? && !w.residue && s in w.procs && w.procs[s] == RunChecked(i) && r !in w.procs
    ensures var t := Exec(w, TakeOver(r) + Does(s, [MakeRun(0)])); RecoversBeside(t, r, s)
  {
    hide Exec, Next;
    LocksAreOld(w);
    TakesOver(w, r);
    ExecConcat(w, TakeOver(r), Does(s, [MakeRun(0)]));
    MakesRun(TakenOver(w, r), s, i);
  }

  lemma CollisionHappens(w: World, p: Process, q: Process, s: Process, r: Process)
    requires Inv(w) && p in w.procs && w.procs[p].Revoking? && IsHolder(w, q) && Linked(w, w.procs[q].ino)
    requires s !in w.procs && r !in w.procs && s != r
    ensures RecoversBeside(Exec(w, Collision(p, q, s, r)), r, s)
  {
    hide Inv, Exec, Next, Does;
    var i := w.procs[q].ino;
    var a, b, c := [Action(q, Stop)], (Does(s, FIND) + Does(s, ACQUIRE)) + Does(s, CHECK_RUN) + [Action(p, Revoke)],
      TakeOver(r) + Does(s, [MakeRun(0)]);
    HolderStops(w, p, q, i);
    var w1 := Exec(w, a);
    UpToRevoke(w1, p, s, i);
    RunMeetsRecovery(Exec(w1, b), s, r, i);
    ExecConcat(w, a, b);
    ExecConcat(w, a + b, c);
    assert a + b + c == Collision(p, q, s, r);
  }

  /** From wherever a creation may fail beside a holder, a recovery can be made to meet a run. */
  lemma TearingMeetsRun(w: World, a: Action) returns (more: seq<Action>)
    requires Inv(w) && Tears(w, a)
    ensures RecoveryMeetsRun(Exec(w, more))
  {
    hide Inv, Exec;
    var q :| IsHolder(w, q) && Linked(w, w.procs[q].ino);
    var m := Above(w.procs.Keys);
    more := Collision(a.process, q, m, m + 1);
    CollisionHappens(w, a.process, q, m, m + 1);
  }

  /** From any world of any run in which every holder is at the path: two processes can come to
      hold, and a recovery can come to meet a live run, exactly when a creation can come to fail
      while another process holds the lease it unlinks. */
  lemma ExclusionFailsExactly(actions: seq<Action>)
    requires !Torn(Exec(INITIAL, actions))
    ensures var w := Exec(INITIAL, actions);
      (CanDouble(w) <==> CanTear(w)) && (CanMeetRun(w) <==> CanTear(w))
  {
    hide Inv, Exec, Torn, Doubled, RecoveryMeetsRun, TearsAlong;
    var w := Exec(INITIAL, actions);
    RunKeepsInv(actions);
    if CanTear(w) {
      var more :| TearsAlong(w, more);
      var rest := MeetingAfter(w, more);
      MeetingDoubles(Exec(w, rest));
    }
    if CanMeetRun(w) {
      var more :| RecoveryMeetsRun(Exec(w, more));
      MeetingDoubles(Exec(w, more));
      assert CanDouble(w);
    }
    if CanDouble(w) {
      var more :| Doubled(Exec(w, more));
      DoubledNeedsTearing(w, more);
    }
  }

  lemma MeetingAfter(w: World, more: seq<Action>) returns (rest: seq<Action>)
    requires Inv(w) && TearsAlong(w, more)
    ensures RecoveryMeetsRun(Exec(w, rest))
  {
    hide Inv, Exec, Tears, RecoveryMeetsRun;
    var n :| 0 <= n < |more| && TearsAt(w, more, n);
    ExecKeepsInv(w, more[..n]);
    var last := TearingMeetsRun(Exec(w, more[..n]), more[n]);
    rest := more[..n] + last;
    ExecConcat(w, more[..n], last);
  }

  lemma LocksAreOld(w: World)
    requires Inv(w)
    ensures forall j :: j in w.locks ==> j < w.next
  {
    forall j | j in w.locks ensures j < w.next {
      assert LockInv(w, j);
      assert ProcessInv(w, w.locks[j], w.procs[w.locks[j]]);
    }
  }

  /** When a creation fails beside a holder and the root is empty, the next newcomer creates the
      lease anew and recovers the root while the old holder goes on, runs and all. */
  lemma NewcomerJoins(actions: seq<Action>, a: Action, q: Process, r: Process)
    requires var w := Exec(INITIAL, actions);
      Revokes(w, a) && IsHolder(w, q) && Linked(w, w.procs[q].ino) && !w.residue && r !in w.procs
    ensures var w, t := Exec(INITIAL, actions), Exec(INITIAL, actions + [a] + TakeOver(r));
      && IsHolder(t, q) && t.procs[q] == w.procs[q] && !Linked(t, w.procs[q].ino)
      && IsHolder(t, r) && Linked(t, t.procs[r].ino) && t.procs[r].recovering
  {
    hide Inv, Exec, Next, TakeOver;
    var w := Exec(INITIAL, actions);
    ExecConcat(INITIAL, actions, [a]);
    ExecConcat(INITIAL, actions + [a], TakeOver(r));
    ExecOne(w, a);
    RevokeEffect(w, a);
    var v := Leave(w.(lease := None), a.process);
    RunKeepsInv(actions);
    LeaveKeepsInv(w, a.process);
    LocksAreOld(v);
    TakesOver(v, r);
    HolderIsOld(w, q);
  }

  lemma HolderIsOld(w: World, q: Process)
    requires Inv(w) && IsHolder(w, q)
    ensures w.procs[q].ino < w.next
  {
    assert ProcessInv(w, q, w.procs[q]);
  }

  // ---------- a run that gets there ----------

  /** Process 0 creates the lease, process 1 opens the root and holds, then the creation fails. */
  const FAILING_CREATION: seq<Action> :=
    Does(0, CREATE) + (Does(1, FIND) + Does(1, ACQUIRE)) + Does(0, [FailCreation])

  lemma FailingCreationTears()
    ensures var w := Exec(INITIAL, FAILING_CREATION);
      Tears(w, Action(0, Revoke)) && IsHolder(w, 1) && Linked(w, w.procs[1].ino) && w.procs.Keys == {0, 1}
  {
    hide Exec, Next, Does;
    var open := Does(1, FIND) + Does(1, ACQUIRE);
    MakesLease(INITIAL, 0);
    var w1 := WithLease(INITIAL, 0);
    Opens(w1, 1, 0);
    var w2 := Locking(w1, 1, 0);
    ExecConcat(INITIAL, Does(0, CREATE), open);
    ExecConcat(INITIAL, Does(0, CREATE) + open, Does(0, [FailCreation]));
    OneStep(w2, 0, FailCreation);
    Finishes(w2, 0, 0);
    assert IsHolder(Goto(w2, 0, Revoking(0)), 1);
  }

  lemma OneStep(w: World, p: Process, step: Step)
    ensures Exec(w, Does(p, [step])) == Next(w, Action(p, step))
  {
    ExecNext(w, Does(p, [step]), 0);
  }

  /** It happens: from there process 2 opens the root in place of process 1 and checks a run,
      the creation fails, process 3 creates the lease anew and recovers, and process 2 makes
      its run. Both hold. */
  lemma RecoveryMeetsRunHappens()
    ensures var w := Exec(INITIAL, FAILING_CREATION + Collision(0, 1, 2, 3));
      RecoversBeside(w, 3, 2) && Doubled(w) && Torn(w)
  {
    hide Inv, Exec, Next, Collision;
    FailingCreationTears();
    RunKeepsInv(FAILING_CREATION);
    CollisionHappens(Exec(INITIAL, FAILING_CREATION), 0, 1, 2, 3);
    ExecConcat(INITIAL, FAILING_CREATION, Collision(0, 1, 2, 3));
    RunKeepsInv(FAILING_CREATION + Collision(0, 1, 2, 3));
    var w := Exec(INITIAL, FAILING_CREATION + Collision(0, 1, 2, 3));
    assert RecoversBeside(w, 3, 2);
    MeetingDoubles(w);
    DoubledIsTorn(w);
  }

  // ---------- a root without a lease ----------

  ghost predicate OrphanedAt(actions: seq<Action>, n: nat)
    requires n <= |actions|
  {
    Orphaned(Exec(INITIAL, actions[..n]))
  }

  ghost predicate OrphansAt(actions: seq<Action>, n: nat)
    requires n < |actions|
  {
    Orphans(Exec(INITIAL, actions[..n]), actions[n])
  }

  lemma {:induction false} RunGuarded(actions: seq<Action>)
    requires !TearsAlong(INITIAL, actions)
    ensures AllGuarded(Exec(INITIAL, actions))
  {
    hide Inv, Next, Torn, Tears;
    if actions != [] {
      var prefix := actions[..|actions| - 1];
      PrefixTears(actions, |actions| - 1);
      RunGuarded(prefix);
      RunNotTorn(prefix);
      GuardedStays(Exec(INITIAL, prefix), actions[|actions| - 1]);
    }
  }

  lemma PrefixTears(actions: seq<Action>, n: nat)
    requires n <= |actions|
    ensures TearsAlong(INITIAL, actions[..n]) ==> TearsAlong(INITIAL, actions)
  {
    hide Tears, Exec;
    if TearsAlong(INITIAL, actions[..n]) {
      var k :| 0 <= k < n && TearsAt(INITIAL, actions[..n], k);
      assert actions[..n][..k] == actions[..k];
      assert TearsAt(INITIAL, actions, k);
    }
  }

  lemma {:induction false} NotOrphaned(actions: seq<Action>, n: nat)
    requires !TearsAlong(INITIAL, actions) && n <= |actions|
    requires forall k :: 0 <= k < n ==> !OrphansAt(actions, k)
    ensures !OrphanedAt(actions, n)
    decreases n
  {
    hide Inv, Torn, Tears, Exec, AllGuarded;
    if n == 0 {
      assert actions[..0] == [];
      ExecNothing(INITIAL);
    } else {
      NotOrphaned(actions, n - 1);
      PrefixTears(actions, n - 1);
      RunNotTorn(actions[..n - 1]);
      RunGuarded(actions[..n - 1]);
      ExecNext(INITIAL, actions, n - 1);
      assert !OrphansAt(actions, n - 1);
      OrphanedBy(Exec(INITIAL, actions[..n - 1]), actions[n - 1]);
    }
  }

  /** In a run that tears no lease, a root is left without a lease but not empty exactly if a
      creation fails and unlinks the lease of a root that is not empty. */
  lemma OrphanedExactly(actions: seq<Action>)
    requires !TearsAlong(INITIAL, actions)
    ensures (exists n :: 0 <= n <= |actions| && OrphanedAt(actions, n))
      <==> (exists n :: 0 <= n < |actions| && OrphansAt(actions, n))
  {
    hide Inv, Torn, Tears, Exec, TearsAlong;
    if exists n :: 0 <= n < |actions| && OrphansAt(actions, n) {
      var n :| 0 <= n < |actions| && OrphansAt(actions, n);
      ExecNext(INITIAL, actions, n);
      RevokeEffect(Exec(INITIAL, actions[..n]), actions[n]);
      assert OrphanedAt(actions, n + 1);
    } else {
      forall n | 0 <= n <= |actions| ensures !OrphanedAt(actions, n) { NotOrphaned(actions, n); }
    }
  }

  /** Such a root refuses every newcomer: an opening leaves everything as it was. */
  lemma OrphanedRootIsRefused(actions: seq<Action>, p: Process)
    requires var w := Exec(INITIAL, actions); Orphaned(w) && p !in w.procs
    ensures Exec(INITIAL, actions + Does(p, FIND)) == Exec(INITIAL, actions)
  {
    hide Exec, Inv;
    RunKeepsInv(actions);
    OrphanedRefuses(Exec(INITIAL, actions), p);
    ExecConcat(INITIAL, actions, Does(p, FIND));
  }

  /** Release is the unlink, not the unlock: once the old holder has unlinked, a newcomer to the
      empty root holds the lease while the old inode is still locked. */
  lemma ReleaseIsTheUnlink(actions: seq<Action>, p: Process, q: Process)
    requires var w := Exec(INITIAL, actions);
      w.lease.None? && !w.residue && p in w.procs && w.procs[p].Unlinked? && q !in w.procs
    ensures var w, t := Exec(INITIAL, actions), Exec(INITIAL, actions + TakeOver(q));
      && IsHolder(t, q) && Linked(t, w.next) && t.procs[q].ino == w.next
      && p in t.procs && t.procs[p] == w.procs[p] && t.procs[p].ino in t.locks && t.locks[t.procs[p].ino] == p
  {
    hide Exec;
    var w := Exec(INITIAL, actions);
    RunKeepsInv(actions);
    assert ProcessInv(w, p, w.procs[p]);
    LocksAreOld(w);
    TakesOver(w, q);
    ExecConcat(INITIAL, actions, TakeOver(q));
  }
}
