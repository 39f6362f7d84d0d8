/** What every step of the lease protocol keeps, whatever goes wrong, and the one step by which
    a holder can lose the path of its lease. */
module CurrentRunLeaseLaws {
  import opened Basics
  import opened CurrentRunLease

  // ---------- invariant ----------

  predicate HasLock(phase: Phase) {
    phase.Locked? || phase.AnchorChecked? || phase.Holding? || phase.Unlinked?
  }

  /** The process has inspected a complete lease file. */
  predicate HasInode(phase: Phase) {
    HasLock(phase) || phase.Inspected? || phase.Anchored?
  }

  predicate Makes(phase: Phase) {
    phase.Creating? || phase.Created? || phase.Revoking?
  }

  /** A holder recovers before anything else, and removes the lease after its last run. */
  predicate HolderInv(h: Phase)
    requires h.Holding?
  {
    && h.checked !! h.made && h.checked + h.made <= h.workspace.activeRuns
    && (h.recovering ==> h == Acquired(h.ino))
    && (h.removal != NotRemoving ==> MayRelease(h.workspace))
  }

  predicate ProcessInv(w: World, p: Process, phase: Phase) {
    && (HasInode(phase) ==> phase.ino < w.next && phase.ino in w.written)
    && (Makes(phase) ==> phase.ino < w.next) && (phase.Created? ==> phase.ino in w.written)
    && (HasLock(phase) ==> phase.ino in w.locks && w.locks[phase.ino] == p)
    && (phase.Holding? ==> HolderInv(phase))
  }

  /** A lock belongs to a live process that knows it has it. */
  predicate LockInv(w: World, i: Inode)
    requires i in w.locks
  {
    w.locks[i] in w.procs && HasLock(w.procs[w.locks[i]]) && w.procs[w.locks[i]].ino == i
  }

  ghost predicate Inv(w: World) {
    && (w.lease.Some? ==> w.lease.value < w.next)
    && (forall p :: p in w.procs ==> ProcessInv(w, p, w.procs[p]))
    && (forall i :: i in w.locks ==> LockInv(w, i))
  }

  // ---------- every step keeps the invariant ----------

  /** A step of `p` takes nothing from the other processes. */
  ghost predicate Frame(w: World, t: World, p: Process) {
    && w.next <= t.next && w.written <= t.written && t.procs - {p} == w.procs - {p}
    && (forall i :: i in w.locks && w.locks[i] != p ==> i in t.locks && t.locks[i] == w.locks[i])
    && (forall i :: i in t.locks && t.locks[i] != p ==> i in w.locks && w.locks[i] == t.locks[i])
  }

  lemma OthersKeep(w: World, t: World, p: Process, q: Process)
    requires Frame(w, t, p) && q in t.procs && q in w.procs && q != p && ProcessInv(w, q, w.procs[q])
    ensures ProcessInv(t, q, t.procs[q])
  {
    assert q in t.procs - {p};
    assert t.procs[q] == w.procs[q];
  }

  lemma OtherLocksKeep(w: World, t: World, p: Process, i: Inode)
    requires Frame(w, t, p) && i in t.locks && t.locks[i] != p && LockInv(w, i)
    ensures LockInv(t, i)
  {
    var q := w.locks[i];
    assert q in w.procs - {p};
    assert q in t.procs - {p};
    assert t.procs[q] == w.procs[q];
  }

  lemma FrameKeepsInv(w: World, t: World, p: Process)
    requires Inv(w) && Frame(w, t, p) && (t.lease.Some? ==> t.lease.value < t.next)
    requires p in t.procs ==> ProcessInv(t, p, t.procs[p])
    requires forall i :: i in t.locks && t.locks[i] == p ==> LockInv(t, i)
    ensures Inv(t)
  {
    hide ProcessInv, LockInv, Frame;
    forall q | q in t.procs ensures ProcessInv(t, q, t.procs[q]) {
      if q != p {
        KeptOnes(w, t, p);
        OthersKeep(w, t, p, q);
      }
    }
    forall i | i in t.locks ensures LockInv(t, i) {
      if t.locks[i] != p {
        KeptOnes(w, t, p);
        OtherLocksKeep(w, t, p, i);
      }
    }
  }

  lemma KeptOnes(w: World, t: World, p: Process)
    requires Frame(w, t, p)
    ensures forall q :: q in t.procs && q != p ==> q in w.procs
    ensures forall i :: i in t.locks && t.locks[i] != p ==> i in w.locks
  {
    assert forall q :: q in t.procs && q != p ==> q in t.procs - {p};
  }

  lemma LeaveFrame(w: World, p: Process)
    ensures Frame(w, Leave(w, p), p) && p !in Leave(w, p).procs
  {
  }

  lemma LeaveKeepsInv(w: World, p: Process)
    requires Inv(w)
    ensures Inv(Leave(w, p)) && Inv(Leave(w.(lease := None), p))
  {
    hide ProcessInv, LockInv, Frame;
    LeaveFrame(w, p);
    FrameKeepsInv(w, Leave(w, p), p);
    LeaveFrame(w.(lease := None), p);
    UnlinkFrame(w, p);
    FrameKeepsInv(w, Leave(w.(lease := None), p), p);
  }

  lemma UnlinkFrame(w: World, p: Process)
    ensures Frame(w, Leave(w.(lease := None), p), p)
  {
  }

  /** A move of `p` that keeps its lock, if it has one. */
  ghost predicate Moves(w: World, t: World, p: Process) {
    && p in w.procs && p in t.procs && t.procs == w.procs[p := t.procs[p]] && t.locks == w.locks
    && w.next <= t.next && w.written <= t.written && (t.lease.Some? ==> t.lease.value < t.next)
    && (HasLock(w.procs[p]) ==> HasLock(t.procs[p]) && t.procs[p].ino == w.procs[p].ino)
    && ProcessInv(t, p, t.procs[p])
  }

  lemma MoveKeepsInv(w: World, t: World, p: Process)
    requires Inv(w) && Moves(w, t, p)
    ensures Inv(t)
  {
    hide ProcessInv;
    assert Frame(w, t, p);
    forall i | i in t.locks && t.locks[i] == p ensures LockInv(t, i) { assert LockInv(w, i); }
    FrameKeepsInv(w, t, p);
  }

  lemma CreationMoves(w: World, p: Process, step: Step)
    requires p in w.procs && ProcessInv(w, p, w.procs[p]) && (w.lease.Some? ==> w.lease.value < w.next)
    requires !w.procs[p].Holding?
    ensures var t := Creation(w, p, w.procs[p], step);
      t == w || t == Leave(w, p) || t == Leave(w.(lease := None), p) || Moves(w, t, p)
  {
    hide Leave, HolderInv;
  }

  lemma OpeningMoves(w: World, p: Process, step: Step)
    requires p in w.procs && ProcessInv(w, p, w.procs[p]) && (w.lease.Some? ==> w.lease.value < w.next)
    requires !w.procs[p].Holding? && !(w.procs[p].Anchored? && step == Lock)
    ensures var t := Opening(w, p, w.procs[p], step);
      t == w || t == Leave(w, p) || t == Leave(w.(lease := None), p) || Moves(w, t, p)
  {
    hide Leave, Creation;
    CreationMoves(w, p, step);
  }

  lemma LockKeepsInv(w: World, p: Process)
    requires Inv(w) && p in w.procs && w.procs[p].Anchored? && w.procs[p].ino !in w.locks
    ensures var i := w.procs[p].ino; Inv(Goto(w.(locks := w.locks[i := p]), p, Locked(i)))
  {
    var i := w.procs[p].ino;
    var t := Goto(w.(locks := w.locks[i := p]), p, Locked(i));
    assert ProcessInv(w, p, w.procs[p]);
    NoLocks(w, p);
    assert Frame(w, t, p);
    FrameKeepsInv(w, t, p);
  }

  lemma NoLocks(w: World, p: Process)
    requires Inv(w) && (p in w.procs ==> !HasLock(w.procs[p]))
    ensures forall i :: i in w.locks ==> w.locks[i] != p
  {
    forall i | i in w.locks ensures w.locks[i] != p { assert LockInv(w, i); }
  }

  lemma OpeningKeepsInv(w: World, p: Process, step: Step)
    requires Inv(w) && p in w.procs && !w.procs[p].Holding?
    ensures Inv(Opening(w, p, w.procs[p], step))
  {
    hide ProcessInv, LockInv, Creation, Moves;
    LeaveKeepsInv(w, p);
    if w.procs[p].Anchored? && step == Lock {
      if w.procs[p].ino !in w.locks { LockKeepsInv(w, p); }
    } else {
      ProcessAt(w, p);
      OpeningMoves(w, p, step);
      if Moves(w, Opening(w, p, w.procs[p], step), p) { MoveKeepsInv(w, Opening(w, p, w.procs[p], step), p); }
    }
  }

  lemma ProcessAt(w: World, p: Process)
    requires Inv(w) && p in w.procs
    ensures ProcessInv(w, p, w.procs[p]) && (w.lease.Some? ==> w.lease.value < w.next)
  {
  }

  lemma RunningKeepsHolder(w: World, p: Process, step: Step)
    requires p in w.procs && w.procs[p].Holding? && HolderInv(w.procs[p])
    ensures var h, t := w.procs[p], Running(w, p, w.procs[p], step);
      && t == w.(residue := t.residue, procs := w.procs[p := t.procs[p]])
      && t.procs[p].Holding? && t.procs[p].ino == h.ino && HolderInv(t.procs[p])
  {
  }

  lemma UsingMoves(w: World, p: Process, step: Step)
    requires p in w.procs && w.procs[p].Holding? && ProcessInv(w, p, w.procs[p])
    requires w.lease.Some? ==> w.lease.value < w.next
    ensures var t := Using(w, p, w.procs[p], step); t == Leave(w, p) || Moves(w, t, p)
  {
    hide Leave, Running;
    RunningKeepsHolder(w, p, step);
  }

  lemma UsingKeepsInv(w: World, p: Process, step: Step)
    requires Inv(w) && p in w.procs && w.procs[p].Holding?
    ensures Inv(Using(w, p, w.procs[p], step))
  {
    hide ProcessInv, LockInv, Moves;
    LeaveKeepsInv(w, p);
    ProcessAt(w, p);
    UsingMoves(w, p, step);
    if Moves(w, Using(w, p, w.procs[p], step), p) { MoveKeepsInv(w, Using(w, p, w.procs[p], step), p); }
  }

  lemma ReserveKeepsInv(w: World, p: Process)
    requires Inv(w) && p !in w.procs
    ensures Inv(Goto(w, p, Reserved))
  {
    var t := Goto(w, p, Reserved);
    NoLocks(w, p);
    assert Frame(w, t, p);
    FrameKeepsInv(w, t, p);
  }

  lemma NextKeepsInv(w: World, a: Action)
    requires Inv(w)
    ensures Inv(Next(w, a))
  {
    hide Inv, Opening, Using;
    var p := a.process;
    if p !in w.procs {
      ReserveKeepsInv(w, p);
    } else if a.step == Stop {
      LeaveKeepsInv(w, p);
    } else if w.procs[p].Holding? {
      UsingKeepsInv(w, p, a.step);
    } else {
      OpeningKeepsInv(w, p, a.step);
    }
  }

  lemma {:induction false} RunKeepsInv(actions: seq<Action>)
    ensures Inv(Exec(INITIAL, actions))
  {
    if actions != [] {
      RunKeepsInv(actions[..|actions| - 1]);
      NextKeepsInv(Exec(INITIAL, actions[..|actions| - 1]), actions[|actions| - 1]);
    }
  }

  lemma {:induction false} ExecKeepsInv(w: World, actions: seq<Action>)
    requires Inv(w)
    ensures Inv(Exec(w, actions))
  {
    hide Inv, Next;
    if actions != [] {
      ExecKeepsInv(w, actions[..|actions| - 1]);
      NextKeepsInv(Exec(w, actions[..|actions| - 1]), actions[|actions| - 1]);
    }
  }

  // ---------- losing the path ----------

  predicate IsHolder(w: World, p: Process) {
    p in w.procs && w.procs[p].Holding?
  }

  /** A process goes on holding a lease that the path does not name. */
  ghost predicate Torn(w: World) {
    exists p :: IsHolder(w, p) && !Linked(w, w.procs[p].ino)
  }

  predicate Revokes(w: World, a: Action) {
    a.process in w.procs && w.procs[a.process].Revoking? && a.step == Revoke
  }

  /** A failed creation unlinks the path while another process holds the lease it names. */
  ghost predicate Tears(w: World, a: Action) {
    Revokes(w, a) && exists q :: IsHolder(w, q) && Linked(w, w.procs[q].ino)
  }

  /** Two holders have different inodes, so at most one of them is at the path. */
  lemma OneAtThePath(w: World, p: Process, q: Process)
    requires Inv(w) && IsHolder(w, p) && IsHolder(w, q) && p != q
    ensures w.procs[p].ino != w.procs[q].ino
    ensures !(Linked(w, w.procs[p].ino) && Linked(w, w.procs[q].ino))
  {
    assert ProcessInv(w, p, w.procs[p]) && ProcessInv(w, q, w.procs[q]);
  }

  predicate SamePhase(w: World, t: World, q: Process) {
    (q in t.procs <==> q in w.procs) && (q in w.procs ==> t.procs[q] == w.procs[q])
  }

  lemma CreationStays(w: World, p: Process, step: Step, q: Process)
    requires p in w.procs && q != p
    ensures SamePhase(w, Creation(w, p, w.procs[p], step), q)
  {
  }

  lemma OpeningStays(w: World, p: Process, step: Step, q: Process)
    requires p in w.procs && q != p
    ensures SamePhase(w, Opening(w, p, w.procs[p], step), q)
  {
    hide Creation;
    CreationStays(w, p, step, q);
  }

  lemma UsingStays(w: World, p: Process, step: Step, q: Process)
    requires IsHolder(w, p) && q != p
    ensures SamePhase(w, Using(w, p, w.procs[p], step), q)
  {
    hide Running;
    RunningTouches(w, p, step);
  }

  /** A step changes the phase of its own process only. */
  lemma OthersStay(w: World, a: Action, q: Process)
    requires q != a.process
    ensures SamePhase(w, Next(w, a), q)
  {
    hide Opening, Using;
    if IsHolder(w, a.process) {
      UsingStays(w, a.process, a.step, q);
    } else if a.process in w.procs {
      OpeningStays(w, a.process, a.step, q);
    }
  }

  lemma RunningTouches(w: World, p: Process, step: Step)
    requires IsHolder(w, p)
    ensures var t := Running(w, p, w.procs[p], step);
      && t == w.(residue := t.residue, procs := w.procs[p := t.procs[p]])
      && t.procs[p].Holding? && t.procs[p].ino == w.procs[p].ino && t.procs[p].removal == w.procs[p].removal
  {
  }

  /** How a step moves the path: not at all, away, or to a new inode. */
  predicate LeaseMoved(w: World, t: World) {
    || (t.lease == w.lease && t.next == w.next)
    || (t.lease.None? && t.next == w.next)
    || (w.lease.None? && t.lease == Some(w.next) && t.next == w.next + 1)
  }

  lemma CreationLease(w: World, p: Process, step: Step)
    requires p in w.procs
    ensures LeaseMoved(w, Creation(w, p, w.procs[p], step))
  {
  }

  lemma OpeningLease(w: World, p: Process, step: Step)
    requires p in w.procs
    ensures LeaseMoved(w, Opening(w, p, w.procs[p], step))
  {
    hide Creation;
    CreationLease(w, p, step);
  }

  lemma UsingLease(w: World, p: Process, step: Step)
    requires IsHolder(w, p)
    ensures LeaseMoved(w, Using(w, p, w.procs[p], step))
  {
    hide Running;
    RunningTouches(w, p, step);
  }

  lemma LeaseMoves(w: World, a: Action)
    ensures LeaseMoved(w, Next(w, a))
  {
    hide Opening, Using;
    if IsHolder(w, a.process) {
      UsingLease(w, a.process, a.step);
    } else if a.process in w.procs {
      OpeningLease(w, a.process, a.step);
    }
  }

  /** The path is taken away by a holder that has checked it, or by a creation that failed. */
  lemma PathTaken(w: World, a: Action)
    requires w.lease.Some? && Next(w, a).lease != w.lease
    ensures Next(w, a).lease.None?
    ensures Revokes(w, a) ||
      (IsHolder(w, a.process) && w.procs[a.process].removal == PathChecked && !IsHolder(Next(w, a), a.process))
  {
    hide Running;
    if IsHolder(w, a.process) { RunningTouches(w, a.process, a.step); }
  }

  /** A step that begins or goes on holding is of a process whose lease is at the path, or was
      not before. */
  lemma OwnHolder(w: World, a: Action)
    requires IsHolder(Next(w, a), a.process)
    ensures var p, t := a.process, Next(w, a);
      if IsHolder(w, p) then t.lease == w.lease && t.procs[p].ino == w.procs[p].ino
      else t.lease == w.lease && Linked(t, t.procs[p].ino) && t.procs[p] == Acquired(t.procs[p].ino)
  {
    hide Running;
    if IsHolder(w, a.process) { RunningTouches(w, a.process, a.step); }
  }

  lemma TearingTears(w: World, a: Action)
    requires Tears(w, a)
    ensures Torn(Next(w, a))
  {
    var q :| IsHolder(w, q) && Linked(w, w.procs[q].ino);
    OthersStay(w, a, q);
    assert IsHolder(Next(w, a), q) && Next(w, a).lease.None?;
  }

  lemma OtherHolder(w: World, a: Action, q: Process)
    requires Inv(w) && !Torn(w) && !Tears(w, a) && IsHolder(w, q) && q != a.process
    ensures Linked(Next(w, a), w.procs[q].ino)
  {
    hide Inv, Next;
    assert Linked(w, w.procs[q].ino);
    if Next(w, a).lease != w.lease {
      PathTaken(w, a);
      if IsHolder(w, a.process) { OneAtThePath(w, a.process, q); }
    }
  }

  /** A holder loses the path exactly when a failed creation unlinks it. */
  lemma TornBy(w: World, a: Action)
    requires Inv(w) && !Torn(w)
    ensures Torn(Next(w, a)) <==> Tears(w, a)
  {
    hide Inv, Next, Revokes;
    if Tears(w, a) {
      TearingTears(w, a);
    } else if Torn(Next(w, a)) {
      var q :| IsHolder(Next(w, a), q) && !Linked(Next(w, a), Next(w, a).procs[q].ino);
      if q == a.process {
        OwnHolder(w, a);
      } else {
        OthersStay(w, a, q);
        OtherHolder(w, a, q);
      }
    }
  }

  // ---------- a root without a lease ----------

  /** Something is left in a root that has no lease: every later opening refuses it. */
  predicate Orphaned(w: World) {
    w.lease.None? && w.residue
  }

  /** A failed creation unlinks the lease of a root that is not empty. */
  predicate Orphans(w: World, a: Action) {
    Revokes(w, a) && w.lease.Some? && w.residue
  }

  /** A holder that removes the lease guards an empty root. */
  predicate Guarded(w: World, p: Process)
    requires IsHolder(w, p)
  {
    w.procs[p].removal != NotRemoving ==> !w.residue
  }

  ghost predicate AllGuarded(w: World) {
    forall p :: IsHolder(w, p) ==> Guarded(w, p)
  }

  /** Only a holder that makes a run fills the root. */
  lemma Filled(w: World, a: Action)
    requires Next(w, a).residue && !w.residue
    ensures IsHolder(w, a.process) && a.step.MakeRun? && a.step.token in w.procs[a.process].checked
    ensures Next(w, a).lease == w.lease
  {
  }

  lemma OrphanedBy(w: World, a: Action)
    requires Inv(w) && !Torn(w) && !Orphaned(w) && AllGuarded(w)
    ensures Orphaned(Next(w, a)) <==> Orphans(w, a)
  {
    hide Inv, Next;
    var t := Next(w, a);
    assert forall p :: IsHolder(w, p) ==> Linked(w, w.procs[p].ino);
    if Orphans(w, a) {
      RevokeEffect(w, a);
    } else if Orphaned(t) {
      if !w.residue {
        Filled(w, a);
      } else {
        PathTaken(w, a);
      }
    }
  }

  lemma RevokeEffect(w: World, a: Action)
    requires Revokes(w, a)
    ensures Next(w, a) == Leave(w.(lease := None), a.process)
  {
  }

  /** How a step moves a holder's removal. */
  lemma RemovalMoves(w: World, a: Action)
    requires IsHolder(w, a.process) && IsHolder(Next(w, a), a.process)
    ensures var p, t := a.process, Next(w, a);
      t.procs[p].removal == w.procs[p].removal || (t.residue == w.residue
        && if w.procs[p].removal == NotRemoving then !w.residue else w.procs[p].removal == RootListed)
  {
    hide Running;
    RunningTouches(w, a.process, a.step);
  }

  lemma GuardedStays(w: World, a: Action)
    requires Inv(w) && !Torn(w) && AllGuarded(w)
    ensures AllGuarded(Next(w, a))
  {
    hide Inv, Next;
    var t := Next(w, a);
    forall p | IsHolder(t, p) ensures Guarded(t, p) {
      if p == a.process {
        OwnHolder(w, a);
        if IsHolder(w, p) { RemovalMoves(w, a); }
      } else {
        OthersStay(w, a, p);
      }
      if IsHolder(w, p) && t.residue && !w.residue {
        Filled(w, a);
        OnlyHolder(w, p, a.process);
        RunsOut(w, p);
      }
    }
  }

  lemma OnlyHolder(w: World, p: Process, q: Process)
    requires Inv(w) && !Torn(w) && IsHolder(w, p) && IsHolder(w, q)
    ensures p == q
  {
    hide Inv;
    assert forall r :: IsHolder(w, r) ==> Linked(w, w.procs[r].ino);
    if p != q {
      OneAtThePath(w, p, q);
    }
  }

  lemma RunsOut(w: World, p: Process)
    requires Inv(w) && IsHolder(w, p)
    ensures w.procs[p].removal != NotRemoving ==> w.procs[p].checked == {}
  {
    assert ProcessInv(w, p, w.procs[p]);
  }
}
