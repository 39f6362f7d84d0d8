/** What comes of each thing a process does with the lease when nobody disturbs it: opening,
    failing to create, recovering, running and closing succeed and fail exactly as stated,
    and leave exactly the stated world. */
module CurrentRunLeaseLife {
  import opened Basics
  import opened CurrentRunLease
  import opened CurrentRunLeaseLaws
  import opened CurrentRunLeaseScripts
  import opened CurrentRunLeasePromises

  lemma First(w: World, p: Process, step: Step, rest: seq<Step>)
    ensures Exec(w, Does(p, [step] + rest)) == Exec(Next(w, Action(p, step)), Does(p, rest))
  {
    hide Next;
    assert Does(p, [step] + rest) == Does(p, [step]) + Does(p, rest);
    ExecConcat(w, Does(p, [step]), Does(p, rest));
    OneStep(w, p, step);
  }

  lemma Nothing(w: World, p: Process)
    ensures Exec(w, Does(p, [])) == w
  {
    assert Does(p, []) == [];
  }

  /** A process that is not there does nothing until it reserves again. */
  lemma {:induction false} Absent(w: World, p: Process, steps: seq<Step>)
    requires p !in w.procs && Reserve !in steps
    ensures Exec(w, Does(p, steps)) == w
    decreases |steps|
  {
    if steps == [] {
      Nothing(w, p);
    } else {
      assert steps == [steps[0]] + steps[1..];
      First(w, p, steps[0], steps[1..]);
      Absent(w, p, steps[1..]);
    }
  }

  // ---------- opening ----------

  /** What a process that has just acquired the lease is doing: recovering, without runs. */
  function JustAcquired(i: Inode): Phase {
    Holding(i, true, Workspace({}, false), {}, {}, NotRemoving)
  }

  /** Opening a root that has a lease: the process acquires it, and changes nothing else, exactly
      if the lease file is complete and nobody has locked it; otherwise all is as before. */
  lemma OpensExactly(actions: seq<Action>, p: Process)
    requires var w := Exec(INITIAL, actions); w.lease.Some? && p !in w.procs
    ensures var w, t := Exec(INITIAL, actions), Exec(INITIAL, actions + (Does(p, FIND) + Does(p, ACQUIRE)));
      var i := w.lease.value;
      t == if i in w.written && i !in w.locks
           then w.(locks := w.locks[i := p], procs := w.procs[p := JustAcquired(i)]) else w
  {
    hide Exec, Next, Inv;
    var w := Exec(INITIAL, actions);
    var i := w.lease.value;
    RunKeepsInv(actions);
    ExecConcat(INITIAL, actions, Does(p, FIND) + Does(p, ACQUIRE));
    if i in w.written && i !in w.locks {
      Opens(w, p, i);
    } else {
      ExecConcat(w, Does(p, FIND), Does(p, ACQUIRE));
      if i in w.written {
        Finds(w, p);
        Busy(w, p, i);
      } else {
        Incomplete(w, p);
        Absent(w, p, ACQUIRE);
      }
    }
  }

  lemma Busy(w: World, p: Process, i: Inode)
    requires Inv(w) && p !in w.procs && Linked(w, i) && i in w.locks
    ensures Exec(Goto(w, p, Inspected(i)), Does(p, ACQUIRE)) == w
  {
    hide Exec, Next, Inv, Leave;
    var rest: seq<Step> := [CheckAnchor, CheckPath];
    assert ACQUIRE == [Open] + ([Lock] + rest);
    First(Goto(w, p, Inspected(i)), p, Open, [Lock] + rest);
    OpensFile(Goto(w, p, Inspected(i)), p, i);
    GotoTwice(w, p, Inspected(i), Anchored(i));
    First(Goto(w, p, Anchored(i)), p, Lock, rest);
    LocksNot(Goto(w, p, Anchored(i)), p, i);
    LeavesAsItCame(w, p, Anchored(i));
    Absent(w, p, rest);
  }

  lemma LocksNot(w: World, p: Process, i: Inode)
    requires p in w.procs && w.procs[p] == Anchored(i) && i in w.locks
    ensures Next(w, Action(p, Lock)) == Leave(w, p)
  {
  }

  lemma Incomplete(w: World, p: Process)
    requires Inv(w) && p !in w.procs && w.lease.Some? && w.lease.value !in w.written
    ensures Exec(w, Does(p, FIND)) == w
  {
    hide Exec, Next, Inv, Leave;
    assert FIND == [Reserve] + ([List] + [Inspect]) && [Inspect] == [Inspect] + [];
    First(w, p, Reserve, [List] + [Inspect]);
    Reserves(w, p);
    First(Goto(w, p, Reserved), p, List, [Inspect]);
    Lists(Goto(w, p, Reserved), p);
    GotoTwice(w, p, Reserved, Listed(false));
    First(Goto(w, p, Listed(false)), p, Inspect, []);
    InspectsNot(Goto(w, p, Listed(false)), p);
    LeavesAsItCame(w, p, Listed(false));
    Nothing(w, p);
  }

  lemma InspectsNot(w: World, p: Process)
    requires p in w.procs && w.procs[p].Listed? && w.lease.Some? && w.lease.value !in w.written
    ensures Next(w, Action(p, Inspect)) == Leave(w, p)
  {
  }

  /** Opening an empty root without a lease: the process makes the next inode the lease,
      complete and locked, and holds it. */
  lemma EmptyRootIsTaken(actions: seq<Action>, p: Process)
    requires var w := Exec(INITIAL, actions); w.lease.None? && !w.residue && p !in w.procs
    ensures var w, t := Exec(INITIAL, actions), Exec(INITIAL, actions + TakeOver(p));
      var i := w.next;
      t == World(Some(i), i + 1, w.written + {i}, false, w.locks[i := p], w.procs[p := JustAcquired(i)])
  {
    hide Exec, Inv;
    var w := Exec(INITIAL, actions);
    RunKeepsInv(actions);
    ExecConcat(INITIAL, actions, TakeOver(p));
    LocksAreOld(w);
    TakesOver(w, p);
  }

  /** Of two that find no lease, who comes second to create it goes on with the lease of the
      first when that is complete, and fails like any other newcomer when it is not. */
  lemma SecondCreatorFinds(actions: seq<Action>, p: Process)
    requires var w := Exec(INITIAL, actions); w.lease.Some? && p in w.procs && w.procs[p] == Missing
    ensures var w, t := Exec(INITIAL, actions), Exec(INITIAL, actions + Does(p, [Create, Inspect]));
      t == if w.lease.value in w.written then w.(procs := w.procs[p := Inspected(w.lease.value)])
           else w.(procs := w.procs - {p})
  {
    hide Exec, Inv;
    var w := Exec(INITIAL, actions);
    ExecConcat(INITIAL, actions, Does(p, [Create, Inspect]));
    assert [Create, Inspect] == [Create] + [Inspect] && [Inspect] == [Inspect] + [];
    First(w, p, Create, [Inspect]);
    var w1 := Goto(w, p, Listed(false));
    First(w1, p, Inspect, []);
    Nothing(Next(w1, Action(p, Inspect)), p);
    RunKeepsInv(actions);
    NoLocks(w, p);
  }

  /** A creation that fails after the file was made takes the file away again. */
  lemma FailedCreationIsUndone(actions: seq<Action>, p: Process, written: bool)
    requires var w := Exec(INITIAL, actions); w.lease.None? && !w.residue && p !in w.procs
    ensures var w := Exec(INITIAL, actions);
      var steps := [Reserve, List, Inspect, Create] + (if written then [Write] else []) + [FailCreation, Revoke];
      Exec(INITIAL, actions + Does(p, steps))
      == w.(next := w.next + 1, written := w.written + if written then {w.next} else {})
  {
    hide Exec, Inv, Next, Leave;
    var w := Exec(INITIAL, actions);
    RunKeepsInv(actions);
    var rest := (if written then [Write] else []) + [FailCreation, Revoke];
    var steps := [Reserve, List, Inspect, Create] + (if written then [Write] else []) + [FailCreation, Revoke];
    ExecConcat(INITIAL, actions, Does(p, steps));
    assert steps == [Reserve] + ([List] + ([Inspect] + ([Create] + rest)));
    First(w, p, Reserve, [List] + ([Inspect] + ([Create] + rest)));
    Reserves(w, p);
    First(Goto(w, p, Reserved), p, List, [Inspect] + ([Create] + rest));
    Lists(Goto(w, p, Reserved), p);
    GotoTwice(w, p, Reserved, Listed(true));
    First(Goto(w, p, Listed(true)), p, Inspect, [Create] + rest);
    Inspects(Goto(w, p, Listed(true)), p);
    GotoTwice(w, p, Listed(true), Missing);
    First(Goto(w, p, Missing), p, Create, rest);
    Creates(Goto(w, p, Missing), p);
    GotoTwice(w.(lease := Some(w.next), next := w.next + 1), p, Missing, Creating(w.next));
    CreationUndone(w, p, written);
  }

  lemma CreationUndone(w: World, p: Process, written: bool)
    requires Inv(w) && w.lease.None? && p !in w.procs
    ensures var steps := (if written then [Write] else []) + [FailCreation, Revoke];
      Exec(Goto(w.(lease := Some(w.next), next := w.next + 1), p, Creating(w.next)), Does(p, steps))
      == w.(next := w.next + 1, written := w.written + if written then {w.next} else {})
  {
    hide Exec, Inv, Next, Leave;
    var i, v := w.next, w.(lease := Some(w.next), next := w.next + 1);
    var ending := [FailCreation] + ([Revoke] + []);
    assert ending == [FailCreation, Revoke];
    var u := if written then v.(written := v.written + {i}) else v;
    var phase := if written then Created(i) else Creating(i);
    if written {
      First(Goto(v, p, Creating(i)), p, Write, ending);
      Writes(Goto(v, p, Creating(i)), p, i);
      GotoTwice(u, p, Creating(i), Created(i));
      assert Goto(v, p, Creating(i)).(written := v.written + {i}) == Goto(u, p, Creating(i));
      assert [Write] + ending == [Write] + [FailCreation, Revoke];
    } else {
      assert [] + ending == ending && w.written + {} == w.written;
    }
    assert Exec(Goto(v, p, Creating(i)), Does(p, (if written then [Write] else []) + [FailCreation, Revoke]))
      == Exec(Goto(u, p, phase), Does(p, ending));
    First(Goto(u, p, phase), p, FailCreation, [Revoke] + []);
    Fails(Goto(u, p, phase), p, i);
    GotoTwice(u, p, phase, Revoking(i));
    First(Goto(u, p, Revoking(i)), p, Revoke, []);
    RevokesLease(Goto(u, p, Revoking(i)), p);
    Nothing(Leave(Goto(u.(lease := None), p, Revoking(i)), p), p);
    assert Goto(u, p, Revoking(i)).(lease := None) == Goto(u.(lease := None), p, Revoking(i));
    NoLocks(w, p);
    LeavesUnlocked(u.(lease := None), p, Revoking(i));
  }

  lemma LeavesUnlocked(w: World, p: Process, phase: Phase)
    requires p !in w.procs && forall i :: i in w.locks ==> w.locks[i] != p
    ensures Leave(Goto(w, p, phase), p) == w
  {
  }

  lemma Fails(w: World, p: Process, i: Inode)
    requires p in w.procs && w.procs[p] in {Creating(i), Created(i)} && Linked(w, i)
    ensures Next(w, Action(p, FailCreation)) == Goto(w, p, Revoking(i))
  {
  }

  lemma RevokesLease(w: World, p: Process)
    requires p in w.procs && w.procs[p].Revoking?
    ensures Next(w, Action(p, Revoke)) == Leave(w.(lease := None), p)
  {
  }

  // ---------- recovering ----------

  lemma ClearsRoot(w: World, p: Process, i: Inode)
    requires p in w.procs && w.procs[p] == JustAcquired(i)
    ensures Next(w, Action(p, Clear)) == w.(residue := false)
    ensures Next(w, Action(p, Recovered)) ==
      if w.lease == Some(i) then Goto(w, p, Holding(i, false, Workspace({}, false), {}, {}, NotRemoving))
      else Leave(w, p)
  {
    hide Leave;
  }

  /** The new holder clears the root and is ready if the lease is still at the path; if the path
      was lost meanwhile it leaves, and its lock is freed. */
  lemma RecoversExactly(w: World, p: Process, i: Inode)
    requires p in w.procs && w.procs[p] == JustAcquired(i)
    ensures var t := Exec(w, Does(p, [Clear, Recovered]));
      t == if w.lease == Some(i)
           then w.(
             residue := false, procs := w.procs[p := Holding(i, false, Workspace({}, false), {}, {}, NotRemoving)])
           else Leave(w.(residue := false), p)
  {
    hide Exec, Next, Leave;
    assert [Clear, Recovered] == [Clear] + ([Recovered] + []);
    var v := w.(residue := false);
    First(w, p, Clear, [Recovered] + []);
    ClearsRoot(w, p, i);
    First(v, p, Recovered, []);
    ClearsRoot(v, p, i);
    Nothing(Next(v, Action(p, Recovered)), p);
  }

  // ---------- runs ----------

  /** A holder that may start runs: recovered, not closing. */
  predicate MayRun(w: World, p: Process) {
    p in w.procs && w.procs[p].Holding? && !w.procs[p].recovering && !w.procs[p].workspace.closing
  }

  /** The holder with a run that is active, then checked, then made. */
  function Active(h: Phase, token: nat): Phase
    requires h.Holding?
  {
    h.(workspace := Workspace(h.workspace.activeRuns + {token}, false))
  }

  lemma Begins(w: World, p: Process, token: nat)
    requires MayRun(w, p) && token !in w.procs[p].workspace.activeRuns
    ensures Next(w, Action(p, StartRun(token))) == Goto(w, p, Active(w.procs[p], token))
  {
  }

  lemma Validates(w: World, p: Process, h: Phase, token: nat)
    requires p in w.procs && w.procs[p].Holding? && h.Holding? && h.ino == w.procs[p].ino && !h.workspace.closing
    requires token !in h.workspace.activeRuns && token !in h.checked && token !in h.made
    ensures Next(Goto(w, p, Active(h, token)), Action(p, CheckRun(token))) ==
      Goto(w, p, if w.lease == Some(h.ino) then Active(h, token).(checked := h.checked + {token}) else h)
  {
    assert h.workspace.activeRuns + {token} - {token} == h.workspace.activeRuns;
  }

  lemma Makes(w: World, p: Process, h: Phase, token: nat)
    requires h.Holding? && token !in h.checked
    ensures Next(Goto(w, p, h.(checked := h.checked + {token})), Action(p, MakeRun(token))) ==
      Goto(w.(residue := true), p, h.(made := h.made + {token}))
  {
    assert h.checked + {token} - {token} == h.checked;
  }

  lemma MakesNot(w: World, p: Process, token: nat)
    requires p in w.procs && w.procs[p].Holding? && token !in w.procs[p].checked
    ensures Next(w, Action(p, MakeRun(token))) == w
  {
  }

  /** A new run of an open holder at the path is made: it is active and its files are in the
      root. One whose holder has lost the path is not, and leaves nothing. */
  lemma RunIsMadeExactly(w: World, p: Process, token: nat)
    requires Inv(w) && MayRun(w, p) && token !in w.procs[p].workspace.activeRuns
    ensures var h, t := w.procs[p], Exec(w, Does(p, [StartRun(token), CheckRun(token), MakeRun(token)]));
      t == if w.lease == Some(h.ino)
           then w.(residue := true, procs := w.procs[p := h.(
                  workspace := Workspace(h.workspace.activeRuns + {token}, false), made := h.made + {token})])
           else w
  {
    hide Exec, Inv, Next;
    var h := w.procs[p];
    var rest: seq<Step> := [CheckRun(token)] + ([MakeRun(token)] + []);
    assert [StartRun(token)] + rest == [StartRun(token), CheckRun(token), MakeRun(token)];
    NewToken(w, p, token);
    First(w, p, StartRun(token), rest);
    Begins(w, p, token);
    First(Goto(w, p, Active(h, token)), p, CheckRun(token), [MakeRun(token)] + []);
    Validates(w, p, h, token);
    if w.lease == Some(h.ino) {
      First(Goto(w, p, Active(h, token).(checked := h.checked + {token})), p, MakeRun(token), []);
      Makes(w, p, Active(h, token), token);
      Nothing(Goto(w.(residue := true), p, Active(h, token).(made := h.made + {token})), p);
    } else {
      assert Goto(w, p, h) == w;
      First(w, p, MakeRun(token), []);
      MakesNot(w, p, token);
      Nothing(w, p);
    }
  }

  lemma NewToken(w: World, p: Process, token: nat)
    requires Inv(w) && MayRun(w, p) && token !in w.procs[p].workspace.activeRuns
    ensures token !in w.procs[p].checked && token !in w.procs[p].made
  {
    assert ProcessInv(w, p, w.procs[p]);
  }

  /** A run that ends, made or only checked, is no longer active; the root is empty again exactly
      if the run left nothing and was the last one made, or it was empty before. */
  lemma RunEndsExactly(w: World, p: Process, token: nat, empty: bool)
    requires p in w.procs && w.procs[p].Holding? && token in w.procs[p].checked + w.procs[p].made
    ensures var h, t := w.procs[p], Exec(w, Does(p, [EndRun(token, empty)]));
      && t.residue == (w.residue && !(empty && h.made == {token}))
      && t == w.(residue := t.residue, procs := w.procs[p := h.(
           workspace := h.workspace.(activeRuns := h.workspace.activeRuns - {token}),
           checked := h.checked - {token}, made := h.made - {token})])
  {
    hide Exec;
    OneStep(w, p, EndRun(token, empty));
  }

  /** Once a workspace is closing no run starts: whoever acts, its active runs only become
      fewer, and it goes on closing until it leaves. */
  lemma ClosingAdmitsNothing(w: World, a: Action, p: Process)
    requires IsHolder(w, p) && w.procs[p].workspace.closing && !w.procs[p].recovering
    requires p in Next(w, a).procs && Next(w, a).procs[p].Holding?
    ensures var h, k := w.procs[p], Next(w, a).procs[p];
      k.workspace.closing && k.ino == h.ino && k.workspace.activeRuns <= h.workspace.activeRuns
  {
    if p != a.process { OthersStay(w, a, p); }
  }

  // ---------- closing ----------

  const CLOSE: seq<Step> := [BeginClose, ListRoot, CheckRemoval, Unlink, Stop]

  lemma BeginsClosing(w: World, p: Process)
    requires MayRun(w, p)
    ensures Next(w, Action(p, BeginClose)) ==
      Goto(w, p, w.procs[p].(workspace := Workspace(w.procs[p].workspace.activeRuns, true)))
  {
  }

  lemma ListsRoot(w: World, p: Process)
    requires p in w.procs && w.procs[p].Holding? && w.procs[p].workspace == Workspace({}, true)
    requires w.procs[p].removal == NotRemoving
    ensures Next(w, Action(p, ListRoot)) ==
      if w.lease.Some? && !w.residue then Goto(w, p, w.procs[p].(removal := RootListed)) else w
  {
  }

  lemma ChecksRemoval(w: World, p: Process)
    requires p in w.procs && w.procs[p].Holding?
    ensures Next(w, Action(p, CheckRemoval)) ==
      if w.procs[p].removal != RootListed then w
      else if w.lease == Some(w.procs[p].ino) then Goto(w, p, w.procs[p].(removal := PathChecked)) else Leave(w, p)
    ensures Next(w, Action(p, Unlink)) ==
      if w.procs[p].removal == PathChecked then Goto(w.(lease := None), p, Unlinked(w.procs[p].ino)) else w
  {
    hide Leave;
  }

  lemma Stops(w: World, p: Process, phase: Phase)
    ensures Exec(Goto(w, p, phase), Does(p, [Stop] + [])) == Leave(w, p)
  {
    hide Exec;
    First(Goto(w, p, phase), p, Stop, []);
    Nothing(Leave(Goto(w, p, phase), p), p);
    LeavesLikewise(w, p, phase);
  }

  /** Closing a holder without runs: it leaves, its lock is freed, and the lease goes with it
      exactly if it is still the holder's own and the root holds nothing else. */
  lemma ClosesExactly(w: World, p: Process)
    requires MayRun(w, p) && w.procs[p].workspace.activeRuns == {} && w.procs[p].removal == NotRemoving
    ensures Exec(w, Does(p, CLOSE)) ==
      Leave(w.(lease := if w.lease == Some(w.procs[p].ino) && !w.residue then None else w.lease), p)
  {
    hide Exec, Next, Leave;
    var rest: seq<Step> := [CheckRemoval] + ([Unlink] + ([Stop] + []));
    assert CLOSE == [BeginClose] + ([ListRoot] + rest);
    var h := w.procs[p].(workspace := Workspace({}, true));
    First(w, p, BeginClose, [ListRoot] + rest);
    BeginsClosing(w, p);
    First(Goto(w, p, h), p, ListRoot, rest);
    ListsRoot(Goto(w, p, h), p);
    if w.lease.Some? && !w.residue {
      GotoTwice(w, p, h, h.(removal := RootListed));
      Removes(w, p, h.(removal := RootListed));
    } else {
      First(Goto(w, p, h), p, CheckRemoval, [Unlink] + ([Stop] + []));
      ChecksRemoval(Goto(w, p, h), p);
      First(Goto(w, p, h), p, Unlink, [Stop] + []);
      Stops(w, p, h);
    }
  }

  lemma Removes(w: World, p: Process, h: Phase)
    requires h.Holding? && h.removal == RootListed
    ensures Exec(Goto(w, p, h), Does(p, [CheckRemoval] + ([Unlink] + ([Stop] + []))))
      == Leave(w.(lease := if w.lease == Some(h.ino) then None else w.lease), p)
  {
    hide Exec, Next, Leave;
    First(Goto(w, p, h), p, CheckRemoval, [Unlink] + ([Stop] + []));
    ChecksRemoval(Goto(w, p, h), p);
    if w.lease == Some(h.ino) {
      var h2, v := h.(removal := PathChecked), w.(lease := None);
      GotoTwice(w, p, h, h2);
      First(Goto(w, p, h2), p, Unlink, [Stop] + []);
      ChecksRemoval(Goto(w, p, h2), p);
      assert Goto(w, p, h2).(lease := None) == Goto(v, p, h2);
      GotoTwice(v, p, h2, Unlinked(h.ino));
      Stops(v, p, Unlinked(h.ino));
    } else {
      LeavesLikewise(w, p, h);
      Gone(w, p);
      Absent(Leave(w, p), p, [Unlink] + ([Stop] + []));
    }
  }

  lemma LeavesLikewise(w: World, p: Process, phase: Phase)
    ensures Leave(Goto(w, p, phase), p) == Leave(w, p)
  {
  }

  /** Who leaves is gone with every lock it had, and nothing else changes: a lock is there
      afterwards exactly if it is another's. */
  lemma Gone(w: World, p: Process)
    ensures var t := Leave(w, p);
      && p !in t.procs && t.lease == w.lease && t.residue == w.residue && t.next == w.next && t.written == w.written
      && (forall q :: q != p ==> SamePhase(w, t, q))
      && (forall i :: i in t.locks <==> i in w.locks && w.locks[i] != p)
      && (forall i :: i in t.locks ==> t.locks[i] == w.locks[i])
  {
  }

  // ---------- a whole life ----------

  /** Everything a host does with a root in which nothing goes wrong and nothing is left. */
  function Life(p: Process, token: nat): seq<Action> {
    TakeOver(p)
    + (Does(p, [Clear, Recovered]) + (Does(p, [StartRun(token), CheckRun(token), MakeRun(token)]) + Ending(p, token)))
  }

  /** In any reachable world with an empty root and no lease, a host can open the workspace, make
      a run, end it and close, and the world is as before but for one used inode. */
  lemma LifeLeavesNothing(actions: seq<Action>, p: Process, token: nat)
    requires var w := Exec(INITIAL, actions); w.lease.None? && !w.residue && p !in w.procs
    ensures var w := Exec(INITIAL, actions);
      Exec(INITIAL, actions + Life(p, token)) == w.(next := w.next + 1, written := w.written + {w.next})
  {
    hide Exec, Inv, Next, Leave, TakeOver, Does;
    var w := Exec(INITIAL, actions);
    var i := w.next;
    RunKeepsInv(actions);
    EmptyRootIsTaken(actions, p);
    ExecConcat(INITIAL, actions, Life(p, token));
    ExecConcat(INITIAL, actions, TakeOver(p));
    var rest := Does(p, [StartRun(token), CheckRun(token), MakeRun(token)]) + Ending(p, token);
    ExecConcat(w, TakeOver(p), Does(p, [Clear, Recovered]) + rest);
    var w1 := Exec(w, TakeOver(p));
    ExecConcat(w1, Does(p, [Clear, Recovered]), rest);
    RecoversExactly(w1, p, i);
    var v := World(Some(i), i + 1, w.written + {i}, false, w.locks[i := p], w.procs);
    GotoTwice(v, p, JustAcquired(i), Ready(i));
    ExecKeepsInv(w, TakeOver(p));
    ExecKeepsInv(w1, Does(p, [Clear, Recovered]));
    RunAndEnd(v, p, i, token);
    GivesBack(w, p, i);
  }

  function Ending(p: Process, token: nat): seq<Action> {
    Does(p, [EndRun(token, true)]) + Does(p, CLOSE)
  }

  /** From the recovered holder of an empty root to the end of its life. */
  lemma RunAndEnd(v: World, p: Process, i: Inode, token: nat)
    requires Inv(Goto(v, p, Ready(i))) && v.lease == Some(i) && !v.residue
    ensures Exec(Goto(v, p, Ready(i)), Does(p, [StartRun(token), CheckRun(token), MakeRun(token)]) + Ending(p, token))
      == Leave(v.(lease := None), p)
  {
    hide Exec, Inv, Next, Leave, Does;
    var ready := Goto(v, p, Ready(i));
    ExecConcat(ready, Does(p, [StartRun(token), CheckRun(token), MakeRun(token)]), Ending(p, token));
    RunIsMadeExactly(ready, p, token);
    assert {} + {token} == {token} && {token} - {token} == {} && {} - {token} == {};
    var made := Holding(i, false, Workspace({token}, false), {}, {token}, NotRemoving);
    var w3 := Goto(v.(residue := true), p, made);
    GotoTwice(v.(residue := true), p, Ready(i), made);
    ExecConcat(w3, Does(p, [EndRun(token, true)]), Does(p, CLOSE));
    RunEndsExactly(w3, p, token, true);
    GotoTwice(v, p, made, Ready(i));
    ClosesExactly(ready, p);
    LeavesLikewise(v.(lease := None), p, Ready(i));
  }

  lemma GivesBack(w: World, p: Process, i: Inode)
    requires Inv(w) && p !in w.procs && i == w.next && w.lease.None? && !w.residue
    ensures Leave(World(None, i + 1, w.written + {i}, false, w.locks[i := p], w.procs), p)
      == w.(next := i + 1, written := w.written + {i})
  {
    hide Inv;
    NoLocks(w, p);
    LocksAreOld(w);
  }
}
