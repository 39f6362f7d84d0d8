/** What cleanup's detour through a claim comes to when nothing comes between: the entry is
    deleted and nothing else, or, when the deletion fails, everything is as it was. */
module CurrentRunSweep {
  import opened CurrentRunTree
  import opened CurrentRunCleanup

  function Does(run: string, steps: seq<Step>): seq<Action> {
    seq(|steps|, i requires 0 <= i < |steps| => Action(run, steps[i]))
  }

  lemma DoesMore(w: World, run: string, steps: seq<Step>, step: Step)
    ensures Exec(w, Does(run, steps + [step])) == Next(Exec(w, Does(run, steps)), Action(run, step))
  {
    var actions := Does(run, steps + [step]);
    assert actions[..|actions| - 1] == Does(run, steps);
  }

  /** A run, one of its two directories, or an entry of one: what cleanup takes away. */
  predicate OfRun(run: string, p: Path) {
    || p == [run]
    || p == [run, "attachments"] || p == [run, "outbound"]
    || (|p| == 3 && (p[..2] == [run, "attachments"] || p[..2] == [run, "outbound"]))
  }

  /** Nobody cleans the run up, and `p` is an entry of it that can be deleted: a plain file with
      one link below its directories, or an empty directory. */
  ghost predicate CanSweep(w: World, run: string, p: Path) {
    && IsTree(w.tree) && RunSegment(run) && run !in w.stages && OfRun(run, p) && p in w.tree
    && w.tree[p] == (if |p| == 3 then File(1) else Directory) && Below(w.tree, p) == {}
  }

  /** A cleanup name beside `p` that nothing in the tree has. */
  ghost predicate FreeName(t: Tree, p: Path, uuid: string) {
    p != [] && CleanupSegment(uuid) && FreshClaim(t, p, Parent(p) + [uuid])
  }

  lemma OfRunIsMine(run: string, p: Path)
    ensures OfRun(run, p) <==> Mine(run, p)
  {
    if |p| == 3 { assert p[..2][0] == p[0] && p[..2][1] == p[1] && p[..2] == [p[0], p[1]]; }
    if |p| == 2 { assert p == [p[0], p[1]]; }
    if |p| == 1 { assert p == [p[0]]; }
  }

  lemma ChildIsBelow(t: Tree, p: Path, n: string)
    requires n in Children(t, p)
    ensures p + [n] in Below(t, p)
  {
    ChildIsEntry(t, p, n);
  }

  lemma NoChildren(t: Tree, p: Path)
    requires Below(t, p) == {}
    ensures Children(t, p) == {}
  {
    if Children(t, p) != {} {
      var n :| n in Children(t, p);
      ChildIsBelow(t, p, n);
    }
  }

  function Claim(p: Path, uuid: string): Path
    requires p != []
  {
    Parent(p) + [uuid]
  }

  /** The tree with the entry in the claim. */
  function Taken(t: Tree, p: Path, uuid: string): Tree
    requires p != []
  {
    Move(Put(t, Claim(p, uuid), Directory), p, Claim(p, uuid) + [ENTRY])
  }

  lemma Begins(w: World, run: string, p: Path)
    requires CanSweep(w, run, p)
    ensures Next(w, Action(run, Begin(p))) == w.(stages := w.stages[run := Intent(p)])
  {
    hide RunSegment, Mine, OfRun;
    OfRunIsMine(run, p);
    NoChildren(w.tree, p);
  }

  lemma MakesClaim(w: World, run: string, p: Path, uuid: string)
    requires RunSegment(run) && run in w.stages && w.stages[run] == Intent(p)
    requires IsTree(w.tree) && p in w.tree && FreeName(w.tree, p, uuid)
    ensures Next(w, Action(run, MakeClaim(uuid))) == w.(
      tree := Put(w.tree, Claim(p, uuid), Directory), stages := w.stages[run := Claimed(p, Claim(p, uuid))])
  {
    hide RunSegment, CleanupSegment;
    assert IsDirectory(w.tree, Parent(p)) && Claim(p, uuid) !in w.tree;
  }

  lemma Renames(w: World, run: string, p: Path, claim: Path)
    requires RunSegment(run) && run in w.stages && w.stages[run] == Claimed(p, claim) && p in w.tree
    ensures Next(w, Action(run, Rename))
      == w.(tree := Move(w.tree, p, claim + [ENTRY]), stages := w.stages[run := Moved(p, claim)])
  {
    hide RunSegment, CleanupSegment, Move;
  }

  /** The first three steps: begin, make the claim, rename the entry into it. */
  lemma TakesEntry(w: World, run: string, p: Path, uuid: string)
    requires CanSweep(w, run, p) && FreeName(w.tree, p, uuid)
    ensures Exec(w, Does(run, [Begin(p), MakeClaim(uuid), Rename]))
      == w.(tree := Taken(w.tree, p, uuid), stages := w.stages[run := Moved(p, Claim(p, uuid))])
  {
    hide Exec, Next, Move, OfRun, CleanupSegment, RunSegment, IsTree;
    var claim := Claim(p, uuid);
    var w1 := w.(stages := w.stages[run := Intent(p)]);
    var w2 := w.(tree := Put(w.tree, claim, Directory), stages := w.stages[run := Claimed(p, claim)]);
    DoesMore(w, run, [], Begin(p));
    NothingDone(w, run);
    assert [] + [Begin(p)] == [Begin(p)];
    Begins(w, run, p);
    DoesMore(w, run, [Begin(p)], MakeClaim(uuid));
    assert [Begin(p)] + [MakeClaim(uuid)] == [Begin(p), MakeClaim(uuid)];
    MakesClaim(w1, run, p, uuid);
    assert w1.stages[run := Claimed(p, claim)] == w2.stages;
    DoesMore(w, run, [Begin(p), MakeClaim(uuid)], Rename);
    assert [Begin(p), MakeClaim(uuid)] + [Rename] == [Begin(p), MakeClaim(uuid), Rename];
    Renames(w2, run, p, claim);
    assert w2.stages[run := Moved(p, claim)] == w.stages[run := Moved(p, claim)];
  }

  lemma NothingDone(w: World, run: string)
    ensures Exec(w, Does(run, [])) == w
  {
  }

  // ---------- what the tree is then ----------

  lemma OnlyItself(t: Tree, p: Path, rest: Path)
    requires Below(t, p) == {}
    ensures p + rest in t ==> rest == []
    ensures forall q :: q in t && p <= q ==> q == p
  {
    assert rest != [] ==> p < p + rest;
    assert p + rest !in Below(t, p);
    forall q | q in t && p <= q ensures q == p { assert q !in Below(t, p); }
  }

  lemma MoveAloneAt(t: Tree, src: Path, dst: Path, q: Path)
    requires CanMove(t, src, dst) && Below(t, src) == {}
    ensures q in Move(t, src, dst) <==> q == dst || (q in t && q != src)
    ensures q in Move(t, src, dst) ==> Move(t, src, dst)[q] == if q == dst then t[src] else t[q]
  {
    hide Move;
    MoveContents(t, src, dst, q);
    if dst <= q {
      OnlyItself(t, src, q[|dst|..]);
      assert q == dst + q[|dst|..];
      assert q == dst ==> src + q[|dst|..] == src;
    } else {
      OnlyItself(t, src, []);
    }
  }

  /** Renaming an entry with nothing below it. */
  lemma MoveAlone(t: Tree, src: Path, dst: Path)
    requires CanMove(t, src, dst) && Below(t, src) == {}
    ensures Move(t, src, dst) == Remove(t, src)[dst := t[src]]
  {
    hide Move;
    forall q ensures q in Move(t, src, dst) <==> q == dst || (q in t && q != src) { MoveAloneAt(t, src, dst, q); }
    forall q | q in Move(t, src, dst) ensures Move(t, src, dst)[q] == if q == dst then t[src] else t[q] {
      MoveAloneAt(t, src, dst, q);
    }
  }

  lemma ClaimIsBeside(t: Tree, p: Path, claim: Path)
    requires FreshClaim(t, p, claim) && Below(t, p) == {}
    ensures Below(Put(t, claim, Directory), p) == {}
    ensures claim != p && claim + [ENTRY] != p && claim !in t && claim + [ENTRY] !in t && claim + [ENTRY] != claim
  {
    assert claim <= claim + [ENTRY];
    assert !(p < claim);
    forall q ensures q !in Below(Put(t, claim, Directory), p) { assert q !in Below(t, p); }
  }

  /** In the claim: the entry is there instead of in its place, and nothing else is. */
  lemma TakenIs(t: Tree, p: Path, uuid: string)
    requires p in t && FreeName(t, p, uuid) && Below(t, p) == {}
    ensures var claim := Claim(p, uuid);
      Taken(t, p, uuid) == Remove(t, p)[claim := Directory][claim + [ENTRY] := t[p]]
  {
    hide Move, CleanupSegment;
    var claim := Claim(p, uuid);
    var e, u := claim + [ENTRY], Put(t, claim, Directory);
    ClaimApart(t, p, claim);
    ClaimIsBeside(t, p, claim);
    MoveAlone(u, p, e);
    assert Remove(u, p)[e := u[p]] == Remove(t, p)[claim := Directory][e := t[p]];
  }

  // ---------- deleting ----------

  /** A run's entry that can be deleted is deleted by the five steps of the detour, whatever else
      is in the root and whatever other runs are doing; nothing else changes. */
  lemma SweepsExactly(w: World, run: string, p: Path, uuid: string)
    requires CanSweep(w, run, p) && FreeName(w.tree, p, uuid)
    ensures Exec(w, Does(run, [Begin(p), MakeClaim(uuid), Rename, Delete, RemoveClaim]))
      == w.(tree := map q | q in w.tree && q != p :: w.tree[q])
  {
    hide Exec, Next, CanSweep, FreeName, Taken;
    var steps := [Begin(p), MakeClaim(uuid), Rename];
    TakesEntry(w, run, p, uuid);
    DoesMore(w, run, steps, Delete);
    DoesMore(w, run, steps + [Delete], RemoveClaim);
    assert steps + [Delete] + [RemoveClaim] == [Begin(p), MakeClaim(uuid), Rename, Delete, RemoveClaim];
    Deletes(w, run, p, uuid);
  }

  lemma DeletesEntry(w: World, run: string, p: Path, claim: Path)
    requires RunSegment(run) && run in w.stages && w.stages[run] == Moved(p, claim)
    requires claim + [ENTRY] in w.tree && Children(w.tree, claim + [ENTRY]) == {}
    ensures Next(w, Action(run, Delete))
      == w.(tree := Remove(w.tree, claim + [ENTRY]), stages := w.stages[run := Emptying(claim)])
  {
    hide RunSegment, Children, Restore;
  }

  lemma RemovesClaim(w: World, run: string, claim: Path)
    requires RunSegment(run) && run in w.stages && w.stages[run] == Emptying(claim) && Children(w.tree, claim) == {}
    ensures Next(w, Action(run, RemoveClaim)) == w.(tree := Remove(w.tree, claim), stages := w.stages - {run})
  {
    hide RunSegment, Children;
  }

  function Without(t: Tree, p: Path): Tree {
    map q | q in t && q != p :: t[q]
  }

  /** The trees after the deletion in the claim and after that of the claim. */
  lemma EmptiedTrees(t: Tree, p: Path, uuid: string)
    requires p in t && FreeName(t, p, uuid) && Below(t, p) == {}
    ensures var claim, taken := Claim(p, uuid), Taken(t, p, uuid);
      && claim + [ENTRY] in taken && Children(taken, claim + [ENTRY]) == {}
      && Children(Remove(taken, claim + [ENTRY]), claim) == {}
      && Remove(Remove(taken, claim + [ENTRY]), claim) == Without(t, p)
  {
    hide Move, CleanupSegment, Children, Below;
    var claim := Claim(p, uuid);
    var e := claim + [ENTRY];
    TakenIs(t, p, uuid);
    ClaimIsBeside(t, p, claim);
    var t2 := Remove(t, p)[claim := Directory];
    NoneBelow(t2[e := t[p]], e, t, p, claim);
    assert Remove(t2[e := t[p]], e) == t2;
    ClaimEmpty(t, p, claim);
    assert Remove(t2, claim) == Without(t, p);
  }

  lemma Deletes(w: World, run: string, p: Path, uuid: string)
    requires CanSweep(w, run, p) && FreeName(w.tree, p, uuid)
    ensures var claim := Claim(p, uuid);
      var u := w.(tree := Taken(w.tree, p, uuid), stages := w.stages[run := Moved(p, claim)]);
      Next(Next(u, Action(run, Delete)), Action(run, RemoveClaim)) == w.(tree := Without(w.tree, p))
  {
    hide Taken, CleanupSegment, FreshClaim, RunSegment, OfRun, IsTree, Next, Children, Remove, Without;
    var claim := Claim(p, uuid);
    EmptiedTrees(w.tree, p, uuid);
    var u := w.(tree := Taken(w.tree, p, uuid), stages := w.stages[run := Moved(p, claim)]);
    DeletesEntry(u, run, p, claim);
    var v := w.(tree := Remove(u.tree, claim + [ENTRY]), stages := w.stages[run := Emptying(claim)]);
    assert u.stages[run := Emptying(claim)] == v.stages;
    RemovesClaim(v, run, claim);
    assert v.stages - {run} == w.stages;
  }

  lemma NoneBelow(t1: Tree, e: Path, t: Tree, p: Path, claim: Path)
    requires p in t && FreshClaim(t, p, claim) && e == claim + [ENTRY]
    requires t1 == Remove(t, p)[claim := Directory][e := t[p]]
    ensures Children(t1, e) == {}
  {
    forall q ensures q !in Below(t1, e) {
      assert claim <= e;
      assert q in t && e < q ==> claim <= q;
    }
    NoChildren(t1, e);
  }

  lemma ClaimEmpty(t: Tree, p: Path, claim: Path)
    requires FreshClaim(t, p, claim)
    ensures Children(Remove(t, p)[claim := Directory], claim) == {}
  {
    var u := Remove(t, p)[claim := Directory];
    forall q ensures q !in Below(u, claim) { assert q in t ==> !(claim <= q); }
    NoChildren(u, claim);
  }

  // ---------- putting back ----------

  lemma FreeAgain(t: Tree, p: Path, uuid: string)
    requires IsTree(t) && p in t && FreeName(t, p, uuid) && Below(t, p) == {}
    ensures var claim, taken := Claim(p, uuid), Taken(t, p, uuid);
      && claim + [ENTRY] in taken && taken[claim + [ENTRY]] == t[p]
      && p !in taken && IsDirectory(taken, Parent(p))
  {
    hide Move, CleanupSegment, Children, Taken;
    var claim := Claim(p, uuid);
    TakenIs(t, p, uuid);
    ClaimIsBeside(t, p, claim);
    assert IsDirectory(t, Parent(p)) && |Parent(p)| < |p| == |claim| < |claim + [ENTRY]|;
  }

  lemma BackInPlace(t: Tree, p: Path, uuid: string)
    requires p in t && FreeName(t, p, uuid) && Below(t, p) == {}
    ensures var claim, taken := Claim(p, uuid), Taken(t, p, uuid);
      && Move(taken, claim + [ENTRY], p) == t[claim := Directory]
      && (t[p] == File(1) ==>
        Put(Remove(CurrentRunCleanup.Linked(taken, p, claim + [ENTRY]), claim + [ENTRY]), p, File(1))
        == t[claim := Directory])
      && Children(t[claim := Directory], claim) == {} && Remove(t[claim := Directory], claim) == t
  {
    hide Move, CleanupSegment, Children;
    var claim, taken := Claim(p, uuid), Taken(t, p, uuid);
    TakenIs(t, p, uuid);
    ClaimIsBeside(t, p, claim);
    MovesBack(t, p, claim, taken);
    NothingInClaim(t, p, claim);
  }

  lemma NothingInClaim(t: Tree, p: Path, claim: Path)
    requires FreshClaim(t, p, claim)
    ensures Children(t[claim := Directory], claim) == {}
  {
    var u := t[claim := Directory];
    forall q ensures q !in Below(u, claim) { assert q in t ==> !(claim <= q); }
    NoChildren(u, claim);
  }

  lemma MovesBack(t: Tree, p: Path, claim: Path, taken: Tree)
    requires p in t && FreshClaim(t, p, claim) && Below(t, p) == {}
    requires taken == Remove(t, p)[claim := Directory][claim + [ENTRY] := t[p]]
    ensures Move(taken, claim + [ENTRY], p) == t[claim := Directory]
  {
    hide Move;
    var e := claim + [ENTRY];
    ClaimIsBeside(t, p, claim);
    assert CanMove(taken, e, p) by {
      ExtendedPrefix(p, claim, ENTRY, e);
      assert |p| == |claim|;
      forall q | q in taken ensures !(p <= q) {
        OnlyItself(t, p, []);
        ExtendedPrefix(p, claim, ENTRY, q);
      }
    }
    NothingBelowEntry(t, p, claim, taken);
    MoveAlone(taken, e, p);
    assert Remove(taken, e)[p := taken[e]] == t[claim := Directory];
  }

  lemma NothingBelowEntry(t: Tree, p: Path, claim: Path, taken: Tree)
    requires p in t && FreshClaim(t, p, claim)
    requires taken == Remove(t, p)[claim := Directory][claim + [ENTRY] := t[p]]
    ensures Below(taken, claim + [ENTRY]) == {}
  {
    forall q ensures q !in Below(taken, claim + [ENTRY]) {
      assert claim <= claim + [ENTRY];
      assert q in t && claim + [ENTRY] < q ==> claim <= q;
    }
  }

  /** What the restore leaves: the entry under both names or back in its place, then in its place. */
  lemma Restores(w: World, run: string, p: Path, uuid: string)
    requires CanSweep(w, run, p) && FreeName(w.tree, p, uuid)
    ensures var claim := Claim(p, uuid);
      var u := w.(tree := Taken(w.tree, p, uuid), stages := w.stages[run := Moved(p, claim)]);
      Next(Next(u, Action(run, Fail)), Action(run, EndRestore))
      == w.(tree := w.tree[claim := Directory], stages := w.stages[run := Emptying(claim)])
  {
    hide Taken, CleanupSegment, FreshClaim, RunSegment, OfRun, IsTree, Next, Children, Remove, Move, Put,
      CurrentRunCleanup.Linked, Deleting;
    var claim, t, taken := Claim(p, uuid), w.tree, Taken(w.tree, p, uuid);
    var u := w.(tree := taken, stages := w.stages[run := Moved(p, claim)]);
    FreeAgain(t, p, uuid);
    BackInPlace(t, p, uuid);
    RestoreStarts(u, run, p, claim);
    if t[p] == File(1) {
      var linked := CurrentRunCleanup.Linked(taken, p, claim + [ENTRY]);
      var v := u.(tree := linked, stages := u.stages[run := Restoring(p, claim)]);
      RestoreEnds(v, run, p, claim);
      assert v.stages[run := Emptying(claim)] == w.stages[run := Emptying(claim)];
    } else {
      var v := u.(tree := t[claim := Directory], stages := u.stages[run := Emptying(claim)]);
      RestoreIsOver(v, run, claim);
      assert v.stages == w.stages[run := Emptying(claim)];
    }
  }

  lemma RestoreStarts(w: World, run: string, p: Path, claim: Path)
    requires RunSegment(run) && run in w.stages && w.stages[run] == Moved(p, claim)
    requires claim + [ENTRY] in w.tree && p !in w.tree && p != [] && IsDirectory(w.tree, Parent(p))
    ensures Next(w, Action(run, Fail)) ==
      if w.tree[claim + [ENTRY]].File?
      then w.(
        tree := CurrentRunCleanup.Linked(w.tree, p, claim + [ENTRY]), stages := w.stages[run := Restoring(p, claim)])
      else w.(tree := Move(w.tree, claim + [ENTRY], p), stages := w.stages[run := Emptying(claim)])
  {
    hide RunSegment, CurrentRunCleanup.Linked, Move;
  }

  lemma RestoreEnds(w: World, run: string, p: Path, claim: Path)
    requires RunSegment(run) && run in w.stages && w.stages[run] == Restoring(p, claim)
    ensures Next(w, Action(run, EndRestore))
      == w.(tree := Put(Remove(w.tree, claim + [ENTRY]), p, File(1)), stages := w.stages[run := Emptying(claim)])
  {
    hide RunSegment;
  }

  lemma RestoreIsOver(w: World, run: string, claim: Path)
    requires RunSegment(run) && run in w.stages && w.stages[run] == Emptying(claim)
    ensures Next(w, Action(run, EndRestore)) == w
  {
    hide RunSegment;
  }

  lemma RestoresAndClears(w: World, run: string, p: Path, uuid: string)
    requires CanSweep(w, run, p) && FreeName(w.tree, p, uuid)
    ensures var u := w.(tree := Taken(w.tree, p, uuid), stages := w.stages[run := Moved(p, Claim(p, uuid))]);
      Next(Next(Next(u, Action(run, Fail)), Action(run, EndRestore)), Action(run, RemoveClaim)) == w
  {
    hide Next, OfRun, IsTree, CleanupSegment, FreshClaim, RunSegment, Taken, Children, Remove, Move, Put, Below,
      CurrentRunCleanup.Linked;
    var claim := Claim(p, uuid);
    Restores(w, run, p, uuid);
    BackInPlace(w.tree, p, uuid);
    var v := w.(tree := w.tree[claim := Directory], stages := w.stages[run := Emptying(claim)]);
    RemovesClaim(v, run, claim);
    assert v.stages - {run} == w.stages;
  }

  /** A deletion that fails once the entry is in the claim puts the entry back, a file or a
      directory, and removes the claim: everything is as it was before. */
  lemma RefusedIsUndone(w: World, run: string, p: Path, uuid: string)
    requires CanSweep(w, run, p) && FreeName(w.tree, p, uuid)
    ensures Exec(w, Does(run, [Begin(p), MakeClaim(uuid), Rename, Fail, EndRestore, RemoveClaim])) == w
  {
    hide Exec, Next, CanSweep, FreeName, Taken;
    var steps := [Begin(p), MakeClaim(uuid), Rename];
    TakesEntry(w, run, p, uuid);
    DoesMore(w, run, steps, Fail);
    DoesMore(w, run, steps + [Fail], EndRestore);
    DoesMore(w, run, steps + [Fail] + [EndRestore], RemoveClaim);
    assert steps + [Fail] + [EndRestore] + [RemoveClaim]
      == [Begin(p), MakeClaim(uuid), Rename, Fail, EndRestore, RemoveClaim];
    RestoresAndClears(w, run, p, uuid);
  }

  // ---------- when the entry moves on its own ----------

  lemma ClaimMade(w: World, run: string, p: Path, uuid: string)
    requires CanSweep(w, run, p) && FreeName(w.tree, p, uuid)
    ensures Exec(w, Does(run, [Begin(p), MakeClaim(uuid)])) == w.(
      tree := w.tree[Claim(p, uuid) := Directory], stages := w.stages[run := Claimed(p, Claim(p, uuid))])
  {
    hide Exec, Next, OfRun, CleanupSegment, RunSegment, IsTree;
    var w1 := w.(stages := w.stages[run := Intent(p)]);
    DoesMore(w, run, [], Begin(p));
    NothingDone(w, run);
    assert [] + [Begin(p)] == [Begin(p)];
    Begins(w, run, p);
    DoesMore(w, run, [Begin(p)], MakeClaim(uuid));
    assert [Begin(p)] + [MakeClaim(uuid)] == [Begin(p), MakeClaim(uuid)];
    MakesClaim(w1, run, p, uuid);
    assert w1.stages[run := Claimed(p, Claim(p, uuid))] == w.stages[run := Claimed(p, Claim(p, uuid))];
  }

  lemma GivesUp(w: World, run: string, p: Path, claim: Path)
    requires RunSegment(run) && run in w.stages && w.stages[run] == Claimed(p, claim)
    ensures Next(w, Action(run, Fail)) == w.(stages := w.stages[run := Emptying(claim)])
    ensures p !in w.tree ==> Next(w, Action(run, Rename)) == w.(stages := w.stages[run := Emptying(claim)])
  {
    hide RunSegment, Move;
  }

  /** A deletion that is given up before the rename leaves all as it was, and one whose file its
      agent has removed in the meantime leaves all but the file: the claim goes either way. */
  lemma UnusedClaimGoes(w: World, run: string, p: Path, uuid: string)
    requires CanSweep(w, run, p) && FreeName(w.tree, p, uuid)
    ensures Exec(w, Does(run, [Begin(p), MakeClaim(uuid), Fail, RemoveClaim])) == w
    ensures |p| == 3 ==>
      Exec(w, Does(run, [Begin(p), MakeClaim(uuid), DropFile(p[1], p[2]), Rename, RemoveClaim]))
      == w.(tree := Without(w.tree, p))
  {
    hide Exec, Next, CanSweep, FreeName;
    var steps := [Begin(p), MakeClaim(uuid)];
    ClaimMade(w, run, p, uuid);
    DoesMore(w, run, steps, Fail);
    DoesMore(w, run, steps + [Fail], RemoveClaim);
    assert steps + [Fail] + [RemoveClaim] == [Begin(p), MakeClaim(uuid), Fail, RemoveClaim];
    GivenUp(w, run, p, uuid);
    if |p| == 3 {
      var drop := DropFile(p[1], p[2]);
      DoesMore(w, run, steps, drop);
      DoesMore(w, run, steps + [drop], Rename);
      DoesMore(w, run, steps + [drop] + [Rename], RemoveClaim);
      assert steps + [drop] + [Rename] + [RemoveClaim] == [Begin(p), MakeClaim(uuid), drop, Rename, RemoveClaim];
      DroppedMeanwhile(w, run, p, uuid);
    }
  }

  lemma ClaimTrees(t: Tree, p: Path, uuid: string)
    requires p in t && FreeName(t, p, uuid) && Below(t, p) == {}
    ensures var claim := Claim(p, uuid);
      && Remove(t[claim := Directory], claim) == t && Children(t[claim := Directory], claim) == {}
      && p in t[claim := Directory] && t[claim := Directory][p] == t[p]
      && var u := t[claim := Directory] - {p};
        Remove(u, claim) == Without(t, p) && Children(u, claim) == {} && p !in u
  {
    hide CleanupSegment, Children;
    var claim := Claim(p, uuid);
    ClaimIsBeside(t, p, claim);
    NothingInClaim(t, p, claim);
    ClaimEmpty(t, p, claim);
    assert t[claim := Directory] - {p} == Remove(t, p)[claim := Directory];
  }

  lemma GivenUp(w: World, run: string, p: Path, uuid: string)
    requires CanSweep(w, run, p) && FreeName(w.tree, p, uuid)
    ensures var claim := Claim(p, uuid);
      var u := w.(tree := w.tree[claim := Directory], stages := w.stages[run := Claimed(p, claim)]);
      Next(Next(u, Action(run, Fail)), Action(run, RemoveClaim)) == w
  {
    hide Next, OfRun, CleanupSegment, RunSegment, IsTree, Children, FreshClaim, Remove, Without, Below;
    var claim := Claim(p, uuid);
    var u := w.(tree := w.tree[claim := Directory], stages := w.stages[run := Claimed(p, claim)]);
    ClaimTrees(w.tree, p, uuid);
    GivesUp(u, run, p, claim);
    RemovesClaim(u.(stages := u.stages[run := Emptying(claim)]), run, claim);
    assert u.stages[run := Emptying(claim)] - {run} == w.stages;
  }

  lemma DroppedMeanwhile(w: World, run: string, p: Path, uuid: string)
    requires CanSweep(w, run, p) && FreeName(w.tree, p, uuid) && |p| == 3
    ensures var claim := Claim(p, uuid);
      var u := w.(tree := w.tree[claim := Directory], stages := w.stages[run := Claimed(p, claim)]);
      Next(Next(Next(u, Action(run, DropFile(p[1], p[2]))), Action(run, Rename)), Action(run, RemoveClaim))
      == w.(tree := Without(w.tree, p))
  {
    hide Next, OfRun, CleanupSegment, RunSegment, IsTree, Children, FreshClaim, Remove, Without, Below;
    var claim := Claim(p, uuid);
    var u := w.(tree := w.tree[claim := Directory], stages := w.stages[run := Claimed(p, claim)]);
    ClaimTrees(w.tree, p, uuid);
    FileParts(run, p);
    DropsFile(u, run, p[1], p[2]);
    var v := u.(tree := u.tree - {p});
    GivesUp(v, run, p, claim);
    RemovesClaim(v.(stages := v.stages[run := Emptying(claim)]), run, claim);
    assert v.stages[run := Emptying(claim)] - {run} == w.stages;
  }

  lemma FileParts(run: string, p: Path)
    requires OfRun(run, p) && |p| == 3
    ensures p == [run, p[1], p[2]] && p[1] in {"attachments", "outbound"}
  {
    assert p[..2][0] == p[0] && p[..2][1] == p[1];
  }

  lemma DropsFile(w: World, run: string, payload: string, name: string)
    requires RunSegment(run) && payload in {"attachments", "outbound"}
    ensures var p := [run, payload, name];
      Next(w, Action(run, DropFile(payload, name)))
      == if p in w.tree && w.tree[p] == File(1) then w.(tree := w.tree - {p}) else w
  {
    hide RunSegment;
  }

  /** When another file has taken the entry's place, a deletion that fails touches neither: the
      entry stays in its claim, and the claim stays with it. */
  lemma TakenPlaceKeepsBoth(w: World, run: string, p: Path, claim: Path)
    requires RunSegment(run) && run in w.stages && w.stages[run] == Moved(p, claim)
    requires claim + [ENTRY] in w.tree && p in w.tree
    ensures Next(Next(w, Action(run, Fail)), Action(run, RemoveClaim)) == w.(stages := w.stages - {run})
  {
    hide RunSegment, Move;
    ChildIsEntry(w.tree, claim, ENTRY);
    assert ENTRY in Children(w.tree, claim);
    assert w.stages[run := Emptying(claim)] - {run} == w.stages - {run};
  }

  // ---------- making and dropping ----------

  lemma MakesDirectory(w: World, run: string, name: string)
    requires RunSegment(run)
    ensures IsDirectory(w.tree, []) && [run] !in w.tree ==>
      Next(w, Action(run, MakeRun)) == w.(tree := w.tree[[run] := Directory])
    ensures name in {"attachments", "outbound"} && IsDirectory(w.tree, [run]) && [run, name] !in w.tree ==>
      Next(w, Action(run, MakePayload(name))) == w.(tree := w.tree[[run, name] := Directory])
  {
    hide RunSegment;
    assert Parent([run]) == [] && Parent([run, name]) == [run];
  }

  /** A new run in the root: its directory and the two it holds. */
  lemma MakesRunExactly(w: World, run: string)
    requires IsTree(w.tree) && RunSegment(run) && forall q :: q in w.tree ==> !([run] <= q)
    ensures Exec(w, Does(run, [MakeRun, MakePayload("attachments"), MakePayload("outbound")]))
      == w.(tree := w.tree[[run] := Directory][[run, "attachments"] := Directory][[run, "outbound"] := Directory])
  {
    hide Exec, RunSegment, IsTree, Next;
    var w1 := w.(tree := w.tree[[run] := Directory]);
    var w2 := w.(tree := w1.tree[[run, "attachments"] := Directory]);
    RootIsDirectory(w.tree);
    DoesMore(w, run, [], MakeRun);
    NothingDone(w, run);
    assert [] + [MakeRun] == [MakeRun];
    MakesDirectory(w, run, "");
    DoesMore(w, run, [MakeRun], MakePayload("attachments"));
    assert [MakeRun] + [MakePayload("attachments")] == [MakeRun, MakePayload("attachments")];
    assert [run] <= [run, "attachments"] && [run] <= [run, "outbound"];
    MakesDirectory(w1, run, "attachments");
    DoesMore(w, run, [MakeRun, MakePayload("attachments")], MakePayload("outbound"));
    assert [MakeRun, MakePayload("attachments")] + [MakePayload("outbound")]
      == [MakeRun, MakePayload("attachments"), MakePayload("outbound")];
    assert "attachments" != "outbound";
    MakesDirectory(w2, run, "outbound");
  }

  lemma RootIsDirectory(t: Tree)
    requires IsTree(t)
    ensures IsDirectory(t, [])
  {
  }

  /** An agent's file in one of the two directories is written once, and is gone when removed;
      what is there already is not touched, and what cleanup is just putting back stays. */
  lemma FilesComeAndGo(w: World, run: string, payload: string, name: string)
    requires RunSegment(run) && payload in {"attachments", "outbound"} && IsDirectory(w.tree, [run, payload])
    ensures var p := [run, payload, name];
      && Next(w, Action(run, WriteFile(payload, name))) == (if p in w.tree then w else w.(tree := w.tree[p := File(1)]))
      && Next(w, Action(run, DropFile(payload, name)))
        == if p in w.tree && w.tree[p] == File(1) then w.(tree := w.tree - {p}) else w
  {
    hide RunSegment, Next;
    WritesFile(w, run, payload, name);
    DropsFile(w, run, payload, name);
  }

  lemma WritesFile(w: World, run: string, payload: string, name: string)
    requires RunSegment(run) && payload in {"attachments", "outbound"} && IsDirectory(w.tree, [run, payload])
    ensures var p := [run, payload, name];
      Next(w, Action(run, WriteFile(payload, name))) == if p in w.tree then w else w.(tree := w.tree[p := File(1)])
  {
    hide RunSegment;
    assert Parent([run, payload, name]) == [run, payload];
  }
}
