/** Names left with a second link by a failed deletion stay where they are. */
module CurrentRunLinks {
  import opened Basics
  import opened CurrentRunTree
  import opened CurrentRunShape
  import opened CurrentRunCleanup
  import opened CurrentRunInvariant
  import opened CurrentRunClaims
  import opened CurrentRunRestores

  lemma LeftStays(w: World, v: World, r: string)
    requires LeftInv(w) && v.left == w.left
    requires forall q :: q in w.left ==> SameEntry(w.tree, v.tree, q)
    requires forall s :: s != r ==> StageOf(v, s) == StageOf(w, s)
    requires r in v.stages ==> Clear(v.left, v.stages[r])
    ensures LeftInv(v)
  {
    hide Clear, LeftAt;
    forall q | q in v.left ensures LeftAt(v.tree, q) {
      LeftFrame(w.tree, v.tree, q);
    }
    forall s | s in v.stages ensures Clear(v.left, v.stages[s]) {
      if s != r { assert StageOf(v, s) == StageOf(w, s); }
    }
  }

  lemma LeftFrame(t: Tree, u: Tree, q: Path)
    requires LeftAt(t, q) && SameEntry(t, u, q)
    ensures LeftAt(u, q)
  {
  }

  lemma BeginIsClear(w: World, p: Path)
    requires Sound(w.tree) && LeftInv(w) && p in w.tree && Deletable(p, w.tree[p]) && Children(w.tree, p) == {}
    ensures Clear(w.left, Intent(p))
  {
    hide Sound, Children, Clear;
    BarrenEntry(w.tree, p);
    forall q | q in w.left ensures !(p <= q) {
      assert LeftAt(w.tree, q);
      assert q in Remove(w.tree, p);
      NotAtOrBelow(w.tree, p, q);
    }
    ClearFrom(w.left, p);
  }

  lemma ClearFrom(left: set<Path>, p: Path)
    requires forall q :: q in left ==> !(p <= q)
    ensures Clear(left, Intent(p))
  {
  }

  lemma MoveKeepsLeft(t: Tree, src: Path, dst: Path, q: Path)
    requires MoveFits(t, src, dst) && q in t && !(src <= q)
    ensures SameEntry(t, Move(t, src, dst), q) && !(dst <= q)
  {
    MoveContents(t, src, dst, q);
  }

  lemma RenameKeepsLeft(w: World, r: string)
    requires Inv(w) && LeftInv(w) && r in w.stages && w.stages[r].Claimed? && w.stages[r].path in w.tree
    ensures LeftInv(Deleting(w, r, Rename))
  {
    hide Sound, StagesInv, MoveFits, Move;
    var p, claim := w.stages[r].path, w.stages[r].claim;
    StageAt(w, r);
    EntryMoves(w.tree, r, p, claim);
    forall q | q in w.left ensures SameEntry(w.tree, Move(w.tree, p, claim + [ENTRY]), q) && !(claim + [ENTRY] <= q) {
      assert LeftAt(w.tree, q);
      MoveKeepsLeft(w.tree, p, claim + [ENTRY], q);
    }
    LeftStays(w, Deleting(w, r, Rename), r);
  }

  lemma RestoreKeepsLeft(w: World, r: string)
    requires Inv(w) && LeftInv(w) && r in w.stages && w.stages[r].Moved?
    ensures LeftInv(Restore(w, r, w.stages[r].path, w.stages[r].claim))
  {
    hide Sound, StagesInv, MoveFits, Move;
    var p, claim := w.stages[r].path, w.stages[r].claim;
    var entry := claim + [ENTRY];
    StageAt(w, r);
    if !(p in w.tree || p == [] || !IsDirectory(w.tree, Parent(p))) {
      EntryReturns(w.tree, r, p, claim);
      forall q | q in w.left ensures q != p && q != entry && SameEntry(w.tree, Move(w.tree, entry, p), q) {
        assert LeftAt(w.tree, q);
        MoveKeepsLeft(w.tree, entry, p, q);
      }
    }
    LeftStays(w, Restore(w, r, p, claim), r);
  }

  lemma FailedRestoreKeepsLeft(w: World, r: string)
    requires Inv(w) && LeftInv(w) && r in w.stages && w.stages[r].Restoring?
    ensures LeftInv(Deleting(w, r, Fail))
  {
    hide Sound, StagesInv, LinkInv, Clear;
    var v := Deleting(w, r, Fail);
    StageAt(w, r);
    assert Clear(v.left, v.stages[r]) by { ClearClaim(v.left, w.stages[r].claim); }
    forall s | s in v.stages && s != r ensures Clear(v.left, v.stages[s]) {
      OthersStayClear(w, r, s);
    }
  }

  lemma ClearClaim(left: set<Path>, claim: Path)
    ensures Clear(left, Emptying(claim))
  {
  }

  lemma ClearWith(left: set<Path>, extra: set<Path>, s: string, stage: Stage)
    requires Clear(left, stage) && forall q :: q in extra ==> q != [] && q[0] !in RootNames(s, Some(stage))
    requires !stage.Emptying? ==> stage.path != [] && stage.path[0] == s
    requires !stage.Intent? ==> stage.claim != [] && stage.claim[0] in RootNames(s, Some(stage))
    ensures Clear(left + extra, stage)
  {
    if !stage.Intent? { assert (stage.claim + [ENTRY])[0] == stage.claim[0]; }
  }

  lemma OthersStayClear(w: World, r: string, s: string)
    requires Inv(w) && LeftInv(w) && r in w.stages && w.stages[r].Restoring? && s in w.stages && s != r
    ensures Clear(w.left + {w.stages[r].path, w.stages[r].claim + [ENTRY]}, w.stages[s])
  {
    hide Sound, StagesInv, LinkInv, Clear, LeftAt, RootNames;
    var p, claim := w.stages[r].path, w.stages[r].claim;
    StageAt(w, r);
    StageAt(w, s);
    NamesApart(w, r, s);
    TwinName(w, r, p);
    TwinName(w, r, claim + [ENTRY]);
    if !w.stages[s].Intent? { ClaimHome(w.tree, s, w.stages[s]); }
    ClearWith(w.left, {p, claim + [ENTRY]}, s, w.stages[s]);
  }

  lemma ClaimingKeepsLeft(w: World, r: string, step: Step)
    requires LeftInv(w) && r in w.stages && w.stages[r].Intent?
    ensures LeftInv(Deleting(w, r, step))
  {
    LeftStays(w, Deleting(w, r, step), r);
  }

  lemma EmptyingKeepsLeft(w: World, r: string, claim: Path)
    requires LeftInv(w) && r in w.stages
    ensures LeftInv(At(w, r, w.tree, Emptying(claim))) && LeftInv(Idle(w, r, w.tree))
  {
    LeftStays(w, At(w, r, w.tree, Emptying(claim)), r);
    LeftStays(w, Idle(w, r, w.tree), r);
  }

  lemma RemovalKeepsLeft(w: World, r: string, p: Path, claim: Path)
    requires LeftInv(w) && r in w.stages && p !in w.left
    ensures LeftInv(At(w, r, Remove(w.tree, p), Emptying(claim))) && LeftInv(Idle(w, r, Remove(w.tree, p)))
  {
    LeftStays(w, At(w, r, Remove(w.tree, p), Emptying(claim)), r);
    LeftStays(w, Idle(w, r, Remove(w.tree, p)), r);
  }

  lemma RestoredKeepsLeft(w: World, r: string, p: Path, entry: Path, claim: Path)
    requires LeftInv(w) && r in w.stages && p !in w.left && entry !in w.left
    ensures LeftInv(At(w, r, Put(Remove(w.tree, entry), p, File(1)), Emptying(claim)))
  {
    LeftStays(w, At(w, r, Put(Remove(w.tree, entry), p, File(1)), Emptying(claim)), r);
  }

  lemma ClearEntry(left: set<Path>, stage: Stage)
    requires Clear(left, stage)
    ensures stage.Moved? || stage.Restoring? ==> stage.claim + [ENTRY] !in left
    ensures stage.Restoring? ==> stage.path !in left
  {
  }

  lemma DeletingKeepsLeft(w: World, r: string, step: Step)
    requires Inv(w) && LeftInv(w) && r in w.stages
    ensures LeftInv(Deleting(w, r, step))
  {
    hide Inv, LeftInv, Move, Restore, CleanupSegment, Children, Clear, StageInv;
    LeftThere(w);
    ClearEntry(w.left, w.stages[r]);
    match (w.stages[r], step) {
      case (Intent(_), _) => ClaimingKeepsLeft(w, r, step);
      case (Claimed(p, claim), Rename) =>
        if p in w.tree { RenameKeepsLeft(w, r); } else { EmptyingKeepsLeft(w, r, claim); }
      case (Claimed(_, claim), Fail) => EmptyingKeepsLeft(w, r, claim);
      case (Moved(p, claim), Delete) =>
        RestoreKeepsLeft(w, r);
        RemovalKeepsLeft(w, r, claim + [ENTRY], claim);
      case (Moved(p, claim), Fail) => RestoreKeepsLeft(w, r);
      case (Restoring(p, claim), EndRestore) => RestoredKeepsLeft(w, r, p, claim + [ENTRY], claim);
      case (Restoring(p, claim), Fail) => FailedRestoreKeepsLeft(w, r);
      case (Emptying(claim), RemoveClaim) =>
        EmptyingKeepsLeft(w, r, claim);
        ClaimIsNotLeft(w, r);
        RemovalKeepsLeft(w, r, claim, claim);
      case (Emptying(claim), Fail) => EmptyingKeepsLeft(w, r, claim);
      case _ =>
    }
  }

  lemma ClaimIsNotLeft(w: World, r: string)
    requires Inv(w) && LeftInv(w) && r in w.stages && w.stages[r].Emptying?
    ensures w.stages[r].claim !in w.left
  {
    hide Sound, StagesInv, LinkInv, Clear;
    StageAt(w, r);
    assert w.stages[r].claim in w.left ==> LeftAt(w.tree, w.stages[r].claim);
  }

  lemma NextKeepsLeft(w: World, a: Action)
    requires Inv(w) && LeftInv(w)
    ensures LeftInv(Next(w, a))
  {
    hide Inv, Sound, Deleting, LeftInv, Clear, Children;
    var r := a.run;
    LeftThere(w);
    match a.step {
      case MakeRun => LeftStays(w, Next(w, a), r);
      case MakePayload(_) => LeftStays(w, Next(w, a), r);
      case WriteFile(_, _) => LeftStays(w, Next(w, a), r);
      case DropFile(_, _) => LeftStays(w, Next(w, a), r);
      case Begin(p) =>
        if r !in w.stages && p in w.tree && Deletable(p, w.tree[p]) && Children(w.tree, p) == {} {
          InvSound(w);
          BeginIsClear(w, p);
          LeftStays(w, At(w, r, w.tree, Intent(p)), r);
        }
      case _ => if r in w.stages { DeletingKeepsLeft(w, r, a.step); }
    }
  }
}
