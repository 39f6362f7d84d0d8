/** The steps on the way into a claim keep the invariant: creating, beginning, claiming,
    renaming and deleting an entry, and an agent that removes a file. */
module CurrentRunClaims {
  import opened Basics
  import opened CurrentRunTree
  import opened CurrentRunShape
  import opened CurrentRunCleanup
  import opened CurrentRunInvariant

  // ---------- creating and claiming ----------

  lemma CreateKeepsInv(w: World, r: string, p: Path, kind: Kind)
    requires Inv(w) && RunSegment(r) && Mine(r, p) && Deletable(p, kind)
    ensures Inv(Create(w, p, kind))
  {
    hide Sound, StagesInv, StageInv;
    var v := Create(w, p, kind);
    if v != w {
      MineSpots(w.tree, r, p);
      PutKeeps(w.tree, p, kind);
      SameStages(w, v, r);
      forall q | q in v.tree && q != [] && q[0] in Names(w, v, r)
        ensures OneLink(v, r, q)
      {
        if q != p { OwnLinks(w, r, q); assert Twin(w, r, q) ==> Twin(v, r, q); }
      }
      if r in w.stages { StageAt(w, r); CreateKeepsStage(w.tree, r, w.stages[r], p, kind); }
      LocalKeepsInv(w, v, r);
    }
  }

  lemma CreateKeepsStage(t: Tree, r: string, stage: Stage, p: Path, kind: Kind)
    requires Sound(t) && StageInv(t, r, stage) && RunSegment(r) && p !in t && Mine(r, p) && Deletable(p, kind)
    ensures StageInv(Put(t, p, kind), r, stage)
  {
    if stage.Claimed? {
      assert !(stage.claim < p) by { ClaimIsNotMine(stage.claim, stage.path, r, p); }
      assert Below(Put(t, p, kind), stage.claim) == Below(t, stage.claim);
    }
  }

  lemma ClaimIsNotMine(claim: Path, own: Path, r: string, p: Path)
    requires ClaimFor(claim, own) && Mine(r, own) && RunSegment(r) && Mine(r, p)
    ensures !(claim < p)
  {
  }

  lemma BeginKeepsInv(w: World, r: string, p: Path)
    requires Inv(w) && RunSegment(r) && r !in w.stages && Mine(r, p) && p in w.tree && Deletable(p, w.tree[p])
    ensures Inv(At(w, r, w.tree, Intent(p)))
  {
    hide Sound, StagesInv;
    var v := At(w, r, w.tree, Intent(p));
    StageLocal(w, v, r);
    forall q | q in v.tree && q != [] && q[0] in Names(w, v, r)
      ensures OneLink(v, r, q)
    { OwnLinks(w, r, q); }
    LocalKeepsInv(w, v, r);
  }

  lemma GiveUpKeepsInv(w: World, r: string)
    requires Inv(w) && r in w.stages && !w.stages[r].Restoring?
    ensures Inv(Idle(w, r, w.tree))
  {
    hide Sound, StagesInv;
    var v := Idle(w, r, w.tree);
    StageAt(w, r);
    StageLocal(w, v, r);
    forall q | q in v.tree && q != [] && q[0] in Names(w, v, r)
      ensures OneLink(v, r, q)
    { OwnLinks(w, r, q); }
    LocalKeepsInv(w, v, r);
  }

  /** Any claim may be left behind: it is in its place whether it holds its entry or not. */
  lemma LeaveClaimKeepsInv(w: World, r: string)
    requires Inv(w) && r in w.stages && (w.stages[r].Claimed? || w.stages[r].Moved?)
    ensures Inv(At(w, r, w.tree, Emptying(w.stages[r].claim)))
  {
    hide Sound, StagesInv;
    var v := At(w, r, w.tree, Emptying(w.stages[r].claim));
    StageAt(w, r);
    ClaimHome(w.tree, r, w.stages[r]);
    StageLocal(w, v, r);
    forall q | q in v.tree && q != [] && q[0] in Names(w, v, r)
      ensures OneLink(v, r, q)
    { OwnLinks(w, r, q); }
    LocalKeepsInv(w, v, r);
  }

  lemma ClaimHome(t: Tree, r: string, stage: Stage)
    requires StageInv(t, r, stage) && !stage.Intent?
    ensures stage.claim != [] && stage.claim[0] in RootNames(r, Some(stage))
    ensures |stage.claim| > 1 ==> stage.claim[0] == r
    ensures CleanupSegment(Last(stage.claim)) && IsDirectory(t, stage.claim)
  {
    if |stage.claim| > 1 && !stage.Emptying? {
      assert Parent(stage.claim)[0] == Parent(stage.path)[0] == r;
    }
  }

  lemma MakeClaimKeepsInv(w: World, r: string, uuid: string)
    requires Inv(w) && r in w.stages && w.stages[r].Intent? && CleanupSegment(uuid)
    requires var p := w.stages[r].path;
      p != [] && IsDirectory(w.tree, Parent(p)) && Parent(p) + [uuid] !in w.tree && Parent(p) + [uuid] != p
    ensures Inv(Deleting(w, r, MakeClaim(uuid)))
  {
    hide Sound, StagesInv;
    var p, v := w.stages[r].path, Deleting(w, r, MakeClaim(uuid));
    var claim := Parent(p) + [uuid];
    StageAt(w, r);
    assert Parent(claim) == Parent(p) && Last(claim) == uuid;
    NewClaimSound(w.tree, r, p, claim);
    NewClaimLocal(w, v, r, claim);
    forall q | q in v.tree && q != [] && q[0] in Names(w, v, r)
      ensures OneLink(v, r, q)
    { if q != claim { NewClaimLinks(w, r, claim, q); } }
    LocalKeepsInv(w, v, r);
  }

  lemma NewClaimSound(t: Tree, r: string, p: Path, claim: Path)
    requires Sound(t) && RunSegment(r) && Mine(r, p) && IsDirectory(t, Parent(p)) && ClaimFor(claim, p) && claim !in t
    ensures Sound(Put(t, claim, Directory)) && Below(Put(t, claim, Directory), claim) == {}
  {
    MineSpots(t, r, p);
    NamesAreDisjoint(Last(claim));
    PutKeeps(t, claim, Directory);
    forall q | q in t ensures !(claim <= q) { NewIsLeaf(t, claim, q); }
  }

  lemma NewClaimLocal(w: World, v: World, r: string, claim: Path)
    requires Inv(w) && r in w.stages && w.stages[r].Intent? && claim !in w.tree && ClaimFor(claim, w.stages[r].path)
    requires v == At(w, r, Put(w.tree, claim, Directory), Claimed(w.stages[r].path, claim))
    ensures Local(w, v, r)
  {
    hide Sound, StagesInv;
    StageAt(w, r);
    assert |claim| > 1 ==> claim[0] == r by { assert Parent(claim) == Parent(w.stages[r].path); }
    forall s | s in w.stages && s != r ensures Names(w, v, r) !! RootNames(s, StageOf(w, s)) {
      NamesApart(w, r, s);
      StageAt(w, s);
      if |claim| == 1 && claim[0] in RootNames(s, StageOf(w, s)) {
        NamesAreDisjoint(s);
        NamesAreDisjoint(claim[0]);
        assert claim == [claim[0]];
        ClaimNames(w.tree, s, w.stages[s], claim[0]);
      }
    }
  }

  lemma NewClaimLinks(w: World, r: string, claim: Path, q: Path)
    requires Inv(w) && r in w.stages && w.stages[r].Intent?
    requires claim !in w.tree && q in w.tree && ClaimFor(claim, w.stages[r].path)
    requires q != [] && (q[0] == r || q[0] == claim[0])
    ensures w.tree[q].File? ==> w.tree[q].links == 1 || q in w.left
  {
    hide Sound;
    StageAt(w, r);
    assert |claim| > 1 ==> claim[0] == r by { assert Parent(claim) == Parent(w.stages[r].path); }
    if q[0] == r {
      OwnLinks(w, r, q);
    } else {
      assert claim == [q[0]];
      PrefixFirst(w.tree, q);
    }
  }

  lemma PrefixFirst(t: Tree, q: Path)
    requires Sound(t) && q in t && q != []
    ensures [q[0]] in t
  {
    PrefixInTree(t, q, 1);
    assert q[..1] == [q[0]];
  }

  // ---------- renames and deletions ----------

  lemma EntryMoves(t: Tree, r: string, p: Path, claim: Path)
    requires Sound(t) && RunSegment(r) && StageInv(t, r, Claimed(p, claim)) && p in t
    ensures MoveFits(t, p, claim + [ENTRY]) && Below(t, p) !! {claim}
  {
    var entry := claim + [ENTRY];
    MineSpots(t, r, p);
    MineIsNoClaim(r, p, claim);
    NamesAreDisjoint(Last(claim));
    assert Parent(entry) == claim && Last(entry) == ENTRY;
    ExtendedPrefix(p, claim, ENTRY, p);
    SamePlaceDistinct(p, claim);
    forall q | q in t ensures !(entry <= q) {
      ExtendedPrefix(p, claim, ENTRY, q);
      assert claim < q ==> q in Below(t, claim);
    }
    assert SpotOf(t, claim) == Descend(PlaceAt(|p| - 1), Last(claim), Directory);
  }

  lemma MineIsNoClaim(r: string, p: Path, claim: Path)
    requires RunSegment(r) && Mine(r, p) && ClaimFor(claim, p)
    ensures claim != p && |claim| == |p|
  {
    NamesAreDisjoint(r);
    NamesAreDisjoint(Last(p));
  }

  /** Renaming between two places of one run changes nothing under other names. */
  lemma MoveTouches(t: Tree, src: Path, dst: Path, names: set<string>, q: Path)
    requires MoveFits(t, src, dst) && src[0] in names && dst[0] in names
    requires q == [] || q[0] !in names
    ensures SameEntry(t, Move(t, src, dst), q)
  {
    MoveContents(t, src, dst, q);
  }

  /** A rename gives no file a second link. */
  lemma MoveLinks(w: World, r: string, src: Path, dst: Path, q: Path)
    requires Inv(w) && r in w.stages && !w.stages[r].Restoring? && MoveFits(w.tree, src, dst)
    requires forall l :: l in w.left ==> !(src <= l)
    requires src[0] in RootNames(r, StageOf(w, r)) && q in Move(w.tree, src, dst)
    requires q != [] && q[0] in RootNames(r, StageOf(w, r))
    ensures var kind := Move(w.tree, src, dst)[q]; kind.File? ==> kind.links == 1 || q in w.left
  {
    hide Sound, StagesInv, MoveFits;
    StageAt(w, r);
    MoveSource(w.tree, src, dst, q);
    OwnLinks(w, r, Redirect(q, dst, src));
  }

  lemma RenameKeepsInv(w: World, r: string)
    requires Inv(w) && r in w.stages && w.stages[r].Claimed? && w.stages[r].path in w.tree
    requires Clear(w.left, w.stages[r])
    ensures Inv(Deleting(w, r, Rename))
  {
    hide Sound, StagesInv, StageInv, MoveFits, Move, LinkInv, Changes;
    var p, claim := w.stages[r].path, w.stages[r].claim;
    var entry := claim + [ENTRY];
    var v := At(w, r, Move(w.tree, p, entry), Moved(p, claim));
    StageAt(w, r);
    HomeNames(w, r);
    EntryMoves(w.tree, r, p, claim);
    MoveKeeps(w.tree, p, entry);
    MovedStage(w.tree, r, p, claim);
    MoveChanges(w, v, r, p, entry);
    forall q | q in v.tree && q != [] && q[0] in RootNames(r, StageOf(w, r)) ensures OneLink(v, r, q) {
      MoveLinks(w, r, p, entry, q);
    }
    OwnStep(w, v, r);
  }

  lemma MovedStage(t: Tree, r: string, p: Path, claim: Path)
    requires StageInv(t, r, Claimed(p, claim)) && p in t && MoveFits(t, p, claim + [ENTRY])
    ensures StageInv(Move(t, p, claim + [ENTRY]), r, Moved(p, claim))
  {
    var entry := claim + [ENTRY];
    MoveContents(t, p, entry, entry);
    MoveContents(t, p, entry, claim);
    assert Parent(entry) == claim;
    assert p + entry[|entry|..] == p;
  }

  lemma DeleteKeepsInv(w: World, r: string)
    requires Inv(w) && r in w.stages && w.stages[r].Moved?
    requires var entry := w.stages[r].claim + [ENTRY]; w.tree[entry].File? || Children(w.tree, entry) == {}
    ensures Inv(Deleting(w, r, Delete))
  {
    hide Sound, StagesInv, Children, Below;
    var p, claim := w.stages[r].path, w.stages[r].claim;
    var entry := claim + [ENTRY];
    var v := At(w, r, Remove(w.tree, entry), Emptying(claim));
    StageAt(w, r);
    ClaimHome(w.tree, r, w.stages[r]);
    BarrenEntry(w.tree, entry);
    RemoveKeeps(w.tree, entry);
    assert entry != claim;
    StageLocal(w, v, r);
    forall q | q in v.tree && q != [] && q[0] in Names(w, v, r)
      ensures OneLink(v, r, q)
    { OwnLinks(w, r, q); }
    LocalKeepsInv(w, v, r);
  }

  lemma BarrenEntry(t: Tree, p: Path)
    requires Sound(t) && p in t && (t[p].File? || Children(t, p) == {})
    ensures Below(t, p) == {}
  {
    NothingBelow(t, p);
  }

  lemma RemoveClaimKeepsInv(w: World, r: string)
    requires Inv(w) && r in w.stages && w.stages[r].Emptying?
    ensures Inv(Deleting(w, r, RemoveClaim))
  {
    hide Sound, StagesInv, Children, Below;
    var claim, v := w.stages[r].claim, Deleting(w, r, RemoveClaim);
    StageAt(w, r);
    ClaimHome(w.tree, r, w.stages[r]);
    if Children(w.tree, claim) == {} {
      BarrenEntry(w.tree, claim);
      RemoveKeeps(w.tree, claim);
      StageLocal(w, v, r);
      forall q | q in v.tree && q != [] && q[0] in Names(w, v, r)
        ensures OneLink(v, r, q)
      { OwnLinks(w, r, q); }
      LocalKeepsInv(w, v, r);
    } else {
      GiveUpKeepsInv(w, r);
    }
  }

  lemma MoveChanges(w: World, v: World, r: string, src: Path, dst: Path)
    requires MoveFits(w.tree, src, dst) && v.tree == Move(w.tree, src, dst) && w.left == v.left
    requires RootNames(r, StageOf(v, r)) <= RootNames(r, StageOf(w, r))
    requires src[0] in RootNames(r, StageOf(w, r)) && dst[0] in RootNames(r, StageOf(w, r))
    requires forall s :: s != r ==> StageOf(v, s) == StageOf(w, s)
    ensures Changes(w, v, r)
  {
    hide MoveFits, Move, RootNames;
    forall q | q == [] || q[0] !in RootNames(r, StageOf(w, r)) ensures SameEntry(w.tree, v.tree, q) {
      MoveTouches(w.tree, src, dst, RootNames(r, StageOf(w, r)), q);
    }
  }

  lemma HomeNames(w: World, r: string)
    requires StagesInv(w) && r in w.stages && (w.stages[r].Moved? || w.stages[r].Claimed?)
    ensures var stage := w.stages[r];
      && stage.path != [] && stage.path[0] in RootNames(r, Some(stage))
      && stage.claim != [] && (stage.claim + [ENTRY])[0] in RootNames(r, Some(stage))
  {
    hide StagesInv;
    StageAt(w, r);
    ClaimHome(w.tree, r, w.stages[r]);
  }

  // ---------- an agent removes a file ----------

  lemma DropKeepsStage(t: Tree, r: string, stage: Stage, p: Path)
    requires StageInv(t, r, stage) && RunSegment(r) && Mine(r, p) && |p| == 3 && p in t && t[p] == File(1)
    ensures StageInv(Remove(t, p), r, stage)
  {
    if stage.Claimed? {
      assert Below(Remove(t, p), stage.claim) <= Below(t, stage.claim);
    } else if stage.Moved? {
      NamesAreDisjoint(stage.claim[|stage.claim| - 1]);
      EntryIsNotMine(stage.claim, stage.path, r, p);
    }
  }

  lemma EntryIsNotMine(claim: Path, own: Path, r: string, p: Path)
    requires ClaimFor(claim, own) && Mine(r, own) && RunSegment(r) && Mine(r, p)
    ensures claim + [ENTRY] != p
  {
    ClaimIsNotMine(claim, own, r, p);
    assert claim < claim + [ENTRY];
  }

  lemma DropKeepsInv(w: World, r: string, p: Path)
    requires Inv(w) && RunSegment(r) && Mine(r, p) && |p| == 3
    ensures Inv(Drop(w, p))
  {
    hide Sound, StagesInv, StageInv, Below;
    var v := Drop(w, p);
    if v != w {
      BarrenEntry(w.tree, p);
      RemoveKeeps(w.tree, p);
      SameStages(w, v, r);
      forall q | q in v.tree && q != [] && q[0] in Names(w, v, r) ensures OneLink(v, r, q) {
        OwnLinks(w, r, q);
        assert Twin(w, r, q) ==> Twin(v, r, q);
      }
      if r in w.stages { StageAt(w, r); DropKeepsStage(w.tree, r, w.stages[r], p); }
      LocalKeepsInv(w, v, r);
    }
  }
}
