/** The steps on the way back out of a claim keep the invariant, the failed ones among them. */
module CurrentRunRestores {
  import opened Basics
  import opened CurrentRunTree
  import opened CurrentRunShape
  import opened CurrentRunCleanup
  import opened CurrentRunInvariant
  import opened CurrentRunClaims

  lemma EntryPlace(t: Tree, r: string, p: Path, claim: Path)
    requires Sound(t) && RunSegment(r) && StageInv(t, r, Moved(p, claim)) && IsDirectory(t, Parent(p))
    ensures SpotOf(t, claim + [ENTRY]) == Some(OwnSpot(p)) && SpotOf(t, Parent(p)) == Some(PlaceAt(|p| - 1))
    ensures Descend(PlaceAt(|p| - 1), Last(p), t[claim + [ENTRY]]) == Some(OwnSpot(p))
  {
    hide IsTree, CleanupSegment, RunSegment, PayloadSegment;
    var entry := claim + [ENTRY];
    MineSpots(t, r, p);
    NamesAreDisjoint(Last(claim));
    assert Parent(entry) == claim && Last(entry) == ENTRY;
    assert SpotOf(t, claim) == Descend(PlaceAt(|p| - 1), Last(claim), Directory);
  }

  lemma EntryReturns(t: Tree, r: string, p: Path, claim: Path)
    requires Sound(t) && RunSegment(r) && StageInv(t, r, Moved(p, claim)) && p !in t && IsDirectory(t, Parent(p))
    ensures MoveFits(t, claim + [ENTRY], p) && SpotOf(t, claim + [ENTRY]) == Some(OwnSpot(p))
    ensures Descend(PlaceAt(|p| - 1), Last(p), t[claim + [ENTRY]]) == Some(OwnSpot(p))
    ensures SpotOf(t, Parent(p)) == Some(PlaceAt(|p| - 1))
    ensures |p| == |claim| && p != claim
  {
    hide Shape, SpotOf, Descend, CleanupSegment, RunSegment, PayloadSegment, Mine, Placed;
    EntryPlace(t, r, p, claim);
    SamePlaceDistinct(p, claim);
    ExtendedPrefix(p, claim, ENTRY, p);
    forall q | q in t ensures !(p <= q) { NewIsLeaf(t, p, q); }
  }

  lemma EmptyingStage(t: Tree, r: string, stage: Stage)
    requires StageInv(t, r, stage) && !stage.Intent?
    ensures StageInv(t, r, Emptying(stage.claim))
  {
    ClaimHome(t, r, stage);
  }

  lemma RestoreDirectoryKeepsInv(w: World, r: string)
    requires Inv(w) && r in w.stages && w.stages[r].Moved? && Clear(w.left, w.stages[r])
    requires var p := w.stages[r].path; p !in w.tree && p != [] && IsDirectory(w.tree, Parent(p))
    ensures Inv(At(w, r, Move(w.tree, w.stages[r].claim + [ENTRY], w.stages[r].path), Emptying(w.stages[r].claim)))
  {
    hide Sound, StagesInv, StageInv, MoveFits, Move, LinkInv, RootNames, Changes;
    var p, claim := w.stages[r].path, w.stages[r].claim;
    var entry := claim + [ENTRY];
    var v := At(w, r, Move(w.tree, entry, p), Emptying(claim));
    StageAt(w, r);
    HomeNames(w, r);
    EntryReturns(w.tree, r, p, claim);
    MoveKeeps(w.tree, entry, p);
    ReturnedStage(w.tree, r, p, claim);
    SameNames(r, w.stages[r]);
    MoveChanges(w, v, r, entry, p);
    forall q | q in v.tree && q != [] && q[0] in RootNames(r, StageOf(w, r)) ensures OneLink(v, r, q) {
      MoveLinks(w, r, entry, p, q);
    }
    OwnStep(w, v, r);
  }

  lemma SameNames(r: string, stage: Stage)
    requires !stage.Intent?
    ensures RootNames(r, Some(Emptying(stage.claim))) == RootNames(r, Some(stage))
  {
  }

  lemma ReturnedStage(t: Tree, r: string, p: Path, claim: Path)
    requires StageInv(t, r, Moved(p, claim)) && MoveFits(t, claim + [ENTRY], p) && |p| == |claim| && p != claim
    ensures StageInv(Move(t, claim + [ENTRY], p), r, Emptying(claim))
  {
    hide Move, MoveFits, Mine;
    EmptyingStage(t, r, Moved(p, claim));
    ClaimOutlives(t, p, claim);
  }

  lemma ClaimOutlives(t: Tree, p: Path, claim: Path)
    requires MoveFits(t, claim + [ENTRY], p) && IsDirectory(t, claim) && |p| == |claim| && p != claim
    ensures IsDirectory(Move(t, claim + [ENTRY], p), claim)
  {
    MoveContents(t, claim + [ENTRY], p, claim);
    SamePlaceDistinct(p, claim);
  }

  lemma LinkedStage(t: Tree, r: string, p: Path, claim: Path)
    requires StageInv(t, r, Moved(p, claim)) && t[claim + [ENTRY]].File? && p !in t
    ensures StageInv(Linked(t, p, claim + [ENTRY]), r, Restoring(p, claim))
  {
    assert claim != claim + [ENTRY];
  }

  lemma LinkedChanges(w: World, r: string, p: Path, claim: Path)
    requires StagesInv(w) && r in w.stages && w.stages[r] == Moved(p, claim)
    ensures Changes(w, At(w, r, Linked(w.tree, p, claim + [ENTRY]), Restoring(p, claim)), r)
  {
    hide StagesInv;
    StageAt(w, r);
    ClaimHome(w.tree, r, w.stages[r]);
    assert (claim + [ENTRY])[0] == claim[0];
  }

  lemma LinkedTwins(w: World, r: string, p: Path, claim: Path, q: Path)
    requires Inv(w) && r in w.stages && w.stages[r] == Moved(p, claim)
    requires q in Linked(w.tree, p, claim + [ENTRY]) && q != [] && q[0] in RootNames(r, StageOf(w, r))
    ensures OneLink(At(w, r, Linked(w.tree, p, claim + [ENTRY]), Restoring(p, claim)), r, q)
  {
    hide Sound, StagesInv, LinkInv;
    StageAt(w, r);
    if q != p && q != claim + [ENTRY] { OwnLinks(w, r, q); }
  }

  lemma RestoreFileKeepsInv(w: World, r: string)
    requires Inv(w) && r in w.stages && w.stages[r].Moved? && w.tree[w.stages[r].claim + [ENTRY]].File?
    requires var p := w.stages[r].path; p !in w.tree && p != [] && IsDirectory(w.tree, Parent(p))
    ensures Inv(Restore(w, r, w.stages[r].path, w.stages[r].claim))
  {
    hide Sound, StagesInv, StageInv, LinkInv, OneLink, Changes;
    var p, claim := w.stages[r].path, w.stages[r].claim;
    var entry := claim + [ENTRY];
    var v := At(w, r, Linked(w.tree, p, entry), Restoring(p, claim));
    StageAt(w, r);
    EntryReturns(w.tree, r, p, claim);
    LinkedSound(w.tree, r, p, entry);
    LinkedStage(w.tree, r, p, claim);
    LinkedChanges(w, r, p, claim);
    forall q | q in v.tree && q != [] && q[0] in RootNames(r, StageOf(w, r)) ensures OneLink(v, r, q) {
      LinkedTwins(w, r, p, claim, q);
    }
    OwnStep(w, v, r);
  }

  lemma LinkedSound(t: Tree, r: string, p: Path, entry: Path)
    requires Sound(t) && p != [] && p !in t && IsDirectory(t, Parent(p)) && entry in t && t[entry].File?
    requires SpotOf(t, Parent(p)).Some? && Descend(SpotOf(t, Parent(p)).value, Last(p), t[entry]).Some?
    ensures Sound(Linked(t, p, entry))
  {
    hide Sound, SpotOf;
    PutKeeps(t, p, t[entry]);
    var u := Put(t, p, t[entry]);
    RelinkKeeps(u, p, 2);
    RelinkKeeps(Put(u, p, File(2)), entry, 2);
    assert Put(Put(u, p, File(2)), entry, File(2)) == Linked(t, p, entry);
  }

  lemma EndRestoreKeepsInv(w: World, r: string)
    requires Inv(w) && r in w.stages && w.stages[r].Restoring?
    ensures Inv(Deleting(w, r, EndRestore))
  {
    hide Sound, StagesInv, Below;
    var p, claim := w.stages[r].path, w.stages[r].claim;
    var entry := claim + [ENTRY];
    var v := At(w, r, Put(Remove(w.tree, entry), p, File(1)), Emptying(claim));
    StageAt(w, r);
    ClaimHome(w.tree, r, w.stages[r]);
    BarrenEntry(w.tree, entry);
    RemoveKeeps(w.tree, entry);
    assert p != entry by { assert |entry| == |claim| + 1 && |Parent(claim)| == |Parent(p)|; }
    assert claim != entry && claim != p;
    RelinkKeeps(Remove(w.tree, entry), p, 1);
    StageLocal(w, v, r);
    forall q | q in v.tree && q != [] && q[0] in Names(w, v, r)
      ensures OneLink(v, r, q)
    { if q != p { OwnLinks(w, r, q); } }
    LocalKeepsInv(w, v, r);
  }

  /** When the second link cannot be removed, both names stay and cleanup goes on. */
  lemma FailedRestoreKeepsInv(w: World, r: string)
    requires Inv(w) && r in w.stages && w.stages[r].Restoring?
    ensures Inv(Deleting(w, r, Fail))
  {
    hide Sound, StagesInv, Below;
    var v := Deleting(w, r, Fail);
    StageAt(w, r);
    ClaimHome(w.tree, r, w.stages[r]);
    StageLocal(w, v, r);
    forall q | q in v.tree && q != [] && q[0] in Names(w, v, r) ensures OneLink(v, r, q) { OwnLinks(w, r, q); }
    LocalKeepsInv(w, v, r);
  }
}
