/** What holds between the steps of creation and cleanup, and that the step of one run leaves
    the other runs alone. */
module CurrentRunInvariant {
  import opened Basics
  import opened CurrentRunTree
  import opened CurrentRunShape
  import opened CurrentRunCleanup

  // ---------- invariant ----------

  /** A claim for an entry lies beside it and has a cleanup name. */
  predicate ClaimFor(claim: Path, p: Path) {
    claim != [] && p != [] && claim != p && Parent(claim) == Parent(p) && CleanupSegment(Last(claim))
  }

  ghost predicate StageInv(t: Tree, run: string, stage: Stage) {
    match stage
    case Intent(p) => Mine(run, p) && (p in t ==> Deletable(p, t[p]))
    case Claimed(p, claim) =>
      && Mine(run, p) && (p in t ==> Deletable(p, t[p]))
      && ClaimFor(claim, p) && IsDirectory(t, claim) && Below(t, claim) == {}
    case Moved(p, claim) =>
      && Mine(run, p) && ClaimFor(claim, p) && IsDirectory(t, claim)
      && claim + [ENTRY] in t && Deletable(p, t[claim + [ENTRY]])
    case Restoring(p, claim) =>
      && Mine(run, p) && |p| == 3 && ClaimFor(claim, p) && IsDirectory(t, claim)
      && claim + [ENTRY] in t && t[claim + [ENTRY]] == File(2) && p in t && t[p] == File(2)
    case Emptying(claim) =>
      claim != [] && (|claim| > 1 ==> claim[0] == run) && CleanupSegment(Last(claim)) && IsDirectory(t, claim)
  }

  /** The root-level names a run may touch: its own and that of its claim. */
  function RootNames(run: string, stage: Option<Stage>): set<string> {
    {run} + if stage.Some? && !stage.value.Intent? && |stage.value.claim| == 1 then {stage.value.claim[0]} else {}
  }

  function StageOf(w: World, run: string): Option<Stage> {
    if run in w.stages then Some(w.stages[run]) else None
  }

  predicate Apart2(w: World, r: string, s: string) {
    r != s ==> RootNames(r, StageOf(w, r)) !! RootNames(s, StageOf(w, s))
  }

  predicate Twin(w: World, r: string, q: Path) {
    r in w.stages && w.stages[r].Restoring? && (q == w.stages[r].path || q == w.stages[r].claim + [ENTRY])
  }

  ghost predicate LinkInv(w: World, q: Path)
    requires q in w.tree
  {
    w.tree[q].File? ==> w.tree[q].links == 1 || q in w.left || exists r :: Twin(w, r, q)
  }

  /** Among the names of run `r`. */
  predicate OneLink(w: World, r: string, q: Path)
    requires q in w.tree
  {
    w.tree[q].File? ==> w.tree[q].links == 1 || q in w.left || Twin(w, r, q)
  }

  /** What a run is deleting holds no name that was left with a second link. */
  predicate Clear(left: set<Path>, stage: Stage) {
    match stage
    case Intent(p) => forall q :: q in left ==> !(p <= q)
    case Claimed(p, _) => forall q :: q in left ==> !(p <= q)
    case Moved(_, claim) => forall q :: q in left ==> !(claim + [ENTRY] <= q)
    case Restoring(p, claim) => p !in left && claim + [ENTRY] !in left
    case Emptying(_) => true
  }

  predicate LeftAt(t: Tree, q: Path) {
    q in t && t[q] == File(2) && |q| >= 3
  }

  /** Names left with a second link stay where they are, and two links they keep. */
  ghost predicate LeftInv(w: World) {
    && (forall q :: q in w.left ==> LeftAt(w.tree, q))
    && (forall r :: r in w.stages ==> Clear(w.left, w.stages[r]))
  }

  ghost predicate StagesInv(w: World) {
    && (forall r :: r in w.stages ==> RunSegment(r) && StageInv(w.tree, r, w.stages[r]))
    && (forall r, s :: r in w.stages && s in w.stages ==> Apart2(w, r, s))
  }

  ghost predicate Inv(w: World) {
    && Sound(w.tree)
    && [LEASE] in w.tree && w.tree[[LEASE]] == File(1)
    && StagesInv(w)
    && (forall q :: q in w.tree ==> LinkInv(w, q))
  }

  // ---------- one run's step leaves the others alone ----------

  predicate SameEntry(t: Tree, u: Tree, q: Path) {
    (q in t <==> q in u) && (q in t ==> t[q] == u[q])
  }

  lemma StageFrame(t: Tree, u: Tree, s: string, stage: Stage)
    requires StageInv(t, s, stage)
    requires forall q :: q != [] && q[0] in RootNames(s, Some(stage)) ==> SameEntry(t, u, q)
    ensures StageInv(u, s, stage)
  {
    if !stage.Intent? {
      var claim := stage.claim;
      assert claim[0] in RootNames(s, Some(stage)) by {
        if |claim| > 1 && !stage.Emptying? { assert Parent(claim)[0] == Parent(stage.path)[0] == s; }
      }
      assert (claim + [ENTRY])[0] == claim[0];
      assert SameEntry(t, u, claim) && SameEntry(t, u, claim + [ENTRY]);
      forall q | q in Below(u, claim) ensures q in Below(t, claim) { assert q[0] == claim[0]; }
      assert Below(t, claim) == {} ==> Below(u, claim) == {};
    }
    if !stage.Emptying? {
      assert SameEntry(t, u, stage.path);
    }
  }

  lemma ClaimNames(t: Tree, s: string, stage: Stage, n: string)
    requires StageInv(t, s, stage) && n in RootNames(s, Some(stage)) && n != s
    ensures CleanupSegment(n) && [n] in t && !stage.Intent? && stage.claim == [n]
  {
    assert stage.claim == [n];
    assert Last(stage.claim) == n;
  }

  /** Different runs touch different root-level names. */
  lemma NamesApart(w: World, r: string, s: string)
    requires StagesInv(w) && RunSegment(r) && s in w.stages && s != r
    ensures RootNames(r, StageOf(w, r)) !! RootNames(s, StageOf(w, s))
  {
    if r in w.stages {
      assert Apart2(w, r, s);
    } else {
      NamesAreDisjoint(r);
      if r in RootNames(s, StageOf(w, s)) { ClaimNames(w.tree, s, w.stages[s], r); }
    }
  }

  lemma TwinName(w: World, r: string, q: Path)
    requires StagesInv(w) && Twin(w, r, q)
    ensures q != [] && q[0] in RootNames(r, StageOf(w, r))
  {
    var stage := w.stages[r];
    assert StageInv(w.tree, r, stage);
    assert Parent(stage.claim)[0] == Parent(stage.path)[0] == r;
    assert stage.claim[0] == r && (stage.claim + [ENTRY])[0] == r;
  }

  /** Among the names of one run, only its own restored file has two links. */
  lemma OwnLinks(w: World, r: string, q: Path)
    requires Inv(w) && RunSegment(r) && q in w.tree && q != [] && q[0] in RootNames(r, StageOf(w, r))
    ensures OneLink(w, r, q)
  {
    hide Sound;
    assert LinkInv(w, q);
    if w.tree[q].File? && w.tree[q].links != 1 && q !in w.left {
      var s :| Twin(w, s, q);
      TwinName(w, s, q);
      if s != r { NamesApart(w, r, s); }
    }
  }

  function Names(w: World, v: World, r: string): set<string> {
    RootNames(r, StageOf(w, r)) + RootNames(r, StageOf(v, r))
  }

  /** Only `r` moved, and only below names nobody else touches. */
  ghost predicate Local(w: World, v: World, r: string) {
    && RunSegment(r)
    && (forall s :: s != r ==> StageOf(v, s) == StageOf(w, s)) && w.left <= v.left
    && (forall q :: (q == [] || q[0] !in Names(w, v, r)) ==> SameEntry(w.tree, v.tree, q))
    && (forall s :: s in w.stages && s != r ==> Names(w, v, r) !! RootNames(s, StageOf(w, s)))
  }

  ghost predicate OwnInv(v: World, r: string, names: set<string>) {
    && Sound(v.tree)
    && (r in v.stages ==> StageInv(v.tree, r, v.stages[r]))
    && (forall q :: q in v.tree && q != [] && q[0] in names ==> OneLink(v, r, q))
  }

  lemma LocalStages(w: World, v: World, r: string)
    requires StagesInv(w) && Local(w, v, r) && (r in v.stages ==> StageInv(v.tree, r, v.stages[r]))
    ensures StagesInv(v)
  {
    hide StageInv;
    forall s | s in v.stages ensures RunSegment(s) && StageInv(v.tree, s, v.stages[s]) {
      if s != r {
        assert StageOf(v, s) == StageOf(w, s);
        StageFrame(w.tree, v.tree, s, v.stages[s]);
      }
    }
    forall a, b | a in v.stages && b in v.stages ensures Apart2(v, a, b) {
      assert a != r ==> StageOf(v, a) == StageOf(w, a);
      assert b != r ==> StageOf(v, b) == StageOf(w, b);
      if a != r && b != r { assert Apart2(w, a, b); }
    }
  }

  lemma LocalLinks(w: World, v: World, r: string, q: Path)
    requires Inv(w) && Local(w, v, r) && OwnInv(v, r, Names(w, v, r)) && q in v.tree
    ensures LinkInv(v, q)
  {
    if q != [] && q[0] in Names(w, v, r) {
    } else {
      assert SameEntry(w.tree, v.tree, q);
      assert LinkInv(w, q);
      if v.tree[q].File? && v.tree[q].links != 1 && q !in w.left {
        var s :| Twin(w, s, q);
        TwinName(w, s, q);
        assert s != r;
        assert StageOf(v, s) == StageOf(w, s);
        assert Twin(v, s, q);
      }
    }
  }

  lemma LocalKeepsInv(w: World, v: World, r: string)
    requires Inv(w) && Local(w, v, r) && OwnInv(v, r, Names(w, v, r))
    ensures Inv(v)
  {
    hide Sound, StagesInv, LinkInv, Local, OwnInv;
    LocalParts(w, v, r);
    forall q | q in v.tree ensures LinkInv(v, q) { LocalLinks(w, v, r, q); }
  }

  lemma LocalParts(w: World, v: World, r: string)
    requires Inv(w) && Local(w, v, r) && OwnInv(v, r, Names(w, v, r))
    ensures Sound(v.tree) && StagesInv(v) && [LEASE] in v.tree && v.tree[[LEASE]] == File(1)
  {
    hide Sound;
    LocalStages(w, v, r);
    LeaseUntouched(w, v, r);
    assert SameEntry(w.tree, v.tree, [LEASE]);
  }

  lemma LeaseUntouched(w: World, v: World, r: string)
    requires StagesInv(w) && RunSegment(r) && (r in v.stages ==> StageInv(v.tree, r, v.stages[r]))
    ensures LEASE !in Names(w, v, r)
  {
    NamesAreDisjoint(r);
    NamesAreDisjoint(LEASE);
    if LEASE in RootNames(r, StageOf(w, r)) { ClaimNames(w.tree, r, w.stages[r], LEASE); }
    if LEASE in RootNames(r, StageOf(v, r)) { ClaimNames(v.tree, r, v.stages[r], LEASE); }
  }

  // ---------- a step below names the run already holds ----------

  function PlaceAt(depth: nat): Spot {
    if depth == 0 then Root else if depth == 1 then Run else Payload
  }

  /** What a run's own entries are when they may be deleted. */
  function OwnSpot(p: Path): Spot {
    if |p| == 1 then Run else if |p| == 2 then Payload else Leaf
  }

  lemma MineSpots(t: Tree, r: string, p: Path)
    requires Sound(t) && RunSegment(r) && Mine(r, p) && IsDirectory(t, Parent(p))
    ensures SpotOf(t, Parent(p)) == Some(PlaceAt(|p| - 1))
    ensures forall kind :: Deletable(p, kind) ==> Descend(PlaceAt(|p| - 1), Last(p), kind) == Some(OwnSpot(p))
    ensures p in t && Deletable(p, t[p]) ==> SpotOf(t, p) == Some(OwnSpot(p))
    decreases |p|
  {
    NamesAreDisjoint(r);
    NamesAreDisjoint(Last(p));
    if |p| > 1 {
      assert IsDirectory(t, Parent(Parent(p)));
      MineSpots(t, r, Parent(p));
    } else {
      assert Parent(p) == [];
    }
  }

  lemma StageAt(w: World, r: string)
    requires StagesInv(w) && r in w.stages
    ensures RunSegment(r) && StageInv(w.tree, r, w.stages[r])
  {
  }

  lemma SameStages(w: World, v: World, r: string)
    requires Inv(w) && RunSegment(r) && v.stages == w.stages && v.left == w.left
    requires forall q :: (q == [] || q[0] !in RootNames(r, StageOf(w, r))) ==> SameEntry(w.tree, v.tree, q)
    ensures Local(w, v, r)
  {
    forall s | s in w.stages && s != r ensures Names(w, v, r) !! RootNames(s, StageOf(w, s)) { NamesApart(w, r, s); }
  }

  /** A stage change of `r` that claims no new root-level name is local. */
  lemma StageLocal(w: World, v: World, r: string)
    requires StagesInv(w) && RunSegment(r) && RootNames(r, StageOf(v, r)) <= RootNames(r, StageOf(w, r))
    requires w.left <= v.left && forall s :: s != r ==> StageOf(v, s) == StageOf(w, s)
    requires forall q :: (q == [] || q[0] !in RootNames(r, StageOf(w, r))) ==> SameEntry(w.tree, v.tree, q)
    ensures Local(w, v, r) && Names(w, v, r) == RootNames(r, StageOf(w, r))
  {
    hide StagesInv;
    forall s | s in w.stages && s != r ensures Names(w, v, r) !! RootNames(s, StageOf(w, s)) { NamesApart(w, r, s); }
  }

  ghost predicate Changes(w: World, v: World, r: string) {
    && RootNames(r, StageOf(v, r)) <= RootNames(r, StageOf(w, r))
    && w.left <= v.left && (forall s :: s != r ==> StageOf(v, s) == StageOf(w, s))
    && (forall q :: (q == [] || q[0] !in RootNames(r, StageOf(w, r))) ==> SameEntry(w.tree, v.tree, q))
  }

  /** A step of `r` below names it already holds. */
  lemma OwnStep(w: World, v: World, r: string)
    requires Inv(w) && RunSegment(r) && Changes(w, v, r) && Sound(v.tree)
    requires r in v.stages ==> StageInv(v.tree, r, v.stages[r])
    requires forall q :: q in v.tree && q != [] && q[0] in RootNames(r, StageOf(w, r)) ==> OneLink(v, r, q)
    ensures Inv(v)
  {
    hide Sound, StagesInv, StageInv, OneLink, LinkInv;
    StageLocal(w, v, r);
    LocalKeepsInv(w, v, r);
  }

  lemma InvSound(w: World)
    requires Inv(w)
    ensures Sound(w.tree)
  {
    hide Sound;
  }

  lemma LeftThere(w: World)
    requires LeftInv(w)
    ensures forall q :: q in w.left ==> LeftAt(w.tree, q)
    ensures forall r :: r in w.stages ==> Clear(w.left, w.stages[r])
  {
  }
}
