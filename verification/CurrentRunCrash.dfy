/** Crashes and recovery together: what recovery makes of an interrupted run, and what it
    makes of an interrupted recovery. */
module CurrentRunCrash {
  import opened Basics
  import opened CurrentRunTree
  import opened CurrentRunRecovery
  import Shapes = CurrentRunShape
  import Cleanup = CurrentRunCleanup
  import Invariant = CurrentRunInvariant
  import Laws = CurrentRunLaws
  import Closure = CurrentRunClosure

  /** Recovery after any crash of creation and cleanup leaves the lease and nothing else. */
  lemma CrashThenRecover(actions: seq<Cleanup.Action>)
    requires var w := Cleanup.Exec(Cleanup.INITIAL, actions);
      !Closure.TwiceLinked(w) && |Children(w.tree, [])| <= 4_096 &&
        |Below(w.tree, [])| <= 65_536
    ensures var t := Cleanup.Exec(Cleanup.INITIAL, actions).tree;
      Acceptable(t) && Kept(t, []) == map[[] := Directory, [LEASE] := File(1)]
  {
    var w := Cleanup.Exec(Cleanup.INITIAL, actions);
    Closure.CrashClosed(actions);
    Laws.RunKeepsInv(actions);
    hide Acceptable, Cleanup.Exec, IsTree, Shape, Invariant.StagesInv;
    assert IsDirectory(w.tree, []) by { SoundRoot(w.tree); }
  }

  lemma SoundRoot(t: Tree)
    requires Shapes.Sound(t)
    ensures IsDirectory(t, [])
  {
  }

  predicate InClaim(t: Tree, p: Path)
    requires p != []
  {
    SpotOf(t, Parent(p)).Some? && SpotOf(t, Parent(p)).value.Claim?
  }

  lemma ClaimFits(t: Tree, p: Path, uuid: string)
    requires Shapes.Sound(t) && p in t && p != [] && CleanupSegment(uuid) && Parent(p) + [uuid] !in t
    ensures !InClaim(t, p) ==> Shapes.Sound(Put(t, Parent(p) + [uuid], Directory))
    ensures InClaim(t, p) ==> !Shape(Put(t, Parent(p) + [uuid], Directory))
  {
    var claim := Parent(p) + [uuid];
    var u := Put(t, claim, Directory);
    assert Parent(claim) == Parent(p) && Last(claim) == uuid;
    NamesAreDisjoint(uuid);
    ParentSpot(t, p);
    if InClaim(t, p) {
      Shapes.SpotKept(t, u, Parent(p), claim);
      assert !Placed(u, claim);
    } else {
      Shapes.PutKeeps(t, claim, Directory);
    }
  }

  lemma ParentSpot(t: Tree, p: Path)
    requires Shapes.Sound(t) && p in t && p != []
    ensures SpotOf(t, Parent(p)).Some? && !SpotOf(t, Parent(p)).value.Leaf?
  {
    assert Placed(t, p);
  }

  lemma MoveAloneAt(t: Tree, src: Path, dst: Path, q: Path)
    requires CanMove(t, src, dst) && Below(t, src) == {}
    ensures q in Move(t, src, dst) <==> q == dst || (q in t && q != src)
  {
    MoveContents(t, src, dst, q);
    if dst <= q {
      var rest := q[|dst|..];
      assert dst + rest == q && (rest == [] ==> src + rest == src);
      if rest != [] {
        assert src < src + rest;
        assert src + rest in t ==> src + rest in Below(t, src);
      }
    } else if src <= q {
      assert |q| == |src| ==> q == src;
      assert q in t && q != src ==> q in Below(t, src);
    }
  }

  /** The moved entry alone: a rename of an entry with nothing below it. */
  lemma MoveAlone(t: Tree, src: Path, dst: Path)
    requires CanMove(t, src, dst) && Below(t, src) == {}
    ensures Move(t, src, dst) == Put(Remove(t, src), dst, t[src])
  {
    var u, v := Move(t, src, dst), Put(Remove(t, src), dst, t[src]);
    forall q ensures q in u <==> q in v { MoveAloneAt(t, src, dst, q); }
    forall q | q in v ensures u[q] == v[q] {
      MoveContents(t, src, dst, q);
      if q == dst { assert src + q[|dst|..] == src; }
    }
  }

  /** Recovery itself is not closed under crashes. Stopped right after it has made the claim
      for a node, the tree is accepted again exactly when that node does not lie in a claim. */
  lemma InterruptedByClaim(t: Tree, p: Path, uuid: string)
    requires Shapes.Sound(t) && SingleLinks(t) && p in t && p != [] && CleanupSegment(uuid) && Parent(p) + [uuid] !in t
    ensures var u := Put(t, Parent(p) + [uuid], Directory);
      Shape(u) && SingleLinks(u) <==> !InClaim(t, p)
  {
    ClaimFits(t, p, uuid);
  }

  /** The tree after the rename, as the removal of the node and the creation of the entry. */
  lemma AfterRename(t: Tree, p: Path, claim: Path)
    requires IsTree(t) && p in t && p != [] && claim != []
    requires Parent(claim) == Parent(p) && claim !in t && Below(t, p) == {}
    ensures var u0 := Put(t, claim, Directory);
      && Below(u0, p) == {} && p != claim && !(p <= claim) && claim + [ENTRY] !in Remove(u0, p)
      && Move(u0, p, claim + [ENTRY]) == Put(Remove(u0, p), claim + [ENTRY], t[p])
  {
    var u0 := Put(t, claim, Directory);
    Shapes.SamePlaceDistinct(p, claim);
    forall q | q in t ensures !(claim <= q) { Shapes.NewIsLeaf(t, claim, q); }
    ClaimApart(t, p, claim);
    assert Below(u0, p) == {} by {
      forall q | q in Below(u0, p) ensures q in Below(t, p) {}
    }
    MoveAlone(u0, p, claim + [ENTRY]);
    assert claim <= claim + [ENTRY];
  }

  lemma ClaimStaysMisplaced(t: Tree, p: Path, claim: Path)
    requires Shapes.Sound(t) && p in t && p != [] && claim != []
    requires Parent(claim) == Parent(p) && CleanupSegment(Last(claim))
    requires claim !in t && Below(t, p) == {} && InClaim(t, p)
    ensures !Shape(Move(Put(t, claim, Directory), p, claim + [ENTRY]))
  {
    var u0, entry := Put(t, claim, Directory), claim + [ENTRY];
    AfterRename(t, p, claim);
    NamesAreDisjoint(Last(claim));
    Shapes.SpotKept(t, u0, Parent(p), claim);
    Shapes.SpotKept(u0, Remove(u0, p), claim, p);
    Shapes.SpotKept(Remove(u0, p), Put(Remove(u0, p), entry, t[p]), claim, entry);
    assert !Placed(Put(Remove(u0, p), entry, t[p]), claim);
  }

  lemma EntryAfterRename(t: Tree, p: Path, claim: Path)
    requires Shapes.Sound(t) && p in t && p != [] && p != [LEASE] && claim != [] && Parent(claim) == Parent(p)
    requires CleanupSegment(Last(claim)) && claim !in t && Below(t, p) == {} && !InClaim(t, p)
    ensures Shape(Move(Put(t, claim, Directory), p, claim + [ENTRY])) <==> SpotOf(t, p) != Some(Claim(HeldFile))
  {
    hide Shapes.Sound, Below, Move, CleanupSegment, RunSegment, Shape, SpotOf;
    var u0, entry := Put(t, claim, Directory), claim + [ENTRY];
    SoundShape(t);
    AfterRename(t, p, claim);
    assert claim == Parent(p) + [Last(claim)];
    ClaimFits(t, p, Last(claim));
    Shapes.RemoveKeeps(u0, p);
    var u1 := Remove(u0, p);
    assert Parent(entry) == claim && Last(entry) == ENTRY;
    ClaimSpot(t, p, claim);
    Shapes.SpotKept(u0, u1, claim, p);
    if Descend(SpotOf(u1, claim).value, ENTRY, t[p]).Some? {
      Shapes.PutKeeps(u1, entry, t[p]);
      SoundShape(Put(u1, entry, t[p]));
    } else {
      Misfit(u1, entry, t[p]);
    }
  }

  lemma SoundShape(t: Tree)
    requires Shapes.Sound(t)
    ensures Shape(t) && IsTree(t)
  {
  }

  lemma Misfit(t: Tree, p: Path, kind: Kind)
    requires p != [] && SpotOf(t, Parent(p)).Some? && Descend(SpotOf(t, Parent(p)).value, Last(p), kind).None?
    ensures !Shape(Put(t, p, kind))
  {
    Shapes.SpotKept(t, Put(t, p, kind), Parent(p), p);
    assert !Placed(Put(t, p, kind), p);
  }

  /** The claim beside an entry, and when it will hold that entry. */
  lemma ClaimSpot(t: Tree, p: Path, claim: Path)
    requires Shapes.Sound(t) && p in t && p != [] && p != [LEASE] && claim != [] && Parent(claim) == Parent(p)
    requires CleanupSegment(Last(claim)) && claim !in t && !InClaim(t, p)
    ensures var spot := SpotOf(Put(t, claim, Directory), claim);
      spot.Some? && (Descend(spot.value, ENTRY, t[p]).Some? <==> SpotOf(t, p) != Some(Claim(HeldFile)))
  {
    hide CleanupSegment, RunSegment, PayloadSegment, IsTree;
    Shapes.SpotKept(t, Put(t, claim, Directory), Parent(p), claim);
    ParentSpot(t, p);
    NamesAreDisjoint(Last(claim));
    assert Placed(t, p);
    assert p == Parent(p) + [Last(p)];
  }

  /** Stopped after the rename, it is accepted exactly when moreover the node is not itself
      the claim of a file: that claim would be the directory in a claim made for a file. */
  lemma InterruptedByRename(t: Tree, p: Path, uuid: string)
    requires Shapes.Sound(t) && SingleLinks(t) && p in t && p != [] && p != [LEASE] && Below(t, p) == {}
    requires CleanupSegment(uuid) && Parent(p) + [uuid] !in t
    ensures var claim := Parent(p) + [uuid]; var u := Move(Put(t, claim, Directory), p, claim + [ENTRY]);
      Shape(u) && SingleLinks(u) <==> !InClaim(t, p) && SpotOf(t, p) != Some(Claim(HeldFile))
  {
    hide Shape;
    var claim := Parent(p) + [uuid];
    assert Parent(claim) == Parent(p) && Last(claim) == uuid;
    AfterRename(t, p, claim);
    if InClaim(t, p) {
      ClaimStaysMisplaced(t, p, claim);
    } else {
      EntryAfterRename(t, p, claim);
    }
  }
}
