/** What creating, removing and renaming single entries of a root does to its shape: to the
    places its entries have and to what is expected there. */
module CurrentRunShape {
  import opened CurrentRunTree

  // ---------- directory changes keep the shape ----------

  ghost predicate Sound(t: Tree) {
    IsTree(t) && Shape(t)
  }

  predicate SameKind(a: Kind, b: Kind) {
    a == b || (a.File? && b.File?)
  }

  predicate SameAt(t: Tree, u: Tree, p: Path) {
    (p in t <==> p in u) && (p in t ==> SameKind(t[p], u[p]))
  }

  /** The place of an entry depends only on the entries above it and itself. */
  lemma {:induction false} SpotAgrees(t: Tree, u: Tree, p: Path)
    requires forall k :: 1 <= k <= |p| ==> SameAt(t, u, p[..k])
    ensures SpotOf(t, p) == SpotOf(u, p)
  {
    if p != [] {
      forall k | 1 <= k <= |Parent(p)| ensures SameAt(t, u, Parent(p)[..k]) { assert Parent(p)[..k] == p[..k]; }
      SpotAgrees(t, u, Parent(p));
      assert p[..|p|] == p;
      assert SameAt(t, u, p[..|p|]);
    }
  }

  /** A change at or below paths that are not above `p` leaves the place of `p`. */
  lemma SpotKept(t: Tree, u: Tree, p: Path, changed: Path)
    requires forall q :: !(changed <= q) ==> SameAt(t, u, q)
    requires !(changed <= p)
    ensures SpotOf(t, p) == SpotOf(u, p)
  {
    forall k | 1 <= k <= |p| ensures SameAt(t, u, p[..k]) {
      assert changed <= p[..k] ==> changed <= p by { assert p[..k] <= p; }
    }
    SpotAgrees(t, u, p);
  }

  lemma NewIsLeaf(t: Tree, p: Path, q: Path)
    requires IsTree(t) && p !in t && q in t
    ensures !(p <= q)
  {
    if p <= q {
      assert q[..|p|] == p;
      PrefixInTree(t, q, |p|);
    }
  }

  lemma PutKeeps(t: Tree, p: Path, kind: Kind)
    requires Sound(t) && p != [] && p !in t && IsDirectory(t, Parent(p))
    requires Descend(SpotOf(t, Parent(p)).value, Last(p), kind).Some?
    ensures Sound(Put(t, p, kind))
  {
    var u := Put(t, p, kind);
    SpotKept(t, u, Parent(p), p);
    forall q | q in u ensures Placed(u, q) {
      if q != p {
        NewIsLeaf(t, p, q);
        SpotKept(t, u, q, p);
      }
    }
  }

  lemma NotAtOrBelow(t: Tree, p: Path, q: Path)
    requires Below(t, p) == {} && q in Remove(t, p)
    ensures !(p <= q)
  {
    assert p <= q && |p| == |q| ==> p == q;
    assert p < q ==> q in Below(t, p);
  }

  lemma RemoveKeeps(t: Tree, p: Path)
    requires Sound(t) && p != [] && Below(t, p) == {}
    ensures Sound(Remove(t, p))
  {
    hide IsTree, Below;
    var u := Remove(t, p);
    RemoveKeepsTree(t, p);
    forall q | q in u ensures Placed(u, q) {
      NotAtOrBelow(t, p, q);
      SpotKept(t, u, q, p);
    }
  }

  lemma RelinkKeeps(t: Tree, p: Path, links: nat)
    requires Sound(t) && p in t && t[p].File?
    ensures Sound(Put(t, p, File(links)))
  {
    var u := Put(t, p, File(links));
    forall q | q in u ensures Placed(u, q) {
      forall k | 1 <= k <= |q| ensures SameAt(t, u, q[..k]) {}
      SpotAgrees(t, u, q);
    }
  }

  lemma SamePlaceDistinct(p: Path, q: Path)
    requires p != q && |p| == |q|
    ensures !(p <= q) && !(q <= p)
  {
  }

  // ---------- a rename into or out of a claim keeps the shape ----------

  ghost predicate MoveFits(t: Tree, src: Path, dst: Path) {
    && CanMove(t, src, dst) && src != [] && dst != [] && IsDirectory(t, Parent(dst)) && !(src <= Parent(dst))
    && SpotOf(t, Parent(dst)).Some?
    && Descend(SpotOf(t, Parent(dst)).value, Last(dst), t[src]) == SpotOf(t, src)
  }

  lemma MovedElsewhere(t: Tree, src: Path, dst: Path, q: Path)
    requires MoveFits(t, src, dst) && !(src <= q) && !(dst <= q)
    ensures SpotOf(Move(t, src, dst), q) == SpotOf(t, q)
  {
    var u := Move(t, src, dst);
    forall k | 1 <= k <= |q| ensures SameAt(t, u, q[..k]) {
      MoveContents(t, src, dst, q[..k]);
      assert q[..k] <= q;
    }
    SpotAgrees(t, u, q);
  }

  /** What is renamed keeps its place: the claim expects of its entry what the
      directory beside it expected. */
  lemma {:induction false} MovedAlong(t: Tree, src: Path, dst: Path, rest: Path)
    requires MoveFits(t, src, dst)
    ensures SpotOf(Move(t, src, dst), dst + rest) == SpotOf(t, src + rest)
  {
    hide Descend, Move;
    var u := Move(t, src, dst);
    MoveContents(t, src, dst, dst + rest);
    assert (dst + rest)[|dst|..] == rest;
    if rest == [] {
      assert dst + rest == dst && src + rest == src;
      MovedElsewhere(t, src, dst, Parent(dst));
    } else {
      MovedAlong(t, src, dst, Parent(rest));
      assert Parent(dst + rest) == dst + Parent(rest) && Parent(src + rest) == src + Parent(rest);
      assert Last(dst + rest) == Last(rest) == Last(src + rest);
    }
  }

  lemma MoveKeeps(t: Tree, src: Path, dst: Path)
    requires Sound(t) && MoveFits(t, src, dst)
    ensures Sound(Move(t, src, dst))
  {
    var u := Move(t, src, dst);
    forall q | q in u ensures Placed(u, q) {
      MoveContents(t, src, dst, q);
      if dst <= q {
        assert dst + q[|dst|..] == q;
        MovedAlong(t, src, dst, q[|dst|..]);
      } else {
        MovedElsewhere(t, src, dst, q);
      }
    }
    MoveKeepsTree(t, src, dst);
  }

  lemma ParentMoves(t: Tree, src: Path, dst: Path, q: Path)
    requires IsTree(t) && MoveFits(t, src, dst) && q in Move(t, src, dst) && q != []
    ensures IsDirectory(Move(t, src, dst), Parent(q))
  {
    hide SpotOf, Descend;
    MoveContents(t, src, dst, q);
    MoveContents(t, src, dst, Parent(q));
    if dst < q {
      var rest := q[|dst|..];
      assert Parent(src + rest) == src + Parent(rest);
      assert dst <= Parent(q) && Parent(q)[|dst|..] == Parent(rest);
    } else if q != dst {
      ParentIsAbove(src, q);
      ParentIsAbove(dst, q);
    }
  }

  lemma ParentIsAbove(p: Path, q: Path)
    requires q != []
    ensures p <= Parent(q) ==> p <= q
  {
    assert Parent(q) <= q;
  }

  lemma RootStays(t: Tree, src: Path, dst: Path)
    requires IsTree(t) && MoveFits(t, src, dst)
    ensures IsDirectory(Move(t, src, dst), [])
  {
    MoveContents(t, src, dst, []);
  }

  lemma MoveKeepsTree(t: Tree, src: Path, dst: Path)
    requires IsTree(t) && MoveFits(t, src, dst)
    ensures IsTree(Move(t, src, dst))
  {
    hide SpotOf, Descend, Move, IsDirectory;
    var u := Move(t, src, dst);
    RootStays(t, src, dst);
    forall q | q in u && q != [] ensures IsDirectory(u, Parent(q)) { ParentMoves(t, src, dst, q); }
  }

  lemma MoveSource(t: Tree, src: Path, dst: Path, q: Path)
    requires MoveFits(t, src, dst) && q in Move(t, src, dst) && q != []
    ensures var o := Redirect(q, dst, src);
      o in t && t[o] == Move(t, src, dst)[q] && o != [] && (o == q || (src <= o && o[0] == src[0]))
  {
    MoveContents(t, src, dst, q);
  }
}
