/** Recovery of a current-run root: the scan accepts exactly the acceptable trees, and the
    deletion that follows leaves exactly the lease; a refused tree is left untouched. */
module CurrentRunRecovery {
  import opened Basics
  import opened CurrentRunTree
  import opened CurrentRunLayout

  // ---------- the inventory ----------

  /** An entry recovery may delete or keep as the lease: in its place, and not a second link. */
  predicate Good(t: Tree, p: Path) {
    p in t && Placed(t, p) && SingleLink(t, p)
  }

  /** `seen` holds good entries only, with every entry its parents below the root. */
  ghost predicate Seen(t: Tree, seen: set<Path>) {
    forall q :: q in seen ==> q != [] && Good(t, q) && (Parent(q) == [] || Parent(q) in seen)
  }

  /** `nodes` lists `seen` except the lease, without repetition and parents first. */
  ghost predicate Lists(nodes: seq<Path>, seen: set<Path>) {
    && (forall i :: 0 <= i < |nodes| ==> nodes[i] in seen && nodes[i] != [LEASE] && nodes[i] != [])
    && (forall q :: q in seen && q != [LEASE] ==> q in nodes)
    && (forall i, j :: 0 <= i < j < |nodes| ==> nodes[i] != nodes[j] && nodes[j] != Parent(nodes[i]))
  }

  ghost predicate Inventory(t: Tree, nodes: seq<Path>, seen: set<Path>) {
    Seen(t, seen) && Lists(nodes, seen)
  }

  lemma AppendNode(t: Tree, nodes: seq<Path>, seen: set<Path>, q: Path)
    requires Inventory(t, nodes, seen)
    requires q != [] && q != [LEASE] && q !in seen && Good(t, q) && (Parent(q) == [] || Parent(q) in seen)
    ensures Inventory(t, nodes + [q], seen + {q})
  {
    var all := nodes + [q];
    forall r | r in seen + {q} && r != [LEASE] ensures r in all {
      if r != q { assert r in nodes; } else { assert all[|nodes|] == q; }
    }
    forall i, j | 0 <= i < j < |all| ensures all[i] != all[j] && all[j] != Parent(all[i]) {
      if j == |nodes| { assert all[i] == nodes[i] && nodes[i] in seen; }
    }
  }

  lemma AppendLease(t: Tree, nodes: seq<Path>, seen: set<Path>)
    requires Inventory(t, nodes, seen) && [LEASE] !in seen && Good(t, [LEASE])
    ensures Inventory(t, nodes, seen + {[LEASE]})
  {
  }

  // ---------- counting ----------

  lemma RoomFor(t: Tree, seen: set<Path>, more: set<Path>)
    requires seen <= Below(t, []) && more <= Below(t, []) && seen !! more
    ensures |seen| + |more| <= |Below(t, [])|
  {
    assert |seen + more| == |seen| + |more|;
    SubsetSize(seen + more, Below(t, []));
  }

  function Entries(p: Path, names: set<string>): set<Path> {
    set n | n in names :: p + [n]
  }

  lemma {:induction false} EntriesSize(p: Path, names: set<string>)
    ensures |Entries(p, names)| == |names|
  {
    if names != {} {
      var n :| n in names;
      EntriesSize(p, names - {n});
      assert Entries(p, names) == Entries(p, names - {n}) + {p + [n]};
      forall m | m in names - {n} ensures p + [m] != p + [n] {
        assert (p + [m])[|p|] == m && (p + [n])[|p|] == n;
      }
    }
  }

  /** The entries below `p` that lie at or below one of the names. */
  ghost function Under(t: Tree, p: Path, names: set<string>): set<Path> {
    set q | q in t && p < q && q[|p|] in names
  }

  lemma UnderGrows(t: Tree, p: Path, names: set<string>, n: string)
    requires p + [n] in t
    ensures Under(t, p, names + {n}) == Under(t, p, names) + {p + [n]} + Below(t, p + [n])
    ensures n !in names ==> Under(t, p, names) !! {p + [n]} + Below(t, p + [n])
    ensures {p + [n]} + Below(t, p + [n]) <= Below(t, p)
  {
    forall q | q in t && p < q && q[|p|] == n ensures q == p + [n] || p + [n] < q {
      assert q[..|p| + 1] == p + [n];
      if |q| == |p| + 1 { assert q == p + [n]; }
    }
    forall q | q in t && p + [n] <= q ensures p < q && q[|p|] == n {
      assert q[|p|] == (p + [n])[|p|];
    }
  }

  lemma UnderAll(t: Tree, p: Path)
    requires IsTree(t)
    ensures Under(t, p, Children(t, p)) == Below(t, p)
  {
    forall q | q in Below(t, p) ensures q[|p|] in Children(t, p) { BelowHasChild(t, p, q); }
  }

  // ---------- the scan ----------

  /** What the scan knows between two entries: it has counted what it has seen. */
  ghost predicate Counted(t: Tree, nodes: seq<Path>, entries: nat, seen: set<Path>) {
    Inventory(t, nodes, seen) && |seen| == entries && seen <= Below(t, [])
  }

  lemma CountNode(t: Tree, nodes: seq<Path>, entries: nat, seen: set<Path>, q: Path)
    requires Counted(t, nodes, entries, seen)
    requires q != [] && q != [LEASE] && q !in seen && Good(t, q) && (Parent(q) == [] || Parent(q) in seen)
    ensures Counted(t, nodes + [q], entries + 1, seen + {q})
  {
    AppendNode(t, nodes, seen, q);
  }

  lemma CountLease(t: Tree, nodes: seq<Path>, entries: nat, seen: set<Path>)
    requires Counted(t, nodes, entries, seen) && [LEASE] !in seen && Good(t, [LEASE])
    ensures Counted(t, nodes, entries + 1, seen + {[LEASE]})
  {
    AppendLease(t, nodes, seen);
  }

  /** An entry beyond the limit refutes the tree. */
  lemma TooMany(t: Tree, entries: nat, seen: set<Path>, q: Path)
    requires |seen| == entries && seen <= Below(t, []) && q in t && q != [] && q !in seen
    ensures entries + 1 <= |Below(t, [])|
  {
    RoomFor(t, seen, {q});
  }

  predicate Scannable(spot: Spot) {
    spot.Root? || spot.Run? || spot.Payload?
  }

  /** `scanRecoveryDirectory`, for the entries of one directory in any order. */
  method ScanDirectory(t: Tree, p: Path, spot: Spot, nodes0: seq<Path>, entries0: nat, ghost seen0: set<Path>)
    returns (ok: bool, nodes: seq<Path>, entries: nat, ghost seen: set<Path>)
    requires IsTree(t) && IsDirectory(t, p) && SpotOf(t, p) == Some(spot) && Scannable(spot)
    requires Counted(t, nodes0, entries0, seen0) && entries0 <= RECOVERY_MAX_ENTRIES
    requires seen0 !! Below(t, p) && (p == [] || p in seen0)
    ensures ok ==> Counted(t, nodes, entries, seen) && seen == seen0 + Below(t, p)
    ensures ok ==> entries <= RECOVERY_MAX_ENTRIES && (spot.Root? ==> |Children(t, p)| <= ROOT_MAX_ENTRIES)
    ensures !ok ==> !Acceptable(t)
    decreases 6 - |p|, 2
  {
    hide Counted, Placed, IsTree, IsDirectory, Under, Below, Children, Acceptable, SpotOf, Scannable;
    ok, nodes, entries, seen := false, nodes0, entries0, seen0;
    DepthFitsHere(t, p, spot);
    assert |p| <= RECOVERY_MAX_DEPTH;  // the depth limit is never met
    var remaining := RECOVERY_MAX_ENTRIES - entries;
    var maximum := if spot.Root? && ROOT_MAX_ENTRIES < remaining then ROOT_MAX_ENTRIES else remaining;
    var names := Children(t, p);
    if |names| > maximum {
      CrowdedDirectory(t, p, spot, nodes, entries, seen);
      return;
    }
    var rest, done := names, {};
    UnderNothing(t, p);
    while rest != {}
      invariant rest !! done && rest + done == names
      invariant Counted(t, nodes, entries, seen) && seen == seen0 + Under(t, p, done)
      invariant entries <= RECOVERY_MAX_ENTRIES
      decreases |rest|
    {
      var name :| name in rest;
      StepApart(t, p, seen0, done, name);
      ok, nodes, entries, seen := ScanEntry(t, p, spot, name, nodes, entries, seen);
      if !ok {
        return;
      }
      rest, done := rest - {name}, done + {name};
      ok := false;
    }
    assert done == names;
    UnderAll(t, p);
    ok := true;
  }

  lemma DepthFitsHere(t: Tree, p: Path, spot: Spot)
    requires SpotOf(t, p) == Some(spot)
    ensures DepthFits(p, spot)
  {
    DepthBounded(t, p);
  }

  lemma UnderNothing(t: Tree, p: Path)
    ensures Under(t, p, {}) == {}
  {
  }

  lemma StepApart(t: Tree, p: Path, seen0: set<Path>, done: set<string>, name: string)
    requires IsTree(t) && name in Children(t, p) && name !in done && seen0 !! Below(t, p)
    ensures p + [name] in t && seen0 + Under(t, p, done) !! {p + [name]} + Below(t, p + [name])
    ensures Under(t, p, done + {name}) == Under(t, p, done) + {p + [name]} + Below(t, p + [name])
  {
    ChildIsEntry(t, p, name);
    UnderGrows(t, p, done, name);
  }

  lemma CrowdedDirectory(t: Tree, p: Path, spot: Spot, nodes: seq<Path>, entries: nat, seen: set<Path>)
    requires IsTree(t) && SpotOf(t, p) == Some(spot) && entries <= RECOVERY_MAX_ENTRIES
    requires Counted(t, nodes, entries, seen) && seen !! Below(t, p)
    requires |Children(t, p)| > RECOVERY_MAX_ENTRIES - entries || (spot.Root? && |Children(t, p)| > ROOT_MAX_ENTRIES)
    ensures !Acceptable(t)
  {
    var names := Children(t, p);
    EntriesSize(p, names);
    forall n | n in names ensures p + [n] in Below(t, p) && p + [n] in Below(t, []) { ChildIsEntry(t, p, n); }
    RoomFor(t, seen, Entries(p, names));
    if spot.Root? { DepthBounded(t, p); }
  }

  predicate SafeFile(kind: Kind) {
    kind == File(1)
  }

  lemma EntryFacts(t: Tree, p: Path, spot: Spot, name: string)
    requires SpotOf(t, p) == Some(spot) && p + [name] in t
    ensures Parent(p + [name]) == p && SpotOf(t, p + [name]) == Descend(spot, name, t[p + [name]])
    ensures DepthFits(p, spot) && ((p + [name] == [LEASE]) <==> spot.Root? && name == LEASE)
    ensures Good(t, p + [name]) <==> Descend(spot, name, t[p + [name]]).Some? && SingleLink(t, p + [name])
  {
    assert Parent(p + [name]) == p;
    DepthBounded(t, p);
    assert (p + [name])[|p|] == name;
    if p + [name] == [LEASE] { assert |p| == 0; }
  }

  lemma Misplaced(t: Tree, q: Path)
    requires q in t && !Good(t, q)
    ensures !Acceptable(t)
  {
  }

  lemma LimitExceeded(t: Tree, entries: nat, seen: set<Path>, q: Path)
    requires |seen| == entries && seen <= Below(t, []) && q in t && q != [] && q !in seen
    requires entries + 1 > RECOVERY_MAX_ENTRIES
    ensures !Acceptable(t)
  {
    TooMany(t, entries, seen, q);
  }

  /** `recoveryFile`: a plain file that has no other link becomes a node. */
  method ScanFile(t: Tree, q: Path, nodes0: seq<Path>, entries0: nat, ghost seen0: set<Path>)
    returns (ok: bool, nodes: seq<Path>, entries: nat, ghost seen: set<Path>)
    requires IsTree(t) && q in t && Counted(t, nodes0, entries0, seen0) && entries0 <= RECOVERY_MAX_ENTRIES - 1
    requires q != [] && q != [LEASE] && q !in seen0 && (Parent(q) == [] || Parent(q) in seen0)
    requires Good(t, q) <==> SafeFile(t[q])
    ensures ok ==> Counted(t, nodes, entries, seen) && seen == seen0 + {q} + Below(t, q)
    ensures ok ==> entries <= RECOVERY_MAX_ENTRIES
    ensures !ok ==> !Acceptable(t)
  {
    hide Counted, IsTree, Below, Acceptable;
    ok, nodes, entries, seen := false, nodes0, entries0, seen0;
    if !SafeFile(t[q]) {
      Misplaced(t, q);
      return;
    }
    CountNode(t, nodes0, entries0, seen0, q);
    NothingBelow(t, q);
    ok, nodes, entries, seen := true, nodes0 + [q], entries0 + 1, seen0 + {q};
  }

  /** `recoveryDirectory` and the scan of what it holds. */
  method ScanSubdirectory(t: Tree, q: Path, spot: Spot, nodes0: seq<Path>, entries0: nat, ghost seen0: set<Path>)
    returns (ok: bool, nodes: seq<Path>, entries: nat, ghost seen: set<Path>)
    requires IsTree(t) && q in t && Counted(t, nodes0, entries0, seen0) && entries0 <= RECOVERY_MAX_ENTRIES - 1
    requires q != [] && q != [LEASE] && seen0 !! {q} + Below(t, q) && (Parent(q) == [] || Parent(q) in seen0)
    requires Scannable(spot) && (if t[q] == Directory then SpotOf(t, q) == Some(spot) else !Good(t, q))
    requires |q| <= 6
    ensures ok ==> Counted(t, nodes, entries, seen) && seen == seen0 + {q} + Below(t, q)
    ensures ok ==> entries <= RECOVERY_MAX_ENTRIES
    ensures !ok ==> !Acceptable(t)
    decreases 6 - |q|, 3
  {
    hide Counted, IsTree, Below, Acceptable;
    ok, nodes, entries, seen := false, nodes0, entries0, seen0;
    if t[q] != Directory {
      Misplaced(t, q);
      return;
    }
    CountNode(t, nodes0, entries0, seen0, q);
    NotBelowItself(t, q);
    ok, nodes, entries, seen := ScanDirectory(t, q, spot, nodes0 + [q], entries0 + 1, seen0 + {q});
  }

  lemma NotBelowItself(t: Tree, q: Path)
    ensures q !in Below(t, q)
  {
  }

  lemma ClaimIsGood(t: Tree, q: Path, held: Held)
    requires q in t && t[q] == Directory && SpotOf(t, q) == Some(Claim(held))
    ensures Good(t, q)
  {
  }

  /** `scanRecoveryClaim`: a claim holds nothing or the one entry it was made for. */
  method ScanClaim(t: Tree, q: Path, held: Held, nodes0: seq<Path>, entries0: nat, ghost seen0: set<Path>)
    returns (ok: bool, nodes: seq<Path>, entries: nat, ghost seen: set<Path>)
    requires IsTree(t) && q in t && Counted(t, nodes0, entries0, seen0) && entries0 <= RECOVERY_MAX_ENTRIES - 1
    requires q != [] && q != [LEASE] && seen0 !! {q} + Below(t, q) && (Parent(q) == [] || Parent(q) in seen0)
    requires (t[q] == Directory ==> SpotOf(t, q) == Some(Claim(held))) && (t[q] != Directory ==> !Good(t, q))
    requires |q| <= 5
    ensures ok ==> Counted(t, nodes, entries, seen) && seen == seen0 + {q} + Below(t, q)
    ensures ok ==> entries <= RECOVERY_MAX_ENTRIES
    ensures !ok ==> !Acceptable(t)
    decreases 6 - |q|, 0
  {
    assert |q| <= RECOVERY_MAX_DEPTH;  // the depth limit is never met
    hide *;
    ok, nodes, entries, seen := false, nodes0, entries0, seen0;
    if t[q] != Directory {
      Misplaced(t, q);
      return;
    }
    ClaimIsGood(t, q, held);
    CountNode(t, nodes0, entries0, seen0, q);
    nodes, entries, seen := nodes0 + [q], entries0 + 1, seen0 + {q};
    if Children(t, q) == {} {
      NothingBelow(t, q);
      ok := true;
    } else {
      NotBelowItself(t, q);
      ok, nodes, entries, seen := ScanClaimed(t, q, held, nodes, entries, seen);
    }
  }

  /** The one entry of a claim. */
  method ScanClaimed(t: Tree, q: Path, held: Held, nodes0: seq<Path>, entries0: nat, ghost seen0: set<Path>)
    returns (ok: bool, nodes: seq<Path>, entries: nat, ghost seen: set<Path>)
    requires IsTree(t) && SpotOf(t, q) == Some(Claim(held)) && Children(t, q) != {}
    requires Counted(t, nodes0, entries0, seen0) && entries0 <= RECOVERY_MAX_ENTRIES
    requires q in seen0 && seen0 !! Below(t, q) && 1 <= |q| <= 5
    ensures ok ==> Counted(t, nodes, entries, seen) && seen == seen0 + Below(t, q)
    ensures ok ==> entries <= RECOVERY_MAX_ENTRIES
    ensures !ok ==> !Acceptable(t)
    decreases 5 - |q|, 4
  {
    hide Counted, IsTree, Below, Acceptable, Children, Good;
    ok, nodes, entries, seen := false, nodes0, entries0, seen0;
    if Children(t, q) != {ENTRY} {
      ForeignInClaim(t, q, held);
      return;
    }
    ClaimEntry(t, q);
    if entries + 1 > RECOVERY_MAX_ENTRIES {
      LimitExceededBy(t, nodes, entries, seen, q + [ENTRY]);
      return;
    }
    EntryFacts(t, q, Claim(held), ENTRY);
    if held.HeldFile? {
      ok, nodes, entries, seen := ScanFile(t, q + [ENTRY], nodes, entries, seen);
    } else {
      ok, nodes, entries, seen :=
        ScanSubdirectory(t, q + [ENTRY], if held.HeldRun? then Run else Payload, nodes, entries, seen);
    }
  }

  lemma LimitExceededBy(t: Tree, nodes: seq<Path>, entries: nat, seen: set<Path>, q: Path)
    requires Counted(t, nodes, entries, seen) && q in t && q != [] && q !in seen
    requires entries + 1 > RECOVERY_MAX_ENTRIES
    ensures !Acceptable(t)
  {
    LimitExceeded(t, entries, seen, q);
  }

  lemma OtherName(names: set<string>)
    ensures names == {} || names == {ENTRY} || exists n :: n in names && n != ENTRY
  {
    if names != {} && forall n :: n in names ==> n == ENTRY {
      var n :| n in names;
      assert names == {ENTRY};
    }
  }

  lemma ForeignInClaim(t: Tree, q: Path, held: Held)
    requires SpotOf(t, q) == Some(Claim(held)) && Children(t, q) != {} && Children(t, q) != {ENTRY}
    ensures !Acceptable(t)
  {
    OtherName(Children(t, q));
    var n :| n in Children(t, q) && n != ENTRY;
    ChildIsEntry(t, q, n);
    EntryFacts(t, q, Claim(held), n);
    Misplaced(t, q + [n]);
  }

  lemma ClaimEntry(t: Tree, q: Path)
    requires IsTree(t) && Children(t, q) == {ENTRY}
    ensures q + [ENTRY] in t && Below(t, q) == {q + [ENTRY]} + Below(t, q + [ENTRY])
    ensures q !in {q + [ENTRY]} + Below(t, q + [ENTRY])
  {
    ChildIsEntry(t, q, ENTRY);
    UnderAll(t, q);
    UnderGrows(t, q, {}, ENTRY);
    assert {} + {ENTRY} == {ENTRY};
    UnderNothing(t, q);
    assert Under(t, q, {ENTRY}) == {q + [ENTRY]} + Below(t, q + [ENTRY]);
  }

  /** One entry of a directory: the lease, a cleanup claim, a run, a payload directory or a file. */
  method ScanEntry(t: Tree, p: Path, spot: Spot, name: string, nodes0: seq<Path>, entries0: nat, ghost seen0: set<Path>)
    returns (ok: bool, nodes: seq<Path>, entries: nat, ghost seen: set<Path>)
    requires IsTree(t) && SpotOf(t, p) == Some(spot) && Scannable(spot) && p + [name] in t
    requires Counted(t, nodes0, entries0, seen0) && entries0 <= RECOVERY_MAX_ENTRIES
    requires seen0 !! {p + [name]} + Below(t, p + [name]) && (p == [] || p in seen0)
    ensures ok ==> Counted(t, nodes, entries, seen) && seen == seen0 + {p + [name]} + Below(t, p + [name])
    ensures ok ==> entries <= RECOVERY_MAX_ENTRIES
    ensures !ok ==> !Acceptable(t)
    decreases 6 - |p|, 1
  {
    hide Counted, IsTree, Below, Acceptable, Good, CleanupSegment, RunSegment;
    var q := p + [name];
    ok, nodes, entries, seen := false, nodes0, entries0, seen0;
    EntryFacts(t, p, spot, name);
    NamesAreDisjoint(name);
    if entries0 + 1 > RECOVERY_MAX_ENTRIES {
      LimitExceededBy(t, nodes0, entries0, seen0, q);
    } else if spot.Root? && name == LEASE {
      ok, nodes, entries, seen := ScanLease(t, nodes0, entries0, seen0);
    } else if spot.Payload? && t[q] != Directory {
      ok, nodes, entries, seen := ScanFile(t, q, nodes0, entries0, seen0);
    } else if CleanupSegment(name) {
      var held := if spot.Root? then HeldRun else if spot.Run? then HeldPayload else HeldFile;
      ok, nodes, entries, seen := ScanClaim(t, q, held, nodes0, entries0, seen0);
    } else if (spot.Root? && RunSegment(name)) || (spot.Run? && PayloadSegment(name)) {
      ok, nodes, entries, seen :=
        ScanSubdirectory(t, q, if spot.Root? then Run else Payload, nodes0, entries0, seen0);
    } else {
      Misplaced(t, q);
    }
  }

  /** The lease is an anchor: checked like a file, kept out of the nodes. */
  method ScanLease(t: Tree, nodes0: seq<Path>, entries0: nat, ghost seen0: set<Path>)
    returns (ok: bool, nodes: seq<Path>, entries: nat, ghost seen: set<Path>)
    requires IsTree(t) && [LEASE] in t && Counted(t, nodes0, entries0, seen0) && entries0 <= RECOVERY_MAX_ENTRIES - 1
    requires [LEASE] !in seen0 && (Good(t, [LEASE]) <==> SafeFile(t[[LEASE]]))
    ensures ok ==> Counted(t, nodes, entries, seen) && seen == seen0 + {[LEASE]} + Below(t, [LEASE])
    ensures ok ==> entries <= RECOVERY_MAX_ENTRIES
    ensures !ok ==> !Acceptable(t)
  {
    hide Counted, IsTree, Below, Acceptable;
    ok, nodes, entries, seen := false, nodes0, entries0, seen0;
    if !SafeFile(t[[LEASE]]) {
      Misplaced(t, [LEASE]);
      return;
    }
    CountLease(t, nodes0, entries0, seen0);
    NothingBelow(t, [LEASE]);
    ok, entries, seen := true, entries0 + 1, seen0 + {[LEASE]};
  }

  // ---------- deletion ----------

  /** What is left when of all the inventory only `nodes` is still there. */
  ghost function Kept(t: Tree, nodes: seq<Path>): Tree {
    map p | p in t && (p == [] || p == [LEASE] || p in nodes) :: t[p]
  }

  class RunRoot {
    var tree: Tree

    constructor (t: Tree)
      ensures tree == t
    {
      tree := t;
    }

    /** `claimAndDelete` for an entry expected to be a directory or a file; an entry that
        is gone counts as deleted, anything unexpected or a non-empty directory stays. */
    method ClaimAndDelete(p: Path, isDirectory: bool, claim: Path) returns (ok: bool)
      requires IsTree(tree) && FreshClaim(tree, p, claim)
      modifies this
      ensures ok <==>
        p !in old(tree) ||
        (if isDirectory then old(tree)[p] == Directory && Children(old(tree), p) == {} else SafeFile(old(tree)[p]))
      ensures tree == if ok then Remove(old(tree), p) else old(tree)
      ensures IsTree(tree)
    {
      ok := true;
      if p !in tree {
        assert Remove(tree, p) == tree;
        return;
      }
      ok := if isDirectory then tree[p] == Directory && Children(tree, p) == {} else SafeFile(tree[p]);
      if ok {
        NothingBelow(tree, p);
        DeleteThroughRemoves(tree, p, claim);
        RemoveKeepsTree(tree, p);
        tree := Put(tree, claim, Directory);
        tree := Move(tree, p, claim + [ENTRY]);
        tree := Remove(tree, claim + [ENTRY]);
        tree := Remove(tree, claim);
      }
    }

    /** `recoverCurrentRunRoot`. `uuids` are the names the claims get. */
    method Recover(uuids: nat -> string) returns (ok: bool)
      requires IsTree(tree)
      requires forall i, p :: p in tree ==> uuids(i) !in p
      modifies this
      ensures ok <==> Acceptable(old(tree)) && [LEASE] in old(tree)
      ensures tree == if Acceptable(old(tree)) then Kept(old(tree), []) else old(tree)
      ensures ok ==> tree == map[[] := Directory, [".mono-agent-current-run.lease.sqlite"] := File(1)]
      ensures (exists p :: p in old(tree) && !Laid(p, old(tree)[p])) ==> !ok && tree == old(tree)
    {
      hide Counted, Acceptable, IsTree, Children, Below, FreshClaim, Laid;
      RecoveryLeaves(tree);
      var nodes: seq<Path>, entries: nat;
      ghost var seen: set<Path>;
      ghost var t := tree;
      StartScan(t);
      ok, nodes, entries, seen := ScanDirectory(tree, [], Root, [], 0, {});
      if !ok {
        return;
      }
      ScanComplete(t, nodes, entries, seen);
      var i := |nodes|;
      while i > 0
        invariant 0 <= i <= |nodes|
        invariant IsTree(tree) && tree == Kept(t, nodes[..i])
      {
        i := i - 1;
        NodeIsLast(t, nodes, i, uuids(i));
        var gone := ClaimAndDelete(nodes[i], tree[nodes[i]] == Directory, Parent(nodes[i]) + [uuids(i)]);
        assert gone;
      }
      assert nodes[..0] == [];
      ok := [LEASE] in tree;
    }
  }

  lemma RecoveryLeaves(t: Tree)
    requires IsTree(t)
    ensures Acceptable(t) && [LEASE] in t ==> Kept(t, []) == map[[] := Directory, [LEASE] := File(1)]
    ensures (exists p :: p in t && !Laid(p, t[p])) ==> !Acceptable(t)
  {
    hide Acceptable, IsTree, Laid;
    assert t[[]] == Directory by { RootIsDirectory(t); }
    if Acceptable(t) && [LEASE] in t { AcceptedLease(t); }
    forall p | p in t && !Laid(p, t[p]) ensures !Acceptable(t) { UnknownIsRefused(t, p); }
  }

  lemma StartScan(t: Tree)
    requires IsTree(t)
    ensures Counted(t, [], 0, {}) && SpotOf(t, []) == Some(Root) && IsDirectory(t, [])
  {
  }

  /** What a finished scan of the whole root has established. */
  ghost predicate Complete(t: Tree, nodes: seq<Path>) {
    && Lists(nodes, Below(t, []))
    && (forall p :: p in Below(t, []) ==> Good(t, p))
  }

  lemma ScanComplete(t: Tree, nodes: seq<Path>, entries: nat, seen: set<Path>)
    requires IsTree(t) && Counted(t, nodes, entries, seen)
    requires seen == {} + Below(t, []) && entries <= RECOVERY_MAX_ENTRIES
    requires |Children(t, [])| <= ROOT_MAX_ENTRIES
    ensures Acceptable(t) && Complete(t, nodes) && Kept(t, nodes) == t && nodes[..|nodes|] == nodes
  {
    assert seen == Below(t, []);
    forall p | p in t ensures Placed(t, p) && SingleLink(t, p) && (p == [] || p == [LEASE] || p in nodes) {
      assert p != [] ==> p in Below(t, []);
      assert p != [] ==> Good(t, p);
    }
  }

  lemma PrefixMember(p: Path, q: Path)
    requires p != []
    ensures p <= q ==> Last(p) in q
  {
    if p <= q {
      assert q[|p| - 1] == Last(p);
    }
  }

  lemma FreshBeside(t: Tree, u: Tree, p: Path, uuid: string)
    requires u.Keys <= t.Keys && p in t && p != [] && forall q :: q in t ==> uuid !in q
    ensures FreshClaim(u, p, Parent(p) + [uuid])
  {
    var claim := Parent(p) + [uuid];
    assert claim[|claim| - 1] == uuid;
    assert Parent(claim) == Parent(p);
    forall q | q in u ensures !(claim <= q) { PrefixMember(claim, q); }
  }

  lemma LaterIsNoParent(nodes: seq<Path>, seen: set<Path>, i: nat, q: Path)
    requires Lists(nodes, seen) && i < |nodes| && q in nodes[..i + 1]
    ensures q != [] && Parent(q) != nodes[i]
  {
    var j :| 0 <= j < i + 1 && nodes[j] == q;
    assert |Parent(q)| < |q|;
  }

  /** Deleting from the end, every node is empty when its turn comes. */
  lemma LastIsEmpty(t: Tree, nodes: seq<Path>, i: nat)
    requires IsTree(t) && Complete(t, nodes) && i < |nodes|
    ensures Children(Kept(t, nodes[..i + 1]), nodes[i]) == {}
  {
    var u, p := Kept(t, nodes[..i + 1]), nodes[i];
    forall q | q in u && q != [] ensures Parent(q) != p {
      if q != [LEASE] { LaterIsNoParent(nodes, Below(t, []), i, q); }
    }
  }

  lemma NodeIsLast(t: Tree, nodes: seq<Path>, i: nat, uuid: string)
    requires IsTree(t) && Complete(t, nodes) && i < |nodes| && forall p :: p in t ==> uuid !in p
    ensures var u := Kept(t, nodes[..i + 1]); var p := nodes[i];
      && p != [] && FreshClaim(u, p, Parent(p) + [uuid]) && p in u
      && (if u[p] == Directory then Children(u, p) == {} else SafeFile(u[p]))
      && Remove(u, p) == Kept(t, nodes[..i])
  {
    hide IsTree, Children, Below;
    var u, p := Kept(t, nodes[..i + 1]), nodes[i];
    assert nodes[..i + 1][i] == p;
    FreshBeside(t, u, p, uuid);
    LastIsEmpty(t, nodes, i);
    assert Good(t, p);
    GoodKind(t, p);
    assert nodes[..i + 1] == nodes[..i] + [p];
    assert p !in nodes[..i];
  }

  lemma {:induction false} GoodKind(t: Tree, p: Path)
    requires Good(t, p) && p != []
    ensures t[p] == Directory || SafeFile(t[p])
  {
  }
}
