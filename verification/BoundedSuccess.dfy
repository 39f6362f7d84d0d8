/** When a snapshot succeeds and what it is charged, for every way of treating aliases and cycles: it is
    always charged what its copy weighs; with aliases written out it succeeds exactly on an unfolding, cut
    where it comes back to itself, that is within the limits; with aliases kept it takes every graph whose
    nodes together are within them. */
module BoundedSuccess {
  import opened Basics
  import opened BoundedValue
  import opened BoundedCopy
  import opened BoundedWeight

  // ---------- the charge is the weight of the copy ----------

  /** A child weighs nothing beyond its own node, which weighs for itself. */
  function ChildBytes(o: Options, v: Value): nat {
    if LeafWeight(o, v).Some? then LeafWeight(o, v).value else 0
  }

  function EntryBytes(o: Options, node: Node, e: Entry): nat {
    KeyCost(o, node, e.key) + ChildBytes(o, e.child)
  }

  function NodeBytes(o: Options, node: Node, n: nat): nat
    requires n <= |node.entries|
  {
    if n == 0 then 0 else NodeBytes(o, node, n - 1) + EntryBytes(o, node, node.entries[n - 1])
  }

  function CopyBytes(o: Options, out: seq<Node>): nat {
    if out == [] then 0
    else CopyBytes(o, out[..|out| - 1]) + NodeBytes(o, out[|out| - 1], |out[|out| - 1].entries|)
  }

  function CopyItems(out: seq<Node>): nat {
    if out == [] then 0 else CopyItems(out[..|out| - 1]) + |out[|out| - 1].entries|
  }

  lemma NodeBytesPrefix(o: Options, a: Node, b: Node, n: nat)
    requires n <= |a.entries| <= |b.entries| && a.isArray == b.isArray
    requires forall i :: 0 <= i < n ==> a.entries[i] == b.entries[i]
    ensures NodeBytes(o, a, n) == NodeBytes(o, b, n)
  {
  }

  lemma {:induction false} PushWeighs(o: Options, out: seq<Node>, k: nat, e: Entry)
    requires k < |out|
    ensures var more := out[k := out[k].(entries := out[k].entries + [e])];
      CopyBytes(o, more) == CopyBytes(o, out) + EntryBytes(o, out[k], e) && CopyItems(more) == CopyItems(out) + 1
  {
    var n := |out| - 1;
    var pushed := out[k].(entries := out[k].entries + [e]);
    var more := out[k := pushed];
    if k < n {
      PushWeighs(o, out[..n], k, e);
      assert more[..n] == out[..n][k := pushed];
    } else {
      assert more[..n] == out[..n];
      NodeBytesPrefix(o, out[k], pushed, |out[k].entries|);
    }
  }

  lemma EnterWeighs(o: Options, out: seq<Node>, isArray: bool)
    ensures var more := out + [Node(isArray, true, [])];
      CopyBytes(o, more) == CopyBytes(o, out) && CopyItems(more) == CopyItems(out)
  {
    var more := out + [Node(isArray, true, [])];
    assert more[..|out|] == out;
  }

  /** From `s` to `t` the copy has grown by what was charged, beside `extra` bytes and items. */
  predicate Charged(o: Options, s: Snap, t: Snap, bytes: int, items: int) {
    && t.bytes - s.bytes == CopyBytes(o, t.out) - CopyBytes(o, s.out) + bytes
    && t.items - s.items == CopyItems(t.out) - CopyItems(s.out) + items
  }

  lemma {:induction false} VisitCharges(o: Options, g: Graph, s: Snap, v: Value, depth: nat)
    requires Visit(o, g, s, v, depth).Some?
    ensures Charged(o, s, Visit(o, g, s, v, depth).value.snap, ChildBytes(o, v), RootItems(o, depth))
    decreases o.maxDepth - depth, 2
  {
    hide CopyBytes, CopyItems;
    var counted := if depth == 0 && o.countRoot then AddItems(o, s, 1) else Some(s);
    if v.Ref? {
      NodeCharges(o, g, counted.value, v.at, depth);
    }
  }

  lemma {:induction false} NodeCharges(o: Options, g: Graph, s: Snap, at: Address, depth: nat)
    requires VisitNode(o, g, s, at, depth).Some?
    ensures Charged(o, s, VisitNode(o, g, s, at, depth).value.snap, 0, 0)
    decreases o.maxDepth - depth, 1
  {
    hide CopyBytes, CopyItems, VisitEntries;
    if at !in s.active && !(o.preserveAliases && at in s.copies) {
      var room := AddItems(o, s, |g[at].entries|).value;
      var entered := Enter(o, room, at, g[at]);
      EnterWeighs(o, s.out, g[at].isArray);
      EntriesCharge(o, g, entered, g[at], |s.out|, 0, depth);
    }
  }

  lemma {:induction false} EntriesCharge(o: Options, g: Graph, s: Snap, node: Node, k: nat, i: nat, depth: nat)
    requires k < |s.out| && i <= |node.entries| && depth < o.maxDepth && s.out[k].isArray == node.isArray
    requires VisitEntries(o, g, s, node, k, i, depth).Some?
    ensures Charged(o, s, VisitEntries(o, g, s, node, k, i, depth).value, 0, i - |node.entries|)
    decreases o.maxDepth - depth, 0, |node.entries| - i
  {
    hide CopyBytes, CopyItems, Visit;
    if i < |node.entries| {
      var entry := node.entries[i];
      var charged := ChargeKey(o, s, node, entry.key).value;
      VisitCharges(o, g, charged, entry.child, depth + 1);
      var copied := Visit(o, g, charged, entry.child, depth + 1).value;
      VisitKeepsKinds(o, g, charged, entry.child, depth + 1, k);
      var e := Entry(entry.key, copied.value);
      CopyWeighsAlike(o, g, charged, entry.child, depth + 1);
      PushWeighs(o, copied.snap.out, k, e);
      EntriesCharge(o, g, PushEntry(copied.snap, k, e), node, k, i + 1, depth);
    }
  }

  /** What is copied weighs as a child what it is a copy of does. */
  lemma CopyWeighsAlike(o: Options, g: Graph, s: Snap, v: Value, depth: nat)
    requires Visit(o, g, s, v, depth).Some?
    ensures ChildBytes(o, Visit(o, g, s, v, depth).value.value) == ChildBytes(o, v)
  {
    hide VisitEntries;
  }

  lemma {:induction false} VisitKeepsKinds(o: Options, g: Graph, s: Snap, v: Value, depth: nat, k: nat)
    requires Visit(o, g, s, v, depth).Some? && k < |s.out|
    ensures var t := Visit(o, g, s, v, depth).value.snap; t.out[k].isArray == s.out[k].isArray
    decreases o.maxDepth - depth, 2
  {
    var counted := if depth == 0 && o.countRoot then AddItems(o, s, 1) else Some(s);
    if v.Ref? {
      NodeKeepsKinds(o, g, counted.value, v.at, depth, k);
    }
  }

  lemma {:induction false} NodeKeepsKinds(o: Options, g: Graph, s: Snap, at: Address, depth: nat, k: nat)
    requires VisitNode(o, g, s, at, depth).Some? && k < |s.out|
    ensures var t := VisitNode(o, g, s, at, depth).value.snap; t.out[k].isArray == s.out[k].isArray
    decreases o.maxDepth - depth, 1
  {
    hide VisitEntries;
    if at !in s.active && !(o.preserveAliases && at in s.copies) {
      var room := AddItems(o, s, |g[at].entries|).value;
      EntriesKeepKinds(o, g, Enter(o, room, at, g[at]), g[at], |s.out|, 0, depth, k);
    }
  }

  lemma {:induction false} EntriesKeepKinds(
      o: Options, g: Graph, s: Snap, node: Node, k: nat, i: nat, depth: nat, j: nat)
    requires k < |s.out| && i <= |node.entries| && depth < o.maxDepth && j < |s.out|
    requires VisitEntries(o, g, s, node, k, i, depth).Some?
    ensures var t := VisitEntries(o, g, s, node, k, i, depth).value; t.out[j].isArray == s.out[j].isArray
    decreases o.maxDepth - depth, 0, |node.entries| - i
  {
    hide Visit;
    if i < |node.entries| {
      var entry := node.entries[i];
      var charged := ChargeKey(o, s, node, entry.key).value;
      VisitKeepsKinds(o, g, charged, entry.child, depth + 1, j);
      var copied := Visit(o, g, charged, entry.child, depth + 1).value;
      EntriesKeepKinds(
        o, g, PushEntry(copied.snap, k, Entry(entry.key, copied.value)), node, k, i + 1, depth, j);
    }
  }

  /** Whatever the options, a snapshot is charged exactly what its copy weighs: the keys and leaves of all
      nodes of the copy, each once, and their entries, and it is within both limits. */
  lemma SnapshotIsChargedItsCopy(o: Options, g: Graph, v: Value)
    requires Snapshot(o, g, v).Some?
    ensures var t := Snapshot(o, g, v).value.snap;
      && t.bytes == CopyBytes(o, t.out) + ChildBytes(o, v)
      && t.items == CopyItems(t.out) + (if o.countRoot then 1 else 0)
  {
    hide CopyBytes, CopyItems, Visit;
    VisitCharges(o, g, START, v, 0);
    assert CopyBytes(o, []) == 0 && CopyItems([]) == 0 by { NothingWeighs(o); }
  }

  lemma NothingWeighs(o: Options)
    ensures CopyBytes(o, []) == 0 && CopyItems([]) == 0
  {
  }

  // ---------- aliases written out, cycles allowed or not ----------

  /** The weight of a value written out in full, but for the nodes it is inside of: coming back to one weighs
      nothing where cycles are allowed, and is not taken where they are not. */
  function Cut(o: Options, g: Graph, v: Value, levels: nat, inside: set<Address>): Option<Weight>
    decreases levels, 1, 0
  {
    if v.Ref? then
      if levels == 0 || v.at !in g then None
      else if v.at in inside then (if o.allowCycles then Some(Weight(0, 0)) else None)
      else if !g[v.at].plain then None
      else
        var rest := CutEntries(o, g, g[v.at], 0, levels, inside + {v.at});
        if rest.None? then None else Some(Plus(Weight(0, |g[v.at].entries|), rest.value))
    else
      var cost := LeafWeight(o, v);
      if cost.None? then None else Some(Weight(cost.value, 0))
  }

  function CutEntries(o: Options, g: Graph, node: Node, i: nat, levels: nat, inside: set<Address>): Option<Weight>
    requires i <= |node.entries| && levels > 0
    decreases levels, 0, |node.entries| - i
  {
    if i == |node.entries| then Some(Weight(0, 0))
    else
      var child := Cut(o, g, node.entries[i].child, levels - 1, inside);
      var rest := CutEntries(o, g, node, i + 1, levels, inside);
      if child.None? || rest.None? then None
      else Some(Plus(Weight(KeyCost(o, node, node.entries[i].key), 0), Plus(child.value, rest.value)))
  }

  predicate Knows(o: Options, s: Snap) {
    o.allowCycles ==> s.active <= s.copies.Keys
  }

  /** The traversal goes on inside the same nodes and forgets no copy. */
  predicate Onward(s: Snap, t: Snap) {
    t.active == s.active && s.copies.Keys <= t.copies.Keys
  }

  lemma {:induction false} VisitOnward(o: Options, g: Graph, s: Snap, v: Value, depth: nat)
    requires Visit(o, g, s, v, depth).Some?
    ensures Onward(s, Visit(o, g, s, v, depth).value.snap)
    decreases o.maxDepth - depth, 2
  {
    var counted := if depth == 0 && o.countRoot then AddItems(o, s, 1) else Some(s);
    if v.Ref? {
      NodeOnward(o, g, counted.value, v.at, depth);
    }
  }

  lemma {:induction false} NodeOnward(o: Options, g: Graph, s: Snap, at: Address, depth: nat)
    requires VisitNode(o, g, s, at, depth).Some?
    ensures Onward(s, VisitNode(o, g, s, at, depth).value.snap)
    decreases o.maxDepth - depth, 1
  {
    hide VisitEntries;
    if at !in s.active && !(o.preserveAliases && at in s.copies) {
      var entered := Enter(o, AddItems(o, s, |g[at].entries|).value, at, g[at]);
      EntriesOnward(o, g, entered, g[at], |s.out|, 0, depth);
      assert entered.active - {at} == s.active;
    }
  }

  lemma {:induction false} EntriesOnward(o: Options, g: Graph, s: Snap, node: Node, k: nat, i: nat, depth: nat)
    requires k < |s.out| && i <= |node.entries| && depth < o.maxDepth
    requires VisitEntries(o, g, s, node, k, i, depth).Some?
    ensures Onward(s, VisitEntries(o, g, s, node, k, i, depth).value)
    decreases o.maxDepth - depth, 0, |node.entries| - i
  {
    hide Visit;
    if i < |node.entries| {
      var entry := node.entries[i];
      var charged := ChargeKey(o, s, node, entry.key).value;
      VisitOnward(o, g, charged, entry.child, depth + 1);
      var copied := Visit(o, g, charged, entry.child, depth + 1).value;
      EntriesOnward(o, g, PushEntry(copied.snap, k, Entry(entry.key, copied.value)), node, k, i + 1, depth);
    }
  }

  lemma {:induction false} VisitCuts(o: Options, g: Graph, s: Snap, v: Value, depth: nat)
    requires !o.preserveAliases && depth <= o.maxDepth && Within(o, s) && Knows(o, s)
    ensures var w, r := Cut(o, g, v, o.maxDepth - depth, s.active), Visit(o, g, s, v, depth);
      && (r.Some? <==> Fits(o, s, w, RootItems(o, depth)))
      && (r.Some? ==> Paid(s, r.value.snap, w.value, RootItems(o, depth)))
    decreases o.maxDepth - depth, 2
  {
    var counted := if depth == 0 && o.countRoot then AddItems(o, s, 1) else Some(s);
    if counted.Some? && v.Ref? {
      NodeCuts(o, g, counted.value, v.at, depth);
    }
  }

  lemma {:induction false} NodeCuts(o: Options, g: Graph, s: Snap, at: Address, depth: nat)
    requires !o.preserveAliases && depth <= o.maxDepth && Within(o, s) && Knows(o, s)
    ensures var w, r := Cut(o, g, Ref(at), o.maxDepth - depth, s.active), VisitNode(o, g, s, at, depth);
      && (r.Some? <==> Fits(o, s, w, 0)) && (r.Some? ==> Paid(s, r.value.snap, w.value, 0))
    decreases o.maxDepth - depth, 1
  {
    hide VisitEntries, CutEntries;
    if depth < o.maxDepth && at in g && at !in s.active && g[at].plain {
      var room := AddItems(o, s, |g[at].entries|);
      if room.Some? {
        var entered := Enter(o, room.value, at, g[at]);
        EntriesCut(o, g, entered, g[at], |s.out|, 0, depth);
        assert entered.active - {at} == s.active;
      }
    }
  }

  lemma {:induction false} EntriesCut(o: Options, g: Graph, s: Snap, node: Node, k: nat, i: nat, depth: nat)
    requires !o.preserveAliases && depth < o.maxDepth && Within(o, s) && Knows(o, s)
    requires k < |s.out| && i <= |node.entries|
    ensures var w := CutEntries(o, g, node, i, o.maxDepth - depth, s.active);
      var r := VisitEntries(o, g, s, node, k, i, depth);
      && (r.Some? <==> Fits(o, s, w, 0)) && (r.Some? ==> Paid(s, r.value, w.value, 0))
    decreases o.maxDepth - depth, 0, |node.entries| - i
  {
    hide Visit, Cut;
    if i < |node.entries| {
      var entry := node.entries[i];
      var charged := ChargeKey(o, s, node, entry.key);
      if charged.Some? {
        VisitCuts(o, g, charged.value, entry.child, depth + 1);
        var copied := Visit(o, g, charged.value, entry.child, depth + 1);
        if copied.Some? {
          VisitOnward(o, g, charged.value, entry.child, depth + 1);
          var pushed := PushEntry(copied.value.snap, k, Entry(entry.key, copied.value.value));
          EntriesCut(o, g, pushed, node, k, i + 1, depth);
        }
      }
    }
  }

  /** With aliases written out, a snapshot succeeds exactly when the unfolding, cut where it comes back to a
      node it is inside of, exists within the allowed depth and is within both limits. Where cycles are not
      allowed nothing may come back. */
  lemma SnapshotCutsExactly(o: Options, g: Graph, v: Value)
    requires !o.preserveAliases
    ensures var w, r := Cut(o, g, v, o.maxDepth, {}), Snapshot(o, g, v);
      && (r.Some? <==> w.Some? && w.value.bytes <= o.maxBytes && w.value.items + RootItems(o, 0) <= o.maxItems)
      && (r.Some? ==> r.value.snap.bytes == w.value.bytes && r.value.snap.items == w.value.items + RootItems(o, 0))
  {
    hide Visit, Cut;
    VisitCuts(o, g, START, v, 0);
  }

  // ---------- aliases kept ----------

  /** Everything in `nodes` may be taken and leads to nothing outside. */
  predicate Closed(o: Options, g: Graph, nodes: set<Address>) {
    forall a :: a in nodes ==> a in g && g[a].plain && forall e :: e in g[a].entries ==> Taken(o, nodes, e.child)
  }

  predicate Taken(o: Options, nodes: set<Address>, v: Value) {
    if v.Ref? then v.at in nodes else LeafWeight(o, v).Some?
  }

  function NodeWeight(o: Options, node: Node): Weight {
    Weight(NodeBytes(o, node, |node.entries|), |node.entries|)
  }

  /** What nodes weigh together, each once. */
  ghost function Total(o: Options, g: Graph, nodes: set<Address>): Weight
    requires forall a :: a in nodes ==> a in g
  {
    if nodes == {} then Weight(0, 0)
    else
      var a :| a in nodes;
      Plus(NodeWeight(o, g[a]), Total(o, g, nodes - {a}))
  }

  lemma TotalOn(o: Options, g: Graph, nodes: set<Address>) returns (b: Address)
    requires (forall b :: b in nodes ==> b in g) && nodes != {}
    ensures b in nodes && Total(o, g, nodes) == Plus(NodeWeight(o, g[b]), Total(o, g, nodes - {b}))
  {
    hide NodeWeight;
    b :| b in nodes && Total(o, g, nodes) == Plus(NodeWeight(o, g[b]), Total(o, g, nodes - {b}));
  }

  lemma {:induction false} TotalWithout(o: Options, g: Graph, nodes: set<Address>, a: Address)
    requires (forall b :: b in nodes ==> b in g) && a in nodes
    ensures Total(o, g, nodes) == Plus(NodeWeight(o, g[a]), Total(o, g, nodes - {a}))
    decreases nodes
  {
    hide NodeWeight, Total;
    var b := TotalOn(o, g, nodes);
    if a != b {
      TotalWithout(o, g, nodes - {b}, a);
      TotalWithout(o, g, nodes - {a}, b);
      assert nodes - {b} - {a} == nodes - {a} - {b};
    }
  }

  /** The rest of a node from entry `i` on. */
  function RestBytes(o: Options, node: Node, i: nat): int
    requires i <= |node.entries|
  {
    NodeBytes(o, node, |node.entries|) - NodeBytes(o, node, i)
  }

  /** What is left of the budget is enough for the nodes not yet entered and the given bytes and items. */
  ghost predicate Enough(o: Options, g: Graph, s: Snap, nodes: set<Address>, bytes: int, items: int)
    requires Closed(o, g, nodes)
  {
    var rest := Total(o, g, nodes - s.copies.Keys);
    s.bytes + rest.bytes + bytes <= o.maxBytes && s.items + rest.items + items <= o.maxItems
  }

  /** Inside `depth` different nodes, all of them known, and none of them below itself. */
  ghost predicate Inside(o: Options, g: Graph, s: Snap, nodes: set<Address>, v: Value, depth: nat) {
    && s.active <= s.copies.Keys <= nodes && |s.active| == depth
    && (!o.allowCycles ==> forall a :: a in s.active ==> BelowNode(g, a, v) && NoCycle(g, a))
  }

  /** No path leads from the node back to it. */
  ghost predicate NoCycle(g: Graph, a: Address) {
    forall p: seq<nat> :: p != [] ==> Follow(g, Ref(a), p) != Some(Ref(a))
  }

  /** What a visit leaves: inside the same nodes, more of them known, and what it did not use of what
      there was for it. */
  ghost predicate Left(s: Snap, t: Snap, nodes: set<Address>) {
    t.active == s.active && s.copies.Keys <= t.copies.Keys <= nodes
  }

  ghost predicate AllNoCycle(o: Options, g: Graph, nodes: set<Address>) {
    !o.allowCycles ==> forall a :: a in nodes ==> NoCycle(g, a)
  }

  lemma DepthFits(o: Options, g: Graph, s: Snap, nodes: set<Address>, v: Value, depth: nat)
    requires Inside(o, g, s, nodes, v, depth) && o.maxDepth > |nodes|
    ensures depth < o.maxDepth
  {
    SubsetSize(s.active, nodes);
  }

  lemma {:induction false} VisitTakes(o: Options, g: Graph, s: Snap, nodes: set<Address>, v: Value, depth: nat,
      bytes: int, items: int)
    requires o.preserveAliases && Closed(o, g, nodes) && AllNoCycle(o, g, nodes) && o.maxDepth > |nodes|
    requires Taken(o, nodes, v) && Inside(o, g, s, nodes, v, depth) && bytes >= 0 && items >= 0
    requires Enough(o, g, s, nodes, bytes + ChildBytes(o, v), items + RootItems(o, depth))
    ensures Visit(o, g, s, v, depth).Some?
    ensures var t := Visit(o, g, s, v, depth).value.snap; Left(s, t, nodes) && Enough(o, g, t, nodes, bytes, items)
    decreases o.maxDepth - depth, 2
  {
    hide Closed, Inside, AllNoCycle, Total;
    DepthFits(o, g, s, nodes, v, depth);
    var counted := if depth == 0 && o.countRoot then AddItems(o, s, 1) else Some(s);
    InsideHas(o, g, s, nodes, v, depth);
    if v.Ref? {
      SameInside(o, g, s, counted.value, nodes, v, depth);
      NodeTakes(o, g, counted.value, nodes, v.at, depth, bytes, items);
    }
  }

  lemma InsideHas(o: Options, g: Graph, s: Snap, nodes: set<Address>, v: Value, depth: nat)
    requires Inside(o, g, s, nodes, v, depth)
    ensures s.active <= s.copies.Keys <= nodes
  {
  }

  lemma SameInside(o: Options, g: Graph, s: Snap, t: Snap, nodes: set<Address>, v: Value, depth: nat)
    requires Inside(o, g, s, nodes, v, depth) && t.active == s.active && t.copies == s.copies
    ensures Inside(o, g, t, nodes, v, depth)
  {
  }

  lemma NotBelowItself(g: Graph, a: Address)
    requires NoCycle(g, a)
    ensures !BelowNode(g, a, Ref(a))
  {
  }

  lemma NeverInsideItself(o: Options, g: Graph, s: Snap, nodes: set<Address>, at: Address, depth: nat)
    requires Inside(o, g, s, nodes, Ref(at), depth) && !o.allowCycles
    ensures at !in s.active
  {
    hide BelowNode, NoCycle;
    if at in s.active { NotBelowItself(g, at); }
  }

  lemma ClosedAt(o: Options, g: Graph, nodes: set<Address>, at: Address)
    requires Closed(o, g, nodes) && at in nodes
    ensures at in g && g[at].plain && forall i :: 0 <= i < |g[at].entries| ==> Taken(o, nodes, g[at].entries[i].child)
  {
    forall i | 0 <= i < |g[at].entries| ensures Taken(o, nodes, g[at].entries[i].child) {
      assert g[at].entries[i] in g[at].entries;
    }
  }

  lemma {:induction false} NodeTakes(o: Options, g: Graph, s: Snap, nodes: set<Address>, at: Address, depth: nat,
      bytes: int, items: int)
    requires o.preserveAliases && Closed(o, g, nodes) && AllNoCycle(o, g, nodes) && o.maxDepth > |nodes|
    requires at in nodes && Inside(o, g, s, nodes, Ref(at), depth) && depth < o.maxDepth && bytes >= 0 && items >= 0
    requires Enough(o, g, s, nodes, bytes, items)
    ensures VisitNode(o, g, s, at, depth).Some?
    ensures var t := VisitNode(o, g, s, at, depth).value.snap; Left(s, t, nodes) && Enough(o, g, t, nodes, bytes, items)
    decreases o.maxDepth - depth, 1
  {
    hide Closed, Inside, AllNoCycle, Total, VisitEntries, NodeBytes;
    InsideHas(o, g, s, nodes, Ref(at), depth);
    ClosedAt(o, g, nodes, at);
    if !o.allowCycles { NeverInsideItself(o, g, s, nodes, at, depth); }
    if at !in s.copies {
      NodeHasRoom(o, g, s, nodes, at, bytes, items);
      var room := AddItems(o, s, |g[at].entries|).value;
      var entered := Enter(o, room, at, g[at]);
      EnterInside(o, g, s, room, nodes, at, depth);
      EntriesTake(o, g, entered, nodes, at, |s.out|, 0, depth, bytes, items);
      assert entered.active - {at} == s.active;
    }
  }

  lemma NodeHasRoom(o: Options, g: Graph, s: Snap, nodes: set<Address>, at: Address, bytes: int, items: int)
    requires o.preserveAliases && Closed(o, g, nodes) && at in nodes && at !in s.copies && bytes >= 0 && items >= 0
    requires Enough(o, g, s, nodes, bytes, items)
    ensures AddItems(o, s, |g[at].entries|).Some?
    ensures Enough(o, g, Enter(o, AddItems(o, s, |g[at].entries|).value, at, g[at]), nodes,
      bytes + NodeBytes(o, g[at], |g[at].entries|), items)
  {
    hide Total, NodeBytes;
    TotalWithout(o, g, nodes - s.copies.Keys, at);
    assert nodes - s.copies[at := |s.out|].Keys == nodes - s.copies.Keys - {at};
  }

  lemma EnterInside(o: Options, g: Graph, s: Snap, room: Snap, nodes: set<Address>, at: Address, depth: nat)
    requires o.preserveAliases && Inside(o, g, s, nodes, Ref(at), depth) && at in nodes && at in g && at !in s.copies
    requires AllNoCycle(o, g, nodes) && room.active == s.active && room.copies == s.copies
    ensures var t := Enter(o, room, at, g[at]);
      && t.active <= t.copies.Keys <= nodes && |t.active| == depth + 1
      && (!o.allowCycles ==> forall a :: a in t.active ==> (a == at || BelowNode(g, a, Ref(at))) && NoCycle(g, a))
  {
    hide BelowNode, NoCycle;
    assert at !in s.active;
  }

  lemma ChildInside(o: Options, g: Graph, s: Snap, nodes: set<Address>, at: Address, i: nat, depth: nat)
    requires at in g && i < |g[at].entries| && s.active <= s.copies.Keys <= nodes && |s.active| == depth
    requires !o.allowCycles ==> forall a :: a in s.active ==> (a == at || BelowNode(g, a, Ref(at))) && NoCycle(g, a)
    ensures Inside(o, g, s, nodes, g[at].entries[i].child, depth)
  {
    hide BelowNode, NoCycle;
    forall a | !o.allowCycles && a in s.active ensures BelowNode(g, a, g[at].entries[i].child) {
      ChildIsBelow(g, at, i, a);
    }
  }

  lemma RestOn(o: Options, node: Node, i: nat)
    requires i < |node.entries|
    ensures RestBytes(o, node, i) == EntryBytes(o, node, node.entries[i]) + RestBytes(o, node, i + 1)
    ensures RestBytes(o, node, i + 1) >= 0
  {
    NodeBytesGrow(o, node, i + 1, |node.entries|);
  }

  lemma {:induction false} NodeBytesGrow(o: Options, node: Node, i: nat, n: nat)
    requires i <= n <= |node.entries|
    ensures NodeBytes(o, node, i) <= NodeBytes(o, node, n)
    decreases n
  {
    if i < n {
      NodeBytesGrow(o, node, i, n - 1);
    }
  }

  lemma {:induction false} EntriesTake(o: Options, g: Graph, s: Snap, nodes: set<Address>, at: Address, k: nat, i: nat,
      depth: nat, bytes: int, items: int)
    requires o.preserveAliases && Closed(o, g, nodes) && AllNoCycle(o, g, nodes) && o.maxDepth > |nodes|
    requires at in nodes && at in g && i <= |g[at].entries| && k < |s.out| && depth < o.maxDepth
    requires s.active <= s.copies.Keys <= nodes && |s.active| == depth + 1 && bytes >= 0 && items >= 0
    requires !o.allowCycles ==> forall a :: a in s.active ==> (a == at || BelowNode(g, a, Ref(at))) && NoCycle(g, a)
    requires Enough(o, g, s, nodes, bytes + RestBytes(o, g[at], i), items)
    ensures VisitEntries(o, g, s, g[at], k, i, depth).Some?
    ensures var t := VisitEntries(o, g, s, g[at], k, i, depth).value;
      Left(s, t, nodes) && Enough(o, g, t, nodes, bytes, items)
    decreases o.maxDepth - depth, 0, |g[at].entries| - i
  {
    hide Closed, AllNoCycle, Total, Visit, NodeBytes, BelowNode, NoCycle, RestBytes, Inside;
    ClosedAt(o, g, nodes, at);
    if i < |g[at].entries| {
      var entry := g[at].entries[i];
      RestOn(o, g[at], i);
      var charged := ChargeKey(o, s, g[at], entry.key);
      ChildInside(o, g, charged.value, nodes, at, i, depth + 1);
      VisitTakes(o, g, charged.value, nodes, entry.child, depth + 1, bytes + RestBytes(o, g[at], i + 1), items);
      var copied := Visit(o, g, charged.value, entry.child, depth + 1).value;
      var pushed := PushEntry(copied.snap, k, Entry(entry.key, copied.value));
      EntriesTake(o, g, pushed, nodes, at, k, i + 1, depth, bytes, items);
    } else {
      assert RestBytes(o, g[at], i) == 0 by { NoRest(o, g[at]); }
    }
  }

  lemma NoRest(o: Options, node: Node)
    ensures RestBytes(o, node, |node.entries|) == 0
  {
  }

  /** With aliases kept, a snapshot takes every value whose nodes may all be taken, weigh together no more than
      the limits allow and are fewer than the allowed depth; where cycles are not allowed, none of them may lie
      below itself. */
  lemma SnapshotTakesGraphs(o: Options, g: Graph, v: Value, nodes: set<Address>)
    requires o.preserveAliases && Closed(o, g, nodes) && Taken(o, nodes, v) && o.maxDepth > |nodes|
    requires !o.allowCycles ==> forall a :: a in nodes ==> NoCycle(g, a)
    requires var w := Total(o, g, nodes);
      w.bytes + ChildBytes(o, v) <= o.maxBytes && w.items + (if o.countRoot then 1 else 0) <= o.maxItems
    ensures Snapshot(o, g, v).Some?
  {
    hide Total, Visit, Closed;
    assert nodes - {} == nodes && START.copies.Keys == {};
    VisitTakes(o, g, START, nodes, v, 0, 0, 0);
  }
}
