/** What a snapshot costs: without aliases and cycles it succeeds exactly on values whose full
    unfolding is within the budget, and reports that unfolding's weight; and without cycles it
    succeeds on acyclic values only. */
module BoundedWeight {
  import opened Basics
  import opened BoundedValue
  import opened BoundedCopy

  predicate Unfolds(o: Options) {
    !o.preserveAliases && !o.allowCycles
  }

  datatype Weight = Weight(bytes: nat, items: nat)

  function Plus(a: Weight, b: Weight): Weight {
    Weight(a.bytes + b.bytes, a.items + b.items)
  }

  function KeyCost(o: Options, node: Node, key: string): nat {
    if node.isArray then 0 else o.utf8Bytes(key)
  }

  /** What a value without parts weighs, if it is one that may be taken: 16 bytes for a finite number, the
      bytes of a text or of byte data, and 8 for anything else. */
  function LeafWeight(o: Options, v: Value): Option<nat> {
    if v.Ref? || v.Other? || (v.Undefined? && !o.allowUndefined) || (v.Bytes? && !o.cloneBytes)
       || (v.Number? && !v.finite)
    then None
    else if v.Number? then Some(16) else if v.Text? then Some(o.utf8Bytes(v.s))
    else if v.Bytes? then Some(|v.data|) else Some(8)
  }

  /** The weight of a value written out in full, shared parts as often as they occur; none
      when it is deeper than `levels` or has a part that is not taken. */
  function Unfolded(o: Options, g: Graph, v: Value, levels: nat): Option<Weight>
    decreases levels, 1, 0
  {
    if v.Ref? then
      if levels == 0 || v.at !in g || !g[v.at].plain then None
      else
        var rest := UnfoldedEntries(o, g, g[v.at], 0, levels);
        if rest.None? then None else Some(Plus(Weight(0, |g[v.at].entries|), rest.value))
    else
      var cost := LeafWeight(o, v);
      if cost.None? then None else Some(Weight(cost.value, 0))
  }

  function UnfoldedEntries(o: Options, g: Graph, node: Node, i: nat, levels: nat): Option<Weight>
    requires i <= |node.entries| && levels > 0
    decreases levels, 0, |node.entries| - i
  {
    if i == |node.entries| then Some(Weight(0, 0))
    else
      var child := Unfolded(o, g, node.entries[i].child, levels - 1);
      var rest := UnfoldedEntries(o, g, node, i + 1, levels);
      if child.None? || rest.None? then None
      else Some(Plus(Weight(KeyCost(o, node, node.entries[i].key), 0), Plus(child.value, rest.value)))
  }

  // ---------- a value that unfolds has no cycle ----------

  lemma {:induction false} EntryUnfolds(o: Options, g: Graph, node: Node, i: nat, levels: nat, j: nat)
    requires i <= j < |node.entries| && levels > 0 && UnfoldedEntries(o, g, node, i, levels).Some?
    ensures Unfolded(o, g, node.entries[j].child, levels - 1).Some?
    decreases j - i
  {
    if i < j {
      EntryUnfolds(o, g, node, i + 1, levels, j);
    }
  }

  lemma {:induction false} PathUnfolds(o: Options, g: Graph, v: Value, levels: nat, p: seq<nat>)
    requires Unfolded(o, g, v, levels).Some? && Follow(g, v, p).Some?
    ensures |p| <= levels && Unfolded(o, g, Follow(g, v, p).value, levels - |p|).Some?
    decreases |p|
  {
    if p != [] {
      var prefix, last := p[..|p| - 1], p[|p| - 1];
      PathUnfolds(o, g, v, levels, prefix);
      var above := Follow(g, v, prefix).value;
      EntryUnfolds(o, g, g[above.at], 0, levels - |prefix|, last);
    }
  }

  lemma {:induction false} CycleNeverUnfolds(o: Options, g: Graph, v: Value, levels: nat, p: seq<nat>)
    requires p != [] && Follow(g, v, p) == Some(v)
    ensures Unfolded(o, g, v, levels).None?
    decreases levels
  {
    if Unfolded(o, g, v, levels).Some? {
      PathUnfolds(o, g, v, levels, p);
      CycleNeverUnfolds(o, g, v, levels - |p|, p);
    }
  }

  lemma {:induction false} FollowOn(g: Graph, v: Value, p: seq<nat>, q: seq<nat>)
    requires Follow(g, v, p).Some?
    ensures Follow(g, v, p + q) == Follow(g, Follow(g, v, p).value, q)
    decreases |q|
  {
    if q == [] {
      assert p + q == p;
    } else {
      FollowOn(g, v, p, q[..|q| - 1]);
      assert (p + q)[..|p + q| - 1] == p + q[..|q| - 1];
    }
  }

  /** No path from the value returns to a node it has passed. */
  ghost predicate Acyclic(g: Graph, v: Value) {
    forall p, q :: NoReturn(g, v, p, q)
  }

  predicate NoReturn(g: Graph, v: Value, p: seq<nat>, q: seq<nat>) {
    q != [] && Follow(g, v, p).Some? && Follow(g, v, p).value.Ref? ==> Follow(g, v, p + q) != Follow(g, v, p)
  }

  lemma UnfoldedIsAcyclic(o: Options, g: Graph, v: Value, levels: nat)
    requires Unfolded(o, g, v, levels).Some?
    ensures Acyclic(g, v)
  {
    forall p, q ensures NoReturn(g, v, p, q) {
      if q != [] && Follow(g, v, p).Some? && Follow(g, v, p + q) == Follow(g, v, p) {
        FollowOn(g, v, p, q);
        PathUnfolds(o, g, v, levels, p);
        CycleNeverUnfolds(o, g, Follow(g, v, p).value, levels - |p|, q);
      }
    }
  }

  // ---------- the traversal weighs ----------

  /** `v` lies below the node `a`. */
  ghost predicate BelowNode(g: Graph, a: Address, v: Value) {
    exists p: seq<nat> :: p != [] && Follow(g, Ref(a), p) == Some(v)
  }

  lemma ChildIsBelow(g: Graph, at: Address, i: nat, a: Address)
    requires at in g && i < |g[at].entries| && (a == at || BelowNode(g, a, Ref(at)))
    ensures BelowNode(g, a, g[at].entries[i].child)
  {
    var child := g[at].entries[i].child;
    if a == at {
      assert [i][..0] == [];
      assert Follow(g, Ref(a), [i]) == Some(child);
    } else {
      var p :| p != [] && Follow(g, Ref(a), p) == Some(Ref(at));
      assert (p + [i])[..|p + [i]| - 1] == p;
      assert Follow(g, Ref(a), p + [i]) == Some(child);
    }
  }

  function RootItems(o: Options, depth: nat): nat {
    if depth == 0 && o.countRoot then 1 else 0
  }

  predicate Within(o: Options, s: Snap) {
    s.bytes <= o.maxBytes && s.items <= o.maxItems
  }

  /** The weight fits what is left of the budget. */
  predicate Fits(o: Options, s: Snap, w: Option<Weight>, extra: nat) {
    w.Some? && s.bytes + w.value.bytes <= o.maxBytes && s.items + extra + w.value.items <= o.maxItems
  }

  predicate Paid(s: Snap, t: Snap, w: Weight, extra: nat) {
    t.bytes == s.bytes + w.bytes && t.items == s.items + extra + w.items && t.active == s.active
  }

  lemma {:induction false} VisitWeighs(o: Options, g: Graph, s: Snap, v: Value, depth: nat)
    requires Unfolds(o) && depth <= o.maxDepth && Within(o, s) && forall a :: a in s.active ==> BelowNode(g, a, v)
    ensures var w := Unfolded(o, g, v, o.maxDepth - depth);
      && (Visit(o, g, s, v, depth).Some? <==> Fits(o, s, w, RootItems(o, depth)))
      && (Visit(o, g, s, v, depth).Some? ==> Paid(s, Visit(o, g, s, v, depth).value.snap, w.value, RootItems(o, depth)))
    decreases o.maxDepth - depth, 2
  {
    hide BelowNode;
    var counted := if depth == 0 && o.countRoot then AddItems(o, s, 1) else Some(s);
    if counted.Some? && v.Ref? {
      NodeWeighs(o, g, counted.value, v.at, depth);
    }
  }

  lemma {:induction false} NodeWeighs(o: Options, g: Graph, s: Snap, at: Address, depth: nat)
    requires Unfolds(o) && depth <= o.maxDepth && Within(o, s) && forall a :: a in s.active ==> BelowNode(g, a, Ref(at))
    ensures var w := Unfolded(o, g, Ref(at), o.maxDepth - depth);
      && (VisitNode(o, g, s, at, depth).Some? <==> Fits(o, s, w, 0))
      && (VisitNode(o, g, s, at, depth).Some? ==> Paid(s, VisitNode(o, g, s, at, depth).value.snap, w.value, 0))
    decreases o.maxDepth - depth, 1
  {
    if at in s.active {
      var p :| p != [] && Follow(g, Ref(at), p) == Some(Ref(at));
      CycleNeverUnfolds(o, g, Ref(at), o.maxDepth - depth, p);
    } else if depth < o.maxDepth && at in g && g[at].plain {
      var room := AddItems(o, s, |g[at].entries|);
      if room.Some? {
        var entered := Enter(o, room.value, at, g[at]);
        EntriesWeigh(o, g, entered, at, |s.out|, 0, depth);
        assert entered.active - {at} == s.active;
      }
    }
  }

  lemma {:induction false} EntriesWeigh(o: Options, g: Graph, s: Snap, at: Address, k: nat, i: nat, depth: nat)
    requires Unfolds(o) && depth < o.maxDepth && Within(o, s) && at in g && k < |s.out| && i <= |g[at].entries|
    requires forall a :: a in s.active ==> a == at || BelowNode(g, a, Ref(at))
    ensures var w := UnfoldedEntries(o, g, g[at], i, o.maxDepth - depth);
      && (VisitEntries(o, g, s, g[at], k, i, depth).Some? <==> Fits(o, s, w, 0))
      && (VisitEntries(o, g, s, g[at], k, i, depth).Some? ==>
        Paid(s, VisitEntries(o, g, s, g[at], k, i, depth).value, w.value, 0))
    decreases o.maxDepth - depth, 0, |g[at].entries| - i
  {
    hide BelowNode, Visit, Unfolded;
    if i < |g[at].entries| {
      var entry := g[at].entries[i];
      var charged := ChargeKey(o, s, g[at], entry.key);
      if charged.Some? {
        forall a | a in charged.value.active ensures BelowNode(g, a, entry.child) { ChildIsBelow(g, at, i, a); }
        VisitWeighs(o, g, charged.value, entry.child, depth + 1);
        var copied := Visit(o, g, charged.value, entry.child, depth + 1);
        if copied.Some? {
          var pushed := PushEntry(copied.value.snap, k, Entry(entry.key, copied.value.value));
          EntriesWeigh(o, g, pushed, at, k, i + 1, depth);
        }
      }
    }
  }

  /** Without aliases and cycles, a snapshot succeeds exactly when the full unfolding of the
      value, of at most the allowed depth and made of values that may be taken, is within the
      byte and item limits; it then reports that unfolding's weight, and the value is acyclic. */
  lemma SnapshotWeighsUnfolding(o: Options, g: Graph, v: Value)
    requires Unfolds(o)
    ensures var w, r := Unfolded(o, g, v, o.maxDepth), Snapshot(o, g, v);
      && (r.Some? <==> w.Some? && w.value.bytes <= o.maxBytes && w.value.items + RootItems(o, 0) <= o.maxItems)
      && (r.Some? ==>
          && r.value.snap.bytes == w.value.bytes && r.value.snap.items == w.value.items + RootItems(o, 0)
          && Acyclic(g, v))
  {
    hide Visit, Unfolded, Acyclic;
    VisitWeighs(o, g, START, v, 0);
    if Unfolded(o, g, v, o.maxDepth).Some? {
      UnfoldedIsAcyclic(o, g, v, o.maxDepth);
    }
  }

  // ---------- aliases without cycles ----------

  /** Finished nodes are ranked in the order in which they were finished. */
  ghost predicate Ranked(g: Graph, s: Snap, rank: map<Address, nat>) {
    && rank.Keys == s.copies.Keys - s.active
    && (forall a :: a in rank ==> a in g && rank[a] < |rank| && ChildrenRanked(g[a], |g[a].entries|, rank, rank[a]))
  }

  predicate ChildrenRanked(node: Node, n: nat, rank: map<Address, nat>, bound: nat)
    requires n <= |node.entries|
  {
    forall i :: 0 <= i < n && node.entries[i].child.Ref? ==>
      node.entries[i].child.at in rank && rank[node.entries[i].child.at] < bound
  }

  predicate Extends(rank: map<Address, nat>, more: map<Address, nat>) {
    |rank| <= |more| && forall a :: a in rank ==> a in more && more[a] == rank[a]
  }

  lemma FinishRanks(g: Graph, s: Snap, rank: map<Address, nat>, at: Address) returns (more: map<Address, nat>)
    requires Ranked(g, s, rank) && at in g && at in s.active && at in s.copies
    requires ChildrenRanked(g[at], |g[at].entries|, rank, |rank|)
    ensures more == rank[at := |rank|] && Ranked(g, Leave(s, at), more) && Extends(rank, more)
  {
    more := rank[at := |rank|];
    assert more.Keys == rank.Keys + {at};
    forall a | a in more ensures ChildrenRanked(g[a], |g[a].entries|, more, more[a]) {
      assert a in rank ==> ChildrenRanked(g[a], |g[a].entries|, rank, rank[a]);
    }
  }

  lemma SameRanks(g: Graph, s: Snap, t: Snap, rank: map<Address, nat>)
    requires Ranked(g, s, rank) && t.copies == s.copies && t.active == s.active
    ensures Ranked(g, t, rank) && Extends(rank, rank)
  {
  }

  lemma {:induction false} VisitRanks(o: Options, g: Graph, s: Snap, rank: map<Address, nat>, v: Value, depth: nat)
    returns (more: map<Address, nat>)
    requires o.preserveAliases && !o.allowCycles && Ranked(g, s, rank) && s.active <= s.copies.Keys
    requires Visit(o, g, s, v, depth).Some?
    ensures var t := Visit(o, g, s, v, depth).value.snap;
      && Ranked(g, t, more) && Extends(rank, more) && t.active == s.active && s.copies.Keys <= t.copies.Keys
      && (v.Ref? ==> v.at in more)
    decreases o.maxDepth - depth, 2
  {
    hide Ranked, Extends;
    var counted := if depth == 0 && o.countRoot then AddItems(o, s, 1) else Some(s);
    SameRanks(g, s, counted.value, rank);
    more := rank;
    if v.Ref? {
      more := NodeRanks(o, g, counted.value, rank, v.at, depth);
    } else {
      SameRanks(g, s, Visit(o, g, s, v, depth).value.snap, rank);
    }
  }

  lemma {:induction false} NodeRanks(o: Options, g: Graph, s: Snap, rank: map<Address, nat>, at: Address, depth: nat)
    returns (more: map<Address, nat>)
    requires o.preserveAliases && !o.allowCycles && Ranked(g, s, rank) && s.active <= s.copies.Keys
    requires VisitNode(o, g, s, at, depth).Some?
    ensures var t := VisitNode(o, g, s, at, depth).value.snap;
      && Ranked(g, t, more) && Extends(rank, more) && t.active == s.active && s.copies.Keys <= t.copies.Keys
      && at in more
    decreases o.maxDepth - depth, 1
  {
    hide Ranked, ChildrenRanked, VisitEntries, Extends;
    more := rank;
    RanksKnown(g, s, rank, at);
    if at !in s.copies {
      var room := AddItems(o, s, |g[at].entries|).value;
      var entered := Enter(o, room, at, g[at]);
      EnterRanks(o, g, s, room, rank, at);
      NoneRanked(g[at], rank, |rank|);
      var after := EntriesRanks(o, g, entered, rank, at, |s.out|, 0, depth);
      var filled := VisitEntries(o, g, entered, g[at], |s.out|, 0, depth).value;
      more := FinishRanks(g, filled, after, at);
      ExtendsOn(rank, after, more);
      assert Leave(filled, at).active == s.active;
    }
  }

  lemma RanksKnown(g: Graph, s: Snap, rank: map<Address, nat>, at: Address)
    requires Ranked(g, s, rank)
    ensures (at in rank <==> at in s.copies && at !in s.active) && Extends(rank, rank)
  {
  }

  lemma EnterRanks(o: Options, g: Graph, s: Snap, room: Snap, rank: map<Address, nat>, at: Address)
    requires o.preserveAliases && Ranked(g, s, rank) && s.active <= s.copies.Keys && at !in s.copies && at in g
    requires room.copies == s.copies && room.active == s.active
    ensures var t := Enter(o, room, at, g[at]); Ranked(g, t, rank) && t.active <= t.copies.Keys
  {
    hide ChildrenRanked;
    var t := Enter(o, room, at, g[at]);
    assert t.copies.Keys - t.active == rank.Keys;
  }

  lemma ExtendsOn(a: map<Address, nat>, b: map<Address, nat>, c: map<Address, nat>)
    requires Extends(a, b) && Extends(b, c)
    ensures Extends(a, c)
  {
  }

  lemma NoneRanked(node: Node, rank: map<Address, nat>, bound: nat)
    ensures ChildrenRanked(node, 0, rank, bound)
  {
  }

  lemma RankBound(g: Graph, s: Snap, rank: map<Address, nat>, v: Value)
    requires Ranked(g, s, rank) && (v.Ref? ==> v.at in rank)
    ensures v.Ref? ==> rank[v.at] < |rank|
  {
  }

  lemma OneMoreRanked(node: Node, i: nat, rank: map<Address, nat>, more: map<Address, nat>)
    requires i < |node.entries| && ChildrenRanked(node, i, rank, |rank|) && Extends(rank, more)
    requires node.entries[i].child.Ref? ==> node.entries[i].child.at in more && more[node.entries[i].child.at] < |more|
    ensures ChildrenRanked(node, i + 1, more, |more|)
  {
  }

  lemma {:induction false} EntriesRanks(
      o: Options, g: Graph, s: Snap, rank: map<Address, nat>, at: Address, k: nat, i: nat, depth: nat)
    returns (more: map<Address, nat>)
    requires o.preserveAliases && !o.allowCycles && Ranked(g, s, rank) && s.active <= s.copies.Keys
    requires at in g && k < |s.out| && i <= |g[at].entries| && depth < o.maxDepth
    requires VisitEntries(o, g, s, g[at], k, i, depth).Some? && ChildrenRanked(g[at], i, rank, |rank|)
    ensures var t := VisitEntries(o, g, s, g[at], k, i, depth).value;
      && Ranked(g, t, more) && Extends(rank, more) && t.active == s.active && s.copies.Keys <= t.copies.Keys
      && ChildrenRanked(g[at], |g[at].entries|, more, |more|)
    decreases o.maxDepth - depth, 0, |g[at].entries| - i
  {
    hide Ranked, Extends, ChildrenRanked, Visit;
    more := rank;
    SameRanks(g, s, s, rank);
    if i < |g[at].entries| {
      var entry := g[at].entries[i];
      var charged := ChargeKey(o, s, g[at], entry.key).value;
      SameRanks(g, s, charged, rank);
      var after := VisitRanks(o, g, charged, rank, entry.child, depth + 1);
      var copied := Visit(o, g, charged, entry.child, depth + 1).value;
      RankBound(g, copied.snap, after, entry.child);
      OneMoreRanked(g[at], i, rank, after);
      var pushed := PushEntry(copied.snap, k, Entry(entry.key, copied.value));
      SameRanks(g, copied.snap, pushed, after);
      more := EntriesRanks(o, g, pushed, after, at, k, i + 1, depth);
      ExtendsOn(rank, after, more);
    }
  }

  lemma {:induction false} PathDescends(g: Graph, s: Snap, rank: map<Address, nat>, a: Address, p: seq<nat>)
    requires Ranked(g, s, rank) && a in rank && Follow(g, Ref(a), p).Some? && Follow(g, Ref(a), p).value.Ref?
    ensures var b := Follow(g, Ref(a), p).value.at; b in rank && rank[b] <= rank[a] && (p != [] ==> rank[b] < rank[a])
    decreases |p|
  {
    if p != [] {
      var prefix := p[..|p| - 1];
      PathDescends(g, s, rank, a, prefix);
      var above := Follow(g, Ref(a), prefix).value.at;
      assert ChildrenRanked(g[above], |g[above].entries|, rank, rank[above]);
    }
  }

  lemma RankedIsAcyclic(g: Graph, s: Snap, rank: map<Address, nat>, v: Value)
    requires Ranked(g, s, rank) && (v.Ref? ==> v.at in rank)
    ensures Acyclic(g, v)
  {
    hide Ranked, Follow;
    forall p, q ensures NoReturn(g, v, p, q) {
      if q != [] && Follow(g, v, p).Some? && Follow(g, v, p).value.Ref? {
        LeafEnds(g, v, p);
        PathDescends(g, s, rank, v.at, p);
        FollowOn(g, v, p, q);
        if Follow(g, v, p + q) == Follow(g, v, p) {
          PathDescends(g, s, rank, Follow(g, v, p).value.at, q);
        }
      }
    }
  }

  lemma {:induction false} LeafEnds(g: Graph, v: Value, p: seq<nat>)
    requires Follow(g, v, p).Some? && Follow(g, v, p).value.Ref?
    ensures v.Ref?
  {
    if p != [] {
      LeafEnds(g, v, p[..|p| - 1]);
    }
  }

  /** Without cycles allowed a snapshot succeeds on acyclic values only, whether aliases are
      kept or written out. */
  lemma CyclesAreRefused(o: Options, g: Graph, v: Value)
    requires !o.allowCycles && Snapshot(o, g, v).Some?
    ensures Acyclic(g, v)
  {
    hide Visit, Acyclic;
    if o.preserveAliases {
      var rank := VisitRanks(o, g, START, map[], v, 0);
      RankedIsAcyclic(g, Snapshot(o, g, v).value.snap, rank, v);
    } else {
      SnapshotWeighsUnfolding(o, g, v);
    }
  }
}
