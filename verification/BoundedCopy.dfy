/** What a snapshot is: a copy of the graph that has the same paths, and with aliases kept the
    same sharing. */
module BoundedCopy {
  import opened Basics
  import opened BoundedValue

  // ---------- invariant of the traversal ----------

  /** `src` names the node that each node of the copy was made from. */
  predicate Matches(src: seq<Address>, v: Value, w: Value) {
    if v.Ref? then w.Ref? && w.at < |src| && src[w.at] == v.at else w == v
  }

  predicate MatchesEntry(src: seq<Address>, e: Entry, f: Entry) {
    f.key == e.key && Matches(src, e.child, f.child)
  }

  /** The first `n` entries of the copy are there. */
  ghost predicate CopiedUpTo(src: seq<Address>, node: Node, copy: Node, n: nat) {
    && copy.isArray == node.isArray && |copy.entries| == n <= |node.entries|
    && (forall i :: 0 <= i < n ==> MatchesEntry(src, node.entries[i], copy.entries[i]))
  }

  ghost predicate CopyInv(g: Graph, s: Snap, src: seq<Address>, open: set<nat>, i: nat)
    requires i < |src| == |s.out|
  {
    src[i] in g && (i !in open ==> CopiedUpTo(src, g[src[i]], s.out[i], |g[src[i]].entries|))
  }

  /** All nodes of the copy but the `open` ones are finished, the map of copies is right, and
      with aliases kept it knows every node of the copy. */
  ghost predicate Inv(o: Options, g: Graph, s: Snap, src: seq<Address>, open: set<nat>) {
    && |src| == |s.out|
    && (forall i :: 0 <= i < |src| ==> CopyInv(g, s, src, open, i))
    && (forall a :: a in s.copies ==> s.copies[a] < |src| && src[s.copies[a]] == a)
    && (o.preserveAliases ==> forall i :: 0 <= i < |src| ==> src[i] in s.copies && s.copies[src[i]] == i)
  }

  /** Later traversal adds nodes; of the earlier nodes only `k` may still change. */
  ghost predicate Grows(s: Snap, t: Snap, k: nat) {
    && t.active == s.active && |s.out| <= |t.out|
    && (forall i :: 0 <= i < |s.out| && i != k ==> t.out[i] == s.out[i])
  }

  lemma CopiedStays(src: seq<Address>, more: seq<Address>, node: Node, copy: Node, n: nat)
    requires src <= more && CopiedUpTo(src, node, copy, n)
    ensures CopiedUpTo(more, node, copy, n)
  {
    forall i | 0 <= i < n ensures MatchesEntry(more, node.entries[i], copy.entries[i]) {
      assert MatchesEntry(src, node.entries[i], copy.entries[i]);
    }
  }

  lemma EnterKeepsInv(o: Options, g: Graph, s: Snap, src: seq<Address>, open: set<nat>, at: Address)
    requires Inv(o, g, s, src, open) && at in g && (o.preserveAliases ==> at !in s.copies)
    ensures var t := Enter(o, s, at, g[at]);
      Inv(o, g, t, src + [at], open + {|src|}) && CopiedUpTo(src + [at], g[at], t.out[|src|], 0)
  {
    var t := Enter(o, s, at, g[at]);
    forall i | 0 <= i < |src| + 1 ensures CopyInv(g, t, src + [at], open + {|src|}, i) {
      if i < |src| {
        assert CopyInv(g, s, src, open, i);
        if i !in open { CopiedStays(src, src + [at], g[src[i]], s.out[i], |g[src[i]].entries|); }
      }
    }
  }

  lemma PushKeepsInv(o: Options, g: Graph, s: Snap, src: seq<Address>, open: set<nat>, k: nat, e: Entry, w: Value,
      i: nat)
    requires Inv(o, g, s, src, open) && k in open && k < |src|
    requires src[k] in g && i < |g[src[k]].entries| && e == g[src[k]].entries[i]
    requires CopiedUpTo(src, g[src[k]], s.out[k], i) && Matches(src, e.child, w)
    ensures var t := PushEntry(s, k, Entry(e.key, w));
      Inv(o, g, t, src, open) && CopiedUpTo(src, g[src[k]], t.out[k], i + 1)
  {
    var t := PushEntry(s, k, Entry(e.key, w));
    forall j | 0 <= j < |src| ensures CopyInv(g, t, src, open, j) { assert CopyInv(g, s, src, open, j); }
    forall j | 0 <= j < i + 1 ensures MatchesEntry(src, g[src[k]].entries[j], t.out[k].entries[j]) {
      if j < i { assert MatchesEntry(src, g[src[k]].entries[j], s.out[k].entries[j]); }
    }
  }

  lemma BudgetKeepsInv(o: Options, g: Graph, s: Snap, src: seq<Address>, open: set<nat>, t: Snap)
    requires Inv(o, g, s, src, open) && t.out == s.out && t.copies == s.copies
    ensures Inv(o, g, t, src, open)
  {
    forall i | 0 <= i < |src| ensures CopyInv(g, t, src, open, i) { assert CopyInv(g, s, src, open, i); }
  }

  lemma CloseKeepsInv(o: Options, g: Graph, s: Snap, src: seq<Address>, open: set<nat>, k: nat)
    requires Inv(o, g, s, src, open + {k}) && k < |src| && src[k] in g
    requires CopiedUpTo(src, g[src[k]], s.out[k], |g[src[k]].entries|)
    ensures Inv(o, g, s, src, open)
  {
    forall i | 0 <= i < |src| ensures CopyInv(g, s, src, open, i) { assert CopyInv(g, s, src, open + {k}, i); }
  }

  lemma CopyIsKnown(o: Options, g: Graph, s: Snap, src: seq<Address>, open: set<nat>, at: Address)
    requires Inv(o, g, s, src, open) && at in s.copies
    ensures Matches(src, Ref(at), Ref(s.copies[at]))
  {
  }

  // ---------- the traversal copies ----------

  lemma {:induction false} VisitCopies(
      o: Options, g: Graph, s: Snap, src: seq<Address>, open: set<nat>, v: Value, depth: nat)
    returns (more: seq<Address>)
    requires Inv(o, g, s, src, open) && Visit(o, g, s, v, depth).Some?
    ensures var c := Visit(o, g, s, v, depth).value;
      src <= more && Inv(o, g, c.snap, more, open) && Grows(s, c.snap, |s.out|) && Matches(more, v, c.value)
    decreases o.maxDepth - depth, 2
  {
    hide Inv;
    var counted := if depth == 0 && o.countRoot then AddItems(o, s, 1) else Some(s);
    BudgetKeepsInv(o, g, s, src, open, counted.value);
    if v.Ref? {
      more := NodeCopies(o, g, counted.value, src, open, v.at, depth);
    } else {
      more := src;
      BudgetKeepsInv(o, g, counted.value, src, open, Visit(o, g, s, v, depth).value.snap);
    }
  }

  lemma {:induction false} NodeCopies(
      o: Options, g: Graph, s: Snap, src: seq<Address>, open: set<nat>, at: Address, depth: nat)
    returns (more: seq<Address>)
    requires Inv(o, g, s, src, open) && VisitNode(o, g, s, at, depth).Some?
    ensures var c := VisitNode(o, g, s, at, depth).value;
      src <= more && Inv(o, g, c.snap, more, open) && Grows(s, c.snap, |s.out|) && Matches(more, Ref(at), c.value)
    decreases o.maxDepth - depth, 1
  {
    hide Inv, VisitEntries;
    if at in s.active || (o.preserveAliases && at in s.copies) {
      more := src;
      CopyIsKnown(o, g, s, src, open, at);
    } else {
      more := FreshNode(o, g, s, src, open, at, depth);
    }
  }

  lemma {:induction false} FreshNode(
      o: Options, g: Graph, s: Snap, src: seq<Address>, open: set<nat>, at: Address, depth: nat)
    returns (more: seq<Address>)
    requires Inv(o, g, s, src, open) && VisitNode(o, g, s, at, depth).Some?
    requires at !in s.active && (o.preserveAliases ==> at !in s.copies)
    ensures var c := VisitNode(o, g, s, at, depth).value;
      src <= more && Inv(o, g, c.snap, more, open) && Grows(s, c.snap, |s.out|) && Matches(more, Ref(at), c.value)
    decreases o.maxDepth - depth, 0, |g[at].entries| + 1
  {
    hide Inv, VisitEntries, CopiedUpTo;
    var node, k := g[at], |s.out|;
    OutSize(o, g, s, src, open);
    var room := AddItems(o, s, |node.entries|).value;
    BudgetKeepsInv(o, g, s, src, open, room);
    EnterKeepsInv(o, g, room, src, open, at);
    var entered := Enter(o, room, at, node);
    more := EntriesCopies(o, g, entered, src + [at], open + {k}, k, 0, depth);
    var filled := VisitEntries(o, g, entered, node, k, 0, depth).value;
    assert more[k] == at;
    CloseKeepsInv(o, g, filled, more, open, k);
    BudgetKeepsInv(o, g, filled, more, open, Leave(filled, at));
    assert Leave(filled, at).active == s.active;
  }

  lemma OutSize(o: Options, g: Graph, s: Snap, src: seq<Address>, open: set<nat>)
    requires Inv(o, g, s, src, open)
    ensures |src| == |s.out|
  {
  }

  lemma {:induction false} EntriesCopies(
      o: Options, g: Graph, s: Snap, src: seq<Address>, open: set<nat>, k: nat, i: nat, depth: nat)
    returns (more: seq<Address>)
    requires Inv(o, g, s, src, open) && k in open && k < |src| == |s.out| && src[k] in g
    requires i <= |g[src[k]].entries| && depth < o.maxDepth && CopiedUpTo(src, g[src[k]], s.out[k], i)
    requires VisitEntries(o, g, s, g[src[k]], k, i, depth).Some?
    ensures var t := VisitEntries(o, g, s, g[src[k]], k, i, depth).value;
      && src <= more && Inv(o, g, t, more, open) && Grows(s, t, k)
      && CopiedUpTo(more, g[src[k]], t.out[k], |g[src[k]].entries|)
    decreases o.maxDepth - depth, 0, |g[src[k]].entries| - i
  {
    hide Inv, Visit, CopiedUpTo;
    more := src;
    if i < |g[src[k]].entries| {
      var node := g[src[k]];
      var entry := node.entries[i];
      var charged := ChargeKey(o, s, node, entry.key).value;
      BudgetKeepsInv(o, g, s, src, open, charged);
      var after := VisitCopies(o, g, charged, src, open, entry.child, depth + 1);
      var copied := Visit(o, g, charged, entry.child, depth + 1).value;
      OutSize(o, g, copied.snap, after, open);
      CopiedStays(src, after, node, s.out[k], i);
      PushKeepsInv(o, g, copied.snap, after, open, k, entry, copied.value, i);
      var pushed := PushEntry(copied.snap, k, Entry(entry.key, copied.value));
      more := EntriesCopies(o, g, pushed, after, open, k, i + 1, depth);
    }
  }

  // ---------- the same paths and the same sharing ----------

  function AsGraph(out: seq<Node>): Graph {
    map i | 0 <= i < |out| :: out[i]
  }

  /** What lies at the end of a path of entry indices. */
  function Follow(g: Graph, v: Value, path: seq<nat>): Option<Value> {
    if path == [] then Some(v)
    else
      var above := Follow(g, v, path[..|path| - 1]);
      if above.None? || !above.value.Ref? || above.value.at !in g then None
      else
        var entries := g[above.value.at].entries;
        if path[|path| - 1] < |entries| then Some(entries[path[|path| - 1]].child) else None
  }

  predicate SameKeys(a: seq<Entry>, b: seq<Entry>) {
    |a| == |b| && forall i :: 0 <= i < |a| ==> a[i].key == b[i].key
  }

  /** Equal values without parts, or nodes of one kind with the same keys in the same order. */
  predicate SameShape(g: Graph, v: Value, h: Graph, w: Value) {
    if v.Ref? then
      && w.Ref? && v.at in g && w.at in h && g[v.at].isArray == h[w.at].isArray
      && SameKeys(g[v.at].entries, h[w.at].entries)
    else w == v
  }

  predicate SameEnds(g: Graph, v: Value, h: Graph, w: Value, p: seq<nat>) {
    var a, b := Follow(g, v, p), Follow(h, w, p);
    if a.None? then b.None? else b.Some? && SameShape(g, a.value, h, b.value)
  }

  /** Two paths meet in one node here exactly when they meet there. */
  predicate SameMeeting(g: Graph, v: Value, h: Graph, w: Value, p: seq<nat>, q: seq<nat>) {
    var a, b := Follow(g, v, p), Follow(g, v, q);
    a.Some? && b.Some? && a.value.Ref? && b.value.Ref? ==> (a == b <==> Follow(h, w, p) == Follow(h, w, q))
  }

  ghost predicate Isomorphic(g: Graph, v: Value, h: Graph, w: Value) {
    && (forall p :: SameEnds(g, v, h, w, p))
    && (forall p, q :: SameMeeting(g, v, h, w, p, q))
  }

  lemma {:induction false} FollowMatches(o: Options, g: Graph, s: Snap, src: seq<Address>, v: Value, w: Value,
      p: seq<nat>)
    requires Inv(o, g, s, src, {}) && Matches(src, v, w)
    ensures var a, b := Follow(g, v, p), Follow(AsGraph(s.out), w, p);
      if a.None? then b.None? else b.Some? && Matches(src, a.value, b.value)
    decreases |p|
  {
    if p != [] {
      var prefix, last := p[..|p| - 1], p[|p| - 1];
      FollowMatches(o, g, s, src, v, w, prefix);
      var b := Follow(AsGraph(s.out), w, prefix);
      if b.Some? && b.value.Ref? && b.value.at < |src| {
        assert CopyInv(g, s, src, {}, b.value.at);
        var node := g[src[b.value.at]];
        if last < |node.entries| {
          assert MatchesEntry(src, node.entries[last], s.out[b.value.at].entries[last]);
        }
      }
    }
  }

  lemma MatchesShape(o: Options, g: Graph, s: Snap, src: seq<Address>, v: Value, w: Value)
    requires Inv(o, g, s, src, {}) && Matches(src, v, w)
    ensures SameShape(g, v, AsGraph(s.out), w)
  {
    if v.Ref? {
      assert CopyInv(g, s, src, {}, w.at);
      var node, copy := g[v.at], s.out[w.at];
      forall i | 0 <= i < |node.entries| ensures node.entries[i].key == copy.entries[i].key {
        assert MatchesEntry(src, node.entries[i], copy.entries[i]);
      }
    }
  }

  lemma Ends(o: Options, g: Graph, s: Snap, src: seq<Address>, v: Value, w: Value, p: seq<nat>)
    requires Inv(o, g, s, src, {}) && Matches(src, v, w)
    ensures SameEnds(g, v, AsGraph(s.out), w, p)
  {
    hide Inv, Follow, Matches, SameShape;
    FollowMatches(o, g, s, src, v, w, p);
    if Follow(g, v, p).Some? {
      MatchesShape(o, g, s, src, Follow(g, v, p).value, Follow(AsGraph(s.out), w, p).value);
    }
  }

  lemma Meeting(o: Options, g: Graph, s: Snap, src: seq<Address>, v: Value, w: Value, p: seq<nat>, q: seq<nat>)
    requires o.preserveAliases && Inv(o, g, s, src, {}) && Matches(src, v, w)
    ensures SameMeeting(g, v, AsGraph(s.out), w, p, q)
  {
    hide Follow;
    FollowMatches(o, g, s, src, v, w, p);
    FollowMatches(o, g, s, src, v, w, q);
  }

  /** The nodes of a copy are addressed apart from those of the original: a copy never refers
      to a node of the original. Whatever the options, a snapshot that succeeds reads like the
      original: every path leads to the same thing, also around cycles. */
  lemma SnapshotReadsAlike(o: Options, g: Graph, v: Value)
    requires Snapshot(o, g, v).Some?
    ensures var c := Snapshot(o, g, v).value; forall p :: SameEnds(g, v, AsGraph(c.snap.out), c.value, p)
  {
    hide Inv, Visit, SameEnds, Matches;
    StartInv(o, g);
    var src := VisitCopies(o, g, START, [], {}, v, 0);
    var c := Snapshot(o, g, v).value;
    forall p ensures SameEnds(g, v, AsGraph(c.snap.out), c.value, p) { Ends(o, g, c.snap, src, v, c.value, p); }
  }

  /** With aliases kept it is an isomorphic copy: moreover two paths share a node in the copy
      exactly when they do in the original. */
  lemma SnapshotIsIsomorphic(o: Options, g: Graph, v: Value)
    requires o.preserveAliases && Snapshot(o, g, v).Some?
    ensures var c := Snapshot(o, g, v).value; Isomorphic(g, v, AsGraph(c.snap.out), c.value)
  {
    hide Inv, Visit, SameEnds, SameMeeting, Matches;
    StartInv(o, g);
    var src := VisitCopies(o, g, START, [], {}, v, 0);
    var c := Snapshot(o, g, v).value;
    forall p ensures SameEnds(g, v, AsGraph(c.snap.out), c.value, p) { Ends(o, g, c.snap, src, v, c.value, p); }
    forall p, q ensures SameMeeting(g, v, AsGraph(c.snap.out), c.value, p, q) {
      Meeting(o, g, c.snap, src, v, c.value, p, q);
    }
  }

  lemma StartInv(o: Options, g: Graph)
    ensures Inv(o, g, START, [], {})
  {
  }
}
