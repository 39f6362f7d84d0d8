/** Bounded snapshots: copying a graph of plain values within a byte, item and depth budget. */
module BoundedValue {
  import opened Basics

  // ---------- values and graphs ----------

  type Address = nat

  /** `Other` stands for everything a snapshot never takes: functions, proxies, symbols. */
  datatype Value =
    | Undefined
    | Null
    | Boolean(b: bool)
    | Number(n: int, finite: bool)
    | Text(s: string)
    | Bytes(data: seq<bv8>)
    | Ref(at: Address)
    | Other

  datatype Entry = Entry(key: string, child: Value)

  /** An array or a record; `plain` when it passes the checks on prototype, keys and properties. */
  datatype Node = Node(isArray: bool, plain: bool, entries: seq<Entry>)

  type Graph = map<Address, Node>

  datatype Options = Options(
    maxBytes: nat, maxItems: nat, maxDepth: nat, allowUndefined: bool, cloneBytes: bool,
    allowCycles: bool, preserveAliases: bool, countRoot: bool, utf8Bytes: string -> nat)

  /** The traversal's mutable variables; the copies are the elements of `out`. */
  datatype Snap = Snap(bytes: nat, items: nat, active: set<Address>, copies: map<Address, nat>, out: seq<Node>)

  datatype Copied = Copied(value: Value, snap: Snap)

  const START := Snap(0, 0, {}, map[], [])

  // ---------- the traversal ----------

  /** The bytes a value without parts is charged, when it may be taken at all. */
  function LeafCost(o: Options, v: Value): Option<nat> {
    match v
    case Undefined => if o.allowUndefined then Some(8) else None
    case Null => Some(8)
    case Boolean(_) => Some(8)
    case Number(_, finite) => if finite then Some(16) else None
    case Text(s) => Some(o.utf8Bytes(s))
    case Bytes(data) => if o.cloneBytes then Some(|data|) else None
    case Ref(_) => None
    case Other => None
  }

  function Charge(o: Options, s: Snap, amount: nat): Option<Snap> {
    if s.bytes + amount > o.maxBytes then None else Some(s.(bytes := s.bytes + amount))
  }

  function AddItems(o: Options, s: Snap, count: nat): Option<Snap> {
    if s.items + count > o.maxItems then None else Some(s.(items := s.items + count))
  }

  function ChargeKey(o: Options, s: Snap, node: Node, key: string): Option<Snap> {
    if node.isArray then Some(s) else Charge(o, s, o.utf8Bytes(key))
  }

  /** The empty copy of a node that is entered. */
  function Enter(o: Options, s: Snap, at: Address, node: Node): Snap {
    Snap(
      s.bytes, s.items, s.active + {at},
      if o.preserveAliases || o.allowCycles then s.copies[at := |s.out|] else s.copies,
      s.out + [Node(node.isArray, true, [])])
  }

  function Leave(s: Snap, at: Address): Snap {
    s.(active := s.active - {at})
  }

  function PushEntry(s: Snap, k: nat, entry: Entry): Snap
    requires k < |s.out|
  {
    s.(out := s.out[k := s.out[k].(entries := s.out[k].entries + [entry])])
  }

  function Visit(o: Options, g: Graph, s: Snap, v: Value, depth: nat): (r: Option<Copied>)
    ensures r.Some? ==> |s.out| <= |r.value.snap.out|
    decreases o.maxDepth - depth, 2
  {
    var counted := if depth == 0 && o.countRoot then AddItems(o, s, 1) else Some(s);
    if counted.None? then None
    else if v.Ref? then VisitNode(o, g, counted.value, v.at, depth)
    else
      var cost := LeafCost(o, v);
      if cost.None? then None
      else
        var charged := Charge(o, counted.value, cost.value);
        if charged.None? then None else Some(Copied(v, charged.value))
  }

  function VisitNode(o: Options, g: Graph, s: Snap, at: Address, depth: nat): (r: Option<Copied>)
    ensures r.Some? ==> |s.out| <= |r.value.snap.out|
    decreases o.maxDepth - depth, 1
  {
    if depth >= o.maxDepth || at !in g then None
    else if at in s.active then
      if o.allowCycles && at in s.copies then Some(Copied(Ref(s.copies[at]), s)) else None
    else if o.preserveAliases && at in s.copies then Some(Copied(Ref(s.copies[at]), s))
    else
      var node := g[at];
      var room := AddItems(o, s, |node.entries|);
      if !node.plain || room.None? then None
      else
        var k := |s.out|;
        var filled := VisitEntries(o, g, Enter(o, room.value, at, node), node, k, 0, depth);
        if filled.None? then None else Some(Copied(Ref(k), Leave(filled.value, at)))
  }

  function VisitEntries(o: Options, g: Graph, s: Snap, node: Node, k: nat, i: nat, depth: nat): (r: Option<Snap>)
    requires k < |s.out| && i <= |node.entries| && depth < o.maxDepth
    ensures r.Some? ==> |s.out| <= |r.value.out|
    decreases o.maxDepth - depth, 0, |node.entries| - i
  {
    if i == |node.entries| then Some(s)
    else
      var entry := node.entries[i];
      var charged := ChargeKey(o, s, node, entry.key);
      if charged.None? then None
      else
        var copied := Visit(o, g, charged.value, entry.child, depth + 1);
        if copied.None? then None
        else VisitEntries(o, g, PushEntry(copied.value.snap, k, Entry(entry.key, copied.value.value)), node, k, i + 1,
          depth)
  }

  /** `snapshotBoundedValue`: the copy with the bytes and items it was charged. */
  function Snapshot(o: Options, g: Graph, v: Value): Option<Copied> {
    Visit(o, g, START, v, 0)
  }

  // ---------- the traversal in place ----------

  class Snapshotter {
    const options: Options
    const graph: Graph
    var bytes: nat
    var items: nat
    var active: set<Address>
    var copies: map<Address, nat>
    var out: seq<Node>

    ghost function AsSnap(): Snap
      reads this
    {
      Snap(bytes, items, active, copies, out)
    }

    constructor (o: Options, g: Graph)
      ensures options == o && graph == g && AsSnap() == START
    {
      options, graph := o, g;
      bytes, items, active, copies, out := 0, 0, {}, map[], [];
    }

    method ChargeBytes(amount: nat) returns (ok: bool)
      modifies this`bytes
      ensures ok <==> Charge(options, old(AsSnap()), amount).Some?
      ensures ok ==> AsSnap() == Charge(options, old(AsSnap()), amount).value
    {
      bytes := bytes + amount;
      ok := bytes <= options.maxBytes;
    }

    method CountItems(count: nat) returns (ok: bool)
      modifies this`items
      ensures ok <==> AddItems(options, old(AsSnap()), count).Some?
      ensures ok ==> AsSnap() == AddItems(options, old(AsSnap()), count).value
    {
      items := items + count;
      ok := items <= options.maxItems;
    }

    method VisitValue(v: Value, depth: nat) returns (ok: bool, copy: Value)
      modifies this
      ensures ok <==> Visit(options, graph, old(AsSnap()), v, depth).Some?
      ensures ok ==> Copied(copy, AsSnap()) == Visit(options, graph, old(AsSnap()), v, depth).value
      decreases options.maxDepth - depth, 2
    {
      ok, copy := true, v;
      if depth == 0 && options.countRoot {
        ok := CountItems(1);
        if !ok { return; }
      }
      if v.Ref? {
        ok, copy := VisitObject(v.at, depth);
      } else {
        var cost := LeafCost(options, v);
        ok := cost.Some?;
        if ok {
          ok := ChargeBytes(cost.value);
        }
      }
    }

    method VisitObject(at: Address, depth: nat) returns (ok: bool, copy: Value)
      modifies this
      ensures ok <==> VisitNode(options, graph, old(AsSnap()), at, depth).Some?
      ensures ok ==> Copied(copy, AsSnap()) == VisitNode(options, graph, old(AsSnap()), at, depth).value
      decreases options.maxDepth - depth, 1
    {
      ok, copy := false, Null;
      if depth >= options.maxDepth || at !in graph {
        return;
      }
      if at in active {
        if options.allowCycles && at in copies {
          ok, copy := true, Ref(copies[at]);
        }
        return;
      }
      if options.preserveAliases && at in copies {
        ok, copy := true, Ref(copies[at]);
        return;
      }
      var node := graph[at];
      if !node.plain { return; }
      ok := CountItems(|node.entries|);
      if !ok { return; }
      var k := |out|;
      out := out + [Node(node.isArray, true, [])];
      if options.preserveAliases || options.allowCycles {
        copies := copies[at := k];
      }
      active := active + {at};
      ok := CopyEntries(node, k, depth);
      if ok {
        active := active - {at};
        copy := Ref(k);
      }
    }

    method CopyEntries(node: Node, k: nat, depth: nat) returns (ok: bool)
      requires k < |out| && depth < options.maxDepth
      modifies this
      ensures ok <==> VisitEntries(options, graph, old(AsSnap()), node, k, 0, depth).Some?
      ensures ok ==> AsSnap() == VisitEntries(options, graph, old(AsSnap()), node, k, 0, depth).value
      decreases options.maxDepth - depth, 0
    {
      hide Visit;
      var i := 0;
      ok := true;
      while i < |node.entries|
        invariant i <= |node.entries| && k < |out|
        invariant VisitEntries(options, graph, AsSnap(), node, k, i, depth) ==
          VisitEntries(options, graph, old(AsSnap()), node, k, 0, depth)
        decreases |node.entries| - i
      {
        var entry := node.entries[i];
        if !node.isArray {
          ok := ChargeBytes(options.utf8Bytes(entry.key));
          if !ok { return; }
        }
        var copy;
        ok, copy := VisitValue(entry.child, depth + 1);
        if !ok { return; }
        out := out[k := out[k].(entries := out[k].entries + [Entry(entry.key, copy)])];
        i := i + 1;
      }
    }
  }
}
