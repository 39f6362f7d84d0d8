/** Creating and cleaning up any number of runs in one root, step by step and interleaved,
    with agents that write and remove files. */
module CurrentRunCleanup {
  import opened CurrentRunTree

  /** How far a run's `claimAndDelete` has come; a run deletes one entry at a time. */
  datatype Stage =
    | Intent(path: Path)
    | Claimed(path: Path, claim: Path)
    | Moved(path: Path, claim: Path)
    | Restoring(path: Path, claim: Path)
    | Emptying(claim: Path)

  /** `left` records the two names of every file whose second link could not be removed. */
  datatype World = World(tree: Tree, stages: map<string, Stage>, left: set<Path>)

  datatype Step =
    | MakeRun
    | MakePayload(name: string)
    | WriteFile(payload: string, name: string)
    | DropFile(payload: string, name: string)
    | Begin(path: Path)
    | MakeClaim(uuid: string)
    | Rename
    | Delete
    | Fail
    | EndRestore
    | RemoveClaim

  datatype Action = Action(run: string, step: Step)

  const INITIAL := World(map[[] := Directory, [LEASE] := File(1)], map[], {})

  // ---------- steps ----------

  /** The entries a run's cleanup ever deletes: its files, its two directories, itself. */
  predicate Mine(run: string, p: Path) {
    1 <= |p| <= 3 && p[0] == run && (|p| > 1 ==> PayloadSegment(p[1]))
  }

  predicate Deletable(p: Path, kind: Kind) {
    if |p| == 3 then kind == File(1) else kind == Directory
  }

  function Idle(w: World, run: string, tree: Tree): World {
    w.(tree := tree, stages := w.stages - {run})
  }

  function At(w: World, run: string, tree: Tree, stage: Stage): World {
    w.(tree := tree, stages := w.stages[run := stage])
  }

  function Create(w: World, p: Path, kind: Kind): World {
    if p != [] && IsDirectory(w.tree, Parent(p)) && p !in w.tree then w.(tree := Put(w.tree, p, kind)) else w
  }

  /** An agent removes a file of its own; not one that is just being put back. */
  function Drop(w: World, p: Path): World {
    if p in w.tree && w.tree[p] == File(1) then w.(tree := Remove(w.tree, p)) else w
  }

  /** `link`: both names now have two links. */
  function Linked(t: Tree, p: Path, entry: Path): Tree {
    Put(Put(t, entry, File(2)), p, File(2))
  }

  /** `restoreClaim`: nothing when the source exists again; a file comes back by a second
      link and the loss of the first, a directory by a rename. */
  function Restore(w: World, run: string, p: Path, claim: Path): World
    requires claim + [ENTRY] in w.tree
  {
    var entry := claim + [ENTRY];
    if p in w.tree || p == [] || !IsDirectory(w.tree, Parent(p)) then At(w, run, w.tree, Emptying(claim))
    else if w.tree[entry].File? then At(w, run, Linked(w.tree, p, entry), Restoring(p, claim))
    else At(w, run, Move(w.tree, entry, p), Emptying(claim))
  }

  function Deleting(w: World, run: string, step: Step): World
    requires run in w.stages
  {
    match (w.stages[run], step)
    case (Intent(p), MakeClaim(uuid)) =>
      if p == [] || !IsDirectory(w.tree, Parent(p)) then Idle(w, run, w.tree)
      else if !CleanupSegment(uuid) || Parent(p) + [uuid] in w.tree || Parent(p) + [uuid] == p then w
      else At(w, run, Put(w.tree, Parent(p) + [uuid], Directory), Claimed(p, Parent(p) + [uuid]))
    case (Intent(p), Fail) => Idle(w, run, w.tree)
    case (Claimed(p, claim), Rename) =>
      if p in w.tree then At(w, run, Move(w.tree, p, claim + [ENTRY]), Moved(p, claim))
      else At(w, run, w.tree, Emptying(claim))
    case (Claimed(p, claim), Fail) => At(w, run, w.tree, Emptying(claim))
    case (Moved(p, claim), Delete) =>
      var entry := claim + [ENTRY];
      if entry !in w.tree then w
      else if w.tree[entry].File? || Children(w.tree, entry) == {} then
        At(w, run, Remove(w.tree, entry), Emptying(claim))
      else Restore(w, run, p, claim)
    case (Moved(p, claim), Fail) => if claim + [ENTRY] in w.tree then Restore(w, run, p, claim) else w
    case (Restoring(p, claim), EndRestore) =>
      At(w, run, Put(Remove(w.tree, claim + [ENTRY]), p, File(1)), Emptying(claim))
    case (Restoring(p, claim), Fail) =>
      At(w, run, w.tree, Emptying(claim)).(left := w.left + {p, claim + [ENTRY]})
    case (Emptying(claim), RemoveClaim) =>
      Idle(w, run, if Children(w.tree, claim) == {} then Remove(w.tree, claim) else w.tree)
    case (Emptying(claim), Fail) => Idle(w, run, w.tree)
    case _ => w
  }

  /** A step that does not apply changes nothing. Agents write and remove files at any time,
      also while their run is cleaned up; cleanup takes its entries in any order. */
  function Next(w: World, a: Action): World {
    var run := a.run;
    if !RunSegment(run) then w
    else match a.step
      case MakeRun => Create(w, [run], Directory)
      case MakePayload(name) => if PayloadSegment(name) then Create(w, [run, name], Directory) else w
      case WriteFile(payload, name) => if PayloadSegment(payload) then Create(w, [run, payload, name], File(1)) else w
      case DropFile(payload, name) => if PayloadSegment(payload) then Drop(w, [run, payload, name]) else w
      case Begin(p) =>
        if run !in w.stages && Mine(run, p) && p in w.tree && Deletable(p, w.tree[p]) && Children(w.tree, p) == {}
        then At(w, run, w.tree, Intent(p)) else w
      case _ => if run in w.stages then Deleting(w, run, a.step) else w
  }

  function Exec(w: World, actions: seq<Action>): World {
    if actions == [] then w else Next(Exec(w, actions[..|actions| - 1]), actions[|actions| - 1])
  }
}
