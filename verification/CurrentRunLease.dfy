/** The current-run lease: any number of processes open, use, close and lose one root.
    The lease file is locked by inode, checked against its path, and unlinked on close
    when the root is otherwise empty, and by a creator whose creation fails. */
module CurrentRunLease {
  import opened Basics

  type Process = nat

  type Inode = nat

  // ---------- the workspace object ----------

  datatype Workspace = Workspace(activeRuns: set<nat>, closing: bool)

  function BeginRun(w: Workspace, token: nat): Workspace {
    if w.closing then w else w.(activeRuns := w.activeRuns + {token})
  }

  function FinishRun(w: Workspace, token: nat): Workspace {
    w.(activeRuns := w.activeRuns - {token})
  }

  /** `close` waits for the last run before it gives the lease up. */
  predicate MayRelease(w: Workspace) {
    w.closing && w.activeRuns == {}
  }

  class OpenWorkspace {
    var activeRuns: set<nat>
    var closing: bool
    var waiting: bool
    var released: bool

    ghost function AsWorkspace(): Workspace
      reads this
    {
      Workspace(activeRuns, closing)
    }

    ghost predicate Valid()
      reads this
    {
      && (released ==> MayRelease(AsWorkspace()))
      && (waiting ==> closing && activeRuns != {} && !released)
      && (closing ==> waiting || released)
    }

    constructor ()
      ensures Valid() && AsWorkspace() == Workspace({}, false) && !released
    {
      activeRuns, closing, waiting, released := {}, false, false, false;
    }

    /** The synchronous part of `createRunFiles`. */
    method CreateRun(token: nat) returns (accepted: bool)
      requires Valid()
      modifies this
      ensures Valid() && AsWorkspace() == BeginRun(old(AsWorkspace()), token)
      ensures accepted <==> !old(closing)
      ensures released == old(released)
    {
      accepted := !closing;
      if accepted {
        activeRuns := activeRuns + {token};
      }
    }

    /** Cleanup of the last run wakes a waiting close, which then releases. */
    method CleanupRun(token: nat)
      requires Valid()
      modifies this
      ensures Valid() && AsWorkspace() == FinishRun(old(AsWorkspace()), token)
      ensures released <==> closing && activeRuns == {}
    {
      activeRuns := activeRuns - {token};
      if activeRuns == {} && waiting {
        waiting := false;
        released := true;
      }
    }

    method Close()
      requires Valid()
      modifies this
      ensures Valid() && AsWorkspace() == old(AsWorkspace()).(closing := true)
      ensures released <==> closing && activeRuns == {}
    {
      if !closing {
        closing := true;
        if activeRuns == {} {
          released := true;
        } else {
          waiting := true;
        }
      }
    }
  }

  // ---------- the protocol ----------

  /** How far a closing holder has come with taking the lease away. */
  datatype Removal = NotRemoving | RootListed | PathChecked

  /** How far one process has come. `Creating`, `Created` and `Revoking` are inside the creation
      of a lease. `Holding` begins when both halves of the lease validation have passed and ends
      at the unlink or the unlock; a run of it is active, then checked against the lease, then
      made in the root. */
  datatype Phase =
    | Reserved
    | Listed(empty: bool)
    | Missing
    | Creating(ino: Inode)
    | Created(ino: Inode)
    | Revoking(ino: Inode)
    | Inspected(ino: Inode)
    | Anchored(ino: Inode)
    | Locked(ino: Inode)
    | AnchorChecked(ino: Inode)
    | Holding(
        ino: Inode, recovering: bool, workspace: Workspace, checked: set<nat>, made: set<nat>, removal: Removal)
    | Unlinked(ino: Inode)

  /** `lease` is the inode the lease path names; an inode has one link exactly while
      the path names it. `written` are the lease files that have their contents, `residue`
      tells whether the root holds anything but the lease. */
  datatype World = World(
    lease: Option<Inode>, next: Inode, written: set<Inode>, residue: bool,
    locks: map<Inode, Process>, procs: map<Process, Phase>)

  datatype Step =
    | Reserve
    | List
    | Inspect
    | Create
    | Write
    | Finish
    | FailCreation
    | Revoke
    | Open
    | Lock
    | CheckAnchor
    | CheckPath
    | Clear
    | Recovered
    | StartRun(token: nat)
    | CheckRun(token: nat)
    | MakeRun(token: nat)
    | EndRun(token: nat, empty: bool)
    | BeginClose
    | ListRoot
    | CheckRemoval
    | Unlink
    | Stop

  datatype Action = Action(process: Process, step: Step)

  const INITIAL := World(None, 0, {}, false, map[], map[])

  predicate Linked(w: World, ino: Inode) {
    w.lease == Some(ino)
  }

  function Goto(w: World, p: Process, phase: Phase): World {
    w.(procs := w.procs[p := phase])
  }

  /** The process fails, closes or dies: it leaves and every lock it had is freed. */
  function Leave(w: World, p: Process): World {
    w.(procs := w.procs - {p}, locks := map i | i in w.locks && w.locks[i] != p :: w.locks[i])
  }

  function Acquired(ino: Inode): Phase {
    Holding(ino, true, Workspace({}, false), {}, {}, NotRemoving)
  }

  /** A lease file without its contents fails the metadata check of whoever inspects it. A
      creation that fails looks whether the path still names the file it made, and unlinks
      what the path names then. */
  function Creation(w: World, p: Process, phase: Phase, step: Step): World {
    match (phase, step)
    case (Listed(empty), Inspect) =>
      if w.lease.Some? then
        if w.lease.value in w.written then Goto(w, p, Inspected(w.lease.value)) else Leave(w, p)
      else if empty then Goto(w, p, Missing) else Leave(w, p)
    case (Missing, Create) =>
      if w.lease.Some? then Goto(w, p, Listed(false))
      else Goto(w.(lease := Some(w.next), next := w.next + 1), p, Creating(w.next))
    case (Creating(i), Write) => Goto(w.(written := w.written + {i}), p, Created(i))
    case (Created(i), Finish) => if Linked(w, i) then Goto(w, p, Inspected(i)) else Leave(w, p)
    case (Creating(i), FailCreation) => if Linked(w, i) then Goto(w, p, Revoking(i)) else Leave(w, p)
    case (Created(i), FailCreation) => if Linked(w, i) then Goto(w, p, Revoking(i)) else Leave(w, p)
    case (Revoking(_), Revoke) => Leave(w.(lease := None), p)
    case _ => w
  }

  function Opening(w: World, p: Process, phase: Phase, step: Step): World {
    match (phase, step)
    case (Reserved, List) => Goto(w, p, Listed(w.lease.None? && !w.residue))
    case (Inspected(i), Open) => if Linked(w, i) then Goto(w, p, Anchored(i)) else Leave(w, p)
    case (Anchored(i), Lock) =>
      if i in w.locks then Leave(w, p) else Goto(w.(locks := w.locks[i := p]), p, Locked(i))
    case (Locked(i), CheckAnchor) => if Linked(w, i) then Goto(w, p, AnchorChecked(i)) else Leave(w, p)
    case (AnchorChecked(i), CheckPath) => if Linked(w, i) then Goto(w, p, Acquired(i)) else Leave(w, p)
    case _ => Creation(w, p, phase, step)
  }

  /** The runs of a holder. A run is active from the call on; it is made only after the lease
      was validated, and a validation that fails ends it. */
  function Running(w: World, p: Process, h: Phase, step: Step): World
    requires h.Holding?
  {
    match step
    case StartRun(token) =>
      if h.recovering || token in h.workspace.activeRuns then w
      else Goto(w, p, h.(workspace := BeginRun(h.workspace, token)))
    case CheckRun(token) =>
      if token !in h.workspace.activeRuns - h.checked - h.made then w
      else if Linked(w, h.ino) then Goto(w, p, h.(checked := h.checked + {token}))
      else Goto(w, p, h.(workspace := FinishRun(h.workspace, token)))
    case MakeRun(token) =>
      if token !in h.checked then w
      else Goto(w.(residue := true), p, h.(checked := h.checked - {token}, made := h.made + {token}))
    case EndRun(token, empty) =>
      if token !in h.checked + h.made then w
      else Goto(
        w.(residue := w.residue && !(empty && h.made == {token})), p,
        h.(workspace := FinishRun(h.workspace, token), checked := h.checked - {token}, made := h.made - {token}))
    case _ => w
  }

  function Using(w: World, p: Process, h: Phase, step: Step): World
    requires h.Holding?
  {
    match step
    case Clear => if h.recovering then w.(residue := false) else w
    case Recovered =>
      if !h.recovering then w
      else if Linked(w, h.ino) then Goto(w, p, h.(recovering := false)) else Leave(w, p)
    case BeginClose => if h.recovering then w else Goto(w, p, h.(workspace := h.workspace.(closing := true)))
    case ListRoot =>
      if MayRelease(h.workspace) && h.removal == NotRemoving && w.lease.Some? && !w.residue
      then Goto(w, p, h.(removal := RootListed)) else w
    case CheckRemoval =>
      if h.removal != RootListed then w
      else if Linked(w, h.ino) then Goto(w, p, h.(removal := PathChecked)) else Leave(w, p)
    case Unlink => if h.removal == PathChecked then Goto(w.(lease := None), p, Unlinked(h.ino)) else w
    case _ => Running(w, p, h, step)
  }

  /** A step that does not apply changes nothing. Two opens in one process are excluded
      by the process-wide reservation, so a process has at most one phase. */
  function Next(w: World, a: Action): World {
    if a.process !in w.procs then (if a.step == Reserve then Goto(w, a.process, Reserved) else w)
    else if a.step == Stop then Leave(w, a.process)
    else
      var phase := w.procs[a.process];
      if phase.Holding? then Using(w, a.process, phase, a.step) else Opening(w, a.process, phase, a.step)
  }

  function Exec(w: World, actions: seq<Action>): World {
    if actions == [] then w else Next(Exec(w, actions[..|actions| - 1]), actions[|actions| - 1])
  }
}
