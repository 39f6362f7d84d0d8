/** Every step keeps the invariant of creation and cleanup, and so does every run. */
module CurrentRunLaws {
  import opened CurrentRunTree
  import opened CurrentRunShape
  import opened CurrentRunCleanup
  import opened CurrentRunInvariant
  import opened CurrentRunClaims
  import opened CurrentRunRestores
  import opened CurrentRunLinks

  lemma RestoreKeepsInv(w: World, r: string)
    requires Inv(w) && r in w.stages && w.stages[r].Moved? && Clear(w.left, w.stages[r])
    ensures Inv(Restore(w, r, w.stages[r].path, w.stages[r].claim))
  {
    hide Sound, StagesInv, Move, Mine, ClaimFor;
    var p := w.stages[r].path;
    StageAt(w, r);
    if p in w.tree || p == [] || !IsDirectory(w.tree, Parent(p)) {
      LeaveClaimKeepsInv(w, r);
    } else if w.tree[w.stages[r].claim + [ENTRY]].File? {
      RestoreFileKeepsInv(w, r);
    } else {
      RestoreDirectoryKeepsInv(w, r);
    }
  }

  lemma DeletingKeepsInv(w: World, r: string, step: Step)
    requires Inv(w) && r in w.stages && Clear(w.left, w.stages[r])
    ensures Inv(Deleting(w, r, step))
  {
    hide Sound, StagesInv, Move, Mine, ClaimFor, Restore, CleanupSegment, Below, LinkInv, Clear;
    StageAt(w, r);
    var stage := w.stages[r];
    match (stage, step) {
      case (Intent(p), MakeClaim(uuid)) =>
        if p == [] || !IsDirectory(w.tree, Parent(p)) {
          GiveUpKeepsInv(w, r);
        } else if CleanupSegment(uuid) && Parent(p) + [uuid] !in w.tree && Parent(p) + [uuid] != p {
          MakeClaimKeepsInv(w, r, uuid);
        }
      case (Intent(p), Fail) => GiveUpKeepsInv(w, r);
      case (Claimed(p, claim), Rename) => if p in w.tree { RenameKeepsInv(w, r); } else { LeaveClaimKeepsInv(w, r); }
      case (Claimed(p, claim), Fail) => LeaveClaimKeepsInv(w, r);
      case (Moved(p, claim), Delete) =>
        if w.tree[claim + [ENTRY]].File? || Children(w.tree, claim + [ENTRY]) == {} {
          DeleteKeepsInv(w, r);
        } else {
          RestoreKeepsInv(w, r);
        }
      case (Moved(p, claim), Fail) => RestoreKeepsInv(w, r);
      case (Restoring(p, claim), EndRestore) => EndRestoreKeepsInv(w, r);
      case (Restoring(p, claim), Fail) => FailedRestoreKeepsInv(w, r);
      case (Emptying(claim), RemoveClaim) => RemoveClaimKeepsInv(w, r);
      case (Emptying(claim), Fail) => GiveUpKeepsInv(w, r);
      case _ =>
    }
  }

  lemma NextKeepsInv(w: World, a: Action)
    requires Inv(w) && LeftInv(w)
    ensures Inv(Next(w, a)) && LeftInv(Next(w, a))
  {
    hide Inv, LeftInv, Clear, Deleting, Create, Drop, At, Children, PayloadSegment;
    NextKeepsLeft(w, a);
    LeftThere(w);
    var r := a.run;
    if RunSegment(r) {
      match a.step {
        case MakeRun => CreateKeepsInv(w, r, [r], Directory);
        case MakePayload(name) => if PayloadSegment(name) { CreateKeepsInv(w, r, [r, name], Directory); }
        case WriteFile(payload, name) =>
          if PayloadSegment(payload) { CreateKeepsInv(w, r, [r, payload, name], File(1)); }
        case DropFile(payload, name) => if PayloadSegment(payload) { DropKeepsInv(w, r, [r, payload, name]); }
        case Begin(p) =>
          if r !in w.stages && Mine(r, p) && p in w.tree && Deletable(p, w.tree[p]) { BeginKeepsInv(w, r, p); }
        case _ => if r in w.stages { DeletingKeepsInv(w, r, a.step); }
      }
    }
  }

  lemma {:induction false} RunKeepsInv(actions: seq<Action>)
    ensures Inv(Exec(INITIAL, actions)) && LeftInv(Exec(INITIAL, actions))
  {
    if actions == [] {
      assert Placed(INITIAL.tree, []) && Placed(INITIAL.tree, [LEASE]);
    } else {
      RunKeepsInv(actions[..|actions| - 1]);
      NextKeepsInv(Exec(INITIAL, actions[..|actions| - 1]), actions[|actions| - 1]);
    }
  }
}
