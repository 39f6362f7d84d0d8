/** Crash-closed cleanup: what every interruption of creation and cleanup leaves for recovery. */
module CurrentRunClosure {
  import opened CurrentRunTree
  import opened CurrentRunShape
  import opened CurrentRunCleanup
  import opened CurrentRunInvariant
  import opened CurrentRunClaims
  import opened CurrentRunLaws

  ghost predicate PuttingBack(w: World) {
    exists r :: r in w.stages && w.stages[r].Restoring?
  }

  /** A file has two links: it is being put back, or its second link could not be removed. */
  ghost predicate TwiceLinked(w: World) {
    PuttingBack(w) || w.left != {}
  }

  lemma RestoringHasTwoLinks(w: World, r: string)
    requires StagesInv(w) && r in w.stages && w.stages[r].Restoring?
    ensures !SingleLinks(w.tree)
  {
    hide StagesInv, Mine, ClaimFor;
    StageAt(w, r);
    assert !SingleLink(w.tree, w.stages[r].path);
  }

  lemma LinksExactly(w: World)
    requires Inv(w) && LeftInv(w)
    ensures SingleLinks(w.tree) <==> !TwiceLinked(w)
  {
    hide Sound, StagesInv, SingleLinks;
    if PuttingBack(w) {
      var r :| r in w.stages && w.stages[r].Restoring?;
      RestoringHasTwoLinks(w, r);
    } else if w.left != {} {
      var q :| q in w.left;
      LeftHasTwoLinks(w, q);
    } else {
      OnlyTwinsHaveTwoLinks(w);
    }
  }

  lemma LeftHasTwoLinks(w: World, q: Path)
    requires LeftInv(w) && q in w.left
    ensures !SingleLinks(w.tree)
  {
    assert LeftAt(w.tree, q) && !SingleLink(w.tree, q);
  }

  lemma OnlyTwinsHaveTwoLinks(w: World)
    requires Inv(w) && !TwiceLinked(w)
    ensures SingleLinks(w.tree)
  {
    hide Sound, StagesInv;
    forall q | q in w.tree ensures SingleLink(w.tree, q) {
      assert LinkInv(w, q);
      assert forall r :: !Twin(w, r, q);
    }
  }

  /** Wherever creation and cleanup of any number of runs stop, recovery accepts the root
      exactly when it is within the entry limits and no file has two links: neither one that
      is being put back nor one whose second link could not be removed. */
  lemma CrashClosed(actions: seq<Action>)
    ensures var w := Exec(INITIAL, actions);
      && IsTree(w.tree) && [LEASE] in w.tree
      && (Acceptable(w.tree) <==>
          !TwiceLinked(w) && |Children(w.tree, [])| <= 4_096 && |Below(w.tree, [])| <= 65_536)
  {
    hide Exec;
    RunKeepsInv(actions);
    LinksExactly(Exec(INITIAL, actions));
  }

  // ---------- a run that gets there ----------

  const RUN := "r"
  const PAYLOAD: Path := [RUN, OUTBOUND]
  const OUTPUT: Path := [RUN, OUTBOUND, "f"]
  const PREFIX := ".cleanup-"
  const DIGITS := "00000000-0000-4000-8000-000000000000"
  const UUID := PREFIX + DIGITS
  const CLAIM: Path := [RUN, OUTBOUND, UUID]

  /** One output file is written, claimed for deletion and renamed, and its deletion fails. */
  const FAILING_DELETION: seq<Action> := [
    Action(RUN, MakeRun), Action(RUN, MakePayload(OUTBOUND)), Action(RUN, WriteFile(OUTBOUND, "f")),
    Action(RUN, Begin(OUTPUT)), Action(RUN, MakeClaim(UUID)), Action(RUN, Rename), Action(RUN, Fail)]

  lemma Joined(a: string, b: string, i: nat)
    requires i < |b|
    ensures (a + b)[..|a|] == a && |a + b| == |a| + |b| && (a + b)[|a| + i] == b[i]
  {
  }

  lemma DigitsFit(i: nat)
    requires i < |DIGITS|
    ensures |DIGITS| == 36 && DIGITS[14] == '4' && DIGITS[19] == '8'
    ensures if i == 8 || i == 13 || i == 18 || i == 23 then DIGITS[i] == '-' else LowerHex(DIGITS[i])
  {
  }

  lemma UuidFits()
    ensures CleanupSegment(UUID)
  {
    DigitsFit(0);
    assert |PREFIX| == 9;
    Joined(PREFIX, DIGITS, 14);
    Joined(PREFIX, DIGITS, 19);
    forall i | 9 <= i < 45
      ensures if i == 17 || i == 22 || i == 27 || i == 32 then UUID[i] == '-' else LowerHex(UUID[i])
    {
      DigitsFit(i - 9);
      Joined(PREFIX, DIGITS, i - 9);
    }
  }

  lemma NamesFit()
    ensures RunSegment(RUN) && CleanupSegment(UUID) && Mine(RUN, OUTPUT)
    ensures Parent(OUTPUT) == PAYLOAD && Parent(PAYLOAD) == [RUN] && Parent([RUN]) == [] && PAYLOAD + [UUID] == CLAIM
  {
    hide CleanupSegment;
    UuidFits();
  }

  lemma ExecNext(w: World, actions: seq<Action>, k: nat)
    requires k < |actions|
    ensures Exec(w, actions[..k + 1]) == Next(Exec(w, actions[..k]), actions[k])
  {
    assert actions[..k + 1][..k] == actions[..k];
  }

  lemma RunMade()
    ensures Exec(INITIAL, FAILING_DELETION[..1]) == INITIAL.(tree := Put(INITIAL.tree, [RUN], Directory))
  {
    hide RunSegment, CleanupSegment;
    NamesFit();
    ExecNext(INITIAL, FAILING_DELETION, 0);
    assert FAILING_DELETION[..0] == [] && Exec(INITIAL, []) == INITIAL;
  }

  lemma PayloadMade()
    ensures var w := Exec(INITIAL, FAILING_DELETION[..1]);
      Exec(INITIAL, FAILING_DELETION[..2]) == w.(tree := Put(w.tree, PAYLOAD, Directory))
  {
    hide RunSegment, CleanupSegment, Exec;
    NamesFit();
    RunMade();
    ExecNext(INITIAL, FAILING_DELETION, 1);
  }

  lemma OutputWritten()
    ensures var w := Exec(INITIAL, FAILING_DELETION[..3]);
      && w.stages == map[] && w.left == {}
      && w.tree == map[[] := Directory, [LEASE] := File(1), [RUN] := Directory, PAYLOAD := Directory, OUTPUT := File(1)]
  {
    hide RunSegment, CleanupSegment, Exec;
    NamesFit();
    RunMade();
    PayloadMade();
    ExecNext(INITIAL, FAILING_DELETION, 2);
  }

  lemma OutputBegun()
    ensures var w := Exec(INITIAL, FAILING_DELETION[..3]);
      Exec(INITIAL, FAILING_DELETION[..4]) == At(w, RUN, w.tree, Intent(OUTPUT))
  {
    hide RunSegment, CleanupSegment, Exec;
    NamesFit();
    OutputWritten();
    ExecNext(INITIAL, FAILING_DELETION, 3);
    assert Children(Exec(INITIAL, FAILING_DELETION[..3]).tree, OUTPUT) == {};
  }

  lemma OutputClaimed()
    ensures var w := Exec(INITIAL, FAILING_DELETION[..5]);
      && w.stages == map[RUN := Claimed(OUTPUT, CLAIM)] && w.left == {}
      && w.tree == Put(Exec(INITIAL, FAILING_DELETION[..3]).tree, CLAIM, Directory)
      && OUTPUT in w.tree && w.tree[OUTPUT] == File(1) && IsDirectory(w.tree, PAYLOAD)
  {
    hide RunSegment, CleanupSegment, Exec;
    NamesFit();
    OutputWritten();
    OutputBegun();
    ExecNext(INITIAL, FAILING_DELETION, 4);
    assert CLAIM[2] != OUTPUT[2];
  }

  lemma OutputRenamed()
    ensures var w := Exec(INITIAL, FAILING_DELETION[..6]);
      && w.stages == map[RUN := Moved(OUTPUT, CLAIM)] && w.left == {}
      && OUTPUT !in w.tree && IsDirectory(w.tree, PAYLOAD)
      && CLAIM + [ENTRY] in w.tree && w.tree[CLAIM + [ENTRY]] == File(1)
  {
    hide RunSegment, CleanupSegment, Exec, Move, Inv, LeftInv, StageInv, MoveFits;
    var w, entry := Exec(INITIAL, FAILING_DELETION[..5]), CLAIM + [ENTRY];
    NamesFit();
    OutputClaimed();
    ExecNext(INITIAL, FAILING_DELETION, 5);
    RunKeepsInv(FAILING_DELETION[..5]);
    ClaimedMoves(w);
    MoveContents(w.tree, OUTPUT, entry, OUTPUT);
    MoveContents(w.tree, OUTPUT, entry, PAYLOAD);
    MoveContents(w.tree, OUTPUT, entry, entry);
    assert OUTPUT + entry[|entry|..] == OUTPUT;
  }

  lemma ClaimedMoves(w: World)
    requires Inv(w) && RUN in w.stages && w.stages[RUN] == Claimed(OUTPUT, CLAIM) && OUTPUT in w.tree
    ensures CanMove(w.tree, OUTPUT, CLAIM + [ENTRY]) && !(OUTPUT <= PAYLOAD) && !(CLAIM + [ENTRY] <= PAYLOAD)
    ensures !(CLAIM + [ENTRY] <= OUTPUT)
  {
    hide Sound, StagesInv, StageInv;
    StageAt(w, RUN);
    EntryMoves(w.tree, RUN, OUTPUT, CLAIM);
  }

  /** The excluded window exists: a deletion that fails after the rename of an output file
      passes through it, and recovery refuses the tree it would find there. */
  lemma PuttingBackHappens()
    ensures var w := Exec(INITIAL, FAILING_DELETION);
      && PuttingBack(w) && !Acceptable(w.tree)
      && w.stages == map[RUN := Restoring(OUTPUT, CLAIM)] && OUTPUT in w.tree && CLAIM + [ENTRY] in w.tree
  {
    hide RunSegment, CleanupSegment, Exec, Acceptable, Children, Below, Mine;
    NamesFit();
    OutputRenamed();
    ExecNext(INITIAL, FAILING_DELETION, 6);
    assert FAILING_DELETION[..7] == FAILING_DELETION;
    var w := Exec(INITIAL, FAILING_DELETION);
    assert w.stages[RUN] == Restoring(OUTPUT, CLAIM);
    CrashClosed(FAILING_DELETION);
  }

  /** When the second link cannot be removed either, cleanup ends and recovery refuses the
      tree from then on. */
  lemma SecondLinkStays()
    ensures var w := Exec(INITIAL, FAILING_DELETION + [Action(RUN, Fail), Action(RUN, RemoveClaim)]);
      w.stages == map[] && !PuttingBack(w) && !Acceptable(w.tree)
  {
    hide RunSegment, CleanupSegment, Exec, Acceptable, Children, Below, Mine;
    var more := FAILING_DELETION + [Action(RUN, Fail), Action(RUN, RemoveClaim)];
    NamesFit();
    PuttingBackHappens();
    assert more[..7] == FAILING_DELETION && more[..9] == more;
    ExecNext(INITIAL, more, 7);
    ExecNext(INITIAL, more, 8);
    CrashClosed(more);
  }
}
