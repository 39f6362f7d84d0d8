/** The orderly end of a run: its output is purged, then what it created is deleted from the
    last to the first. */
module CurrentRunRemoval {
  import opened CurrentRunTree
  import opened CurrentRunRecovery

  const OUTPUT_MAX_ENTRIES := 256

  function WithoutPaths(t: Tree, gone: set<Path>): Tree {
    t - gone
  }

  /** The plain files that lie directly in a directory. */
  function FilesIn(t: Tree, dir: Path): set<Path> {
    set p | p in t && p != [] && Parent(p) == dir && t[p] == File(1)
  }

  predicate OnlyFiles(t: Tree, dir: Path) {
    forall p :: p in t && p != [] && Parent(p) == dir ==> t[p] == File(1)
  }

  /** Nothing in the tree uses the name of a claim to come. */
  ghost predicate Unused(t: Tree, uuid: string) {
    forall p :: p in t ==> uuid !in p
  }

  /** `claimAndDelete` on a tree from which some paths are already gone. */
  method DeleteFrom(root: RunRoot, ghost t: Tree, ghost gone: set<Path>, p: Path, isDirectory: bool, uuid: string)
    returns (ok: bool, ghost now: set<Path>)
    requires IsTree(root.tree) && root.tree == WithoutPaths(t, gone) && p in t && p != [] && Unused(t, uuid)
    modifies root
    ensures IsTree(root.tree) && root.tree == WithoutPaths(t, now)
    ensures now == if ok && p !in gone then gone + {p} else gone
    ensures ok <==>
      p in gone ||
      (if isDirectory then t[p] == Directory && Children(WithoutPaths(t, gone), p) == {} else SafeFile(t[p]))
  {
    FreshBeside(t, root.tree, p, uuid);
    ok := root.ClaimAndDelete(p, isDirectory, Parent(p) + [uuid]);
    now := if ok && p !in gone then gone + {p} else gone;
    assert t - (gone + {p}) == t - gone - {p};
  }

  ghost function FilesNamed(t: Tree, dir: Path, names: set<string>): set<Path> {
    set p | p in FilesIn(t, dir) && Last(p) in names
  }

  predicate AllSafe(t: Tree, dir: Path, names: set<string>) {
    forall n :: n in names ==> dir + [n] in t && SafeFile(t[dir + [n]])
  }

  method PurgeOne(root: RunRoot, ghost t: Tree, output: Path, name: string, uuid: string, ghost done: set<string>)
    returns (safe: bool)
    requires IsTree(root.tree) && Unused(t, uuid) && output + [name] in t && name !in done
    requires root.tree == WithoutPaths(t, FilesNamed(t, output, done))
    modifies root
    ensures IsTree(root.tree) && root.tree == WithoutPaths(t, FilesNamed(t, output, done + {name}))
    ensures safe <==> SafeFile(t[output + [name]])
  {
    var p := output + [name];
    ghost var now := FilesNamed(t, output, done);
    OneMoreName(t, output, name, done);
    assert p !in now by { assert Last(p) == name; }
    safe := SafeFile(root.tree[p]);
    if safe {
      var deleted;
      deleted, now := DeleteFrom(root, t, now, p, false, uuid);
    }
  }

  lemma OneMoreName(t: Tree, output: Path, name: string, done: set<string>)
    requires output + [name] in t
    ensures FilesNamed(t, output, done + {name})
      == FilesNamed(t, output, done) + if SafeFile(t[output + [name]]) then {output + [name]} else {}
  {
    var p := output + [name];
    assert Parent(p) == output && Last(p) == name;
    forall q | q in FilesIn(t, output) && Last(q) == name ensures q == p { assert q == Parent(q) + [Last(q)]; }
  }

  lemma AllNames(t: Tree, output: Path)
    ensures FilesNamed(t, output, Children(t, output)) == FilesIn(t, output)
    ensures AllSafe(t, output, Children(t, output)) <==> OnlyFiles(t, output)
  {
    forall n | n in Children(t, output)
      ensures output + [n] in t && Parent(output + [n]) == output { ChildIsEntry(t, output, n); }
    forall p | p in t && p != [] && Parent(p) == output
      ensures p == output + [Last(p)] && Last(p) in Children(t, output) {}
  }

  /** `purgeOutput`: at most 256 entries, of which the plain files go and the others are kept. */
  method Purge(root: RunRoot, ghost t: Tree, output: Path, uuid: string) returns (ok: bool, ghost now: set<Path>)
    requires root.tree == t && IsTree(t) && Unused(t, uuid)
    modifies root
    ensures IsTree(root.tree) && root.tree == WithoutPaths(t, now) && now <= FilesIn(t, output)
    ensures ok <==> IsDirectory(t, output) && |Children(t, output)| <= OUTPUT_MAX_ENTRIES && OnlyFiles(t, output)
    ensures ok ==> now == FilesIn(t, output)
  {
    hide Children, OnlyFiles, FilesIn, IsTree;
    now := {};
    assert WithoutPaths(t, {}) == t;
    ok := IsDirectory(root.tree, output) && |Children(root.tree, output)| <= OUTPUT_MAX_ENTRIES;
    if !ok { return; }
    var names := Children(root.tree, output);
    ghost var done: set<string> := {};
    assert FilesNamed(t, output, {}) == {};
    while names != {}
      invariant names !! done && names + done == Children(t, output)
      invariant IsTree(root.tree) && root.tree == WithoutPaths(t, FilesNamed(t, output, done))
      invariant ok <==> AllSafe(t, output, done)
      decreases names
    {
      var name :| name in names;
      ChildIsEntry(t, output, name);
      var safe := PurgeOne(root, t, output, name, uuid, done);
      ok := ok && safe;
      names := names - {name};
      done := done + {name};
    }
    assert done == Children(t, output);
    AllNames(t, output);
    now := FilesIn(t, output);
  }

  // ---------- the whole run ----------

  /** The staged attachments that are there as plain files. */
  ghost function StagedFiles(t: Tree, run: string, staged: seq<string>): set<Path> {
    set p | p in t && |p| == 3 && p[0] == run && p[1] == "attachments" && p[2] in staged && t[p] == File(1)
  }

  function WithoutRun(t: Tree, run: string): Tree {
    map p | p in t && !([run] <= p) :: t[p]
  }

  /** The run holds its two directories, the staged files and at most 256 plain output files. */
  ghost predicate Tidy(t: Tree, run: string, staged: seq<string>) {
    var out, att := [run, "outbound"], [run, "attachments"];
    && IsDirectory(t, [run]) && IsDirectory(t, out) && |Children(t, out)| <= 256 && OnlyFiles(t, out)
    && (att in t ==> t[att] == Directory)
    && Below(t, [run]) <= FilesIn(t, out) + StagedFiles(t, run, staged) + {out, att}
  }

  /** `claimAndDelete` of something the run created; what is gone already counts as deleted. */
  method DeleteOwned(root: RunRoot, ghost t: Tree, ghost gone: set<Path>, p: Path, isDirectory: bool, uuid: string)
    returns (ok: bool, ghost now: set<Path>)
    requires IsTree(root.tree) && root.tree == WithoutPaths(t, gone) && p != [] && Unused(t, uuid)
    modifies root
    ensures IsTree(root.tree) && root.tree == WithoutPaths(t, now)
    ensures gone <= now <= gone + {p} && (ok && p in t ==> p in now) && (p in now && p !in gone ==> ok && p in t)
    ensures ok <==>
      p !in t || p in gone ||
      (if isDirectory then t[p] == Directory && Children(WithoutPaths(t, gone), p) == {} else SafeFile(t[p]))
  {
    ok, now := true, gone;
    if p in root.tree {
      ok, now := DeleteFrom(root, t, gone, p, isDirectory, uuid);
    }
  }

  method DeleteStaged(root: RunRoot, ghost t: Tree, ghost gone: set<Path>, run: string, staged: seq<string>,
      uuid: string)
    returns (ok: bool, ghost now: set<Path>)
    requires IsTree(root.tree) && root.tree == WithoutPaths(t, gone) && Unused(t, uuid)
    requires forall p :: p in gone ==> |p| != 3 || p[1] != ATTACHMENTS
    modifies root
    ensures IsTree(root.tree) && root.tree == WithoutPaths(t, now)
    ensures gone <= now <= gone + StagedFiles(t, run, staged) && (ok ==> now == gone + StagedFiles(t, run, staged))
    ensures ok <==>
      forall i :: 0 <= i < |staged| ==>
        [run, ATTACHMENTS, staged[i]] !in t || SafeFile(t[[run, ATTACHMENTS, staged[i]]])
  {
    hide IsTree, Unused, Children, WithoutPaths;
    ok, now := true, gone;
    var i := |staged|;
    while i > 0
      invariant 0 <= i <= |staged|
      invariant IsTree(root.tree) && root.tree == WithoutPaths(t, now)
      invariant gone <= now <= gone + StagedFiles(t, run, staged)
      invariant ok <==>
        forall k :: i <= k < |staged| ==>
          [run, ATTACHMENTS, staged[k]] !in t || SafeFile(t[[run, ATTACHMENTS, staged[k]]])
      invariant ok ==> forall k :: i <= k < |staged| && [run, ATTACHMENTS, staged[k]] in t ==>
        [run, ATTACHMENTS, staged[k]] in now
    {
      i := i - 1;
      var p := [run, ATTACHMENTS, staged[i]];
      assert p !in gone;
      var deleted;
      ghost var before := now;
      deleted, now := DeleteOwned(root, t, now, p, false, uuid);
      ok := ok && deleted;
    }
    if ok {
      forall p | p in StagedFiles(t, run, staged) ensures p in now { StagedAt(p, run, staged); }
    }
  }

  lemma StagedAt(p: Path, run: string, staged: seq<string>)
    requires |p| == 3 && p[0] == run && p[1] == ATTACHMENTS && p[2] in staged
    ensures exists k :: 0 <= k < |staged| && p == [run, ATTACHMENTS, staged[k]]
  {
    var k :| 0 <= k < |staged| && staged[k] == p[2];
    assert p == [run, ATTACHMENTS, staged[k]];
  }

  /** Everything the cleanup may delete lies in the run. */
  ghost predicate WithinRun(paths: set<Path>, run: string) {
    forall p :: p in paths ==> [run] <= p
  }

  lemma PartsWithinRun(t: Tree, run: string, staged: seq<string>)
    ensures WithinRun(FilesIn(t, [run, OUTBOUND]) + StagedFiles(t, run, staged) +
      {[run, OUTBOUND], [run, ATTACHMENTS]} + {[run]}, run)
    ensures forall p :: p in FilesIn(t, [run, OUTBOUND]) ==> |p| == 3 && p[1] != ATTACHMENTS
    ensures forall p :: p in StagedFiles(t, run, staged) ==> |p| == 3
  {
    forall p | p in FilesIn(t, [run, OUTBOUND]) ensures |p| == 3 && p[1] != ATTACHMENTS && [run] <= p {
      assert p[0] == Parent(p)[0] && p[1] == Parent(p)[1];
      assert OUTBOUND[0] != ATTACHMENTS[0];
    }
  }

  lemma FrameOfRun(t: Tree, gone: set<Path>, run: string)
    requires WithinRun(gone, run)
    ensures WithoutRun(WithoutPaths(t, gone), run) == WithoutRun(t, run)
  {
  }

  /** When the directory of the run could be deleted, the run was tidy and is gone. */
  lemma DeletedWasTidy(t: Tree, run: string, staged: seq<string>, gone: set<Path>)
    requires var out, att := [run, OUTBOUND], [run, ATTACHMENTS];
      && IsTree(t) && IsTree(WithoutPaths(t, gone)) && IsDirectory(t, out)
      && Children(WithoutPaths(t, gone), [run]) == {}
      && gone <= FilesIn(t, out) + StagedFiles(t, run, staged) + {out, att}
      && |Children(t, out)| <= OUTPUT_MAX_ENTRIES && OnlyFiles(t, out) && (att in t ==> t[att] == Directory)
    ensures Tidy(t, run, staged) && WithoutPaths(t, gone + {[run]}) == WithoutRun(t, run)
  {
    hide Children, OnlyFiles, FilesIn, StagedFiles;
    assert Parent([run, OUTBOUND]) == [run];
    NothingBelow(WithoutPaths(t, gone), [run]);
    forall p | p in Below(t, [run]) ensures p in gone {
      assert p !in gone ==> p in Below(WithoutPaths(t, gone), [run]);
    }
    PartsWithinRun(t, run, staged);
    forall p | p in t ensures p in gone + {[run]} <==> [run] <= p {
      assert [run] <= p && |p| == 1 ==> p == [run];
      assert [run] <= p && |p| > 1 ==> p in Below(t, [run]);
    }
  }

  /** In a tidy run nothing is in the way of any deletion. */
  lemma TidyAllows(t: Tree, run: string, staged: seq<string>, g1: set<Path>, g2: set<Path>, g3: set<Path>)
    requires var out, att := [run, OUTBOUND], [run, ATTACHMENTS];
      && IsTree(t) && Tidy(t, run, staged) && g1 == FilesIn(t, out) + StagedFiles(t, run, staged)
      && g1 <= g2 && g2 <= g3 && out in g3 && (att in t ==> att in g3)
    ensures var out, att := [run, OUTBOUND], [run, ATTACHMENTS];
      && Children(WithoutPaths(t, g1), out) == {} && Children(WithoutPaths(t, g2), att) == {}
      && Children(WithoutPaths(t, g3), [run]) == {}
  {
    var out, att := [run, OUTBOUND], [run, ATTACHMENTS];
    forall q | q in t && q != [] && Parent(q) == out ensures q in g1 {
      assert SafeFile(t[q]);
    }
    forall q | q in t && q != [] && Parent(q) == att ensures q in g1 {
      assert q[0] == att[0] && q[1] == att[1];
      assert q in Below(t, [run]);
      assert OUTBOUND[0] != ATTACHMENTS[0];
      assert q !in FilesIn(t, out);
    }
    forall q | q in t && q != [] && Parent(q) == [run] ensures q in g3 {
      assert q[0] == [run][0];
      assert q in Below(t, [run]);
      PartsWithinRun(t, run, staged);
    }
  }

  lemma TidyStaged(t: Tree, run: string, staged: seq<string>, i: nat)
    requires Tidy(t, run, staged) && i < |staged| && [run, ATTACHMENTS, staged[i]] in t
    ensures SafeFile(t[[run, ATTACHMENTS, staged[i]]])
  {
    var p := [run, ATTACHMENTS, staged[i]];
    assert p in Below(t, [run]);
    PartsWithinRun(t, run, staged);
  }

  /** `cleanup`: a run that holds only what belongs there is removed as a whole; success means
      that nothing of it is left; and whatever happens, nothing outside it is touched. */
  method CleanUp(root: RunRoot, ghost t: Tree, run: string, staged: seq<string>, uuid: string) returns (ok: bool)
    requires root.tree == t && IsTree(t) && Unused(t, uuid)
    modifies root
    ensures ok <==> Tidy(t, run, staged)
    ensures ok ==> root.tree == WithoutRun(t, run)
    ensures WithoutRun(root.tree, run) == WithoutRun(t, run)
  {
    hide Unused, Children, OnlyFiles, FilesIn, StagedFiles, Below, WithoutRun, WithoutPaths, IsTree, Tidy, WithinRun;
    var out, att := [run, OUTBOUND], [run, ATTACHMENTS];
    ghost var g0: set<Path>, g1: set<Path>, g2: set<Path>, g3: set<Path>, g4: set<Path>;
    var purged, stagedGone, outGone, attGone, runGone;
    PartsWithinRun(t, run, staged);
    purged, g0 := Purge(root, t, out, uuid);
    stagedGone, g1 := DeleteStaged(root, t, g0, run, staged, uuid);
    outGone, g2 := DeleteOwned(root, t, g1, out, true, uuid);
    attGone, g3 := DeleteOwned(root, t, g2, att, true, uuid);
    runGone, g4 := DeleteOwned(root, t, g3, [run], true, uuid);
    ok := purged && stagedGone && outGone && attGone && runGone;
    Finished(t, run, staged, g0, g1, g2, g3, g4, purged, stagedGone, outGone, attGone, runGone);
  }

  ghost predicate Deleted(t: Tree, gone: set<Path>, now: set<Path>, p: Path, ok: bool) {
    && gone <= now <= gone + {p} && (ok && p in t ==> p in now) && (p in now && p !in gone ==> ok && p in t)
    && (ok <==> p !in t || p in gone || (t[p] == Directory && Children(WithoutPaths(t, gone), p) == {}))
  }

  lemma Finished(t: Tree, run: string, staged: seq<string>, g0: set<Path>, g1: set<Path>, g2: set<Path>, g3: set<Path>,
      g4: set<Path>,
    purged: bool, stagedGone: bool, outGone: bool, attGone: bool, runGone: bool)
    requires IsTree(t) && IsTree(WithoutPaths(t, g3)) && g0 <= FilesIn(t, [run, OUTBOUND])
    requires purged ==> g0 == FilesIn(t, [run, OUTBOUND])
    requires purged <==>
      && IsDirectory(t, [run, OUTBOUND]) && |Children(t, [run, OUTBOUND])| <= OUTPUT_MAX_ENTRIES
      && OnlyFiles(t, [run, OUTBOUND])
    requires g0 <= g1 <= g0 + StagedFiles(t, run, staged) && (stagedGone ==> g1 == g0 + StagedFiles(t, run, staged))
    requires stagedGone <==>
      forall i :: 0 <= i < |staged| ==>
        [run, ATTACHMENTS, staged[i]] !in t || SafeFile(t[[run, ATTACHMENTS, staged[i]]])
    requires Deleted(t, g1, g2, [run, OUTBOUND], outGone) && Deleted(t, g2, g3, [run, ATTACHMENTS], attGone)
    requires Deleted(t, g3, g4, [run], runGone)
    ensures var ok := purged && stagedGone && outGone && attGone && runGone;
      && (ok <==> Tidy(t, run, staged)) && (ok ==> WithoutPaths(t, g4) == WithoutRun(t, run))
      && WithoutRun(WithoutPaths(t, g4), run) == WithoutRun(t, run)
  {
    hide Children, OnlyFiles, FilesIn, StagedFiles, Below, WithoutRun, WithoutPaths, IsTree;
    PartsWithinRun(t, run, staged);
    FrameOfRun(t, g4, run);
    OutIsInRun(t, run);
    if Tidy(t, run, staged) {
      forall i | 0 <= i < |staged| && [run, ATTACHMENTS, staged[i]] in t
        ensures SafeFile(t[[run, ATTACHMENTS, staged[i]]]) {
        TidyStaged(t, run, staged, i);
      }
      TidyAllows(t, run, staged, g1, g1, g1 + {[run, OUTBOUND], [run, ATTACHMENTS]});
      TidyAllows(t, run, staged, g1, g2, g2 + {[run, ATTACHMENTS]});
      TidyAllows(t, run, staged, g1, g2, g3);
    }
    if purged && stagedGone && outGone && attGone && runGone {
      DeletedWasTidy(t, run, staged, g3);
      assert g4 == g3 + {[run]};
    }
  }

  lemma OutIsInRun(t: Tree, run: string)
    requires IsTree(t)
    ensures IsDirectory(t, [run, OUTBOUND]) ==> IsDirectory(t, [run])
  {
    assert Parent([run, OUTBOUND]) == [run];
  }
}
