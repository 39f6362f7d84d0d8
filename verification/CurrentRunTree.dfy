/** The directory tree below a current-run root: what recovery expects to find in it,
    and the directory changes that run creation, cleanup and recovery make. */
module CurrentRunTree {
  import opened Basics

  /** Path segments below the root; the root itself is the empty path. */
  type Path = seq<string>

  datatype Kind = File(links: nat) | Directory | Other

  type Tree = map<Path, Kind>

  const LEASE := ".mono-agent-current-run.lease.sqlite"
  const ATTACHMENTS := "attachments"
  const OUTBOUND := "outbound"
  const ENTRY := "entry"

  const ROOT_MAX_ENTRIES := 4_096
  const RECOVERY_MAX_ENTRIES := 65_536
  const RECOVERY_MAX_DEPTH := 8

  // ---------- names ----------

  predicate LowerHex(c: char) {
    '0' <= c <= '9' || 'a' <= c <= 'f'
  }

  predicate Alphanumeric(c: char) {
    'A' <= c <= 'Z' || 'a' <= c <= 'z' || '0' <= c <= '9'
  }

  /** `.cleanup-` and a version 4 UUID in lower-case hexadecimal. */
  predicate CleanupSegment(s: string) {
    && |s| == 45
    && s[..9] == ".cleanup-"
    && (forall i :: 9 <= i < 45 ==> if i == 17 || i == 22 || i == 27 || i == 32 then s[i] == '-' else LowerHex(s[i]))
    && s[23] == '4'
    && (s[28] == '8' || s[28] == '9' || s[28] == 'a' || s[28] == 'b')
  }

  predicate RunSegment(s: string) {
    && 1 <= |s| <= 128
    && Alphanumeric(s[0])
    && (forall i :: 1 <= i < |s| ==> Alphanumeric(s[i]) || s[i] == '.' || s[i] == '_' || s[i] == '-')
  }

  predicate PayloadSegment(s: string) {
    s == ATTACHMENTS || s == OUTBOUND
  }

  lemma NamesAreDisjoint(s: string)
    ensures CleanupSegment(s) ==> !RunSegment(s) && !PayloadSegment(s) && s != LEASE && s != ENTRY
    ensures RunSegment(s) ==> s != LEASE
  {
    if CleanupSegment(s) {
      assert s[0] == s[..9][0] == '.';
      assert s[1] == s[..9][1] == 'c';
    }
  }

  // ---------- trees ----------

  function Parent(p: Path): Path
    requires p != []
  {
    p[..|p| - 1]
  }

  function Last(p: Path): string
    requires p != []
  {
    p[|p| - 1]
  }

  predicate IsDirectory(t: Tree, p: Path) {
    p in t && t[p] == Directory
  }

  /** The root is a directory and everything else lies in a directory. */
  ghost predicate IsTree(t: Tree) {
    && IsDirectory(t, [])
    && (forall p {:trigger Parent(p)} :: p in t && p != [] ==> IsDirectory(t, Parent(p)))
  }

  function Below(t: Tree, p: Path): set<Path> {
    set q | q in t && p < q
  }

  function Children(t: Tree, p: Path): set<string> {
    set q | q in t && q != [] && Parent(q) == p :: Last(q)
  }

  lemma ChildIsEntry(t: Tree, p: Path, n: string)
    ensures n in Children(t, p) <==> p + [n] in t
    ensures Parent(p + [n]) == p && Last(p + [n]) == n && p < p + [n]
  {
    assert Parent(p + [n]) == p;
    if n in Children(t, p) {
      var q :| q in t && q != [] && Parent(q) == p && Last(q) == n;
      assert q == p + [n];
    }
  }

  lemma {:induction false} PrefixInTree(t: Tree, q: Path, k: nat)
    requires IsTree(t) && q in t && k <= |q|
    ensures q[..k] in t
  {
    if k < |q| {
      PrefixInTree(t, Parent(q), k);
      assert Parent(q)[..k] == q[..k];
    } else {
      assert q[..k] == q;
    }
  }

  lemma BelowHasChild(t: Tree, p: Path, q: Path)
    requires IsTree(t) && q in Below(t, p)
    ensures q[|p|] in Children(t, p) && IsDirectory(t, p)
  {
    PrefixInTree(t, q, |p| + 1);
    assert q[..|p| + 1] == p + [q[|p|]];
    ChildIsEntry(t, p, q[|p|]);
  }

  lemma NothingBelow(t: Tree, p: Path)
    requires IsTree(t) && (!IsDirectory(t, p) || Children(t, p) == {})
    ensures Below(t, p) == {}
  {
    if Below(t, p) != {} {
      var q :| q in Below(t, p);
      BelowHasChild(t, p, q);
    }
  }

  // ---------- what recovery expects where ----------

  datatype Held = HeldRun | HeldPayload | HeldFile

  datatype Spot = Root | Run | Payload | Claim(held: Held) | Leaf

  function DirectorySpot(kind: Kind, spot: Spot): Option<Spot> {
    if kind == Directory then Some(spot) else None
  }

  function FileSpot(kind: Kind): Option<Spot> {
    if kind.File? then Some(Leaf) else None
  }

  function EntrySpot(held: Held, kind: Kind): Option<Spot> {
    match held
    case HeldRun => DirectorySpot(kind, Run)
    case HeldPayload => DirectorySpot(kind, Payload)
    case HeldFile => FileSpot(kind)
  }

  /** What an entry is, from the place of its directory, its name and its kind. */
  function Descend(parent: Spot, name: string, kind: Kind): Option<Spot> {
    match parent
    case Root =>
      if name == LEASE then FileSpot(kind)
      else if CleanupSegment(name) then DirectorySpot(kind, Claim(HeldRun))
      else if RunSegment(name) then DirectorySpot(kind, Run)
      else None
    case Run =>
      if CleanupSegment(name) then DirectorySpot(kind, Claim(HeldPayload))
      else if PayloadSegment(name) then DirectorySpot(kind, Payload)
      else None
    case Payload =>
      if kind != Directory then FileSpot(kind)
      else if CleanupSegment(name) then Some(Claim(HeldFile))
      else None
    case Claim(held) =>
      if name != ENTRY then None
      else EntrySpot(held, kind)
    case Leaf => None
  }

  function SpotOf(t: Tree, p: Path): Option<Spot> {
    if p == [] then Some(Root)
    else
      var above := SpotOf(t, Parent(p));
      if above.None? || p !in t then None else Descend(above.value, Last(p), t[p])
  }

  predicate Placed(t: Tree, p: Path) {
    SpotOf(t, p).Some?
  }

  predicate SingleLink(t: Tree, p: Path)
    requires p in t
  {
    t[p].File? ==> t[p].links == 1
  }

  /** Every entry is one that run creation, run cleanup or the lease accounts for. */
  ghost predicate Shape(t: Tree) {
    forall p {:trigger SpotOf(t, p)} {:trigger Placed(t, p)} :: p in t ==> Placed(t, p)
  }

  ghost predicate SingleLinks(t: Tree) {
    forall p :: p in t ==> SingleLink(t, p)
  }

  ghost predicate Acceptable(t: Tree) {
    && Shape(t)
    && SingleLinks(t)
    && |Children(t, [])| <= ROOT_MAX_ENTRIES
    && |Below(t, [])| <= RECOVERY_MAX_ENTRIES
  }

  /** The place of an entry bounds its depth, so the depth limit is never met. */
  predicate DepthFits(p: Path, spot: Spot) {
    match spot
    case Root => |p| == 0
    case Run => 1 <= |p| <= 2
    case Payload => 2 <= |p| <= 4
    case Claim(HeldRun) => |p| == 1
    case Claim(HeldPayload) => 2 <= |p| <= 3
    case Claim(HeldFile) => 3 <= |p| <= 5
    case Leaf => 1 <= |p| <= 6
  }

  lemma {:induction false} DepthBounded(t: Tree, p: Path)
    requires Placed(t, p)
    ensures DepthFits(p, SpotOf(t, p).value)
  {
    if p != [] {
      DepthBounded(t, Parent(p));
    }
  }

  // ---------- directory changes ----------

  function Put(t: Tree, p: Path, kind: Kind): Tree {
    t[p := kind]
  }

  function Remove(t: Tree, p: Path): Tree {
    t - {p}
  }

  function Redirect(q: Path, src: Path, dst: Path): Path {
    if src <= q then dst + q[|src|..] else q
  }

  /** `rename`: everything at or below `src` appears at or below `dst`. */
  function Move(t: Tree, src: Path, dst: Path): Tree {
    map q | q in (set o | o in t :: Redirect(o, src, dst)) && Redirect(q, dst, src) in t :: t[Redirect(q, dst, src)]
  }

  /** `dst` does not exist and neither path lies at or below the other. */
  predicate CanMove(t: Tree, src: Path, dst: Path) {
    src in t && !(src <= dst) && !(dst <= src) && forall q :: q in t ==> !(dst <= q)
  }

  lemma MoveContents(t: Tree, src: Path, dst: Path, q: Path)
    requires CanMove(t, src, dst)
    ensures dst <= q ==> (q in Move(t, src, dst) <==> src + q[|dst|..] in t)
    ensures dst <= q && q in Move(t, src, dst) ==> Move(t, src, dst)[q] == t[src + q[|dst|..]]
    ensures src <= q ==> q !in Move(t, src, dst)
    ensures !(dst <= q) && !(src <= q) ==> (q in Move(t, src, dst) <==> q in t)
    ensures !(dst <= q) && !(src <= q) && q in t ==> Move(t, src, dst)[q] == t[q]
  {
    var o := Redirect(q, dst, src);
    if dst <= q {
      assert src <= o && o[|src|..] == q[|dst|..];
      assert dst + q[|dst|..] == q;
      assert Redirect(o, src, dst) == q;
    } else if src <= q {
      Apart(q, src, dst);
    } else {
      assert Redirect(q, src, dst) == q;
    }
  }

  lemma PrefixesCompare(p: Path, q: Path, whole: Path)
    ensures p <= whole && q <= whole ==> p <= q || q <= p
  {
    if p <= whole && q <= whole {
      if |p| <= |q| {
        assert p == whole[..|p|] == q[..|p|];
      } else {
        assert q == whole[..|q|] == p[..|q|];
      }
    }
  }

  lemma Apart(q: Path, src: Path, dst: Path)
    requires !(src <= dst) && !(dst <= src) && src <= q
    ensures !(dst <= q)
    ensures forall o: Path :: Redirect(o, src, dst) != q
  {
    PrefixesCompare(src, dst, q);
    forall o: Path ensures Redirect(o, src, dst) != q {
      if src <= o { assert dst <= Redirect(o, src, dst); }
    }
  }

  /** What `claimAndDelete` does when nothing goes wrong: make a claim beside the entry,
      rename the entry into it, delete it there, delete the claim. */
  function DeleteThrough(t: Tree, p: Path, claim: Path): Tree {
    Remove(Remove(Move(Put(t, claim, Directory), p, claim + [ENTRY]), claim + [ENTRY]), claim)
  }

  /** A name for a claim beside `p` that nothing in the tree uses. */
  ghost predicate FreshClaim(t: Tree, p: Path, claim: Path) {
    p != [] && claim != [] && Parent(claim) == Parent(p) && p != claim && forall q :: q in t ==> !(claim <= q)
  }

  lemma ExtendedPrefix(p: Path, claim: Path, name: string, q: Path)
    ensures |p| == |claim| && p <= claim + [name] ==> p == claim
    ensures claim + [name] <= q ==> claim <= q
  {
    assert (claim + [name])[..|claim|] == claim;
    if claim + [name] <= q {
      assert q[..|claim|] == (claim + [name])[..|claim|];
    }
  }

  lemma ClaimApart(t: Tree, p: Path, claim: Path)
    requires p in t && FreshClaim(t, p, claim)
    ensures CanMove(Put(t, claim, Directory), p, claim + [ENTRY])
  {
    assert !(claim <= p);
    forall q | q in Put(t, claim, Directory)
      ensures claim + [ENTRY] <= q ==> claim <= q { ExtendedPrefix(p, claim, ENTRY, q); }
    ExtendedPrefix(p, claim, ENTRY, p);
  }

  /** The detour through the claim removes exactly the entry. */
  lemma DeleteThroughRemoves(t: Tree, p: Path, claim: Path)
    requires p in t && FreshClaim(t, p, claim) && Below(t, p) == {}
    ensures DeleteThrough(t, p, claim) == Remove(t, p)
  {
    var u, e := Put(t, claim, Directory), claim + [ENTRY];
    ClaimApart(t, p, claim);
    forall q ensures q in DeleteThrough(t, p, claim) <==> q in Remove(t, p) {
      MoveContents(u, p, e, q);
      ExtendedPrefix(p, claim, ENTRY, q);
      if e <= q { DeeperThanEntry(t, p, claim, q); }
      if p <= q && p != q { assert q in t ==> q in Below(t, p); }
    }
    forall q | q in Remove(t, p) ensures DeleteThrough(t, p, claim)[q] == t[q] {
      MoveContents(u, p, e, q);
      ExtendedPrefix(p, claim, ENTRY, q);
      assert p <= q ==> q in Below(t, p);
    }
  }

  lemma DeeperThanEntry(t: Tree, p: Path, claim: Path, q: Path)
    requires p in t && FreshClaim(t, p, claim) && Below(t, p) == {} && claim + [ENTRY] <= q
    ensures p + q[|claim| + 1..] in Put(t, claim, Directory) ==> q == claim + [ENTRY]
  {
    var rest := q[|claim| + 1..];
    assert q == claim + [ENTRY] + rest;
    assert |p + rest| == |claim| + |rest|;
    assert p + rest in t && rest != [] ==> p + rest in Below(t, p);
  }

  lemma RemoveKeepsTree(t: Tree, p: Path)
    requires IsTree(t) && p != [] && Below(t, p) == {}
    ensures IsTree(Remove(t, p))
  {
    forall q | q in Remove(t, p) && q != [] ensures IsDirectory(Remove(t, p), Parent(q)) {
      assert Parent(q) < q;
    }
  }
}
