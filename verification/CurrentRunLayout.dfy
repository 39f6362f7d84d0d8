/** The layout of a current-run root, path by path and with the names written out: what recovery
    accepts is exactly this, and anything else makes it refuse the whole root. */
module CurrentRunLayout {
  import opened Basics
  import opened CurrentRunTree

  // ---------- names ----------

  predicate Hex(s: string, n: nat) {
    |s| == n && forall i :: 0 <= i < n ==> s[i] in "0123456789abcdef"
  }

  /** The five groups of a version 4 UUID. */
  predicate Uuid(a: string, b: string, c: string, d: string, e: string) {
    && Hex(a, 8) && Hex(b, 4) && Hex(c, 4) && Hex(d, 4) && Hex(e, 12)
    && c[0] == '4' && d[0] in "89ab"
  }

  function CleanupName(a: string, b: string, c: string, d: string, e: string): string {
    ".cleanup-" + a + "-" + b + "-" + c + "-" + d + "-" + e
  }

  lemma HexDigits(c: char)
    ensures LowerHex(c) <==> c in "0123456789abcdef"
  {
    var digits := "0123456789abcdef";
    assert LowerHex(c) ==> c == digits[if c <= '9' then c as int - '0' as int else c as int - 'a' as int + 10];
  }

  lemma CleanupNameAt(a: string, b: string, c: string, d: string, e: string, i: nat)
    requires Hex(a, 8) && Hex(b, 4) && Hex(c, 4) && Hex(d, 4) && Hex(e, 12) && i < 45
    ensures var s := CleanupName(a, b, c, d, e);
      && |s| == 45
      && s[i] ==
           if i < 9 then ".cleanup-"[i] else if i < 17 then a[i - 9] else if i == 17 then '-'
           else if i < 22 then b[i - 18] else if i == 22 then '-' else if i < 27 then c[i - 23]
           else if i == 27 then '-' else if i < 32 then d[i - 28] else if i == 32 then '-' else e[i - 33]
  {
  }

  lemma HexPart(s: string, from: nat, n: nat)
    requires from + n <= |s| && forall i :: from <= i < from + n ==> LowerHex(s[i])
    ensures Hex(s[from..from + n], n)
  {
    forall i | from <= i < from + n ensures s[i] in "0123456789abcdef" { HexDigits(s[i]); }
  }

  lemma UuidParts(s: string)
    requires CleanupSegment(s)
    ensures Uuid(s[9..17], s[18..22], s[23..27], s[28..32], s[33..45])
  {
    HexPart(s, 9, 8);
    HexPart(s, 18, 4);
    HexPart(s, 23, 4);
    HexPart(s, 28, 4);
    HexPart(s, 33, 12);
  }

  lemma CleanupAt(s: string, i: nat)
    requires CleanupSegment(s) && i < 45 && Uuid(s[9..17], s[18..22], s[23..27], s[28..32], s[33..45])
    ensures var t := CleanupName(s[9..17], s[18..22], s[23..27], s[28..32], s[33..45]); |t| == 45 && t[i] == s[i]
  {
    hide CleanupName;
    CleanupNameAt(s[9..17], s[18..22], s[23..27], s[28..32], s[33..45], i);
    assert i < 9 ==> s[i] == s[..9][i];
  }

  lemma UuidOf(s: string)
    requires CleanupSegment(s)
    ensures Uuid(s[9..17], s[18..22], s[23..27], s[28..32], s[33..45])
    ensures s == CleanupName(s[9..17], s[18..22], s[23..27], s[28..32], s[33..45])
  {
    hide CleanupName, Uuid;
    UuidParts(s);
    var t := CleanupName(s[9..17], s[18..22], s[23..27], s[28..32], s[33..45]);
    CleanupAt(s, 0);
    forall i | 0 <= i < 45 ensures t[i] == s[i] { CleanupAt(s, i); }
  }

  lemma UuidIsCleanup(a: string, b: string, c: string, d: string, e: string)
    requires Uuid(a, b, c, d, e)
    ensures CleanupSegment(CleanupName(a, b, c, d, e))
  {
    var s := CleanupName(a, b, c, d, e);
    forall i | 0 <= i < 45
      ensures |s| == 45 && (i < 9 ==> s[i] == ".cleanup-"[i])
      ensures i >= 9 ==> if i == 17 || i == 22 || i == 27 || i == 32 then s[i] == '-' else LowerHex(s[i])
      ensures i == 23 ==> s[i] == c[0]
      ensures i == 28 ==> s[i] == d[0]
    {
      CleanupNameAt(a, b, c, d, e, i);
      HexDigits(s[i]);
    }
    assert s[..9] == ".cleanup-";
  }

  /** A cleanup name is `.cleanup-` and a version 4 UUID. */
  lemma CleanupNames(s: string)
    ensures CleanupSegment(s) <==> exists a, b, c, d, e :: Uuid(a, b, c, d, e) && s == CleanupName(a, b, c, d, e)
  {
    hide Uuid, CleanupName;
    if CleanupSegment(s) {
      UuidOf(s);
      var a, b, c, d, e := s[9..17], s[18..22], s[23..27], s[28..32], s[33..45];
      assert Uuid(a, b, c, d, e) && s == CleanupName(a, b, c, d, e);
    } else if exists a, b, c, d, e :: Uuid(a, b, c, d, e) && s == CleanupName(a, b, c, d, e) {
      var a, b, c, d, e :| Uuid(a, b, c, d, e) && s == CleanupName(a, b, c, d, e);
      UuidIsCleanup(a, b, c, d, e);
    }
  }

  const UPPER := "ABCDEFGHIJKLMNOPQRSTUVWXYZ"
  const LOWER := "abcdefghijklmnopqrstuvwxyz"
  const DIGITS := "0123456789"

  lemma UpperCase(c: char)
    ensures 'A' <= c <= 'Z' <==> c in UPPER
  {
    assert 'A' <= c <= 'Z' ==> c == UPPER[c as int - 'A' as int];
  }

  lemma LowerCase(c: char)
    ensures 'a' <= c <= 'z' <==> c in LOWER
  {
    assert 'a' <= c <= 'z' ==> c == LOWER[c as int - 'a' as int];
  }

  lemma Digit(c: char)
    ensures '0' <= c <= '9' <==> c in DIGITS
  {
    assert '0' <= c <= '9' ==> c == DIGITS[c as int - '0' as int];
  }

  predicate LetterOrDigit(c: char) {
    c in UPPER || c in LOWER || c in DIGITS
  }

  /** A run name has 1 to 128 letters, digits, full stops, underscores and hyphens, the first of them
      a letter or digit. */
  lemma RunNames(s: string)
    ensures RunSegment(s) <==>
      && 1 <= |s| <= 128 && LetterOrDigit(s[0])
      && forall i :: 0 <= i < |s| ==> LetterOrDigit(s[i]) || s[i] == '.' || s[i] == '_' || s[i] == '-'
  {
    hide LetterOrDigit, Alphanumeric;
    forall i | 0 <= i < |s| ensures Alphanumeric(s[i]) <==> LetterOrDigit(s[i]) { LettersAndDigits(s[i]); }
  }

  lemma LettersAndDigits(c: char)
    ensures Alphanumeric(c) <==> LetterOrDigit(c)
  {
    hide UPPER, LOWER, DIGITS;
    UpperCase(c);
    LowerCase(c);
    Digit(c);
  }

  // ---------- places ----------

  /** A run, under its own name or as the entry of a claim. */
  predicate RunPlace(p: Path) {
    || (|p| == 1 && RunSegment(p[0]))
    || (|p| == 2 && CleanupSegment(p[0]) && p[1] == "entry")
  }

  /** A payload directory of a run, under its own name or as the entry of a claim. */
  predicate PayloadPlace(p: Path) {
    || (|p| >= 2 && RunPlace(p[..|p| - 1]) && (p[|p| - 1] == "attachments" || p[|p| - 1] == "outbound"))
    || (|p| >= 3 && RunPlace(p[..|p| - 2]) && CleanupSegment(p[|p| - 2]) && p[|p| - 1] == "entry")
  }

  /** A file of a payload directory, under any name or as the entry of a claim. */
  predicate FilePlace(p: Path) {
    || (|p| >= 3 && PayloadPlace(p[..|p| - 1]))
    || (|p| >= 4 && PayloadPlace(p[..|p| - 2]) && CleanupSegment(p[|p| - 2]) && p[|p| - 1] == "entry")
  }

  /** A claim, in the root, in a run or in a payload directory. */
  predicate ClaimPlace(p: Path) {
    p != [] && CleanupSegment(p[|p| - 1]) && (|p| == 1 || RunPlace(p[..|p| - 1]) || PayloadPlace(p[..|p| - 1]))
  }

  /** The entry is the root, the lease, a run, a payload directory, a claim or a file, where it
      belongs and of the right kind. */
  predicate Laid(p: Path, kind: Kind) {
    match kind
    case Directory => p == [] || RunPlace(p) || PayloadPlace(p) || ClaimPlace(p)
    case File(_) => p == [".mono-agent-current-run.lease.sqlite"] || FilePlace(p)
    case Other => false
  }

  ghost predicate WellLaid(t: Tree) {
    forall p :: p in t ==> Laid(p, t[p])
  }

  // ---------- the scan's places are these ----------

  /** What a place on the scan's way down is, by path. */
  predicate IsAt(p: Path, kind: Kind, spot: Spot) {
    match spot
    case Root => p == []
    case Run => kind == Directory && RunPlace(p)
    case Payload => kind == Directory && PayloadPlace(p)
    case Claim(HeldRun) => kind == Directory && |p| == 1 && CleanupSegment(p[0])
    case Claim(HeldPayload) =>
      kind == Directory && p != [] && CleanupSegment(p[|p| - 1]) && RunPlace(p[..|p| - 1])
    case Claim(HeldFile) =>
      kind == Directory && p != [] && CleanupSegment(p[|p| - 1]) && PayloadPlace(p[..|p| - 1])
    case Leaf => kind.File? && (p == [LEASE] || FilePlace(p))
  }

  lemma EntryIsNoOther(s: string)
    ensures s == "entry" || s == "attachments" || s == "outbound" ==> !CleanupSegment(s)
    ensures CleanupSegment(s) ==> !RunSegment(s) && s != LEASE
    ensures RunSegment(s) ==> s != LEASE
  {
    NamesAreDisjoint(s);
  }

  /** Going down one level by name and kind arrives where the path says. */
  lemma DescendIsAt(p: Path, name: string, above: Kind, kind: Kind, parent: Spot, spot: Spot)
    requires IsAt(p, above, parent) && Descend(parent, name, kind) == Some(spot)
    ensures IsAt(p + [name], kind, spot)
  {
    hide CleanupSegment, RunSegment;
    var q := p + [name];
    assert q[..|q| - 1] == p && q[|q| - 1] == name;
    if |p| > 0 { assert q[..|q| - 2] == p[..|p| - 1] && q[|q| - 2] == p[|p| - 1]; }
  }

  lemma {:induction false} SpotIsAt(t: Tree, p: Path)
    requires IsTree(t) && p in t && SpotOf(t, p).Some?
    ensures IsAt(p, t[p], SpotOf(t, p).value)
    decreases |p|
  {
    hide IsAt, Descend;
    if p == [] {
      assert IsAt([], t[[]], Root) by { AtRoot(t[[]]); }
    } else {
      SpotIsAt(t, Parent(p));
      DescendIsAt(Parent(p), Last(p), t[Parent(p)], t[p], SpotOf(t, Parent(p)).value, SpotOf(t, p).value);
      assert p == Parent(p) + [Last(p)];
    }
  }

  lemma AtRoot(kind: Kind)
    ensures IsAt([], kind, Root)
  {
  }

  /** What the scan has given a place is laid out. */
  lemma AtIsLaid(p: Path, kind: Kind, spot: Spot)
    requires IsAt(p, kind, spot) && (p == [] ==> kind == Directory)
    ensures Laid(p, kind)
  {
    hide CleanupSegment, RunSegment, RunPlace, PayloadPlace, FilePlace;
  }

  lemma RunHasSpot(t: Tree, p: Path)
    requires IsTree(t) && p in t && t[p] == Directory && RunPlace(p)
    ensures SpotOf(t, p) == Some(Run)
  {
    hide CleanupSegment, RunSegment;
    EntryIsNoOther(p[0]);
    AtTheTop(t, []);
    if |p| == 1 {
      assert Parent(p) == [];
    } else {
      assert Parent(p) == [p[0]] && Parent(Parent(p)) == [];
      assert IsDirectory(t, Parent(p));
      ClaimHasSpot(t, Parent(p), Root);
    }
  }

  lemma ClaimHasSpot(t: Tree, p: Path, parent: Spot)
    requires IsTree(t) && p in t && t[p] == Directory && p != [] && CleanupSegment(Last(p))
    requires SpotOf(t, Parent(p)) == Some(parent) && (parent.Root? || parent.Run? || parent.Payload?)
    ensures SpotOf(t, p) ==
      Some(Claim(if parent.Root? then HeldRun else if parent.Run? then HeldPayload else HeldFile))
  {
    EntryIsNoOther(Last(p));
  }

  lemma PayloadHasSpot(t: Tree, p: Path)
    requires IsTree(t) && p in t && t[p] == Directory && PayloadPlace(p)
    ensures SpotOf(t, p) == Some(Payload)
  {
    hide CleanupSegment, RunSegment, RunPlace;
    EntryIsNoOther(Last(p));
    assert IsDirectory(t, Parent(p));
    if RunPlace(Parent(p)) && Last(p) != "entry" {
      RunHasSpot(t, Parent(p));
    } else {
      var claim := Parent(p);
      assert Parent(claim) == p[..|p| - 2] && IsDirectory(t, Parent(claim));
      RunHasSpot(t, Parent(claim));
      ClaimHasSpot(t, claim, Run);
    }
  }

  lemma FileHasSpot(t: Tree, p: Path)
    requires IsTree(t) && p in t && t[p].File? && FilePlace(p)
    ensures SpotOf(t, p) == Some(Leaf)
  {
    hide CleanupSegment, RunSegment, RunPlace, PayloadPlace;
    assert IsDirectory(t, Parent(p));
    if PayloadPlace(Parent(p)) {
      PayloadHasSpot(t, Parent(p));
    } else {
      var claim := Parent(p);
      assert Parent(claim) == p[..|p| - 2] && IsDirectory(t, Parent(claim));
      PayloadHasSpot(t, Parent(claim));
      ClaimHasSpot(t, claim, Payload);
    }
  }

  lemma LaidHasSpot(t: Tree, p: Path)
    requires IsTree(t) && p in t && Laid(p, t[p])
    ensures SpotOf(t, p).Some?
  {
    hide CleanupSegment, RunSegment, RunPlace, PayloadPlace, FilePlace, SpotOf;
    if p == [] || (p == [LEASE] && t[p].File?) {
      AtTheTop(t, p);
    } else if t[p].File? {
      FileHasSpot(t, p);
    } else if RunPlace(p) {
      RunHasSpot(t, p);
    } else if PayloadPlace(p) {
      PayloadHasSpot(t, p);
    } else {
      assert IsDirectory(t, Parent(p));
      if |p| == 1 {
        AtTheTop(t, []);
        ClaimHasSpot(t, p, Root);
      } else if RunPlace(Parent(p)) {
        RunHasSpot(t, Parent(p));
        ClaimHasSpot(t, p, Run);
      } else {
        PayloadHasSpot(t, Parent(p));
        ClaimHasSpot(t, p, Payload);
      }
    }
  }

  lemma AtTheTop(t: Tree, p: Path)
    requires p in t && (p == [] || (p == [LEASE] && t[p].File?))
    ensures SpotOf(t, p) == Some(if p == [] then Root else Leaf)
  {
    if p != [] { assert Parent(p) == []; }
  }

  /** The shape the scan looks for is exactly the layout. */
  lemma ShapeIsLayout(t: Tree)
    requires IsTree(t)
    ensures Shape(t) <==> WellLaid(t)
  {
    hide SpotOf, IsTree, Laid;
    assert t[[]] == Directory by { RootIsDirectory(t); }
    forall p | p in t ensures Placed(t, p) <==> Laid(p, t[p]) {
      if Placed(t, p) {
        SpotIsAt(t, p);
        AtIsLaid(p, t[p], SpotOf(t, p).value);
      } else if Laid(p, t[p]) {
        LaidHasSpot(t, p);
      }
    }
  }

  lemma RootIsDirectory(t: Tree)
    requires IsTree(t)
    ensures [] in t && t[[]] == Directory
  {
  }

  /** What recovery accepts, with every name and number written out: every entry where it belongs, every
      file with one link, at most 4 096 entries in the root and 65 536 altogether. */
  lemma AcceptsExactly(t: Tree)
    requires IsTree(t)
    ensures Acceptable(t) <==>
      && WellLaid(t) && (forall p :: p in t && t[p].File? ==> t[p] == File(1))
      && |Children(t, [])| <= 4096 && |Below(t, [])| <= 65536
  {
    hide Shape, WellLaid, IsTree, Children, Below;
    ShapeIsLayout(t);
    if forall p :: p in t && t[p].File? ==> t[p] == File(1) {
      forall p | p in t ensures SingleLink(t, p) {}
    }
    if SingleLinks(t) {
      forall p | p in t && t[p].File? ensures t[p] == File(1) { assert SingleLink(t, p); }
    }
  }

  /** One entry that is not laid out, at whatever level, and the whole root is refused. */
  lemma UnknownIsRefused(t: Tree, p: Path)
    requires IsTree(t) && p in t && !Laid(p, t[p])
    ensures !Acceptable(t)
  {
    hide IsTree, Laid, Children, Below;
    AcceptsExactly(t);
  }

  /** Only the lease has its place outside all runs and claims. */
  lemma AcceptedLease(t: Tree)
    requires IsTree(t) && Acceptable(t) && [LEASE] in t
    ensures t[[LEASE]] == File(1)
  {
    hide IsTree, Children, Below, PayloadPlace, FilePlace;
    AcceptsExactly(t);
    EntryIsNoOther(LEASE);
    assert Laid([LEASE], t[[LEASE]]);
    assert !PayloadPlace([LEASE]) by { ShortPath([LEASE]); }
  }

  lemma ShortPath(p: Path)
    requires |p| == 1
    ensures !PayloadPlace(p) && !FilePlace(p)
  {
  }
}
