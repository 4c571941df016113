/** Paths: how they are split, and where they lead in a tree whose directories point to themselves
    and to their parents. */
module Paths {
  import opened Bytes
  import opened ShortNames
  import opened Directory
  import opened DirectoryUpdates
  import opened Volume
  import opened Trees
  import opened Removals

  const SLASH: byte := 47

  // ---- splitting

  // `path.split('/')`: one segment more than there are slashes.
  function Split(path: Name): (segments: seq<Name>)
    ensures segments != []
  {
    var i := IndexOf(path, SLASH);
    if i == |path| then [path] else [path[..i]] + Split(path[i + 1..])
  }

  function Join(segments: seq<Name>): Name
    requires segments != []
  {
    if |segments| == 1 then segments[0] else segments[0] + [SLASH] + Join(segments[1..])
  }

  lemma {:induction false} JoinSplit(path: Name)
    ensures Join(Split(path)) == path
    ensures forall s :: s in Split(path) ==> SLASH !in s
  {
    var i := IndexOf(path, SLASH);
    if i < |path| {
      JoinSplit(path[i + 1..]);
      assert Split(path)[1..] == Split(path[i + 1..]);
      assert path == path[..i] + [SLASH] + path[i + 1..];
    }
  }

  /** Segments without slashes are told apart again, so a path is nothing but its segments. */
  lemma {:induction false} SplitJoin(segments: seq<Name>)
    requires segments != [] && forall s :: s in segments ==> SLASH !in s
    ensures Split(Join(segments)) == segments
  {
    hide IndexOf;
    var path, first := Join(segments), segments[0];
    assert first in segments;
    forall j | 0 <= j < |first| ensures path[j] != SLASH {
      assert path[j] == first[j] && first[j] in first;
    }
    if |segments| == 1 {
      IndexOfIs(path, SLASH, |first|);
    } else {
      SplitJoin(segments[1..]);
      assert path == first + [SLASH] + Join(segments[1..]);
      IndexOfIs(path, SLASH, |first|);
      assert path[..|first|] == first && path[|first| + 1..] == Join(segments[1..]);
      assert segments == [first] + segments[1..];
    }
  }

  function SplitSegments(path: Name): Result<seq<Name>> {
    if [] in Split(path) then Err(BadPath) else Ok(Split(path))
  }

  predicate IsDotName(name: Name) {
    name == [DOT] || name == [DOT, DOT]
  }

  // The directories to walk through and the name to act on.
  function SplitPath(path: Name): (r: Result<(seq<Name>, Name)>)
    ensures r.Ok? ==> !IsDotName(r.value.1) && r.value.1 != []
  {
    match SplitSegments(path)
    case Err(error) => Err(error)
    case Ok(segments) =>
      var last := |segments| - 1;
      if IsDotName(segments[last]) then Err(DotTarget) else Ok((segments[..last], segments[last]))
  }

  // ---- walking

  function FirstNamed(l: seq<Listed>, name: Name): (i: nat)
    ensures i <= |l|
    ensures i < |l| ==> EqIgnoreCase(l[i].entry.name, name)
    ensures forall j :: 0 <= j < i ==> !EqIgnoreCase(l[j].entry.name, name)
  {
    if l == [] || EqIgnoreCase(l[0].entry.name, name) then 0 else
      var rest := FirstNamed(l[1..], name);
      assert forall j :: 0 < j < 1 + rest ==> l[j] == l[1..][j - 1];
      1 + rest
  }

  // One step: the directory that the first entry named `name` points to.
  function Enter(l: seq<Listed>, name: Name): Result<nat> {
    var i := FirstNamed(l, name);
    if i == |l| then Err(NoSuchDirectory)
    else if !l[i].entry.isDir then Err(NotADirectoryInPath)
    else Ok(l[i].entry.start)
  }

  ghost function Walk(t: Tree, at: nat, segments: seq<Name>): Result<nat>
    decreases |segments|
  {
    if segments == [] then Ok(at)
    else if at !in t.dirs then Err(NoSuchDirectory)
    else match Enter(t.dirs[at], segments[0])
      case Ok(next) => Walk(t, next, segments[1..])
      case Err(error) => Err(error)
  }

  lemma {:induction false} WalkOn(t: Tree, at: nat, p: seq<Name>, q: seq<Name>)
    ensures Walk(t, at, p + q) == match Walk(t, at, p) case Ok(x) => Walk(t, x, q) case Err(error) => Err(error)
    decreases |p|
  {
    if p == [] {
      assert p + q == q;
    } else if at in t.dirs && Enter(t.dirs[at], p[0]).Ok? {
      assert (p + q)[0] == p[0] && (p + q)[1..] == p[1..] + q;
      WalkOn(t, Enter(t.dirs[at], p[0]).value, p[1..], q);
    } else {
      assert (p + q)[0] == p[0];
    }
  }

  // The slot behind the entry a step follows.
  lemma EnteredSlot(slots: seq<Slot>, name: Name) returns (k: nat)
    requires Enter(Listing(slots), name).Ok?
    ensures k < |slots| && IsShort(slots[k]) && IsDir(slots[k])
    ensures StartOf(slots[k]) == Enter(Listing(slots), name).value && EqIgnoreCase(NameAt(slots, k), name)
  {
    hide IsShort, IsDir, StartOf, EqIgnoreCase, NameAt;
    k := SlotOfIndex(slots, 0, |slots|, FirstNamed(Listing(slots), name));
    ListedStart(slots, k);
  }

  lemma DirInTree(v: Vol, nodes: Nodes, d: nat)
    requires d in v.dirs
    ensures d in TreeOf(v, nodes).dirs && TreeOf(v, nodes).dirs[d] == Listing(v.dirs[d])
  {
    TreeDirs(v, nodes);
  }

  lemma DirNode(v: Vol, nodes: Nodes, clusterBytes: nat, d: nat)
    requires clusterBytes > 0 && Inv(v, nodes, clusterBytes) && d in v.dirs
    ensures d in nodes && nodes[d].isDir && DirHolds(v, nodes, d)
    ensures d != 0 ==> nodes[d].parent in v.dirs
  {
    hide Allocated, EntriesStand, FilesSized, DirOk, EntrySlot, StartOf;
    assert d != 0 ==> Placed(v, nodes, d);
  }

  /** A step ends at the root or at a live directory; by a real name, at a child of where it started. */
  lemma EnterStays(v: Vol, nodes: Nodes, clusterBytes: nat, d: nat, name: Name)
    requires clusterBytes > 0 && Inv(v, nodes, clusterBytes) && d in v.dirs && Enter(Listing(v.dirs[d]), name).Ok?
    ensures var x := Enter(Listing(v.dirs[d]), name).value;
            && x in v.dirs && (!IsDotName(name) ==> x != 0 && x in nodes && nodes[x].parent == d)
  {
    hide Inv, Listing, NameAt, IsShort, IsDir, StartOf, DirOk, AnswersTo, Enter, EqIgnoreCase;
    var k := EnteredSlot(v.dirs[d], name);
    DirNode(v, nodes, clusterBytes, d);
    if IsDot(d != 0, k) {
      NamedAnswers(v.dirs[d], k, name);
      DotsAnswer(v, nodes, clusterBytes, d, k, name);
    } else {
      EntryNode(v, nodes, clusterBytes, d, k);
      NodeIsDir(v, nodes, clusterBytes, StartOf(v.dirs[d][k]));
    }
  }

  lemma NamedAnswers(slots: seq<Slot>, k: nat, name: Name)
    requires k < |slots| && EqIgnoreCase(NameAt(slots, k), name)
    ensures AnswersTo(ListedAt(slots, k), name)
  {
  }

  lemma NodeIsDir(v: Vol, nodes: Nodes, clusterBytes: nat, d: nat)
    requires clusterBytes > 0 && Inv(v, nodes, clusterBytes) && d in nodes && nodes[d].isDir
    ensures d in v.dirs
  {
  }

  lemma DotsFirst(slots: seq<Slot>)
    requires DotSlots(slots)
    ensures |Listing(slots)| >= 2 && Listing(slots)[0] == ListedAt(slots, 0) && Listing(slots)[1] == ListedAt(slots, 1)
    ensures NameAt(slots, 0) == [DOT] && NameAt(slots, 1) == [DOT, DOT]
  {
    hide ListedAt, IsShort, ListRange, NameAt, DOT_NAME, DOTDOT_NAME;
    ListSplit(slots, 0, 2, |slots|);
    ListSplit(slots, 0, 1, 2);
    ListOne(slots, 0, 1);
    ListOne(slots, 1, 2);
    DotNames(slots, 0);
    DotNames(slots, 1);
    DotNameFormats();
  }

  lemma DotsDiffer()
    ensures EqIgnoreCase([DOT], [DOT]) && EqIgnoreCase([DOT, DOT], [DOT, DOT]) && !EqIgnoreCase([DOT], [DOT, DOT])
  {
    DotNamesDiffer();
  }

  /** "." leads to the directory itself and ".." to its parent, which is 0 exactly below the root. */
  lemma EnterDots(v: Vol, nodes: Nodes, clusterBytes: nat, d: nat)
    requires clusterBytes > 0 && Inv(v, nodes, clusterBytes) && d in v.dirs && d != 0
    ensures d in nodes && nodes[d].parent in v.dirs
    ensures Enter(Listing(v.dirs[d]), [DOT]) == Ok(d) && Enter(Listing(v.dirs[d]), [DOT, DOT]) == Ok(nodes[d].parent)
  {
    hide Inv, Listing, NameAt, IsShort, IsDir, StartOf, Readable, Complete, Checked, EqIgnoreCase;
    DirNode(v, nodes, clusterBytes, d);
    DotsFirst(v.dirs[d]);
    DotsDiffer();
    ListedStart(v.dirs[d], 0);
    ListedStart(v.dirs[d], 1);
    FirstIs(Listing(v.dirs[d]), [DOT], 0);
    FirstIs(Listing(v.dirs[d]), [DOT, DOT], 1);
  }

  lemma FirstIs(l: seq<Listed>, name: Name, i: nat)
    requires i < |l| && EqIgnoreCase(l[i].entry.name, name)
    requires forall j :: 0 <= j < i ==> !EqIgnoreCase(l[j].entry.name, name)
    ensures FirstNamed(l, name) == i
  {
  }

  /** Wherever a walk ends, it ends at the root or at a live directory. */
  lemma {:induction false} WalkStays(v: Vol, nodes: Nodes, clusterBytes: nat, at: nat, segments: seq<Name>)
    requires clusterBytes > 0 && Inv(v, nodes, clusterBytes) && at in v.dirs && Walk(TreeOf(v, nodes), at, segments).Ok?
    ensures Walk(TreeOf(v, nodes), at, segments).value in v.dirs
    decreases |segments|
  {
    if segments != [] {
      hide Inv, Listing, Enter;
      DirInTree(v, nodes, at);
      EnterStays(v, nodes, clusterBytes, at, segments[0]);
      WalkStays(v, nodes, clusterBytes, Enter(TreeOf(v, nodes).dirs[at], segments[0]).value, segments[1..]);
    }
  }

  lemma RootIsDir(v: Vol, nodes: Nodes, clusterBytes: nat)
    requires clusterBytes > 0 && Inv(v, nodes, clusterBytes)
    ensures 0 in v.dirs
  {
  }

  lemma WalkOne(t: Tree, at: nat, name: Name)
    requires at in t.dirs
    ensures Walk(t, at, [name]) == Enter(t.dirs[at], name)
  {
    assert [name][1..] == [];
  }

  /** Going into a directory and up again leads back, at any depth: `P/D/..` is `P`, and `P/D/.` is `P/D`. */
  lemma DownThenUp(v: Vol, nodes: Nodes, clusterBytes: nat, p: seq<Name>, name: Name)
    requires clusterBytes > 0 && Inv(v, nodes, clusterBytes) && !IsDotName(name)
    requires Walk(TreeOf(v, nodes), 0, p + [name]).Ok?
    ensures Walk(TreeOf(v, nodes), 0, p + [name] + [[DOT, DOT]]) == Walk(TreeOf(v, nodes), 0, p)
    ensures Walk(TreeOf(v, nodes), 0, p + [name] + [[DOT]]) == Walk(TreeOf(v, nodes), 0, p + [name])
  {
    hide Inv, Listing, Enter, Walk, TreeOf;
    var t := TreeOf(v, nodes);
    RootIsDir(v, nodes, clusterBytes);
    WalkOn(t, 0, p, [name]);
    WalkStays(v, nodes, clusterBytes, 0, p);
    var at := Walk(t, 0, p).value;
    DirInTree(v, nodes, at);
    WalkOne(t, at, name);
    EnterStays(v, nodes, clusterBytes, at, name);
    var d := Walk(t, 0, p + [name]).value;
    DirInTree(v, nodes, d);
    EnterDots(v, nodes, clusterBytes, d);
    WalkOn(t, 0, p + [name], [[DOT, DOT]]);
    WalkOn(t, 0, p + [name], [[DOT]]);
    WalkOne(t, d, [DOT, DOT]);
    WalkOne(t, d, [DOT]);
  }
}
