/** Runs of operations on one mounted volume, whose cached FAT carries over from each to the next. */
module Runs {
  import opened Bytes
  import opened Chains
  import opened Geometry
  import opened Directory
  import opened NameEntries
  import opened Volume
  import opened Trees
  import opened DiskView
  import opened Mounts
  import opened Creations
  import opened Removals
  import opened Fat12Driver
  import opened Paths
  import opened Sessions
  import opened Shell

  // Each operation acts in the directory that `dirs` leads to from the root.
  datatype Operation =
    | Create(dirs: seq<Name>, name: Name, data: seq<byte>, time: nat, date: nat)
    | Write(dirs: seq<Name>, name: Name, data: seq<byte>)
    | Delete(dirs: seq<Name>, name: Name)
    | MakeDir(dirs: seq<Name>, name: Name, time: nat, date: nat)
    | RemoveDir(dirs: seq<Name>, name: Name)

  // What the driver asks of an operation's arguments.
  predicate Callable(op: Operation) {
    match op
    case Create(_, name, _, time, date) => NameAllowed(name) && time < 0x1_0000 && date < 0x1_0000
    case MakeDir(_, name, time, date) => NameAllowed(name) && time < 0x1_0000 && date < 0x1_0000
    case RemoveDir(_, name) => !IsDotName(name)
    case _ => true
  }

  // The file `i` of directory `d`, which answers to `name`, now holds `data`; nothing else is different.
  ghost predicate FileRewritten(t0: Tree, t1: Tree, d: nat, i: nat, name: Name, data: seq<byte>) {
    FoundAt(t0, d, name, i) && !t0.dirs[d][i].entry.isDir && t1 == WithData(t0, d, i, data)
  }

  ghost predicate EffectIn(t0: Tree, t1: Tree, op: Operation, d: nat) {
    match op
    case Create(_, name, data, time, date) => exists i: nat, e :: FileMade(t0, t1, d, i, e, name, data, time, date)
    case Write(_, name, data) => exists i: nat :: FileRewritten(t0, t1, d, i, name, data)
    case Delete(_, name) => exists i: nat :: EntryGone(t0, t1, d, i, name, false)
    case MakeDir(_, name, time, date) => exists i: nat, e, dots :: DirMade(t0, t1, d, i, e, dots, name, time, date)
    case RemoveDir(_, name) => exists i: nat :: EntryGone(t0, t1, d, i, name, true)
  }

  // An operation that succeeds does to its directory what its name says; one that fails leaves the tree alone.
  ghost predicate Effect(t0: Tree, t1: Tree, op: Operation, done: bool) {
    if done then exists d: nat :: Walk(t0, 0, op.dirs) == Ok(d) && EffectIn(t0, t1, op, d) else t1 == t0
  }

  // One operation in a directory that is known to be live.
  method ApplyIn(fs: Fat12, dir: DirLocation, op: Operation) returns (r: Result<()>)
    requires fs.Valid() && IsDirAt(fs.nodes, dir) && Callable(op)
    modifies fs`nodes, fs`trace, fs.disk, fs.fatBytes
    ensures fs.Valid()
    ensures if r.Ok? then EffectIn(old(fs.T()), fs.T(), op, dir.Id()) else fs.T() == old(fs.T())
  {
    hide View, Inv, OnDisk, TreeOf, AnswersTo, EntryMade, WithFile, WithDir, WithData, Without, Used, FreeCount,
      Freed, DotEntries, Needed, NameAllowed, Fat12.EntryError, Fat12.ClustersLeft, Fat12.MustGrow, Fat12.Unseen,
      Fat12.Taken, OneMore, Grew;
    fs.CoherentGeo();
    NewIdsFresh(fs);
    ghost var t0, i: nat, made, dots := fs.T(), 0, Made(0, Listed(DirEntry([], false, 0, 0, 0, 0), DOT_NAME, 0, 0), []), [];
    match op {
      case Create(_, name, data, time, date) =>
        r, made := fs.CreateFile(dir, name, data, time, date);
        assert r.Ok? ==> FileMade(t0, fs.T(), dir.Id(), made.at, made.entry, name, data, time, date);
      case Write(_, name, data) =>
        r, i := fs.WriteFile(dir, name, data);
        assert r.Ok? ==> FileRewritten(t0, fs.T(), dir.Id(), i, name, data);
      case Delete(_, name) =>
        r, i := fs.DeleteFile(dir, name);
        assert r.Ok? ==> EntryGone(t0, fs.T(), dir.Id(), i, name, false);
      case MakeDir(_, name, time, date) =>
        r, made, dots := fs.CreateDirectory(dir, name, time, date);
        assert r.Ok? ==> DirMade(t0, fs.T(), dir.Id(), made.at, made.entry, dots, name, time, date);
      case RemoveDir(_, name) =>
        r, i := fs.DeleteDirectory(dir, name);
        assert r.Ok? ==> EntryGone(t0, fs.T(), dir.Id(), i, name, true);
    }
  }

  method Apply(fs: Fat12, op: Operation) returns (r: Result<()>)
    requires fs.Valid() && Callable(op)
    modifies fs`nodes, fs`trace, fs.disk, fs.fatBytes
    ensures fs.Valid() && Effect(old(fs.T()), fs.T(), op, r.Ok?)
  {
    hide View, Inv, OnDisk, TreeOf, Walk, EffectIn, Callable;
    fs.CoherentGeo();
    var cluster := ResolveDirPath(fs, op.dirs);
    if cluster.Err? {
      return Err(cluster.error);
    }
    r := ApplyIn(fs, LocationOf(cluster.value), op);
  }

  /** Over any run of creating, rewriting, deleting, making and removing, wherever in the tree, the volume stays
      sound and its cached FAT agrees with the disk; each step's outcome is exactly its effect on the tree. */
  method ApplyAll(fs: Fat12, ops: seq<Operation>) returns (results: seq<Result<()>>, ghost trees: seq<Tree>)
    requires fs.Valid() && forall op :: op in ops ==> Callable(op)
    modifies fs`nodes, fs`trace, fs.disk, fs.fatBytes
    ensures fs.Valid() && |results| == |ops| && |trees| == |ops| + 1
    ensures trees[0] == old(fs.T()) && trees[|ops|] == fs.T()
    ensures forall k :: 0 <= k < |ops| ==> Effect(trees[k], trees[k + 1], ops[k], results[k].Ok?)
  {
    hide View, Inv, TreeOf, Effect, Callable, FatImage, ChainsOn, GeoOf, Geo.Ok, Geo.FitsOn;
    results, trees := [], [fs.T()];
    for n := 0 to |ops|
      invariant fs.Valid() && |results| == n && |trees| == n + 1 && trees[0] == old(fs.T()) && trees[n] == fs.T()
      invariant forall k :: 0 <= k < n ==> Effect(trees[k], trees[k + 1], ops[k], results[k].Ok?)
    {
      var r := Apply(fs, ops[n]);
      results, trees := results + [r], trees + [fs.T()];
    }
  }
}
