/** The shell's file commands: each mounts the volume afresh, walks the path and does one operation. */
module Shell {
  import opened Bytes
  import opened Chains
  import opened Geometry
  import opened Directory
  import opened NameEntries
  import opened Volume
  import opened Trees
  import opened DiskView
  import opened Mounts
  import opened SlotSearch
  import opened Creations
  import opened Removals
  import opened Fat12Driver
  import opened Paths
  import opened Sessions

  // What a resolved path stands for; `None` is the root.
  function LocationOf(cluster: Option<nat>): DirLocation {
    match cluster
    case None => Root
    case Some(c) => Cluster(c)
  }

  // The first entry named `name`, or the number of entries.
  method FindNamed(entries: seq<DirEntry>, name: Name, ghost listed: seq<Listed>) returns (i: nat)
    requires entries == Entries(listed)
    ensures i == FirstNamed(listed, name)
  {
    i := 0;
    while i < |entries| && !EqIgnoreCase(entries[i].name, name)
      invariant i <= |entries| && forall j :: 0 <= j < i ==> !EqIgnoreCase(listed[j].entry.name, name)
    {
      i := i + 1;
    }
    if i < |entries| {
      FirstIs(listed, name, i);
    }
  }

  // What listing a directory says, in the tree's terms.
  lemma ListedInTree(fs: Fat12, dir: DirLocation)
    requires fs.Valid() && IsDirAt(fs.nodes, dir)
    ensures dir.Id() in fs.T().dirs && Scan(fs.SlotsOf(dir)) == Entries(fs.T().dirs[dir.Id()])
  {
    hide View, Inv, OnDisk, Listing, Scan;
    fs.CoherentGeo();
    fs.DirIsThere(dir);
    DirInTree(fs.V(), fs.nodes, dir.Id());
    SoundShape(fs.g, fs.D(), fs.nodes, dir.Id());
    ScanIsListing(fs.SlotsOf(dir));
  }

  lemma StepIsDir(fs: Fat12, dir: DirLocation, name: Name)
    requires fs.Valid() && IsDirAt(fs.nodes, dir) && dir.Id() in fs.T().dirs && Enter(fs.T().dirs[dir.Id()], name).Ok?
    ensures var x := Enter(fs.T().dirs[dir.Id()], name).value;
            IsDirAt(fs.nodes, LocationOf(if x == 0 then None else Some(x)))
  {
    hide View, Inv, OnDisk, Listing, Enter;
    fs.CoherentGeo();
    fs.DirIsThere(dir);
    DirInTree(fs.V(), fs.nodes, dir.Id());
    EnterStays(fs.V(), fs.nodes, fs.g.ClusterBytes(), dir.Id(), name);
    DirNode(fs.V(), fs.nodes, fs.g.ClusterBytes(), Enter(fs.T().dirs[dir.Id()], name).value);
  }

  /** Walks a path of directories from the root; ends at the root or at a live directory. */
  method ResolveDirPath(fs: Fat12, segments: seq<Name>) returns (r: Result<Option<nat>>)
    requires fs.Valid()
    ensures r.Ok? ==> IsDirAt(fs.nodes, LocationOf(r.value)) && Walk(fs.T(), 0, segments) == Ok(LocationOf(r.value).Id())
    ensures r.Err? ==> Walk(fs.T(), 0, segments) == Err(r.error)
  {
    hide View, Inv, OnDisk, Listing, Scan, Enter, TreeOf;
    fs.CoherentGeo();
    SoundIsReadable(fs.g, fs.D(), fs.nodes);
    RootIsEmpty(fs.g, fs.D(), fs.nodes);
    var cluster: Option<nat> := None;
    assert segments[0..] == segments;
    for i := 0 to |segments|
      invariant IsDirAt(fs.nodes, LocationOf(cluster))
      invariant Walk(fs.T(), 0, segments) == Walk(fs.T(), LocationOf(cluster).Id(), segments[i..])
    {
      var dir := LocationOf(cluster);
      ListedInTree(fs, dir);
      var entries := fs.ListEntriesIn(dir);
      var name := segments[i];
      assert segments[i..][0] == name && segments[i..][1..] == segments[i + 1..];
      ghost var listed := fs.T().dirs[dir.Id()];
      var k := FindNamed(entries, name, listed);
      StepIs(listed, name);
      if k == |entries| {
        return Err(NoSuchDirectory);
      }
      var e := entries[k];
      if !e.isDir {
        return Err(NotADirectoryInPath);
      }
      StepIsDir(fs, dir, name);
      cluster := if e.start == 0 then None else Some(e.start);
    }
    r := Ok(cluster);
  }

  lemma StepIs(l: seq<Listed>, name: Name)
    ensures var i := FirstNamed(l, name);
            Enter(l, name) == if i == |l| then Err(NoSuchDirectory)
                              else if !l[i].entry.isDir then Err(NotADirectoryInPath)
                              else Ok(l[i].entry.start)
  {
  }

  // Names the file system keeps as they are given; "." and ".." are refused before they get there.
  predicate TargetAllowed(path: Name) {
    SplitPath(path).Ok? ==> NameAllowed(SplitPath(path).value.1)
  }

  // ---- what a command may do to the tree

  // Entry `i` of directory `d` answers to `name` and is a file holding `data`.
  ghost predicate HoldsFile(t: Tree, d: nat, name: Name, i: nat, data: seq<byte>) {
    && FoundAt(t, d, name, i) && !t.dirs[d][i].entry.isDir
    && t.dirs[d][i].entry.start in t.files && t.files[t.dirs[d][i].entry.start] == data
  }

  ghost predicate FileMade(t0: Tree, t1: Tree, d: nat, i: nat, e: Listed, name: Name, data: seq<byte>, time: nat, date: nat) {
    && d in t0.dirs && i <= |t0.dirs[d]| && e.entry.start !in t0.dirs && e.entry.start !in t0.files
    && t1 == WithFile(t0, d, i, e, data) && EntryMade(e, name, false, |data|, time, date)
  }

  ghost predicate DirMade(t0: Tree, t1: Tree, d: nat, i: nat, e: Listed, dots: seq<Listed>, name: Name, time: nat, date: nat) {
    && d in t0.dirs && i <= |t0.dirs[d]| && e.entry.start !in t0.dirs && e.entry.start !in t0.files
    && t1 == WithDir(t0, d, i, e, dots) && DotEntries(dots, e.entry.start, d)
    && EntryMade(e, name, true, 0, time, date)
  }

  ghost predicate EntryGone(t0: Tree, t1: Tree, d: nat, i: nat, name: Name, isDir: bool) {
    && FoundAt(t0, d, name, i) && t0.dirs[d][i].entry.isDir == isDir
    && (isDir ==> t0.dirs[d][i].entry.start in t0.dirs && |t0.dirs[t0.dirs[d][i].entry.start]| == 2)
    && t1 == Without(t0, d, i)
  }

  datatype Command =
    | Cat(path: Name)
    | Touch(path: Name, data: seq<byte>, time: nat, date: nat)
    | Rm(path: Name)
    | Mkdir(path: Name, time: nat, date: nat)
    | Rmdir(path: Name)

  // The directory a path leads to, before its last segment.
  ghost predicate LeadsTo(t: Tree, path: Name, d: nat, name: Name) {
    && SplitPath(path).Ok? && SplitPath(path).value.1 == name
    && Walk(t, 0, SplitPath(path).value.0) == Ok(d)
  }

  // The path itself is at fault.
  ghost predicate Refused(t: Tree, path: Name, error: Error) {
    SplitPath(path) == Err(error) || (SplitPath(path).Ok? && Walk(t, 0, SplitPath(path).value.0) == Err(error))
  }

  // No file of directory `d` answers to `name`.
  ghost predicate NoFile(t: Tree, d: nat, name: Name) {
    Missing(t, d, name) || exists i: nat :: FoundAt(t, d, name, i) && t.dirs[d][i].entry.isDir
  }

  // No directory in `d` that holds only its dots answers to `name`.
  ghost predicate NoEmptyDir(t: Tree, d: nat, name: Name) {
    || Missing(t, d, name)
    || exists i: nat :: FoundAt(t, d, name, i) &&
         var e := t.dirs[d][i].entry; e.isDir ==> e.start in t.dirs && |t.dirs[e.start]| > 2
  }

  // Why directory `d` cannot take an entry `name` whose content takes `clusters` clusters, if it cannot; a
  // directory that must grow for the entry takes one more.
  ghost function AddError(v: Vol, d: nat, name: Name, clusters: nat): Option<Error>
    requires d in v.dirs
  {
    var slots, n, free := v.dirs[d], SlotsNeeded(name), FreeCount(v.links);
    if !NameFresh(slots, name) then Some(NameTaken)
    else if NameError(slots, name).Some? then NameError(slots, name)
    else if RoomError(d == 0, slots, n, free).Some? then RoomError(d == 0, slots, n, free)
    else if free < clusters + (if NoFreeRun(slots, n) then 1 else 0) then Some(NoClusters)
    else None
  }

  ghost predicate CannotAdd(v: Vol, d: nat, name: Name, clusters: nat, error: Error) {
    d in v.dirs && AddError(v, d, name, clusters) == Some(error)
  }

  ghost predicate CannotAddFile(g: Geo, v: Vol, d: nat, name: Name, size: nat, error: Error) {
    g.ClusterBytes() > 0 && CannotAdd(v, d, name, Needed(g.ClusterBytes(), size), error)
  }

  lemma WhyNotAdded(fs: Fat12, dir: DirLocation, name: Name, clusters: nat)
    requires fs.Valid() && IsDirAt(fs.nodes, dir)
    requires fs.EntryError(dir, name).Some? || fs.ClustersLeft(dir, name) < clusters
    ensures CannotAdd(fs.V(), dir.Id(), name, clusters,
                      if fs.EntryError(dir, name).Some? then fs.EntryError(dir, name).value else NoClusters)
  {
    hide View, Inv, OnDisk, NameFresh, NameError, NoFreeRun, SlotsNeeded, FreeCount, LinksOn, FatImage;
    fs.CoherentGeo();
    fs.DirIsThere(dir);
    ViewKeys(fs.g, fs.D(), fs.nodes);
  }

  // A command that changes something and succeeds does to the directory its path leads to what its name says; one
  // that fails, or only reads, leaves the tree alone.
  ghost predicate Does(t0: Tree, t1: Tree, command: Command, done: bool) {
    if done && !command.Cat? then Done(t0, t1, command) else t1 == t0
  }

  ghost predicate Done(t0: Tree, t1: Tree, command: Command) {
    exists d: nat, name :: LeadsTo(t0, command.path, d, name) && DoesAt(t0, t1, command, d, name)
  }

  ghost predicate DoesAt(t0: Tree, t1: Tree, command: Command, d: nat, name: Name) {
    match command
    case Cat(_) => false
    case Touch(_, data, time, date) => exists i: nat, e :: FileMade(t0, t1, d, i, e, name, data, time, date)
    case Rm(_) => exists i: nat :: EntryGone(t0, t1, d, i, name, false)
    case Mkdir(_, time, date) => exists i: nat, e, dots :: DirMade(t0, t1, d, i, e, dots, name, time, date)
    case Rmdir(_) => exists i: nat :: EntryGone(t0, t1, d, i, name, true)
  }

  // What the file system asks of a command's arguments.
  predicate Allowed(command: Command) {
    match command
    case Touch(path, _, time, date) => TargetAllowed(path) && time < 0x1_0000 && date < 0x1_0000
    case Mkdir(path, time, date) => TargetAllowed(path) && time < 0x1_0000 && date < 0x1_0000
    case _ => true
  }

  class Session {
    const disk: array<Sector>
    const start: nat
    ghost var nodes: Nodes

    constructor (disk: array<Sector>, start: nat, ghost nodes: Nodes)
      requires start < disk.Length
      requires GeoOf(disk[start], start).Ok? ==> SoundDisk(GeoOf(disk[start], start).value, disk[..], nodes)
      ensures this.disk == disk && this.start == start && this.nodes == nodes && Valid()
    {
      this.disk := disk;
      this.start := start;
      this.nodes := nodes;
    }

    // If the boot sector is one the driver accepts, the volume behind it is sound.
    ghost predicate Valid()
      reads this, disk
    {
      start < disk.Length && (Mountable() ==> SoundDisk(Shape(), disk[..], nodes))
    }

    ghost predicate Mountable()
      requires start < disk.Length
      reads disk
    {
      GeoOf(disk[start], start).Ok?
    }

    ghost function Shape(): Geo
      requires start < disk.Length && Mountable()
      reads disk
    {
      GeoOf(disk[start], start).value
    }

    ghost function T(): Tree
      requires Valid() && Mountable()
      reads this, disk
    {
      TreeOn(Shape(), disk[..], nodes)
    }

    ghost function V(): Vol
      requires Valid() && Mountable()
      reads this, disk
    {
      View(Shape(), disk[..], nodes)
    }

    // The boot sector is at fault.
    ghost predicate Unmountable(error: Error)
      requires start < disk.Length
      reads disk
    {
      GeoOf(disk[start], start) == Err(error)
    }

    // What a mounted volume says about the disk it was mounted from, now and after each operation.
    ghost predicate Mirrors(fs: Fat12)
      reads this, disk, fs, fs.fatBytes
    {
      && fs.disk == disk && fs.g.start == start && fs.nodes == nodes && fs.Valid()
    }

    lemma MirrorsValid(fs: Fat12)
      requires Mirrors(fs) && start < disk.Length
      ensures Valid() && Mountable() && T() == fs.T() && Shape() == fs.g && V() == fs.V()
    {
      hide View, Inv, TreeOf, Geo.Ok, Geo.FitsOn;
      assert SectorAt(disk[..], start) == disk[start];
    }

    method Mount() returns (r: Result<Fat12>)
      requires Valid()
      ensures r.Ok? <==> Mountable()
      ensures r.Err? ==> Unmountable(r.error)
      ensures r.Ok? ==> fresh(r.value) && fresh(r.value.fatBytes) && Mirrors(r.value)
    {
      hide View, Inv, TreeOf, Geo.Ok, Geo.FitsOn, FatImage;
      if Mountable() {
        FatFits(Shape(), disk.Length);
      }
      r := Fat12.ReadBpb(disk, start, nodes);
    }

    /** Mounts the volume, splits the path and walks to the directory to act in. */
    method Open(path: Name) returns (r: Result<(Fat12, DirLocation, Name)>)
      requires Valid()
      ensures r.Ok? ==> fresh(r.value.0) && fresh(r.value.0.fatBytes) && Mirrors(r.value.0) && Mountable()
      ensures r.Ok? ==> SplitPath(path).Ok? && r.value.2 == SplitPath(path).value.1 && IsDirAt(nodes, r.value.1)
      ensures r.Ok? ==> Walk(T(), 0, SplitPath(path).value.0) == Ok(r.value.1.Id())
      ensures r.Err? ==> Unmountable(r.error) || (Mountable() && Refused(T(), path, r.error))
    {
      hide View, Inv, OnDisk, TreeOf, FatImage, Walk, SplitPath, SoundDisk;
      var mounted := Mount();
      if mounted.Err? {
        return Err(mounted.error);
      }
      var fs := mounted.value;
      MirrorsValid(fs);
      var split := SplitPath(path);
      if split.Err? {
        return Err(split.error);
      }
      var (dirs, name) := split.value;
      var cluster := ResolveDirPath(fs, dirs);
      if cluster.Err? {
        return Err(cluster.error);
      }
      r := Ok((fs, LocationOf(cluster.value), name));
    }

    /** `cat`: the bytes of the file the path leads to. */
    method ReadFatFile(path: Name) returns (r: Result<seq<byte>>)
      requires Valid()
      ensures r.Ok? ==> Mountable() && exists d: nat, name, i: nat :: LeadsTo(T(), path, d, name) && HoldsFile(T(), d, name, i, r.value)
      ensures r.Err? && !Mountable() ==> Unmountable(r.error)
      ensures r.Err? && Mountable() ==>
                Refused(T(), path, r.error) || exists d: nat, name :: LeadsTo(T(), path, d, name) && NoFile(T(), d, name)
    {
      hide View, Inv, OnDisk, TreeOf, FatImage, Walk, SplitPath, SoundDisk, AnswersTo;
      var target := Open(path);
      if target.Err? {
        return Err(target.error);
      }
      var (fs, dir, name) := target.value;
      MirrorsValid(fs);
      ghost var i: nat;
      fs.ReadableWhenValid();
      r, i := fs.ReadFile(dir, name);
      assert LeadsTo(T(), path, dir.Id(), name);
      if r.Ok? {
        assert HoldsFile(T(), dir.Id(), name, i, r.value);
      } else {
        assert NoFile(T(), dir.Id(), name);
      }
    }

    /** `touch` */
    method CreateFatFile(path: Name, data: seq<byte>, time: nat, date: nat) returns (r: Result<()>)
      requires Valid() && Allowed(Touch(path, data, time, date))
      modifies this`nodes, disk
      ensures Valid() && (Mountable() <==> old(Mountable()))
      ensures r.Err? && !Mountable() ==> Unmountable(r.error)
      ensures r.Err? && Mountable() ==> T() == old(T())
      ensures r.Err? && Mountable() ==>
                Refused(T(), path, r.error) ||
                exists d: nat, name :: LeadsTo(T(), path, d, name) && CannotAddFile(old(Shape()), old(V()), d, name, |data|, r.error)
      ensures r.Ok? ==> Mountable() && Done(old(T()), T(), Touch(path, data, time, date))
    {
      hide View, Inv, OnDisk, TreeOf, FatImage, Walk, SplitPath, SoundDisk, AnswersTo, EntryMade, WithFile, Used,
        FreeCount, Needed, Fat12.EntryError, Fat12.ClustersLeft, Fat12.MustGrow, Fat12.Unseen, Fat12.Taken, OneMore,
        Grew;
      var target := Open(path);
      if target.Err? {
        return Err(target.error);
      }
      var (fs, dir, name) := target.value;
      MirrorsValid(fs);
      NewIdsFresh(fs);
      ghost var t0, made := T(), Made(0, Listed(DirEntry([], false, 0, 0, 0, 0), DOT_NAME, 0, 0), []);
      ghost var v0 := V();
      fs.CoherentGeo();
      if fs.EntryError(dir, name).Some? || fs.ClustersLeft(dir, name) < Needed(fs.g.ClusterBytes(), |data|) {
        WhyNotAdded(fs, dir, name, Needed(fs.g.ClusterBytes(), |data|));
      }
      r, made := fs.CreateFile(dir, name, data, time, date);
      nodes := fs.nodes;
      MirrorsValid(fs);
      if r.Ok? {
        assert LeadsTo(t0, path, dir.Id(), name);
        assert FileMade(t0, T(), dir.Id(), made.at, made.entry, name, data, time, date);
      } else {
        assert LeadsTo(t0, path, dir.Id(), name);
        assert CannotAddFile(old(Shape()), v0, dir.Id(), name, |data|, r.error);
      }
    }

    /** `rm` */
    method DeleteFatFile(path: Name) returns (r: Result<()>)
      requires Valid()
      modifies this`nodes, disk
      ensures Valid() && (Mountable() <==> old(Mountable()))
      ensures r.Err? && Mountable() ==> T() == old(T())
      ensures r.Err? && !Mountable() ==> Unmountable(r.error)
      ensures r.Err? && Mountable() ==>
                Refused(T(), path, r.error) || exists d: nat, name :: LeadsTo(T(), path, d, name) && NoFile(T(), d, name)
      ensures r.Ok? ==> Mountable() && Done(old(T()), T(), Rm(path))
    {
      hide View, Inv, OnDisk, TreeOf, FatImage, Walk, SplitPath, SoundDisk, AnswersTo, Without, Used, Freed;
      var target := Open(path);
      if target.Err? {
        return Err(target.error);
      }
      var (fs, dir, name) := target.value;
      MirrorsValid(fs);
      ghost var t0, i: nat := T(), 0;
      r, i := fs.DeleteFile(dir, name);
      nodes := fs.nodes;
      MirrorsValid(fs);
      assert LeadsTo(t0, path, dir.Id(), name);
      if r.Ok? {
        assert EntryGone(t0, T(), dir.Id(), i, name, false);
      } else {
        assert NoFile(T(), dir.Id(), name);
      }
    }

    /** `mkdir` */
    method CreateFatDirectory(path: Name, time: nat, date: nat) returns (r: Result<()>)
      requires Valid() && Allowed(Mkdir(path, time, date))
      modifies this`nodes, disk
      ensures Valid() && (Mountable() <==> old(Mountable()))
      ensures r.Err? && !Mountable() ==> Unmountable(r.error)
      ensures r.Err? && Mountable() ==> T() == old(T())
      ensures r.Err? && Mountable() ==>
                Refused(T(), path, r.error) ||
                exists d: nat, name :: LeadsTo(T(), path, d, name) && CannotAdd(old(V()), d, name, 1, r.error)
      ensures r.Ok? ==> Mountable() && Done(old(T()), T(), Mkdir(path, time, date))
    {
      hide View, Inv, OnDisk, TreeOf, FatImage, Walk, SplitPath, SoundDisk, AnswersTo, EntryMade, WithDir, Used,
        FreeCount, DotEntries, Fat12.EntryError, Fat12.ClustersLeft, Fat12.MustGrow, Fat12.Unseen, Fat12.Taken,
        OneMore, Grew;
      var target := Open(path);
      if target.Err? {
        return Err(target.error);
      }
      var (fs, dir, name) := target.value;
      MirrorsValid(fs);
      NewIdsFresh(fs);
      ghost var t0, made, dots := T(), Made(0, Listed(DirEntry([], false, 0, 0, 0, 0), DOT_NAME, 0, 0), []), [];
      ghost var v0 := V();
      fs.CoherentGeo();
      if fs.EntryError(dir, name).Some? || fs.ClustersLeft(dir, name) < 1 {
        WhyNotAdded(fs, dir, name, 1);
      }
      r, made, dots := fs.CreateDirectory(dir, name, time, date);
      nodes := fs.nodes;
      MirrorsValid(fs);
      if r.Ok? {
        assert LeadsTo(t0, path, dir.Id(), name);
        assert DirMade(t0, T(), dir.Id(), made.at, made.entry, dots, name, time, date);
      } else {
        assert LeadsTo(t0, path, dir.Id(), name);
        assert CannotAdd(v0, dir.Id(), name, 1, r.error);
      }
    }

    /** `rmdir` */
    method DeleteFatDirectory(path: Name) returns (r: Result<()>)
      requires Valid()
      modifies this`nodes, disk
      ensures Valid() && (Mountable() <==> old(Mountable()))
      ensures r.Err? && Mountable() ==> T() == old(T())
      ensures r.Err? && !Mountable() ==> Unmountable(r.error)
      ensures r.Err? && Mountable() ==>
                Refused(T(), path, r.error) || exists d: nat, name :: LeadsTo(T(), path, d, name) && NoEmptyDir(T(), d, name)
      ensures r.Ok? ==> Mountable() && Done(old(T()), T(), Rmdir(path))
    {
      hide View, Inv, OnDisk, TreeOf, FatImage, Walk, SplitPath, SoundDisk, AnswersTo, Without, Used, Freed;
      var target := Open(path);
      if target.Err? {
        return Err(target.error);
      }
      var (fs, dir, name) := target.value;
      MirrorsValid(fs);
      ghost var t0, i: nat := T(), 0;
      r, i := fs.DeleteDirectory(dir, name);
      nodes := fs.nodes;
      MirrorsValid(fs);
      assert LeadsTo(t0, path, dir.Id(), name);
      if r.Ok? {
        assert EntryGone(t0, T(), dir.Id(), i, name, true);
      } else {
        assert NoEmptyDir(T(), dir.Id(), name);
      }
    }

    /** `ls DIR/...`: the listing of the directory the whole path leads to. */
    method ListFatDirectory(path: Name) returns (r: Result<seq<DirEntry>>)
      requires Valid()
      ensures r.Err? && !Mountable() ==> Unmountable(r.error)
      ensures r.Err? && Mountable() ==>
                SplitSegments(path) == Err(r.error) ||
                (SplitSegments(path).Ok? && Walk(T(), 0, SplitSegments(path).value) == Err(r.error))
      ensures r.Ok? ==> Mountable() && SplitSegments(path).Ok? && Walk(T(), 0, SplitSegments(path).value).Ok?
      ensures r.Ok? ==> var d := Walk(T(), 0, SplitSegments(path).value).value; d in T().dirs && r.value == Entries(T().dirs[d])
    {
      hide View, Inv, OnDisk, TreeOf, FatImage, Walk, SplitSegments, SoundDisk, Scan;
      var mounted := Mount();
      if mounted.Err? {
        return Err(mounted.error);
      }
      var fs := mounted.value;
      MirrorsValid(fs);
      fs.CoherentGeo();
      SoundIsReadable(fs.g, fs.D(), fs.nodes);
      var segments := SplitSegments(path);
      if segments.Err? {
        return Err(segments.error);
      }
      var cluster := ResolveDirPath(fs, segments.value);
      if cluster.Err? {
        return Err(cluster.error);
      }
      var dir := LocationOf(cluster.value);
      ListedInTree(fs, dir);
      var entries := fs.ListEntriesIn(dir);
      r := Ok(entries);
    }

    method Perform(command: Command) returns (done: bool)
      requires Valid() && Allowed(command)
      modifies this`nodes, disk
      ensures Valid() && (Mountable() <==> old(Mountable()))
      ensures if Mountable() then Does(old(T()), T(), command, done) else !done
    {
      hide View, Inv, OnDisk, TreeOf, FatImage, SoundDisk, DoesAt, LeadsTo, Refused, CannotAddFile, CannotAdd,
        NoFile, NoEmptyDir;
      match command {
        case Cat(path) => var r := ReadFatFile(path); done := r.Ok?;
        case Touch(path, data, time, date) => var r := CreateFatFile(path, data, time, date); done := r.Ok?;
        case Rm(path) => var r := DeleteFatFile(path); done := r.Ok?;
        case Mkdir(path, time, date) => var r := CreateFatDirectory(path, time, date); done := r.Ok?;
        case Rmdir(path) => var r := DeleteFatDirectory(path); done := r.Ok?;
      }
    }

    /** Any run of commands keeps the volume sound; each one's outcome is exactly its effect on the tree. */
    method Run(commands: seq<Command>) returns (done: seq<bool>, ghost trees: seq<Tree>)
      requires Valid() && forall c :: c in commands ==> Allowed(c)
      modifies this`nodes, disk
      ensures Valid() && (Mountable() <==> old(Mountable())) && |done| == |commands|
      ensures Mountable() ==> |trees| == |commands| + 1 && trees[0] == old(T()) && trees[|commands|] == T()
      ensures Mountable() ==> forall i :: 0 <= i < |commands| ==> Does(trees[i], trees[i + 1], commands[i], done[i])
      ensures !Mountable() ==> forall i :: 0 <= i < |commands| ==> !done[i]
    {
      hide View, Inv, OnDisk, TreeOf, FatImage, SoundDisk, Does;
      done, trees := [], if Mountable() then [T()] else [];
      for n := 0 to |commands|
        invariant Valid() && (Mountable() <==> old(Mountable())) && |done| == n
        invariant Mountable() ==> |trees| == n + 1 && trees[0] == old(T()) && trees[n] == T()
        invariant Mountable() ==> forall i :: 0 <= i < n ==> Does(trees[i], trees[i + 1], commands[i], done[i])
        invariant !Mountable() ==> forall i :: 0 <= i < n ==> !done[i]
      {
        var ok := Perform(commands[n]);
        done, trees := done + [ok], if Mountable() then trees + [T()] else trees;
      }
    }
  }
}
