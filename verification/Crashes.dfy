/** What a volume shows that is mounted afresh from a disk a creation left half way. */
module Crashes {
  import opened Bytes
  import opened Chains
  import opened Geometry
  import opened Directory
  import opened NameEntries
  import opened Volume
  import opened Trees
  import opened DiskView
  import opened Mounts
  import opened Creations
  import opened Removals
  import opened Fat12Driver
  import opened Shell

  // `cut` is a disk on which the whole of `t` can still be seen.
  ghost predicate CutShort(g: Geo, t: Tree, cut: Disk) {
    WholeTree(t) && ShowsTree(g, cut, t)
  }

  lemma CutIsMountable(g: Geo, t: Tree, cut: Disk)
    requires CutShort(g, t, cut)
    ensures g.start < |cut| && GeoOf(cut[g.start], g.start) == Ok(g)
  {
    hide View, ReadableVol, TreeOf, WholeTree;
    FatBeforeRoot(g);
  }

  // A directory of the tree is one wherever the tree shows.
  lemma DirShows(g: Geo, t: Tree, cut: Disk, nodes: Nodes, dir: DirLocation)
    requires ReadableDisk(g, cut, nodes) && TreeOn(g, cut, nodes) == t && dir.Id() in t.dirs && (dir.Cluster? ==> dir.c != 0)
    ensures IsDirAt(nodes, dir)
  {
    hide ReadableVol, Listing, GeoOf, Geo.Ok, Geo.FitsOn;
    RootIsEmpty(g, cut, nodes);
    TreeDirs(View(g, cut, nodes), nodes);
    ViewKeys(g, cut, nodes);
  }

  // The driver mounts the disk, and sees the tree from before.
  method Remount(disk: array<Sector>, ghost g: Geo, ghost t: Tree, start: nat) returns (fs: Fat12)
    requires CutShort(g, t, disk[..]) && start == g.start
    ensures fresh(fs) && fresh(fs.fatBytes) && fs.Mounted() && disk[..] == old(disk[..])
    ensures fs.g == g && ReadableDisk(g, disk[..], fs.nodes) && TreeOn(g, disk[..], fs.nodes) == t
    ensures fs.T() == t && fs.disk == disk && WholeTree(fs.T())
  {
    hide View, ReadableVol, TreeOf, GeoOf, Geo.Ok, Geo.FitsOn, FatImage, WholeTree;
    CutIsMountable(g, t, disk[..]);
    ghost var nodes :| ReadableDisk(g, disk[..], nodes) && TreeOn(g, disk[..], nodes) == t;
    FatFits(g, disk.Length);
    var r := Fat12.ReadBpb(disk, start, nodes);
    fs := r.value;
  }

  /** Mounted afresh, every directory lists what it listed before the creation began, and every name reads as it read. */
  method LookAfterCut(disk: array<Sector>, start: nat, dir: DirLocation, name: Name, ghost g: Geo, ghost t: Tree)
    returns (entries: seq<DirEntry>, back: Result<seq<byte>>)
    requires CutShort(g, t, disk[..]) && start == g.start && dir.Id() in t.dirs && (dir.Cluster? ==> dir.c != 0)
    ensures disk[..] == old(disk[..]) && entries == Entries(t.dirs[dir.Id()])
    ensures back.Ok? ==> exists i: nat :: HoldsFile(t, dir.Id(), name, i, back.value)
    ensures back.Err? ==> NoFile(t, dir.Id(), name)
  {
    hide View, ReadableVol, Readable, TreeOf, GeoOf, Geo.Ok, Geo.FitsOn, FatImage, WholeTree, CutShort, Scan,
      AnswersTo, Listing;
    var fs := Remount(disk, g, t, start);
    DirShows(g, t, disk[..], fs.nodes, dir);
    entries := fs.ListEntriesIn(dir);
    fs.DirShape(dir);
    ScanIsListing(fs.SlotsOf(dir));
    fs.DirIsThere(dir);
    TreeDirs(fs.V(), fs.nodes);
    ghost var i: nat;
    back, i := fs.ReadFile(dir, name);
    assert back.Ok? ==> HoldsFile(fs.T(), dir.Id(), name, i, back.value);
  }

  // ---- every disk on the way of a creation

  // Every disk from `from` up to, but not including, step `upto` is cut short, ...
  ghost predicate CutsShow(g: Geo, t: Tree, way: seq<Disk>, from: nat) {
    forall i :: from <= i < |way| ==> CutShort(g, t, way[i])
  }

  // ... or every one but at most three in a row, on which a link of the growing parent is being written.
  ghost predicate CutsShowBut(g: Geo, d0: Disk, t: Tree, way: seq<Disk>, from: nat, w: Growth) {
    && from <= w.first <= w.linked < w.last < |way| && w.last <= w.first + 3
    && (forall i :: from <= i < |way| && !(w.first <= i < w.last) ==> CutShort(g, t, way[i]))
    && (forall i :: w.first <= i < w.last ==> Torn(g, d0, way[i], w.tail, w.c))
    && NextOf(LinksOn(g, way[w.linked]), w.tail) == Ok(Some(w.c))
    && NextOf(LinksOn(g, way[w.linked]), w.c) == Err(FreeInChain)
  }

  ghost predicate CutsShowButFew(g: Geo, d0: Disk, t: Tree, way: seq<Disk>, from: nat) {
    exists w :: CutsShowBut(g, d0, t, way, from, w)
  }

  lemma UnseenCuts(fs: Fat12, d0: Disk, n0: Nodes, from: nat)
    requires SoundDisk(fs.g, d0, n0) && fs.Unseen(d0, n0, from) && fs.trace != []
    ensures CutsShow(fs.g, TreeOn(fs.g, d0, n0), fs.trace[..|fs.trace| - 1], from)
  {
    hide View, ReadableDisk, TreeOf, Inv, WholeTree, GeoOf, Geo.Ok, Geo.FitsOn;
    SoundIsWhole(fs.g, d0, n0);
    forall i | from <= i < |fs.trace| - 1 ensures CutShort(fs.g, TreeOn(fs.g, d0, n0), fs.trace[i]) {
      assert ShowsSame(fs.g, d0, fs.trace[i], n0);
    }
  }

  lemma SoundIsWhole(g: Geo, d0: Disk, n0: Nodes)
    requires SoundDisk(g, d0, n0)
    ensures WholeTree(TreeOn(g, d0, n0))
  {
    hide View, ReadableVol, TreeOf, Inv, GeoOf, Geo.FitsOn;
    GeoBytes(g, d0, n0);
    SoundTreeIsWhole(View(g, d0, n0), n0, g.ClusterBytes());
  }

  lemma GrewCuts(g: Geo, way: seq<Disk>, d0: Disk, t: Tree, from: nat)
    requires Grew(g, way, d0, t, from) && WholeTree(t)
    ensures CutsShowButFew(g, d0, t, way, from)
  {
    hide ShowsTree, Torn, LinkedOn, LinksOn, NextOf, WholeTree;
    var w :| GrewAt(g, way, d0, t, from, w);
    assert CutsShowBut(g, d0, t, way, from, w);
  }

  /** Wherever a creation is cut short, a fresh mount shows the tree from before, or, after the last write, the tree
      with the new file. The only disks that show neither are those, at most three in a row, on which a parent that
      must grow has its new cluster linked but not yet ended. */
  method CreateCutAnywhere(fs: Fat12, dir: DirLocation, name: Name, data: seq<byte>, time: nat, date: nat)
    returns (r: Result<()>)
    requires fs.Valid() && IsDirAt(fs.nodes, dir) && NameAllowed(name) && time < 0x1_0000 && date < 0x1_0000
    modifies fs`nodes, fs`trace, fs.disk, fs.fatBytes
    ensures fs.Valid() && fs.trace != [] && fs.trace[|fs.trace| - 1] == fs.D()
    ensures r.Ok? && !old(fs.MustGrow(dir, name)) ==>
              CutsShow(fs.g, old(fs.T()), fs.trace[..|fs.trace| - 1], |old(fs.trace)|)
    ensures r.Ok? && old(fs.MustGrow(dir, name)) ==>
              CutsShowButFew(fs.g, old(fs.D()), old(fs.T()), fs.trace[..|fs.trace| - 1], |old(fs.trace)|)
  {
    hide View, Inv, ReadableDisk, TreeOf, WholeTree, FatImage, LinksOn, FreeCount, AnswersTo, EntryMade, WithFile,
      Used, Needed, Fat12.EntryError, Fat12.ClustersLeft, Fat12.MustGrow, Fat12.Unseen, Fat12.Taken, Grew, CutsShow,
      CutsShowButFew, OneMore, GeoOf, Geo.Ok, Geo.FitsOn;
    ghost var d0, n0, from, g := fs.D(), fs.nodes, |fs.trace|, fs.g;
    SoundIsWhole(g, d0, n0);
    ghost var made;
    r, made := fs.CreateFile(dir, name, data, time, date);
    if r.Ok? {
      if Grew(g, fs.trace[..|fs.trace| - 1], d0, TreeOn(g, d0, n0), from) {
        GrewCuts(g, fs.trace[..|fs.trace| - 1], d0, TreeOn(g, d0, n0), from);
      }
      if fs.Unseen(d0, n0, from) {
        UnseenCuts(fs, d0, n0, from);
      }
    }
  }
}
