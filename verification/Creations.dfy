/** Creating a file or directory, seen from the disk: what the finished volume holds, and that every
    disk on the way still shows the old tree. */
module Creations {
  import opened Bytes
  import opened Chains
  import opened Geometry
  import opened LongNames
  import opened Directory
  import opened DirectoryUpdates
  import opened Volume
  import opened VolumeUpdates
  import opened Trees
  import opened DiskView
  import opened DiskSteps
  import opened Mounts

  // What is about to be added: `group` at slots `at..` of directory `d`, for a node on the clusters `ch`.
  datatype Addition = Addition(d: nat, at: nat, group: seq<Slot>, ch: seq<nat>, isDir: bool) {
    function Id(): nat
      requires ch != []
    {
      ch[0]
    }

    function NodeIn(nodes: Nodes): Node
      requires d in nodes && group != []
    {
      Node(d, at + |group| - 1, nodes[d].depth + 1, isDir, ch)
    }
  }

  // The clusters are free and the slots are there, on the sound disk `a`.
  ghost predicate Ready(g: Geo, a: Disk, nodes: Nodes, add: Addition) {
    && SoundDisk(g, a, nodes) && add.d in nodes && nodes[add.d].isDir && add.d in View(g, a, nodes).dirs
    && add.ch != [] && NoRepeat(add.ch) && AllFree(LinksOn(g, a), add.ch)
    && FreeRun(View(g, a, nodes).dirs[add.d], add.at, |add.group|)
    && FreshGroup(View(g, a, nodes).dirs[add.d], add.group) && add.group != []
    && StartOf(GroupShort(add.group)) == add.ch[0] && IsDir(GroupShort(add.group)) == add.isDir
  }

  // The clusters are linked as one chain on `b`.
  ghost predicate Laid(g: Geo, a: Disk, b: Disk, ch: seq<nat>) {
    Within(g, a, b, ch) && Written(LinksOn(g, a), LinksOn(g, b), ch, |ch|)
  }

  ghost function With(nodes: Nodes, add: Addition): Nodes
    requires add.ch != [] && add.d in nodes && add.group != []
  {
    nodes[add.Id() := add.NodeIn(nodes)]
  }

  lemma FreeFits(g: Geo, links: seq<nat>, ch: seq<nat>)
    requires AllFree(links, ch) && |links| == g.Clusters()
    ensures ChainFits(g, ch) && DataClusters(ch)
  {
  }

  lemma InvAllocated(v: Vol, nodes: Nodes, clusterBytes: nat)
    requires clusterBytes > 0 && Inv(v, nodes, clusterBytes)
    ensures 0 in nodes && nodes[0].chain == [] && nodes[0].isDir && Allocated(v.links, nodes) && |v.links| <= MAX_CLUSTERS
    ensures Shaped(v, nodes)
  {
  }

  lemma ReadyFacts(g: Geo, a: Disk, nodes: Nodes, add: Addition)
    requires Ready(g, a, nodes, add)
    ensures ReadableDisk(g, a, nodes) && 0 in nodes && nodes[0].chain == [] && nodes[0].isDir
    ensures Allocated(LinksOn(g, a), nodes) && g.Clusters() <= MAX_CLUSTERS
    ensures add.Id() !in nodes && add.Id() >= 2 && ChainFits(g, add.ch) && DataClusters(add.ch)
  {
    hide View, Inv, LinksOn, FreshGroup, FreeRun, AllFree, Allocated, ReadableDisk, NoRepeat;
    SoundIsReadable(g, a, nodes);
    ViewKeys(g, a, nodes);
    InvAllocated(View(g, a, nodes), nodes, g.ClusterBytes());
    FreeFits(g, LinksOn(g, a), add.ch);
    AllocatedParts(LinksOn(g, a), nodes);
    FreshNode(LinksOn(g, a), nodes, add.ch);
  }

  lemma AllocatedParts(links: seq<nat>, nodes: Nodes)
    requires Allocated(links, nodes)
    ensures Chained(links, nodes) && Disjoint(nodes)
  {
  }

  // With the new node in place no two nodes share a cluster.
  lemma NodeFits(g: Geo, a: Disk, b: Disk, nodes: Nodes, add: Addition)
    requires Ready(g, a, nodes, add) && Laid(g, a, b, add.ch)
    ensures ChainsOn(g, With(nodes, add)) && Disjoint(With(nodes, add)) && OnDisk(g, b, With(nodes, add))
    ensures View(g, b, nodes) == View(g, a, nodes).(links := LinksOn(g, b))
    ensures Chained(LinksOn(g, b), nodes)
  {
    hide View, Inv, LinksOn, FreshGroup, FreeRun, AllFree, Allocated, ReadableVol, NoRepeat, Written, GeoOf, Geo.Ok,
      Geo.FitsOn, SameBut, LinksBut, Disjoint, Chained, GroupShort, StartOf, IsDir;
    ReadyFacts(g, a, nodes, add);
    Invisible(g, a, b, nodes, add.ch);
    AllocatedParts(LinksOn(g, a), nodes);
    FreeSurvive(LinksOn(g, a), LinksOn(g, b), nodes, add.ch);
    FreshNode(LinksOn(g, a), nodes, add.ch);
    SetDisjoint(LinksOn(g, a), nodes, add.Id(), add.NodeIn(nodes));
  }

  // ---- the finished volume

  lemma AddedFile(g: Geo, a: Disk, b: Disk, nodes: Nodes, add: Addition, raw: seq<byte>)
    requires Ready(g, a, nodes, add) && Laid(g, a, b, add.ch) && !add.isDir && ChainsOn(g, With(nodes, add))
    requires DataClusters(add.ch) && raw == Raw(b, ChainSectors(g, add.ch))
    ensures View(g, b, With(nodes, add)) ==
            View(g, a, nodes).(links := LinksOn(g, b), files := View(g, a, nodes).files[add.Id() := raw])
  {
    hide View, Inv, LinksOn, FreshGroup, FreeRun, AllFree, Allocated, ReadableVol, NoRepeat, Written, GeoOf, Geo.Ok,
      Geo.FitsOn, SameBut, LinksBut, Disjoint, Chained, Raw, GroupShort, StartOf, IsDir;
    ReadyFacts(g, a, nodes, add);
    NodeFits(g, a, b, nodes, add);
    ViewMoreFile(g, b, nodes, add.Id(), add.NodeIn(nodes));
  }

  lemma AddedDir(g: Geo, a: Disk, b: Disk, nodes: Nodes, add: Addition, fresh': seq<Slot>)
    requires Ready(g, a, nodes, add) && Laid(g, a, b, add.ch) && add.isDir && ChainsOn(g, With(nodes, add))
    requires DataClusters(add.ch) && fresh' == Slots(b, ChainSectors(g, add.ch))
    ensures View(g, b, With(nodes, add)) ==
            View(g, a, nodes).(links := LinksOn(g, b), dirs := View(g, a, nodes).dirs[add.Id() := fresh'])
  {
    hide View, Inv, LinksOn, FreshGroup, FreeRun, AllFree, Allocated, ReadableVol, NoRepeat, Written, GeoOf, Geo.Ok,
      Geo.FitsOn, SameBut, LinksBut, Disjoint, Chained, Slots, GroupShort, StartOf, IsDir;
    ReadyFacts(g, a, nodes, add);
    NodeFits(g, a, b, nodes, add);
    ViewMoreDir(g, b, nodes, add.Id(), add.NodeIn(nodes));
  }

  lemma ReadyCanAdd(g: Geo, a: Disk, b: Disk, nodes: Nodes, add: Addition)
    requires Ready(g, a, nodes, add) && Laid(g, a, b, add.ch)
    ensures Inv(View(g, a, nodes), nodes, g.ClusterBytes())
    ensures CanAdd(View(g, a, nodes), nodes, LinksOn(g, b), add.d, add.at, add.group, add.NodeIn(nodes))
  {
    hide View, Inv, LinksOn, FreshGroup, FreeRun, AllFree, NoRepeat, Written, Within, GroupShort, StartOf, IsDir;
    ViewKeys(g, a, nodes);
  }

  /** A file whose clusters are laid and whose slots are filled: the volume is sound, and the tree has
      exactly one more entry and one more file, holding exactly the data. */
  lemma FileIsThere(g: Geo, a: Disk, b: Disk, c: Disk, nodes: Nodes, add: Addition, data: seq<byte>)
    requires Ready(g, a, nodes, add) && Laid(g, a, b, add.ch) && !add.isDir
    requires SizeOf(GroupShort(add.group)) == |data| && |add.ch| == Needed(g.ClusterBytes(), |data|)
    requires DataClusters(add.ch) && Raw(b, ChainSectors(g, add.ch)) == Padded(data, 512 * |ChainSectors(g, add.ch)|)
    requires OnDisk(g, c, With(nodes, add)) && ChainsOn(g, With(nodes, add))
    requires var v := View(g, b, With(nodes, add));
             && add.d in v.dirs && add.at + |add.group| <= |v.dirs[add.d]|
             && View(g, c, With(nodes, add)) == v.(dirs := v.dirs[add.d := Splice(v.dirs[add.d], add.at, add.group)])
    ensures SoundDisk(g, c, With(nodes, add))
    ensures var t, i := TreeOn(g, a, nodes), |ListRange(View(g, a, nodes).dirs[add.d], 0, add.at)|;
            && add.d in t.dirs && i <= |t.dirs[add.d]|
            && TreeOn(g, c, With(nodes, add)) == WithFile(t, add.d, i, GroupListed(add.group), data)
  {
    hide View, Inv, LinksOn, Laid, Raw, Padded, Splice, GroupListed, SizeOf, TreeOf, FreshGroup, FreeRun, AllFree,
      NoRepeat, StartOf, IsDir, CanAdd, FreshContent, Needed, GeoOf, Geo.Ok, Geo.FitsOn, Listing, ListRange,
      Geo.ClusterBytes, GroupShort, ChainSectors;
    var raw := Raw(b, ChainSectors(g, add.ch));
    var v, node := View(g, a, nodes), add.NodeIn(nodes);
    AddedFile(g, a, b, nodes, add, raw);
    ReadyCanAdd(g, a, b, nodes, add);
    GeoIsOk(g, a, nodes);
    DataFits(g, add.ch, data);
    FileContent(add, nodes, raw, g.ClusterBytes());
    AddInv(v, nodes, g.ClusterBytes(), LinksOn(g, b), add.d, add.at, add.group, node, [], raw);
    AddFileTree(v, nodes, g.ClusterBytes(), LinksOn(g, b), add.d, add.at, add.group, node, raw);
    PaddedPrefix(data, 512 * |ChainSectors(g, add.ch)|);
  }

  lemma GeoIsOk(g: Geo, a: Disk, nodes: Nodes)
    requires OnDisk(g, a, nodes)
    ensures g.Ok()
  {
  }

  lemma FileContent(add: Addition, nodes: Nodes, raw: seq<byte>, clusterBytes: nat)
    requires add.ch != [] && add.group != [] && add.d in nodes && !add.isDir && clusterBytes > 0
    requires |add.ch| == Needed(clusterBytes, SizeOf(GroupShort(add.group))) && |raw| == |add.ch| * clusterBytes
    ensures FreshContent(add.NodeIn(nodes), add.group, [], raw, clusterBytes)
  {
  }

  lemma DataFits(g: Geo, ch: seq<nat>, data: seq<byte>)
    requires DataClusters(ch) && g.Ok() && |ch| == Needed(g.ClusterBytes(), |data|)
    ensures 512 * |ChainSectors(g, ch)| == |ch| * g.ClusterBytes() >= |data| && g.ClusterBytes() > 0
  {
    ChainSectorsLength(g, ch);
    NeededEnough(g.ClusterBytes(), |data|);
  }

  lemma NeededEnough(clusterBytes: nat, size: nat)
    requires clusterBytes > 0
    ensures Needed(clusterBytes, size) * clusterBytes >= size
  {
  }

  // ---- a new directory

  // A cluster that opens with the two dot entries and is zero from there on.
  ghost predicate DotCluster(g: Geo, disk: Disk, c: nat, parent: nat)
    requires c >= 2
  {
    var slots := Slots(disk, ClusterSectors(g, c));
    |slots| >= 2 && FreshDirFor(slots, c, parent)
  }

  lemma OneCluster(g: Geo, c: nat)
    requires c >= 2
    ensures DataClusters([c]) && ChainSectors(g, [c]) == ClusterSectors(g, c)
  {
    ChainSectorsAppend(g, [], c);
    assert [] + [c] == [c];
  }

  /** A directory whose cluster holds its dots and whose slots are filled: the volume is sound, and the
      tree has exactly one more entry and one more directory, holding only its dots. */
  lemma DirIsThere(g: Geo, a: Disk, b: Disk, c: Disk, nodes: Nodes, add: Addition)
    requires Ready(g, a, nodes, add) && Laid(g, a, b, add.ch) && add.isDir && |add.ch| == 1 && add.ch[0] >= 2
    requires DotCluster(g, b, add.ch[0], add.d)
    requires OnDisk(g, c, With(nodes, add)) && ChainsOn(g, With(nodes, add))
    requires var v := View(g, b, With(nodes, add));
             && add.d in v.dirs && add.at + |add.group| <= |v.dirs[add.d]|
             && View(g, c, With(nodes, add)) == v.(dirs := v.dirs[add.d := Splice(v.dirs[add.d], add.at, add.group)])
    ensures SoundDisk(g, c, With(nodes, add))
    ensures var t, i := TreeOn(g, a, nodes), |ListRange(View(g, a, nodes).dirs[add.d], 0, add.at)|;
            && add.d in t.dirs && i <= |t.dirs[add.d]|
            && TreeOn(g, c, With(nodes, add)) ==
               WithDir(t, add.d, i, GroupListed(add.group), Listing(Slots(b, ClusterSectors(g, add.ch[0]))))
  {
    hide View, Inv, LinksOn, Laid, Slots, Splice, GroupListed, SizeOf, TreeOf, FreshGroup, FreeRun, AllFree,
      NoRepeat, StartOf, IsDir, CanAdd, FreshContent, GeoOf, Geo.Ok, Geo.FitsOn, Listing, ListRange,
      Geo.ClusterBytes, GroupShort, ChainSectors, FreshDirFor;
    var fresh' := Slots(b, ClusterSectors(g, add.ch[0]));
    var v, node := View(g, a, nodes), add.NodeIn(nodes);
    assert add.ch == [add.ch[0]];
    OneCluster(g, add.ch[0]);
    AddedDir(g, a, b, nodes, add, fresh');
    ReadyCanAdd(g, a, b, nodes, add);
    ReadyFacts(g, a, nodes, add);
    DirContent(add, nodes, fresh', g);
    AddInv(v, nodes, g.ClusterBytes(), LinksOn(g, b), add.d, add.at, add.group, node, fresh', []);
    AddDirTree(v, nodes, g.ClusterBytes(), LinksOn(g, b), add.d, add.at, add.group, node, fresh');
    DirSwap(v.dirs, add.d, add.Id(), Splice(v.dirs[add.d], add.at, add.group), fresh');
  }

  lemma DirContent(add: Addition, nodes: Nodes, fresh': seq<Slot>, g: Geo)
    requires add.ch != [] && add.group != [] && add.d in nodes && add.isDir && g.Ok()
    requires |fresh'| >= 2 && FreshDirFor(fresh', add.ch[0], add.d)
    ensures g.ClusterBytes() > 0 && FreshContent(add.NodeIn(nodes), add.group, fresh', [], g.ClusterBytes())
  {
    hide FreshDirFor;
  }

  lemma DirSwap<T>(dirs: map<nat, T>, d: nat, id: nat, x: T, y: T)
    requires d != id
    ensures dirs[d := x][id := y] == dirs[id := y][d := x]
  {
  }

  // ---- the way there

  // `t` is a disk on which a reader sees exactly what it saw on `a`.
  ghost predicate ShowsSame(g: Geo, a: Disk, t: Disk, nodes: Nodes) {
    && ChainsOn(g, nodes) && ReadableDisk(g, t, nodes) && TreeOn(g, t, nodes) == TreeOn(g, a, nodes)
  }

  // `t` is a disk on which a reader sees `tree`, whichever chains it takes for granted.
  ghost predicate ShowsTree(g: Geo, t: Disk, tree: Tree) {
    exists nodes: Nodes :: ReadableDisk(g, t, nodes) && TreeOn(g, t, nodes) == tree
  }

  // `t` is `a` with the data of `c` written and the links of `tail` and `c` in whatever state.
  ghost predicate Torn(g: Geo, a: Disk, t: Disk, tail: nat, c: nat) {
    SameBut(g, a, t, [c]) && LinksBut(LinksOn(g, a), LinksOn(g, t), [tail, c])
  }

  // The way of a growing directory: where the link of its old tail begins to be written, is written, and the
  // link of the new cluster is written too.
  datatype Growth = Growth(tail: nat, c: nat, first: nat, linked: nat, last: nat)

  // From `from` on the way shows `t0`, but for at most three disks on which one of the two links is being written.
  // On one of these the chain runs into a cluster that is still free.
  ghost predicate GrewAt(g: Geo, way: seq<Disk>, d0: Disk, t0: Tree, from: nat, w: Growth) {
    && from <= w.first <= w.linked < w.last < |way| && w.last <= w.first + 3
    && (forall i :: from <= i < |way| && !(w.first <= i < w.last) ==> ShowsTree(g, way[i], t0))
    && (forall i :: w.first <= i < w.last ==> Torn(g, d0, way[i], w.tail, w.c))
    && LinkedOn(LinksOn(g, d0), LinksOn(g, way[w.last]), w.tail, w.c)
    && NextOf(LinksOn(g, way[w.linked]), w.tail) == Ok(Some(w.c))
    && NextOf(LinksOn(g, way[w.linked]), w.c) == Err(FreeInChain)
  }

  ghost predicate Grew(g: Geo, way: seq<Disk>, d0: Disk, t0: Tree, from: nat) {
    exists w :: GrewAt(g, way, d0, t0, from, w)
  }

  lemma GrewOn(g: Geo, a: seq<Disk>, b: seq<Disk>, d0: Disk, t0: Tree, from: nat)
    requires Grew(g, a, d0, t0, from) && Extends(a, b)
    requires forall i :: |a| <= i < |b| ==> ShowsTree(g, b[i], t0)
    ensures Grew(g, b, d0, t0, from)
  {
    hide ShowsTree, Torn, LinkedOn, LinksOn, NextOf;
    var w :| GrewAt(g, a, d0, t0, from, w);
    forall i | 0 <= i < |a| ensures b[i] == a[i] {
      ExtendsAt(a, b, i);
    }
    assert GrewAt(g, b, d0, t0, from, w);
  }

  lemma LaidUnseen(g: Geo, a: Disk, t: Disk, nodes: Nodes, add: Addition)
    requires Ready(g, a, nodes, add) && Within(g, a, t, add.ch)
    ensures ShowsSame(g, a, t, nodes)
  {
    hide View, Inv, LinksOn, FreshGroup, FreeRun, AllFree, ReadableDisk, NoRepeat, Within;
    ReadyFacts(g, a, nodes, add);
    Invisible(g, a, t, nodes, add.ch);
  }

  lemma LongPrefix(longs: seq<Slot>, n: nat)
    requires LongBlock(longs) && n <= |longs|
    ensures LongBlock(longs[..n])
  {
    if n > 0 {
      assert longs[..n][0] == longs[0];
    }
  }

  // Slots of live entries are not in a free run.
  lemma PartSizes(v: Vol, nodes: Nodes, dirs: map<nat, seq<Slot>>, d: nat, at: nat, len: nat, block: seq<Slot>, n: nat)
    requires d in v.dirs && FreeRun(v.dirs[d], at, len) && |block| <= len
    requires dirs == v.dirs[d := Splice(v.dirs[d], at, block)]
    requires n in nodes && Placed(v, nodes, n)
    ensures SizeIn(dirs, nodes[n]) == SizeIn(v.dirs, nodes[n])
  {
    hide SizeOf, StartOf, Splice;
  }

  lemma PartUnseen(g: Geo, a: Disk, t: Disk, nodes: Nodes, d: nat, at: nat, len: nat, block: seq<Slot>)
    requires SoundDisk(g, a, nodes) && OnDisk(g, t, nodes) && d in View(g, a, nodes).dirs
    requires FreeRun(View(g, a, nodes).dirs[d], at, len) && LongBlock(block) && |block| < len
    requires Chained(LinksOn(g, t), nodes)
    requires var v := View(g, a, nodes);
             View(g, t, nodes) == Vol(LinksOn(g, t), v.dirs[d := Splice(v.dirs[d], at, block)], v.files)
    ensures ShowsSame(g, a, t, nodes)
  {
    hide View, LinksOn, FreeRun, LongBlock, GeoOf, Geo.Ok, Geo.FitsOn, Splice, Allocated, Chained, EntriesStand,
      FilesSized, SizeIn, Readable, Complete, Checked, NamesOk, Dots, Placed;
    var v, v' := View(g, a, nodes), View(g, t, nodes);
    assert DirHolds(v, nodes, d);
    PartialGroupInvisible(v.dirs[d], at, len, block);
    ViewKeys(g, a, nodes);
    forall x | x in v'.dirs ensures Readable(v'.dirs[x]) {
      assert x in v.dirs && DirHolds(v, nodes, x);
    }
    forall n | n in v.files ensures SizeIn(v'.dirs, nodes[n]) == SizeIn(v.dirs, nodes[n]) {
      FileNotRoot(v, nodes, n);
      PartSizes(v, nodes, v'.dirs, d, at, len, block, n);
    }
    SameTree(v, nodes, v', nodes);
  }

  lemma DropNew(nodes: Nodes, add: Addition)
    requires add.ch != [] && add.d in nodes && add.group != [] && add.Id() !in nodes
    ensures With(nodes, add) - {add.Id()} == nodes
  {
    assert With(nodes, add) - {add.Id()} == nodes;
  }

  lemma ViewBefore(g: Geo, a: Disk, b: Disk, nodes: Nodes, add: Addition)
    requires Ready(g, a, nodes, add) && Laid(g, a, b, add.ch) && ChainsOn(g, With(nodes, add))
    ensures var v, w := View(g, a, nodes), View(g, b, With(nodes, add));
            && w.links == LinksOn(g, b) && w.dirs - {add.Id()} == v.dirs && w.files - {add.Id()} == v.files
            && add.d in w.dirs && w.dirs[add.d] == v.dirs[add.d] && add.d != add.Id()
  {
    hide View, Inv, LinksOn, FreshGroup, FreeRun, AllFree, Allocated, ReadableVol, NoRepeat, Written, GeoOf, Geo.Ok,
      Geo.FitsOn, SameBut, LinksBut, Disjoint, Chained, GroupShort, StartOf, IsDir;
    ReadyFacts(g, a, nodes, add);
    NodeFits(g, a, b, nodes, add);
    ViewLess(g, b, With(nodes, add), add.Id());
    DropNew(nodes, add);
  }

  // A disk with the clusters laid and the first `n` slots of the entry written, but not its last.
  lemma SlotsUnseen(g: Geo, a: Disk, b: Disk, t: Disk, nodes: Nodes, add: Addition, n: nat)
    requires Ready(g, a, nodes, add) && Laid(g, a, b, add.ch) && ChainsOn(g, With(nodes, add)) && n < |add.group|
    requires OnDisk(g, t, With(nodes, add))
    requires var w := View(g, b, With(nodes, add));
             && add.d in w.dirs && add.at + |add.group| <= |w.dirs[add.d]|
             && View(g, t, With(nodes, add)) ==
                w.(dirs := w.dirs[add.d := Splice(w.dirs[add.d], add.at, add.group[..n])])
    ensures ShowsSame(g, a, t, nodes)
  {
    hide View, Inv, LinksOn, FreeRun, AllFree, Allocated, ReadableVol, NoRepeat, Written, GeoOf, Geo.Ok, Geo.FitsOn,
      SameBut, LinksBut, Disjoint, Chained, GroupShort, StartOf, IsDir, Splice, GroupOk, LongBlock, Within,
      ShowsSame;
    ReadyFacts(g, a, nodes, add);
    NodeFits(g, a, b, nodes, add);
    ViewBefore(g, a, b, nodes, add);
    ViewLess(g, t, With(nodes, add), add.Id());
    DropNew(nodes, add);
    ViewKeys(g, t, nodes);
    var v := View(g, a, nodes);
    LongsOfGroup(add.group, n);
    OneDirSplice(View(g, b, With(nodes, add)).dirs, v.dirs, add.d, add.Id(), Splice(v.dirs[add.d], add.at, add.group[..n]));
    PartUnseen(g, a, t, nodes, add.d, add.at, |add.group|, add.group[..n]);
  }

  lemma LongsOfGroup(group: seq<Slot>, n: nat)
    requires GroupOk(group) && n < |group|
    ensures LongBlock(group[..n])
  {
    LongPrefix(group[..|group| - 1], n);
    assert group[..|group| - 1][..n] == group[..n];
  }

  lemma OneDirSplice<T>(w: map<nat, T>, v: map<nat, T>, d: nat, id: nat, x: T)
    requires d != id && w - {id} == v
    ensures w[d := x] - {id} == v[d := x]
  {
  }

  // The links and the slot count after the addition `c`, as against before it.
  lemma AdditionCounts(g: Geo, a: Disk, b: Disk, c: Disk, nodes: Nodes, add: Addition)
    requires Ready(g, a, nodes, add) && Laid(g, a, b, add.ch) && ChainsOn(g, With(nodes, add))
    requires var w := View(g, b, With(nodes, add));
             && add.d in w.dirs && add.at + |add.group| <= |w.dirs[add.d]|
             && View(g, c, With(nodes, add)) == w.(dirs := w.dirs[add.d := Splice(w.dirs[add.d], add.at, add.group)])
    ensures LinksOn(g, c) == LinksOn(g, b) && add.d in View(g, c, With(nodes, add)).dirs
    ensures Used(View(g, c, With(nodes, add)).dirs[add.d]) == Used(View(g, a, nodes).dirs[add.d]) + |add.group|
    ensures add.Id() !in nodes && With(nodes, add)[add.Id()].chain == add.ch && add.d in With(nodes, add)
    ensures With(nodes, add)[add.d] == nodes[add.d]
  {
    hide View, Inv, LinksOn, FreeRun, AllFree, Allocated, ReadableVol, NoRepeat, Written, GeoOf, Geo.Ok, Geo.FitsOn,
      SameBut, LinksBut, Disjoint, Chained, GroupShort, StartOf, IsDir, Splice, GroupOk, Used, Within;
    ReadyFacts(g, a, nodes, add);
    ViewBefore(g, a, b, nodes, add);
    ViewKeys(g, c, With(nodes, add));
    ViewKeys(g, b, With(nodes, add));
    SoundShape(g, a, nodes, add.d);
    FillListing(View(g, a, nodes).dirs[add.d], add.at, add.group);
  }

  lemma SoundShape(g: Geo, a: Disk, nodes: Nodes, d: nat)
    requires SoundDisk(g, a, nodes) && d in View(g, a, nodes).dirs
    ensures Readable(View(g, a, nodes).dirs[d]) && Complete(View(g, a, nodes).dirs[d])
    ensures DirOk(View(g, a, nodes).dirs[d], d != 0)
  {
    hide View, Allocated, EntriesStand, FilesSized, NodesPlaced, GeoOf, NamesOk, Checked, Dots;
    assert DirHolds(View(g, a, nodes), nodes, d);
  }

  // ---- the first sector of a new directory

  function DotSector(dot: Slot, dotdot: Slot): Sector {
    dot + dotdot + ZeroBytes(448)
  }

  // A directory slot for "." or "..", pointing at `c`.
  predicate IsDotSlot(raw: Slot, name: ShortName, c: nat) {
    ShortOf(raw) == name && raw[0] == DOT && raw[11] == ATTR_DIRECTORY && StartOf(raw) == c
  }

  lemma DotSectorSlots(dot: Slot, dotdot: Slot, j: nat)
    requires j < 16
    ensures SlotIn(DotSector(dot, dotdot), j) == if j == 0 then dot else if j == 1 then dotdot else ZeroSlot()
  {
    var s := DotSector(dot, dotdot);
    if j >= 2 {
      assert SlotIn(s, j) == ZeroSlot();
    }
  }

  lemma ZeroIsEnd()
    ensures IsEnd(ZeroSlot())
    ensures forall j: nat :: j < 16 ==> SlotIn(ZeroSector(), j) == ZeroSlot()
  {
    forall j: nat | j < 16 ensures SlotIn(ZeroSector(), j) == ZeroSlot() {
    }
  }

  lemma DotIsDir(raw: Slot, name: ShortName, c: nat)
    requires IsDotSlot(raw, name, c)
    ensures IsShort(raw) && IsDir(raw)
  {
  }

  lemma DotsLaid(g: Geo, disk: Disk, c: nat, parent: nat, dot: Slot, dotdot: Slot)
    requires c >= 2 && g.perCluster >= 1
    requires SectorAt(disk, ClusterSectors(g, c)[0]) == DotSector(dot, dotdot) && ZeroFrom(g, disk, c, 1)
    requires IsDotSlot(dot, DOT_NAME, c) && IsDotSlot(dotdot, DOTDOT_NAME, parent)
    ensures DotCluster(g, disk, c, parent)
  {
    hide SlotIn, DotSector, ZeroSector, StartOf, SectorAt, IsEnd, ZeroSlot;
    var slots := Slots(disk, ClusterSectors(g, c));
    DotIsDir(dot, DOT_NAME, c);
    DotIsDir(dotdot, DOTDOT_NAME, parent);
    DotSectorSlots(dot, dotdot, 0);
    DotSectorSlots(dot, dotdot, 1);
    hide IsDotSlot, IsDir, IsShort, ShortOf, DOT_NAME, DOTDOT_NAME;
    assert slots[0] == dot && slots[1] == dotdot;
    ZeroIsEnd();
    forall k | 2 <= k < |slots| ensures IsEnd(slots[k]) {
      if k < 16 {
        DotSectorSlots(dot, dotdot, k);
      } else {
        assert k / 16 >= 1;
      }
    }
  }

  // The two entries a new directory lists.
  ghost predicate DotEntries(dots: seq<Listed>, id: nat, parent: nat) {
    && |dots| == 2
    && dots[0].entry.name == [DOT] && dots[0].entry.isDir && dots[0].entry.start == id
    && dots[1].entry.name == [DOT, DOT] && dots[1].entry.isDir && dots[1].entry.start == parent
  }

  lemma DotsListed(slots: seq<Slot>, id: nat, parent: nat)
    requires |slots| >= 2 && FreshDirFor(slots, id, parent)
    ensures DotEntries(Listing(slots), id, parent)
  {
    hide DotSlots, StartOf, IsDir, IsShort, Listing, NameAt;
    FreshDirOk(slots);
    ListedStart(slots, 0);
    ListedStart(slots, 1);
  }
}
