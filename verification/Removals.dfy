/** Reading, rewriting and deleting, seen from the disk: the entry a lookup finds, what the finished
    volume holds after a rewrite or a deletion. */
module Removals {
  import opened Bytes
  import opened Chains
  import opened Geometry
  import opened ShortNames
  import opened LongNames
  import opened Directory
  import opened DirectoryUpdates
  import opened Volume
  import opened VolumeUpdates
  import opened Trees
  import opened DiskView
  import opened DiskSteps
  import opened Mounts
  import opened Creations

  // ---- lookups in the tree

  // Entry `i` of directory `d` answers to `name`.
  ghost predicate FoundAt(t: Tree, d: nat, name: Name, i: nat) {
    d in t.dirs && i < |t.dirs[d]| && AnswersTo(t.dirs[d][i], name)
  }

  ghost predicate Missing(t: Tree, d: nat, name: Name) {
    d in t.dirs && forall i :: 0 <= i < |t.dirs[d]| ==> !AnswersTo(t.dirs[d][i], name)
  }

  // Slot `k` of a directory answers to `name`, and stands at `i` in the listing.
  ghost predicate SlotFound(slots: seq<Slot>, name: Name, k: nat, i: nat) {
    && k < |slots| && IsShort(slots[k]) && i == |ListRange(slots, 0, k)| < |Listing(slots)|
    && Listing(slots)[i] == ListedAt(slots, k) && AnswersTo(Listing(slots)[i], name)
  }

  lemma MatchIsFound(slots: seq<Slot>, name: Name, k: nat)
    requires Readable(slots) && FirstMatch(slots, name, k)
    ensures SlotFound(slots, name, k, |ListRange(slots, 0, k)|)
    ensures EntryOf(slots[k], ResolvedName(StateAt(slots, k), slots[k])) == ListedAt(slots, k).entry
  {
    MatchIsAnswer(slots, name, k);
    IndexOfSlot(slots, k, |slots|);
    AnswersToSlot(slots, k, name);
    StateVerifies(slots, k);
    hide IsShort, ListedAt, ListRange, AnswersTo, Answers, StateAt;
    NamesAgree(slots, k);
  }

  lemma NamesAgree(slots: seq<Slot>, k: nat)
    requires k < |slots| && LongRuns(slots)
    ensures EntryOf(slots[k], ResolvedName(StateAt(slots, k), slots[k])) == ListedAt(slots, k).entry
  {
    StateVerifies(slots, k);
  }

  lemma NoMatchIsMissing(slots: seq<Slot>, name: Name)
    requires Readable(slots) && NoMatch(slots, name)
    ensures forall i :: 0 <= i < |Listing(slots)| ==> !AnswersTo(Listing(slots)[i], name)
  {
    hide IsShort, ListedAt, AnswersTo, Answers, MatchAt;
    forall i | 0 <= i < |Listing(slots)| ensures !AnswersTo(Listing(slots)[i], name) {
      var k := SlotOfIndex(slots, 0, |slots|, i);
      AnswersToSlot(slots, k, name);
      MatchIsAnswer(slots, name, k);
    }
  }

  // The node an entry stands for.
  lemma EntryNode(v: Vol, nodes: Nodes, clusterBytes: nat, d: nat, k: nat)
    requires clusterBytes > 0 && Inv(v, nodes, clusterBytes) && d in v.dirs && k < |v.dirs[d]| && EntrySlot(v, d, k)
    ensures Stands(v, nodes, d, k)
  {
  }

  // A directory's dots are directories, and answer to no other name.
  lemma DotsAnswer(v: Vol, nodes: Nodes, clusterBytes: nat, d: nat, k: nat, name: Name)
    requires clusterBytes > 0 && Inv(v, nodes, clusterBytes) && d in v.dirs && k < |v.dirs[d]| && IsDot(d != 0, k)
    ensures IsDir(v.dirs[d][k])
    ensures AnswersTo(ListedAt(v.dirs[d], k), name) ==> name == [DOT] || name == [DOT, DOT]
  {
    hide Shaped, Allocated, EntriesStand, NodesPlaced, FilesSized, StartOf, IsDir, DOT_NAME, DOTDOT_NAME, Format,
      EqIgnoreCase;
    assert DirHolds(v, nodes, d);
    var slots := v.dirs[d];
    DotNames(slots, k);
    DotNameFormats();
    DotFoldsAlone(name);
    EqSwaps([DOT], name);
    EqSwaps([DOT, DOT], name);
  }

  lemma EqSwaps(a: Name, b: Name)
    ensures EqIgnoreCase(a, b) == EqIgnoreCase(b, a)
  {
  }

  lemma DotNames(slots: seq<Slot>, k: nat)
    requires DotSlots(slots) && k < 2
    ensures IsShort(slots[k]) && ShortOf(slots[k]) == (if k == 0 then DOT_NAME else DOTDOT_NAME)
    ensures NameAt(slots, k) == Format(ShortOf(slots[k]))
  {
    hide DOT_NAME, DOTDOT_NAME, Format, Checksum;
    assert Run(slots, 0) == [] && Run(slots, 1) == [];
  }

  // ---- deleting

  lemma FreedView(g: Geo, a: Disk, b: Disk, nodes: Nodes)
    requires OnDisk(g, a, nodes) && SameBut(g, a, b, [])
    ensures View(g, b, nodes) == View(g, a, nodes).(links := LinksOn(g, b))
  {
    hide View, SameBut, LinksOn;
    ViewSame(g, a, b, nodes, []);
  }

  // `b` is `a` with the chain of `id` freed, and `c` is `b` with its slots marked.
  ghost predicate Unlinked(g: Geo, a: Disk, b: Disk, c: Disk, nodes: Nodes, id: nat)
    requires ChainsOn(g, nodes) && id in nodes
  {
    var w, d, p := View(g, b, nodes), nodes[id].parent, nodes[id].pos;
    && SameBut(g, a, b, []) && Freed(LinksOn(g, a), LinksOn(g, b), nodes[id].chain)
    && d in w.dirs && p < |w.dirs[d]| && OnDisk(g, c, nodes)
    && View(g, c, nodes) == w.(dirs := w.dirs[d := Clear(w.dirs[d], p)])
  }

  /** A node whose chain is free and whose slots are marked deleted is gone from the tree, and the
      volume is sound without it. */
  lemma NodeIsGone(g: Geo, a: Disk, b: Disk, c: Disk, nodes: Nodes, id: nat)
    requires SoundDisk(g, a, nodes) && id in nodes && id != 0 && Leaf(View(g, a, nodes), id)
    requires Unlinked(g, a, b, c, nodes, id)
    ensures SoundDisk(g, c, nodes - {id}) && LinksOn(g, c) == LinksOn(g, b)
    ensures var v, d, p, t := View(g, a, nodes), nodes[id].parent, nodes[id].pos, TreeOn(g, a, nodes);
            && d in v.dirs && p < |v.dirs[d]|
            && var i := |ListRange(v.dirs[d], 0, GroupStart(v.dirs[d], p))|;
               && d in t.dirs && i < |t.dirs[d]| && t.dirs[d][i] == ListedAt(v.dirs[d], p)
               && TreeOn(g, c, nodes - {id}) == Without(t, d, i)
    ensures var v, d := View(g, a, nodes), nodes[id].parent;
            && d in View(g, c, nodes - {id}).dirs
            && Used(View(g, c, nodes - {id}).dirs[d]) + LongBefore(v.dirs[d], nodes[id].pos) + 1 == Used(v.dirs[d])
  {
    hide View, Inv, LinksOn, SameBut, Freed, Clear, TreeOf, Listing, ListRange, ListedAt, Used, Leaf, GeoOf, Geo.Ok,
      Geo.FitsOn, Geo.ClusterBytes, EntrySlot, StartOf;
    GeoBytes(g, a, nodes);
    ViewKeys(g, a, nodes);
    ViewKeys(g, b, nodes);
    ViewKeys(g, c, nodes);
    FreedView(g, a, b, nodes);
    var v, d, p := View(g, a, nodes), nodes[id].parent, nodes[id].pos;
    RemoveInv(v, nodes, g.ClusterBytes(), LinksOn(g, b), id);
    RemoveTree(v, nodes, g.ClusterBytes(), LinksOn(g, b), id);
    ViewLess(g, c, nodes, id);
    StillOnDisk(g, c, nodes, id);
    PlacedShort(v, nodes, id);
    ClearListing(v.dirs[d], p);
  }

  lemma GeoBytes(g: Geo, a: Disk, nodes: Nodes)
    requires OnDisk(g, a, nodes)
    ensures g.Ok() && g.ClusterBytes() > 0
  {
  }

  lemma StillOnDisk(g: Geo, c: Disk, nodes: Nodes, id: nat)
    requires OnDisk(g, c, nodes)
    ensures OnDisk(g, c, nodes - {id})
  {
  }

  lemma PlacedShort(v: Vol, nodes: Nodes, id: nat)
    requires id in nodes && Placed(v, nodes, id)
    ensures IsShort(v.dirs[nodes[id].parent][nodes[id].pos])
  {
  }

  // ---- empty directories

  lemma {:induction false} ListAtLeast(slots: seq<Slot>, lo: nat, hi: nat, k: nat)
    requires lo <= k < hi <= |slots| && IsShort(slots[k])
    ensures |ListRange(slots, lo, hi)| >= 1
  {
    if k < hi - 1 {
      ListAtLeast(slots, lo, hi - 1, k);
    }
  }

  lemma AtLeastDots(slots: seq<Slot>)
    requires DotSlots(slots)
    ensures |Listing(slots)| >= 2
  {
    hide ListedAt, IsShort, ListRange;
    ListSplit(slots, 0, 2, |slots|);
    ListSplit(slots, 0, 1, 2);
    ListOne(slots, 0, 1);
    ListOne(slots, 1, 2);
  }

  lemma DotsOnly(slots: seq<Slot>)
    requires DotSlots(slots)
    ensures |Listing(slots)| <= 2 <==> forall k :: 2 <= k < |slots| ==> !IsShort(slots[k])
  {
    hide ListedAt, IsShort, ListRange;
    ListSplit(slots, 0, 2, |slots|);
    ListSplit(slots, 0, 1, 2);
    ListOne(slots, 0, 1);
    ListOne(slots, 1, 2);
    if forall k :: 2 <= k < |slots| ==> !IsShort(slots[k]) {
      NothingAfterEnd(slots, 2, |slots|);
    } else {
      var k :| 2 <= k < |slots| && IsShort(slots[k]);
      ListAtLeast(slots, 2, |slots|, k);
    }
  }

  lemma LeafSlots(v: Vol, id: nat)
    requires id in v.dirs && id != 0
    ensures Leaf(v, id) <==> forall k :: 2 <= k < |v.dirs[id]| ==> !IsShort(v.dirs[id][k])
  {
    hide IsShort;
    if Leaf(v, id) {
      forall k | 2 <= k < |v.dirs[id]| ensures !IsShort(v.dirs[id][k]) {
        assert !EntrySlot(v, id, k);
      }
    }
  }

  /** The driver's test for an empty directory finds exactly the directories with nothing but their dots. */
  lemma EmptyIsLeaf(v: Vol, nodes: Nodes, clusterBytes: nat, id: nat)
    requires clusterBytes > 0 && Inv(v, nodes, clusterBytes) && id in v.dirs && id != 0
    ensures |Scan(v.dirs[id])| == |Listing(v.dirs[id])|
    ensures |Listing(v.dirs[id])| >= 2 && (|Listing(v.dirs[id])| <= 2 <==> Leaf(v, id))
  {
    hide Shaped, Allocated, EntriesStand, NodesPlaced, FilesSized, Complete, Checked, Scan, Listing, IsShort,
      Readable, Leaf, EntrySlot;
    assert DirHolds(v, nodes, id);
    ScanIsListing(v.dirs[id]);
    DotsOnly(v.dirs[id]);
    AtLeastDots(v.dirs[id]);
    LeafSlots(v, id);
  }

  lemma NotOwnParent(v: Vol, nodes: Nodes, clusterBytes: nat, id: nat)
    requires clusterBytes > 0 && Inv(v, nodes, clusterBytes) && id in nodes && id != 0
    ensures nodes[id].parent != id
  {
    hide Shaped, Allocated, EntriesStand, FilesSized, DirsOk, EntrySlot, StartOf;
    assert Placed(v, nodes, id);
  }

  // ---- reading

  function Least(a: nat, b: nat): nat {
    if a < b then a else b
  }

  // The bytes of one more sector, up to `size` in all.
  lemma RawStep(disk: Disk, lbas: seq<nat>, q: nat, size: nat)
    requires q < |lbas| && size <= 512 * |lbas|
    ensures var raw, a, b := Raw(disk, lbas), Least(512 * q, size), Least(512 * (q + 1), size);
            raw[..a] + SectorAt(disk, lbas[q])[..b - a] == raw[..b]
  {
    hide SectorAt;
    var raw, a, b := Raw(disk, lbas), Least(512 * q, size), Least(512 * (q + 1), size);
    forall j | a <= j < b ensures raw[j] == SectorAt(disk, lbas[q])[j - a] {
      assert j / 512 == q && j % 512 == j - 512 * q;
    }
  }

  /** What the tree says a file holds is the start of its chain's bytes, up to its size. */
  lemma FileInTree(v: Vol, nodes: Nodes, clusterBytes: nat, d: nat, k: nat, id: nat)
    requires clusterBytes > 0 && Inv(v, nodes, clusterBytes) && id in v.files && id in nodes
    requires d in v.dirs && k < |v.dirs[d]| && nodes[id].parent == d && nodes[id].pos == k
    ensures SizeOf(v.dirs[d][k]) <= |v.files[id]| == |nodes[id].chain| * clusterBytes
    ensures id in TreeOf(v, nodes).files && TreeOf(v, nodes).files[id] == v.files[id][..SizeOf(v.dirs[d][k])]
    ensures |nodes[id].chain| == Needed(clusterBytes, SizeOf(v.dirs[d][k]))
  {
    hide Allocated, EntriesStand, NodesPlaced, DirsOk, SizeOf, Needed;
    assert Volume.Sized(v, nodes, id, clusterBytes);
    TreeFiles(v, nodes);
    NeededEnough(clusterBytes, SizeOf(v.dirs[d][k]));
  }

  // Every listed file is there, with as many bytes as its entry says.
  ghost predicate WholeTree(t: Tree) {
    forall d: nat, i: nat :: d in t.dirs && i < |t.dirs[d]| ==> WholeEntry(t, t.dirs[d][i].entry)
  }

  ghost predicate WholeEntry(t: Tree, e: DirEntry) {
    !e.isDir ==> e.start in t.files && |t.files[e.start]| == e.size
  }

  lemma SoundTreeIsWhole(v: Vol, nodes: Nodes, clusterBytes: nat)
    requires clusterBytes > 0 && Inv(v, nodes, clusterBytes)
    ensures WholeTree(TreeOf(v, nodes))
  {
    hide Allocated, NodesPlaced, FilesSized, Listing, ListedAt, StartOf, SizeOf, DirHolds, WholeEntry;
    TreeDirs(v, nodes);
    forall d: nat, i: nat | d in v.dirs && i < |Listing(v.dirs[d])| ensures WholeEntry(TreeOf(v, nodes), Listing(v.dirs[d])[i].entry) {
      WholeSlot(v, nodes, clusterBytes, d, i);
    }
  }

  lemma WholeSlot(v: Vol, nodes: Nodes, clusterBytes: nat, d: nat, i: nat)
    requires clusterBytes > 0 && Inv(v, nodes, clusterBytes) && d in v.dirs && i < |Listing(v.dirs[d])|
    ensures WholeEntry(TreeOf(v, nodes), Listing(v.dirs[d])[i].entry)
  {
    hide Allocated, EntriesStand, NodesPlaced, FilesSized, DirsOk, StartOf, SizeOf, IsDir, IsShort, ListRange,
      ListedAt, TreeOf;
    var slots := v.dirs[d];
    var k := SlotOfIndex(slots, 0, |slots|, i);
    ListedStart(slots, k);
    if !IsDir(slots[k]) {
      if IsDot(d != 0, k) {
        DotsAnswer(v, nodes, clusterBytes, d, k, []);
        assert false;
      }
      EntryNode(v, nodes, clusterBytes, d, k);
      FileInTree(v, nodes, clusterBytes, d, k, StartOf(slots[k]));
    }
  }
}
