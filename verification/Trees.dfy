/** The abstract tree - a listing for every directory, bytes for every file - and what each of the
    driver's changes to a volume means on it. */
module Trees {
  import opened Bytes
  import opened ShortNames
  import opened LongNames
  import opened Directory
  import opened DirectoryUpdates
  import opened Chains
  import opened Volume
  import opened VolumeUpdates

  // ---- operations on trees

  function InsertAt(l: seq<Listed>, i: nat, e: Listed): seq<Listed>
    requires i <= |l|
  {
    l[..i] + [e] + l[i..]
  }

  function RemoveAt(l: seq<Listed>, i: nat): seq<Listed>
    requires i < |l|
  {
    l[..i] + l[i + 1..]
  }

  function WithFile(t: Tree, d: nat, i: nat, e: Listed, data: seq<byte>): Tree
    requires d in t.dirs && i <= |t.dirs[d]|
  {
    Tree(t.dirs[d := InsertAt(t.dirs[d], i, e)], t.files[e.entry.start := data])
  }

  function WithDir(t: Tree, d: nat, i: nat, e: Listed, dots: seq<Listed>): Tree
    requires d in t.dirs && i <= |t.dirs[d]|
  {
    Tree(t.dirs[d := InsertAt(t.dirs[d], i, e)][e.entry.start := dots], t.files)
  }

  function Without(t: Tree, d: nat, i: nat): Tree
    requires d in t.dirs && i < |t.dirs[d]|
  {
    var id := t.dirs[d][i].entry.start;
    Tree(t.dirs[d := RemoveAt(t.dirs[d], i)] - {id}, t.files - {id})
  }

  function Sized(e: Listed, size: nat): Listed {
    e.(entry := e.entry.(size := size))
  }

  function WithData(t: Tree, d: nat, i: nat, data: seq<byte>): Tree
    requires d in t.dirs && i < |t.dirs[d]|
  {
    var e := t.dirs[d][i];
    Tree(t.dirs[d := t.dirs[d][i := Sized(e, |data|)]], t.files[e.entry.start := data])
  }

  /** Removing what was just inserted gives back the tree. */
  lemma RemoveUndoesFile(t: Tree, d: nat, i: nat, e: Listed, data: seq<byte>)
    requires d in t.dirs && i <= |t.dirs[d]|
    requires e.entry.start !in t.dirs && e.entry.start !in t.files
    ensures Without(WithFile(t, d, i, e, data), d, i) == t
  {
    var l := t.dirs[d];
    assert RemoveAt(InsertAt(l, i, e), i) == l;
    var t' := Without(WithFile(t, d, i, e, data), d, i);
    assert t'.dirs == t.dirs;
    assert t'.files == t.files;
  }

  lemma RemoveUndoesDir(t: Tree, d: nat, i: nat, e: Listed, dots: seq<Listed>)
    requires d in t.dirs && i <= |t.dirs[d]|
    requires e.entry.start !in t.dirs && e.entry.start !in t.files
    ensures Without(WithDir(t, d, i, e, dots), d, i) == t
  {
    var l := t.dirs[d];
    assert RemoveAt(InsertAt(l, i, e), i) == l;
    var t' := Without(WithDir(t, d, i, e, dots), d, i);
    assert t'.dirs == t.dirs;
    assert t'.files == t.files;
  }

  // ---- names at the level of listings

  predicate AnswersTo(e: Listed, name: Name) {
    EqIgnoreCase(e.entry.name, name) || EqIgnoreCase(Format(e.short), name)
  }

  lemma AnswersToSlot(slots: seq<Slot>, k: nat, name: Name)
    requires k < |slots|
    ensures AnswersTo(ListedAt(slots, k), name) <==> Answers(slots, k, name)
  {
  }

  // The slot behind position `i` of a listing.
  ghost predicate ListedSlot(slots: seq<Slot>, lo: nat, hi: nat, i: nat, k: nat)
    requires lo <= hi <= |slots|
  {
    && lo <= k < hi && IsShort(slots[k])
    && |ListRange(slots, lo, k)| == i < |ListRange(slots, lo, hi)|
    && ListRange(slots, lo, hi)[i] == ListedAt(slots, k)
  }

  lemma {:induction false} SlotOfIndex(slots: seq<Slot>, lo: nat, hi: nat, i: nat) returns (k: nat)
    requires lo <= hi <= |slots| && i < |ListRange(slots, lo, hi)|
    ensures ListedSlot(slots, lo, hi, i, k)
  {
    hide ListedAt;
    if IsShort(slots[hi - 1]) && i == |ListRange(slots, lo, hi - 1)| {
      k := hi - 1;
    } else {
      k := SlotOfIndex(slots, lo, hi - 1, i);
    }
  }

  lemma {:induction false} IndexOfSlot(slots: seq<Slot>, k: nat, hi: nat)
    requires k < hi <= |slots| && IsShort(slots[k])
    ensures ListedSlot(slots, 0, hi, |ListRange(slots, 0, k)|, k)
  {
    hide ListedAt;
    if k < hi - 1 {
      IndexOfSlot(slots, k, hi - 1);
    }
  }

  /** In a kept directory no name, in whatever case, picks out two entries of the listing. */
  lemma ListingUnambiguous(slots: seq<Slot>, sub: bool, name: Name, i: nat, j: nat)
    requires DirOk(slots, sub) && i < |Listing(slots)| && j < |Listing(slots)|
    requires AnswersTo(Listing(slots)[i], name) && AnswersTo(Listing(slots)[j], name)
    ensures i == j
  {
    hide DirOk, ListedAt, Answers, AnswersTo;
    var k := SlotOfIndex(slots, 0, |slots|, i);
    var m := SlotOfIndex(slots, 0, |slots|, j);
    AnswersToSlot(slots, k, name);
    AnswersToSlot(slots, m, name);
    NamesUnambiguous(slots, sub, name, k, m);
  }

  /** A name is free exactly when no listed entry has it, in whatever case. */
  lemma NamesListed(slots: seq<Slot>, name: Name)
    requires Readable(slots)
    ensures (exists i :: 0 <= i < |Scan(slots)| && EqIgnoreCase(Scan(slots)[i].name, name)) <==>
            exists k :: 0 <= k < |slots| && IsShort(slots[k]) && EqIgnoreCase(NameAt(slots, k), name)
  {
    hide Scan, NameAt, EqIgnoreCase, IsShort;
    ScanIsListing(slots);
    forall i | 0 <= i < |Scan(slots)| && EqIgnoreCase(Scan(slots)[i].name, name)
      ensures exists k :: 0 <= k < |slots| && IsShort(slots[k]) && EqIgnoreCase(NameAt(slots, k), name)
    {
      var k := SlotOfIndex(slots, 0, |slots|, i);
      assert EqIgnoreCase(NameAt(slots, k), name);
    }
    forall k | 0 <= k < |slots| && IsShort(slots[k]) && EqIgnoreCase(NameAt(slots, k), name)
      ensures exists i :: 0 <= i < |Scan(slots)| && EqIgnoreCase(Scan(slots)[i].name, name)
    {
      IndexOfSlot(slots, k, |slots|);
      assert EqIgnoreCase(Scan(slots)[|ListRange(slots, 0, k)|].name, name);
    }
  }

  // ---- the effect of each change

  lemma TreeDirs(v: Vol, nodes: Nodes)
    ensures TreeOf(v, nodes).dirs.Keys == v.dirs.Keys
    ensures forall d :: d in v.dirs ==> TreeOf(v, nodes).dirs[d] == Listing(v.dirs[d])
  {
  }

  lemma TreeFiles(v: Vol, nodes: Nodes)
    requires Shaped(v, nodes)
    ensures TreeOf(v, nodes).files.Keys == v.files.Keys
    ensures forall n :: n in v.files ==> TreeOf(v, nodes).files[n] == Prefix(v.files[n], SizeIn(v.dirs, nodes[n]))
  {
  }

  // Volumes that agree on listings, file bytes and sizes show the same tree.
  lemma SameTree(v: Vol, nodes: Nodes, v': Vol, nodes': Nodes)
    requires Shaped(v, nodes) && Shaped(v', nodes') && v'.dirs.Keys == v.dirs.Keys && v'.files == v.files
    requires forall d :: d in v.dirs ==> Listing(v'.dirs[d]) == Listing(v.dirs[d])
    requires forall n :: n in v.files ==> SizeIn(v'.dirs, nodes'[n]) == SizeIn(v.dirs, nodes[n])
    ensures TreeOf(v', nodes') == TreeOf(v, nodes)
  {
    hide Listing, SizeIn, Prefix;
    var t, t' := TreeOf(v, nodes), TreeOf(v', nodes');
    assert t'.dirs == t.dirs;
    assert t'.files == t.files;
  }

  lemma SpliceList(slots: seq<Slot>, a: nat, group: seq<Slot>)
    requires Readable(slots) && Complete(slots) && FreeRun(slots, a, |group|) && GroupOk(group)
    ensures var i := |ListRange(slots, 0, a)|;
            i <= |Listing(slots)| && Listing(Splice(slots, a, group)) == InsertAt(Listing(slots), i, GroupListed(group))
  {
    FillListing(slots, a, group);
    hide GroupListed, Splice;
    var before, after := ListRange(slots, 0, a), ListRange(slots, a + |group|, |slots|);
    assert (before + after)[..|before|] == before && (before + after)[|before|..] == after;
  }

  lemma ClearList(slots: seq<Slot>, p: nat)
    requires p < |slots| && IsShort(slots[p])
    ensures var i := |ListRange(slots, 0, GroupStart(slots, p))|;
            && i < |Listing(slots)| && Listing(slots)[i] == ListedAt(slots, p)
            && Listing(Clear(slots, p)) == RemoveAt(Listing(slots), i)
  {
    ClearListing(slots, p);
    hide ListedAt, Clear;
    var before, after := ListRange(slots, 0, GroupStart(slots, p)), ListRange(slots, p + 1, |slots|);
    var l := before + [ListedAt(slots, p)] + after;
    assert l[..|before|] == before && l[|before| + 1..] == after;
  }

  lemma ResizeList(slots: seq<Slot>, p: nat, size: nat)
    requires p < |slots| && IsShort(slots[p]) && size < 0x1_0000_0000
    ensures var i := |ListRange(slots, 0, p)|;
            && i < |Listing(slots)| && Listing(slots)[i] == ListedAt(slots, p)
            && Listing(Resize(slots, p, size)) == Listing(slots)[i := Sized(ListedAt(slots, p), size)]
  {
    ResizeListing(slots, p, size);
    hide ListedAt, Resize;
    var before, after := ListRange(slots, 0, p), ListRange(slots, p + 1, |slots|);
    var e := ListedAt(slots, p);
    assert (before + [e] + after)[|before| := Sized(e, size)] == before + [Sized(e, size)] + after;
  }

  lemma AddedSizes(v: Vol, nodes: Nodes, clusterBytes: nat, v': Vol, nodes': Nodes, d: nat, a: nat, group: seq<Slot>,
                   node: Node)
    requires clusterBytes > 0 && Inv(v, nodes, clusterBytes) && CanAdd(v, nodes, v'.links, d, a, group, node)
    requires node.chain[0] !in nodes && node.chain[0] != 0 && nodes' == nodes[node.chain[0] := node]
    requires DirsExcept(v, v', d, {node.chain[0]}) && v'.dirs[d] == Splice(v.dirs[d], a, group)
    ensures group != [] && SizeIn(v'.dirs, node) == SizeOf(GroupShort(group))
    ensures forall n :: n in v.files ==> n in nodes && SizeIn(v'.dirs, nodes'[n]) == SizeIn(v.dirs, nodes[n])
  {
    hide DirOk, DirHolds, FreshGroup, Stands, Placed, Volume.Sized, StartOf, IsDir, Allocated, EntriesExcept,
      DirsExcept, Written, AllFree, SizeIn, SizeOf;
    assert DirHolds(v, nodes, d);
    AddInserted(v, nodes, v', nodes', d, a, group, node);
    assert d in v'.dirs && node.parent == d && node.pos == a + |group| - 1 by {
      DirStays(v, v', d, {node.chain[0]});
    }
    forall n | n in v.files ensures n in nodes && SizeIn(v'.dirs, nodes'[n]) == SizeIn(v.dirs, nodes[n]) {
      FileNotRoot(v, nodes, n);
      AddedSize(v, nodes, v', nodes', d, a + |group| - 1, node.chain[0], n);
    }
    NewSize(v'.dirs, v.dirs[d], d, a, group, node);
  }

  lemma DirStays(v: Vol, v': Vol, d: nat, ids: set<nat>)
    requires DirsExcept(v, v', d, ids)
    ensures d in v.dirs && d in v'.dirs
  {
  }

  lemma NewSize(dirs: map<nat, seq<Slot>>, slots: seq<Slot>, d: nat, a: nat, group: seq<Slot>, node: Node)
    requires a + |group| <= |slots| && group != [] && d in dirs && dirs[d] == Splice(slots, a, group)
    requires node.parent == d && node.pos == a + |group| - 1
    ensures SizeIn(dirs, node) == SizeOf(GroupShort(group))
  {
    assert dirs[d][a + |group| - 1] == group[|group| - 1];
  }

  lemma AddSplice(v: Vol, nodes: Nodes, d: nat, a: nat, group: seq<Slot>)
    requires d in v.dirs && DirHolds(v, nodes, d) && FreeRun(v.dirs[d], a, |group|) && FreshGroup(v.dirs[d], group)
    ensures var i := |ListRange(v.dirs[d], 0, a)|;
            && i <= |Listing(v.dirs[d])|
            && Listing(Splice(v.dirs[d], a, group)) == InsertAt(Listing(v.dirs[d]), i, GroupListed(group))
  {
    SpliceList(v.dirs[d], a, group);
  }

  lemma GroupEntryStart(group: seq<Slot>)
    requires group != []
    ensures GroupListed(group).entry.start == StartOf(GroupShort(group))
  {
  }

  // A tree is what its volume's listings and file bytes say, key by key.
  lemma TreeIs(v: Vol, nodes: Nodes, t: Tree)
    requires Shaped(v, nodes) && t.dirs.Keys == v.dirs.Keys && t.files.Keys == v.files.Keys
    requires forall d :: d in v.dirs ==> t.dirs[d] == Listing(v.dirs[d])
    requires forall n :: n in v.files ==> t.files[n] == Prefix(v.files[n], SizeIn(v.dirs, nodes[n]))
    ensures TreeOf(v, nodes) == t
  {
    hide Listing, Prefix, SizeIn;
    TreeDirs(v, nodes);
    TreeFiles(v, nodes);
    assert TreeOf(v, nodes).dirs == t.dirs;
    assert TreeOf(v, nodes).files == t.files;
  }

  lemma InsertTree(v: Vol, nodes: Nodes, v': Vol, nodes': Nodes, d: nat, slots: seq<Slot>, i: nat, e: Listed,
                   node: Node, raw: seq<byte>, fresh': seq<Slot>)
    requires Shaped(v, nodes) && Shaped(v', nodes') && d in v.dirs && i <= |Listing(v.dirs[d])|
    requires Listing(slots) == InsertAt(Listing(v.dirs[d]), i, e) && node.chain != [] && e.entry.start == node.chain[0]
    requires node.chain[0] !in nodes && nodes' == nodes[node.chain[0] := node]
    requires v'.dirs == if node.isDir then v.dirs[d := slots][node.chain[0] := fresh'] else v.dirs[d := slots]
    requires v'.files == if node.isDir then v.files else v.files[node.chain[0] := raw]
    requires forall n :: n in v.files ==> SizeIn(v'.dirs, nodes'[n]) == SizeIn(v.dirs, nodes[n])
    ensures d in TreeOf(v, nodes).dirs && i <= |TreeOf(v, nodes).dirs[d]|
    ensures TreeOf(v', nodes') ==
            if node.isDir then WithDir(TreeOf(v, nodes), d, i, e, Listing(fresh'))
            else WithFile(TreeOf(v, nodes), d, i, e, Prefix(raw, SizeIn(v'.dirs, node)))
  {
    hide Listing, Prefix, SizeIn, InsertAt;
    var t := TreeOf(v, nodes);
    TreeDirs(v, nodes);
    TreeFiles(v, nodes);
    TreeIs(v', nodes',
      if node.isDir then WithDir(t, d, i, e, Listing(fresh'))
      else WithFile(t, d, i, e, Prefix(raw, SizeIn(v'.dirs, node))));
  }

  lemma DeleteTree(v: Vol, nodes: Nodes, v': Vol, nodes': Nodes, d: nat, slots: seq<Slot>, i: nat, id: nat)
    requires Shaped(v, nodes) && Shaped(v', nodes') && d in v.dirs && d != id && i < |Listing(v.dirs[d])|
    requires Listing(slots) == RemoveAt(Listing(v.dirs[d]), i) && Listing(v.dirs[d])[i].entry.start == id
    requires nodes' == nodes - {id} && v'.dirs == v.dirs[d := slots] - {id} && v'.files == v.files - {id}
    requires forall n :: n in v.files && n != id ==> n in nodes && SizeIn(v'.dirs, nodes'[n]) == SizeIn(v.dirs, nodes[n])
    ensures d in TreeOf(v, nodes).dirs && i < |TreeOf(v, nodes).dirs[d]|
    ensures TreeOf(v', nodes') == Without(TreeOf(v, nodes), d, i)
  {
    hide Listing, Prefix, SizeIn, RemoveAt;
    TreeDirs(v, nodes);
    TreeFiles(v, nodes);
    TreeIs(v', nodes', Without(TreeOf(v, nodes), d, i));
  }

  lemma UpdateTree(v: Vol, nodes: Nodes, v': Vol, nodes': Nodes, d: nat, slots: seq<Slot>, i: nat, id: nat,
                   size: nat, raw: seq<byte>)
    requires Shaped(v, nodes) && Shaped(v', nodes') && d in v.dirs && i < |Listing(v.dirs[d])| && id in v.files
    requires Listing(slots) == Listing(v.dirs[d])[i := Sized(Listing(v.dirs[d])[i], size)]
    requires Listing(v.dirs[d])[i].entry.start == id && size <= |raw|
    requires id in nodes' && SizeIn(v'.dirs, nodes'[id]) == size
    requires v'.dirs == v.dirs[d := slots] && v'.files == v.files[id := raw]
    requires forall n :: n in v.files && n != id ==> n in nodes && SizeIn(v'.dirs, nodes'[n]) == SizeIn(v.dirs, nodes[n])
    ensures d in TreeOf(v, nodes).dirs && i < |TreeOf(v, nodes).dirs[d]|
    ensures TreeOf(v', nodes') == WithData(TreeOf(v, nodes), d, i, raw[..size])
  {
    hide Listing, SizeIn, Sized;
    TreeDirs(v, nodes);
    TreeFiles(v, nodes);
    TreeIs(v', nodes', WithData(TreeOf(v, nodes), d, i, raw[..size]));
  }

  lemma AddFacts(v: Vol, nodes: Nodes, clusterBytes: nat, links: seq<nat>, d: nat, a: nat, group: seq<Slot>,
                 node: Node, fresh': seq<Slot>, raw: seq<byte>)
    requires clusterBytes > 0 && Inv(v, nodes, clusterBytes) && CanAdd(v, nodes, links, d, a, group, node)
    ensures var v', nodes' := Added(v, links, d, a, group, node, fresh', raw), nodes[node.chain[0] := node];
            && Shaped(v, nodes) && Shaped(v', nodes') && node.chain[0] !in nodes
            && v'.dirs[d] == Splice(v.dirs[d], a, group) && group != []
            && |ListRange(v.dirs[d], 0, a)| <= |Listing(v.dirs[d])|
            && Listing(v'.dirs[d]) == InsertAt(Listing(v.dirs[d]), |ListRange(v.dirs[d], 0, a)|, GroupListed(group))
            && GroupListed(group).entry.start == node.chain[0]
            && SizeIn(v'.dirs, node) == SizeOf(GroupShort(group))
            && forall n :: n in v.files ==> SizeIn(v'.dirs, nodes'[n]) == SizeIn(v.dirs, nodes[n])
  {
    hide DirOk, DirHolds, FreshGroup, Stands, Placed, Volume.Sized, StartOf, IsDir, Allocated, DirsExcept, Added,
      Written, AllFree, SizeIn, SizeOf, Splice, Listing, GroupListed, EntrySlot, InsertAt, Shaped;
    var v', nodes' := Added(v, links, d, a, group, node, fresh', raw), nodes[node.chain[0] := node];
    AddBase(v, nodes, links, d, a, group, node, fresh', raw);
    assert v'.links == links by {
      AddedLinks(v, links, d, a, group, node, fresh', raw);
    }
    AddedSizes(v, nodes, clusterBytes, v', nodes', d, a, group, node);
    assert DirHolds(v, nodes, d);
    AddSplice(v, nodes, d, a, group);
    GroupEntryStart(group);
  }

  lemma AddedLinks(v: Vol, links: seq<nat>, d: nat, a: nat, group: seq<Slot>, node: Node,
                   fresh': seq<Slot>, raw: seq<byte>)
    requires d in v.dirs && a + |group| <= |v.dirs[d]| && node.chain != []
    ensures Added(v, links, d, a, group, node, fresh', raw).links == links
  {
  }

  /** A created file is one more entry in its directory and one more file with exactly its bytes;
      nothing else in the tree changes. */
  lemma AddFileTree(v: Vol, nodes: Nodes, clusterBytes: nat, links: seq<nat>, d: nat, a: nat, group: seq<Slot>,
                    node: Node, raw: seq<byte>)
    requires clusterBytes > 0 && Inv(v, nodes, clusterBytes) && CanAdd(v, nodes, links, d, a, group, node)
    requires !node.isDir
    ensures var i, t := |ListRange(v.dirs[d], 0, a)|, TreeOf(v, nodes);
            && d in t.dirs && i <= |t.dirs[d]| && group != []
            && TreeOf(Added(v, links, d, a, group, node, [], raw), nodes[node.chain[0] := node])
               == WithFile(t, d, i, GroupListed(group), Prefix(raw, SizeOf(GroupShort(group))))
  {
    AddFacts(v, nodes, clusterBytes, links, d, a, group, node, [], raw);
    hide Inv, Shaped, SizeIn, SizeOf, Listing, GroupListed, InsertAt, FreshGroup, Splice, Written, AllFree, StartOf;
    InsertTree(v, nodes, Added(v, links, d, a, group, node, [], raw), nodes[node.chain[0] := node], d,
      Splice(v.dirs[d], a, group), |ListRange(v.dirs[d], 0, a)|, GroupListed(group), node, raw, []);
  }

  /** A created directory is one more entry in its parent and one more directory holding its dots. */
  lemma AddDirTree(v: Vol, nodes: Nodes, clusterBytes: nat, links: seq<nat>, d: nat, a: nat, group: seq<Slot>,
                   node: Node, fresh': seq<Slot>)
    requires clusterBytes > 0 && Inv(v, nodes, clusterBytes) && CanAdd(v, nodes, links, d, a, group, node)
    requires node.isDir
    ensures var i, t := |ListRange(v.dirs[d], 0, a)|, TreeOf(v, nodes);
            && d in t.dirs && i <= |t.dirs[d]| && group != []
            && TreeOf(Added(v, links, d, a, group, node, fresh', []), nodes[node.chain[0] := node])
               == WithDir(t, d, i, GroupListed(group), Listing(fresh'))
  {
    AddFacts(v, nodes, clusterBytes, links, d, a, group, node, fresh', []);
    hide Inv, Shaped, SizeIn, SizeOf, Listing, GroupListed, InsertAt, FreshGroup, Splice, Written, AllFree, StartOf;
    InsertTree(v, nodes, Added(v, links, d, a, group, node, fresh', []), nodes[node.chain[0] := node], d,
      Splice(v.dirs[d], a, group), |ListRange(v.dirs[d], 0, a)|, GroupListed(group), node, [], fresh');
  }

  lemma RemovedSizes(v: Vol, nodes: Nodes, clusterBytes: nat, v': Vol, nodes': Nodes, id: nat)
    requires clusterBytes > 0 && Inv(v, nodes, clusterBytes) && Leaf(v, id) && id in nodes && id != 0
    requires Placed(v, nodes, id) && nodes' == nodes - {id} && NodesExcept(nodes, nodes', {id})
    requires DirsExcept(v, v', nodes[id].parent, {id})
    requires nodes[id].parent in v'.dirs && nodes[id].parent in v.dirs && nodes[id].pos < |v.dirs[nodes[id].parent]|
    requires v'.dirs[nodes[id].parent] == Clear(v.dirs[nodes[id].parent], nodes[id].pos)
    ensures forall n :: n in v.files && n != id ==> n in nodes && SizeIn(v'.dirs, nodes'[n]) == SizeIn(v.dirs, nodes[n])
  {
    hide DirOk, DirHolds, Stands, Allocated, EntriesExcept, DirsExcept, NodesExcept, SizeIn, StartOf, IsShort, Leaf,
      Volume.Sized, Clear;
    var d, p := nodes[id].parent, nodes[id].pos;
    ClearEntries(v.dirs[d], p);
    OnlyAt(v, nodes, id);
    forall n | n in v.files && n != id
      ensures n in nodes && SizeIn(v'.dirs, nodes'[n]) == SizeIn(v.dirs, nodes[n])
    {
      FileNotRoot(v, nodes, n);
      LeafHasNoChild(v, nodes, id, n);
      SizesCarry(v, nodes, v', nodes', d, p, {id}, n);
    }
  }

  /** A deleted node is gone from its directory and from the tree; nothing else changes. */
  lemma RemoveTree(v: Vol, nodes: Nodes, clusterBytes: nat, links: seq<nat>, id: nat)
    requires clusterBytes > 0 && Inv(v, nodes, clusterBytes) && Leaf(v, id)
    requires id in nodes && id != 0 && Freed(v.links, links, nodes[id].chain)
    ensures Placed(v, nodes, id)
    ensures var d, p, t := nodes[id].parent, nodes[id].pos, TreeOf(v, nodes);
            var i := |ListRange(v.dirs[d], 0, GroupStart(v.dirs[d], p))|;
            && d in t.dirs && i < |t.dirs[d]| && t.dirs[d][i] == ListedAt(v.dirs[d], p)
            && TreeOf(Removed(v, links, d, p, id), nodes - {id}) == Without(t, d, i)
  {
    hide DirOk, DirHolds, Stands, Volume.Sized, Clear, IsDir, Allocated, EntriesExcept, DirsExcept, Freed, Leaf,
      SizeIn, Listing, Prefix, ListedAt, IsShort;
    RemoveBase(v, nodes, links, id);
    var d, p := nodes[id].parent, nodes[id].pos;
    var v', nodes' := Removed(v, links, d, p, id), nodes - {id};
    RemovedSizes(v, nodes, clusterBytes, v', nodes', id);
    ClearList(v.dirs[d], p);
    ListedStart(v.dirs[d], p);
    assert Shaped(v, nodes);
    hide Inv, Shaped, GroupStart, RemoveAt;
    DeleteTree(v, nodes, v', nodes', d, Clear(v.dirs[d], p), |ListRange(v.dirs[d], 0, GroupStart(v.dirs[d], p))|, id);
  }

  lemma ListedStart(slots: seq<Slot>, k: nat)
    requires k < |slots|
    ensures ListedAt(slots, k).entry.start == StartOf(slots[k])
    ensures ListedAt(slots, k).short == ShortOf(slots[k]) && ListedAt(slots, k).entry.isDir == IsDir(slots[k])
    ensures ListedAt(slots, k).entry.size == SizeOf(slots[k]) && ListedAt(slots, k).entry.name == NameAt(slots, k)
    ensures ListedAt(slots, k).span == LongBefore(slots, k) + 1
  {
  }

  lemma RewrittenSizes(v: Vol, nodes: Nodes, clusterBytes: nat, v': Vol, nodes': Nodes, id: nat, size: nat)
    requires clusterBytes > 0 && Inv(v, nodes, clusterBytes) && id in nodes && id != 0 && size < 0x1_0000_0000
    requires Placed(v, nodes, id) && NodesExcept(nodes, nodes', {}) && DirsExcept(v, v', nodes[id].parent, {})
    requires v'.dirs[nodes[id].parent] == Resize(v.dirs[nodes[id].parent], nodes[id].pos, size)
    ensures SizeIn(v'.dirs, nodes'[id]) == size
    ensures forall n :: n in v.files && n != id ==> n in nodes && SizeIn(v'.dirs, nodes'[n]) == SizeIn(v.dirs, nodes[n])
  {
    hide DirOk, DirHolds, Stands, Allocated, EntriesExcept, StartOf, IsShort, Resize, Volume.Sized, SizeOf;
    var d, p := nodes[id].parent, nodes[id].pos;
    ResizeEntries(v.dirs[d], p, size);
    OnlyAt(v, nodes, id);
    assert id in nodes' && SameIdentity(nodes[id], nodes'[id]);
    forall n | n in v.files && n != id
      ensures n in nodes && SizeIn(v'.dirs, nodes'[n]) == SizeIn(v.dirs, nodes[n])
    {
      FileNotRoot(v, nodes, n);
      SizesCarry(v, nodes, v', nodes', d, p, {}, n);
    }
  }

  /** A rewritten file has exactly its new bytes and its new size in the listing; nothing else changes. */
  lemma RewriteTree(v: Vol, nodes: Nodes, clusterBytes: nat, links: seq<nat>, id: nat, ch: seq<nat>, size: nat,
                    raw: seq<byte>)
    requires clusterBytes > 0 && Inv(v, nodes, clusterBytes)
    requires id in nodes && id in v.files && size < 0x1_0000_0000 && size <= |raw|
    requires ch != [] && ch[0] == id && NoRepeat(ch) && Available(v.links, nodes, id, ch)
    requires Rechained(v.links, links, nodes[id].chain, ch)
    ensures Placed(v, nodes, id)
    ensures var d, p, t := nodes[id].parent, nodes[id].pos, TreeOf(v, nodes);
            var i := |ListRange(v.dirs[d], 0, p)|;
            && d in t.dirs && i < |t.dirs[d]| && t.dirs[d][i] == ListedAt(v.dirs[d], p)
            && TreeOf(Rewritten(v, links, d, p, size, id, raw), nodes[id := nodes[id].(chain := ch)])
               == WithData(t, d, i, raw[..size])
  {
    hide DirOk, DirHolds, Stands, Volume.Sized, Resize, IsDir, Allocated, EntriesExcept, DirsExcept, Rechained,
      SizeIn, Listing, Prefix, ListedAt, IsShort, Available, NoRepeat;
    RewriteBase(v, nodes, links, id, ch, size, raw);
    var d, p := nodes[id].parent, nodes[id].pos;
    var v', nodes' := Rewritten(v, links, d, p, size, id, raw), nodes[id := nodes[id].(chain := ch)];
    RewrittenSizes(v, nodes, clusterBytes, v', nodes', id, size);
    ResizeList(v.dirs[d], p, size);
    ListedStart(v.dirs[d], p);
    assert Shaped(v, nodes);
    hide Inv, Shaped, Sized;
    UpdateTree(v, nodes, v', nodes', d, Resize(v.dirs[d], p, size), |ListRange(v.dirs[d], 0, p)|, id, size, raw);
  }

  /** Growing a directory is invisible in the tree. */
  lemma GrowTree(v: Vol, nodes: Nodes, clusterBytes: nat, links: seq<nat>, d: nat, c: nat, n: nat)
    requires clusterBytes > 0 && Inv(v, nodes, clusterBytes) && n > 0
    requires d in v.dirs && d in nodes && d != 0 && IsFreeCluster(v.links, c)
    requires Rechained(v.links, links, nodes[d].chain, nodes[d].chain + [c])
    ensures TreeOf(GrownDir(v, links, d, n), nodes[d := nodes[d].(chain := nodes[d].chain + [c])]) == TreeOf(v, nodes)
  {
    hide DirOk, Stands, Placed, Volume.Sized, Allocated, EntriesExcept, DirsExcept, Rechained, IsShort, DirHolds,
      SizeIn, Listing, EntrySlot;
    var v', nodes' := GrownDir(v, links, d, n), nodes[d := nodes[d].(chain := nodes[d].chain + [c])];
    GrowBase(v, nodes, links, d, c, n);
    assert DirHolds(v, nodes, d);
    GrowDirHolds(v, nodes, v', nodes', d, n);
    assert Shaped(v, nodes);
    forall m | m in v.files ensures SizeIn(v'.dirs, nodes'[m]) == SizeIn(v.dirs, nodes[m]) {
      FileNotRoot(v, nodes, m);
      NotAtEnd(v, nodes, d, m);
      SizesCarry(v, nodes, v', nodes', d, |v.dirs[d]|, {}, m);
    }
    assert Listing(v'.dirs[d]) == Listing(v.dirs[d]) by {
      GrownListing(v, nodes, d, n);
    }
    hide Inv;
    SameTree(v, nodes, v', nodes');
  }

  lemma NotAtEnd(v: Vol, nodes: Nodes, d: nat, n: nat)
    requires NodesPlaced(v, nodes) && n in nodes && n != 0 && d in v.dirs
    ensures !(nodes[n].parent == d && nodes[n].pos == |v.dirs[d]|)
  {
    hide EntrySlot, StartOf;
    assert Placed(v, nodes, n);
  }

  lemma GrownListing(v: Vol, nodes: Nodes, d: nat, n: nat)
    requires d in v.dirs && DirHolds(v, nodes, d)
    ensures Listing(v.dirs[d] + Zeroed(n)) == Listing(v.dirs[d])
  {
    GrowDirOk(v.dirs[d], d != 0, n);
  }
}
