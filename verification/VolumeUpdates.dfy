/** The four ways the driver changes a volume - adding, removing, rewriting a node, and growing a
    directory - each of which keeps the invariant and has one plain effect on the tree. */
module VolumeUpdates {
  import opened Bytes
  import opened LongNames
  import opened Directory
  import opened DirectoryUpdates
  import opened Chains
  import opened Volume

  // ---- what a change to one directory leaves alone

  // Only directory `d` changed; the nodes `ids` may come or go.
  ghost predicate DirsExcept(v: Vol, v': Vol, d: nat, ids: set<nat>) {
    && d in v.dirs && d in v'.dirs && d !in ids
    && (forall x :: x in v.dirs && x !in ids ==> x in v'.dirs)
    && (forall x :: x in v'.dirs && x !in ids ==> x in v.dirs)
    && (forall x :: x in v.dirs && x !in ids && x != d ==> v'.dirs[x] == v.dirs[x])
  }

  ghost predicate SameIdentity(a: Node, b: Node) {
    a.parent == b.parent && a.pos == b.pos && a.depth == b.depth && a.isDir == b.isDir
  }

  ghost predicate NodesExcept(nodes: Nodes, nodes': Nodes, ids: set<nat>) {
    && (forall n :: n in nodes && n !in ids ==> n in nodes' && SameIdentity(nodes[n], nodes'[n]))
    && (forall n :: n in nodes' && n !in ids ==> n in nodes)
  }

  // Slot `k` still points at the same node.
  ghost predicate SameTarget(a: seq<Slot>, b: seq<Slot>, k: nat) {
    && k < |a| && k < |b| && IsShort(a[k]) && IsShort(b[k])
    && StartOf(a[k]) == StartOf(b[k]) && IsDir(a[k]) == IsDir(b[k])
  }

  ghost predicate SameSize(a: seq<Slot>, b: seq<Slot>, k: nat) {
    k < |a| && k < |b| && SizeOf(a[k]) == SizeOf(b[k])
  }

  // `b` holds the short entries of `a`, at the same slots, apart from slot `p`.
  ghost predicate EntriesExcept(a: seq<Slot>, b: seq<Slot>, p: nat) {
    && (forall k :: 0 <= k < |b| && IsShort(b[k]) && k != p ==> SameTarget(a, b, k))
    && (forall k :: 0 <= k < |a| && IsShort(a[k]) && k != p ==> SameTarget(a, b, k) && SameSize(a, b, k))
  }

  lemma DirsCarry(v: Vol, nodes: Nodes, v': Vol, nodes': Nodes, d: nat, ids: set<nat>)
    requires DirsOk(v, nodes) && DirsExcept(v, v', d, ids) && NodesExcept(nodes, nodes', ids)
    requires DirHolds(v', nodes', d)
    requires forall x :: x in v'.dirs && x in ids ==> DirHolds(v', nodes', x)
    ensures DirsOk(v', nodes')
  {
    hide DirOk;
    forall x | x in v'.dirs ensures DirHolds(v', nodes', x) {
      assert x != d && x !in ids ==> DirHolds(v, nodes, x);
    }
  }

  lemma DotsCarry(v: Vol, nodes: Nodes, v': Vol, nodes': Nodes, d: nat)
    requires d in v.dirs && d in v'.dirs && DirHolds(v, nodes, d) && DirOk(v'.dirs[d], d != 0)
    requires d in nodes ==> d in nodes' && nodes'[d].parent == nodes[d].parent
    requires d != 0 ==> |v.dirs[d]| >= 2 && |v'.dirs[d]| >= 2
    requires d != 0 ==> SameTarget(v.dirs[d], v'.dirs[d], 0) && SameTarget(v.dirs[d], v'.dirs[d], 1)
    ensures DirHolds(v', nodes', d)
  {
    hide Readable, Complete, Checked, StartOf, IsDir, IsShort;
  }

  lemma StandsCarry(v: Vol, nodes: Nodes, v': Vol, nodes': Nodes, d: nat, p: nat, ids: set<nat>)
    requires EntriesStand(v, nodes) && DirsExcept(v, v', d, ids) && NodesExcept(nodes, nodes', ids)
    requires EntriesExcept(v.dirs[d], v'.dirs[d], p)
    requires p < |v'.dirs[d]| && EntrySlot(v', d, p) ==> Stands(v', nodes', d, p)
    requires forall x, k :: x in v'.dirs && x in ids && 0 <= k < |v'.dirs[x]| ==> !EntrySlot(v', x, k)
    requires forall n :: n in ids && n in nodes ==> nodes[n].parent == d && nodes[n].pos == p
    ensures EntriesStand(v', nodes')
  {
    hide IsShort, StartOf, IsDir;
    forall x, k | x in v'.dirs && 0 <= k < |v'.dirs[x]| && EntrySlot(v', x, k) ensures Stands(v', nodes', x, k) {
      if x != d || k != p {
        assert x == d ==> SameTarget(v.dirs[x], v'.dirs[x], k);
        assert EntrySlot(v, x, k);
        assert Stands(v, nodes, x, k);
      }
    }
  }

  // A node keeps its place when its parent keeps its short entries.
  lemma PlacesCarry(v: Vol, nodes: Nodes, v': Vol, nodes': Nodes, d: nat, p: nat, ids: set<nat>)
    requires NodesPlaced(v, nodes) && DirsExcept(v, v', d, ids) && NodesExcept(nodes, nodes', ids)
    requires EntriesExcept(v.dirs[d], v'.dirs[d], p)
    requires forall n :: n in nodes' && n in ids && n != 0 ==> Placed(v', nodes', n)
    requires forall n :: n in nodes && n !in ids && n != 0 ==>
               nodes[n].parent !in ids && (nodes[n].parent == d && nodes[n].pos == p ==> Placed(v', nodes', n))
    ensures NodesPlaced(v', nodes')
  {
    hide IsShort, StartOf, IsDir;
    forall n | n in nodes' && n != 0 ensures Placed(v', nodes', n) {
      if n !in ids && !(nodes[n].parent == d && nodes[n].pos == p) {
        assert Placed(v, nodes, n);
        assert nodes[n].parent == d ==> SameTarget(v.dirs[d], v'.dirs[d], nodes[n].pos);
      }
    }
  }

  lemma SizesCarry(v: Vol, nodes: Nodes, v': Vol, nodes': Nodes, d: nat, p: nat, ids: set<nat>, n: nat)
    requires NodesPlaced(v, nodes) && DirsExcept(v, v', d, ids) && NodesExcept(nodes, nodes', ids)
    requires EntriesExcept(v.dirs[d], v'.dirs[d], p)
    requires n in nodes && n !in ids && n != 0 && nodes[n].parent !in ids
    requires !(nodes[n].parent == d && nodes[n].pos == p)
    ensures SizeIn(v'.dirs, nodes'[n]) == SizeIn(v.dirs, nodes[n])
  {
    hide IsShort, SizeOf;
    assert Placed(v, nodes, n);
    assert nodes[n].parent == d ==> SameSize(v.dirs[d], v'.dirs[d], nodes[n].pos);
  }

  lemma FilesCarry(v: Vol, nodes: Nodes, v': Vol, nodes': Nodes, id: nat, clusterBytes: nat)
    requires clusterBytes > 0 && FilesSized(v, nodes, clusterBytes)
    requires forall n :: n in v'.files && n != id ==>
               n in v.files && v'.files[n] == v.files[n] && n in nodes' &&
               (n in nodes ==> nodes'[n].chain == nodes[n].chain && SizeIn(v'.dirs, nodes'[n]) == SizeIn(v.dirs, nodes[n]))
    requires id in v'.files ==> id in nodes' && Sized(v', nodes', id, clusterBytes)
    ensures FilesSized(v', nodes', clusterBytes)
  {
    forall n | n in v'.files ensures n in nodes' && Sized(v', nodes', n, clusterBytes) {
      assert n != id ==> Sized(v, nodes, n, clusterBytes);
    }
  }

  // ---- the entries of one directory before and after a change

  lemma SpliceEntries(slots: seq<Slot>, a: nat, group: seq<Slot>)
    requires EndMarker(slots) && Complete(slots) && FreeRun(slots, a, |group|) && GroupOk(group)
    ensures EntriesExcept(slots, Splice(slots, a, group), a + |group| - 1)
    ensures !IsShort(slots[a + |group| - 1])
  {
    var full := Splice(slots, a, group);
    FillPlaces(slots, a, group);
    hide FreeRun, EndMarker, Complete, GroupOk, Splice, IsShort, StartOf, IsDir, SizeOf;
    forall k | 0 <= k < |full| && IsShort(full[k]) && k != a + |group| - 1 ensures SameTarget(slots, full, k) {
      assert SameAt(slots, full, k);
    }
    forall k | 0 <= k < |slots| && IsShort(slots[k])
      ensures SameTarget(slots, full, k) && SameSize(slots, full, k)
    {
      assert SameAt(slots, full, k);
    }
  }

  lemma ClearEntries(slots: seq<Slot>, p: nat)
    requires p < |slots| && IsShort(slots[p])
    ensures EntriesExcept(slots, Clear(slots, p), p) && !IsShort(Clear(slots, p)[p])
  {
    var after := Clear(slots, p);
    ClearSame(slots, p);
    hide Clear, StartOf, IsDir, SizeOf;
    forall k | 0 <= k < |slots| && k != p && (IsShort(after[k]) || IsShort(slots[k]))
      ensures SameTarget(slots, after, k) && SameSize(slots, after, k)
    {
      assert SameAt(slots, after, k);
    }
  }

  lemma ResizeEntries(slots: seq<Slot>, p: nat, size: nat)
    requires p < |slots| && IsShort(slots[p]) && size < 0x1_0000_0000
    ensures EntriesExcept(slots, Resize(slots, p, size), p)
    ensures SameTarget(slots, Resize(slots, p, size), p) && SizeOf(Resize(slots, p, size)[p]) == size
  {
    var after := Resize(slots, p, size);
    WithSizeKeeps(slots[p], size);
    hide WithSize, StartOf, IsDir, SizeOf, IsShort;
    forall k | 0 <= k < |slots| && k != p && IsShort(slots[k])
      ensures SameTarget(slots, after, k) && SameSize(slots, after, k)
    {
    }
  }

  lemma GrowEntries(slots: seq<Slot>, n: nat)
    ensures EntriesExcept(slots, slots + Zeroed(n), |slots|)
    ensures forall k :: |slots| <= k < |slots| + n ==> !IsShort((slots + Zeroed(n))[k])
  {
    hide StartOf, IsDir, SizeOf, Zeroed;
    var after := slots + Zeroed(n);
    ZeroedIsEnd(n);
    forall k | |slots| <= k < |after| ensures !IsShort(after[k]) {
      assert after[k] == Zeroed(n)[k - |slots|];
    }
    hide IsShort;
    forall k | 0 <= k < |slots| && IsShort(slots[k])
      ensures SameTarget(slots, after, k) && SameSize(slots, after, k)
    {
      assert after[k] == slots[k];
    }
    forall k | 0 <= k < |after| && IsShort(after[k]) && k != |slots| ensures SameTarget(slots, after, k) {
      assert k < |slots| && after[k] == slots[k];
    }
  }

  lemma ZeroedIsEnd(n: nat)
    ensures forall k :: 0 <= k < n ==> IsEnd(Zeroed(n)[k])
  {
  }

  // ---- adding a file or directory

  function Added(v: Vol, links: seq<nat>, d: nat, a: nat, group: seq<Slot>, node: Node,
                 fresh': seq<Slot>, raw: seq<byte>): Vol
    requires d in v.dirs && a + |group| <= |v.dirs[d]| && node.chain != []
  {
    var dirs := v.dirs[d := Splice(v.dirs[d], a, group)];
    if node.isDir then Vol(links, dirs[node.chain[0] := fresh'], v.files)
    else Vol(links, dirs, v.files[node.chain[0] := raw])
  }

  // What the driver has established when it comes to write the new entry.
  ghost predicate CanAdd(v: Vol, nodes: Nodes, links: seq<nat>, d: nat, a: nat, group: seq<Slot>, node: Node) {
    && d in v.dirs && d in nodes
    && FreeRun(v.dirs[d], a, |group|) && FreshGroup(v.dirs[d], group)
    && node.chain != [] && NoRepeat(node.chain) && AllFree(v.links, node.chain)
    && Written(v.links, links, node.chain, |node.chain|)
    && node.parent == d && node.pos == a + |group| - 1 && node.depth == nodes[d].depth + 1
    && StartOf(GroupShort(group)) == node.chain[0] && IsDir(GroupShort(group)) == node.isDir
  }

  ghost predicate FreshDirFor(fresh': seq<Slot>, id: nat, parent: nat) {
    && FreshDir(fresh')
    && IsDir(fresh'[0]) && StartOf(fresh'[0]) == id
    && IsDir(fresh'[1]) && StartOf(fresh'[1]) == parent
  }

  ghost predicate FreshContent(node: Node, group: seq<Slot>, fresh': seq<Slot>, raw: seq<byte>, clusterBytes: nat)
    requires node.chain != [] && group != [] && clusterBytes > 0
  {
    if node.isDir then FreshDirFor(fresh', node.chain[0], node.parent)
    else
      && |node.chain| == Needed(clusterBytes, SizeOf(GroupShort(group)))
      && |raw| == |node.chain| * clusterBytes
  }

  lemma WrittenIsRechained(before: seq<nat>, after: seq<nat>, ch: seq<nat>)
    requires Written(before, after, ch, |ch|)
    ensures Rechained(before, after, [], ch)
  {
    assert ch[..|ch|] == ch;
  }

  lemma FreshDirHolds(v: Vol, nodes: Nodes, id: nat, parent: nat)
    requires id in v.dirs && id in nodes && id != 0 && nodes[id].parent == parent
    requires FreshDirFor(v.dirs[id], id, parent)
    ensures DirHolds(v, nodes, id)
    ensures forall k :: 0 <= k < |v.dirs[id]| ==> !EntrySlot(v, id, k)
  {
    FreshDirNames(v.dirs[id]);
    hide DirOk;
  }

  lemma AddDirHolds(v: Vol, nodes: Nodes, v': Vol, nodes': Nodes, d: nat, a: nat, group: seq<Slot>)
    requires d in v.dirs && d in nodes && DirHolds(v, nodes, d)
    requires FreeRun(v.dirs[d], a, |group|) && FreshGroup(v.dirs[d], group)
    requires d in v'.dirs && v'.dirs[d] == Splice(v.dirs[d], a, group)
    requires d in nodes' && nodes'[d].parent == nodes[d].parent
    ensures DirHolds(v', nodes', d) && !IsDot(d != 0, a)
    ensures EntriesExcept(v.dirs[d], v'.dirs[d], a + |group| - 1) && !IsShort(v.dirs[d][a + |group| - 1])
    ensures v'.dirs[d][a + |group| - 1] == GroupShort(group) && IsShort(GroupShort(group))
  {
    FillDirOk(v.dirs[d], d != 0, a, group);
    SpliceEntries(v.dirs[d], a, group);
    FilledEntry(v.dirs[d], a, group);
    DotsCarry(v, nodes, v', nodes', d);
  }

  // What an addition did to the one directory it wrote to: a new entry at `p` for the node `id`.
  ghost predicate Inserted(v: Vol, nodes: Nodes, v': Vol, nodes': Nodes, d: nat, p: nat, id: nat) {
    && DirsExcept(v, v', d, {id}) && id !in nodes && id != 0
    && id in nodes' && nodes' == nodes[id := nodes'[id]]
    && EntriesExcept(v.dirs[d], v'.dirs[d], p) && !(p < |v.dirs[d]| && IsShort(v.dirs[d][p]))
    && nodes'[id].parent == d && nodes'[id].pos == p && d in nodes && nodes'[id].depth == nodes[d].depth + 1
    && p < |v'.dirs[d]| && EntrySlot(v', d, p)
    && StartOf(v'.dirs[d][p]) == id && IsDir(v'.dirs[d][p]) == nodes'[id].isDir
  }

  // The invariant after an addition.
  lemma AddKeeps(v: Vol, nodes: Nodes, v': Vol, nodes': Nodes, d: nat, p: nat, id: nat, clusterBytes: nat)
    requires clusterBytes > 0 && Inv(v, nodes, clusterBytes)
    requires Shaped(v', nodes') && Allocated(v'.links, nodes')
    requires Inserted(v, nodes, v', nodes', d, p, id)
    requires DirHolds(v', nodes', d) && (id in v'.dirs ==> DirHolds(v', nodes', id))
    requires forall k :: id in v'.dirs && 0 <= k < |v'.dirs[id]| ==> !EntrySlot(v', id, k)
    requires forall n :: n in v'.files && n != id ==> n in v.files && v'.files[n] == v.files[n]
    requires id in v'.files ==> Sized(v', nodes', id, clusterBytes)
    ensures Inv(v', nodes', clusterBytes)
  {
    hide Shaped, Allocated, EntriesExcept, IsShort, IsDir, StartOf, DirHolds, Sized, DirOk, Stands, Placed;
    DirsCarry(v, nodes, v', nodes', d, {id});
    AddEntries(v, nodes, v', nodes', d, p, id);
    AddFiles(v, nodes, v', nodes', d, p, id, clusterBytes);
  }

  lemma AddShaped(v: Vol, nodes: Nodes, links: seq<nat>, d: nat, a: nat, group: seq<Slot>,
                  node: Node, fresh': seq<Slot>, raw: seq<byte>)
    requires Shaped(v, nodes) && d in v.dirs && a + |group| <= |v.dirs[d]| && node.chain != []
    requires node.chain[0] !in nodes && node.chain[0] != 0 && |links| == |v.links|
    ensures var v' := Added(v, links, d, a, group, node, fresh', raw);
            && Shaped(v', nodes[node.chain[0] := node]) && DirsExcept(v, v', d, {node.chain[0]})
            && v'.dirs[d] == Splice(v.dirs[d], a, group) && node.chain[0] !in v.files && node.chain[0] !in v.dirs
  {
    hide Splice;
  }

  lemma AddBase(v: Vol, nodes: Nodes, links: seq<nat>, d: nat, a: nat, group: seq<Slot>,
                node: Node, fresh': seq<Slot>, raw: seq<byte>)
    requires Shaped(v, nodes) && Allocated(v.links, nodes) && CanAdd(v, nodes, links, d, a, group, node)
    ensures node.chain[0] !in nodes && node.chain[0] >= 2
    ensures node.chain[0] !in v.files && node.chain[0] !in v.dirs
    ensures var v', nodes' := Added(v, links, d, a, group, node, fresh', raw), nodes[node.chain[0] := node];
            && Shaped(v', nodes') && Allocated(v'.links, nodes') && DirsExcept(v, v', d, {node.chain[0]})
            && v'.dirs[d] == Splice(v.dirs[d], a, group)
  {
    hide FreshGroup, GroupShort, StartOf, IsDir, Splice;
    FreshNode(v.links, nodes, node.chain);
    AddShaped(v, nodes, links, d, a, group, node, fresh', raw);
    WrittenIsRechained(v.links, links, node.chain);
    hide FreeRun, AllFree, Written, Rechained, DirsExcept, Shaped, NoLeak, Disjoint, Chained, Added;
    assert nodes[0].chain == [];
    SetAllocated(v.links, links, nodes, node.chain[0], node);
  }

  /** Creating a file or directory keeps the whole invariant. */
  lemma AddInv(v: Vol, nodes: Nodes, clusterBytes: nat, links: seq<nat>, d: nat, a: nat, group: seq<Slot>,
               node: Node, fresh': seq<Slot>, raw: seq<byte>)
    requires clusterBytes > 0 && Inv(v, nodes, clusterBytes) && CanAdd(v, nodes, links, d, a, group, node)
    requires FreshContent(node, group, fresh', raw, clusterBytes)
    ensures node.chain[0] !in nodes && node.chain[0] >= 2
    ensures Inv(Added(v, links, d, a, group, node, fresh', raw), nodes[node.chain[0] := node], clusterBytes)
  {
    hide DirOk, DirHolds, FreshGroup, EntrySlot, Stands, Placed, Sized, FreshContent, Splice, StartOf, IsDir,
      Allocated, EntriesExcept, Shaped, DirsExcept, Written, AllFree;
    var id := node.chain[0];
    var v', nodes' := Added(v, links, d, a, group, node, fresh', raw), nodes[id := node];
    assert DirHolds(v, nodes, d);
    AddBase(v, nodes, links, d, a, group, node, fresh', raw);
    AddInserted(v, nodes, v', nodes', d, a, group, node);
    AddContent(v, nodes, clusterBytes, v', nodes', d, a, group, node, fresh', raw);
    hide Inv, CanAdd, Inserted;
    AddKeeps(v, nodes, v', nodes', d, a + |group| - 1, id, clusterBytes);
  }

  lemma AddContent(v: Vol, nodes: Nodes, clusterBytes: nat, v': Vol, nodes': Nodes, d: nat, a: nat, group: seq<Slot>,
                   node: Node, fresh': seq<Slot>, raw: seq<byte>)
    requires clusterBytes > 0 && d in v.dirs && a + |group| <= |v.dirs[d]| && node.chain != [] && group != []
    requires FreshContent(node, group, fresh', raw, clusterBytes) && node.parent == d && node.pos == a + |group| - 1
    requires node.chain[0] !in v.files && node.chain[0] !in v.dirs && node.chain[0] != 0
    requires v' == Added(v, v'.links, d, a, group, node, fresh', raw) && nodes' == nodes[node.chain[0] := node]
    ensures node.chain[0] in v'.files ==> Sized(v', nodes', node.chain[0], clusterBytes)
    ensures node.chain[0] in v'.dirs ==>
              && DirHolds(v', nodes', node.chain[0])
              && forall k :: 0 <= k < |v'.dirs[node.chain[0]]| ==> !EntrySlot(v', node.chain[0], k)
  {
    var id := node.chain[0];
    hide FreshDirFor, DirHolds, EntrySlot, Needed, SizeOf;
    if node.isDir {
      FreshDirHolds(v', nodes', id, d);
    } else {
      assert v'.dirs[d][a + |group| - 1] == GroupShort(group);
    }
  }

  lemma AddInserted(v: Vol, nodes: Nodes, v': Vol, nodes': Nodes, d: nat, a: nat, group: seq<Slot>, node: Node)
    requires CanAdd(v, nodes, v'.links, d, a, group, node) && DirHolds(v, nodes, d)
    requires node.chain[0] !in nodes && node.chain[0] != 0 && nodes' == nodes[node.chain[0] := node]
    requires DirsExcept(v, v', d, {node.chain[0]}) && v'.dirs[d] == Splice(v.dirs[d], a, group)
    ensures group != [] && DirHolds(v', nodes', d)
    ensures Inserted(v, nodes, v', nodes', d, a + |group| - 1, node.chain[0])
  {
    hide DirHolds, FreshGroup, Written, AllFree, EntriesExcept, IsShort, Splice, IsDir, StartOf;
    FreshNotEmpty(v.dirs[d], group);
    AddDirHolds(v, nodes, v', nodes', d, a, group);
  }

  lemma FreshNotEmpty(slots: seq<Slot>, group: seq<Slot>)
    requires FreshGroup(slots, group)
    ensures group != []
  {
  }

  lemma AddEntries(v: Vol, nodes: Nodes, v': Vol, nodes': Nodes, d: nat, p: nat, id: nat)
    requires EntriesStand(v, nodes) && NodesPlaced(v, nodes) && Shaped(v, nodes)
    requires Inserted(v, nodes, v', nodes', d, p, id)
    requires forall k :: id in v'.dirs && 0 <= k < |v'.dirs[id]| ==> !EntrySlot(v', id, k)
    ensures EntriesStand(v', nodes') && NodesPlaced(v', nodes')
  {
    hide EntriesExcept, IsShort, IsDir, StartOf;
    StandsCarry(v, nodes, v', nodes', d, p, {id});
    forall n | n in nodes && n != 0
      ensures nodes[n].parent != id && !(nodes[n].parent == d && nodes[n].pos == p)
    {
      assert Placed(v, nodes, n);
    }
    PlacesCarry(v, nodes, v', nodes', d, p, {id});
  }

  lemma AddFiles(v: Vol, nodes: Nodes, v': Vol, nodes': Nodes, d: nat, p: nat, id: nat, clusterBytes: nat)
    requires clusterBytes > 0 && FilesSized(v, nodes, clusterBytes) && NodesPlaced(v, nodes) && Shaped(v, nodes)
    requires Inserted(v, nodes, v', nodes', d, p, id)
    requires forall n :: n in v'.files && n != id ==> n in v.files && v'.files[n] == v.files[n]
    requires id in v'.files ==> Sized(v', nodes', id, clusterBytes)
    ensures FilesSized(v', nodes', clusterBytes)
  {
    forall n | n in v'.files && n != id
      ensures n in nodes && SizeIn(v'.dirs, nodes'[n]) == SizeIn(v.dirs, nodes[n])
    {
      AddedSize(v, nodes, v', nodes', d, p, id, n);
    }
    hide Inserted, Sized, Shaped, NodesPlaced, SizeIn;
    FilesCarry(v, nodes, v', nodes', id, clusterBytes);
  }

  lemma AddedSize(v: Vol, nodes: Nodes, v': Vol, nodes': Nodes, d: nat, p: nat, id: nat, n: nat)
    requires NodesPlaced(v, nodes) && Inserted(v, nodes, v', nodes', d, p, id) && n in nodes && n != 0 && n in nodes'
    ensures SizeIn(v'.dirs, nodes'[n]) == SizeIn(v.dirs, nodes[n])
  {
    hide EntriesExcept, IsShort, SizeIn, StartOf, IsDir, SizeOf;
    assert Placed(v, nodes, n);
    assert DirsExcept(v, v', d, {id}) && NodesExcept(nodes, nodes', {id});
    hide Inserted, Placed, DirsExcept, NodesExcept;
    SizesCarry(v, nodes, v', nodes', d, p, {id}, n);
  }

  // ---- removing a file or an empty directory

  function Removed(v: Vol, links: seq<nat>, d: nat, p: nat, id: nat): Vol
    requires d in v.dirs && p < |v.dirs[d]|
  {
    Vol(links, v.dirs[d := Clear(v.dirs[d], p)] - {id}, v.files - {id})
  }

  // A node that may go: a file, or a directory with nothing but its dots.
  ghost predicate Leaf(v: Vol, id: nat) {
    id in v.dirs ==> forall k :: 0 <= k < |v.dirs[id]| ==> !EntrySlot(v, id, k)
  }

  lemma LeafHasNoChild(v: Vol, nodes: Nodes, id: nat, n: nat)
    requires NodesPlaced(v, nodes) && Leaf(v, id) && n in nodes && n != 0
    ensures nodes[n].parent != id
  {
    hide EntrySlot;
    assert Placed(v, nodes, n);
  }

  lemma RemoveShaped(v: Vol, nodes: Nodes, links: seq<nat>, d: nat, p: nat, id: nat)
    requires Shaped(v, nodes) && id in nodes && id != 0 && d in v.dirs && d != id && p < |v.dirs[d]|
    requires |links| == |v.links|
    ensures var v', nodes' := Removed(v, links, d, p, id), nodes - {id};
            && Shaped(v', nodes') && DirsExcept(v, v', d, {id})
            && v'.dirs[d] == Clear(v.dirs[d], p) && NodesExcept(nodes, nodes', {id})
  {
    hide Clear;
  }

  lemma RemoveBase(v: Vol, nodes: Nodes, links: seq<nat>, id: nat)
    requires Shaped(v, nodes) && Allocated(v.links, nodes) && NodesPlaced(v, nodes) && Leaf(v, id)
    requires id in nodes && id != 0 && Freed(v.links, links, nodes[id].chain)
    ensures Placed(v, nodes, id) && nodes[id].parent != id
    ensures var d, p := nodes[id].parent, nodes[id].pos;
            var v', nodes' := Removed(v, links, d, p, id), nodes - {id};
            && Shaped(v', nodes') && Allocated(v'.links, nodes') && DirsExcept(v, v', d, {id})
            && v'.dirs[d] == Clear(v.dirs[d], p) && NodesExcept(nodes, nodes', {id})
  {
    hide EntrySlot, StartOf, Clear, Leaf, NoLeak, Disjoint, Chained, DirsExcept;
    assert Placed(v, nodes, id);
    LeafHasNoChild(v, nodes, id, id);
    assert nodes[0].chain == [];
    RemoveShaped(v, nodes, links, nodes[id].parent, nodes[id].pos, id);
    hide Shaped;
    RemoveAllocated(v.links, links, nodes, id);
  }

  lemma RemoveDirHolds(v: Vol, nodes: Nodes, v': Vol, nodes': Nodes, d: nat, p: nat)
    requires d in v.dirs && d in nodes && DirHolds(v, nodes, d) && p < |v.dirs[d]| && EntrySlot(v, d, p)
    requires d in v'.dirs && v'.dirs[d] == Clear(v.dirs[d], p) && d in nodes' && nodes'[d].parent == nodes[d].parent
    ensures DirHolds(v', nodes', d)
    ensures EntriesExcept(v.dirs[d], v'.dirs[d], p) && !IsShort(v'.dirs[d][p])
  {
    ClearDirOk(v.dirs[d], d != 0, p);
    ClearEntries(v.dirs[d], p);
    DotsCarry(v, nodes, v', nodes', d);
  }

  lemma RemoveKeeps(v: Vol, nodes: Nodes, v': Vol, nodes': Nodes, d: nat, p: nat, id: nat, clusterBytes: nat)
    requires clusterBytes > 0 && Inv(v, nodes, clusterBytes) && Leaf(v, id) && id in nodes && id != 0
    requires nodes[id].parent == d && nodes[id].pos == p && nodes' == nodes - {id}
    requires Shaped(v', nodes') && Allocated(v'.links, nodes')
    requires DirsExcept(v, v', d, {id}) && NodesExcept(nodes, nodes', {id}) && v'.files == v.files - {id}
    requires DirHolds(v', nodes', d) && id !in v'.dirs
    requires EntriesExcept(v.dirs[d], v'.dirs[d], p) && p < |v'.dirs[d]| && !IsShort(v'.dirs[d][p])
    ensures Inv(v', nodes', clusterBytes)
  {
    hide Shaped, Allocated, EntriesExcept, IsShort, IsDir, StartOf, DirHolds, Sized, DirOk, Stands;
    DirsCarry(v, nodes, v', nodes', d, {id});
    StandsCarry(v, nodes, v', nodes', d, p, {id});
    forall n | n in nodes' && n != 0
      ensures nodes[n].parent != id && !(nodes[n].parent == d && nodes[n].pos == p)
    {
      LeafHasNoChild(v, nodes, id, n);
      assert Placed(v, nodes, n) && Placed(v, nodes, id);
    }
    PlacesCarry(v, nodes, v', nodes', d, p, {id});
    forall n | n in v'.files ensures n in nodes' && n != 0 && SizeIn(v'.dirs, nodes'[n]) == SizeIn(v.dirs, nodes[n]) {
      assert Sized(v, nodes, n, clusterBytes);
      FileNotRoot(v, nodes, n);
      SizesCarry(v, nodes, v', nodes', d, p, {id}, n);
    }
    hide SizeIn, NodesPlaced, EntriesStand, DirsOk, Leaf, DirsExcept;
    FilesCarry(v, nodes, v', nodes', id, clusterBytes);
  }

  lemma FileNotRoot(v: Vol, nodes: Nodes, n: nat)
    requires Shaped(v, nodes) && n in v.files
    ensures n in nodes && n != 0 && !nodes[n].isDir
  {
  }

  /** Deleting a file or an empty directory keeps the whole invariant. */
  lemma RemoveInv(v: Vol, nodes: Nodes, clusterBytes: nat, links: seq<nat>, id: nat)
    requires clusterBytes > 0 && Inv(v, nodes, clusterBytes) && Leaf(v, id)
    requires id in nodes && id != 0 && Freed(v.links, links, nodes[id].chain)
    ensures Placed(v, nodes, id)
    ensures Inv(Removed(v, links, nodes[id].parent, nodes[id].pos, id), nodes - {id}, clusterBytes)
  {
    hide DirOk, DirHolds, Stands, Sized, Clear, StartOf, IsDir, Allocated, EntriesExcept, Shaped, DirsExcept, Freed,
      Leaf;
    RemoveBase(v, nodes, links, id);
    var d, p := nodes[id].parent, nodes[id].pos;
    var v', nodes' := Removed(v, links, d, p, id), nodes - {id};
    assert DirHolds(v, nodes, d);
    RemoveDirHolds(v, nodes, v', nodes', d, p);
    hide Inv, Placed, EntrySlot, IsShort;
    RemoveKeeps(v, nodes, v', nodes', d, p, id, clusterBytes);
  }

  // ---- rewriting a file

  function Rewritten(v: Vol, links: seq<nat>, d: nat, p: nat, size: nat, id: nat, raw: seq<byte>): Vol
    requires d in v.dirs && p < |v.dirs[d]| && size < 0x1_0000_0000
  {
    Vol(links, v.dirs[d := Resize(v.dirs[d], p, size)], v.files[id := raw])
  }

  lemma RewriteShaped(v: Vol, nodes: Nodes, links: seq<nat>, d: nat, p: nat, size: nat, id: nat, ch: seq<nat>,
                      raw: seq<byte>)
    requires Shaped(v, nodes) && id in nodes && id in v.files && d in v.dirs && p < |v.dirs[d]|
    requires |links| == |v.links| && size < 0x1_0000_0000
    ensures var v', nodes' := Rewritten(v, links, d, p, size, id, raw), nodes[id := nodes[id].(chain := ch)];
            && Shaped(v', nodes') && DirsExcept(v, v', d, {})
            && v'.dirs[d] == Resize(v.dirs[d], p, size) && NodesExcept(nodes, nodes', {})
  {
    hide Resize;
  }

  lemma RewriteBase(v: Vol, nodes: Nodes, links: seq<nat>, id: nat, ch: seq<nat>, size: nat, raw: seq<byte>)
    requires Shaped(v, nodes) && Allocated(v.links, nodes) && NodesPlaced(v, nodes)
    requires id in nodes && id in v.files && size < 0x1_0000_0000
    requires ch != [] && ch[0] == id && NoRepeat(ch) && Available(v.links, nodes, id, ch)
    requires Rechained(v.links, links, nodes[id].chain, ch)
    ensures Placed(v, nodes, id) && id != 0
    ensures var d, p := nodes[id].parent, nodes[id].pos;
            var v', nodes' := Rewritten(v, links, d, p, size, id, raw), nodes[id := nodes[id].(chain := ch)];
            && Shaped(v', nodes') && Allocated(v'.links, nodes') && DirsExcept(v, v', d, {})
            && v'.dirs[d] == Resize(v.dirs[d], p, size) && NodesExcept(nodes, nodes', {})
  {
    hide EntrySlot, StartOf, Resize, Available, NoRepeat, NoLeak, Disjoint, Chained, DirsExcept;
    FileNotRoot(v, nodes, id);
    assert Placed(v, nodes, id);
    assert nodes[0].chain == [] && |links| == |v.links| <= MAX_CLUSTERS;
    RewriteShaped(v, nodes, links, nodes[id].parent, nodes[id].pos, size, id, ch, raw);
    hide Shaped, Rechained;
    SetAllocated(v.links, links, nodes, id, nodes[id].(chain := ch));
  }

  lemma RewriteDirHolds(v: Vol, nodes: Nodes, v': Vol, nodes': Nodes, d: nat, p: nat, size: nat)
    requires d in v.dirs && d in nodes && DirHolds(v, nodes, d) && p < |v.dirs[d]| && EntrySlot(v, d, p)
    requires size < 0x1_0000_0000
    requires d in v'.dirs && v'.dirs[d] == Resize(v.dirs[d], p, size)
    requires d in nodes' && nodes'[d].parent == nodes[d].parent
    ensures DirHolds(v', nodes', d)
    ensures EntriesExcept(v.dirs[d], v'.dirs[d], p) && SameTarget(v.dirs[d], v'.dirs[d], p)
    ensures SizeOf(v'.dirs[d][p]) == size
  {
    ResizeDirOk(v.dirs[d], d != 0, p, size);
    ResizeEntries(v.dirs[d], p, size);
    DotsCarry(v, nodes, v', nodes', d);
  }

  lemma RewriteKeeps(v: Vol, nodes: Nodes, v': Vol, nodes': Nodes, d: nat, p: nat, id: nat, clusterBytes: nat)
    requires clusterBytes > 0 && Inv(v, nodes, clusterBytes) && id in nodes && id != 0
    requires nodes[id].parent == d && nodes[id].pos == p
    requires Shaped(v', nodes') && Allocated(v'.links, nodes')
    requires DirsExcept(v, v', d, {}) && NodesExcept(nodes, nodes', {})
    requires forall n :: n in nodes && n != id ==> nodes'[n].chain == nodes[n].chain
    requires forall n :: n in v'.files && n != id ==> n in v.files && v'.files[n] == v.files[n]
    requires DirHolds(v', nodes', d) && EntriesExcept(v.dirs[d], v'.dirs[d], p) && SameTarget(v.dirs[d], v'.dirs[d], p)
    requires id in v'.files ==> Sized(v', nodes', id, clusterBytes)
    ensures Inv(v', nodes', clusterBytes)
  {
    hide Shaped, Allocated, EntriesExcept, DirHolds, Sized, DirOk, IsShort, StartOf, IsDir;
    DirsCarry(v, nodes, v', nodes', d, {});
    assert Placed(v, nodes, id);
    assert Stands(v, nodes, d, p);
    StandsCarry(v, nodes, v', nodes', d, p, {});
    OnlyAt(v, nodes, id);
    PlacesCarry(v, nodes, v', nodes', d, p, {});
    forall n | n in v'.files && n != id
      ensures n in nodes' && n in nodes && SizeIn(v'.dirs, nodes'[n]) == SizeIn(v.dirs, nodes[n])
    {
      FileNotRoot(v, nodes, n);
      SizesCarry(v, nodes, v', nodes', d, p, {}, n);
    }
    hide SizeIn, NodesPlaced, EntriesStand, DirsOk, DirsExcept, Stands, Placed;
    FilesCarry(v, nodes, v', nodes', id, clusterBytes);
  }

  // No two nodes stand in one slot.
  lemma OnlyAt(v: Vol, nodes: Nodes, id: nat)
    requires NodesPlaced(v, nodes) && id in nodes && id != 0
    ensures forall n :: n in nodes && n != 0 && nodes[n].parent == nodes[id].parent && nodes[n].pos == nodes[id].pos ==>
              n == id
  {
    hide StartOf, EntrySlot;
    forall n | n in nodes && n != 0 && nodes[n].parent == nodes[id].parent && nodes[n].pos == nodes[id].pos
      ensures n == id
    {
      assert Placed(v, nodes, n) && Placed(v, nodes, id);
    }
  }

  /** Rewriting a file, at any new size, keeps the whole invariant and its first cluster. */
  lemma RewriteInv(v: Vol, nodes: Nodes, clusterBytes: nat, links: seq<nat>, id: nat, ch: seq<nat>, size: nat,
                   raw: seq<byte>)
    requires clusterBytes > 0 && Inv(v, nodes, clusterBytes)
    requires id in nodes && id in v.files && size < 0x1_0000_0000
    requires ch != [] && ch[0] == id && NoRepeat(ch) && Available(v.links, nodes, id, ch)
    requires Rechained(v.links, links, nodes[id].chain, ch)
    requires |ch| == Needed(clusterBytes, size) && |raw| == |ch| * clusterBytes
    ensures Placed(v, nodes, id)
    ensures Inv(Rewritten(v, links, nodes[id].parent, nodes[id].pos, size, id, raw),
                nodes[id := nodes[id].(chain := ch)], clusterBytes)
  {
    hide DirOk, DirHolds, Stands, Resize, StartOf, IsDir, Allocated, EntriesExcept, Shaped, DirsExcept, Rechained,
      Available, NoRepeat, SizeOf, Needed, SameTarget;
    RewriteBase(v, nodes, links, id, ch, size, raw);
    var d, p := nodes[id].parent, nodes[id].pos;
    var v', nodes' := Rewritten(v, links, d, p, size, id, raw), nodes[id := nodes[id].(chain := ch)];
    assert DirHolds(v, nodes, d);
    RewriteDirHolds(v, nodes, v', nodes', d, p, size);
    assert Sized(v', nodes', id, clusterBytes);
    hide Inv, Placed, EntrySlot, IsShort, Sized;
    RewriteKeeps(v, nodes, v', nodes', d, p, id, clusterBytes);
  }

  // ---- growing a directory by one zeroed cluster

  function GrownDir(v: Vol, links: seq<nat>, d: nat, n: nat): Vol
    requires d in v.dirs
  {
    Vol(links, v.dirs[d := v.dirs[d] + Zeroed(n)], v.files)
  }

  lemma GrowShaped(v: Vol, nodes: Nodes, links: seq<nat>, d: nat, ch: seq<nat>, n: nat)
    requires Shaped(v, nodes) && d in v.dirs && d in nodes && d != 0 && |links| == |v.links|
    ensures var v', nodes' := GrownDir(v, links, d, n), nodes[d := nodes[d].(chain := ch)];
            && Shaped(v', nodes') && DirsExcept(v, v', d, {})
            && v'.dirs[d] == v.dirs[d] + Zeroed(n) && NodesExcept(nodes, nodes', {})
  {
    hide Zeroed;
  }

  lemma ExtendChain(links: seq<nat>, nodes: Nodes, d: nat, c: nat)
    requires 0 in nodes && nodes[0].chain == [] && Chained(links, nodes)
    requires d in nodes && d != 0 && IsFreeCluster(links, c)
    ensures var ch := nodes[d].chain + [c];
            ch[0] == d && NoRepeat(ch) && Available(links, nodes, d, ch)
  {
    assert ChainFrom(links, nodes[d].chain, d);
    FreeIsUnowned(links, nodes, d, c);
  }

  lemma GrowBase(v: Vol, nodes: Nodes, links: seq<nat>, d: nat, c: nat, n: nat)
    requires Shaped(v, nodes) && Allocated(v.links, nodes)
    requires d in v.dirs && d in nodes && d != 0 && IsFreeCluster(v.links, c)
    requires Rechained(v.links, links, nodes[d].chain, nodes[d].chain + [c])
    ensures var v', nodes' := GrownDir(v, links, d, n), nodes[d := nodes[d].(chain := nodes[d].chain + [c])];
            && Shaped(v', nodes') && Allocated(v'.links, nodes') && DirsExcept(v, v', d, {})
            && v'.dirs[d] == v.dirs[d] + Zeroed(n) && NodesExcept(nodes, nodes', {})
  {
    hide NoLeak, Disjoint, Chained, DirsExcept, Zeroed;
    var ch := nodes[d].chain + [c];
    assert nodes[0].chain == [] && |links| == |v.links| <= MAX_CLUSTERS;
    GrowShaped(v, nodes, links, d, ch, n);
    ExtendChain(v.links, nodes, d, c);
    hide Shaped, Rechained, NoRepeat, Available;
    SetAllocated(v.links, links, nodes, d, nodes[d].(chain := ch));
  }

  lemma GrowDirHolds(v: Vol, nodes: Nodes, v': Vol, nodes': Nodes, d: nat, n: nat)
    requires d in v.dirs && d in nodes && DirHolds(v, nodes, d)
    requires d in v'.dirs && v'.dirs[d] == v.dirs[d] + Zeroed(n)
    requires d in nodes' && nodes'[d].parent == nodes[d].parent
    ensures DirHolds(v', nodes', d) && EntriesExcept(v.dirs[d], v'.dirs[d], |v.dirs[d]|)
    ensures n > 0 ==> !IsShort(v'.dirs[d][|v.dirs[d]|])
  {
    GrowDirOk(v.dirs[d], d != 0, n);
    GrowEntries(v.dirs[d], n);
    DotsCarry(v, nodes, v', nodes', d);
  }

  lemma GrowKeeps(v: Vol, nodes: Nodes, v': Vol, nodes': Nodes, d: nat, p: nat, clusterBytes: nat)
    requires clusterBytes > 0 && Inv(v, nodes, clusterBytes)
    requires Shaped(v', nodes') && Allocated(v'.links, nodes')
    requires DirsExcept(v, v', d, {}) && NodesExcept(nodes, nodes', {}) && v'.files == v.files && d !in v.files
    requires forall n :: n in nodes && n != d ==> nodes'[n].chain == nodes[n].chain
    requires p == |v.dirs[d]| && (p < |v'.dirs[d]| ==> !IsShort(v'.dirs[d][p]))
    requires DirHolds(v', nodes', d) && EntriesExcept(v.dirs[d], v'.dirs[d], p)
    ensures Inv(v', nodes', clusterBytes)
  {
    hide Shaped, Allocated, EntriesExcept, DirHolds, Sized, DirOk, IsShort, StartOf, IsDir;
    DirsCarry(v, nodes, v', nodes', d, {});
    StandsCarry(v, nodes, v', nodes', d, p, {});
    forall n | n in nodes && n != 0 ensures !(nodes[n].parent == d && nodes[n].pos == p) {
      assert Placed(v, nodes, n);
    }
    PlacesCarry(v, nodes, v', nodes', d, p, {});
    forall n | n in v'.files
      ensures n in nodes' && n in nodes && n != d && SizeIn(v'.dirs, nodes'[n]) == SizeIn(v.dirs, nodes[n])
    {
      FileNotRoot(v, nodes, n);
      SizesCarry(v, nodes, v', nodes', d, p, {}, n);
    }
    hide SizeIn, NodesPlaced, EntriesStand, DirsOk, DirsExcept, Placed;
    FilesCarry(v, nodes, v', nodes', d, clusterBytes);
  }

  /** A directory that grows keeps the whole invariant. */
  lemma GrowInv(v: Vol, nodes: Nodes, clusterBytes: nat, links: seq<nat>, d: nat, c: nat, n: nat)
    requires clusterBytes > 0 && Inv(v, nodes, clusterBytes) && n > 0
    requires d in v.dirs && d in nodes && d != 0 && IsFreeCluster(v.links, c)
    requires Rechained(v.links, links, nodes[d].chain, nodes[d].chain + [c])
    ensures Inv(GrownDir(v, links, d, n), nodes[d := nodes[d].(chain := nodes[d].chain + [c])], clusterBytes)
  {
    hide DirOk, Stands, Placed, Sized, Allocated, EntriesExcept, DirsExcept, Rechained, IsShort, DirHolds;
    var v', nodes' := GrownDir(v, links, d, n), nodes[d := nodes[d].(chain := nodes[d].chain + [c])];
    GrowBase(v, nodes, links, d, c, n);
    assert DirHolds(v, nodes, d);
    GrowDirHolds(v, nodes, v', nodes', d, n);
    assert d !in v.files;
    hide Shaped, Inv;
    GrowKeeps(v, nodes, v', nodes', d, |v.dirs[d]|, clusterBytes);
  }
}
