/** The volume as the three things its sectors encode - links, directories, file bytes - and the
    invariant that ties them to one tree of nodes. A node is a file or directory, named by its
    first cluster; the root directory is node 0 and owns no cluster. */
module Volume {
  import opened Bytes
  import opened Directory
  import opened DirectoryUpdates
  import opened Chains

  // `pos` is the slot of the node's short entry in its parent directory.
  datatype Node = Node(parent: nat, pos: nat, depth: nat, isDir: bool, chain: seq<nat>)

  type Nodes = map<nat, Node>

  datatype Vol = Vol(links: seq<nat>, dirs: map<nat, seq<Slot>>, files: map<nat, seq<byte>>)

  // ---- the abstract tree

  datatype Tree = Tree(dirs: map<nat, seq<Listed>>, files: map<nat, seq<byte>>)

  function Prefix(raw: seq<byte>, size: nat): seq<byte> {
    if size <= |raw| then raw[..size] else raw
  }

  function SizeIn(dirs: map<nat, seq<Slot>>, node: Node): nat {
    if node.parent in dirs && node.pos < |dirs[node.parent]| then SizeOf(dirs[node.parent][node.pos]) else 0
  }

  function TreeOf(v: Vol, nodes: Nodes): Tree {
    Tree(map d | d in v.dirs :: Listing(v.dirs[d]),
         map n | n in v.files && n in nodes :: Prefix(v.files[n], SizeIn(v.dirs, nodes[n])))
  }

  // ---- the invariant

  ghost predicate Shaped(v: Vol, nodes: Nodes) {
    && 0 in nodes && nodes[0] == Node(0, 0, 0, true, [])
    && |v.links| <= MAX_CLUSTERS
    && (forall n :: n in v.dirs <==> n in nodes && nodes[n].isDir)
    && (forall n :: n in v.files <==> n in nodes && !nodes[n].isDir)
  }

  ghost predicate ChainFrom(links: seq<nat>, ch: seq<nat>, n: nat) {
    IsChain(links, ch) && ch[0] == n
  }

  ghost predicate Chained(links: seq<nat>, nodes: Nodes) {
    forall n :: n in nodes && n != 0 ==> ChainFrom(links, nodes[n].chain, n)
  }

  ghost predicate Owns(nodes: Nodes, n: nat, c: nat)
    requires n in nodes
  {
    c in nodes[n].chain
  }

  // No cluster belongs to two nodes.
  ghost predicate Disjoint(nodes: Nodes) {
    forall n, m, c: nat :: n in nodes && m in nodes && Owns(nodes, n, c) && Owns(nodes, m, c) ==> n == m
  }

  // Every cluster that is not free belongs to some node.
  ghost predicate NoLeak(links: seq<nat>, nodes: Nodes) {
    forall c :: 2 <= c < |links| && links[c] != 0 ==> exists n :: n in nodes && Owns(nodes, n, c)
  }

  ghost predicate Allocated(links: seq<nat>, nodes: Nodes) {
    Chained(links, nodes) && Disjoint(nodes) && NoLeak(links, nodes)
  }

  // What a reader needs of a volume: chains that end, and directories that scan.
  ghost predicate ReadableVol(v: Vol, nodes: Nodes) {
    && Shaped(v, nodes)
    && Chained(v.links, nodes)
    && forall d :: d in v.dirs ==> Readable(v.dirs[d])
  }

  ghost predicate EntrySlot(v: Vol, d: nat, k: nat)
    requires d in v.dirs && k < |v.dirs[d]|
  {
    IsShort(v.dirs[d][k]) && !IsDot(d != 0, k)
  }

  // The entry in slot `k` of `d` is the one that stands for its node.
  ghost predicate Stands(v: Vol, nodes: Nodes, d: nat, k: nat)
    requires d in v.dirs && k < |v.dirs[d]|
  {
    var n := StartOf(v.dirs[d][k]);
    && n != 0 && n in nodes
    && nodes[n].parent == d && nodes[n].pos == k && nodes[n].isDir == IsDir(v.dirs[d][k])
  }

  function Needed(clusterBytes: nat, size: nat): nat
    requires clusterBytes > 0
  {
    if size == 0 then 1 else (size + clusterBytes - 1) / clusterBytes
  }

  ghost predicate Placed(v: Vol, nodes: Nodes, n: nat)
    requires n in nodes
  {
    var node := nodes[n];
    && node.parent in v.dirs && node.parent in nodes && node.depth == nodes[node.parent].depth + 1
    && node.pos < |v.dirs[node.parent]|
    && EntrySlot(v, node.parent, node.pos)
    && StartOf(v.dirs[node.parent][node.pos]) == n
  }

  ghost predicate Sized(v: Vol, nodes: Nodes, n: nat, clusterBytes: nat)
    requires n in nodes && n in v.files && clusterBytes > 0
  {
    && |nodes[n].chain| == Needed(clusterBytes, SizeIn(v.dirs, nodes[n]))
    && |v.files[n]| == |nodes[n].chain| * clusterBytes
  }

  // A directory's "." is itself and its ".." its parent.
  ghost predicate Dots(v: Vol, nodes: Nodes, d: nat)
    requires d in v.dirs && d in nodes && DotSlots(v.dirs[d])
  {
    && IsDir(v.dirs[d][0]) && StartOf(v.dirs[d][0]) == d
    && IsDir(v.dirs[d][1]) && StartOf(v.dirs[d][1]) == nodes[d].parent
  }

  ghost predicate DirHolds(v: Vol, nodes: Nodes, d: nat)
    requires d in v.dirs
  {
    DirOk(v.dirs[d], d != 0) && (d != 0 ==> d in nodes && Dots(v, nodes, d))
  }

  ghost predicate DirsOk(v: Vol, nodes: Nodes) {
    forall d :: d in v.dirs ==> DirHolds(v, nodes, d)
  }

  ghost predicate EntriesStand(v: Vol, nodes: Nodes) {
    forall d, k :: d in v.dirs && 0 <= k < |v.dirs[d]| && EntrySlot(v, d, k) ==> Stands(v, nodes, d, k)
  }

  ghost predicate NodesPlaced(v: Vol, nodes: Nodes) {
    forall n :: n in nodes && n != 0 ==> Placed(v, nodes, n)
  }

  ghost predicate FilesSized(v: Vol, nodes: Nodes, clusterBytes: nat)
    requires clusterBytes > 0
  {
    forall n :: n in v.files ==> n in nodes && Sized(v, nodes, n, clusterBytes)
  }

  ghost predicate Inv(v: Vol, nodes: Nodes, clusterBytes: nat)
    requires clusterBytes > 0
  {
    && Shaped(v, nodes)
    && Allocated(v.links, nodes)
    && DirsOk(v, nodes)
    && EntriesStand(v, nodes)
    && NodesPlaced(v, nodes)
    && FilesSized(v, nodes, clusterBytes)
  }

  lemma InvReadable(v: Vol, nodes: Nodes, clusterBytes: nat)
    requires clusterBytes > 0 && Inv(v, nodes, clusterBytes)
    ensures ReadableVol(v, nodes)
  {
    forall d | d in v.dirs ensures Readable(v.dirs[d]) {
      assert DirHolds(v, nodes, d);
    }
  }

  // ---- chains of other nodes survive a change to one

  lemma FreeIsUnowned(links: seq<nat>, nodes: Nodes, n: nat, c: nat)
    requires 0 in nodes && nodes[0].chain == [] && Chained(links, nodes) && n in nodes
    requires c < |links| && links[c] == 0
    ensures !Owns(nodes, n, c)
  {
    if Owns(nodes, n, c) {
      ChainNotFree(links, nodes[n].chain, c);
    }
  }

  lemma OwnedInRange(links: seq<nat>, nodes: Nodes, n: nat, c: nat)
    requires 0 in nodes && nodes[0].chain == [] && Chained(links, nodes) && n in nodes && Owns(nodes, n, c)
    ensures 2 <= c < |links| && links[c] != 0
  {
    ChainNotFree(links, nodes[n].chain, c);
  }

  ghost predicate AllFree(links: seq<nat>, ch: seq<nat>) {
    forall i :: 0 <= i < |ch| ==> IsFreeCluster(links, ch[i])
  }

  // Links changed only on clusters that were free keep every chain.
  lemma ChainsSurvive(before: seq<nat>, after: seq<nat>, nodes: Nodes)
    requires 0 in nodes && nodes[0].chain == [] && Chained(before, nodes) && |after| == |before|
    requires forall c :: 0 <= c < |before| && after[c] != before[c] ==> before[c] == 0
    ensures Chained(after, nodes)
  {
    forall n | n in nodes && n != 0 ensures ChainFrom(after, nodes[n].chain, n) {
      forall c | c in nodes[n].chain ensures c < |after| && after[c] == before[c] {
        ChainNotFree(before, nodes[n].chain, c);
      }
      ChainUntouched(before, after, nodes[n].chain);
    }
  }

  // ---- a node set on clusters that were free or its own

  // `after` has `ch` written as a chain, the clusters dropped from `old'` free, the rest as before.
  ghost predicate Rechained(before: seq<nat>, after: seq<nat>, old': seq<nat>, ch: seq<nat>) {
    && |after| == |before| && InRange(before, ch)
    && (forall i :: 0 <= i < |ch| ==> after[ch[i]] == LinkAt(ch, i))
    && (forall c :: 0 <= c < |before| && c !in ch ==> after[c] == if c in old' then 0 else before[c])
  }

  function ChainOf(nodes: Nodes, id: nat): seq<nat> {
    if id in nodes then nodes[id].chain else []
  }

  ghost predicate Available(links: seq<nat>, nodes: Nodes, id: nat, ch: seq<nat>) {
    forall c :: c in ch ==> c in ChainOf(nodes, id) || IsFreeCluster(links, c)
  }

  // The clusters of every other node are neither taken nor freed.
  lemma OthersApart(links: seq<nat>, nodes: Nodes, id: nat, ch: seq<nat>, n: nat, c: nat)
    requires 0 in nodes && nodes[0].chain == [] && Allocated(links, nodes)
    requires Available(links, nodes, id, ch)
    requires n in nodes && n != id && Owns(nodes, n, c)
    ensures c !in ch && c !in ChainOf(nodes, id) && 2 <= c < |links|
  {
    OwnedInRange(links, nodes, n, c);
    assert c in ChainOf(nodes, id) ==> id in nodes && Owns(nodes, id, c);
  }

  lemma SetChained(before: seq<nat>, after: seq<nat>, nodes: Nodes, id: nat, node: Node)
    requires 0 in nodes && nodes[0].chain == [] && Allocated(before, nodes) && |before| <= MAX_CLUSTERS
    requires id != 0 && node.chain != [] && node.chain[0] == id && NoRepeat(node.chain)
    requires Available(before, nodes, id, node.chain)
    requires Rechained(before, after, ChainOf(nodes, id), node.chain)
    ensures Chained(after, nodes[id := node])
  {
    LinkedIsChain(after, node.chain);
    assert ChainFrom(after, node.chain, id);
    hide IsChain, ChainFrom, NoLeak, Disjoint, Rechained, Available, NoRepeat;
    forall n | n in nodes && n != 0 && n != id
      ensures ChainFrom(after, nodes[n].chain, n)
    {
      OtherChained(before, after, nodes, id, node.chain, n);
    }
  }

  lemma OtherChained(before: seq<nat>, after: seq<nat>, nodes: Nodes, id: nat, ch: seq<nat>, n: nat)
    requires 0 in nodes && nodes[0].chain == [] && Allocated(before, nodes)
    requires Available(before, nodes, id, ch) && Rechained(before, after, ChainOf(nodes, id), ch)
    requires n in nodes && n != 0 && n != id
    ensures ChainFrom(after, nodes[n].chain, n)
  {
    forall c | c in nodes[n].chain ensures c < |after| && after[c] == before[c] {
      assert Owns(nodes, n, c);
      OthersApart(before, nodes, id, ch, n, c);
    }
    ChainUntouched(before, after, nodes[n].chain);
  }

  lemma SetDisjoint(links: seq<nat>, nodes: Nodes, id: nat, node: Node)
    requires 0 in nodes && nodes[0].chain == [] && Allocated(links, nodes)
    requires Available(links, nodes, id, node.chain)
    ensures Disjoint(nodes[id := node])
  {
    hide IsChain, NoLeak;
    var nodes' := nodes[id := node];
    forall n, c: nat | n in nodes && n != id && Owns(nodes, n, c) ensures c !in node.chain {
      OthersApart(links, nodes, id, node.chain, n, c);
    }
    forall n, m, c: nat | n in nodes' && m in nodes' && Owns(nodes', n, c) && Owns(nodes', m, c) ensures n == m {
      assert n != id ==> Owns(nodes, n, c);
      assert m != id ==> Owns(nodes, m, c);
    }
  }

  lemma SetNoLeak(before: seq<nat>, after: seq<nat>, nodes: Nodes, id: nat, node: Node)
    requires NoLeak(before, nodes) && Rechained(before, after, ChainOf(nodes, id), node.chain)
    ensures NoLeak(after, nodes[id := node])
  {
    var nodes' := nodes[id := node];
    forall c | 2 <= c < |after| && after[c] != 0 ensures exists n :: n in nodes' && Owns(nodes', n, c) {
      if c in node.chain {
        assert Owns(nodes', id, c);
      } else {
        var n :| n in nodes && Owns(nodes, n, c);
        assert n != id;
        assert Owns(nodes', n, c);
      }
    }
  }

  /** Creating a node, or giving it a longer or shorter chain, keeps every cluster in exactly one place. */
  lemma SetAllocated(before: seq<nat>, after: seq<nat>, nodes: Nodes, id: nat, node: Node)
    requires 0 in nodes && nodes[0].chain == [] && Allocated(before, nodes) && |before| <= MAX_CLUSTERS
    requires id != 0 && node.chain != [] && node.chain[0] == id && NoRepeat(node.chain)
    requires Available(before, nodes, id, node.chain)
    requires Rechained(before, after, ChainOf(nodes, id), node.chain)
    ensures Allocated(after, nodes[id := node])
  {
    SetChained(before, after, nodes, id, node);
    SetDisjoint(before, nodes, id, node);
    SetNoLeak(before, after, nodes, id, node);
  }

  // A chain laid on free clusters names a node that did not exist.
  lemma FreshNode(links: seq<nat>, nodes: Nodes, ch: seq<nat>)
    requires 0 in nodes && nodes[0].chain == [] && Chained(links, nodes)
    requires ch != [] && AllFree(links, ch)
    ensures ch[0] >= 2 && ch[0] !in nodes
    ensures Available(links, nodes, ch[0], ch)
  {
    if ch[0] in nodes {
      assert Owns(nodes, ch[0], nodes[ch[0]].chain[0]);
      FreeIsUnowned(links, nodes, ch[0], ch[0]);
    }
  }

  // ---- a node removed and its chain freed

  lemma RemoveAllocated(before: seq<nat>, after: seq<nat>, nodes: Nodes, id: nat)
    requires 0 in nodes && nodes[0].chain == [] && Allocated(before, nodes)
    requires id in nodes && id != 0 && Freed(before, after, nodes[id].chain)
    ensures Allocated(after, nodes - {id})
  {
    var nodes' := nodes - {id};
    forall n | n in nodes' && n != 0 ensures ChainFrom(after, nodes'[n].chain, n) {
      forall c | c in nodes[n].chain ensures c < |after| && after[c] == before[c] {
        assert Owns(nodes, n, c);
        OthersApart(before, nodes, id, [], n, c);
      }
      ChainUntouched(before, after, nodes[n].chain);
    }
    forall n, m, c: nat | n in nodes' && m in nodes' && Owns(nodes', n, c) && Owns(nodes', m, c) ensures n == m {
      assert Owns(nodes, n, c) && Owns(nodes, m, c);
    }
    forall c | 2 <= c < |after| && after[c] != 0 ensures exists n :: n in nodes' && Owns(nodes', n, c) {
      var n :| n in nodes && Owns(nodes, n, c);
      assert n != id;
      assert Owns(nodes', n, c);
    }
  }
}
