/** Rewriting a file, seen from the disk: a chain that grows or shrinks under its first cluster, and
    what the volume holds when the data is laid and the size is set. */
module Rewrites {
  import opened Bytes
  import opened Chains
  import opened Geometry
  import opened Directory
  import opened DirectoryUpdates
  import opened Volume
  import opened VolumeUpdates
  import opened Trees
  import opened DiskView
  import opened DiskSteps
  import opened Mounts
  import opened Creations
  import opened Removals

  // `ch` is `before` cut short, or continued with free clusters.
  ghost predicate Resized(links: seq<nat>, before: seq<nat>, ch: seq<nat>) {
    && ch != [] && NoRepeat(ch) && (ch <= before || before <= ch)
    && forall c :: c in ch ==> c in before || IsFreeCluster(links, c)
  }

  // The clusters of `before` that `ch` no longer has.
  function Dropped(before: seq<nat>, ch: seq<nat>): seq<nat> {
    if |ch| <= |before| then before[|ch|..] else []
  }

  lemma PrefixResized(links: seq<nat>, before: seq<nat>, n: nat)
    requires IsChain(links, before) && 1 <= n <= |before|
    ensures Resized(links, before, before[..n]) && before[..n][0] == before[0]
  {
  }

  lemma LongerResized(links: seq<nat>, before: seq<nat>, extra: seq<nat>)
    requires IsChain(links, before) && NoRepeat(extra) && AllFree(links, extra)
    ensures Resized(links, before, before + extra) && (before + extra)[0] == before[0]
    ensures Dropped(before, before + extra) == []
  {
    var ch := before + extra;
    forall i, j | 0 <= i < j < |ch| ensures ch[i] != ch[j] {
      if i < |before| <= j {
        ChainNotFree(links, before, before[i]);
      }
    }
  }

  lemma ResizedFits(g: Geo, links: seq<nat>, before: seq<nat>, ch: seq<nat>)
    requires Resized(links, before, ch) && InRange(links, before) && |links| == g.Clusters()
    ensures ChainFits(g, ch) && DataClusters(ch) && InRange(links, ch)
  {
    forall i | 0 <= i < |ch| ensures 2 <= ch[i] < |links| {
      assert ch[i] in ch;
    }
  }

  // Freeing what is dropped and then writing the new chain rechains the file.
  lemma ResizedRechains(l0: seq<nat>, l1: seq<nat>, l2: seq<nat>, before: seq<nat>, ch: seq<nat>)
    requires Resized(l0, before, ch) && Freed(l0, l1, Dropped(before, ch)) && Written(l1, l2, ch, |ch|)
    ensures Rechained(l0, l2, before, ch)
  {
    assert ch[..|ch|] == ch;
    forall c | 0 <= c < |l0| && c !in ch ensures l2[c] == if c in before then 0 else l0[c] {
      KeptOrDropped(before, ch, c);
    }
  }

  lemma KeptOrDropped(before: seq<nat>, ch: seq<nat>, c: nat)
    requires ch <= before || before <= ch
    requires c !in ch
    ensures c in before <==> c in Dropped(before, ch)
  {
    if ch <= before {
      assert before == ch + before[|ch|..];
    }
  }

  // ---- the rewritten volume

  // On `b` the file `id` has the chain `ch`, its old chain being freed or reused.
  ghost predicate Relaid(g: Geo, a: Disk, b: Disk, nodes: Nodes, id: nat, ch: seq<nat>)
    requires id in nodes
  {
    && Resized(LinksOn(g, a), nodes[id].chain, ch) && ch[0] == id
    && SameBut(g, a, b, ch) && Rechained(LinksOn(g, a), LinksOn(g, b), nodes[id].chain, ch)
  }

  ghost function Rechain(nodes: Nodes, id: nat, ch: seq<nat>): Nodes
    requires id in nodes
  {
    nodes[id := nodes[id].(chain := ch)]
  }

  lemma RelaidAvailable(links: seq<nat>, nodes: Nodes, id: nat, ch: seq<nat>)
    requires id in nodes && Resized(links, nodes[id].chain, ch)
    ensures Available(links, nodes, id, ch)
  {
  }

  lemma OthersClear(links: seq<nat>, nodes: Nodes, id: nat, ch: seq<nat>)
    requires 0 in nodes && nodes[0].chain == [] && Allocated(links, nodes) && id in nodes
    requires Available(links, nodes, id, ch)
    ensures forall n :: n in nodes - {id} ==> Apart(nodes - {id}, n, ch)
  {
    forall n | n in nodes - {id} ensures Apart(nodes - {id}, n, ch) {
      forall c | c in nodes[n].chain ensures c !in ch {
        assert Owns(nodes, n, c);
        OthersApart(links, nodes, id, ch, n, c);
      }
    }
  }

  lemma SetAgain(nodes: Nodes, id: nat, ch: seq<nat>)
    requires id in nodes
    ensures (nodes - {id})[id := nodes[id].(chain := ch)] == Rechain(nodes, id, ch)
  {
  }

  lemma PutBack<T>(m: map<nat, T>, id: nat, x: T)
    ensures (m - {id})[id := x] == m[id := x]
  {
  }

  lemma NotThere<T>(m: map<nat, T>, id: nat)
    requires id !in m
    ensures m - {id} == m
  {
  }

  lemma RelaidView(g: Geo, a: Disk, b: Disk, nodes: Nodes, id: nat, ch: seq<nat>)
    requires SoundDisk(g, a, nodes) && id in nodes && id != 0 && !nodes[id].isDir && Relaid(g, a, b, nodes, id, ch)
    requires ChainFits(g, ch)
    ensures ChainsOn(g, Rechain(nodes, id, ch)) && DataClusters(ch)
    ensures View(g, b, Rechain(nodes, id, ch)) ==
            View(g, a, nodes).(links := LinksOn(g, b), files := View(g, a, nodes).files[id := Raw(b, ChainSectors(g, ch))])
  {
    hide View, Inv, LinksOn, Allocated, GeoOf, Geo.Ok, Geo.FitsOn, Resized, SameBut, Rechained, Available, Apart,
      Raw, ChainSectors;
    GeoBytes(g, a, nodes);
    ViewKeys(g, a, nodes);
    InvAllocated(View(g, a, nodes), nodes, g.ClusterBytes());
    RelaidAvailable(LinksOn(g, a), nodes, id, ch);
    OthersClear(LinksOn(g, a), nodes, id, ch);
    ViewLess(g, a, nodes, id);
    ViewSame(g, a, b, nodes - {id}, ch);
    ViewMoreFile(g, b, nodes - {id}, id, nodes[id].(chain := ch));
    SetAgain(nodes, id, ch);
    NotThere(View(g, a, nodes).dirs, id);
    PutBack(View(g, a, nodes).files, id, Raw(b, ChainSectors(g, ch)));
  }

  lemma RelaidSeparate(g: Geo, a: Disk, b: Disk, nodes: Nodes, id: nat, ch: seq<nat>)
    requires SoundDisk(g, a, nodes) && id in nodes && id != 0 && !nodes[id].isDir && Relaid(g, a, b, nodes, id, ch)
    requires ChainsOn(g, Rechain(nodes, id, ch))
    ensures Disjoint(Rechain(nodes, id, ch)) && OnDisk(g, b, Rechain(nodes, id, ch))
  {
    hide View, Inv, LinksOn, Allocated, GeoOf, Geo.Ok, Geo.FitsOn, Resized, SameBut, Rechained, Available, Disjoint;
    GeoBytes(g, a, nodes);
    ViewKeys(g, a, nodes);
    InvAllocated(View(g, a, nodes), nodes, g.ClusterBytes());
    RelaidAvailable(LinksOn(g, a), nodes, id, ch);
    SetDisjoint(LinksOn(g, a), nodes, id, nodes[id].(chain := ch));
    OnDiskKept(g, a, b, nodes, ch);
  }

  // `c` is `b` with the file's size set.
  ghost predicate SizeSet(g: Geo, b: Disk, c: Disk, nodes: Nodes, id: nat, size: nat) {
    && ChainsOn(g, nodes) && id in nodes && size < 0x1_0000_0000
    && var w, d, p := View(g, b, nodes), nodes[id].parent, nodes[id].pos;
       && d in w.dirs && p < |w.dirs[d]|
       && View(g, c, nodes) == w.(dirs := w.dirs[d := Resize(w.dirs[d], p, size)])
  }

  /** A file relaid and resized holds exactly the new data; nothing else in the tree is different. */
  lemma FileIsRewritten(g: Geo, a: Disk, b: Disk, c: Disk, nodes: Nodes, id: nat, ch: seq<nat>, data: seq<byte>)
    requires SoundDisk(g, a, nodes) && id in nodes && id != 0 && !nodes[id].isDir && Relaid(g, a, b, nodes, id, ch)
    requires ChainFits(g, ch) && DataClusters(ch)
    requires Raw(b, ChainSectors(g, ch)) == Padded(data, 512 * |ChainSectors(g, ch)|)
    requires SizeSet(g, b, c, Rechain(nodes, id, ch), id, |data|) && OnDisk(g, c, Rechain(nodes, id, ch))
    requires g.ClusterBytes() > 0 && |ch| == Needed(g.ClusterBytes(), |data|)
    ensures SoundDisk(g, c, Rechain(nodes, id, ch))
    ensures var v, d, p, t := View(g, a, nodes), nodes[id].parent, nodes[id].pos, TreeOn(g, a, nodes);
            && d in v.dirs && p < |v.dirs[d]|
            && var i := |ListRange(v.dirs[d], 0, p)|;
               && d in t.dirs && i < |t.dirs[d]| && t.dirs[d][i] == ListedAt(v.dirs[d], p)
               && TreeOn(g, c, Rechain(nodes, id, ch)) == WithData(t, d, i, data)
  {
    hide View, Inv, LinksOn, Allocated, GeoOf, Geo.FitsOn, Resized, SameBut, Rechained, Available, Raw,
      ChainSectors, Resize, Needed, TreeOf, Listing, ListRange, ListedAt, NoRepeat, Padded, EntrySlot, StartOf;
    var v, raw := View(g, a, nodes), Raw(b, ChainSectors(g, ch));
    ViewKeys(g, a, nodes);
    RelaidView(g, a, b, nodes, id, ch);
    RelaidAvailable(LinksOn(g, a), nodes, id, ch);
    ResizedParts(LinksOn(g, a), nodes[id].chain, ch);
    DataFits(g, ch, data);
    PaddedPrefix(data, 512 * |ChainSectors(g, ch)|);
    RewriteInv(v, nodes, g.ClusterBytes(), LinksOn(g, b), id, ch, |data|, raw);
    RewriteTree(v, nodes, g.ClusterBytes(), LinksOn(g, b), id, ch, |data|, raw);
  }

  lemma ResizedParts(links: seq<nat>, before: seq<nat>, ch: seq<nat>)
    requires Resized(links, before, ch)
    ensures ch != [] && NoRepeat(ch)
  {
  }

  // ---- a chain cannot be longer than the FAT

  function Elements(ch: seq<nat>): set<nat> {
    set c | c in ch
  }

  lemma {:induction false} SetOfChain(ch: seq<nat>)
    requires NoRepeat(ch)
    ensures |Elements(ch)| == |ch|
  {
    if ch != [] {
      var front, last := ch[..|ch| - 1], ch[|ch| - 1];
      SetOfChain(front);
      NotInPrefix(ch, |ch| - 1);
      assert ch == front + [last];
      assert Elements(ch) == Elements(front) + {last};
    } else {
      assert Elements(ch) == {};
    }
  }

  lemma {:induction false} SetBelow(s: set<nat>, n: nat)
    requires forall c :: c in s ==> c < n
    ensures |s| <= n
  {
    if n == 0 {
      assert s == {};
    } else {
      SetBelow(s - {n - 1}, n - 1);
    }
  }

  lemma ChainBound(ch: seq<nat>, n: nat)
    requires NoRepeat(ch) && forall i :: 0 <= i < |ch| ==> ch[i] < n
    ensures |ch| <= n
  {
    SetOfChain(ch);
    SetBelow(Elements(ch), n);
  }

  // Whatever fits in a chain has a size that fits in 32 bits.
  lemma SizeFits(g: Geo, ch: seq<nat>, length: nat)
    requires g.Ok() && NoRepeat(ch) && ChainFits(g, ch) && |ch| == Needed(g.ClusterBytes(), length)
    ensures length < 0x1_0000_0000
  {
    hide Geo.Clusters, Needed;
    ChainBound(ch, g.Clusters());
    NeededEnough(g.ClusterBytes(), length);
    assert g.ClusterBytes() <= 512 * 255;
    MulGrows(|ch|, MAX_CLUSTERS, g.ClusterBytes());
    MulGrows(g.ClusterBytes(), 512 * 255, MAX_CLUSTERS);
  }
}
