/** What one step of an operation - writing the sectors of free clusters, a link, a slot - does to
    the volume that a disk holds. */
module DiskSteps {
  import opened Bytes
  import opened Chains
  import opened Geometry
  import opened Directory
  import opened DirectoryUpdates
  import opened Volume
  import opened VolumeUpdates
  import opened Trees
  import opened DiskView
  import opened Mounts

  // Only the sectors and the links of the clusters `ch` may differ.
  ghost predicate Within(g: Geo, a: Disk, b: Disk, ch: seq<nat>) {
    SameBut(g, a, b, ch) && LinksBut(LinksOn(g, a), LinksOn(g, b), ch)
  }

  ghost predicate LinksBut(before: seq<nat>, after: seq<nat>, ch: seq<nat>) {
    |after| == |before| && forall x :: 0 <= x < |before| && x !in ch ==> after[x] == before[x]
  }

  lemma SameButMore(g: Geo, a: Disk, b: Disk, ch: seq<nat>)
    requires SameBut(g, a, b, [])
    ensures SameBut(g, a, b, ch)
  {
  }

  lemma LinkStep(g: Geo, a: Disk, b: Disk, b': Disk, ch: seq<nat>, c: nat)
    requires Within(g, a, b, ch) && OnlyLink(g, b, b', c) && c in ch
    ensures Within(g, a, b', ch)
  {
    hide LinksOn, SameBut;
    SameButMore(g, b, b', ch);
    SameButTrans(g, a, b, b', ch);
  }

  // Writing one sector of one of the clusters.
  lemma SectorWrite(g: Geo, disk: Disk, ch: seq<nat>, c: nat, s: nat, buf: Sector)
    requires g.Ok() && g.FitsOn(|disk|) && c in ch && 2 <= c < g.Clusters() && s < g.perCluster
    ensures g.ClusterLba(c) + s < |disk|
    ensures var disk' := disk[g.ClusterLba(c) + s := buf];
            && FatImage(g, disk') == FatImage(g, disk) && LinksOn(g, disk') == LinksOn(g, disk)
            && SameBut(g, disk, disk', ch)
  {
    hide Geo.Ok, Geo.FitsOn, Geo.Clusters, FatImage, LinksOn;
    var lba := g.ClusterLba(c) + s;
    ClusterInData(g, c, |disk|);
    assert InCluster(g, c, lba);
    ClusterNotFat(g, c, lba);
    LinksSame(g, disk, disk[lba := buf]);
  }

  lemma SectorStep(g: Geo, a: Disk, b: Disk, ch: seq<nat>, c: nat, s: nat, buf: Sector)
    requires g.Ok() && g.FitsOn(|b|) && c in ch && 2 <= c < g.Clusters() && s < g.perCluster
    requires Within(g, a, b, ch)
    ensures g.ClusterLba(c) + s < |b|
    ensures Within(g, a, b[g.ClusterLba(c) + s := buf], ch)
  {
    hide LinksOn, SameBut, Geo.Ok, Geo.FitsOn;
    SectorWrite(g, b, ch, c, s, buf);
    SameButTrans(g, a, b, b[g.ClusterLba(c) + s := buf], ch);
  }

  // ---- changes to free clusters are invisible

  lemma FreeIsClear(links: seq<nat>, nodes: Nodes, ch: seq<nat>)
    requires 0 in nodes && nodes[0].chain == [] && Chained(links, nodes) && AllFree(links, ch)
    ensures forall n :: n in nodes ==> Apart(nodes, n, ch)
  {
    forall n | n in nodes ensures Apart(nodes, n, ch) {
      forall c | c in nodes[n].chain ensures c !in ch {
        assert Owns(nodes, n, c);
        if c in ch {
          FreeIsUnowned(links, nodes, n, c);
        }
      }
    }
  }

  lemma FreeSurvive(before: seq<nat>, after: seq<nat>, nodes: Nodes, ch: seq<nat>)
    requires 0 in nodes && nodes[0].chain == [] && Chained(before, nodes) && AllFree(before, ch)
    requires LinksBut(before, after, ch)
    ensures Chained(after, nodes)
  {
    forall c | 0 <= c < |before| && after[c] != before[c] ensures before[c] == 0 {
      assert c in ch;
    }
    ChainsSurvive(before, after, nodes);
  }

  lemma SameShape(v: Vol, v': Vol, nodes: Nodes)
    requires ReadableVol(v, nodes) && v' == v.(links := v'.links) && |v'.links| == |v.links|
    requires Chained(v'.links, nodes)
    ensures ReadableVol(v', nodes) && TreeOf(v', nodes) == TreeOf(v, nodes)
  {
    hide Readable, Listing, SizeIn, Prefix, Chained;
  }

  lemma ReadableRoot(v: Vol, nodes: Nodes)
    requires ReadableVol(v, nodes)
    ensures 0 in nodes && nodes[0].isDir && nodes[0].chain == [] && Chained(v.links, nodes) && |v.links| <= MAX_CLUSTERS
  {
  }

  /** Whatever is written to clusters that are free, a reader of the volume sees what it saw. */
  lemma Invisible(g: Geo, a: Disk, b: Disk, nodes: Nodes, ch: seq<nat>)
    requires ReadableDisk(g, a, nodes) && AllFree(LinksOn(g, a), ch) && Within(g, a, b, ch)
    ensures ReadableDisk(g, b, nodes) && TreeOn(g, b, nodes) == TreeOn(g, a, nodes)
    ensures View(g, b, nodes) == View(g, a, nodes).(links := LinksOn(g, b))
  {
    hide View, ReadableVol, SameBut, LinksOn, AllFree, LinksBut, Apart;
    ReadableRoot(View(g, a, nodes), nodes);
    ViewKeys(g, a, nodes);
    OnDiskKept(g, a, b, nodes, ch);
    FreeIsClear(LinksOn(g, a), nodes, ch);
    ViewSame(g, a, b, nodes, ch);
    FreeSurvive(LinksOn(g, a), LinksOn(g, b), nodes, ch);
    assert |LinksOn(g, b)| == |LinksOn(g, a)|;
    SameShape(View(g, a, nodes), View(g, b, nodes), nodes);
  }

  // ---- a node more or less

  ghost predicate ChainFits(g: Geo, ch: seq<nat>) {
    forall i :: 0 <= i < |ch| ==> 2 <= ch[i] < g.Clusters()
  }

  lemma ViewMoreDir(g: Geo, disk: Disk, nodes: Nodes, id: nat, node: Node)
    requires ChainsOn(g, nodes) && id !in nodes && id != 0 && ChainFits(g, node.chain) && node.isDir
    ensures DataClusters(node.chain) && ChainsOn(g, nodes[id := node])
    ensures var v := View(g, disk, nodes);
            View(g, disk, nodes[id := node]) == v.(dirs := v.dirs[id := Slots(disk, ChainSectors(g, node.chain))])
  {
    hide Slots, Raw, ChainSectors, LinksOn, RootLbas;
    var v, v' := View(g, disk, nodes), View(g, disk, nodes[id := node]);
    assert v'.dirs == v.dirs[id := Slots(disk, ChainSectors(g, node.chain))];
    assert v'.files == v.files;
  }

  lemma ViewMoreFile(g: Geo, disk: Disk, nodes: Nodes, id: nat, node: Node)
    requires ChainsOn(g, nodes) && id !in nodes && id != 0 && ChainFits(g, node.chain) && !node.isDir
    ensures DataClusters(node.chain) && ChainsOn(g, nodes[id := node])
    ensures var v := View(g, disk, nodes);
            View(g, disk, nodes[id := node]) == v.(files := v.files[id := Raw(disk, ChainSectors(g, node.chain))])
  {
    hide Slots, Raw, ChainSectors, LinksOn, RootLbas;
    var v, v' := View(g, disk, nodes), View(g, disk, nodes[id := node]);
    assert v'.dirs == v.dirs;
    assert v'.files == v.files[id := Raw(disk, ChainSectors(g, node.chain))];
  }

  lemma ViewLess(g: Geo, disk: Disk, nodes: Nodes, id: nat)
    requires ChainsOn(g, nodes)
    ensures ChainsOn(g, nodes - {id})
    ensures var v := View(g, disk, nodes); View(g, disk, nodes - {id}) == Vol(v.links, v.dirs - {id}, v.files - {id})
  {
    hide Slots, Raw, ChainSectors, LinksOn, RootLbas;
    var v, v' := View(g, disk, nodes), View(g, disk, nodes - {id});
    assert v'.dirs == v.dirs - {id};
    assert v'.files == v.files - {id};
  }

  // ---- data laid over clusters

  function DataByte(data: seq<byte>, k: nat): byte {
    if k < |data| then data[k] else 0
  }

  function DataBytes(data: seq<byte>, from: nat, n: nat): (s: seq<byte>)
    ensures |s| == n && forall j :: 0 <= j < n ==> s[j] == DataByte(data, from + j)
  {
    if n == 0 then [] else DataBytes(data, from, n - 1) + [DataByte(data, from + n - 1)]
  }

  // Sector `q` of `data` padded with zeros.
  function DataSector(data: seq<byte>, q: nat): Sector {
    DataBytes(data, 512 * q, 512)
  }

  function Padded(data: seq<byte>, n: nat): (s: seq<byte>)
    ensures |s| == n
  {
    DataBytes(data, 0, n)
  }

  // The first `n` of `lbas` hold the first `n` sectors of `data`.
  ghost predicate Filled(disk: Disk, lbas: seq<nat>, data: seq<byte>, n: nat) {
    n <= |lbas| && forall q :: 0 <= q < n ==> SectorAt(disk, lbas[q]) == DataSector(data, q)
  }

  lemma FilledStep(disk: Disk, lbas: seq<nat>, data: seq<byte>, n: nat)
    requires NoRepeat(lbas) && n < |lbas| && lbas[n] < |disk| && Filled(disk, lbas, data, n)
    ensures Filled(disk[lbas[n] := DataSector(data, n)], lbas, data, n + 1)
  {
    hide DataSector;
  }

  lemma FilledKept(g: Geo, a: Disk, b: Disk, ch: seq<nat>, data: seq<byte>, n: nat)
    requires g.Ok() && DataClusters(ch) && SameBut(g, a, b, []) && Filled(a, ChainSectors(g, ch), data, n)
    ensures Filled(b, ChainSectors(g, ch), data, n)
  {
    hide DataSector, Geo.Ok;
    var lbas := ChainSectors(g, ch);
    forall q | 0 <= q < n ensures SectorAt(b, lbas[q]) == DataSector(data, q) {
      ChainSectorsIn(g, ch, q);
      var c :| c in ch && c >= 2 && InCluster(g, c, lbas[q]);
      ClusterNotFat(g, c, lbas[q]);
    }
  }

  lemma DataAt(data: seq<byte>, k: nat)
    ensures DataSector(data, k / 512)[k % 512] == DataByte(data, k)
  {
    assert 512 * (k / 512) + k % 512 == k;
  }

  /** Sectors filled one by one read back as the data followed by zeros. */
  lemma FilledIsPadded(disk: Disk, lbas: seq<nat>, data: seq<byte>)
    requires Filled(disk, lbas, data, |lbas|)
    ensures Raw(disk, lbas) == Padded(data, 512 * |lbas|)
  {
    hide DataSector, SectorAt;
    forall k | 0 <= k < 512 * |lbas| ensures Raw(disk, lbas)[k] == Padded(data, 512 * |lbas|)[k] {
      DataAt(data, k);
    }
  }

  lemma PaddedPrefix(data: seq<byte>, n: nat)
    requires |data| <= n
    ensures Padded(data, n)[..|data|] == data && Prefix(Padded(data, n), |data|) == data
  {
  }

  // ---- a directory grown by one cluster

  ghost predicate ZeroFrom(g: Geo, disk: Disk, c: nat, from: nat)
    requires c >= 2
  {
    forall s :: from <= s < g.perCluster ==> SectorAt(disk, ClusterSectors(g, c)[s]) == ZeroSector()
  }

  lemma ZeroKept(g: Geo, a: Disk, b: Disk, c: nat)
    requires g.Ok() && c >= 2 && SameBut(g, a, b, []) && ZeroFrom(g, a, c, 0)
    ensures ZeroFrom(g, b, c, 0)
  {
    hide Geo.Ok;
    forall s | 0 <= s < g.perCluster ensures SectorAt(b, ClusterSectors(g, c)[s]) == ZeroSector() {
      ClusterNotFat(g, c, ClusterSectors(g, c)[s]);
    }
  }

  lemma LongerSlots(g: Geo, disk: Disk, ch: seq<nat>, c: nat)
    requires DataClusters(ch) && c >= 2 && ZeroFrom(g, disk, c, 0)
    ensures DataClusters(ch + [c])
    ensures Slots(disk, ChainSectors(g, ch + [c])) == Slots(disk, ChainSectors(g, ch)) + Zeroed(16 * g.perCluster)
  {
    hide Slots, ChainSectors, ClusterSectors;
    ChainSectorsAppend(g, ch, c);
    SlotsConcat(disk, ChainSectors(g, ch), ClusterSectors(g, c));
    SlotsOfZeros(disk, ClusterSectors(g, c));
  }

  // A node that is set anew shows what its new chain holds.
  lemma ResetDir(g: Geo, disk: Disk, nodes: Nodes, d: nat, node: Node)
    requires ChainsOn(g, nodes) && d in nodes && d != 0 && nodes[d].isDir && node.isDir && ChainFits(g, node.chain)
    ensures DataClusters(node.chain) && ChainsOn(g, nodes[d := node])
    ensures var v := View(g, disk, nodes);
            View(g, disk, nodes[d := node]) == v.(dirs := v.dirs[d := Slots(disk, ChainSectors(g, node.chain))])
  {
    hide Slots, Raw, ChainSectors, LinksOn, RootLbas;
    var v, v' := View(g, disk, nodes), View(g, disk, nodes[d := node]);
    assert v'.dirs == v.dirs[d := Slots(disk, ChainSectors(g, node.chain))];
    assert v'.files == v.files;
  }

  lemma GrownView(g: Geo, a: Disk, b: Disk, nodes: Nodes, d: nat, c: nat)
    requires ReadableDisk(g, a, nodes) && d in nodes && d != 0 && nodes[d].isDir
    requires IsFreeCluster(LinksOn(g, a), c) && SameBut(g, a, b, [c]) && ZeroFrom(g, b, c, 0)
    ensures ChainsOn(g, nodes[d := nodes[d].(chain := nodes[d].chain + [c])]) && d in View(g, a, nodes).dirs
    ensures View(g, b, nodes[d := nodes[d].(chain := nodes[d].chain + [c])])
         == GrownDir(View(g, a, nodes), LinksOn(g, b), d, 16 * g.perCluster)
  {
    hide View, ReadableVol, SameBut, LinksOn, Apart, Slots, ChainSectors, ZeroFrom, Zeroed;
    var v := View(g, a, nodes);
    ReadableRoot(v, nodes);
    ViewKeys(g, a, nodes);
    FreeIsClear(LinksOn(g, a), nodes, [c]);
    ViewSame(g, a, b, nodes, [c]);
    ViewDir(g, a, nodes, d);
    ViewDir(g, b, nodes, d);
    LongerSlots(g, b, nodes[d].chain, c);
    ResetDir(g, b, nodes, d, nodes[d].(chain := nodes[d].chain + [c]));
  }

  lemma ExtendRechains(links: seq<nat>, ch: seq<nat>, c: nat)
    requires IsChain(links, ch) && IsFreeCluster(links, c)
    ensures Rechained(links, Extended(links, ch, c), ch, ch + [c]) && FreeCount(Extended(links, ch, c)) == FreeCount(links) - 1
  {
    hide FreeCount;
    ExtendLinks(links, ch, c);
    var after, longer := links[ch[|ch| - 1] := c][c := END_OF_CHAIN], ch + [c];
    forall x | 0 <= x < |links| && x !in longer ensures x !in ch && after[x] == links[x] {
      assert x in ch ==> x in longer;
    }
    assert forall i :: 0 <= i < |longer| ==> after[longer[i]] == LinkAt(longer, i);
  }

  // `b` is sound with `c` appended to directory `d`, and shows what `a` showed.
  ghost predicate GrownSound(g: Geo, a: Disk, b: Disk, nodes: Nodes, d: nat, c: nat)
    requires ChainsOn(g, nodes) && d in nodes
  {
    var nodes' := nodes[d := nodes[d].(chain := nodes[d].chain + [c])];
    && SoundDisk(g, b, nodes') && TreeOn(g, b, nodes') == TreeOn(g, a, nodes)
    && d in View(g, a, nodes).dirs
    && View(g, b, nodes') == GrownDir(View(g, a, nodes), LinksOn(g, b), d, 16 * g.perCluster)
  }

  /** A directory whose chain was extended by a zeroed cluster is sound, and shows the same tree. */
  lemma GrownIsSound(g: Geo, a: Disk, b: Disk, nodes: Nodes, d: nat, c: nat)
    requires SoundDisk(g, a, nodes) && d in nodes && d != 0 && nodes[d].isDir
    requires IsFreeCluster(LinksOn(g, a), c) && SameBut(g, a, b, [c]) && ZeroFrom(g, b, c, 0)
    requires Rechained(LinksOn(g, a), LinksOn(g, b), nodes[d].chain, nodes[d].chain + [c])
    ensures GrownSound(g, a, b, nodes, d, c)
  {
    hide View, Inv, SameBut, LinksOn, ZeroFrom, Rechained, GrownDir, TreeOf, IsFreeCluster;
    SoundIsReadable(g, a, nodes);
    OnDiskKept(g, a, b, nodes, [c]);
    GrownView(g, a, b, nodes, d, c);
    ViewKeys(g, a, nodes);
    GrowInv(View(g, a, nodes), nodes, g.ClusterBytes(), LinksOn(g, b), d, c, 16 * g.perCluster);
    GrowTree(View(g, a, nodes), nodes, g.ClusterBytes(), LinksOn(g, b), d, c, 16 * g.perCluster);
  }
}
