/** The boot sector, and when a disk holds a volume that can be read, or one whose invariant holds. */
module Mounts {
  import opened Bytes
  import opened Chains
  import opened Geometry
  import opened Directory
  import opened Volume
  import opened DiskView

  // The fields of a BIOS parameter block, with the checks made on them, in order.
  function GeoOf(boot: Sector, start: nat): Result<Geo> {
    if boot[510] != 0x55 || boot[511] != 0xAA then Err(BadSignature)
    else if U16(boot[11], boot[12]) != 512 then Err(BadSectorSize)
    else if U16(boot[17], boot[18]) == 0 then Err(NotFat12)
    else if U16(boot[22], boot[23]) == 0 then Err(NoFat)
    else Ok(Geo(start, U16(boot[14], boot[15]), boot[16], U16(boot[22], boot[23]), U16(boot[17], boot[18]), boot[13]))
  }

  // `disk` holds a volume of shape `g`.
  ghost predicate OnDisk(g: Geo, disk: Disk, nodes: Nodes) {
    && g.Ok() && g.FitsOn(|disk|) && ChainsOn(g, nodes)
    && GeoOf(SectorAt(disk, g.start), g.start) == Ok(g)
  }

  ghost predicate ReadableDisk(g: Geo, disk: Disk, nodes: Nodes) {
    OnDisk(g, disk, nodes) && ReadableVol(View(g, disk, nodes), nodes)
  }

  ghost predicate SoundDisk(g: Geo, disk: Disk, nodes: Nodes) {
    OnDisk(g, disk, nodes) && Inv(View(g, disk, nodes), nodes, g.ClusterBytes())
  }

  ghost function TreeOn(g: Geo, disk: Disk, nodes: Nodes): Tree
    requires ChainsOn(g, nodes)
  {
    TreeOf(View(g, disk, nodes), nodes)
  }

  lemma SoundIsReadable(g: Geo, disk: Disk, nodes: Nodes)
    requires SoundDisk(g, disk, nodes)
    ensures ReadableDisk(g, disk, nodes)
  {
    hide Inv, ReadableVol, View;
    InvReadable(View(g, disk, nodes), nodes, g.ClusterBytes());
  }

  // ---- walking links

  // What the FAT says of one cluster: out of range, free by mistake, the end, or another cluster.
  function NextOf(links: seq<nat>, c: nat): Result<Option<nat>> {
    if c >= |links| then Err(OutOfRange)
    else if links[c] == 0 then Err(FreeInChain)
    else if IsEndMark(links[c]) then Ok(None)
    else Ok(Some(links[c]))
  }

  lemma NextInChain(links: seq<nat>, ch: seq<nat>, i: nat)
    requires IsChain(links, ch) && i < |ch|
    ensures NextOf(links, ch[i]) == if i + 1 < |ch| then Ok(Some(ch[i + 1])) else Ok(None)
  {
    ChainStep(links, ch, i);
  }

  lemma FatBytesWhole(g: Geo)
    ensures g.FatBytes() % 512 == 0
  {
  }

  ghost predicate Extends(before: seq<Disk>, after: seq<Disk>) {
    |before| <= |after| && after[..|before|] == before
  }

  lemma ExtendsAt(before: seq<Disk>, after: seq<Disk>, i: nat)
    requires Extends(before, after) && i < |before|
    ensures after[i] == before[i]
  {
    assert after[..|before|][i] == before[i];
  }

  lemma ExtendsTrans(a: seq<Disk>, b: seq<Disk>, c: seq<Disk>)
    requires Extends(a, b) && Extends(b, c)
    ensures Extends(a, c)
  {
    assert c[..|a|] == c[..|b|][..|a|];
  }

  lemma OnDiskKept(g: Geo, a: Disk, b: Disk, nodes: Nodes, ch: seq<nat>)
    requires OnDisk(g, a, nodes) && SameBut(g, a, b, ch)
    ensures OnDisk(g, b, nodes) && SectorAt(b, g.start) == SectorAt(a, g.start)
  {
    FatBeforeRoot(g);
    forall c | c in ch && c >= 2 ensures !InCluster(g, c, g.start) {
      MulGrows(0, c - 2, g.perCluster);
    }
  }

  // Where a directory's entries live: the fixed root area, or a cluster chain.
  datatype DirLocation = Root | Cluster(c: nat) {
    function Id(): nat {
      match this
      case Root => 0
      case Cluster(c) => c
    }
  }

  // `dir` names a directory of the volume.
  ghost predicate IsDirAt(nodes: Nodes, dir: DirLocation) {
    dir.Id() in nodes && nodes[dir.Id()].isDir && (dir.Cluster? ==> dir.c != 0)
  }

  lemma ReadableChain(v: Vol, nodes: Nodes, n: nat)
    requires ReadableVol(v, nodes) && n in nodes && n != 0
    ensures ChainFrom(v.links, nodes[n].chain, n)
  {
    hide ChainFrom, Readable;
  }

  lemma ChainFromParts(links: seq<nat>, ch: seq<nat>, n: nat)
    requires ChainFrom(links, ch, n)
    ensures IsChain(links, ch) && ch != [] && ch[0] == n
  {
  }

  lemma ChainOfNode(g: Geo, disk: Disk, nodes: Nodes, n: nat)
    requires ReadableDisk(g, disk, nodes) && n in nodes && n != 0
    ensures IsChain(LinksOn(g, disk), nodes[n].chain) && DataClusters(nodes[n].chain)
    ensures nodes[n].chain != [] && nodes[n].chain[0] == n
  {
    hide View, LinksOn, ReadableVol, ChainFrom, GeoOf, Geo.Ok, Geo.FitsOn;
    ViewKeys(g, disk, nodes);
    ReadableChain(View(g, disk, nodes), nodes, n);
    ChainFromParts(LinksOn(g, disk), nodes[n].chain, n);
    ChainOnData(g, nodes, n);
  }

  lemma RootIsEmpty(g: Geo, disk: Disk, nodes: Nodes)
    requires ReadableDisk(g, disk, nodes)
    ensures 0 in nodes && nodes[0].isDir && nodes[0].chain == []
  {
    hide View;
  }
}
