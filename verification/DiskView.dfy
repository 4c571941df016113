/** The volume a disk encodes, and what writing one sector does to it. */
module DiskView {
  import opened Bytes
  import opened PackedFat
  import opened Chains
  import opened Geometry
  import opened Directory
  import opened DirectoryUpdates
  import opened Volume

  type Disk = seq<Sector>

  const SLOTS_PER_SECTOR: nat := 16

  function SectorAt(disk: Disk, lba: nat): Sector {
    if lba < |disk| then disk[lba] else ZeroSector()
  }

  function SlotIn(sector: Sector, i: nat): Slot
    requires i < 16
  {
    sector[32 * i..32 * i + 32]
  }

  function Patch(sector: Sector, i: nat, raw: Slot): (s: Sector)
    requires i < 16
  {
    sector[..32 * i] + raw + sector[32 * i + 32..]
  }

  lemma PatchSlots(sector: Sector, i: nat, raw: Slot, j: nat)
    requires i < 16 && j < 16
    ensures SlotIn(Patch(sector, i, raw), j) == if j == i then raw else SlotIn(sector, j)
  {
    var s := Patch(sector, i, raw);
    assert s[32 * i..32 * i + 32] == raw;
    if j != i {
      assert SlotIn(s, j) == SlotIn(sector, j);
    }
  }

  // ---- directories and file bytes, read off a list of sectors

  function Slots(disk: Disk, lbas: seq<nat>): (slots: seq<Slot>)
    ensures |slots| == 16 * |lbas|
  {
    seq(16 * |lbas|, k requires 0 <= k < 16 * |lbas| => SlotIn(SectorAt(disk, lbas[k / 16]), k % 16))
  }

  function Raw(disk: Disk, lbas: seq<nat>): (bytes: seq<byte>)
    ensures |bytes| == 512 * |lbas|
  {
    seq(512 * |lbas|, k requires 0 <= k < 512 * |lbas| => SectorAt(disk, lbas[k / 512])[k % 512])
  }

  lemma SlotsSame(a: Disk, b: Disk, lbas: seq<nat>)
    requires forall i :: 0 <= i < |lbas| ==> SectorAt(a, lbas[i]) == SectorAt(b, lbas[i])
    ensures Slots(a, lbas) == Slots(b, lbas) && Raw(a, lbas) == Raw(b, lbas)
  {
  }

  lemma DivShift(k: nat, n: nat)
    requires k >= 16 * n
    ensures (k - 16 * n) / 16 == k / 16 - n && (k - 16 * n) % 16 == k % 16
  {
  }

  lemma SlotsConcat(disk: Disk, a: seq<nat>, b: seq<nat>)
    ensures Slots(disk, a + b) == Slots(disk, a) + Slots(disk, b)
  {
    hide SlotIn, SectorAt;
    var whole, parts := Slots(disk, a + b), Slots(disk, a) + Slots(disk, b);
    forall k | 0 <= k < |whole| ensures whole[k] == parts[k] {
      if k < 16 * |a| {
        assert (a + b)[k / 16] == a[k / 16];
      } else {
        DivShift(k, |a|);
        assert (a + b)[k / 16] == b[(k - 16 * |a|) / 16];
      }
    }
  }

  lemma SlotsOfZeros(disk: Disk, lbas: seq<nat>)
    requires forall i :: 0 <= i < |lbas| ==> SectorAt(disk, lbas[i]) == ZeroSector()
    ensures Slots(disk, lbas) == Zeroed(16 * |lbas|)
  {
    forall j: nat | j < 16 ensures SlotIn(ZeroSector(), j) == ZeroSlot() {
    }
  }

  /** Rewriting one slot of one sector of a directory rewrites that slot of the flat directory. */
  lemma SlotsPatched(disk: Disk, lbas: seq<nat>, k: nat, raw: Slot)
    requires NoRepeat(lbas) && k < 16 * |lbas| && lbas[k / 16] < |disk|
    ensures Slots(disk[lbas[k / 16] := Patch(disk[lbas[k / 16]], k % 16, raw)], lbas)
         == SetSlot(Slots(disk, lbas), k, raw)
  {
    var lba := lbas[k / 16];
    var disk' := disk[lba := Patch(disk[lba], k % 16, raw)];
    var before, after := Slots(disk, lbas), Slots(disk', lbas);
    hide Patch, SlotIn;
    forall m | 0 <= m < |before| ensures after[m] == before[k := raw][m] {
      if m / 16 == k / 16 {
        PatchSlots(disk[lba], k % 16, raw, m % 16);
        assert m == k <==> m % 16 == k % 16;
      } else {
        assert lbas[m / 16] != lba;
      }
    }
  }

  // ---- the FAT

  function FatImage(g: Geo, disk: Disk): (fat: seq<byte>)
    ensures |fat| == g.FatBytes()
  {
    seq(g.FatBytes(), i requires 0 <= i < g.FatBytes() => SectorAt(disk, g.FirstFat() + i / 512)[i % 512])
  }

  function LinksOn(g: Geo, disk: Disk): (links: seq<nat>)
    ensures |links| == g.Clusters()
  {
    Links(FatImage(g, disk))
  }

  // ---- the whole volume

  function DirLbas(g: Geo, nodes: Nodes, d: nat): seq<nat>
    requires d in nodes && DataClusters(nodes[d].chain)
  {
    if d == 0 then RootLbas(g) else ChainSectors(g, nodes[d].chain)
  }

  ghost predicate ChainsOn(g: Geo, nodes: Nodes) {
    forall n :: n in nodes ==> forall i :: 0 <= i < |nodes[n].chain| ==> 2 <= nodes[n].chain[i] < g.Clusters()
  }

  lemma ChainOnData(g: Geo, nodes: Nodes, n: nat)
    requires ChainsOn(g, nodes) && n in nodes
    ensures DataClusters(nodes[n].chain)
  {
  }

  ghost function View(g: Geo, disk: Disk, nodes: Nodes): Vol
    requires ChainsOn(g, nodes)
  {
    Vol(LinksOn(g, disk),
        map d | d in nodes && nodes[d].isDir :: Slots(disk, DirLbas(g, nodes, d)),
        map n | n in nodes && !nodes[n].isDir :: Raw(disk, ChainSectors(g, nodes[n].chain)))
  }

  // ---- frames: what a change to some sectors leaves of the view

  // Nothing outside the FAT and the clusters of `ch` changed.
  ghost predicate SameBut(g: Geo, a: Disk, b: Disk, ch: seq<nat>) {
    && |a| == |b|
    && forall lba: nat :: !InFatArea(g, lba) && !InClusters(g, ch, lba) ==> SectorAt(a, lba) == SectorAt(b, lba)
  }

  ghost predicate InClusters(g: Geo, ch: seq<nat>, lba: nat) {
    exists c :: c in ch && c >= 2 && InCluster(g, c, lba)
  }

  lemma SameButTrans(g: Geo, a: Disk, b: Disk, c: Disk, ch: seq<nat>)
    requires SameBut(g, a, b, ch) && SameBut(g, b, c, ch)
    ensures SameBut(g, a, c, ch)
  {
  }

  ghost predicate Apart(nodes: Nodes, n: nat, ch: seq<nat>)
    requires n in nodes
  {
    forall c :: c in nodes[n].chain ==> c !in ch
  }

  lemma RootSame(g: Geo, a: Disk, b: Disk, ch: seq<nat>)
    requires g.Ok() && SameBut(g, a, b, ch)
    ensures Slots(a, RootLbas(g)) == Slots(b, RootLbas(g))
  {
    FatBeforeRoot(g);
    var lbas := RootLbas(g);
    forall i | 0 <= i < |lbas| ensures SectorAt(a, lbas[i]) == SectorAt(b, lbas[i]) {
      assert lbas[i] < g.FirstData();
      forall c | c in ch && c >= 2 ensures !InCluster(g, c, lbas[i]) {
        MulGrows(0, c - 2, g.perCluster);
      }
    }
    SlotsSame(a, b, lbas);
  }

  lemma ChainSame(g: Geo, a: Disk, b: Disk, ch: seq<nat>, own: seq<nat>)
    requires g.Ok() && SameBut(g, a, b, ch) && DataClusters(own) && forall c :: c in own ==> c !in ch
    ensures Slots(a, ChainSectors(g, own)) == Slots(b, ChainSectors(g, own))
    ensures Raw(a, ChainSectors(g, own)) == Raw(b, ChainSectors(g, own))
  {
    var lbas := ChainSectors(g, own);
    forall i | 0 <= i < |lbas| ensures SectorAt(a, lbas[i]) == SectorAt(b, lbas[i]) {
      ChainSectorsIn(g, own, i);
      var c :| c in own && c >= 2 && InCluster(g, c, lbas[i]);
      ClusterNotFat(g, c, lbas[i]);
      forall d | d in ch && d >= 2 ensures !InCluster(g, d, lbas[i]) {
        if InCluster(g, d, lbas[i]) {
          ClustersApart(g, c, d, lbas[i]);
        }
      }
    }
    SlotsSame(a, b, lbas);
  }

  lemma ClusterNotFat(g: Geo, c: nat, lba: nat)
    requires g.Ok() && c >= 2 && InCluster(g, c, lba)
    ensures !InFatArea(g, lba) && g.FirstData() <= lba && g.start < lba
  {
    FatBeforeRoot(g);
    MulGrows(0, c - 2, g.perCluster);
  }

  lemma DirSame(g: Geo, a: Disk, b: Disk, ch: seq<nat>, nodes: Nodes, n: nat)
    requires g.Ok() && SameBut(g, a, b, ch) && n in nodes && DataClusters(nodes[n].chain) && Apart(nodes, n, ch)
    ensures Slots(a, DirLbas(g, nodes, n)) == Slots(b, DirLbas(g, nodes, n))
  {
    if n == 0 {
      RootSame(g, a, b, ch);
    } else {
      ChainSame(g, a, b, ch, nodes[n].chain);
    }
  }

  lemma ViewDir(g: Geo, disk: Disk, nodes: Nodes, d: nat)
    requires ChainsOn(g, nodes) && d in nodes && nodes[d].isDir
    ensures d in View(g, disk, nodes).dirs && DataClusters(nodes[d].chain)
    ensures View(g, disk, nodes).dirs[d] == Slots(disk, DirLbas(g, nodes, d))
  {
  }

  lemma ViewFile(g: Geo, disk: Disk, nodes: Nodes, n: nat)
    requires ChainsOn(g, nodes) && n in nodes && !nodes[n].isDir
    ensures n in View(g, disk, nodes).files && DataClusters(nodes[n].chain)
    ensures View(g, disk, nodes).files[n] == Raw(disk, ChainSectors(g, nodes[n].chain))
  {
  }

  lemma ViewKeys(g: Geo, disk: Disk, nodes: Nodes)
    requires ChainsOn(g, nodes)
    ensures View(g, disk, nodes).links == LinksOn(g, disk)
    ensures forall n :: n in View(g, disk, nodes).dirs <==> n in nodes && nodes[n].isDir
    ensures forall n :: n in View(g, disk, nodes).files <==> n in nodes && !nodes[n].isDir
  {
  }

  /** A change confined to the FAT and to clusters outside a node leaves the node as it was. */
  lemma ViewSame(g: Geo, a: Disk, b: Disk, nodes: Nodes, ch: seq<nat>)
    requires g.Ok() && ChainsOn(g, nodes) && SameBut(g, a, b, ch)
    requires forall n :: n in nodes ==> Apart(nodes, n, ch)
    ensures View(g, b, nodes) == View(g, a, nodes).(links := LinksOn(g, b))
  {
    hide Slots, Raw, SameBut, DirLbas, ChainSectors, LinksOn, Geo.Ok;
    var va, vb := View(g, a, nodes), View(g, b, nodes);
    forall d | d in nodes && nodes[d].isDir ensures vb.dirs[d] == va.dirs[d] {
      DirSame(g, a, b, ch, nodes, d);
    }
    assert vb.dirs == va.dirs;
    forall n | n in nodes && !nodes[n].isDir ensures vb.files[n] == va.files[n] {
      ChainOnData(g, nodes, n);
      ChainSame(g, a, b, ch, nodes[n].chain);
    }
    assert vb.files == va.files;
  }

  // ---- writing one slot of a directory

  lemma RootDistinct(g: Geo)
    ensures NoRepeat(RootLbas(g))
  {
  }

  lemma DirLbasDistinct(g: Geo, nodes: Nodes, d: nat)
    requires d in nodes && DataClusters(nodes[d].chain) && NoRepeat(nodes[d].chain)
    ensures NoRepeat(DirLbas(g, nodes, d))
  {
    RootDistinct(g);
    ChainSectorsDistinct(g, nodes[d].chain);
  }

  lemma DirLbaRange(g: Geo, nodes: Nodes, d: nat, j: nat, sectors: nat)
    requires g.Ok() && g.FitsOn(sectors) && d in nodes && ChainsOn(g, nodes) && DataClusters(nodes[d].chain)
    requires j < |DirLbas(g, nodes, d)|
    ensures var lba := DirLbas(g, nodes, d)[j]; lba < sectors && !InFatArea(g, lba) && g.start < lba
    ensures d == 0 ==> DirLbas(g, nodes, d)[j] < g.FirstData()
    ensures d != 0 ==> DirLbas(g, nodes, d)[j] >= g.FirstData()
  {
    FatBeforeRoot(g);
    if d == 0 {
      MulGrows(0, g.Clusters() - 2, g.perCluster);
    } else {
      ChainSectorInData(g, nodes[d].chain, j, sectors);
    }
  }

  // A sector of directory `d` lies in no other node.
  lemma DirLbaElsewhere(g: Geo, nodes: Nodes, d: nat, j: nat, n: nat, i: nat, sectors: nat)
    requires g.Ok() && g.FitsOn(sectors) && ChainsOn(g, nodes) && Disjoint(nodes)
    requires d in nodes && n in nodes && n != d
    requires DataClusters(nodes[d].chain) && DataClusters(nodes[n].chain)
    requires j < |DirLbas(g, nodes, d)|
    requires i < |DirLbas(g, nodes, n)|
    ensures DirLbas(g, nodes, n)[i] != DirLbas(g, nodes, d)[j]
  {
    DirLbaRange(g, nodes, d, j, sectors);
    DirLbaRange(g, nodes, n, i, sectors);
    if d != 0 && n != 0 {
      forall c | c in nodes[n].chain ensures c !in nodes[d].chain {
        assert c in nodes[d].chain ==> Owns(nodes, n, c) && Owns(nodes, d, c);
      }
      ChainSectorsApart(g, nodes[n].chain, nodes[d].chain, i, j);
    }
  }

  lemma LinksSame(g: Geo, a: Disk, b: Disk)
    requires forall lba: nat :: InFatArea(g, lba) ==> SectorAt(a, lba) == SectorAt(b, lba)
    ensures FatImage(g, a) == FatImage(g, b) && LinksOn(g, a) == LinksOn(g, b)
  {
  }

  /** Writing one slot of one directory's sectors changes exactly that slot of the volume. */
  lemma ViewSlotWrite(g: Geo, disk: Disk, nodes: Nodes, d: nat, k: nat, raw: Slot)
    requires g.Ok() && g.FitsOn(|disk|) && ChainsOn(g, nodes) && Disjoint(nodes)
    requires 0 in nodes && nodes[0].isDir
    requires d in nodes && nodes[d].isDir && DataClusters(nodes[d].chain) && NoRepeat(nodes[d].chain)
    requires k < 16 * |DirLbas(g, nodes, d)|
    ensures var lba := DirLbas(g, nodes, d)[k / 16];
            && lba < |disk| && g.start < lba && !InFatArea(g, lba)
            && d in View(g, disk, nodes).dirs && k < |View(g, disk, nodes).dirs[d]|
            && var v := View(g, disk, nodes);
               View(g, disk[lba := Patch(disk[lba], k % 16, raw)], nodes) == v.(dirs := v.dirs[d := SetSlot(v.dirs[d], k, raw)])
  {
    hide Slots, Raw, Patch, ChainSectors, LinksOn, Geo.Ok, Geo.FitsOn, NoRepeat, Disjoint, DataClusters, DirLbas;
    var lbas := DirLbas(g, nodes, d);
    var lba := lbas[k / 16];
    DirLbaRange(g, nodes, d, k / 16, |disk|);
    DirLbasDistinct(g, nodes, d);
    var disk' := disk[lba := Patch(disk[lba], k % 16, raw)];
    LinksSame(g, disk, disk');
    SlotsPatched(disk, lbas, k, raw);
    var v, v' := View(g, disk, nodes), View(g, disk', nodes);
    forall n | n in nodes && nodes[n].isDir && n != d ensures v'.dirs[n] == v.dirs[n] {
      OtherSlots(g, disk, nodes, d, k / 16, disk'[lba], n);
    }
    assert v'.dirs == v.dirs[d := SetSlot(v.dirs[d], k, raw)];
    forall n | n in nodes && !nodes[n].isDir ensures v'.files[n] == v.files[n] {
      OtherSlots(g, disk, nodes, d, k / 16, disk'[lba], n);
    }
    assert v'.files == v.files;
  }

  lemma OtherSlots(g: Geo, disk: Disk, nodes: Nodes, d: nat, j: nat, buf: Sector, n: nat)
    requires g.Ok() && g.FitsOn(|disk|) && ChainsOn(g, nodes) && Disjoint(nodes)
    requires d in nodes && DataClusters(nodes[d].chain) && j < |DirLbas(g, nodes, d)|
    requires DirLbas(g, nodes, d)[j] < |disk|
    requires n in nodes && n != d
    ensures DataClusters(nodes[n].chain)
    ensures var disk' := disk[DirLbas(g, nodes, d)[j] := buf];
            && Slots(disk', DirLbas(g, nodes, n)) == Slots(disk, DirLbas(g, nodes, n))
            && (n != 0 ==> Raw(disk', ChainSectors(g, nodes[n].chain)) == Raw(disk, ChainSectors(g, nodes[n].chain)))
  {
    var disk' := disk[DirLbas(g, nodes, d)[j] := buf];
    ChainOnData(g, nodes, n);
    var lbas := DirLbas(g, nodes, n);
    forall i | 0 <= i < |lbas| ensures SectorAt(disk', lbas[i]) == SectorAt(disk, lbas[i]) {
      DirLbaElsewhere(g, nodes, d, j, n, i, |disk|);
    }
    SlotsSame(disk', disk, lbas);
  }

  // ---- writing FAT bytes

  function WithByte(sector: Sector, i: nat, b: byte): Sector
    requires i < 512
  {
    sector[i := b]
  }

  function FatSector(g: Geo, i: nat): nat {
    g.FirstFat() + i / 512
  }

  lemma FatSectorIn(g: Geo, i: nat, sectors: nat)
    requires g.Ok() && g.FitsOn(sectors) && i < g.FatBytes()
    ensures InFatArea(g, FatSector(g, i)) && FatSector(g, i) < sectors
  {
    FatBeforeRoot(g);
    MulGrows(0, g.Clusters() - 2, g.perCluster);
  }

  lemma FatImageBytes(g: Geo, disk: Disk)
    ensures forall i :: 0 <= i < g.FatBytes() ==> FatImage(g, disk)[i] == SectorAt(disk, FatSector(g, i))[i % 512]
  {
  }

  // The disk with byte `i` of the FAT set.
  function SetFatByte(g: Geo, disk: Disk, i: nat, b: byte): (disk': Disk)
    requires FatSector(g, i) < |disk|
    ensures |disk'| == |disk|
  {
    disk[FatSector(g, i) := WithByte(disk[FatSector(g, i)], i % 512, b)]
  }

  lemma FatByteWrite(g: Geo, disk: Disk, i: nat, b: byte)
    requires g.Ok() && g.FitsOn(|disk|) && i < g.FatBytes()
    ensures InFatArea(g, FatSector(g, i)) && FatSector(g, i) < |disk|
    ensures FatImage(g, SetFatByte(g, disk, i, b)) == FatImage(g, disk)[i := b]
    ensures SameBut(g, disk, SetFatByte(g, disk, i, b), [])
  {
    FatSectorIn(g, i, |disk|);
    var before, after := FatImage(g, disk), FatImage(g, SetFatByte(g, disk, i, b));
    forall k | 0 <= k < |before| ensures after[k] == before[i := b][k] {
      assert k == i <==> k / 512 == i / 512 && k % 512 == i % 512;
    }
  }

  // Two neighbouring bytes of one sector are set by one write.
  lemma OneSector(g: Geo, disk: Disk, i: nat, b0: byte, b1: byte)
    requires i % 512 != 511 && FatSector(g, i) < |disk|
    ensures FatSector(g, i + 1) == FatSector(g, i) && (i + 1) % 512 == i % 512 + 1
    ensures var lba := FatSector(g, i);
            SetFatByte(g, SetFatByte(g, disk, i, b0), i + 1, b1)
            == disk[lba := WithByte(WithByte(disk[lba], i % 512, b0), i % 512 + 1, b1)]
  {
  }

  lemma NextSector(g: Geo, i: nat)
    requires i % 512 == 511
    ensures FatSector(g, i + 1) == FatSector(g, i) + 1 && (i + 1) % 512 == 0
  {
  }

  // Only the link of cluster `c` may differ.
  ghost predicate OnlyLink(g: Geo, a: Disk, b: Disk, c: nat) {
    && SameBut(g, a, b, [])
    && forall x :: 0 <= x < g.Clusters() && x != c ==> LinksOn(g, b)[x] == LinksOn(g, a)[x]
  }

  // The disk with only the first, then with both bytes of a link written.
  function HalfLink(g: Geo, disk: Disk, c: nat, value: nat): (disk': Disk)
    requires InFat(FatImage(g, disk), c) && FatSector(g, Offset(c)) < |disk|
    ensures |disk'| == |disk|
  {
    SetFatByte(g, disk, Offset(c), NewBytes(FatImage(g, disk), c, value)[0])
  }

  function WholeLink(g: Geo, disk: Disk, c: nat, value: nat): (disk': Disk)
    requires InFat(FatImage(g, disk), c) && FatSector(g, Offset(c)) < |disk| && FatSector(g, Offset(c) + 1) < |disk|
    ensures |disk'| == |disk|
  {
    SetFatByte(g, HalfLink(g, disk, c, value), Offset(c) + 1, NewBytes(FatImage(g, disk), c, value)[1])
  }

  lemma LinkSectors(g: Geo, disk: Disk, c: nat)
    requires g.Ok() && g.FitsOn(|disk|) && c < g.Clusters()
    ensures InFat(FatImage(g, disk), c) && Offset(c) + 1 < g.FatBytes()
    ensures FatSector(g, Offset(c)) < |disk| && FatSector(g, Offset(c) + 1) < |disk|
  {
    hide FatSector, Geo.FirstData, FatImage;
    assert g.FatBytes() % 512 == 0;
    CountIsInFat(FatImage(g, disk), c);
    FatSectorIn(g, Offset(c), |disk|);
    FatSectorIn(g, Offset(c) + 1, |disk|);
  }

  lemma LinkImages(g: Geo, disk: Disk, c: nat, value: nat)
    requires g.Ok() && g.FitsOn(|disk|) && InFat(FatImage(g, disk), c)
    requires FatSector(g, Offset(c)) < |disk| && FatSector(g, Offset(c) + 1) < |disk|
    ensures FatImage(g, HalfLink(g, disk, c, value)) == PutFirstByte(FatImage(g, disk), c, value)
    ensures FatImage(g, WholeLink(g, disk, c, value)) == Put(FatImage(g, disk), c, value)
    ensures SameBut(g, disk, HalfLink(g, disk, c, value), []) && SameBut(g, disk, WholeLink(g, disk, c, value), [])
  {
    hide FatImage, NewBytes, SameBut, SetFatByte, Offset, Geo.Ok, Geo.FitsOn;
    var o, out := Offset(c), NewBytes(FatImage(g, disk), c, value);
    FatByteWrite(g, disk, o, out[0]);
    FatByteWrite(g, HalfLink(g, disk, c, value), o + 1, out[1]);
    SameButTrans(g, disk, HalfLink(g, disk, c, value), WholeLink(g, disk, c, value), []);
  }

  lemma LinksAfterPut(g: Geo, a: Disk, b: Disk, c: nat, value: nat)
    requires InFat(FatImage(g, a), c) && FatImage(g, b) == Put(FatImage(g, a), c, value)
    ensures c < g.Clusters() && LinksOn(g, b) == LinksOn(g, a)[c := value % 0x1000]
  {
    hide FatImage, Put, Links, Offset;
    LinksPut(FatImage(g, a), c, value);
  }

  lemma LinksAfterHalf(g: Geo, a: Disk, b: Disk, c: nat, value: nat)
    requires InFat(FatImage(g, a), c) && FatImage(g, b) == PutFirstByte(FatImage(g, a), c, value)
    ensures forall x :: 0 <= x < g.Clusters() && x != c ==> LinksOn(g, b)[x] == LinksOn(g, a)[x]
  {
    hide FatImage, PutFirstByte, Links, Offset;
    LinksPutFirstByte(FatImage(g, a), c, value);
  }

  /** A link update on disk: the link reads back as written, every other link and every sector outside
      the FAT is as before, and so it is with only the first of its two bytes written. */
  lemma LinkWritten(g: Geo, disk: Disk, c: nat, value: nat)
    requires g.Ok() && g.FitsOn(|disk|) && InFat(FatImage(g, disk), c)
    requires FatSector(g, Offset(c)) < |disk| && FatSector(g, Offset(c) + 1) < |disk|
    ensures OnlyLink(g, disk, HalfLink(g, disk, c, value), c) && OnlyLink(g, disk, WholeLink(g, disk, c, value), c)
    ensures c < g.Clusters() && LinksOn(g, WholeLink(g, disk, c, value)) == LinksOn(g, disk)[c := value % 0x1000]
  {
    LinkImages(g, disk, c, value);
    hide FatImage, SameBut, HalfLink, WholeLink, Offset, Geo.Ok, Geo.FitsOn, Put, PutFirstByte, LinksOn,
      Geo.Clusters, InFat, FatSector;
    LinksAfterHalf(g, disk, HalfLink(g, disk, c, value), c, value);
    LinksAfterPut(g, disk, WholeLink(g, disk, c, value), c, value);
  }

  // ---- places of slots

  datatype Loc = Loc(lba: nat, offset: nat)

  function LocAt(lbas: seq<nat>, k: nat): Loc
    requires k < 16 * |lbas|
  {
    Loc(lbas[k / 16], 32 * (k % 16))
  }

  function LocsAt(lbas: seq<nat>, a: nat, n: nat): (locs: seq<Loc>)
    requires a + n <= 16 * |lbas|
    ensures |locs| == n
  {
    if n == 0 then [] else LocsAt(lbas, a, n - 1) + [LocAt(lbas, a + n - 1)]
  }

  lemma {:induction false} LocsIndex(lbas: seq<nat>, a: nat, n: nat, i: nat)
    requires a + n <= 16 * |lbas| && i < n
    ensures LocsAt(lbas, a, n)[i] == LocAt(lbas, a + i)
  {
    if i < n - 1 {
      LocsIndex(lbas, a, n - 1, i);
    }
  }

  lemma SlotPlace(j: nat, i: nat)
    requires i < 16
    ensures (16 * j + i) / 16 == j && (16 * j + i) % 16 == i
  {
  }

  lemma LocInjective(lbas: seq<nat>, k: nat, m: nat)
    requires NoRepeat(lbas) && k < 16 * |lbas| && m < 16 * |lbas| && LocAt(lbas, k) == LocAt(lbas, m)
    ensures k == m
  {
    NoRepeatAt(lbas, k / 16, m / 16);
  }

  // The sixteen slots of one of a directory's sectors.
  lemma SectorSlots(disk: Disk, lbas: seq<nat>, j: nat)
    requires j < |lbas|
    ensures forall i :: 16 * j <= i < 16 * j + 16 ==> Slots(disk, lbas)[i] == SlotIn(SectorAt(disk, lbas[j]), i - 16 * j)
  {
    forall i: nat | 16 * j <= i < 16 * j + 16
      ensures Slots(disk, lbas)[i] == SlotIn(SectorAt(disk, lbas[j]), i - 16 * j)
    {
      SlotPlace(j, i - 16 * j);
    }
  }
}
