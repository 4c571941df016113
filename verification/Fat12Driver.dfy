/** The FAT12 driver: a mounted volume with its cached FAT, and the operations on it. */
module Fat12Driver {
  import opened Bytes
  import opened PackedFat
  import opened ShortNames
  import opened LongNames
  import opened Chains
  import opened Geometry
  import opened Directory
  import opened DirectoryUpdates
  import opened NameEntries
  import opened Volume
  import opened VolumeUpdates
  import opened Trees
  import opened DiskView
  import opened Mounts
  import opened DiskSteps
  import opened Creations
  import opened Removals
  import opened Rewrites
  import opened DirReader
  import opened SlotSearch

  // Where a new entry stands in its listing, what it lists, and the links before its clusters were taken.
  datatype Made = Made(at: nat, entry: Listed, links: seq<nat>)

  class Fat12 {
    const g: Geo
    const disk: array<Sector>
    const fatBytes: array<byte>
    // The files and directories of the volume; what the sectors mean is stated relative to these.
    ghost var nodes: Nodes
    // The disk after each sector write since mounting.
    ghost var trace: seq<Disk>

    constructor (g: Geo, disk: array<Sector>, ghost nodes: Nodes)
      requires g.FirstFat() + g.fatSize <= disk.Length
      ensures this.g == g && this.disk == disk && this.nodes == nodes && fresh(fatBytes)
      ensures Cached() && D() == old(disk[..])
    {
      hide FatImage;
      this.g := g;
      this.disk := disk;
      this.nodes := nodes;
      this.trace := [disk[..]];
      var fatBytes := LoadFat(g, disk);
      this.fatBytes := fatBytes;
    }

    // Reads the whole first FAT, sector by sector.
    static method LoadFat(g: Geo, disk: array<Sector>) returns (fatBytes: array<byte>)
      requires g.FirstFat() + g.fatSize <= disk.Length
      ensures fresh(fatBytes) && fatBytes[..] == FatImage(g, disk[..])
    {
      fatBytes := new byte[512 * g.fatSize](_ => 0);
      for s := 0 to g.fatSize
        invariant forall i :: 0 <= i < 512 * s ==> fatBytes[i] == FatImage(g, disk[..])[i]
      {
        var buf := disk[g.FirstFat() + s];
        for i := 0 to 512
          invariant forall k :: 0 <= k < 512 * s + i ==> fatBytes[k] == FatImage(g, disk[..])[k]
        {
          assert (512 * s + i) / 512 == s && (512 * s + i) % 512 == i;
          fatBytes[512 * s + i] := buf[i];
        }
      }
    }

    function D(): Disk
      reads disk
    {
      disk[..]
    }

    // The cached FAT agrees with the first FAT on disk.
    ghost predicate Cached()
      reads this, disk, fatBytes
    {
      && disk as object != fatBytes as object
      && fatBytes.Length == g.FatBytes() && fatBytes[..] == FatImage(g, D())
      && trace != [] && trace[|trace| - 1] == D()
    }

    ghost predicate Coherent()
      reads this, disk, fatBytes
    {
      OnDisk(g, D(), nodes) && Cached()
    }

    ghost function V(): Vol
      requires ChainsOn(g, nodes)
      reads this, disk
    {
      View(g, D(), nodes)
    }

    ghost predicate Mounted()
      reads this, disk, fatBytes
    {
      Coherent() && ReadableVol(V(), nodes)
    }

    ghost predicate Valid()
      reads this, disk, fatBytes
    {
      Coherent() && Inv(V(), nodes, g.ClusterBytes())
    }

    ghost function T(): Tree
      requires ChainsOn(g, nodes)
      reads this, disk
    {
      TreeOf(V(), nodes)
    }

    // ---- sectors

    method ReadSector(lba: nat) returns (buf: Sector)
      requires lba < disk.Length
      ensures buf == D()[lba]
    {
      buf := disk[lba];
    }

    method WriteSector(lba: nat, buf: Sector)
      requires lba < disk.Length
      modifies `trace, disk
      ensures D() == old(D())[lba := buf] && trace == old(trace) + [D()]
    {
      disk[lba] := buf;
      assert disk[..] == old(disk[..])[lba := buf];
      trace := trace + [disk[..]];
    }

    // ---- the FAT

    /** Mounts the volume whose boot sector is at `start`, or says what is wrong with it. */
    static method ReadBpb(disk: array<Sector>, start: nat, ghost nodes: Nodes) returns (r: Result<Fat12>)
      requires start < disk.Length
      requires GeoOf(disk[start], start).Ok? ==>
                 var g := GeoOf(disk[start], start).value; g.FirstFat() + g.fatSize <= disk.Length
      ensures r.Err? ==> GeoOf(disk[start], start) == Err(r.error)
      ensures r.Ok? ==> GeoOf(disk[start], start) == Ok(r.value.g) && fresh(r.value) && fresh(r.value.fatBytes)
      ensures r.Ok? ==> r.value.disk == disk && r.value.nodes == nodes && r.value.Cached()
      ensures r.Ok? && OnDisk(r.value.g, disk[..], nodes) ==> r.value.Coherent()
      ensures r.Ok? ==> r.value.D() == old(disk[..])
    {
      var sector := disk[start];
      if sector[510] != 0x55 || sector[511] != 0xAA {
        return Err(BadSignature);
      }
      var bytesPerSector := U16(sector[11], sector[12]);
      if bytesPerSector != 512 {
        return Err(BadSectorSize);
      }
      var perCluster := sector[13];
      var reserved := U16(sector[14], sector[15]);
      var numFats := sector[16];
      var rootEntries := U16(sector[17], sector[18]);
      var fatSize := U16(sector[22], sector[23]);
      if rootEntries == 0 {
        return Err(NotFat12);
      }
      if fatSize == 0 {
        return Err(NoFat);
      }
      var fs := new Fat12(Geo(start, reserved, numFats, fatSize, rootEntries, perCluster), disk, nodes);
      r := Ok(fs);
    }

    // One link, unpacked from the cached FAT.
    method CachedEntry(c: nat) returns (entry: nat)
      requires Coherent() && c < g.Clusters()
      ensures entry == LinksOn(g, D())[c]
    {
      hide OnDisk, FatImage;
      assert |FatImage(g, D())| % 512 == 0 by { FatBytesWhole(g); }
      CountIsInFat(FatImage(g, D()), c);
      var byteOffset := c * 3 / 2;
      assert fatBytes[byteOffset] == fatBytes[..][byteOffset] && fatBytes[byteOffset + 1] == fatBytes[..][byteOffset + 1];
      var raw16 := U16(fatBytes[byteOffset], fatBytes[byteOffset + 1]);
      entry := if c % 2 == 0 then raw16 % 0x1000 else raw16 / 16;
    }

    method NextCluster(c: nat) returns (r: Result<Option<nat>>)
      requires Coherent()
      ensures r == NextOf(LinksOn(g, D()), c)
    {
      hide OnDisk, FatImage, LinksOn;
      assert |FatImage(g, D())| % 512 == 0 by { FatBytesWhole(g); }
      CountIsInFat(FatImage(g, D()), c);
      var byteOffset := c * 3 / 2;
      if byteOffset + 1 >= fatBytes.Length {
        return Err(OutOfRange);
      }
      var entry := CachedEntry(c);
      if entry == 0 {
        r := Err(FreeInChain);
      } else if entry >= 0x0FF8 {
        r := Ok(None);
      } else {
        r := Ok(Some(entry));
      }
    }

    // A number past the end of the FAT counts as free too.
    method ClusterIsFree(c: nat) returns (free: bool)
      requires Coherent()
      ensures free <==> c >= g.Clusters() || LinksOn(g, D())[c] == 0
    {
      var r := NextCluster(c);
      free := r.Err?;
    }

    // The sector writes of a link update: one sector, or two when the byte pair straddles them.
    method WriteLinkSectors(c: nat, value: nat) returns (out: seq<byte>)
      requires g.Ok() && g.FitsOn(disk.Length) && c < g.Clusters()
      requires InFat(FatImage(g, D()), c)
      requires FatSector(g, Offset(c)) < disk.Length && FatSector(g, Offset(c) + 1) < disk.Length
      modifies `trace, disk
      ensures out == NewBytes(FatImage(g, old(D())), c, value)
      ensures D() == WholeLink(g, old(D()), c, value)
      ensures trace == old(trace) + [D()] || trace == old(trace) + [HalfLink(g, old(D()), c, value), D()]
    {
      hide Geo.Ok, Geo.FitsOn, Geo.Clusters, Repack, Geo.FirstRoot, FatImage, Le16;
      assert forall i :: 0 <= i < g.FatBytes() ==> FatImage(g, D())[i] == SectorAt(D(), FatSector(g, i))[i % 512] by {
        FatImageBytes(g, D());
      }
      ghost var d0 := D();
      var byteOffset := c * 3 / 2;
      var sector0 := g.FirstFat() + byteOffset / 512;
      var offset0 := byteOffset % 512;
      var straddles := offset0 == 511;
      if straddles {
        NextSector(g, byteOffset);
        var buf0 := ReadSector(sector0);
        var buf1 := ReadSector(sector0 + 1);
        out := Le16(Repack(buf0[offset0], buf1[0], c, value));
        WriteSector(sector0, WithByte(buf0, offset0, out[0]));
        assert D() == HalfLink(g, d0, c, value);
        WriteSector(sector0 + 1, WithByte(buf1, 0, out[1]));
      } else {
        var buf0 := ReadSector(sector0);
        out := Le16(Repack(buf0[offset0], buf0[offset0 + 1], c, value));
        OneSector(g, d0, byteOffset, out[0], out[1]);
        WriteSector(sector0, WithByte(WithByte(buf0, offset0, out[0]), offset0 + 1, out[1]));
      }
    }

    /** Sets the link of one cluster, in the first FAT on disk and in the cache. */
    method WriteFatEntry(c: nat, value: nat) returns (r: Result<()>)
      requires Coherent()
      modifies `trace, disk, fatBytes
      ensures Coherent() && Extends(old(trace), trace)
      ensures r.Ok? <==> c < g.Clusters()
      ensures r.Err? ==> r.error == OutOfRange && D() == old(D()) && trace == old(trace)
      ensures r.Ok? ==> LinksOn(g, D()) == LinksOn(g, old(D()))[c := value % 0x1000] && SameBut(g, old(D()), D(), [])
      ensures r.Ok? ==> |old(trace)| < |trace| <= |old(trace)| + 2
      ensures r.Ok? ==> forall i :: |old(trace)| <= i < |trace| ==> OnlyLink(g, old(D()), trace[i], c)
    {
      hide View, FatImage, LinksOn, SameBut, HalfLink, WholeLink, NewBytes, FatSector, Geo.FirstData, Unpack;
      ghost var d0 := D();
      assert |FatImage(g, d0)| % 512 == 0 by { FatBytesWhole(g); }
      CountIsInFat(FatImage(g, d0), c);
      var byteOffset := c * 3 / 2;
      if byteOffset + 1 >= fatBytes.Length {
        return Err(OutOfRange);
      }
      LinkSectors(g, d0, c);
      LinkWritten(g, d0, c, value);
      LinkImages(g, d0, c, value);
      var out := WriteLinkSectors(c, value);
      OnDiskKept(g, d0, D(), nodes, []);
      UpdateCache(byteOffset, out);
      r := Ok(());
    }

    method UpdateCache(at: nat, out: seq<byte>)
      requires |out| == 2 && at + 1 < fatBytes.Length
      modifies fatBytes
      ensures fatBytes[..] == old(fatBytes[..])[at := out[0]][at + 1 := out[1]]
    {
      fatBytes[at] := out[0];
      fatBytes[at + 1] := out[1];
    }

    // ---- free clusters

    /** The first `count` free clusters in ascending order; an error exactly when there are fewer. */
    method FindFreeClusters(count: nat) returns (r: Result<seq<nat>>)
      requires Coherent()
      ensures r.Ok? <==> FreeCount(LinksOn(g, D())) >= count
      ensures r.Ok? ==> |r.value| == count && r.value <= FreeBelow(LinksOn(g, D()), g.Clusters())
      ensures r.Err? ==> r.error == NoClusters
    {
      hide View, OnDisk, FatImage, LinksOn;
      ghost var links := LinksOn(g, D());
      var found: seq<nat> := [];
      var totalEntries := fatBytes.Length * 2 / 3;
      assert totalEntries == |links|;
      var cluster: nat := 2;
      assert FreeBelow(links, if 2 <= |links| then 2 else |links|) == [];
      while cluster < totalEntries && |found| != count
        invariant 2 <= cluster && (cluster <= totalEntries || cluster == 2)
        invariant cluster <= totalEntries ==> found == FreeBelow(links, cluster)
        invariant cluster > totalEntries ==> found == []
        invariant |found| <= count
      {
        var entry := CachedEntry(cluster);
        if entry == 0 {
          found := found + [cluster];
        }
        cluster := cluster + 1;
      }
      if cluster <= totalEntries {
        FreeBelowGrows(links, cluster, |links|);
      }
      if |found| < count {
        return Err(NoClusters);
      }
      r := Ok(found);
    }

    // ---- directories

    /** The sectors that hold a directory's entries, in order. */
    method DirectorySectors(dir: DirLocation) returns (lbas: seq<nat>)
      requires Mounted() && IsDirAt(nodes, dir)
      ensures DataClusters(nodes[dir.Id()].chain) && lbas == DirLbas(g, nodes, dir.Id())
    {
      hide View, OnDisk, FatImage, IsChain;
      RootIsEmpty(g, D(), nodes);
      match dir {
        case Root =>
          lbas := Span(g.FirstRoot(), g.RootSectors());
        case Cluster(start) =>
          ChainOfNode(g, D(), nodes, start);
          ghost var ch := nodes[start].chain;
          ghost var i := 0;
          lbas := [];
          var cluster := Some(start);
          assert ch[..0] == [];
          while cluster.Some?
            invariant 0 <= i <= |ch| && lbas == ChainSectors(g, ch[..i])
            invariant cluster == if i < |ch| then Some(ch[i]) else None
            decreases |ch| - i
          {
            var c := cluster.value;
            lbas := lbas + Span(g.ClusterLba(c), g.perCluster);
            ChainSectorsAppend(g, ch[..i], c);
            assert ch[..i] + [c] == ch[..i + 1];
            NextInChain(LinksOn(g, D()), ch, i);
            var next := NextCluster(c);
            cluster := next.value;
            i := i + 1;
          }
          assert ch[..|ch|] == ch;
      }
    }

    // ---- reading directories

    ghost function SlotsOf(dir: DirLocation): seq<Slot>
      requires ChainsOn(g, nodes) && IsDirAt(nodes, dir)
      reads this, disk
    {
      V().dirs[dir.Id()]
    }

    // Sector `j` of a directory, as the sixteen slots it holds.
    lemma DirSector(dir: DirLocation, j: nat)
      requires Mounted() && IsDirAt(nodes, dir)
      requires DataClusters(nodes[dir.Id()].chain) && j < |DirLbas(g, nodes, dir.Id())|
      ensures var lba := DirLbas(g, nodes, dir.Id())[j]; lba < disk.Length && Holds(D()[lba], SlotsOf(dir), 16 * j)
      ensures |SlotsOf(dir)| == 16 * |DirLbas(g, nodes, dir.Id())|
    {
      hide View, Slots, FatImage, ReadableVol, Geo.Ok, Geo.FitsOn, GeoOf, DirLbas;
      ViewDir(g, D(), nodes, dir.Id());
      DirLbaRange(g, nodes, dir.Id(), j, disk.Length);
      SectorSlots(D(), DirLbas(g, nodes, dir.Id()), j);
    }

    method ListRootDirectory() returns (entries: seq<DirEntry>)
      requires Mounted()
      ensures IsDirAt(nodes, Root) && entries == Scan(SlotsOf(Root))
    {
      hide View, FatImage, Holds, Scan, ScanTo, StateAt, NoEndTo, ReadableVol, ChainsOn, GeoOf, Geo.Ok, Geo.FitsOn;
      RootIsEmpty(g, D(), nodes);
      ghost var slots := SlotsOf(Root);
      entries := [];
      var lfn := new LfnState();
      SlotCount(Root);
      StartScan(slots);
      for s := 0 to g.RootSectors()
        modifies lfn
        invariant NoEndTo(slots, 16 * s)
        invariant lfn.Value() == StateAt(slots, 16 * s) && entries == ScanTo(slots, 16 * s)
      {
        DirSector(Root, s);
        var buf := ReadSector(g.FirstRoot() + s);
        var ended: bool;
        entries, ended := ParseDirSector(buf, entries, lfn, slots, 16 * s);
        if ended {
          return;
        }
      }
      EndScan(slots);
    }

    lemma SlotCount(dir: DirLocation)
      requires Mounted() && IsDirAt(nodes, dir)
      ensures DataClusters(nodes[dir.Id()].chain) && |SlotsOf(dir)| == 16 * |DirLbas(g, nodes, dir.Id())|
    {
      hide View, Slots, FatImage, ReadableVol, Geo.Ok, Geo.FitsOn, GeoOf, DirLbas;
      ViewDir(g, D(), nodes, dir.Id());
    }

    /** Lists a subdirectory by walking its cluster chain. */
    method ListDirectory(start: nat) returns (entries: seq<DirEntry>)
      requires Mounted() && IsDirAt(nodes, Cluster(start))
      ensures entries == Scan(SlotsOf(Cluster(start)))
    {
      hide View, FatImage, Holds, Scan, ScanTo, StateAt, NoEndTo, ReadableVol, ChainsOn, GeoOf, Geo.Ok, Geo.FitsOn,
        IsChain, ChainSectors;
      ghost var slots, ch := SlotsOf(Cluster(start)), nodes[start].chain;
      entries := [];
      var cluster := Some(start);
      var lfn := new LfnState();
      ghost var i := 0;
      SlotCount(Cluster(start));
      StartScan(slots);
      ChainOfNode(g, D(), nodes, start);
      assert ch[..0] == [] && ChainSectors(g, ch[..0]) == [] by { NoSectors(g); }
      while cluster.Some?
        modifies lfn
        invariant 0 <= i <= |ch| && cluster == if i < |ch| then Some(ch[i]) else None
        invariant DataClusters(ch[..i]) && 16 * |ChainSectors(g, ch[..i])| <= |slots|
        invariant NoEndTo(slots, 16 * |ChainSectors(g, ch[..i])|)
        invariant lfn.Value() == StateAt(slots, 16 * |ChainSectors(g, ch[..i])|)
        invariant entries == ScanTo(slots, 16 * |ChainSectors(g, ch[..i])|)
        decreases |ch| - i
      {
        var c := cluster.value;
        ghost var q := |ChainSectors(g, ch[..i])|;
        var lba := g.ClusterLba(c);
        for s := 0 to g.perCluster
          modifies lfn
          invariant 16 * (q + s) <= |slots| && NoEndTo(slots, 16 * (q + s))
          invariant lfn.Value() == StateAt(slots, 16 * (q + s)) && entries == ScanTo(slots, 16 * (q + s))
        {
          SectorOfChain(g, ch, i, s);
          DirSector(Cluster(start), q + s);
          var buf := ReadSector(lba + s);
          var ended: bool;
          entries, ended := ParseDirSector(buf, entries, lfn, slots, 16 * (q + s));
          if ended {
            return;
          }
        }
        ChainStepSectors(i, start);
        NextInChain(LinksOn(g, D()), ch, i);
        var next := NextCluster(c);
        cluster := next.value;
        i := i + 1;
      }
      assert ch[..|ch|] == ch;
      EndScan(slots);
    }

    lemma ChainStepSectors(i: nat, start: nat)
      requires Mounted() && start in nodes && start != 0 && i < |nodes[start].chain|
      ensures DataClusters(nodes[start].chain) && DataClusters(nodes[start].chain[..i])
      ensures DataClusters(nodes[start].chain[..i + 1])
      ensures |ChainSectors(g, nodes[start].chain[..i + 1])| == |ChainSectors(g, nodes[start].chain[..i])| + g.perCluster
    {
      hide View, FatImage, IsChain;
      ChainOfNode(g, D(), nodes, start);
      assert g.perCluster > 0;
      SectorOfChain(g, nodes[start].chain, i, 0);
    }

    method ListEntriesIn(dir: DirLocation) returns (entries: seq<DirEntry>)
      requires Mounted() && IsDirAt(nodes, dir)
      ensures entries == Scan(SlotsOf(dir))
    {
      match dir {
        case Root => entries := ListRootDirectory();
        case Cluster(c) => entries := ListDirectory(c);
      }
    }

    /** The entry that answers to `name` - by its long name or its alias - and where its slot is. */
    method FindEntryLocation(dir: DirLocation, name: Name) returns (r: Result<(Loc, DirEntry)>, ghost k: nat)
      requires Mounted() && IsDirAt(nodes, dir)
      ensures DataClusters(nodes[dir.Id()].chain) && |SlotsOf(dir)| == 16 * |DirLbas(g, nodes, dir.Id())|
      ensures r.Ok? ==> FirstMatch(SlotsOf(dir), name, k) && r.value.0 == LocAt(DirLbas(g, nodes, dir.Id()), k)
      ensures r.Ok? ==> r.value.1 == EntryOf(SlotsOf(dir)[k], ResolvedName(StateAt(SlotsOf(dir), k), SlotsOf(dir)[k]))
      ensures r.Err? ==> r.error == NotFound && NoMatch(SlotsOf(dir), name)
    {
      hide View, FatImage, Scan, ScanTo, ReadableVol, ChainsOn, GeoOf, Geo.Ok, Geo.FitsOn, DirLbas, SlotsOf,
        StateAt, EntryOf, ResolvedName, MatchAt, IsShort, Holds, NoEndTo, LocAt;
      ghost var slots := SlotsOf(dir);
      SlotCount(dir);
      var lbas := DirectorySectors(dir);
      var lfn := new LfnState();
      StartScan(slots);
      k := 0;
      for j := 0 to |lbas|
        modifies lfn
        invariant NoEndTo(slots, 16 * j) && NoMatchTo(slots, name, 16 * j) && lfn.Value() == StateAt(slots, 16 * j)
      {
        DirSector(dir, j);
        var buf := ReadSector(lbas[j]);
        var hit, ended := FindInSector(buf, lfn, name, slots, 16 * j);
        if hit.Some? {
          PlaceOf(lbas, j, hit.value.0);
          return Ok((Loc(lbas[j], hit.value.0 * 32), hit.value.1)), 16 * j + hit.value.0;
        }
        if ended {
          return Err(NotFound), k;
        }
      }
      r := Err(NotFound);
    }

    /** The slots of the long name that belongs to the entry at slot `k`. */
    method FindPrecedingLfnSlots(dir: DirLocation, place: Loc, ghost k: nat) returns (locs: seq<Loc>)
      requires Mounted() && IsDirAt(nodes, dir)
      requires DataClusters(nodes[dir.Id()].chain) && |SlotsOf(dir)| == 16 * |DirLbas(g, nodes, dir.Id())|
      requires k < |SlotsOf(dir)| && place == LocAt(DirLbas(g, nodes, dir.Id()), k)
      ensures locs == if NoEndTo(SlotsOf(dir), k) then LongPlaces(DirLbas(g, nodes, dir.Id()), SlotsOf(dir), k) else []
    {
      hide View, FatImage, ChainsOn, GeoOf, Geo.Ok, Geo.FitsOn, DirLbas, SlotsOf, Holds, ReadableVol, NoEndTo,
        NoRepeat, LocAt, LongPlaces;
      ghost var slots := SlotsOf(dir);
      var lbas := DirectorySectors(dir);
      DistinctSectors(dir);
      StartScan(slots);
      NoLongPlaces(lbas, slots);
      locs := [];
      for j := 0 to |lbas|
        invariant 16 * j <= k && NoEndTo(slots, 16 * j)
        invariant locs == LongPlaces(lbas, slots, 16 * j)
      {
        DirSector(dir, j);
        var buf := ReadSector(lbas[j]);
        var done: bool;
        locs, done := LongSlotsInSector(buf, lbas, j, place, locs, slots, k);
        if done {
          return;
        }
      }
    }

    lemma DirShape(dir: DirLocation)
      requires Mounted() && IsDirAt(nodes, dir)
      ensures Readable(SlotsOf(dir))
    {
      hide View, FatImage, Readable;
      ViewKeys(g, D(), nodes);
    }

    lemma DistinctSectors(dir: DirLocation)
      requires Mounted() && IsDirAt(nodes, dir)
      ensures DataClusters(nodes[dir.Id()].chain) && NoRepeat(DirLbas(g, nodes, dir.Id()))
    {
      hide View, FatImage;
      RootIsEmpty(g, D(), nodes);
      if dir.Cluster? {
        ChainOfNode(g, D(), nodes, dir.c);
      }
      DirLbasDistinct(g, nodes, dir.Id());
    }

    /** The raw short names of a directory's live entries. */
    method ExistingShortNames(dir: DirLocation) returns (names: seq<ShortName>)
      requires Mounted() && IsDirAt(nodes, dir)
      ensures names == ShortNamesTo(SlotsOf(dir), FirstEnd(SlotsOf(dir)))
    {
      hide View, FatImage, Scan, ScanTo, ReadableVol, ChainsOn, GeoOf, Geo.Ok, Geo.FitsOn, DirLbas, SlotsOf, SlotIn,
        IsShort;
      ghost var slots := SlotsOf(dir);
      SlotCount(dir);
      var lbas := DirectorySectors(dir);
      names := [];
      for j := 0 to |lbas|
        invariant NoEndTo(slots, 16 * j) && names == ShortNamesTo(slots, 16 * j)
      {
        DirSector(dir, j);
        var buf := ReadSector(lbas[j]);
        for i := 0 to 16
          invariant NoEndTo(slots, 16 * j + i) && names == ShortNamesTo(slots, 16 * j + i)
        {
          var raw := SlotIn(buf, i);
          assert raw == slots[16 * j + i];
          if raw[0] == 0x00 {
            FirstEndIs(slots, 16 * j + i);
            return;
          }
          if ShortSlot(raw) {
            names := names + [raw[0..11]];
            assert raw[0..11] == ShortOf(raw);
          }
        }
      }
      FirstEndIs(slots, |slots|);
    }

    /** The number of slots in use in a subdirectory, long slots included. */
    method CountUsedSlots(start: nat) returns (count: nat)
      requires Mounted() && IsDirAt(nodes, Cluster(start))
      ensures count == Used(SlotsOf(Cluster(start)))
    {
      hide View, FatImage, Scan, ScanTo, ReadableVol, ChainsOn, GeoOf, Geo.Ok, Geo.FitsOn, DirLbas, SlotsOf, SlotIn,
        Used, Readable;
      var dir := Cluster(start);
      ghost var slots := SlotsOf(dir);
      SlotCount(dir);
      DirShape(dir);
      ReadableEnds(slots);
      UsedBeforeEnd(slots);
      var lbas := DirectorySectors(dir);
      count := 0;
      for j := 0 to |lbas|
        invariant NoEndTo(slots, 16 * j) && count == UsedRange(slots, 0, 16 * j)
      {
        DirSector(dir, j);
        var buf := ReadSector(lbas[j]);
        for i := 0 to 16
          invariant NoEndTo(slots, 16 * j + i) && count == UsedRange(slots, 0, 16 * j + i)
        {
          var raw := SlotIn(buf, i);
          assert raw == slots[16 * j + i];
          if raw[0] == 0x00 {
            FirstEndIs(slots, 16 * j + i);
            return;
          }
          if raw[0] != 0xE5 {
            count := count + 1;
          }
        }
      }
      FirstEndIs(slots, |slots|);
    }

    // ---- laying data over clusters

    // Since the disk was `d0`, and step `from` of the trace, only the clusters `ch` were touched.
    ghost predicate OnlyTouched(d0: Disk, from: nat, ch: seq<nat>)
      reads this, disk
    {
      && Within(g, d0, D(), ch)
      && from <= |trace| && forall i :: from <= i < |trace| ==> Within(g, d0, trace[i], ch)
    }

    method WriteClusterSector(c: nat, s: nat, buf: Sector, ghost ch: seq<nat>, ghost d0: Disk, ghost from: nat)
      requires Coherent() && c in ch && 2 <= c < g.Clusters() && s < g.perCluster && OnlyTouched(d0, from, ch)
      modifies `trace, disk
      ensures Coherent() && OnlyTouched(d0, from, ch) && Extends(old(trace), trace)
      ensures g.ClusterLba(c) + s < disk.Length && D() == old(D())[g.ClusterLba(c) + s := buf]
      ensures LinksOn(g, D()) == LinksOn(g, old(D()))
    {
      hide View, FatImage, LinksOn, SameBut, Within, Geo.ClusterLba, ChainsOn, GeoOf, Geo.FitsOn, Geo.Ok;
      SectorWrite(g, D(), ch, c, s, buf);
      SectorStep(g, d0, D(), ch, c, s, buf);
      OnDiskKept(g, D(), D()[g.ClusterLba(c) + s := buf], nodes, ch);
      WriteSector(g.ClusterLba(c) + s, buf);
    }

    // The next 512 bytes of `data`, padded with zeros.
    static method NextBuffer(data: seq<byte>, written: nat, ghost q: nat) returns (buf: Sector, written': nat)
      requires written == if 512 * q < |data| then 512 * q else |data|
      ensures buf == DataSector(data, q)
      ensures written' == if 512 * (q + 1) < |data| then 512 * (q + 1) else |data|
    {
      buf, written' := ZeroSector(), written;
      if written < |data| {
        var end := if written + 512 < |data| then written + 512 else |data|;
        buf := data[written..end] + ZeroBytes(512 - (end - written));
        written' := end;
      }
      assert forall j :: 0 <= j < 512 ==> buf[j] == DataByte(data, 512 * q + j);
    }

    method WriteCluster(ch: seq<nat>, i: nat, data: seq<byte>, written: nat, ghost d0: Disk, ghost from: nat)
      returns (written': nat)
      requires Coherent() && NoRepeat(ch) && ChainFits(g, ch) && DataClusters(ch) && i < |ch| && OnlyTouched(d0, from, ch)
      requires DataClusters(ch[..i])
      requires var n := |ChainSectors(g, ch[..i])|;
               && Filled(D(), ChainSectors(g, ch), data, n)
               && written == if 512 * n < |data| then 512 * n else |data|
      modifies `trace, disk
      ensures Coherent() && OnlyTouched(d0, from, ch) && Extends(old(trace), trace)
      ensures LinksOn(g, D()) == LinksOn(g, old(D()))
      ensures DataClusters(ch[..i + 1])
      ensures var n := |ChainSectors(g, ch[..i + 1])|;
              && Filled(D(), ChainSectors(g, ch), data, n)
              && written' == if 512 * n < |data| then 512 * n else |data|
    {
      hide Coherent, FatImage, LinksOn, OnlyTouched, DataSector, Geo.ClusterLba, ChainSectors, NoRepeat, Filled;
      ghost var lbas, n := ChainSectors(g, ch), |ChainSectors(g, ch[..i])|;
      ChainSectorsDistinct(g, ch);
      var clusterLba := g.ClusterLba(ch[i]);
      written' := written;
      for s := 0 to g.perCluster
        invariant Coherent() && OnlyTouched(d0, from, ch) && Extends(old(trace), trace)
        invariant LinksOn(g, D()) == LinksOn(g, old(D()))
        invariant Filled(D(), lbas, data, n + s)
        invariant written' == if 512 * (n + s) < |data| then 512 * (n + s) else |data|
      {
        SectorOfChain(g, ch, i, s);
        var buf: Sector;
        buf, written' := NextBuffer(data, written', n + s);
        ghost var before := D();
        WriteClusterSector(ch[i], s, buf, ch, d0, from);
        FilledStep(before, lbas, data, n + s);
      }
      CoherentGeo();
      LastSector(ch, i);
    }

    lemma CoherentGeo()
      requires Coherent()
      ensures g.Ok() && g.FitsOn(disk.Length) && ChainsOn(g, nodes)
      ensures g.ClusterBytes() > 0 && g.perCluster >= 1 && |LinksOn(g, D())| == g.Clusters() <= MAX_CLUSTERS
    {
    }

    lemma LastSector(ch: seq<nat>, i: nat)
      requires g.Ok() && DataClusters(ch) && i < |ch|
      ensures DataClusters(ch[..i]) && DataClusters(ch[..i + 1])
      ensures |ChainSectors(g, ch[..i + 1])| == |ChainSectors(g, ch[..i])| + g.perCluster
    {
      SectorOfChain(g, ch, i, 0);
    }

    // A link update that is known to be in range.
    method SetLink(c: nat, value: nat, ghost ch: seq<nat>, ghost d0: Disk, ghost from: nat)
      requires Coherent() && c in ch && c < g.Clusters() && value < 0x1000 && OnlyTouched(d0, from, ch)
      modifies `trace, disk, fatBytes
      ensures Coherent() && OnlyTouched(d0, from, ch) && Extends(old(trace), trace)
      ensures LinksOn(g, D()) == LinksOn(g, old(D()))[c := value] && SameBut(g, old(D()), D(), [])
      ensures |old(trace)| < |trace| <= |old(trace)| + 2
      ensures forall i :: |old(trace)| <= i < |trace| ==> OnlyLink(g, old(D()), trace[i], c)
    {
      hide View, FatImage, LinksOn, SameBut, OnDisk, Within;
      ghost var before, n := D(), |trace|;
      var r := WriteFatEntry(c, value);
      LinkStep(g, d0, before, D(), ch, c);
      forall i | n <= i < |trace| ensures Within(g, d0, trace[i], ch) {
        LinkStep(g, d0, before, trace[i], ch, c);
      }
    }

    /** Lays `data` over the clusters `ch` in order, each linked to the next as soon as it is written. */
    method WriteChain(ch: seq<nat>, data: seq<byte>, ghost d0: Disk, ghost from: nat)
      requires Coherent() && ch != [] && NoRepeat(ch) && ChainFits(g, ch) && DataClusters(ch) && OnlyTouched(d0, from, ch)
      modifies `trace, disk, fatBytes
      ensures Coherent() && OnlyTouched(d0, from, ch) && Extends(old(trace), trace)
      ensures Written(LinksOn(g, old(D())), LinksOn(g, D()), ch, |ch|)
      ensures Raw(D(), ChainSectors(g, ch)) == Padded(data, 512 * |ChainSectors(g, ch)|)
    {
      hide Coherent, FatImage, LinksOn, OnlyTouched, DataSector, ChainSectors, NoRepeat, Filled, SameBut, Written;
      ghost var links := LinksOn(g, D());
      CoherentGeo();
      StartChain(ch, data);
      StartLinks(links, ch);
      var written := 0;
      for i := 0 to |ch|
        invariant Coherent() && OnlyTouched(d0, from, ch) && Extends(old(trace), trace)
        invariant DataClusters(ch[..i]) && Filled(D(), ChainSectors(g, ch), data, |ChainSectors(g, ch[..i])|)
        invariant var n := |ChainSectors(g, ch[..i])|; written == if 512 * n < |data| then 512 * n else |data|
        invariant Written(links, LinksOn(g, D()), ch, i)
      {
        written := WriteCluster(ch, i, data, written, d0, from);
        var nextEntry := if i + 1 < |ch| then ch[i + 1] else END_OF_CHAIN;
        ghost var before := D();
        SmallClusters(ch);
        SetLink(ch[i], nextEntry, ch, d0, from);
        FilledKept(g, before, D(), ch, data, |ChainSectors(g, ch[..i + 1])|);
        WrittenStep(links, LinksOn(g, before), ch, i);
      }
      assert ch[..|ch|] == ch;
      FilledIsPadded(D(), ChainSectors(g, ch), data);
    }

    lemma SmallClusters(ch: seq<nat>)
      requires Coherent() && ChainFits(g, ch)
      ensures forall i :: 0 <= i < |ch| ==> ch[i] < g.Clusters() <= MAX_CLUSTERS
    {
    }

    lemma StartChain(ch: seq<nat>, data: seq<byte>)
      requires DataClusters(ch)
      ensures ch[..0] == [] && ChainSectors(g, ch[..0]) == [] && Filled(D(), ChainSectors(g, ch), data, 0)
    {
    }

    lemma StartLinks(links: seq<nat>, ch: seq<nat>)
      requires |links| == g.Clusters() && ChainFits(g, ch)
      ensures Written(links, links, ch, 0)
    {
    }

    // ---- freeing clusters

    /** Walks a chain, setting every link free; the next link is read before it is lost. */
    method FreeChain(start: nat, ghost ch: seq<nat>)
      requires Coherent() && IsChain(LinksOn(g, D()), ch) && start == ch[0]
      modifies `trace, disk, fatBytes
      ensures Coherent() && Freed(LinksOn(g, old(D())), LinksOn(g, D()), ch) && SameBut(g, old(D()), D(), [])
    {
      hide Coherent, FatImage, LinksOn, SameBut, Freed, IsChain;
      ghost var d0, links, i := D(), LinksOn(g, D()), 0;
      ChainNotEmpty(links, ch);
      FreedNone(links, ch);
      SameButSelf(d0);
      WholeTouched(ch);
      ghost var from := |trace|;
      var cluster := Some(start);
      while cluster.Some?
        invariant 0 <= i <= |ch| && cluster == if i < |ch| then Some(ch[i]) else None
        invariant Coherent() && Freed(links, LinksOn(g, D()), ch[..i]) && SameBut(g, d0, D(), [])
        invariant OnlyTouched(d0, from, ch)
        decreases |ch| - i
      {
        var c := cluster.value;
        FreedAhead(links, LinksOn(g, D()), ch, i);
        NextInChain(links, ch, i);
        var next := NextCluster(c);
        ghost var before := D();
        SetLink(c, 0x0000, ch, d0, from);
        FreedStep(links, LinksOn(g, before), ch[..i], c);
        assert ch[..i] + [c] == ch[..i + 1];
        SameButTrans(g, d0, before, D(), []);
        cluster := next.value;
        i := i + 1;
      }
      assert ch[..|ch|] == ch;
    }

    lemma ChainNotEmpty(links: seq<nat>, ch: seq<nat>)
      requires IsChain(links, ch)
      ensures ch != [] && ch[..0] == []
    {
    }

    lemma FreedNone(links: seq<nat>, ch: seq<nat>)
      ensures Freed(links, links, ch[..0]) && Freed(links, links, [])
    {
    }

    lemma SameButSelf(d: Disk)
      ensures SameBut(g, d, d, [])
    {
    }

    lemma WholeTouched(ch: seq<nat>)
      ensures OnlyTouched(D(), |trace|, ch)
    {
      hide LinksOn;
    }

    // ---- writing slots

    // The places of a directory's slots.
    ghost function LbasOf(dir: DirLocation): seq<nat>
      requires ChainsOn(g, nodes) && dir.Id() in nodes
      reads this
    {
      ChainOnData(g, nodes, dir.Id());
      DirLbas(g, nodes, dir.Id())
    }

    // What writing one slot relies on: directories that share no sector.
    ghost predicate Separate(dir: DirLocation)
      reads this
    {
      && 0 in nodes && nodes[0].isDir && Disjoint(nodes)
      && IsDirAt(nodes, dir) && NoRepeat(nodes[dir.Id()].chain)
    }

    // The volume with the slots of one directory replaced.
    ghost function WithSlots(v: Vol, dir: DirLocation, slots: seq<Slot>): Vol {
      v.(dirs := v.dirs[dir.Id() := slots])
    }

    method WriteSlot(dir: DirLocation, place: Loc, raw: Slot, ghost k: nat)
      requires Coherent() && Separate(dir)
      requires k < 16 * |LbasOf(dir)| && place == LocAt(LbasOf(dir), k)
      modifies `trace, disk
      ensures Coherent() && Separate(dir) && k < |old(SlotsOf(dir))|
      ensures V() == WithSlots(old(V()), dir, SetSlot(old(SlotsOf(dir)), k, raw))
      ensures trace == old(trace) + [D()]
    {
      hide View, FatImage, LinksOn, SameBut, OnDisk, NoRepeat, Disjoint, DirLbas;
      SlotWritten(dir, k, raw);
      var buf := ReadSector(place.lba);
      ghost var i := k % 16;
      assert buf[..place.offset] + raw + buf[place.offset + 32..] == Patch(buf, i, raw);
      WriteSector(place.lba, buf[..place.offset] + raw + buf[place.offset + 32..]);
    }

    lemma SlotWritten(dir: DirLocation, k: nat, raw: Slot)
      requires Coherent() && Separate(dir) && k < 16 * |LbasOf(dir)|
      ensures var lba := LbasOf(dir)[k / 16];
              && lba < disk.Length && k < |SlotsOf(dir)|
              && var disk' := D()[lba := Patch(D()[lba], k % 16, raw)];
                 && OnDisk(g, disk', nodes) && FatImage(g, disk') == FatImage(g, D())
                 && View(g, disk', nodes) == WithSlots(V(), dir, SetSlot(SlotsOf(dir), k, raw))
    {
      hide View, SameBut, NoRepeat, Disjoint, DirLbas, FatImage, GeoOf, Patch;
      ViewSlotWrite(g, D(), nodes, dir.Id(), k, raw);
      var lba := LbasOf(dir)[k / 16];
      LinksSame(g, D(), D()[lba := Patch(D()[lba], k % 16, raw)]);
    }

    // Pairs each place with the slot that goes there.
    static method ListWrites(places: seq<Loc>, longs: seq<Slot>, raw: Slot) returns (writes: seq<(Loc, Slot)>)
      requires |places| == |longs| + 1
      ensures |writes| == |places| && forall j :: 0 <= j < |writes| ==> writes[j] == (places[j], (longs + [raw])[j])
    {
      writes := [];
      for i := 0 to |longs|
        invariant |writes| == i && forall j :: 0 <= j < i ==> writes[j] == (places[j], longs[j])
      {
        writes := writes + [(places[i], longs[i])];
      }
      writes := writes + [(places[|places| - 1], raw)];
    }

    // `t` shows the volume `v0` with the first `n` slots of a new entry written.
    ghost predicate ShowsPart(t: Disk, v0: Vol, dir: DirLocation, a: nat, block: seq<Slot>, n: nat)
      reads this
    {
      && OnDisk(g, t, nodes) && dir.Id() in v0.dirs && a + |block| <= |v0.dirs[dir.Id()]| && n <= |block|
      && View(g, t, nodes) == WithSlots(v0, dir, Splice(v0.dirs[dir.Id()], a, block[..n]))
    }

    /** Writes the long slots and then the short slot of a new entry into the places reserved for them. */
    method WriteNameEntries(dir: DirLocation, places: seq<Loc>, longs: seq<Slot>, raw: Slot, ghost a: nat)
      requires Coherent() && Separate(dir)
      requires a + |longs| + 1 <= 16 * |LbasOf(dir)| && places == LocsAt(LbasOf(dir), a, |longs| + 1)
      modifies `trace, disk
      ensures Coherent() && Separate(dir) && |old(SlotsOf(dir))| == 16 * |LbasOf(dir)|
      ensures V() == WithSlots(old(V()), dir, Splice(old(SlotsOf(dir)), a, longs + [raw]))
      ensures |trace| == |old(trace)| + |longs| + 1 && Extends(old(trace), trace)
      ensures forall i :: |old(trace)| <= i < |trace| ==>
                ShowsPart(trace[i], old(V()), dir, a, longs + [raw], i + 1 - |old(trace)|)
    {
      hide View, FatImage, LinksOn, SameBut, OnDisk, NoRepeat, Disjoint, DirLbas, LocsAt, LocAt, Splice, SetSlot;
      CoherentGeo();
      ghost var v0, slots, n, block := V(), SlotsOf(dir), |trace|, longs + [raw];
      ghost var lbas := LbasOf(dir);
      SlotTotal(dir);
      SpliceNone(slots, a);
      var writes := ListWrites(places, longs, raw);
      assert block[..0] == [];
      for i := 0 to |writes|
        invariant Coherent() && Separate(dir) && V() == WithSlots(v0, dir, Splice(slots, a, block[..i]))
        invariant |trace| == n + i && Extends(old(trace), trace)
        invariant forall j :: n <= j < |trace| ==> ShowsPart(trace[j], v0, dir, a, block, j + 1 - n)
      {
        LocsIndex(lbas, a, |longs| + 1, i);
        SpliceStep(slots, a, block, i);
        WriteSlot(dir, writes[i].0, writes[i].1, a + i);
      }
      assert block[..|block|] == block;
    }

    lemma SlotTotal(dir: DirLocation)
      requires Coherent() && IsDirAt(nodes, dir)
      ensures |SlotsOf(dir)| == 16 * |LbasOf(dir)| && V() == WithSlots(V(), dir, SlotsOf(dir))
    {
      hide View, Slots, FatImage, GeoOf, Geo.Ok, Geo.FitsOn, DirLbas;
      ViewDir(g, D(), nodes, dir.Id());
    }

    // Marks one slot deleted, in its first byte.
    method MarkSlot(dir: DirLocation, place: Loc, ghost k: nat)
      requires Coherent() && Separate(dir) && k < 16 * |LbasOf(dir)| && place == LocAt(LbasOf(dir), k)
      modifies `trace, disk
      ensures Coherent() && Separate(dir) && k < |old(SlotsOf(dir))|
      ensures V() == WithSlots(old(V()), dir, SetSlot(old(SlotsOf(dir)), k, MarkDeleted(old(SlotsOf(dir))[k])))
    {
      hide View, FatImage, LinksOn, SameBut, OnDisk, NoRepeat, Disjoint, DirLbas, LocAt, SetSlot;
      SlotRead(dir, place, k);
      var buf := ReadSector(place.lba);
      var raw := buf[place.offset..place.offset + 32];
      WriteSlot(dir, place, raw[0 := 0xE5], k);
    }

    /** Marks the slots of one entry deleted, one first byte at a time. */
    method MarkSlotsDeleted(dir: DirLocation, places: seq<Loc>, ghost a: nat)
      requires Coherent() && Separate(dir)
      requires a + |places| <= 16 * |LbasOf(dir)| && places == LocsAt(LbasOf(dir), a, |places|)
      modifies `trace, disk
      ensures Coherent() && Separate(dir) && |old(SlotsOf(dir))| == 16 * |LbasOf(dir)|
      ensures V() == WithSlots(old(V()), dir, MarkedTo(old(SlotsOf(dir)), a, |places|))
    {
      hide View, FatImage, LinksOn, SameBut, OnDisk, NoRepeat, Disjoint, DirLbas, LocsAt, LocAt, SetSlot,
        MarkDeleted;
      CoherentGeo();
      ghost var v0, slots, lbas := V(), SlotsOf(dir), LbasOf(dir);
      SlotTotal(dir);
      for i := 0 to |places|
        invariant Coherent() && Separate(dir) && V() == WithSlots(v0, dir, MarkedTo(slots, a, i))
      {
        LocsIndex(lbas, a, |places|, i);
        MarkSlot(dir, places[i], a + i);
      }
    }

    // The slot at a place, read out of its sector.
    lemma SlotRead(dir: DirLocation, place: Loc, k: nat)
      requires Coherent() && Separate(dir) && k < 16 * |LbasOf(dir)| && place == LocAt(LbasOf(dir), k)
      ensures place.lba < disk.Length && place.offset + 32 <= 512
      ensures k < |SlotsOf(dir)| && D()[place.lba][place.offset..place.offset + 32] == SlotsOf(dir)[k]
    {
      hide View, SameBut, NoRepeat, Disjoint, DirLbas, FatImage, GeoOf, Geo.Ok, Geo.FitsOn;
      ViewDir(g, D(), nodes, dir.Id());
      DirLbaRange(g, nodes, dir.Id(), k / 16, disk.Length);
    }

    // ---- finding and making room

    /** `count` free slots in a row in the directory as it is, or a free tail too short for them. */
    method FindFreeSlots(dir: DirLocation, lbas: seq<nat>, count: nat)
      returns (run: seq<Loc>, ghost a: nat)
      requires Mounted() && IsDirAt(nodes, dir) && lbas == LbasOf(dir) && 0 < count
      ensures |SlotsOf(dir)| == 16 * |lbas|
      ensures |run| <= count
      ensures |run| == count ==> FirstRun(SlotsOf(dir), a, count) && run == LocsAt(lbas, a, count)
      ensures |run| < count ==> NoFreeRun(SlotsOf(dir), count)
      ensures |run| < count ==> var r := FreeBefore(SlotsOf(dir), |SlotsOf(dir)|);
                                |run| == r && run == LocsAt(lbas, |SlotsOf(dir)| - r, r)
    {
      hide View, FatImage, ChainsOn, GeoOf, Geo.Ok, Geo.FitsOn, DirLbas, SlotsOf, Holds, ReadableVol, FreePlaces,
        FirstRun, NoFreeRun, RunsShort, FreeBefore, LocsAt, LbasOf;
      ghost var slots := SlotsOf(dir);
      SlotCount(dir);
      LbasAre(dir);
      NoRunYet(slots, count);
      run, a := [], 0;
      NoFreePlaces(lbas, slots);
      for j := 0 to |lbas|
        invariant RunsShort(slots, 16 * j, count) && run == FreePlaces(lbas, slots, 16 * j)
      {
        DirSector(dir, j);
        var buf := ReadSector(lbas[j]);
        var done: bool;
        ghost var k: nat;
        run, done, k := FreeRunInSector(buf, lbas, j, count, run, slots);
        if done {
          PlacesOfRun(lbas, slots, k, count);
          return run, k + 1 - count;
        }
      }
      ShortRunsAreNone(slots, count);
      ShortTail(lbas, slots, count);
    }

    lemma LbasAre(dir: DirLocation)
      requires ChainsOn(g, nodes) && dir.Id() in nodes
      ensures DataClusters(nodes[dir.Id()].chain) && LbasOf(dir) == DirLbas(g, nodes, dir.Id())
    {
    }

    // Zeroes the sectors of a cluster from sector `first` on.
    method ZeroSectors(c: nat, first: nat, ghost ch: seq<nat>, ghost d0: Disk, ghost from: nat)
      requires Coherent() && c in ch && 2 <= c < g.Clusters() && first <= g.perCluster && OnlyTouched(d0, from, ch)
      modifies `trace, disk
      ensures Coherent() && OnlyTouched(d0, from, ch) && Extends(old(trace), trace)
      ensures LinksOn(g, D()) == LinksOn(g, old(D())) && ZeroFrom(g, D(), c, first)
      ensures forall x :: 0 <= x < first ==>
                SectorAt(D(), ClusterSectors(g, c)[x]) == SectorAt(old(D()), ClusterSectors(g, c)[x])
    {
      hide Coherent, FatImage, LinksOn, OnlyTouched, ChainSectors, Geo.ClusterLba;
      for s := first to g.perCluster
        invariant Coherent() && OnlyTouched(d0, from, ch) && Extends(old(trace), trace)
        invariant LinksOn(g, D()) == LinksOn(g, old(D()))
        invariant forall x :: 0 <= x < first ==>
                    SectorAt(D(), ClusterSectors(g, c)[x]) == SectorAt(old(D()), ClusterSectors(g, c)[x])
        invariant forall x :: first <= x < s ==> SectorAt(D(), ClusterSectors(g, c)[x]) == ZeroSector()
      {
        WriteClusterSector(c, s, ZeroSector(), ch, d0, from);
      }
    }

    method LastCluster(start: nat, ghost ch: seq<nat>) returns (tail: nat)
      requires Coherent() && IsChain(LinksOn(g, D()), ch) && start == ch[0]
      ensures tail == ch[|ch| - 1]
    {
      hide Coherent, FatImage, LinksOn, IsChain;
      ghost var i := 0;
      ChainNotEmpty(LinksOn(g, D()), ch);
      tail := start;
      NextInChain(LinksOn(g, D()), ch, 0);
      var next := NextCluster(tail);
      while next.value.Some?
        invariant 0 <= i < |ch| && tail == ch[i] && next == if i + 1 < |ch| then Ok(Some(ch[i + 1])) else Ok(None)
        decreases |ch| - i
      {
        tail := next.value.value;
        i := i + 1;
        NextInChain(LinksOn(g, D()), ch, i);
        next := NextCluster(tail);
      }
    }

    // The free cluster `c` was added to the chain of `dir`; nothing else of the volume changed but links.
    ghost predicate GrownBy(n0: Nodes, v0: Vol, dir: DirLocation, c: nat)
      reads this, disk
    {
      var d := dir.Id();
      && d in n0 && d in v0.dirs && IsFreeCluster(v0.links, c)
      && nodes == n0[d := n0[d].(chain := n0[d].chain + [c])] && ChainsOn(g, nodes)
      && V() == GrownDir(v0, LinksOn(g, D()), d, 16 * g.perCluster)
      && FreeCount(LinksOn(g, D())) == FreeCount(v0.links) - 1
    }

    ghost predicate HasGrown(n0: Nodes, v0: Vol, dir: DirLocation)
      reads this, disk
    {
      exists c :: GrownBy(n0, v0, dir, c)
    }

    lemma GrowthSeen(n0: Nodes, v0: Vol, dir: DirLocation, c: nat)
      requires GrownBy(n0, v0, dir, c)
      ensures HasGrown(n0, v0, dir)
    {
    }

    /** Appends one zeroed cluster to a directory's chain; an error exactly when none is free. */
    method GrowDirectory(start: nat) returns (r: Result<Loc>, ghost c: nat)
      requires Valid() && IsDirAt(nodes, Cluster(start))
      modifies `nodes, `trace, disk, fatBytes
      ensures Valid() && T() == old(T()) && Extends(old(trace), trace)
      ensures r.Ok? <==> FreeCount(LinksOn(g, old(D()))) > 0
      ensures r.Err? ==> r.error == NoClusters && D() == old(D()) && nodes == old(nodes) && trace == old(trace)
      ensures r.Ok? ==> GrownBy(old(nodes), old(V()), Cluster(start), c) && r.value == Loc(g.ClusterLba(c), 0)
      ensures r.Ok? ==> OneMore(LinksOn(g, old(D())), LinksOn(g, D()))
      ensures r.Ok? ==> Grew(g, trace, old(D()), old(T()), |old(trace)|)
    {
      hide View, FatImage, LinksOn, SameBut, OnDisk, Inv, IsChain, ZeroFrom, FreeCount, FreeBelow, TreeOf,
        IsFreeCluster, ReadableVol, GrownDir, GrownSound, GrownBy, LinkedOn, Grew, GrownOn;
      CoherentGeo();
      SoundIsReadable(g, D(), nodes);
      ChainOfNode(g, D(), nodes, start);
      ghost var d0, n0, ch, links := D(), nodes, nodes[start].chain, LinksOn(g, D());
      var tail := LastCluster(start, ch);
      var found := FindFreeClusters(1);
      if found.Err? {
        return Err(found.error), 0;
      }
      var newCluster := found.value[0];
      c := newCluster;
      ChainEnd(links, ch, c);
      FirstFree(links, found.value);
      ghost var w := AppendCluster(tail, newCluster);
      GrowthDone(d0, start, c);
      nodes := nodes[start := nodes[start].(chain := ch + [c])];
      GrowthIs(d0, n0, start, c);
      ChainLinked(links, LinksOn(g, D()), ch, c);
      GrowthShown(d0, n0, |old(trace)|, w);
      r := Ok(Loc(g.ClusterLba(newCluster), 0));
    }

    // The steps of `AppendCluster`: first only the data of `c` is touched, then only the two links.
    ghost predicate GrownOn(d0: Disk, from: nat, w: Growth)
      reads this`trace
    {
      && from <= w.first <= w.linked < w.last == |trace| - 1 <= w.first + 3
      && (forall i :: from <= i < w.first ==> Within(g, d0, trace[i], [w.c]))
      && (forall i :: w.first <= i < w.last ==> Torn(g, d0, trace[i], w.tail, w.c))
      && w.tail < |LinksOn(g, d0)| && LinksOn(g, trace[w.linked]) == LinksOn(g, d0)[w.tail := w.c]
    }

    // Zeroes a cluster, links `tail` to it, and marks it as the end.
    method AppendCluster(tail: nat, c: nat) returns (ghost w: Growth)
      requires Coherent() && 2 <= tail < g.Clusters() && 2 <= c < g.Clusters()
      modifies `trace, disk, fatBytes
      ensures Coherent() && Extends(old(trace), trace)
      ensures w.tail == tail && w.c == c && GrownOn(old(D()), |old(trace)|, w)
      ensures SameBut(g, old(D()), D(), [c]) && ZeroFrom(g, D(), c, 0)
      ensures LinksOn(g, D()) == LinksOn(g, old(D()))[tail := c][c := END_OF_CHAIN]
    {
      hide View, FatImage, LinksOn, SameBut, OnDisk, OnlyTouched, ZeroFrom, Torn, Within, LinksBut;
      CoherentGeo();
      ghost var d0, t0 := D(), trace;
      WholeTouched([c]);
      ZeroSectors(c, 0, [c], d0, |trace|);
      ghost var d1, t1 := D(), trace;
      TouchedSame(d0, [c]);
      StepsTouched(d0, |t0|, [c]);
      ghost var mid := LinkPair(tail, c);
      w := Growth(tail, c, |t1|, mid, |trace| - 1);
      StepsTorn(d0, d1, t0, t1, w);
      SameButMore(g, d1, D(), [c]);
      SameButTrans(g, d0, d1, D(), [c]);
      ZeroKept(g, d1, D(), c);
    }

    lemma GrowthIs(d0: Disk, n0: Nodes, start: nat, c: nat)
      requires ChainsOn(g, n0) && start in n0 && start != 0 && IsFreeCluster(LinksOn(g, d0), c)
      requires Cached() && nodes == n0[start := n0[start].(chain := n0[start].chain + [c])]
      requires GrownSound(g, d0, D(), n0, start, c) && FreeCount(LinksOn(g, D())) == FreeCount(LinksOn(g, d0)) - 1
      ensures GrownBy(n0, View(g, d0, n0), Cluster(start), c) && Valid() && T() == TreeOn(g, d0, n0)
    {
      hide View, FatImage, LinksOn, Inv, GeoOf, Geo.Ok, Geo.FitsOn, FreeCount, TreeOf, IsFreeCluster, GrownDir;
      ViewKeys(g, d0, n0);
    }

    lemma FirstFree(links: seq<nat>, found: seq<nat>)
      requires |found| == 1 && |links| <= MAX_CLUSTERS && found <= FreeBelow(links, |links|)
      ensures IsFreeCluster(links, found[0]) && 2 <= found[0] < |links|
    {
    }

    lemma TouchedSame(d0: Disk, ch: seq<nat>)
      requires exists from: nat :: OnlyTouched(d0, from, ch)
      ensures SameBut(g, d0, D(), ch)
    {
    }

    lemma ChainEnd(links: seq<nat>, ch: seq<nat>, c: nat)
      requires IsChain(links, ch)
      ensures ch != [] && 2 <= ch[|ch| - 1] < |links| <= MAX_CLUSTERS
    {
    }

    lemma StepsTouched(d0: Disk, from: nat, ch: seq<nat>)
      requires OnlyTouched(d0, from, ch)
      ensures forall i :: from <= i < |trace| ==> Within(g, d0, trace[i], ch)
    {
    }

    lemma StepsTorn(d0: Disk, d1: Disk, t0: seq<Disk>, t1: seq<Disk>, w: Growth)
      requires SameBut(g, d0, d1, [w.c]) && LinksOn(g, d1) == LinksOn(g, d0) && Extends(t1, trace)
      requires |t0| <= |t1| == w.first <= w.linked < w.last == |trace| - 1 <= w.first + 3
      requires forall i :: |t0| <= i < |t1| ==> Within(g, d0, t1[i], [w.c])
      requires forall i :: |t1| <= i < |trace| ==>
                 SameBut(g, d1, trace[i], []) && LinksBut(LinksOn(g, d1), LinksOn(g, trace[i]), [w.tail, w.c])
      requires w.tail < |LinksOn(g, d1)| && LinksOn(g, trace[w.linked]) == LinksOn(g, d1)[w.tail := w.c]
      ensures GrownOn(d0, |t0|, w)
    {
      hide FatImage, LinksOn, SameBut, Within, LinksBut, Extends;
      forall i: nat | |t0| <= i < |t1| ensures Within(g, d0, trace[i], [w.c]) {
        ExtendsAt(t1, trace, i);
      }
      forall i: nat | |t1| <= i < |trace| ensures Torn(g, d0, trace[i], w.tail, w.c) {
        SameButMore(g, d1, trace[i], [w.c]);
        SameButTrans(g, d0, d1, trace[i], [w.c]);
      }
    }

    lemma ChainLinked(before: seq<nat>, after: seq<nat>, ch: seq<nat>, c: nat)
      requires IsChain(before, ch) && IsFreeCluster(before, c) && after == Extended(before, ch, c)
      ensures LinkedOn(before, after, ch[|ch| - 1], c) && OneMore(before, after)
    {
      ChainStep(before, ch, |ch| - 1);
      assert LinkedOn(before, after, ch[|ch| - 1], c);
    }

    // Seen from the disk before, the steps of a growing directory show its tree, but for the torn ones.
    lemma GrowthShown(d0: Disk, n0: Nodes, from: nat, w: Growth)
      requires Valid() && SoundDisk(g, d0, n0) && T() == TreeOn(g, d0, n0) && GrownOn(d0, from, w)
      requires LinkedOn(LinksOn(g, d0), LinksOn(g, D()), w.tail, w.c)
      ensures Grew(g, trace, d0, TreeOn(g, d0, n0), from)
    {
      hide View, FatImage, SameBut, GeoOf, Geo.Ok, Geo.FitsOn, Inv, TreeOf, ReadableVol, Torn, Within, LinkedOn,
        NextOf, ChainsOn, LinksBut;
      CoherentGeo();
      SoundIsReadable(g, d0, n0);
      SoundIsReadable(g, D(), nodes);
      forall i | from <= i < |trace| && !(w.first <= i < w.last) ensures ShowsTree(g, trace[i], TreeOn(g, d0, n0)) {
        if i < w.first {
          JustFree(LinksOn(g, d0), LinksOn(g, D()), w.tail, w.c);
          Invisible(g, d0, trace[i], n0, [w.c]);
          assert ReadableDisk(g, trace[i], n0);
        } else {
          assert ReadableDisk(g, trace[i], nodes);
        }
      }
      HalfLinked(LinksOn(g, d0), LinksOn(g, D()), w.tail, w.c);
      assert GrewAt(g, trace, d0, TreeOn(g, d0, n0), from, w);
    }

    lemma JustFree(before: seq<nat>, after: seq<nat>, tail: nat, c: nat)
      requires LinkedOn(before, after, tail, c)
      ensures AllFree(before, [c])
    {
    }

    // Between the two link writes the chain leads to the new cluster, and the new cluster nowhere.
    lemma HalfLinked(before: seq<nat>, after: seq<nat>, tail: nat, c: nat)
      requires LinkedOn(before, after, tail, c) && |after| <= MAX_CLUSTERS
      ensures NextOf(before[tail := c], tail) == Ok(Some(c)) && NextOf(before[tail := c], c) == Err(FreeInChain)
    {
    }

    // `tail` is linked to `c`, and `c` marked as the end; `mid` is the step between.
    method LinkPair(tail: nat, c: nat) returns (ghost mid: nat)
      requires Coherent() && 2 <= tail < g.Clusters() && 2 <= c < g.Clusters()
      modifies `trace, disk, fatBytes
      ensures Coherent() && Extends(old(trace), trace) && SameBut(g, old(D()), D(), [])
      ensures LinksOn(g, D()) == LinksOn(g, old(D()))[tail := c][c := END_OF_CHAIN]
      ensures |old(trace)| <= mid < |trace| - 1 <= |old(trace)| + 3
      ensures LinksOn(g, trace[mid]) == LinksOn(g, old(D()))[tail := c]
      ensures forall i :: |old(trace)| <= i < |trace| ==>
                SameBut(g, old(D()), trace[i], []) && LinksBut(LinksOn(g, old(D())), LinksOn(g, trace[i]), [tail, c])
    {
      hide View, FatImage, LinksOn, SameBut, OnDisk, LinksBut, OnlyTouched;
      ghost var d0, t0 := D(), trace;
      assert c < MAX_CLUSTERS by {
        SmallClusters([c]);
        assert [c][0] == c;
      }
      WholeTouched([tail, c]);
      ghost var from := |trace|;
      SetLink(tail, c, [tail, c], d0, from);
      ghost var d1, t1 := D(), trace;
      mid := |t1| - 1;
      SetLink(c, 0x0FFF, [tail, c], d0, from);
      SameButTrans(g, d0, d1, D(), []);
      ExtendsTrans(t0, t1, trace);
      StepsTouched(d0, from, [tail, c]);
      forall i: nat | |t0| <= i < |trace| ensures SameBut(g, d0, trace[i], []) {
        if i < |t1| {
          ExtendsAt(t1, trace, i);
        } else {
          SameButTrans(g, d0, d1, trace[i], []);
        }
      }
      ExtendsAt(t1, trace, mid);
    }

    // What the writes of a growing directory add up to.
    lemma GrowthDone(d0: Disk, start: nat, c: nat)
      requires SoundDisk(g, d0, nodes) && IsDirAt(nodes, Cluster(start))
      requires IsFreeCluster(LinksOn(g, d0), c) && SameBut(g, d0, D(), [c]) && ZeroFrom(g, D(), c, 0)
      requires IsChain(LinksOn(g, d0), nodes[start].chain)
      requires LinksOn(g, D()) == Extended(LinksOn(g, d0), nodes[start].chain, c)
      ensures GrownSound(g, d0, D(), nodes, start, c)
      ensures FreeCount(LinksOn(g, D())) == FreeCount(LinksOn(g, d0)) - 1
    {
      hide View, FatImage, LinksOn, SameBut, OnDisk, Inv, IsChain, ZeroFrom, Rechained, FreeCount, TreeOf,
        IsFreeCluster, Extended, GrownSound;
      var ch := nodes[start].chain;
      ExtendRechains(LinksOn(g, d0), ch, c);
      GrownIsSound(g, d0, D(), nodes, start, c);
    }

    ghost function RoomIn(dir: DirLocation, count: nat): Option<Error>
      requires ChainsOn(g, nodes) && IsDirAt(nodes, dir)
      reads this, disk
    {
      RoomError(dir.Root?, SlotsOf(dir), count, FreeCount(LinksOn(g, D())))
    }

    /** `count` free slots in a row, in directory order; a subdirectory without them grows. */
    method FindFreeEntryRun(dir: DirLocation, count: nat) returns (r: Result<seq<Loc>>, ghost a: nat)
      requires Valid() && IsDirAt(nodes, dir) && 0 < count
      modifies `nodes, `trace, disk, fatBytes
      ensures Valid() && IsDirAt(nodes, dir) && T() == old(T()) && Extends(old(trace), trace)
      ensures r.Ok? <==> old(RoomIn(dir, count)) == None
      ensures r.Err? ==> old(RoomIn(dir, count)) == Some(r.error)
      ensures r.Err? ==> D() == old(D()) && nodes == old(nodes) && trace == old(trace)
      ensures r.Ok? ==> FreeRun(SlotsOf(dir), a, count) && |SlotsOf(dir)| == 16 * |LbasOf(dir)|
      ensures r.Ok? ==> a + count <= 16 * |LbasOf(dir)| && r.value == LocsAt(LbasOf(dir), a, count)
      ensures r.Ok? && !NoFreeRun(old(SlotsOf(dir)), count) ==> D() == old(D()) && nodes == old(nodes) && trace == old(trace)
      ensures r.Ok? && !NoFreeRun(old(SlotsOf(dir)), count) ==> FirstRun(old(SlotsOf(dir)), a, count)
      ensures r.Ok? && NoFreeRun(old(SlotsOf(dir)), count) ==> HasGrown(old(nodes), old(V()), dir)
      ensures r.Ok? && NoFreeRun(old(SlotsOf(dir)), count) ==>
                OneMore(LinksOn(g, old(D())), LinksOn(g, D())) && Grew(g, trace, old(D()), old(T()), |old(trace)|)
      ensures r.Ok? ==> exists n: nat :: SlotsOf(dir) == old(SlotsOf(dir)) + Zeroed(n)
    {
      hide View, FatImage, LinksOn, Inv, IsChain, FreeCount, TreeOf, NoFreeRun, FirstRun, FreeRun, LocsAt,
        FreeBefore, GrownBy, HasGrown, OneMore, Grew, LbasOf, OnDisk, ReadableVol;
      if count > SLOTS_PER_SECTOR {
        return Err(RunTooLong), 0;
      }
      CoherentGeo();
      SoundIsReadable(g, D(), nodes);
      LbasAre(dir);
      ghost var slots := SlotsOf(dir);
      var lbas := DirectorySectors(dir);
      var run: seq<Loc>;
      run, a := FindFreeSlots(dir, lbas, count);
      if |run| == count {
        RunIsThere(slots, a, count);
        assert slots + Zeroed(0) == slots;
        return Ok(run), a;
      }
      match dir {
        case Root => return Err(RootFull), 0;
        case Cluster(start) => r, a := RunInNewCluster(start, run, count, lbas);
      }
    }

    // Grows a directory whose free tail `run` is too short, and continues the run into the new cluster.
    method RunInNewCluster(start: nat, run: seq<Loc>, count: nat, ghost lbas: seq<nat>)
      returns (r: Result<seq<Loc>>, ghost a: nat)
      requires Valid() && IsDirAt(nodes, Cluster(start)) && lbas == LbasOf(Cluster(start))
      requires |run| < count <= SLOTS_PER_SECTOR && |SlotsOf(Cluster(start))| == 16 * |lbas|
      requires |run| == FreeBefore(SlotsOf(Cluster(start)), |SlotsOf(Cluster(start))|)
      requires run == LocsAt(lbas, 16 * |lbas| - |run|, |run|)
      modifies `nodes, `trace, disk, fatBytes
      ensures Valid() && IsDirAt(nodes, Cluster(start)) && T() == old(T()) && Extends(old(trace), trace)
      ensures r.Ok? <==> FreeCount(LinksOn(g, old(D()))) > 0
      ensures r.Err? ==> r.error == NoClusters && D() == old(D()) && nodes == old(nodes) && trace == old(trace)
      ensures r.Ok? ==> HasGrown(old(nodes), old(V()), Cluster(start))
      ensures r.Ok? ==> OneMore(LinksOn(g, old(D())), LinksOn(g, D())) && Grew(g, trace, old(D()), old(T()), |old(trace)|)
      ensures r.Ok? ==> FreeRun(SlotsOf(Cluster(start)), a, count) && |SlotsOf(Cluster(start))| == 16 * |LbasOf(Cluster(start))|
      ensures r.Ok? ==> a + count <= 16 * |LbasOf(Cluster(start))| && r.value == LocsAt(LbasOf(Cluster(start)), a, count)
      ensures r.Ok? ==> exists n: nat :: SlotsOf(Cluster(start)) == old(SlotsOf(Cluster(start))) + Zeroed(n)
    {
      hide View, FatImage, LinksOn, Inv, IsChain, FreeCount, TreeOf, FreeRun, LocsAt, FreeBefore, GrownBy, HasGrown,
        OneMore, Grew, LbasOf, OnDisk, ReadableVol, DirLbas, Zeroed;
      CoherentGeo();
      LbasAre(Cluster(start));
      DirIsThere(Cluster(start));
      ghost var n0, v0, slots := nodes, V(), SlotsOf(Cluster(start));
      var room, c := GrowDirectory(start);
      a := 0;
      if room.Err? {
        return Err(room.error), a;
      }
      GrowthSeen(n0, v0, Cluster(start), c);
      GrownSlots(n0, v0, Cluster(start), c, slots, lbas);
      GrownRun(slots, 16 * g.perCluster, count);
      a := |slots| - FreeBefore(slots, |slots|);
      var places := ContinueRun(run, count, room.value, lbas, ClusterSectors(g, c));
      SlotTotal(Cluster(start));
      r := Ok(places);
    }

    lemma DirIsThere(dir: DirLocation)
      requires Coherent() && IsDirAt(nodes, dir)
      ensures ChainsOn(g, nodes) && dir.Id() in V().dirs && SlotsOf(dir) == V().dirs[dir.Id()]
      ensures DataClusters(nodes[dir.Id()].chain)
    {
      hide OnDisk, FatImage;
      CoherentGeo();
      ViewDir(g, D(), nodes, dir.Id());
    }

    lemma RunIsThere(slots: seq<Slot>, a: nat, count: nat)
      requires FirstRun(slots, a, count)
      ensures FreeRun(slots, a, count) && !NoFreeRun(slots, count) && a + count <= |slots|
    {
      assert AllFreeAt(slots, a, count);
    }

    // The slots and places of a directory that grew.
    lemma GrownSlots(n0: Nodes, v0: Vol, dir: DirLocation, c: nat, slots: seq<Slot>, lbas: seq<nat>)
      requires Coherent() && GrownBy(n0, v0, dir, c) && dir.Cluster? && dir.c != 0 && n0[dir.c].isDir
      requires ChainsOn(g, n0) && DataClusters(n0[dir.c].chain) && lbas == DirLbas(g, n0, dir.c) && slots == v0.dirs[dir.c]
      ensures c >= 2 && g.perCluster > 0 && IsDirAt(nodes, dir)
      ensures SlotsOf(dir) == slots + Zeroed(16 * g.perCluster)
      ensures LbasOf(dir) == lbas + ClusterSectors(g, c) && ClusterSectors(g, c)[0] == g.ClusterLba(c)
    {
      hide View, FatImage, LinksOn, FreeCount, Zeroed, GeoOf;
      ChainSectorsAppend(g, n0[dir.c].chain, c);
    }

    // ---- names

    method NameListed(dir: DirLocation, name: Name) returns (taken: bool)
      requires Mounted() && IsDirAt(nodes, dir)
      ensures taken <==> !NameFresh(SlotsOf(dir), name)
    {
      hide View, FatImage, OnDisk, ReadableVol, SlotsOf, Scan, NameAt, IsShort, EqIgnoreCase, Readable;
      CoherentGeo();
      ghost var slots := SlotsOf(dir);
      DirShape(dir);
      NamesListed(slots, name);
      var entries := ListEntriesIn(dir);
      taken := AnyNamed(entries, name);
    }

    /** The short name and long slots for `name`: itself when 8.3 holds it, else the first free alias. */
    method BuildNameEntries(dir: DirLocation, name: Name) returns (r: Result<(ShortName, seq<Slot>)>)
      requires Mounted() && IsDirAt(nodes, dir)
      ensures r.Ok? <==> NameError(SlotsOf(dir), name) == None
      ensures r.Err? ==> NameError(SlotsOf(dir), name) == Some(r.error)
      ensures r.Ok? ==> NameSlots(name, r.value.0, r.value.1) && ShortFresh(SlotsOf(dir), r.value.0)
    {
      hide View, FatImage, OnDisk, ReadableVol, SlotsOf, Readable, ShortNamesTo, ToShort, ShortFresh, LongSlots;
      CoherentGeo();
      ghost var slots := SlotsOf(dir);
      DirShape(dir);
      ReadableEnds(slots);
      FreshIsUnlisted(slots);
      var short := ToShortName(name);
      if short.Ok? {
        var existing := ExistingShortNames(dir);
        if short.value in existing {
          return Err(ShortNameTaken);
        }
        return Ok((short.value, []));
      }
      if name == [] || |name| > MAX_LFN_CHARS || !(forall b | b in name :: IsValidLfnChar(b)) {
        return Err(BadName);
      }
      var existing := ExistingShortNames(dir);
      var alias := GenerateShortAlias(name, existing);
      if alias.Err? {
        return Err(alias.error);
      }
      var longs := BuildLfnEntries(name, alias.value);
      r := Ok((alias.value, longs));
    }

    lemma FreshIsUnlisted(slots: seq<Slot>)
      requires EndMarker(slots)
      ensures forall short :: short in ShortNamesTo(slots, FirstEnd(slots)) <==> !ShortFresh(slots, short)
    {
      hide ShortNamesTo, IsShort, ShortOf, FirstEnd;
      forall short: ShortName ensures short in ShortNamesTo(slots, FirstEnd(slots)) <==> !ShortFresh(slots, short) {
        ShortListed(slots, short);
      }
    }

    // ---- creating files and directories

    // The entry for a new file or directory, in the free slots `at..`.
    ghost predicate Prepared(dir: DirLocation, name: Name, short: ShortName, longs: seq<Slot>, places: seq<Loc>, at: nat)
      requires ChainsOn(g, nodes) && IsDirAt(nodes, dir)
      reads this, disk
    {
      && NameAllowed(name) && NameSlots(name, short, longs)
      && NameFresh(SlotsOf(dir), name) && ShortFresh(SlotsOf(dir), short)
      && FreeRun(SlotsOf(dir), at, |longs| + 1) && |SlotsOf(dir)| == 16 * |LbasOf(dir)|
      && at + |longs| + 1 <= 16 * |LbasOf(dir)| && places == LocsAt(LbasOf(dir), at, |longs| + 1)
    }

    lemma ReadyToAdd(dir: DirLocation, name: Name, short: ShortName, longs: seq<Slot>, places: seq<Loc>, at: nat, ch: seq<nat>, raw: Slot)
      requires Valid() && IsDirAt(nodes, dir) && Prepared(dir, name, short, longs, places, at)
      requires ch != [] && NoRepeat(ch) && AllFree(LinksOn(g, D()), ch)
      requires ShortOf(raw) == short && (raw[11] == ATTR_ARCHIVE || raw[11] == ATTR_DIRECTORY) && StartOf(raw) == ch[0]
      ensures Ready(g, D(), nodes, Addition(dir.Id(), at, longs + [raw], ch, IsDir(raw)))
    {
      hide View, FatImage, Inv, GeoOf, Geo.Ok, Geo.FitsOn, NoRepeat, AllFree, FreeRun, FreshGroup, NameFresh,
        ShortFresh, NameAllowed, NameSlots, StartOf, IsDir, ShortOf, LocsAt;
      DirIsThere(dir);
      GroupIsFresh(SlotsOf(dir), name, short, longs, raw);
      assert (longs + [raw])[|longs|] == raw;
    }

    lemma FoundClusters(links: seq<nat>, found: seq<nat>)
      requires |links| <= MAX_CLUSTERS && found <= FreeBelow(links, |links|) && found != []
      ensures NoRepeat(found) && AllFree(links, found) && DataClusters(found) && found[0] < MAX_CLUSTERS
    {
    }

    // The clusters of node `id` were free in `links` and are now its chain; no other link changed.
    ghost predicate Taken(links: seq<nat>, id: nat)
      reads this, disk
    {
      id in nodes && AllFree(links, nodes[id].chain)
      && Written(links, LinksOn(g, D()), nodes[id].chain, |nodes[id].chain|)
    }

    // Every disk since `from` but the last shows the tree of `d0`.
    ghost predicate Unseen(d0: Disk, n0: Nodes, from: nat)
      reads this
    {
      forall i :: from <= i < |trace| - 1 ==> ShowsSame(g, d0, trace[i], n0)
    }

    // The entry `e` was added to `dir` at place `i` of its listing, and nothing else is different.
    ghost predicate FileAdded(t0: Tree, dir: DirLocation, i: nat, e: Listed, data: seq<byte>)
      reads this, disk
    {
      && ChainsOn(g, nodes) && dir.Id() in t0.dirs && i <= |t0.dirs[dir.Id()]|
      && T() == WithFile(t0, dir.Id(), i, e, data)
    }

    /** Writes the entry for the clusters laid out since `d1`; up to its last slot nothing can be seen of it. */
    method WriteEntry(dir: DirLocation, places: seq<Loc>, longs: seq<Slot>, raw: Slot, ghost add: Addition, ghost d1: Disk,
                      ghost from: nat)
      requires Coherent() && IsDirAt(nodes, dir) && add.d == dir.Id() && add.group == longs + [raw]
      requires Ready(g, d1, nodes, add) && Laid(g, d1, D(), add.ch) && OnlyTouched(d1, from, add.ch)
      requires add.at + |longs| + 1 <= 16 * |LbasOf(dir)| && places == LocsAt(LbasOf(dir), add.at, |longs| + 1)
      modifies `nodes, `trace, disk
      ensures Coherent() && nodes == With(old(nodes), add) && IsDirAt(nodes, dir) && Extends(old(trace), trace)
      ensures EntryWritten(add, old(D()), D(), nodes)
      ensures Unseen(d1, old(nodes), from) && |old(trace)| < |trace|
    {
      hide View, FatImage, LinksOn, SameBut, OnDisk, Ready, Laid, Within, LocsAt, Splice, ShowsSame, Disjoint,
        NoRepeat, Unseen, ShowsPart, Extends;
      ghost var d2, n1, before := D(), nodes, trace;
      ReadyDir(d1, add);
      NodeFits(g, d1, d2, n1, add);
      nodes := With(nodes, add);
      DirIsThere(dir);
      SlotTotal(dir);
      WriteNameEntries(dir, places, longs, raw, add.at);
      EntryUnseen(dir, add, d1, d2, n1, before, from);
    }

    lemma ReadyDir(d1: Disk, add: Addition)
      requires Ready(g, d1, nodes, add)
      ensures NoRepeat(nodes[add.d].chain) && 0 in nodes && nodes[0].isDir && add.group != [] && add.ch != [] && add.d != add.Id()
    {
      hide View, Inv, LinksOn, FreshGroup, FreeRun, AllFree, Allocated, ReadableDisk;
      ReadyFacts(g, d1, nodes, add);
      if add.d != 0 {
        ChainOfNode(g, d1, nodes, add.d);
      }
    }

    lemma EntryUnseen(dir: DirLocation, add: Addition, d1: Disk, d2: Disk, n1: Nodes, before: seq<Disk>, from: nat)
      requires Ready(g, d1, n1, add) && Laid(g, d1, d2, add.ch) && add.d == dir.Id()
      requires nodes == With(n1, add) && ChainsOn(g, nodes)
      requires Extends(before, trace) && |trace| == |before| + |add.group|
      requires forall i :: from <= i < |before| ==> Within(g, d1, before[i], add.ch)
      requires forall i :: |before| <= i < |trace| ==>
                 ShowsPart(trace[i], View(g, d2, nodes), dir, add.at, add.group, i + 1 - |before|)
      ensures Unseen(d1, n1, from)
    {
      hide View, FatImage, LinksOn, SameBut, OnDisk, Ready, Laid, Within, Splice, ShowsSame, Disjoint, NoRepeat,
        Extends;
      forall i: nat | from <= i < |trace| - 1 ensures ShowsSame(g, d1, trace[i], n1) {
        if i < |before| {
          ExtendsAt(before, trace, i);
          LaidUnseen(g, d1, trace[i], n1, add);
        } else {
          SlotsUnseen(g, d1, d2, trace[i], n1, add, i + 1 - |before|);
        }
      }
    }

    // `b` is `a` with the slots of the addition filled.
    ghost predicate EntryWritten(add: Addition, a: Disk, b: Disk, n: Nodes) {
      && ChainsOn(g, n)
      && var w := View(g, a, n);
         && add.d in w.dirs && add.at + |add.group| <= |w.dirs[add.d]|
         && View(g, b, n) == w.(dirs := w.dirs[add.d := Splice(w.dirs[add.d], add.at, add.group)])
    }

    // `data.len().div_ceil(cluster_bytes).max(1)`
    method ClustersFor(length: nat) returns (n: nat)
      requires g.Ok()
      ensures g.ClusterBytes() > 0 && n == Needed(g.ClusterBytes(), length) && n >= 1
    {
      var clusterBytes := g.perCluster * 512;
      n := (length + clusterBytes - 1) / clusterBytes;
      if n < 1 {
        n := 1;
      }
    }

    /** Lays the data over free clusters, then writes the entry. */
    method WriteNewFile(dir: DirLocation, name: Name, short: ShortName, longs: seq<Slot>, places: seq<Loc>, ghost at: nat,
                        ch: seq<nat>, data: seq<byte>, time: nat, date: nat)
      returns (ghost i: nat, ghost e: Listed)
      requires Valid() && IsDirAt(nodes, dir) && Prepared(dir, name, short, longs, places, at)
      requires time < 0x1_0000 && date < 0x1_0000 && |data| < 0x1_0000_0000
      requires ch != [] && NoRepeat(ch) && AllFree(LinksOn(g, D()), ch) && ch[0] < MAX_CLUSTERS
      requires g.ClusterBytes() > 0 && |ch| == Needed(g.ClusterBytes(), |data|)
      modifies `nodes, `trace, disk, fatBytes
      ensures Valid() && IsDirAt(nodes, dir) && Extends(old(trace), trace)
      ensures FileAdded(old(T()), dir, i, e, data) && EntryMade(e, name, false, |data|, time, date)
      ensures e.entry.start !in old(nodes) && Taken(LinksOn(g, old(D())), e.entry.start)
      ensures Unseen(old(D()), old(nodes), |old(trace)|) && |old(trace)| < |trace|
      ensures Used(SlotsOf(dir)) == old(Used(SlotsOf(dir))) + SlotsNeeded(name)
    {
      hide View, FatImage, LinksOn, SameBut, OnDisk, Inv, OnlyTouched, TreeOf, NoRepeat, AllFree, Written, FreeRun,
        Needed, Geo.ClusterBytes, NameFresh, ShortFresh, NameSlots, NameAllowed, LocsAt, DirSlot, Within, Ready,
        ChainSectors, Padded, EntryMade, Used, GroupShort, GroupListed, Listing, ListRange, StartOf, SizeOf, IsDir,
        Unseen, EntryWritten, Laid;
      CoherentGeo();
      ViewKeys(g, D(), nodes);
      ghost var d1, n1, before := D(), nodes, trace;
      ghost var add := Addition(dir.Id(), at, longs + [DirSlot(short, 0x20, ch[0], |data|, time, date)], ch, false);
      FreeFits(g, LinksOn(g, D()), ch);
      GroupMade(name, short, longs, 0x20, ch[0], |data|, time, date);
      LongCount(name, short, longs);
      ReadyToAdd(dir, name, short, longs, places, at, ch, DirSlot(short, 0x20, ch[0], |data|, time, date));
      DirIsThere(dir);
      WholeTouched(ch);
      WriteChain(ch, data, d1, |before|);
      ghost var d2, mid := D(), trace;
      LaidNow(d1, |before|, ch);
      var raw := BuildDirEntry(short, 0x20, ch[0], |data|, time, date);
      WriteEntry(dir, places, longs, raw, add, d1, |before|);
      ExtendsTrans(before, mid, trace);
      NewFileDone(dir, add, d1, d2, n1, data);
      DirIsThere(dir);
      i, e := |ListRange(View(g, d1, n1).dirs[dir.Id()], 0, at)|, GroupListed(add.group);
    }

    lemma LaidNow(d1: Disk, from: nat, ch: seq<nat>)
      requires OnlyTouched(d1, from, ch) && Written(LinksOn(g, d1), LinksOn(g, D()), ch, |ch|)
      ensures Laid(g, d1, D(), ch)
    {
    }

    // What a finished addition of a file adds up to.
    lemma NewFileDone(dir: DirLocation, add: Addition, d1: Disk, d2: Disk, n1: Nodes, data: seq<byte>)
      requires Coherent() && Ready(g, d1, n1, add) && Laid(g, d1, d2, add.ch) && !add.isDir && add.d == dir.Id()
      requires nodes == With(n1, add) && EntryWritten(add, d2, D(), nodes) && IsDirAt(nodes, dir)
      requires SizeOf(GroupShort(add.group)) == |data| && |add.ch| == Needed(g.ClusterBytes(), |data|)
      requires DataClusters(add.ch) && Raw(d2, ChainSectors(g, add.ch)) == Padded(data, 512 * |ChainSectors(g, add.ch)|)
      ensures Valid() && Taken(LinksOn(g, d1), add.Id()) && add.Id() !in n1
      ensures FileAdded(TreeOn(g, d1, n1), dir, |ListRange(View(g, d1, n1).dirs[add.d], 0, add.at)|, GroupListed(add.group), data)
      ensures add.d in V().dirs && Used(V().dirs[add.d]) == Used(View(g, d1, n1).dirs[add.d]) + |add.group|
    {
      hide View, FatImage, LinksOn, SameBut, GeoOf, Geo.Ok, Geo.FitsOn, Inv, TreeOf, NoRepeat, AllFree, Written,
        FreeRun, FreshGroup, Needed, Geo.ClusterBytes, Within, ChainSectors, Padded, Used, GroupShort, GroupListed,
        Listing, ListRange, StartOf, SizeOf, IsDir, Splice, Raw;
      FileIsThere(g, d1, d2, D(), n1, add, data);
      AdditionCounts(g, d1, d2, D(), n1, add);
    }

    lemma GrowthCounts(n0: Nodes, v0: Vol, dir: DirLocation)
      ensures HasGrown(n0, v0, dir) ==>
                nodes.Keys == n0.Keys && FreeCount(LinksOn(g, D())) == FreeCount(v0.links) - 1
    {
      hide View, FatImage, LinksOn, FreeCount;
      if HasGrown(n0, v0, dir) {
        var c :| GrownBy(n0, v0, dir, c);
        assert nodes.Keys == n0.Keys;
      }
    }

    // Why no entry for `name` can be made in `dir`, if none can, in the order in which it is found out.
    ghost function EntryError(dir: DirLocation, name: Name): Option<Error>
      requires ChainsOn(g, nodes) && IsDirAt(nodes, dir)
      reads this, disk
    {
      if !NameFresh(SlotsOf(dir), name) then Some(NameTaken)
      else if NameError(SlotsOf(dir), name).Some? then NameError(SlotsOf(dir), name)
      else RoomIn(dir, SlotsNeeded(name))
    }

    // `dir` has no room for an entry named `name` unless it grows.
    ghost predicate MustGrow(dir: DirLocation, name: Name)
      requires ChainsOn(g, nodes) && IsDirAt(nodes, dir)
      reads this, disk
    {
      NoFreeRun(SlotsOf(dir), SlotsNeeded(name))
    }

    // The clusters left for content once there is room for the entry.
    ghost function ClustersLeft(dir: DirLocation, name: Name): int
      requires ChainsOn(g, nodes) && IsDirAt(nodes, dir)
      reads this, disk
    {
      FreeCount(LinksOn(g, D())) - if MustGrow(dir, name) then 1 else 0
    }

    // Nothing at all has happened.
    twostate predicate Untouched()
      reads this, disk
    {
      D() == old(D()) && nodes == old(nodes) && trace == old(trace)
    }

    /** Everything up to the reserved slots of a new entry; the tree is as before, whatever comes of it. */
    method PrepareEntry(dir: DirLocation, name: Name)
      returns (r: Result<(ShortName, seq<Slot>, seq<Loc>)>, ghost at: nat)
      requires Valid() && IsDirAt(nodes, dir) && NameAllowed(name)
      modifies `nodes, `trace, disk, fatBytes
      ensures Valid() && IsDirAt(nodes, dir) && T() == old(T()) && Extends(old(trace), trace)
      ensures r.Ok? <==> old(EntryError(dir, name)) == None
      ensures r.Err? ==> old(EntryError(dir, name)) == Some(r.error) && Untouched()
      ensures r.Ok? ==> Prepared(dir, name, r.value.0, r.value.1, r.value.2, at)
      ensures r.Ok? ==> FreeCount(LinksOn(g, D())) == old(ClustersLeft(dir, name))
      ensures r.Ok? && !old(MustGrow(dir, name)) ==> Untouched()
      ensures r.Ok? && old(MustGrow(dir, name)) ==>
                OneMore(LinksOn(g, old(D())), LinksOn(g, D())) && Grew(g, trace, old(D()), old(T()), |old(trace)|)
      ensures nodes.Keys == old(nodes).Keys && Used(SlotsOf(dir)) == old(Used(SlotsOf(dir)))
    {
      hide View, FatImage, LinksOn, OnDisk, Inv, TreeOf, NameFresh, ShortFresh, NameError, FreeRun, LocsAt, SlotsOf,
        RoomIn, Used, NameAllowed, NameSlots, SlotsNeeded, HasGrown, OneMore, Grew, Zeroed, LbasOf, MustGrow,
        ClustersLeft, ReadableVol, Prepared;
      CoherentGeo();
      SoundIsReadable(g, D(), nodes);
      ghost var slots := SlotsOf(dir);
      at := 0;
      var taken := NameListed(dir, name);
      if taken {
        return Err(NameTaken), at;
      }
      var built := BuildNameEntries(dir, name);
      if built.Err? {
        return Err(built.error), at;
      }
      var (short, longs) := built.value;
      LongCount(name, short, longs);
      assert EntryError(dir, name) == RoomIn(dir, |longs| + 1);
      var places: Result<seq<Loc>>;
      places, at := ReserveSlots(dir, name, short, longs);
      r := match places case Ok(p) => Ok((short, longs, p)) case Err(error) => Err(error);
    }

    // The slots for a name that is known to be free.
    method ReserveSlots(dir: DirLocation, name: Name, short: ShortName, longs: seq<Slot>)
      returns (r: Result<seq<Loc>>, ghost at: nat)
      requires Valid() && IsDirAt(nodes, dir) && NameAllowed(name) && NameSlots(name, short, longs)
      requires NameFresh(SlotsOf(dir), name) && ShortFresh(SlotsOf(dir), short)
      modifies `nodes, `trace, disk, fatBytes
      ensures Valid() && IsDirAt(nodes, dir) && T() == old(T()) && Extends(old(trace), trace)
      ensures r.Ok? <==> old(RoomIn(dir, |longs| + 1)) == None
      ensures r.Err? ==> old(RoomIn(dir, |longs| + 1)) == Some(r.error) && Untouched()
      ensures r.Ok? ==> Prepared(dir, name, short, longs, r.value, at)
      ensures r.Ok? ==> FreeCount(LinksOn(g, D())) == old(ClustersLeft(dir, name))
      ensures r.Ok? && !old(MustGrow(dir, name)) ==> Untouched()
      ensures r.Ok? && old(MustGrow(dir, name)) ==>
                OneMore(LinksOn(g, old(D())), LinksOn(g, D())) && Grew(g, trace, old(D()), old(T()), |old(trace)|)
      ensures nodes.Keys == old(nodes).Keys && Used(SlotsOf(dir)) == old(Used(SlotsOf(dir)))
    {
      hide View, FatImage, LinksOn, OnDisk, Inv, TreeOf, NameFresh, ShortFresh, NoFreeRun, FreeRun, LocsAt,
        FreeCount, RoomIn, Used, NameAllowed, NameSlots, SlotsNeeded, HasGrown, OneMore, Grew, Zeroed, LbasOf;
      CoherentGeo();
      ViewKeys(g, D(), nodes);
      ghost var slots, n0, v0 := SlotsOf(dir), nodes, V();
      LongCount(name, short, longs);
      r, at := FindFreeEntryRun(dir, |longs| + 1);
      if r.Ok? {
        CoherentGeo();
        GrowthCounts(n0, v0, dir);
        ghost var n: nat :| SlotsOf(dir) == slots + Zeroed(n);
        GrowKeepsFresh(slots, n, name, short);
        GrowListing(slots, n);
      }
    }

    /** Finds the clusters for a prepared file and writes it; an error, and no change, exactly when too few are free. */
    method AddFile(dir: DirLocation, name: Name, short: ShortName, longs: seq<Slot>, places: seq<Loc>, ghost at: nat,
                   data: seq<byte>, time: nat, date: nat)
      returns (r: Result<()>, ghost i: nat, ghost e: Listed)
      requires Valid() && IsDirAt(nodes, dir) && Prepared(dir, name, short, longs, places, at)
      requires time < 0x1_0000 && date < 0x1_0000
      modifies `nodes, `trace, disk, fatBytes
      ensures Valid() && IsDirAt(nodes, dir) && Extends(old(trace), trace)
      ensures g.ClusterBytes() > 0
      ensures r.Ok? <==> FreeCount(LinksOn(g, old(D()))) >= Needed(g.ClusterBytes(), |data|)
      ensures r.Err? ==> r.error == NoClusters && Untouched()
      ensures r.Ok? ==> FileAdded(old(T()), dir, i, e, data) && EntryMade(e, name, false, |data|, time, date)
      ensures r.Ok? ==> e.entry.start !in old(nodes) && Taken(LinksOn(g, old(D())), e.entry.start)
      ensures r.Ok? ==> Unseen(old(D()), old(nodes), |old(trace)|) && |old(trace)| < |trace|
      ensures r.Ok? ==> Used(SlotsOf(dir)) == old(Used(SlotsOf(dir))) + SlotsNeeded(name)
    {
      hide View, FatImage, LinksOn, OnDisk, Inv, FreeCount, FreeBelow, TreeOf, NoRepeat, AllFree, Needed,
        Geo.ClusterBytes, Prepared, FileAdded, EntryMade, Taken, Unseen, Used, SlotsNeeded;
      CoherentGeo();
      var clustersNeeded := ClustersFor(|data|);
      var found := FindFreeClusters(clustersNeeded);
      i, e := 0, Listed(DirEntry([], false, 0, 0, 0, 0), short, 0, 0);
      if found.Err? {
        return Err(found.error), i, e;
      }
      CoherentGeo();
      FoundClusters(LinksOn(g, D()), found.value);
      FreeFits(g, LinksOn(g, D()), found.value);
      SizeFits(g, found.value, |data|);
      i, e := WriteNewFile(dir, name, short, longs, places, at, found.value, data, time, date);
      r := Ok(());
    }

    // What is written after the parent has grown stays unseen up to the last write.
    lemma GrewThrough(way: seq<Disk>, d0: Disk, t0: Tree, from: nat, d1: Disk, n1: Nodes)
      requires Extends(way, trace) && |way| < |trace| && Unseen(d1, n1, |way|) && ChainsOn(g, n1) && TreeOn(g, d1, n1) == t0
      ensures Grew(g, way, d0, t0, from) ==> Grew(g, trace[..|trace| - 1], d0, t0, from)
    {
      hide View, FatImage, TreeOf, ReadableDisk, Grew;
      var front := trace[..|trace| - 1];
      forall i: nat | |way| <= i < |front| ensures ShowsTree(g, front[i], t0) {
        assert ShowsSame(g, d1, trace[i], n1);
      }
      assert front[..|way|] == trace[..|way|];
      if Grew(g, way, d0, t0, from) {
        GrewOn(g, way, front, d0, t0, from);
      }
    }

    /** Creates a file holding exactly `data`. The error, if any, is decided by the state before the call,
        and then the tree is as it was; otherwise the tree has one more entry and one more file. */
    method CreateFile(dir: DirLocation, name: Name, data: seq<byte>, time: nat, date: nat)
      returns (r: Result<()>, ghost made: Made)
      requires Valid() && IsDirAt(nodes, dir) && NameAllowed(name) && time < 0x1_0000 && date < 0x1_0000
      modifies `nodes, `trace, disk, fatBytes
      ensures Valid() && IsDirAt(nodes, dir) && g.ClusterBytes() > 0
      ensures r.Ok? <==> old(EntryError(dir, name)) == None && old(ClustersLeft(dir, name)) >= Needed(g.ClusterBytes(), |data|)
      ensures r.Err? ==> T() == old(T())
      ensures r.Err? ==> Some(r.error) == if old(EntryError(dir, name)).Some? then old(EntryError(dir, name)) else Some(NoClusters)
      ensures r.Ok? ==> FileAdded(old(T()), dir, made.at, made.entry, data)
      ensures r.Ok? ==> EntryMade(made.entry, name, false, |data|, time, date)
      ensures r.Ok? ==> made.entry.entry.start !in old(nodes) && Taken(made.links, made.entry.entry.start)
      ensures r.Ok? ==> FreeCount(made.links) == old(ClustersLeft(dir, name))
      ensures r.Ok? ==> Used(SlotsOf(dir)) == old(Used(SlotsOf(dir))) + SlotsNeeded(name)
      ensures r.Ok? && !old(MustGrow(dir, name)) ==>
                made.links == LinksOn(g, old(D())) && Unseen(old(D()), old(nodes), |old(trace)|)
      ensures r.Err? && !old(MustGrow(dir, name)) ==> Untouched()
      ensures r.Ok? && old(MustGrow(dir, name)) ==>
                && OneMore(LinksOn(g, old(D())), made.links)
                && Grew(g, trace[..|trace| - 1], old(D()), old(T()), |old(trace)|)
      ensures r.Err? && old(EntryError(dir, name)) == None && old(MustGrow(dir, name)) ==>
                Grew(g, trace, old(D()), old(T()), |old(trace)|)
    {
      hide View, FatImage, LinksOn, OnDisk, Inv, FreeCount, TreeOf, Needed, Geo.ClusterBytes, Prepared, EntryError,
        FileAdded, EntryMade, Taken, Unseen, Used, SlotsNeeded, MustGrow, ClustersLeft, OneMore, Grew;
      CoherentGeo();
      ghost var d0, t0, from := D(), T(), |trace|;
      var prepared, at := PrepareEntry(dir, name);
      made := Made(0, Listed(DirEntry([], false, 0, 0, 0, 0), DOT_NAME, 0, 0), LinksOn(g, D()));
      if prepared.Err? {
        return Err(prepared.error), made;
      }
      var (short, longs, places) := prepared.value;
      ghost var i: nat, e: Listed;
      ghost var d1, n1, way := D(), nodes, trace;
      CoherentGeo();
      r, i, e := AddFile(dir, name, short, longs, places, at, data, time, date);
      made := Made(i, e, made.links);
      if r.Ok? {
        GrewThrough(way, d0, t0, from, d1, n1);
      }
    }

    // The two dot entries of a new directory.
    static method BuildDots(c: nat, parent: nat, time: nat, date: nat) returns (dot: Slot, dotdot: Slot)
      requires c < 0x1_0000_0000 && parent < 0x1_0000_0000 && time < 0x1_0000 && date < 0x1_0000
      ensures IsDotSlot(dot, DOT_NAME, c) && IsDotSlot(dotdot, DOTDOT_NAME, parent)
    {
      hide DirSlot, StartOf;
      var dotName := new byte[11](_ => SPACE);
      dotName[0] := DOT;
      var dotdotName := new byte[11](_ => SPACE);
      dotdotName[0] := DOT;
      dotdotName[1] := DOT;
      assert dotName[..] == DOT_NAME && dotdotName[..] == DOTDOT_NAME;
      dot := BuildDirEntry(dotName[..], 0x10, c, 0, time, date);
      dotdot := BuildDirEntry(dotdotName[..], 0x10, parent, 0, time, date);
      DirSlotFields(DOT_NAME, 0x10, c, 0, time, date);
      DirSlotFields(DOTDOT_NAME, 0x10, parent, 0, time, date);
    }

    /** Fills a free cluster with a new directory's dots and marks it as a chain of its own. */
    method LayDirectory(c: nat, parent: nat, time: nat, date: nat, ghost d0: Disk, ghost from: nat)
      requires Coherent() && 2 <= c < g.Clusters() && parent < 0x1_0000_0000 && time < 0x1_0000 && date < 0x1_0000
      requires OnlyTouched(d0, from, [c])
      modifies `trace, disk, fatBytes
      ensures Coherent() && OnlyTouched(d0, from, [c]) && Extends(old(trace), trace)
      ensures Written(LinksOn(g, old(D())), LinksOn(g, D()), [c], 1) && DotCluster(g, D(), c, parent)
    {
      hide View, FatImage, LinksOn, OnDisk, OnlyTouched, ZeroFrom, SameBut, DotCluster, DotSector, Geo.ClusterLba,
        IsDotSlot;
      CoherentGeo();
      var dot, dotdot := BuildDots(c, parent, time, date);
      WriteClusterSector(c, 0, DotSector(dot, dotdot), [c], d0, from);
      ghost var d1, t1 := D(), trace;
      ZeroSectors(c, 1, [c], d0, from);
      ghost var d2, t2 := D(), trace;
      assert SectorAt(d2, ClusterSectors(g, c)[0]) == SectorAt(d1, ClusterSectors(g, c)[0]);
      DotsLaid(g, d2, c, parent, dot, dotdot);
      SetLink(c, 0x0FFF, [c], d0, from);
      DotsKept(d2, c, parent);
      ExtendsTrans(old(trace), t1, t2);
      ExtendsTrans(old(trace), t2, trace);
    }

    lemma DotsKept(d2: Disk, c: nat, parent: nat)
      requires g.Ok() && c >= 2 && SameBut(g, d2, D(), []) && DotCluster(g, d2, c, parent)
      ensures DotCluster(g, D(), c, parent)
    {
      hide SameBut, Slots, FreshDirFor, Geo.Ok;
      OneCluster(g, c);
      ChainSame(g, d2, D(), [], [c]);
    }

    ghost predicate DirAdded(t0: Tree, dir: DirLocation, i: nat, e: Listed, dots: seq<Listed>)
      reads this, disk
    {
      && ChainsOn(g, nodes) && dir.Id() in t0.dirs && i <= |t0.dirs[dir.Id()]|
      && T() == WithDir(t0, dir.Id(), i, e, dots) && DotEntries(dots, e.entry.start, dir.Id())
    }

    /** Lays out a directory in a free cluster, then writes its entry. */
    method WriteNewDirectory(dir: DirLocation, name: Name, short: ShortName, longs: seq<Slot>, places: seq<Loc>, ghost at: nat,
                             c: nat, time: nat, date: nat)
      returns (ghost i: nat, ghost e: Listed, ghost dots: seq<Listed>)
      requires Valid() && IsDirAt(nodes, dir) && Prepared(dir, name, short, longs, places, at)
      requires time < 0x1_0000 && date < 0x1_0000
      requires AllFree(LinksOn(g, D()), [c]) && 2 <= c < g.Clusters() <= MAX_CLUSTERS
      modifies `nodes, `trace, disk, fatBytes
      ensures Valid() && IsDirAt(nodes, dir) && Extends(old(trace), trace)
      ensures DirAdded(old(T()), dir, i, e, dots) && EntryMade(e, name, true, 0, time, date)
      ensures e.entry.start !in old(nodes) && Taken(LinksOn(g, old(D())), e.entry.start)
      ensures Unseen(old(D()), old(nodes), |old(trace)|) && |old(trace)| < |trace|
      ensures Used(SlotsOf(dir)) == old(Used(SlotsOf(dir))) + SlotsNeeded(name)
    {
      hide View, FatImage, LinksOn, SameBut, OnDisk, Inv, OnlyTouched, TreeOf, AllFree, Written, FreeRun, NameFresh,
        ShortFresh, NameSlots, NameAllowed, LocsAt, DirSlot, Within, Ready, ChainSectors, DotCluster, ReadableVol,
        EntryMade, Used, GroupShort, GroupListed, Listing, ListRange, StartOf, SizeOf, IsDir, Unseen, EntryWritten,
        Laid;
      CoherentGeo();
      ViewKeys(g, D(), nodes);
      ghost var d1, n1, before := D(), nodes, trace;
      ghost var add := Addition(dir.Id(), at, longs + [DirSlot(short, 0x10, c, 0, time, date)], [c], true);
      GroupMade(name, short, longs, 0x10, c, 0, time, date);
      LongCount(name, short, longs);
      ReadyToAdd(dir, name, short, longs, places, at, [c], DirSlot(short, 0x10, c, 0, time, date));
      DirIsThere(dir);
      SmallParent(dir);
      WholeTouched([c]);
      LayDirectory(c, dir.Id(), time, date, d1, |before|);
      ghost var d2, mid := D(), trace;
      LaidNow(d1, |before|, [c]);
      var raw := BuildDirEntry(short, 0x10, c, 0, time, date);
      WriteEntry(dir, places, longs, raw, add, d1, |before|);
      ExtendsTrans(before, mid, trace);
      dots := Listing(Slots(d2, ClusterSectors(g, c)));
      NewDirDone(dir, add, d1, d2, n1, dots);
      DirIsThere(dir);
      i, e := |ListRange(View(g, d1, n1).dirs[dir.Id()], 0, at)|, GroupListed(add.group);
    }

    lemma SmallParent(dir: DirLocation)
      requires Valid() && IsDirAt(nodes, dir)
      ensures dir.Id() < 0x1_0000_0000
    {
      hide View, FatImage, LinksOn, Inv, IsChain;
      SoundIsReadable(g, D(), nodes);
      CoherentGeo();
      if dir.Cluster? {
        ChainOfNode(g, D(), nodes, dir.c);
        assert nodes[dir.c].chain[0] == dir.c;
      }
    }

    // What a finished addition of a directory adds up to.
    lemma NewDirDone(dir: DirLocation, add: Addition, d1: Disk, d2: Disk, n1: Nodes, dots: seq<Listed>)
      requires Coherent() && Ready(g, d1, n1, add) && Laid(g, d1, d2, add.ch) && add.isDir && add.d == dir.Id()
      requires nodes == With(n1, add) && EntryWritten(add, d2, D(), nodes) && IsDirAt(nodes, dir)
      requires |add.ch| == 1 && add.ch[0] >= 2 && DotCluster(g, d2, add.ch[0], add.d)
      requires dots == Listing(Slots(d2, ClusterSectors(g, add.ch[0]))) && GroupListed(add.group).entry.start == add.ch[0]
      ensures Valid() && Taken(LinksOn(g, d1), add.Id()) && add.Id() !in n1
      ensures DirAdded(TreeOn(g, d1, n1), dir, |ListRange(View(g, d1, n1).dirs[add.d], 0, add.at)|, GroupListed(add.group), dots)
      ensures add.d in V().dirs && Used(V().dirs[add.d]) == Used(View(g, d1, n1).dirs[add.d]) + |add.group|
    {
      hide View, FatImage, LinksOn, SameBut, GeoOf, Geo.Ok, Geo.FitsOn, Inv, TreeOf, NoRepeat, AllFree, Written,
        FreeRun, FreshGroup, Within, ChainSectors, Used, GroupShort, GroupListed, Listing, ListRange, StartOf,
        SizeOf, IsDir, Splice, Slots, FreshDirFor;
      Creations.DirIsThere(g, d1, d2, D(), n1, add);
      AdditionCounts(g, d1, d2, D(), n1, add);
      DotsListed(Slots(d2, ClusterSectors(g, add.ch[0])), add.ch[0], add.d);
    }

    /** Finds the cluster for a prepared directory and writes it; an error, and no change, exactly when none is free. */
    method AddDirectory(dir: DirLocation, name: Name, short: ShortName, longs: seq<Slot>, places: seq<Loc>, ghost at: nat,
                        time: nat, date: nat)
      returns (r: Result<()>, ghost i: nat, ghost e: Listed, ghost dots: seq<Listed>)
      requires Valid() && IsDirAt(nodes, dir) && Prepared(dir, name, short, longs, places, at)
      requires time < 0x1_0000 && date < 0x1_0000
      modifies `nodes, `trace, disk, fatBytes
      ensures Valid() && IsDirAt(nodes, dir) && Extends(old(trace), trace)
      ensures r.Ok? <==> FreeCount(LinksOn(g, old(D()))) >= 1
      ensures r.Err? ==> r.error == NoClusters && Untouched()
      ensures r.Ok? ==> DirAdded(old(T()), dir, i, e, dots) && EntryMade(e, name, true, 0, time, date)
      ensures r.Ok? ==> e.entry.start !in old(nodes) && Taken(LinksOn(g, old(D())), e.entry.start)
      ensures r.Ok? ==> Unseen(old(D()), old(nodes), |old(trace)|) && |old(trace)| < |trace|
      ensures r.Ok? ==> Used(SlotsOf(dir)) == old(Used(SlotsOf(dir))) + SlotsNeeded(name)
    {
      hide View, FatImage, LinksOn, OnDisk, Inv, FreeCount, FreeBelow, TreeOf, Prepared, AllFree, NoRepeat,
        DirAdded, EntryMade, Taken, Unseen, Used, SlotsNeeded;
      CoherentGeo();
      var found := FindFreeClusters(1);
      i, e, dots := 0, Listed(DirEntry([], false, 0, 0, 0, 0), short, 0, 0), [];
      if found.Err? {
        return Err(found.error), i, e, dots;
      }
      FoundClusters(LinksOn(g, D()), found.value);
      assert found.value == [found.value[0]];
      FreeFits(g, LinksOn(g, D()), found.value);
      i, e, dots := WriteNewDirectory(dir, name, short, longs, places, at, found.value[0], time, date);
      r := Ok(());
    }

    /** Creates an empty directory whose "." is itself and whose ".." is its parent. */
    method CreateDirectory(dir: DirLocation, name: Name, time: nat, date: nat)
      returns (r: Result<()>, ghost made: Made, ghost dots: seq<Listed>)
      requires Valid() && IsDirAt(nodes, dir) && NameAllowed(name) && time < 0x1_0000 && date < 0x1_0000
      modifies `nodes, `trace, disk, fatBytes
      ensures Valid() && IsDirAt(nodes, dir)
      ensures r.Ok? <==> old(EntryError(dir, name)) == None && old(ClustersLeft(dir, name)) >= 1
      ensures r.Err? ==> T() == old(T())
      ensures r.Err? ==> Some(r.error) == if old(EntryError(dir, name)).Some? then old(EntryError(dir, name)) else Some(NoClusters)
      ensures r.Ok? ==> DirAdded(old(T()), dir, made.at, made.entry, dots)
      ensures r.Ok? ==> EntryMade(made.entry, name, true, 0, time, date)
      ensures r.Ok? ==> made.entry.entry.start !in old(nodes) && Taken(made.links, made.entry.entry.start)
      ensures r.Ok? ==> FreeCount(made.links) == old(ClustersLeft(dir, name))
      ensures r.Ok? ==> Used(SlotsOf(dir)) == old(Used(SlotsOf(dir))) + SlotsNeeded(name)
      ensures r.Ok? && !old(MustGrow(dir, name)) ==>
                made.links == LinksOn(g, old(D())) && Unseen(old(D()), old(nodes), |old(trace)|)
      ensures r.Err? && !old(MustGrow(dir, name)) ==> Untouched()
      ensures r.Ok? && old(MustGrow(dir, name)) ==>
                && OneMore(LinksOn(g, old(D())), made.links)
                && Grew(g, trace[..|trace| - 1], old(D()), old(T()), |old(trace)|)
      ensures r.Err? && old(EntryError(dir, name)) == None && old(MustGrow(dir, name)) ==>
                Grew(g, trace, old(D()), old(T()), |old(trace)|)
    {
      hide View, FatImage, LinksOn, OnDisk, Inv, FreeCount, TreeOf, Prepared, EntryError, DirAdded, EntryMade,
        Taken, Unseen, Used, SlotsNeeded, MustGrow, ClustersLeft, OneMore, Grew;
      CoherentGeo();
      ghost var d0, t0, from := D(), T(), |trace|;
      var prepared, at := PrepareEntry(dir, name);
      made := Made(0, Listed(DirEntry([], false, 0, 0, 0, 0), DOT_NAME, 0, 0), LinksOn(g, D()));
      dots := [];
      if prepared.Err? {
        return Err(prepared.error), made, dots;
      }
      var (short, longs, places) := prepared.value;
      ghost var i: nat, e: Listed;
      ghost var d1, n1, way := D(), nodes, trace;
      CoherentGeo();
      r, i, e, dots := AddDirectory(dir, name, short, longs, places, at, time, date);
      made := Made(i, e, made.links);
      if r.Ok? {
        GrewThrough(way, d0, t0, from, d1, n1);
      }
    }

    // ---- looking up

    // The entry in slot `k` of `dir` is entry `i` of its listing, answers to `name`, and reads as `e`.
    ghost predicate Located(dir: DirLocation, name: Name, k: nat, i: nat, e: DirEntry)
      requires ChainsOn(g, nodes) && IsDirAt(nodes, dir)
      reads this, disk
    {
      && k < |SlotsOf(dir)| && IsShort(SlotsOf(dir)[k]) && i == |ListRange(SlotsOf(dir), 0, k)|
      && FoundAt(T(), dir.Id(), name, i) && T().dirs[dir.Id()][i] == ListedAt(SlotsOf(dir), k)
      && e == T().dirs[dir.Id()][i].entry
    }

    lemma EntryLocated(dir: DirLocation, name: Name, k: nat)
      requires Mounted() && IsDirAt(nodes, dir) && FirstMatch(SlotsOf(dir), name, k)
      ensures Located(dir, name, k, |ListRange(SlotsOf(dir), 0, k)|,
                      EntryOf(SlotsOf(dir)[k], ResolvedName(StateAt(SlotsOf(dir), k), SlotsOf(dir)[k])))
      ensures NoEndTo(SlotsOf(dir), k)
    {
      hide View, FatImage, OnDisk, ReadableVol, Readable, MatchAt, ResolvedName, StateAt, EntryOf, ListRange,
        ListedAt, IsShort, AnswersTo, Listing;
      CoherentGeo();
      DirIsThere(dir);
      DirShape(dir);
      MatchIsFound(SlotsOf(dir), name, k);
      TreeDirs(V(), nodes);
      ReadableEnds(SlotsOf(dir));
      ShortIsLive(SlotsOf(dir)[k]);
      NoEndBefore(SlotsOf(dir), k);
    }

    lemma ShortIsLive(raw: Slot)
      requires IsShort(raw)
      ensures !IsEnd(raw)
    {
    }

    lemma NothingLocated(dir: DirLocation, name: Name)
      requires Mounted() && IsDirAt(nodes, dir) && NoMatch(SlotsOf(dir), name)
      ensures Missing(T(), dir.Id(), name)
    {
      hide View, FatImage, OnDisk, ReadableVol, Readable, MatchAt, AnswersTo, Listing;
      CoherentGeo();
      DirIsThere(dir);
      DirShape(dir);
      NoMatchIsMissing(SlotsOf(dir), name);
      TreeDirs(V(), nodes);
    }

    // The node behind an entry that is not one of the dots.
    lemma LocatedNode(dir: DirLocation, name: Name, k: nat, i: nat, e: DirEntry)
      requires Valid() && IsDirAt(nodes, dir) && Located(dir, name, k, i, e)
      requires !e.isDir || (name != [DOT] && name != [DOT, DOT])
      ensures e.start in nodes && e.start != 0 && nodes[e.start].parent == dir.Id() && nodes[e.start].pos == k
      ensures nodes[e.start].isDir == e.isDir && EntrySlot(V(), dir.Id(), k)
    {
      hide View, FatImage, OnDisk, Inv, AnswersTo, ListRange, ListedAt, StartOf, IsDir, IsShort, TreeOf;
      CoherentGeo();
      DirIsThere(dir);
      ListedStart(SlotsOf(dir), k);
      if IsDot(dir.Id() != 0, k) {
        DotsAnswer(V(), nodes, g.ClusterBytes(), dir.Id(), k, name);
        assert false;
      }
      EntryNode(V(), nodes, g.ClusterBytes(), dir.Id(), k);
    }

    // ---- deleting

    // Entry `i` of `dir`, with its slots and its clusters, is gone, and nothing else is different.
    ghost predicate Gone(t0: Tree, n0: Nodes, links0: seq<nat>, used0: nat, dir: DirLocation, i: nat)
      reads this, disk
    {
      && ChainsOn(g, nodes) && dir.Id() in t0.dirs && i < |t0.dirs[dir.Id()]| && IsDirAt(nodes, dir)
      && var e := t0.dirs[dir.Id()][i];
         && T() == Without(t0, dir.Id(), i)
         && e.entry.start in n0 && nodes == n0 - {e.entry.start}
         && Freed(links0, LinksOn(g, D()), n0[e.entry.start].chain)
         && Used(SlotsOf(dir)) + e.span == used0
    }

    /** Frees the chain of a node and marks its slots deleted. */
    method RemoveNode(dir: DirLocation, places: seq<Loc>, start: nat, ghost k: nat)
      requires Valid() && IsDirAt(nodes, dir) && start in nodes && start != 0 && Leaf(V(), start)
      requires nodes[start].parent == dir.Id() && nodes[start].pos == k && dir.Id() != start
      requires k < |SlotsOf(dir)| && StartOf(SlotsOf(dir)[k]) == start
      requires k < |SlotsOf(dir)| == 16 * |LbasOf(dir)|
      requires var r := LongBefore(SlotsOf(dir), k); places == LocsAt(LbasOf(dir), k - r, r + 1)
      modifies `nodes, `trace, disk, fatBytes
      ensures Valid() && IsDirAt(nodes, dir)
      ensures var a := |ListRange(old(SlotsOf(dir)), 0, GroupStart(old(SlotsOf(dir)), k))|;
              && dir.Id() in old(T()).dirs && a < |old(T()).dirs[dir.Id()]|
              && old(T()).dirs[dir.Id()][a] == ListedAt(old(SlotsOf(dir)), k)
              && Gone(old(T()), old(nodes), LinksOn(g, old(D())), old(Used(SlotsOf(dir))), dir, a)
    {
      hide View, FatImage, LinksOn, SameBut, OnDisk, Inv, IsChain, Freed, TreeOf, ListRange, ListedAt, Used, Leaf,
        LocsAt, LongBefore, ReadableVol, MarkedTo, Without, StartOf, Clear, Geo.Ok, Geo.FitsOn, GeoOf, NoRepeat,
        DirLbas, Disjoint;
      CoherentGeo();
      SoundIsReadable(g, D(), nodes);
      ChainOfNode(g, D(), nodes, start);
      SoundSeparate(dir);
      DirIsThere(dir);
      ghost var d0, n0, slots, ch := D(), nodes, SlotsOf(dir), nodes[start].chain;
      FreeChain(start, ch);
      ghost var d1 := D();
      FreedView(g, d0, d1, nodes);
      MarkedIsClear(slots, k);
      MarkSlotsDeleted(dir, places, k - LongBefore(slots, k));
      NodeIsGone(g, d0, d1, D(), n0, start);
      ListedStart(slots, k);
      nodes := nodes - {start};
      DirIsThere(dir);
    }

    lemma SoundSeparate(dir: DirLocation)
      requires Valid() && IsDirAt(nodes, dir)
      ensures Separate(dir)
    {
      hide View, FatImage, LinksOn, Inv, OnDisk;
      CoherentGeo();
      SoundIsReadable(g, D(), nodes);
      InvAllocated(V(), nodes, g.ClusterBytes());
      AllocatedParts(V().links, nodes);
      if dir.Cluster? {
        ChainOfNode(g, D(), nodes, dir.c);
      }
    }

    // Removes the located entry, which is a file or an empty directory.
    method RemoveEntry(dir: DirLocation, name: Name, place: Loc, e: DirEntry, ghost k: nat, ghost i0: nat)
      returns (ghost i: nat)
      requires Valid() && IsDirAt(nodes, dir) && Located(dir, name, k, i0, e) && NoEndTo(SlotsOf(dir), k)
      requires !e.isDir || (name != [DOT] && name != [DOT, DOT])
      requires Leaf(V(), e.start)
      requires k < 16 * |LbasOf(dir)| && place == LocAt(LbasOf(dir), k)
      modifies `nodes, `trace, disk, fatBytes
      ensures Valid() && IsDirAt(nodes, dir)
      ensures FoundAt(old(T()), dir.Id(), name, i) && old(T()).dirs[dir.Id()][i].entry == e
      ensures Gone(old(T()), old(nodes), LinksOn(g, old(D())), old(Used(SlotsOf(dir))), dir, i)
    {
      hide View, FatImage, LinksOn, OnDisk, Inv, Gone, TreeOf, ListRange, Used, Leaf, LongBefore, ReadableVol,
        ListedAt, IsShort, NoEndTo, AnswersTo, StartOf;
      CoherentGeo();
      SoundIsReadable(g, D(), nodes);
      LocatedNode(dir, name, k, i0, e);
      SlotTotal(dir);
      LbasAre(dir);
      CoherentGeo();
      NotOwnParent(V(), nodes, g.ClusterBytes(), e.start);
      ghost var slots := SlotsOf(dir);
      ListedStart(slots, k);
      var lfnSlots := FindPrecedingLfnSlots(dir, place, k);
      RemoveNode(dir, lfnSlots + [place], e.start, k);
      i := |ListRange(slots, 0, GroupStart(slots, k))|;
    }

    /** Deletes a file: its entry, its long slots and its chain, and nothing else. */
    method DeleteFile(dir: DirLocation, name: Name) returns (r: Result<()>, ghost i: nat)
      requires Valid() && IsDirAt(nodes, dir)
      modifies `nodes, `trace, disk, fatBytes
      ensures Valid() && IsDirAt(nodes, dir)
      ensures r.Err? ==> Untouched()
      ensures r.Err? ==> if r.error == NotFound then Missing(T(), dir.Id(), name)
                         else r.error == IsDirectory && FoundAt(T(), dir.Id(), name, i) && T().dirs[dir.Id()][i].entry.isDir
      ensures r.Ok? ==> FoundAt(old(T()), dir.Id(), name, i) && !old(T()).dirs[dir.Id()][i].entry.isDir
      ensures r.Ok? ==> Gone(old(T()), old(nodes), LinksOn(g, old(D())), old(Used(SlotsOf(dir))), dir, i)
    {
      hide View, FatImage, LinksOn, OnDisk, Inv, TreeOf, ListRange, Used, ReadableVol, Gone, AnswersTo, EntryOf,
        ResolvedName, StateAt, IsShort, MatchAt, LocAt, NoEndTo;
      CoherentGeo();
      SoundIsReadable(g, D(), nodes);
      LbasAre(dir);
      SlotTotal(dir);
      var found;
      ghost var k;
      found, k := FindEntryLocation(dir, name);
      i := 0;
      if found.Err? {
        NothingLocated(dir, name);
        return Err(found.error), i;
      }
      var (place, e) := found.value;
      EntryLocated(dir, name, k);
      i := |ListRange(SlotsOf(dir), 0, k)|;
      if e.isDir {
        return Err(IsDirectory), i;
      }
      LocatedNode(dir, name, k, i, e);
      FileIsLeaf(e.start);
      i := RemoveEntry(dir, name, place, e, k, i);
      r := Ok(());
    }

    lemma FileIsLeaf(start: nat)
      requires Valid() && start in nodes && !nodes[start].isDir
      ensures Leaf(V(), start)
    {
      hide View, FatImage, Inv, OnDisk;
      CoherentGeo();
      ViewKeys(g, D(), nodes);
    }

    /** Deletes a directory that holds nothing but its dots. */
    method DeleteDirectory(dir: DirLocation, name: Name) returns (r: Result<()>, ghost i: nat)
      requires Valid() && IsDirAt(nodes, dir) && name != [DOT] && name != [DOT, DOT]
      modifies `nodes, `trace, disk, fatBytes
      ensures Valid() && IsDirAt(nodes, dir)
      ensures r.Err? ==> Untouched()
      ensures r.Err? ==> if r.error == NotFound then Missing(T(), dir.Id(), name) else FoundAt(T(), dir.Id(), name, i)
      ensures r.Err? && r.error != NotFound ==>
                var e := T().dirs[dir.Id()][i].entry;
                if !e.isDir then r.error == NotDirectory
                else r.error == NotEmpty && e.start in T().dirs && |T().dirs[e.start]| > 2
      ensures r.Ok? ==> FoundAt(old(T()), dir.Id(), name, i)
      ensures r.Ok? ==> var e := old(T()).dirs[dir.Id()][i].entry;
                        e.isDir && e.start in old(T()).dirs && |old(T()).dirs[e.start]| == 2
      ensures r.Ok? ==> Gone(old(T()), old(nodes), LinksOn(g, old(D())), old(Used(SlotsOf(dir))), dir, i)
    {
      hide View, FatImage, LinksOn, OnDisk, Inv, TreeOf, ListRange, Used, ReadableVol, Gone, AnswersTo, EntryOf,
        ResolvedName, StateAt, IsShort, MatchAt, LocAt, NoEndTo, Scan;
      CoherentGeo();
      SoundIsReadable(g, D(), nodes);
      LbasAre(dir);
      SlotTotal(dir);
      var found;
      ghost var k;
      found, k := FindEntryLocation(dir, name);
      i := 0;
      if found.Err? {
        NothingLocated(dir, name);
        return Err(found.error), i;
      }
      var (place, e) := found.value;
      EntryLocated(dir, name, k);
      i := |ListRange(SlotsOf(dir), 0, k)|;
      if !e.isDir {
        return Err(NotDirectory), i;
      }
      LocatedNode(dir, name, k, i, e);
      DirListing(e.start);
      var entries := ListDirectory(e.start);
      if |entries| > 2 {
        return Err(NotEmpty), i;
      }
      i := RemoveEntry(dir, name, place, e, k, i);
      r := Ok(());
    }

    // What a directory lists, and what it takes for it to be empty.
    lemma DirListing(d: nat)
      requires Valid() && IsDirAt(nodes, Cluster(d))
      ensures d in T().dirs && T().dirs[d] == Listing(SlotsOf(Cluster(d)))
      ensures |Scan(SlotsOf(Cluster(d)))| == |T().dirs[d]| >= 2
      ensures |T().dirs[d]| <= 2 <==> Leaf(V(), d)
    {
      hide View, FatImage, OnDisk, Inv, Listing, Leaf, Scan;
      CoherentGeo();
      DirIsThere(Cluster(d));
      TreeDirs(V(), nodes);
      EmptyIsLeaf(V(), nodes, g.ClusterBytes(), d);
    }

    // ---- reading

    /** The first `size` bytes of a chain, sector by sector. */
    method ReadChain(start: nat, size: nat, ghost ch: seq<nat>) returns (data: seq<byte>)
      requires Coherent() && IsChain(LinksOn(g, D()), ch) && start == ch[0] && DataClusters(ch) && ChainFits(g, ch)
      requires size <= 512 * |ChainSectors(g, ch)|
      ensures data == Raw(D(), ChainSectors(g, ch))[..size]
    {
      hide Coherent, FatImage, LinksOn, IsChain, ChainSectors, Raw, Geo.Ok, Geo.FitsOn;
      CoherentGeo();
      ChainNotEmpty(LinksOn(g, D()), ch);
      NoSectors(g);
      ghost var raw, i := Raw(D(), ChainSectors(g, ch)), 0;
      data := [];
      var cluster := Some(start);
      while cluster.Some?
        invariant 0 <= i <= |ch| && cluster == if i < |ch| then Some(ch[i]) else None
        invariant DataClusters(ch[..i]) && |ChainSectors(g, ch[..i])| <= |ChainSectors(g, ch)|
        invariant data == raw[..Least(512 * |ChainSectors(g, ch[..i])|, size)]
        decreases |ch| - i
      {
        var c := cluster.value;
        ghost var n := |ChainSectors(g, ch[..i])|;
        var clusterLba := g.ClusterLba(c);
        for s := 0 to g.perCluster
          invariant n + s <= |ChainSectors(g, ch)| && data == raw[..Least(512 * (n + s), size)]
        {
          SectorOfChain(g, ch, i, s);
          ClusterInData(g, c, disk.Length);
          var buf := ReadSector(clusterLba + s);
          var remaining := size - |data|;
          var take := if remaining < 512 then remaining else 512;
          RawStep(D(), ChainSectors(g, ch), n + s, size);
          data := data + buf[..take];
          if |data| >= size {
            assert raw[..size] == data;
            return;
          }
        }
        LastSector(ch, i);
        ChainSectorsPrefix(g, ch, i + 1);
        NextInChain(LinksOn(g, D()), ch, i);
        var next := NextCluster(c);
        cluster := next.value;
        i := i + 1;
      }
      assert ch[..|ch|] == ch;
    }

    /** Reads a file: exactly the bytes the tree gives it. */
    method ReadFile(dir: DirLocation, name: Name) returns (r: Result<seq<byte>>, ghost i: nat)
      requires Mounted() && IsDirAt(nodes, dir) && WholeTree(T())
      ensures r.Err? ==> r.error == NotFound
      ensures r.Err? ==> Missing(T(), dir.Id(), name) || (FoundAt(T(), dir.Id(), name, i) && T().dirs[dir.Id()][i].entry.isDir)
      ensures r.Ok? ==> FoundAt(T(), dir.Id(), name, i)
      ensures r.Ok? ==> var e := T().dirs[dir.Id()][i].entry;
                        !e.isDir && e.start in T().files && r.value == T().files[e.start] && |r.value| == e.size
    {
      hide View, FatImage, LinksOn, OnDisk, TreeOf, ListRange, ReadableVol, AnswersTo, EntryOf, IsChain, EntrySlot,
        Geo.ClusterBytes, ResolvedName, StateAt, IsShort, MatchAt, LocAt, NoEndTo, Raw, ListedAt;
      CoherentGeo();
      var found;
      ghost var k;
      found, k := FindEntryLocation(dir, name);
      i := 0;
      if found.Err? {
        NothingLocated(dir, name);
        return Err(NotFound), i;
      }
      var (_, e) := found.value;
      EntryLocated(dir, name, k);
      i := |ListRange(SlotsOf(dir), 0, k)|;
      if e.isDir {
        return Err(NotFound), i;
      }
      WholeContents(dir, name, k, i, e);
      if e.size == 0 {
        return Ok([]), i;
      }
      ChainOfNode(g, D(), nodes, e.start);
      var data := ReadChain(e.start, e.size, nodes[e.start].chain);
      r := Ok(data);
    }

    // What reading a file asks of a mounted volume holds of every sound one.
    lemma ReadableWhenValid()
      requires Valid()
      ensures Mounted() && WholeTree(T())
    {
      hide View, FatImage, OnDisk, Inv, TreeOf;
      CoherentGeo();
      SoundIsReadable(g, D(), nodes);
      SoundTreeIsWhole(V(), nodes, g.ClusterBytes());
    }

    // The bytes of a located file on a volume that can be read.
    lemma WholeContents(dir: DirLocation, name: Name, k: nat, i: nat, e: DirEntry)
      requires Mounted() && IsDirAt(nodes, dir) && WholeTree(T()) && Located(dir, name, k, i, e) && !e.isDir
      ensures e.start in nodes && e.start != 0 && !nodes[e.start].isDir && e.start in T().files
      ensures ChainFits(g, nodes[e.start].chain) && DataClusters(nodes[e.start].chain)
      ensures e.size <= 512 * |ChainSectors(g, nodes[e.start].chain)|
      ensures T().files[e.start] == Raw(D(), ChainSectors(g, nodes[e.start].chain))[..e.size] && |T().files[e.start]| == e.size
    {
      hide View, FatImage, OnDisk, AnswersTo, ListRange, ListedAt, IsShort, TreeOf, Raw, SizeIn, Readable, IsChain,
        ChainSectors;
      CoherentGeo();
      RootIsEmpty(g, D(), nodes);
      assert WholeEntry(T(), T().dirs[dir.Id()][i].entry);
      TreeFiles(V(), nodes);
      ViewKeys(g, D(), nodes);
      ViewFile(g, D(), nodes, e.start);
      ChainOfNode(g, D(), nodes, e.start);
      ChainInRange(LinksOn(g, D()), nodes[e.start].chain);
    }

    // The bytes of a located file.
    lemma FileContents(dir: DirLocation, name: Name, k: nat, i: nat, e: DirEntry)
      requires Valid() && IsDirAt(nodes, dir) && Located(dir, name, k, i, e) && !e.isDir
      ensures e.start in nodes && e.start != 0 && !nodes[e.start].isDir && e.start in T().files
      ensures nodes[e.start].parent == dir.Id() && nodes[e.start].pos == k && e.start in V().files
      ensures ChainFits(g, nodes[e.start].chain) && DataClusters(nodes[e.start].chain)
      ensures e.size <= 512 * |ChainSectors(g, nodes[e.start].chain)|
      ensures T().files[e.start] == Raw(D(), ChainSectors(g, nodes[e.start].chain))[..e.size]
      ensures g.ClusterBytes() > 0 && |nodes[e.start].chain| == Needed(g.ClusterBytes(), e.size)
    {
      hide View, FatImage, OnDisk, Inv, AnswersTo, ListRange, ListedAt, StartOf, IsDir, IsShort, TreeOf, EntrySlot,
        Raw, SizeOf, Needed;
      CoherentGeo();
      LocatedNode(dir, name, k, i, e);
      DirIsThere(dir);
      ListedStart(SlotsOf(dir), k);
      ViewFile(g, D(), nodes, e.start);
      FileInTree(V(), nodes, g.ClusterBytes(), dir.Id(), k, e.start);
      ChainSectorsLength(g, nodes[e.start].chain);
    }

    // ---- rewriting

    // The clusters of a chain, in order.
    method ChainClusters(start: nat, ghost ch: seq<nat>) returns (clusters: seq<nat>)
      requires Coherent() && IsChain(LinksOn(g, D()), ch) && start == ch[0]
      ensures clusters == ch
    {
      hide Coherent, FatImage, LinksOn, IsChain;
      ghost var i := 0;
      ChainNotEmpty(LinksOn(g, D()), ch);
      clusters := [];
      var cluster := Some(start);
      while cluster.Some?
        invariant 0 <= i <= |ch| && cluster == (if i < |ch| then Some(ch[i]) else None) && clusters == ch[..i]
        decreases |ch| - i
      {
        var c := cluster.value;
        clusters := clusters + [c];
        NextInChain(LinksOn(g, D()), ch, i);
        var next := NextCluster(c);
        cluster := next.value;
        i := i + 1;
      }
      assert ch[..|ch|] == ch;
    }

    // Sets every link of `tail`, which are all in range, free.
    method FreeTail(tail: seq<nat>)
      requires Coherent() && InRange(LinksOn(g, D()), tail)
      modifies `trace, disk, fatBytes
      ensures Coherent() && Freed(LinksOn(g, old(D())), LinksOn(g, D()), tail) && SameBut(g, old(D()), D(), [])
    {
      hide Coherent, FatImage, LinksOn, SameBut, Freed;
      ghost var d0, links := D(), LinksOn(g, D());
      FreedNone(links, tail);
      SameButSelf(d0);
      WholeTouched(tail);
      ghost var from := |trace|;
      for i := 0 to |tail|
        invariant Coherent() && Freed(links, LinksOn(g, D()), tail[..i]) && SameBut(g, d0, D(), [])
        invariant OnlyTouched(d0, from, tail)
      {
        ghost var before := D();
        SetLink(tail[i], 0x0000, tail, d0, from);
        FreedStep(links, LinksOn(g, before), tail[..i], tail[i]);
        assert tail[..i] + [tail[i]] == tail[..i + 1];
        SameButTrans(g, d0, before, D(), []);
      }
      assert tail[..|tail|] == tail;
    }

    /** Brings a chain to `needed` clusters: freed past the new end, or continued with free ones. */
    method ResizeChain(start: nat, needed: nat, ghost ch0: seq<nat>) returns (r: Result<seq<nat>>)
      requires Coherent() && IsChain(LinksOn(g, D()), ch0) && start == ch0[0] && needed >= 1
      modifies `trace, disk, fatBytes
      ensures Coherent()
      ensures r.Ok? <==> FreeCount(LinksOn(g, old(D()))) + |ch0| >= needed
      ensures r.Err? ==> r.error == NoClusters && Untouched()
      ensures r.Ok? ==> Resized(LinksOn(g, old(D())), ch0, r.value) && |r.value| == needed && r.value[0] == start
      ensures r.Ok? ==> Freed(LinksOn(g, old(D())), LinksOn(g, D()), Dropped(ch0, r.value)) && SameBut(g, old(D()), D(), [])
    {
      hide View, OnDisk, FatImage, LinksOn, SameBut, Freed, IsChain, FreeCount, FreeBelow, Resized;
      ghost var links := LinksOn(g, D());
      CoherentGeo();
      SameButSelf(D());
      FreedNone(links, []);
      ChainInRange(links, ch0);
      var clusters := ChainClusters(start, ch0);
      if needed > |clusters| {
        var extra := FindFreeClusters(needed - |clusters|);
        if extra.Err? {
          return Err(extra.error);
        }
        FoundClusters(links, extra.value);
        LongerResized(links, ch0, extra.value);
        clusters := clusters + extra.value;
      } else if needed < |clusters| {
        PrefixResized(links, ch0, needed);
        FreeTail(clusters[needed..]);
        clusters := clusters[..needed];
      } else {
        PrefixResized(links, ch0, needed);
        assert ch0[..needed] == ch0 && ch0[needed..] == [];
      }
      r := Ok(clusters);
    }

    lemma ChainInRange(links: seq<nat>, ch: seq<nat>)
      requires IsChain(links, ch)
      ensures InRange(links, ch) && forall n :: 0 <= n <= |ch| ==> InRange(links, ch[n..])
    {
    }

    // Sets the size field of one slot.
    method SetSize(dir: DirLocation, place: Loc, size: nat, ghost k: nat)
      requires Coherent() && Separate(dir) && k < 16 * |LbasOf(dir)| && place == LocAt(LbasOf(dir), k) && size < 0x1_0000_0000
      modifies `trace, disk
      ensures Coherent() && Separate(dir) && k < |old(SlotsOf(dir))|
      ensures V() == WithSlots(old(V()), dir, Resize(old(SlotsOf(dir)), k, size))
    {
      hide View, FatImage, LinksOn, SameBut, OnDisk, NoRepeat, Disjoint, DirLbas, LocAt, Digits;
      SlotRead(dir, place, k);
      var buf := ReadSector(place.lba);
      var raw := buf[place.offset..place.offset + 28] + Digits(size, 4);
      assert raw == WithSize(buf[place.offset..place.offset + 32], size);
      WriteSlot(dir, place, raw, k);
    }

    // A file of `dir` has new content, and nothing else is different.
    ghost predicate Changed(t0: Tree, n0: Nodes, dir: DirLocation, i: nat, data: seq<byte>)
      reads this, disk
    {
      && ChainsOn(g, nodes) && dir.Id() in t0.dirs && i < |t0.dirs[dir.Id()]| && g.ClusterBytes() > 0
      && var id := t0.dirs[dir.Id()][i].entry.start;
         && T() == WithData(t0, dir.Id(), i, data)
         && id in n0 && id in nodes && nodes == Rechain(n0, id, nodes[id].chain)
         && nodes[id].chain != [] && nodes[id].chain[0] == id
         && (nodes[id].chain <= n0[id].chain || n0[id].chain <= nodes[id].chain)
         && |nodes[id].chain| == Needed(g.ClusterBytes(), |data|)
    }

    // Lays the data over the resized chain and sets the size.
    method RewriteData(dir: DirLocation, place: Loc, start: nat, ch: seq<nat>, data: seq<byte>, ghost k: nat, ghost d0: Disk)
      requires Coherent() && SoundDisk(g, d0, nodes) && IsDirAt(nodes, dir) && start in nodes && start != 0 && !nodes[start].isDir
      requires nodes[start].parent == dir.Id() && nodes[start].pos == k
      requires k < 16 * |LbasOf(dir)| && place == LocAt(LbasOf(dir), k)
      requires Resized(LinksOn(g, d0), nodes[start].chain, ch) && ch[0] == start && ChainFits(g, ch) && DataClusters(ch)
      requires Freed(LinksOn(g, d0), LinksOn(g, D()), Dropped(nodes[start].chain, ch)) && SameBut(g, d0, D(), [])
      requires g.ClusterBytes() > 0 && |ch| == Needed(g.ClusterBytes(), |data|)
      modifies `nodes, `trace, disk, fatBytes
      ensures Valid() && IsDirAt(nodes, dir) && nodes == Rechain(old(nodes), start, ch)
      ensures var v, t := View(g, d0, old(nodes)), TreeOn(g, d0, old(nodes));
              && dir.Id() in v.dirs && k < |v.dirs[dir.Id()]|
              && var i := |ListRange(v.dirs[dir.Id()], 0, k)|;
                 && dir.Id() in t.dirs && i < |t.dirs[dir.Id()]| && t.dirs[dir.Id()][i] == ListedAt(v.dirs[dir.Id()], k)
                 && T() == WithData(t, dir.Id(), i, data)
    {
      hide View, FatImage, LinksOn, SameBut, OnDisk, Inv, Resized, Freed, Written, Rechained, ChainSectors, Padded,
        TreeOf, ListRange, ListedAt, LocAt, Disjoint, NoRepeat, Resize, ReadableVol, Needed, Geo.ClusterBytes;
      CoherentGeo();
      ResizedParts(LinksOn(g, d0), nodes[start].chain, ch);
      SizeFits(g, ch, |data|);
      ghost var n0, d1 := nodes, D();
      SoundParent(d0, dir);
      WholeTouched(ch);
      WriteChain(ch, data, d1, |trace|);
      ghost var d2 := D();
      TouchedSame(d1, ch);
      SameButMore(g, d0, d1, ch);
      SameButTrans(g, d0, d1, d2, ch);
      ResizedRechains(LinksOn(g, d0), LinksOn(g, d1), LinksOn(g, d2), nodes[start].chain, ch);
      RelaidView(g, d0, d2, nodes, start, ch);
      RelaidSeparate(g, d0, d2, nodes, start, ch);
      nodes := Rechain(nodes, start, ch);
      SlotTotal(dir);
      DirIsThere(dir);
      SetSize(dir, place, |data|, k);
      FileIsRewritten(g, d0, d2, D(), n0, start, ch, data);
    }

    lemma SoundParent(d0: Disk, dir: DirLocation)
      requires SoundDisk(g, d0, nodes) && IsDirAt(nodes, dir)
      ensures 0 in nodes && nodes[0].isDir && NoRepeat(nodes[dir.Id()].chain)
    {
      hide View, LinksOn, Inv, GeoOf;
      SoundIsReadable(g, d0, nodes);
      RootIsEmpty(g, d0, nodes);
      if dir.Cluster? {
        ChainOfNode(g, d0, nodes, dir.c);
      }
    }

    /** Rewrites a file with `data` of any length, growing or shrinking its chain under the same first
        cluster; an error leaves everything as it was. */
    method WriteFile(dir: DirLocation, name: Name, data: seq<byte>) returns (r: Result<()>, ghost i: nat)
      requires Valid() && IsDirAt(nodes, dir)
      modifies `nodes, `trace, disk, fatBytes
      ensures Valid() && IsDirAt(nodes, dir) && g.ClusterBytes() > 0
      ensures r.Err? ==> Untouched()
      ensures r.Err? ==> if r.error == NotFound then Missing(T(), dir.Id(), name) else FoundAt(T(), dir.Id(), name, i)
      ensures r.Err? && r.error != NotFound ==>
                var e := T().dirs[dir.Id()][i].entry;
                if e.isDir then r.error == IsDirectory
                else
                  && r.error == NoClusters
                  && FreeCount(LinksOn(g, D())) + Needed(g.ClusterBytes(), e.size) < Needed(g.ClusterBytes(), |data|)
      ensures r.Ok? ==> FoundAt(old(T()), dir.Id(), name, i) && !old(T()).dirs[dir.Id()][i].entry.isDir
      ensures r.Ok? ==> Changed(old(T()), old(nodes), dir, i, data)
    {
      hide View, FatImage, LinksOn, OnDisk, Inv, TreeOf, ListRange, ListedAt, ReadableVol, AnswersTo, EntryOf,
        FreeCount, Freed, ResolvedName, StateAt, IsShort, MatchAt, LocAt, NoEndTo, IsChain, Resized, Needed,
        Geo.ClusterBytes, SameBut, Raw, ChainSectors, EntrySlot;
      CoherentGeo();
      SoundIsReadable(g, D(), nodes);
      LbasAre(dir);
      SlotTotal(dir);
      DirIsThere(dir);
      ghost var d0, n0 := D(), nodes;
      var found;
      ghost var k;
      found, k := FindEntryLocation(dir, name);
      i := 0;
      if found.Err? {
        NothingLocated(dir, name);
        return Err(found.error), i;
      }
      var (place, e) := found.value;
      EntryLocated(dir, name, k);
      i := |ListRange(SlotsOf(dir), 0, k)|;
      if e.isDir {
        return Err(IsDirectory), i;
      }
      FileContents(dir, name, k, i, e);
      ghost var ch0 := nodes[e.start].chain;
      ChainOfNode(g, D(), nodes, e.start);
      ChainInRange(LinksOn(g, D()), ch0);
      var needed := ClustersFor(|data|);
      var clusters := ResizeChain(e.start, needed, ch0);
      if clusters.Err? {
        return Err(clusters.error), i;
      }
      ResizedFits(g, LinksOn(g, d0), ch0, clusters.value);
      ResizedEnds(LinksOn(g, d0), ch0, clusters.value);
      RewriteData(dir, place, e.start, clusters.value, data, k, d0);
      r := Ok(());
    }

    lemma ResizedEnds(links: seq<nat>, before: seq<nat>, ch: seq<nat>)
      requires Resized(links, before, ch)
      ensures ch != [] && (ch <= before || before <= ch)
    {
    }
  }
}
