/** A freshly formatted volume: where every run of the driver can start. */
module Formatting {
  import opened Bytes
  import opened Geometry
  import opened Directory
  import opened DirectoryUpdates
  import opened Volume
  import opened DiskView
  import opened Mounts
  import opened Formats
  import opened Fat12Driver

  function RootOnly(): Nodes {
    map[0 := Node(0, 0, 0, true, [])]
  }

  // Every cluster is free and the root directory has never been used.
  ghost predicate Formatted(g: Geo, disk: Disk) {
    && (forall c :: 2 <= c < g.Clusters() ==> LinksOn(g, disk)[c] == 0)
    && forall k :: 0 <= k < 16 * g.RootSectors() ==> IsEnd(Slots(disk, RootLbas(g))[k])
  }

  lemma EndsAreOk(slots: seq<Slot>)
    requires forall k :: 0 <= k < |slots| ==> IsEnd(slots[k])
    ensures DirOk(slots, false) && Listing(slots) == []
  {
    NothingAfterEnd(slots, 0, |slots|);
  }

  /** A formatted volume meets the whole invariant, with an empty root as its only directory. */
  lemma FormattedIsSound(g: Geo, disk: Disk)
    requires g.Ok() && g.FitsOn(|disk|) && GeoOf(SectorAt(disk, g.start), g.start) == Ok(g) && Formatted(g, disk)
    ensures SoundDisk(g, disk, RootOnly())
    ensures TreeOn(g, disk, RootOnly()) == Tree(map[0 := []], map[])
  {
    hide LinksOn, Slots, RootLbas, GeoOf, Geo.FitsOn, DirOk;
    var nodes, v := RootOnly(), View(g, disk, RootOnly());
    EndsAreOk(v.dirs[0]);
    assert v.dirs == map[0 := v.dirs[0]] && v.files == map[];
    assert Shaped(v, nodes) && Allocated(v.links, nodes);
    assert DirHolds(v, nodes, 0);
    forall d, k | d in v.dirs && 0 <= k < |v.dirs[d]| ensures !EntrySlot(v, d, k) {
      assert IsEnd(v.dirs[0][k]);
    }
    assert Inv(v, nodes, g.ClusterBytes());
    assert TreeOn(g, disk, nodes).dirs == map[0 := []] && TreeOn(g, disk, nodes).files == map[];
  }

  /** Writing a boot sector with these fields and mounting the volume gives a volume with exactly these fields, or the
      first thing that is wrong with them. */
  method MountWritten(disk: array<Sector>, start: nat, rest: Sector, bytesPerSector: nat, perCluster: byte, reserved: nat,
                      numFats: byte, rootEntries: nat, fatSize: nat, mark: nat)
    returns (r: Result<Fat12>)
    requires start + reserved + fatSize <= disk.Length && start < disk.Length
    requires bytesPerSector < 0x1_0000 && reserved < 0x1_0000 && rootEntries < 0x1_0000 && fatSize < 0x1_0000 && mark < 0x1_0000
    modifies disk
    ensures r.Ok? <==> mark == 0xAA55 && bytesPerSector == 512 && rootEntries != 0 && fatSize != 0
    ensures r.Ok? ==> r.value.g.start == start && r.value.g.reserved == reserved && r.value.g.numFats == numFats
    ensures r.Ok? ==> r.value.g.fatSize == fatSize && r.value.g.rootEntries == rootEntries && r.value.g.perCluster == perCluster
    ensures r.Err? ==> r.error == if mark != 0xAA55 then BadSignature else if bytesPerSector != 512 then BadSectorSize
                                  else if rootEntries == 0 then NotFat12 else NoFat
  {
    hide BootSector, GeoOf;
    BootReadsBack(rest, bytesPerSector, perCluster, reserved, numFats, rootEntries, fatSize, mark, start);
    disk[start] := BootSector(rest, bytesPerSector, perCluster, reserved, numFats, rootEntries, fatSize, mark);
    r := Fat12.ReadBpb(disk, start, RootOnly());
  }
}
