/** Where the parts of a FAT12 volume lie on the disk, and that no two of them overlap. */
module Geometry {
  import opened Bytes
  import opened PackedFat
  import opened Chains

  datatype Geo = Geo(start: nat, reserved: nat, numFats: nat, fatSize: nat, rootEntries: nat, perCluster: nat) {
    function FirstFat(): nat {
      start + reserved
    }

    function RootSectors(): nat {
      (rootEntries * 32 + 511) / 512
    }

    function FirstRoot(): nat {
      FirstFat() + numFats * fatSize
    }

    function FirstData(): nat {
      FirstRoot() + RootSectors()
    }

    function FatBytes(): nat {
      512 * fatSize
    }

    // How many clusters the FAT can number, the two reserved ones included.
    function Clusters(): nat {
      EntryCount(FatBytes())
    }

    function ClusterBytes(): nat {
      512 * perCluster
    }

    function ClusterLba(c: nat): nat
      requires c >= 2
    {
      FirstData() + (c - 2) * perCluster
    }

    // The facts the driver takes for granted about a volume it mounts.
    predicate Ok() {
      && 1 <= perCluster < 256 && 1 <= numFats < 256
      && 1 <= reserved && 1 <= fatSize && 1 <= rootEntries
      && Clusters() <= MAX_CLUSTERS
    }

    predicate FitsOn(sectors: nat)
      requires Ok()
    {
      FirstData() + (Clusters() - 2) * perCluster <= sectors
    }
  }

  predicate InFatArea(g: Geo, lba: nat) {
    g.FirstFat() <= lba < g.FirstFat() + g.fatSize
  }

  predicate InCluster(g: Geo, c: nat, lba: nat)
    requires c >= 2
  {
    g.ClusterLba(c) <= lba < g.ClusterLba(c) + g.perCluster
  }

  function Span(first: nat, n: nat): (lbas: seq<nat>)
    ensures |lbas| == n && forall i :: 0 <= i < n ==> lbas[i] == first + i
  {
    if n == 0 then [] else Span(first, n - 1) + [first + n - 1]
  }

  function ClusterSectors(g: Geo, c: nat): (lbas: seq<nat>)
    requires c >= 2
    ensures |lbas| == g.perCluster
  {
    Span(g.ClusterLba(c), g.perCluster)
  }

  predicate DataClusters(ch: seq<nat>) {
    forall i :: 0 <= i < |ch| ==> ch[i] >= 2
  }

  function ChainSectors(g: Geo, ch: seq<nat>): (lbas: seq<nat>)
    requires DataClusters(ch)
  {
    if ch == [] then [] else ChainSectors(g, ch[..|ch| - 1]) + ClusterSectors(g, ch[|ch| - 1])
  }

  function RootLbas(g: Geo): (lbas: seq<nat>)
    ensures |lbas| == g.RootSectors()
  {
    Span(g.FirstRoot(), g.RootSectors())
  }

  // ---- the areas do not overlap

  lemma MulGrows(a: nat, b: nat, k: nat)
    requires a <= b
    ensures a * k <= b * k
  {
  }

  // Cluster `c` ends before cluster `d` begins.
  lemma NextCluster(c: nat, d: nat, k: nat)
    requires 2 <= c < d
    ensures (c - 2) * k + k <= (d - 2) * k
  {
    MulGrows(c - 1, d - 2, k);
    assert (c - 2) * k + k == (c - 1) * k;
  }

  lemma FatBeforeRoot(g: Geo)
    requires g.Ok()
    ensures g.FirstFat() + g.fatSize <= g.FirstRoot() <= g.FirstData()
    ensures g.start < g.FirstFat()
  {
    MulGrows(1, g.numFats, g.fatSize);
  }

  lemma FatFits(g: Geo, sectors: nat)
    requires g.Ok() && g.FitsOn(sectors)
    ensures g.FirstFat() + g.fatSize <= sectors
  {
    FatBeforeRoot(g);
    MulGrows(0, g.Clusters() - 2, g.perCluster);
  }

  lemma ClusterInData(g: Geo, c: nat, sectors: nat)
    requires g.Ok() && g.FitsOn(sectors) && 2 <= c < g.Clusters()
    ensures g.FirstData() <= g.ClusterLba(c) && g.ClusterLba(c) + g.perCluster <= sectors
  {
    hide Geo.Clusters, Geo.FirstData, Geo.Ok;
    NextCluster(c, g.Clusters(), g.perCluster);
  }

  lemma ClusterOrder(g: Geo, c: nat, d: nat)
    requires 2 <= c < d
    ensures g.ClusterLba(c) + g.perCluster <= g.ClusterLba(d)
  {
    NextCluster(c, d, g.perCluster);
  }

  lemma ClustersApart(g: Geo, c: nat, d: nat, lba: nat)
    requires 2 <= c && 2 <= d && InCluster(g, c, lba) && InCluster(g, d, lba)
    ensures c == d
  {
    if c < d {
      ClusterOrder(g, c, d);
    } else if d < c {
      ClusterOrder(g, d, c);
    }
  }

  // ---- chains of sectors

  lemma ChainSectorsAppend(g: Geo, ch: seq<nat>, c: nat)
    requires DataClusters(ch) && c >= 2
    ensures DataClusters(ch + [c]) && ChainSectors(g, ch + [c]) == ChainSectors(g, ch) + ClusterSectors(g, c)
  {
    assert (ch + [c])[..|ch|] == ch;
  }

  lemma {:induction false} ChainSectorsLength(g: Geo, ch: seq<nat>)
    requires DataClusters(ch)
    ensures |ChainSectors(g, ch)| == |ch| * g.perCluster
  {
    if ch != [] {
      ChainSectorsLength(g, ch[..|ch| - 1]);
      assert |ch| * g.perCluster == (|ch| - 1) * g.perCluster + g.perCluster;
    }
  }

  lemma {:induction false} ChainSectorsIn(g: Geo, ch: seq<nat>, k: nat)
    requires DataClusters(ch) && k < |ChainSectors(g, ch)|
    ensures exists c :: c in ch && c >= 2 && InCluster(g, c, ChainSectors(g, ch)[k])
  {
    var front, last := ch[..|ch| - 1], ch[|ch| - 1];
    if k < |ChainSectors(g, front)| {
      ChainSectorsIn(g, front, k);
      var c :| c in front && c >= 2 && InCluster(g, c, ChainSectors(g, front)[k]);
      assert c in ch;
    } else {
      assert last in ch && InCluster(g, last, ChainSectors(g, ch)[k]);
    }
  }

  // The sectors of a chain are pairwise different.
  lemma {:induction false} ChainSectorsDistinct(g: Geo, ch: seq<nat>)
    requires DataClusters(ch) && NoRepeat(ch)
    ensures NoRepeat(ChainSectors(g, ch))
  {
    if ch != [] {
      var front, last := ch[..|ch| - 1], ch[|ch| - 1];
      ChainSectorsDistinct(g, front);
      var before, lbas := ChainSectors(g, front), ChainSectors(g, ch);
      forall i, j | 0 <= i < |before| <= j < |lbas| ensures lbas[i] != lbas[j] {
        ChainSectorsIn(g, front, i);
        var c :| c in front && c >= 2 && InCluster(g, c, before[i]);
        assert InCluster(g, last, lbas[j]);
        if lbas[i] == lbas[j] {
          ClustersApart(g, c, last, lbas[i]);
        }
      }
    }
  }

  // Chains that share no cluster share no sector.
  lemma ChainSectorsApart(g: Geo, a: seq<nat>, b: seq<nat>, i: nat, j: nat)
    requires DataClusters(a) && DataClusters(b) && forall c :: c in a ==> c !in b
    requires i < |ChainSectors(g, a)| && j < |ChainSectors(g, b)|
    ensures ChainSectors(g, a)[i] != ChainSectors(g, b)[j]
  {
    ChainSectorsIn(g, a, i);
    ChainSectorsIn(g, b, j);
    var lba := ChainSectors(g, a)[i];
    var c :| c in a && c >= 2 && InCluster(g, c, lba);
    if lba == ChainSectors(g, b)[j] {
      var d :| d in b && d >= 2 && InCluster(g, d, lba);
      ClustersApart(g, c, d, lba);
    }
  }

  lemma ChainSectorInData(g: Geo, ch: seq<nat>, k: nat, sectors: nat)
    requires g.Ok() && g.FitsOn(sectors) && forall i :: 0 <= i < |ch| ==> 2 <= ch[i] < g.Clusters()
    requires k < |ChainSectors(g, ch)|
    ensures g.FirstData() <= ChainSectors(g, ch)[k] < sectors
  {
    ChainSectorsIn(g, ch, k);
    var c :| c in ch && c >= 2 && InCluster(g, c, ChainSectors(g, ch)[k]);
    ClusterInData(g, c, sectors);
  }

  // The first sectors of a chain are those of its first clusters.
  lemma {:induction false} ChainSectorsPrefix(g: Geo, ch: seq<nat>, i: nat)
    requires DataClusters(ch) && i <= |ch|
    ensures ChainSectors(g, ch[..i]) <= ChainSectors(g, ch)
  {
    if i < |ch| {
      assert ch[..|ch| - 1][..i] == ch[..i];
      ChainSectorsPrefix(g, ch[..|ch| - 1], i);
    } else {
      assert ch[..i] == ch;
    }
  }

  // Sector `s` of cluster `i` of a chain, by its place in the whole chain.
  lemma SectorOfChain(g: Geo, ch: seq<nat>, i: nat, s: nat)
    requires DataClusters(ch) && i < |ch| && s < g.perCluster
    ensures DataClusters(ch[..i]) && DataClusters(ch[..i + 1])
    ensures var q := |ChainSectors(g, ch[..i])| + s;
            q < |ChainSectors(g, ch)| && ChainSectors(g, ch)[q] == g.ClusterLba(ch[i]) + s
    ensures |ChainSectors(g, ch[..i + 1])| == |ChainSectors(g, ch[..i])| + g.perCluster
  {
    ChainSectorsPrefix(g, ch, i + 1);
    assert ch[..i + 1] == ch[..i] + [ch[i]];
    ChainSectorsAppend(g, ch[..i], ch[i]);
  }

  lemma NoSectors(g: Geo)
    ensures ChainSectors(g, []) == []
  {
  }
}
