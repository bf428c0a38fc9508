/**
 * The disk under fat16.c: an array of 512-byte sectors, holding two copies of the FAT, the
 * root directory and the data clusters.
 *
 * `View` reads the disk as a FAT, a root directory and clusters.  The methods of Volume are
 * the only places that compute sector addresses; each is proved to change exactly one
 * part of the view.
 */
module FatDisk {
  import opened FatConst
  import opened Bytes


  type Sector = s: seq<byte> | |s| == 512 witness seq(512, i => 0)
  type Disk = seq<Sector>

  /** n * size, added up: the verifier then never has to reason about a product of two variables. */
  function Times(n: nat, size: nat): nat {
    if n == 0 then 0 else Times(n - 1, size) + size
  }

  lemma {:induction false} TimesIsProduct(n: nat, size: nat)
    ensures Times(n, size) == n * size
  {
    if n > 0 {
      TimesIsProduct(n - 1, size);
    }
  }

  /** fs_state's geometry; `limit` is the first cluster number with no room on the disk. */
  datatype Geometry = Geometry(reserved: nat, sectorsPerFat: nat, sectorsPerCluster: nat, rootSectors: nat, limit: nat) {
    function RootLba(): nat { reserved + 2 * sectorsPerFat }
    function DataLba(): nat { RootLba() + rootSectors }
    function ClusterLba(c: nat): nat
      requires c >= 2
    {
      DataLba() + Times(c - 2, sectorsPerCluster)
    }
    function Entries(): nat { sectorsPerFat * 256 }

    predicate Fits(disk: Disk) {
      && 1 <= sectorsPerCluster && 1 <= sectorsPerFat <= 256
      && 2 <= limit <= Entries() && limit <= EOC
      && DataLba() <= |disk| && ClusterLba(limit) <= |disk|
    }
  }

  /** The disk as the file system sees it. */
  datatype Vol = Vol(fat: seq<nat>, root: seq<Sector>, clusters: seq<seq<Sector>>)

  /** The 16-bit entry at index i of a FAT sector. */
  function EntryAt(s: Sector, i: nat): nat
    requires i < 256
  {
    (s[2 * i] as int) + 256 * (s[2 * i + 1] as int)
  }

  function PutEntry(s: Sector, i: nat, value: nat): Sector
    requires i < 256 && value < 0x1_0000
  {
    s[2 * i := (value % 256) as byte][2 * i + 1 := (value / 256) as byte]
  }

  lemma PutThenEntry(s: Sector, i: nat, value: nat, j: nat)
    requires i < 256 && j < 256 && value < 0x1_0000
    ensures EntryAt(PutEntry(s, i, value), j) == if j == i then value else EntryAt(s, j)
  {
  }

  function FatEntry(g: Geometry, disk: Disk, c: nat): nat
    requires g.Fits(disk) && c < g.Entries()
  {
    EntryAt(disk[g.reserved + c / 256], c % 256)
  }

  lemma ClusterWithin(g: Geometry, disk: Disk, c: nat)
    requires g.Fits(disk) && 2 <= c < g.limit
    ensures g.DataLba() <= g.ClusterLba(c) && g.ClusterLba(c) + g.sectorsPerCluster <= |disk|
  {
    Ordered(c - 2, g.limit - 2, g.sectorsPerCluster);
  }

  lemma {:induction false} Ordered(a: nat, b: nat, n: nat)
    requires a < b
    ensures Times(a, n) + n <= Times(b, n)
  {
    if a + 1 < b {
      Ordered(a, b - 1, n);
    }
  }

  function FatOf(g: Geometry, disk: Disk): (fat: seq<nat>)
    requires g.Fits(disk)
    ensures |fat| == g.Entries()
  {
    seq(g.Entries(), c requires 0 <= c < g.Entries() => FatEntry(g, disk, c))
  }

  function RootOf(g: Geometry, disk: Disk): (root: seq<Sector>)
    requires g.Fits(disk)
    ensures |root| == g.rootSectors
  {
    disk[g.RootLba()..g.DataLba()]
  }

  function ClusterOfDisk(g: Geometry, disk: Disk, c: nat): (sectors: seq<Sector>)
    requires g.Fits(disk) && c < g.limit
    ensures |sectors| == if c < 2 then 0 else g.sectorsPerCluster
  {
    if c < 2 then []
    else
      ClusterWithin(g, disk, c);
      disk[g.ClusterLba(c)..g.ClusterLba(c) + g.sectorsPerCluster]
  }

  function ClustersOf(g: Geometry, disk: Disk): (clusters: seq<seq<Sector>>)
    requires g.Fits(disk)
    ensures |clusters| == g.limit
    ensures forall c :: 0 <= c < g.limit ==> |clusters[c]| == if c < 2 then 0 else g.sectorsPerCluster
  {
    seq(g.limit, c requires 0 <= c < g.limit => ClusterOfDisk(g, disk, c))
  }

  function View(g: Geometry, disk: Disk): Vol
    requires g.Fits(disk)
  {
    Vol(FatOf(g, disk), RootOf(g, disk), ClustersOf(g, disk))
  }

  /** The shape every view has. */
  predicate Shaped(g: Geometry, v: Vol) {
    && |v.fat| == g.Entries() && |v.root| == g.rootSectors && |v.clusters| == g.limit
    && forall c :: 2 <= c < g.limit ==> |v.clusters[c]| == g.sectorsPerCluster
  }

  function SetSector(sectors: seq<Sector>, s: nat, sector: Sector): seq<Sector>
    requires s < |sectors|
  {
    sectors[s := sector]
  }

  function PutSector(v: Vol, c: nat, s: nat, sector: Sector): Vol
    requires c < |v.clusters| && s < |v.clusters[c]|
  {
    v.(clusters := v.clusters[c := SetSector(v.clusters[c], s, sector)])
  }

  /** The two copies of the FAT are equal. */
  predicate Mirrored(g: Geometry, disk: Disk)
    requires g.Fits(disk)
  {
    disk[g.reserved..g.reserved + g.sectorsPerFat] == disk[g.reserved + g.sectorsPerFat..g.RootLba()]
  }

  // ---------- what a sector write changes ----------

  lemma WriteFatSector(g: Geometry, disk: Disk, disk': Disk, c: nat, value: nat)
    requires g.Fits(disk) && |disk'| == |disk| && c < g.Entries() && value < 0x1_0000
    requires Mirrored(g, disk)
    requires var k := g.reserved + c / 256;
             var s := PutEntry(disk[k], c % 256, value);
             disk' == disk[k := s][k + g.sectorsPerFat := s]
    ensures g.Fits(disk') && Mirrored(g, disk')
    ensures View(g, disk') == View(g, disk).(fat := View(g, disk).fat[c := value])
  {
    var k := g.reserved + c / 256;
    forall i | 0 <= i < g.Entries() ensures FatEntry(g, disk', i) == if i == c then value else FatEntry(g, disk, i) {
      if i / 256 == c / 256 {
        PutThenEntry(disk[k], c % 256, value, i % 256);
      }
    }
    assert FatOf(g, disk') == FatOf(g, disk)[c := value];
    SameAbove(g, disk, disk', g.RootLba());
  }

  /** Disks equal from the root directory on have the same root and clusters. */
  lemma SameAbove(g: Geometry, disk: Disk, disk': Disk, from: nat)
    requires g.Fits(disk) && |disk'| == |disk| && from <= g.RootLba() && (forall i :: from <= i < |disk| ==> disk'[i] == disk[i])
    ensures g.Fits(disk')
    ensures RootOf(g, disk') == RootOf(g, disk) && ClustersOf(g, disk') == ClustersOf(g, disk)
  {
    assert RootOf(g, disk') == RootOf(g, disk);
    forall c | 0 <= c < g.limit ensures ClusterOfDisk(g, disk', c) == ClusterOfDisk(g, disk, c) {
      if c >= 2 {
        ClusterWithin(g, disk, c);
      }
    }
  }

  lemma WriteRootSector(g: Geometry, disk: Disk, s: nat, sector: Sector)
    requires g.Fits(disk) && s < g.rootSectors
    ensures g.RootLba() + s < |disk|
    ensures var disk' := disk[g.RootLba() + s := sector];
            && g.Fits(disk') && (Mirrored(g, disk) ==> Mirrored(g, disk'))
            && View(g, disk') == View(g, disk).(root := View(g, disk).root[s := sector])
  {
    var disk' := disk[g.RootLba() + s := sector];
    FatUntouched(g, disk, disk');
    assert RootOf(g, disk') == RootOf(g, disk)[s := sector];
    forall c | 0 <= c < g.limit ensures ClusterOfDisk(g, disk', c) == ClusterOfDisk(g, disk, c) {
      if c >= 2 {
        ClusterWithin(g, disk, c);
      }
    }
    assert ClustersOf(g, disk') == ClustersOf(g, disk);
  }

  lemma FatUntouched(g: Geometry, disk: Disk, disk': Disk)
    requires g.Fits(disk) && |disk'| == |disk| && (forall i :: 0 <= i < g.RootLba() && i < |disk| ==> disk'[i] == disk[i])
    ensures g.Fits(disk') && FatOf(g, disk') == FatOf(g, disk)
    ensures Mirrored(g, disk) ==> Mirrored(g, disk')
  {
    forall c | 0 <= c < g.Entries() ensures FatEntry(g, disk', c) == FatEntry(g, disk, c) {
    }
    assert disk'[g.reserved..g.reserved + g.sectorsPerFat] == disk[g.reserved..g.reserved + g.sectorsPerFat];
    assert disk'[g.reserved + g.sectorsPerFat..g.RootLba()] == disk[g.reserved + g.sectorsPerFat..g.RootLba()];
  }

  lemma WriteClusterSector(g: Geometry, disk: Disk, c: nat, s: nat, sector: Sector)
    requires g.Fits(disk) && 2 <= c < g.limit && s < g.sectorsPerCluster
    ensures g.ClusterLba(c) + s < |disk|
    ensures var disk' := disk[g.ClusterLba(c) + s := sector];
            && g.Fits(disk') && (Mirrored(g, disk) ==> Mirrored(g, disk'))
            && View(g, disk') == PutSector(View(g, disk), c, s, sector)
  {
    ClusterWithin(g, disk, c);
    var disk' := disk[g.ClusterLba(c) + s := sector];
    var sectors: seq<Sector> := ClusterOfDisk(g, disk, c);
    var updated: seq<Sector> := sectors[s := sector];
    FatUntouched(g, disk, disk');
    assert RootOf(g, disk') == RootOf(g, disk);
    forall i | 0 <= i < g.limit
      ensures ClusterOfDisk(g, disk', i) == if i == c then updated else ClusterOfDisk(g, disk, i)
    {
      if i >= 2 {
        ClusterWithin(g, disk, i);
        if i < c {
          Ordered(i - 2, c - 2, g.sectorsPerCluster);
        } else if c < i {
          Ordered(c - 2, i - 2, g.sectorsPerCluster);
        }
      }
    }
    assert ClustersOf(g, disk') == ClustersOf(g, disk)[c := updated];
  }

  /** No cluster below n is free. */
  predicate NoneFree(fat: seq<nat>, n: nat) {
    forall i :: 2 <= i < n && i < |fat| ==> fat[i] != FREE
  }

  lemma EntryOfSector(g: Geometry, disk: Disk, s: nat, i: nat)
    requires g.Fits(disk) && s < g.sectorsPerFat && i < 256
    ensures s * 256 + i < g.Entries()
    ensures View(g, disk).fat[s * 256 + i] == EntryAt(disk[g.reserved + s], i)
  {
    var c := s * 256 + i;
    assert c / 256 == s && c % 256 == i;
  }

  /** The FAT with sector k replaced. */
  function WithBlock(fat: seq<nat>, k: nat, sector: Sector): (r: seq<nat>)
    ensures |r| == |fat|
  {
    seq(|fat|, c requires 0 <= c < |fat| => if c / 256 == k then EntryAt(sector, c % 256) else fat[c])
  }

  lemma WriteFatBlock(g: Geometry, disk: Disk, k: nat, sector: Sector)
    requires g.Fits(disk) && Mirrored(g, disk) && k < g.sectorsPerFat
    ensures g.reserved + g.sectorsPerFat + k < |disk|
    ensures var disk' := disk[g.reserved + k := sector][g.reserved + g.sectorsPerFat + k := sector];
            g.Fits(disk') && Mirrored(g, disk') && View(g, disk') == View(g, disk).(fat := WithBlock(View(g, disk).fat, k, sector))
  {
    var disk' := disk[g.reserved + k := sector][g.reserved + g.sectorsPerFat + k := sector];
    assert FatOf(g, disk') == WithBlock(FatOf(g, disk), k, sector);
    SameAbove(g, disk, disk', g.RootLba());
  }

  lemma WriteBoot(g: Geometry, disk: Disk, sector: Sector)
    requires g.Fits(disk) && Mirrored(g, disk) && g.reserved >= 1
    ensures var disk' := disk[0 := sector]; g.Fits(disk') && Mirrored(g, disk') && View(g, disk') == View(g, disk)
  {
    var disk' := disk[0 := sector];
    forall c | 0 <= c < g.Entries() ensures FatEntry(g, disk', c) == FatEntry(g, disk, c) {
    }
    assert FatOf(g, disk') == FatOf(g, disk);
    SameAbove(g, disk, disk', g.RootLba());
  }

  // ---------- the device and the FAT routines ----------

  class Volume {
    const g: Geometry
    var disk: Disk

    constructor (g: Geometry, disk: Disk)
      requires g.Fits(disk) && Mirrored(g, disk)
      ensures Valid() && this.g == g && this.disk == disk
    {
      this.g := g;
      this.disk := disk;
    }

    predicate Valid()
      reads this
    {
      g.Fits(disk) && Mirrored(g, disk)
    }

    function V(): (v: Vol)
      requires Valid()
      reads this
      ensures Shaped(g, v)
    {
      View(g, disk)
    }

    /** get_fat_entry. */
    method GetFatEntry(c: nat) returns (value: nat)
      requires Valid() && c < g.Entries()
      ensures value == V().fat[c] && value < 0x1_0000
    {
      var buf := disk[g.reserved + c * 2 / 512];
      var offset := c * 2 % 512;
      value := (buf[offset] as int) + 256 * (buf[offset + 1] as int);
    }

    /** set_fat_entry: read one sector, change two bytes, write it to both copies. */
    method SetFatEntry(c: nat, value: nat)
      requires Valid() && c < g.Entries() && value < 0x1_0000
      modifies this`disk
      ensures Valid() && V() == old(V()).(fat := old(V()).fat[c := value])
    {
      ghost var before := disk;
      var k := c * 2 / 512;
      var offset := c * 2 % 512;
      var buf := disk[g.reserved + k];
      buf := buf[offset := (value % 256) as byte];
      buf := buf[offset + 1 := (value / 256) as byte];
      disk := disk[g.reserved + k := buf];
      disk := disk[g.reserved + g.sectorsPerFat + k := buf];
      WriteFatSector(g, before, disk, c, value);
    }

    /** The writes of one FAT sector to both copies. */
    method PutFatSector(k: nat, sector: Sector)
      requires Valid() && k < g.sectorsPerFat
      modifies this`disk
      ensures Valid() && V() == old(V()).(fat := WithBlock(old(V()).fat, k, sector))
    {
      WriteFatBlock(g, disk, k, sector);
      disk := disk[g.reserved + k := sector];
      disk := disk[g.reserved + g.sectorsPerFat + k := sector];
    }

    method PutBootSector(sector: Sector)
      requires Valid() && g.reserved >= 1
      modifies this`disk
      ensures Valid() && V() == old(V())
    {
      WriteBoot(g, disk, sector);
      disk := disk[0 := sector];
    }

    /** The reads of one sector of the first FAT. */
    method ReadFatSector(k: nat) returns (sector: Sector)
      requires Valid() && k < g.sectorsPerFat
      ensures forall i :: 0 <= i < 256 ==> k * 256 + i < g.Entries() && V().fat[k * 256 + i] == EntryAt(sector, i)
    {
      sector := disk[g.reserved + k];
      forall i | 0 <= i < 256 ensures k * 256 + i < g.Entries() && V().fat[k * 256 + i] == EntryAt(sector, i) {
        EntryOfSector(g, disk, k, i);
      }
    }

    /** find_free_cluster: the lowest free entry from cluster 2 on, or 0xFFFF. */
    method FindFreeCluster() returns (c: nat)
      requires Valid()
      ensures c != END ==> 2 <= c < g.Entries() && V().fat[c] == FREE
      ensures NoneFree(V().fat, c)
    {
      ghost var fat := V().fat;
      var s := 0;
      while s < g.sectorsPerFat
        invariant 0 <= s <= g.sectorsPerFat
        invariant NoneFree(fat, s * 256)
      {
        var buf := disk[g.reserved + s];
        var i := 0;
        while i < 256
          invariant 0 <= i <= 256
          invariant NoneFree(fat, s * 256 + i)
        {
          EntryOfSector(g, disk, s, i);
          if !(s == 0 && i < 2) && EntryAt(buf, i) == FREE {
            return s * 256 + i;
          }
          i := i + 1;
        }
        s := s + 1;
      }
      c := END;
    }

    /** kdisk_read_sector of sector s of cluster c. */
    method ReadClusterSector(c: nat, s: nat) returns (sector: Sector)
      requires Valid() && 2 <= c < g.limit && s < g.sectorsPerCluster
      ensures sector == V().clusters[c][s]
    {
      ClusterWithin(g, disk, c);
      sector := disk[g.ClusterLba(c) + s];
    }

    /** kdisk_write_sector of sector s of cluster c. */
    method PutClusterSector(c: nat, s: nat, sector: Sector)
      requires Valid() && 2 <= c < g.limit && s < g.sectorsPerCluster
      modifies this`disk
      ensures Valid()
      ensures V() == PutSector(old(V()), c, s, sector)
    {
      WriteClusterSector(g, disk, c, s, sector);
      disk := disk[g.ClusterLba(c) + s := sector];
    }

    method ReadRootSector(s: nat) returns (sector: Sector)
      requires Valid() && s < g.rootSectors
      ensures sector == V().root[s]
    {
      sector := disk[g.RootLba() + s];
    }

    method PutRootSector(s: nat, sector: Sector)
      requires Valid() && s < g.rootSectors
      modifies this`disk
      ensures Valid()
      ensures V() == old(V()).(root := old(V()).root[s := sector])
    {
      WriteRootSector(g, disk, s, sector);
      disk := disk[g.RootLba() + s := sector];
    }
  }
}
