/**
 * File contents: the cluster-and-sector loops of fat16_write_file, fat16_read_file and
 * fat16_delete_file.
 */
module FatFiles {
  import opened Common
  import opened FatConst
  import opened Bytes
  import opened FatDisk
  import C = FatChain

  // ---------- what a chain holds ----------

  /** Sector s of a cluster holds the bytes of data from `at` on, as far as they go. */
  ghost predicate SectorHolds(s: Sector, data: seq<byte>, at: nat) {
    forall b :: 0 <= b < 512 && at + b < |data| ==> s[b] == data[at + b]
  }

  ghost predicate SectorAt(sectors: seq<Sector>, data: seq<byte>, base: nat, s: nat)
    requires s < |sectors|
  {
    SectorHolds(sectors[s], data, base + 512 * s)
  }

  ghost predicate ClusterHolds(sectors: seq<Sector>, data: seq<byte>, base: nat) {
    forall s: nat {:trigger SectorAt(sectors, data, base, s)} :: s < |sectors| ==> SectorAt(sectors, data, base, s)
  }

  /** Cluster i of the chain holds its share of the data. */
  ghost predicate ClusterAt(v: Vol, spc: nat, cs: seq<nat>, data: seq<byte>, i: nat)
    requires i < |cs|
  {
    cs[i] < |v.clusters| && |v.clusters[cs[i]]| == spc && ClusterHolds(v.clusters[cs[i]], data, Base(spc, i))
  }

  /** The first n clusters of the chain do. */
  ghost predicate HoldsTo(v: Vol, spc: nat, cs: seq<nat>, data: seq<byte>, n: nat) {
    n <= |cs| && forall i: nat {:trigger ClusterAt(v, spc, cs, data, i)} :: i < n ==> ClusterAt(v, spc, cs, data, i)
  }

  /** The clusters of the chain hold the data, in order; past its end they may hold anything. */
  ghost predicate ChainHolds(v: Vol, spc: nat, cs: seq<nat>, data: seq<byte>) {
    HoldsTo(v, spc, cs, data, |cs|) && |data| <= Base(spc, |cs|)
  }

  /** The file offset at which cluster i of a chain begins. */
  function Base(spc: nat, i: nat): nat {
    if i == 0 then 0 else Base(spc, i - 1) + 512 * spc
  }

  lemma {:induction false} BaseIs(spc: nat, i: nat)
    ensures Base(spc, i) == i * (spc * 512)
  {
    if i > 0 {
      BaseIs(spc, i - 1);
      assert i * (spc * 512) == (i - 1) * (spc * 512) + spc * 512;
    }
  }

  // ---------- writing ----------

  /** The bytes a sector write takes: the data from `at`, and whatever lies behind it in memory. */
  function Source(data: seq<byte>, behind: Sector, at: nat): Sector
    requires at < |data|
  {
    (data + behind)[at..at + 512]
  }

  lemma SourceHolds(data: seq<byte>, behind: Sector, at: nat)
    requires at < |data|
    ensures SectorHolds(Source(data, behind, at), data, at)
  {
  }

  lemma OneMoreSector(sectors: seq<Sector>, data: seq<byte>, behind: Sector, base: nat, s: nat)
    requires s < |sectors|
    requires forall i: nat {:trigger SectorAt(sectors, data, base, i)} :: i < s ==> SectorAt(sectors, data, base, i)
    ensures var at := base + 512 * s;
            var sectors' := if at < |data| then SetSector(sectors, s, Source(data, behind, at)) else sectors;
            forall i: nat {:trigger SectorAt(sectors', data, base, i)} :: i < s + 1 ==> SectorAt(sectors', data, base, i)
  {
    var at := base + 512 * s;
    if at < |data| {
      SourceHolds(data, behind, at);
      var sectors' := SetSector(sectors, s, Source(data, behind, at));
      forall i: nat | i < s + 1 ensures SectorAt(sectors', data, base, i) {
        assert i < s ==> SectorAt(sectors, data, base, i);
      }
    }
  }

  /** v' is v with cluster c replaced. */
  ghost predicate OnlyCluster(v: Vol, v': Vol, c: nat, sectors: seq<Sector>) {
    c < |v.clusters| && v' == v.(clusters := v.clusters[c := sectors])
  }

  /** The sector loop of fat16_write_file for one cluster.  A sector that begins past the end
      of the data is passed to the driver as NULL, which writes nothing. */
  method WriteCluster(vol: Volume, c: nat, data: seq<byte>, behind: Sector, base: nat)
    returns (ghost sectors: seq<Sector>)
    requires vol.Valid() && 2 <= c < vol.g.limit
    modifies vol`disk
    ensures vol.Valid() && OnlyCluster(old(vol.V()), vol.V(), c, sectors)
    ensures |sectors| == vol.g.sectorsPerCluster && ClusterHolds(sectors, data, base)
  {
    ghost var v0 := vol.V();
    sectors := v0.clusters[c];
    var s := 0;
    while s < vol.g.sectorsPerCluster
      invariant 0 <= s <= vol.g.sectorsPerCluster == |sectors|
      invariant vol.Valid() && OnlyCluster(v0, vol.V(), c, sectors)
      invariant forall i: nat {:trigger SectorAt(sectors, data, base, i)} :: i < s ==> SectorAt(sectors, data, base, i)
    {
      var at := base + 512 * s;
      OneMoreSector(sectors, data, behind, base, s);
      if at < |data| {
        vol.PutClusterSector(c, s, Source(data, behind, at));
        sectors := SetSector(sectors, s, Source(data, behind, at));
      }
      s := s + 1;
    }
  }

  /** The number of clusters fat16_write_file links: it takes one even for an empty file. */
  function ClustersNeeded(size: nat, spc: nat): nat
    requires spc >= 1
  {
    if size == 0 then 1 else (size + spc * 512 - 1) / (spc * 512)
  }

  lemma NeededCovers(size: nat, spc: nat)
    requires spc >= 1
    ensures var n := ClustersNeeded(size, spc); n >= 1 && size <= Base(spc, n)
  {
    var b, n := spc * 512, ClustersNeeded(size, spc);
    if size > 0 {
      DivBounds(size + b - 1, b);
    }
    BaseIs(spc, n);
  }

  /** Never one more than the data take: n clusters hold them if and only if n is enough. */
  lemma NeededIsLeast(size: nat, spc: nat, n: nat)
    requires spc >= 1 && n >= 1
    ensures size <= n * (spc * 512) <==> n >= ClustersNeeded(size, spc)
  {
    if size > 0 {
      var b := spc * 512;
      DivBounds(size + b - 1, b);
      LeastTimes(size, b, n, ClustersNeeded(size, spc), (size + b - 1) % b);
    }
  }

  lemma LeastTimes(size: nat, b: nat, n: nat, q: nat, rest: nat)
    requires size + b - 1 == q * b + rest && rest < b
    ensures size <= n * b <==> n >= q
  {
    if n >= q {
      TimesMono(q, n, b);
    } else {
      TimesMono(n + 1, q, b);
      assert (n + 1) * b == n * b + b;
    }
  }

  lemma TimesMono(p: nat, q: nat, b: nat)
    requires p <= q
    ensures p * b <= q * b
  {
  }

  lemma DivBounds(a: nat, b: nat)
    requires b >= 1
    ensures 0 <= a / b && a == (a / b) * b + a % b && 0 <= a % b < b
  {
  }

  /** fat16_write_file half-way: cs is allocated and linked, its first `written` clusters
      hold their share of the data, and `room` more clusters are known to be free. */
  ghost predicate Filling(g: Geometry, v0: Vol, v: Vol, cs: seq<nat>, data: seq<byte>, written: nat, room: nat) {
    && Shaped(g, v0) && Shaped(g, v) && |cs| >= 1 && g.limit <= g.Entries() && g.limit <= EOC
    && C.Linked(v0.fat, v.fat, cs) && C.AllFree(v0.fat, cs) && C.InRange(cs, g.limit)
    && v.root == v0.root
    && (forall c :: 0 <= c < g.limit && c !in cs ==> v.clusters[c] == v0.clusters[c])
    && HoldsTo(v, g.sectorsPerCluster, cs, data, written)
    && |C.FreeBelow(v.fat, g.limit)| >= room
  }

  /** How much of its chain a file fills: nothing of the one cluster of an empty file. */
  function Filled(cs: seq<nat>, data: seq<byte>): nat { if data == [] then 0 else |cs| }

  lemma FillingWrites(g: Geometry, v0: Vol, v: Vol, v': Vol, cs: seq<nat>, data: seq<byte>, written: nat, room: nat,
                       sectors: seq<Sector>)
    requires Filling(g, v0, v, cs, data, written, room) && written < |cs| && Shaped(g, v')
    requires OnlyCluster(v, v', cs[written], sectors) && |sectors| == g.sectorsPerCluster
    requires ClusterHolds(sectors, data, Base(g.sectorsPerCluster, written))
    ensures Filling(g, v0, v', cs, data, written + 1, room)
  {
    OneMoreHolds(v, v', g.sectorsPerCluster, cs, data, written, sectors);
    OthersSame(v0, v, v', g.limit, cs, cs[written], sectors);
  }

  lemma OneMoreHolds(v: Vol, v': Vol, spc: nat, cs: seq<nat>, data: seq<byte>, written: nat, sectors: seq<Sector>)
    requires C.Distinct(cs) && written < |cs| && HoldsTo(v, spc, cs, data, written)
    requires OnlyCluster(v, v', cs[written], sectors) && |sectors| == spc && ClusterHolds(sectors, data, Base(spc, written))
    ensures HoldsTo(v', spc, cs, data, written + 1)
  {
    forall i: nat | i < written ensures ClusterAt(v', spc, cs, data, i) {
      assert ClusterAt(v, spc, cs, data, i);
      assert cs[i] != cs[written];
    }
  }

  lemma OthersSame(v0: Vol, v: Vol, v': Vol, limit: nat, cs: seq<nat>, k: nat, sectors: seq<Sector>)
    requires |v0.clusters| == |v.clusters| == limit && k in cs && OnlyCluster(v, v', k, sectors)
    requires forall c :: 0 <= c < limit && c !in cs ==> v.clusters[c] == v0.clusters[c]
    ensures forall c :: 0 <= c < limit && c !in cs ==> v'.clusters[c] == v0.clusters[c]
  {
  }

  lemma FillingLinks(g: Geometry, v0: Vol, v: Vol, v': Vol, cs: seq<nat>, data: seq<byte>, written: nat, room: nat, next: nat)
    requires Filling(g, v0, v, cs, data, written, room) && room > 0
    requires 2 <= next < g.limit && v.fat[next] == FREE
    requires v' == v.(fat := v.fat[cs[|cs| - 1] := next][next := END])
    ensures Filling(g, v0, v', cs + [next], data, written, room - 1)
  {
    C.LinkedGrows(v0.fat, v.fat, cs, next);
    NotFreeInside(v0, v, cs);
    C.TakeOne(v.fat, v'.fat, g.limit, next);
    LongerHolds(v, v', g.sectorsPerCluster, cs, data, written, next);
  }

  lemma LongerHolds(v: Vol, v': Vol, spc: nat, cs: seq<nat>, data: seq<byte>, written: nat, next: nat)
    requires v'.clusters == v.clusters && HoldsTo(v, spc, cs, data, written)
    ensures HoldsTo(v', spc, cs + [next], data, written)
  {
    forall i: nat | i < written ensures ClusterAt(v', spc, cs + [next], data, i) {
      assert ClusterAt(v, spc, cs, data, i);
    }
  }

  lemma NotFreeInside(v0: Vol, v: Vol, cs: seq<nat>)
    requires C.Linked(v0.fat, v.fat, cs) && forall i :: 0 <= i < |cs| ==> cs[i] >= 2
    ensures v.fat[cs[|cs| - 1]] != FREE
  {
    var last := |cs| - 1;
    assert v.fat[cs[last]] == C.Link(cs, last);
  }

  lemma FillingStarts(g: Geometry, v0: Vol, v: Vol, data: seq<byte>, first: nat, room: nat)
    requires Shaped(g, v0) && g.limit <= g.Entries() && g.limit <= EOC
    requires 2 <= first < g.limit && v0.fat[first] == FREE && v == v0.(fat := v0.fat[first := END])
    requires |C.FreeBelow(v0.fat, g.limit)| >= room + 1
    ensures Filling(g, v0, v, [first], data, 0, room)
  {
    C.LinkedStarts(v0.fat, first);
    C.TakeOne(v0.fat, v.fat, g.limit, first);
  }

  /** Allocates the next cluster of the chain that ends at `current`. */
  method LinkNext(vol: Volume, current: nat, ghost v0: Vol, ghost cs: seq<nat>, ghost data: seq<byte>,
                  ghost written: nat, ghost room: nat)
    returns (next: nat)
    requires vol.Valid() && Filling(vol.g, v0, vol.V(), cs, data, written, room) && room > 0
    requires current == cs[|cs| - 1]
    modifies vol`disk
    ensures vol.Valid() && Filling(vol.g, v0, vol.V(), cs + [next], data, written, room - 1)
  {
    ghost var v := vol.V();
    next := vol.FindFreeCluster();
    C.LowestFits(v.fat, vol.g.limit, next);
    FillingLinks(vol.g, v0, v, v.(fat := v.fat[current := next][next := END]), cs, data, written, room, next);
    vol.SetFatEntry(current, next);
    vol.SetFatEntry(next, END);
  }

  /** One turn of fat16_write_file's loop: write cluster i, and unless it is the last link
      another behind it. */
  method WriteStep(vol: Volume, current0: nat, i: nat, count: nat, data: seq<byte>, behind: Sector,
                   ghost v0: Vol, ghost cs0: seq<nat>)
    returns (current: nat, ghost cs: seq<nat>)
    requires vol.Valid() && i < count && |cs0| == i + 1 && current0 == cs0[i]
    requires Filling(vol.g, v0, vol.V(), cs0, data, i, count - (i + 1))
    modifies vol`disk
    ensures vol.Valid() && |cs| == (if i + 1 < count then i + 2 else i + 1) && cs[0] == cs0[0] && current == cs[|cs| - 1]
    ensures Filling(vol.g, v0, vol.V(), cs, data, i + 1, count - |cs|)
  {
    ghost var v := vol.V();
    ghost var sectors := WriteCluster(vol, current0, data, behind, Base(vol.g.sectorsPerCluster, i));
    FillingWrites(vol.g, v0, v, vol.V(), cs0, data, i, count - (i + 1), sectors);
    current, cs := current0, cs0;
    if i < count - 1 {
      current := LinkNext(vol, current0, v0, cs0, data, i + 1, count - (i + 1));
      cs := cs0 + [current];
    }
  }

  /**
   * fat16_write_file without its directory entry: given enough free clusters, the data end
   * up in a freshly linked chain of exactly the clusters needed, all of them free before,
   * and every other FAT entry, cluster and directory is untouched.
   */
  method WriteChain(vol: Volume, data: seq<byte>, behind: Sector) returns (first: nat, ghost cs: seq<nat>)
    requires vol.Valid()
    requires |C.FreeBelow(vol.V().fat, vol.g.limit)| >= ClustersNeeded(|data|, vol.g.sectorsPerCluster)
    modifies vol`disk
    ensures vol.Valid() && cs != [] && first == cs[0]
    ensures |cs| == ClustersNeeded(|data|, vol.g.sectorsPerCluster)
    ensures Filling(vol.g, old(vol.V()), vol.V(), cs, data, Filled(cs, data), 0)
  {
    ghost var v0 := vol.V();
    var spc := vol.g.sectorsPerCluster;
    NeededCovers(|data|, spc);
    first := vol.FindFreeCluster();
    C.LowestFits(v0.fat, vol.g.limit, first);
    FillingStarts(vol.g, v0, v0.(fat := v0.fat[first := END]), data, first, ClustersNeeded(|data|, spc) - 1);
    vol.SetFatEntry(first, END);
    cs := [first];
    if |data| > 0 {
      cs := WriteClusters(vol, first, (|data| + spc * 512 - 1) / (spc * 512), data, behind, v0);
    }
  }

  method WriteClusters(vol: Volume, first: nat, count: nat, data: seq<byte>, behind: Sector, ghost v0: Vol)
    returns (ghost cs: seq<nat>)
    requires vol.Valid() && count >= 1 && Filling(vol.g, v0, vol.V(), [first], data, 0, count - 1)
    modifies vol`disk
    ensures vol.Valid() && |cs| == count && cs[0] == first
    ensures Filling(vol.g, v0, vol.V(), cs, data, count, 0)
  {
    var current := first;
    cs := [first];
    var i := 0;
    while i < count
      invariant 0 <= i <= count && |cs| == (if i < count then i + 1 else count)
      invariant vol.Valid() && cs[0] == first && current == cs[|cs| - 1]
      invariant Filling(vol.g, v0, vol.V(), cs, data, i, count - |cs|)
    {
      current, cs := WriteStep(vol, current, i, count, data, behind, v0, cs);
      i := i + 1;
    }
  }

  // ---------- reading ----------

  /** fat16_read_file between sectors: `out` is what has been read of data from `offset`, and
      unless all `want` bytes are in, the next one is `skip` bytes past file offset `at`. */
  ghost predicate Reading(data: seq<byte>, offset: nat, want: nat, out: seq<byte>, at: nat, skip: nat) {
    && offset + want <= |data| && |out| <= want
    && out == data[offset..offset + |out|]
    && (|out| < want ==> at + skip == offset + |out|)
  }

  /** One sector of the reading loop: skipped while the offset lies beyond it, else copied. */
  lemma ReadOne(sector: Sector, data: seq<byte>, offset: nat, want: nat, out: seq<byte>, at: nat, skip: nat)
    requires Reading(data, offset, want, out, at, skip) && SectorHolds(sector, data, at) && |out| < want
    ensures skip >= 512 ==> Reading(data, offset, want, out, at + 512, skip - 512)
    ensures skip < 512 ==>
              var n := if 512 - skip <= want - |out| then 512 - skip else want - |out|;
              Reading(data, offset, want, out + sector[skip..skip + n], at + 512, 0)
  {
    if skip < 512 {
      var n := if 512 - skip <= want - |out| then 512 - skip else want - |out|;
      var from := offset + |out|;
      var part, wanted := sector[skip..skip + n], data[from..from + n];
      forall b | 0 <= b < n ensures part[b] == wanted[b] {
        assert sector[skip + b] == data[at + (skip + b)];
      }
      assert part == wanted;
      assert data[offset..from] + data[from..from + n] == data[offset..from + n];
    }
  }

  /** The sector loop of fat16_read_file for one cluster. */
  method ReadCluster(vol: Volume, c: nat, ghost base: nat, skip0: nat, want: nat, out0: seq<byte>, ghost data: seq<byte>, ghost offset: nat)
    returns (out: seq<byte>, skip: nat)
    requires vol.Valid() && 2 <= c < vol.g.limit && ClusterHolds(vol.V().clusters[c], data, base)
    requires Reading(data, offset, want, out0, base, skip0) && |out0| < want && skip0 < 512 * vol.g.sectorsPerCluster
    ensures Reading(data, offset, want, out, base + 512 * vol.g.sectorsPerCluster, skip)
    ensures |out| < want ==> skip == 0
  {
    out, skip := out0, skip0;
    var s := 0;
    ghost var at := base;
    while s < vol.g.sectorsPerCluster && |out| < want
      invariant 0 <= s <= vol.g.sectorsPerCluster && at == base + 512 * s
      invariant Reading(data, offset, want, out, at, skip)
      invariant skip == 0 || skip < 512 * (vol.g.sectorsPerCluster - s)
    {
      var sector := vol.ReadClusterSector(c, s);
      assert SectorAt(vol.V().clusters[c], data, base, s);
      ReadOne(sector, data, offset, want, out, at, skip);
      if skip >= 512 {
        skip := skip - 512;
      } else {
        var n := 512 - skip;
        if n > want - |out| {
          n := want - |out|;
        }
        out := out + sector[skip..skip + n];
        skip := 0;
      }
      s := s + 1;
      at := at + 512;
    }
  }

  /** Where a walk of the chain stands after j links. */
  ghost predicate WalkedTo(fat: seq<nat>, cs: seq<nat>, j: nat, cluster: nat) {
    j <= |cs| && if j < |cs| then cluster == cs[j] else cluster >= EOC
  }

  lemma WalkNext(fat: seq<nat>, limit: nat, cs: seq<nat>, j: nat)
    requires C.IsChain(fat, limit, cs) && j < |cs|
    ensures 2 <= cs[j] < limit && WalkedTo(fat, cs, j + 1, fat[cs[j]])
  {
    if j + 1 < |cs| {
      assert fat[cs[j]] == C.Link(cs, j);
    }
  }

  lemma BaseOrder(spc: nat, i: nat, j: nat)
    requires Base(spc, i) < Base(spc, j)
    ensures i < j
  {
    if j <= i {
      BaseGrows(spc, j, i);
    }
  }

  lemma {:induction false} BaseGrows(spc: nat, i: nat, j: nat)
    requires i <= j
    ensures Base(spc, i) <= Base(spc, j)
  {
    if i < j {
      BaseGrows(spc, i, j - 1);
    }
  }

  /**
   * fat16_read_file after its lookup: for a chain that holds the data, a read of n bytes at
   * any offset returns exactly data[offset..min(offset + n, size)].
   */
  method ReadChain(vol: Volume, first: nat, size: nat, offset: nat, n: nat, ghost cs: seq<nat>, ghost data: seq<byte>)
    returns (out: seq<byte>)
    requires vol.Valid() && C.IsChain(vol.V().fat, vol.g.limit, cs) && first == cs[0]
    requires ChainHolds(vol.V(), vol.g.sectorsPerCluster, cs, data) && |data| == size
    requires offset + n < 0x1_0000_0000
    ensures out == if offset >= size then [] else data[offset..Min(offset + n, size)]
  {
    if offset >= size {
      return [];
    }
    var want := if offset + n > size then size - offset else n;
    var count, skip := Locate(offset, vol.g.sectorsPerCluster);
    var cluster := SkipClusters(vol, first, count, cs, size);
    out := ReadFrom(vol, cluster, skip, want, cs, count, data, offset);
  }

  /** The cluster an offset falls in, and the offset inside it. */
  method Locate(offset: nat, spc: nat) returns (count: nat, skip: nat)
    requires spc >= 1
    ensures Base(spc, count) + skip == offset && skip < 512 * spc
  {
    LocateBounds(offset, spc, spc * 512);
    count, skip := offset / (spc * 512), offset % (spc * 512);
  }

  lemma LocateBounds(offset: nat, spc: nat, b: nat)
    requires spc >= 1 && b == spc * 512
    ensures 0 <= offset / b && 0 <= offset % b < b && Base(spc, offset / b) + offset % b == offset
  {
    DivBounds(offset, b);
    BaseIs(spc, offset / b);
    Substitute(offset / b, b, spc * 512);
  }

  lemma Substitute(n: nat, a: nat, b: nat)
    requires a == b
    ensures n * a == n * b
  {
  }

  /** One turn of it: read cluster j of the chain and follow its link. */
  method ReadStep(vol: Volume, c: nat, skip0: nat, want: nat, out0: seq<byte>, ghost v: Vol, ghost cs: seq<nat>,
                  ghost j: nat, ghost data: seq<byte>, ghost offset: nat)
    returns (out: seq<byte>, skip: nat, next: nat)
    requires vol.Valid() && v == vol.V()
    requires C.IsChain(v.fat, vol.g.limit, cs) && ChainHolds(v, vol.g.sectorsPerCluster, cs, data)
    requires j < |cs| && c == cs[j] && |out0| < want && skip0 < 512 * vol.g.sectorsPerCluster
    requires Reading(data, offset, want, out0, Base(vol.g.sectorsPerCluster, j), skip0)
    ensures WalkedTo(v.fat, cs, j + 1, next)
    ensures Reading(data, offset, want, out, Base(vol.g.sectorsPerCluster, j + 1), skip)
    ensures |out| < want ==> skip == 0
  {
    var spc := vol.g.sectorsPerCluster;
    WalkNext(v.fat, vol.g.limit, cs, j);
    assert ClusterAt(v, spc, cs, data, j);
    out, skip := ReadCluster(vol, c, Base(spc, j), skip0, want, out0, data, offset);
    next := vol.GetFatEntry(c);
  }

  /** The cluster loop of fat16_read_file, entered at cluster j of the chain. */
  method ReadFrom(vol: Volume, cluster0: nat, skip0: nat, want: nat, ghost cs: seq<nat>, ghost j0: nat,
                  ghost data: seq<byte>, ghost offset: nat)
    returns (out: seq<byte>)
    requires vol.Valid() && C.IsChain(vol.V().fat, vol.g.limit, cs) && ChainHolds(vol.V(), vol.g.sectorsPerCluster, cs, data)
    requires offset + want <= |data| && Base(vol.g.sectorsPerCluster, j0) + skip0 == offset && skip0 < 512 * vol.g.sectorsPerCluster
    requires WalkedTo(vol.V().fat, cs, j0, cluster0)
    ensures out == data[offset..offset + want]
  {
    ghost var v := vol.V();
    ghost var fat := v.fat;
    var spc := vol.g.sectorsPerCluster;
    var cluster: nat, skip: nat := cluster0, skip0;
    ghost var j: nat := j0;
    out := [];
    while 2 <= cluster < EOC && |out| < want
      invariant WalkedTo(fat, cs, j, cluster)
      invariant Reading(data, offset, want, out, Base(spc, j), skip)
      invariant |out| < want ==> skip < 512 * spc
      decreases |cs| - j
    {
      assert j < |cs|;
      out, skip, cluster := ReadStep(vol, cluster, skip, want, out, v, cs, j, data, offset);
      j := j + 1;
    }
    StillInside(fat, spc, cs, j, cluster, data, offset, want, out, skip);
    InRangeAt(fat, vol.g.limit, cs, j);
  }

  lemma InRangeAt(fat: seq<nat>, limit: nat, cs: seq<nat>, j: nat)
    requires C.IsChain(fat, limit, cs)
    ensures j < |cs| ==> 2 <= cs[j] < EOC
  {
  }

  /** While bytes are wanted the walk has not passed the end of the chain. */
  lemma StillInside(fat: seq<nat>, spc: nat, cs: seq<nat>, j: nat, cluster: nat,
                    data: seq<byte>, offset: nat, want: nat, out: seq<byte>, skip: nat)
    requires spc >= 1 && |data| <= Base(spc, |cs|) && WalkedTo(fat, cs, j, cluster)
    requires Reading(data, offset, want, out, Base(spc, j), skip)
    ensures |out| < want ==> j < |cs|
  {
    if |out| < want {
      BaseOrder(spc, j, |cs|);
    }
  }

  /** The skipping loop. */
  method SkipClusters(vol: Volume, first: nat, count: nat, ghost cs: seq<nat>, ghost size: nat)
    returns (cluster: nat)
    requires vol.Valid() && C.IsChain(vol.V().fat, vol.g.limit, cs) && first == cs[0]
    requires Base(vol.g.sectorsPerCluster, count) < size <= Base(vol.g.sectorsPerCluster, |cs|)
    ensures WalkedTo(vol.V().fat, cs, count, cluster)
  {
    BaseOrder(vol.g.sectorsPerCluster, count, |cs|);
    cluster := first;
    var i := 0;
    while i < count
      invariant 0 <= i <= count && WalkedTo(vol.V().fat, cs, i, cluster)
    {
      WalkNext(vol.V().fat, vol.g.limit, cs, i);
      cluster := vol.GetFatEntry(cluster);
      i := i + 1;
    }
  }

  // ---------- freeing ----------

  /** Every entry is an end mark or names an entry of the FAT. */
  ghost predicate Closed(fat: seq<nat>) {
    forall c :: 2 <= c < |fat| ==> fat[c] < |fat| || fat[c] >= EOC
  }

  ghost function InUse(fat: seq<nat>): set<nat> {
    set c: nat | 2 <= c < |fat| && fat[c] != FREE
  }

  lemma InUseShrinks(fat: seq<nat>, c: nat)
    requires 2 <= c < |fat|
    ensures fat[c] != FREE ==> |InUse(fat[c := FREE])| < |InUse(fat)|
    ensures fat[c] == FREE ==> fat[c := FREE] == fat
  {
    if fat[c] != FREE {
      assert InUse(fat[c := FREE]) == InUse(fat) - {c};
      assert c in InUse(fat);
    }
  }

  /** fat is before with the first j clusters of cs freed. */
  ghost predicate FreedTo(before: seq<nat>, fat: seq<nat>, cs: seq<nat>, j: nat) {
    && |fat| == |before| && j <= |cs|
    && (forall c :: 0 <= c < |fat| ==> fat[c] == if c in cs[..j] then FREE else before[c])
  }

  lemma FreedNext(before: seq<nat>, fat: seq<nat>, limit: nat, cs: seq<nat>, j: nat)
    requires C.IsChain(before, limit, cs) && FreedTo(before, fat, cs, j) && j < |cs|
    ensures 2 <= cs[j] < |fat| && fat[cs[j]] == before[cs[j]]
    ensures FreedTo(before, fat[cs[j] := FREE], cs, j + 1)
  {
    assert cs[..j + 1] == cs[..j] + [cs[j]];
    assert forall i :: 0 <= i < j ==> cs[..j][i] == cs[i] && cs[i] != cs[j];
  }

  /**
   * The freeing loop of fat16_delete_file.  It ends on every FAT whose entries stay inside
   * it, even a cyclic one, because it meets its own freed entries; it only frees; and on
   * a chain it frees exactly that chain.
   */
  method FreeChain(vol: Volume, first: nat, ghost cs: seq<nat>)
    requires vol.Valid() && Closed(vol.V().fat) && first < vol.g.Entries()
    modifies vol`disk
    ensures vol.Valid() && vol.V() == old(vol.V()).(fat := vol.V().fat)
    ensures forall c :: 0 <= c < vol.g.Entries() ==> vol.V().fat[c] == FREE || vol.V().fat[c] == old(vol.V()).fat[c]
    ensures C.IsChain(old(vol.V()).fat, vol.g.limit, cs) && cs[0] == first ==> C.Freed(old(vol.V()).fat, vol.V().fat, cs)
  {
    ghost var v0 := vol.V();
    ghost var j: nat := 0;
    var curr: nat := first;
    while 2 <= curr < EOC
      invariant vol.Valid() && vol.V() == v0.(fat := vol.V().fat)
      invariant Freeing(v0.fat, vol.V().fat, vol.g.limit, cs, first, j, curr)
      decreases |InUse(vol.V().fat)| + (if 2 <= curr < EOC then 1 else 0)
    {
      ghost var fat := vol.V().fat;
      FreeOne(v0.fat, fat, vol.g.limit, cs, first, j, curr);
      var next := vol.GetFatEntry(curr);
      vol.SetFatEntry(curr, FREE);
      curr := next;
      j := j + 1;
    }
    AllFreed(v0.fat, vol.V().fat, vol.g.limit, cs, first, j, curr);
  }

  /** The freeing loop after j turns, with `curr` next. */
  ghost predicate Freeing(before: seq<nat>, fat: seq<nat>, limit: nat, cs: seq<nat>, first: nat, j: nat, curr: nat) {
    && Closed(before) && OnlyFrees(before, fat)
    && (curr < |fat| || curr >= EOC)
    && (C.IsChain(before, limit, cs) && cs[0] == first ==> FreedTo(before, fat, cs, j) && WalkedTo(before, cs, j, curr))
  }

  lemma FreeOne(before: seq<nat>, fat: seq<nat>, limit: nat, cs: seq<nat>, first: nat, j: nat, curr: nat)
    requires Freeing(before, fat, limit, cs, first, j, curr) && 2 <= curr < EOC
    ensures Freeing(before, fat[curr := FREE], limit, cs, first, j + 1, fat[curr])
    ensures |InUse(fat[curr := FREE])| + (if 2 <= fat[curr] < EOC then 1 else 0) < |InUse(fat)| + 1
  {
    InUseShrinks(fat, curr);
    FreesOne(before, fat, curr);
    if C.IsChain(before, limit, cs) && cs[0] == first {
      FreedNext(before, fat, limit, cs, j);
      WalkNext(before, limit, cs, j);
    }
  }

  lemma AllFreed(before: seq<nat>, fat: seq<nat>, limit: nat, cs: seq<nat>, first: nat, j: nat, curr: nat)
    requires Freeing(before, fat, limit, cs, first, j, curr) && !(2 <= curr < EOC)
    ensures C.IsChain(before, limit, cs) && cs[0] == first ==> C.Freed(before, fat, cs)
    ensures OnlyFrees(before, fat)
  {
    if C.IsChain(before, limit, cs) && cs[0] == first {
      assert j == |cs| && cs[..j] == cs;
    }
  }

  ghost predicate OnlyFrees(before: seq<nat>, fat: seq<nat>) {
    |fat| == |before| && forall c :: 0 <= c < |fat| ==> fat[c] == FREE || fat[c] == before[c]
  }

  lemma FreesOne(before: seq<nat>, fat: seq<nat>, c: nat)
    requires Closed(before) && OnlyFrees(before, fat) && 2 <= c < |fat|
    ensures OnlyFrees(before, fat[c := FREE])
    ensures fat[c] < |fat| || fat[c] >= EOC
  {
  }
}
