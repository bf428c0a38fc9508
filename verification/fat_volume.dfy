/**
 * Whole-file operations in a directory: what fat16_write_file, fat16_read_file and
 * fat16_delete_file do to the map from names to contents, and fat16_vfs_write, which is
 * built from the three.
 */
module FatVolume {
  import opened Common
  import opened FatConst
  import opened Bytes
  import opened FatNames
  import opened FatDir
  import opened FatDirUpdate
  import opened FatDirTheorems
  import opened FatDisk
  import opened FatDirIo
  import opened FatDirWrite
  import opened FatFiles
  import C = FatChain

  /** The directory is well formed and, unless it is the root, occupies one cluster. */
  ghost predicate DirOk(g: Geometry, v: Vol, dir: nat) {
    && Shaped(g, v) && IsDir(g, dir) && 2 <= g.limit <= g.Entries() && g.limit <= EOC && g.sectorsPerCluster >= 1
    && WellFormed(DirSlots(v, dir))
    && (dir != 0 ==> v.fat[dir] >= EOC)
    && Closed(v.fat)
  }

  /** The directory has a file under the name: a scan for the name ends at entry h, whose
      chain cs holds the data. */
  ghost predicate Stores(g: Geometry, v: Vol, dir: nat, name: seq<byte>, h: Hit, cs: seq<nat>, data: seq<byte>) {
    && DirOk(g, v, dir)
    && Lookup(DirSlots(v, dir), name, Any) == Some(h) && h.slot < |DirSlots(v, dir)|
    && !IsDirSlot(DirSlots(v, dir)[h.slot])
    && ChainOf(g, v, dir, DirSlots(v, dir)[h.slot], cs, data)
  }

  /** The entry's chain is cs, apart from the directory, and holds the data. */
  ghost predicate ChainOf(g: Geometry, v: Vol, dir: nat, s: Slot, cs: seq<nat>, data: seq<byte>) {
    && C.IsChain(v.fat, g.limit, cs) && dir !in cs
    && ClusterOf(s) == cs[0] && SizeOf(s) == |data|
    && ChainHolds(v, g.sectorsPerCluster, cs, data)
  }

  // ---------- frames ----------

  lemma ChainApart(v: Vol, v': Vol, limit: nat, spc: nat, cs: seq<nat>, data: seq<byte>)
    requires C.IsChain(v'.fat, limit, cs) && ChainHolds(v, spc, cs, data) && |v'.clusters| == |v.clusters|
    requires forall i :: 0 <= i < |cs| ==> cs[i] < |v.clusters| && v'.clusters[cs[i]] == v.clusters[cs[i]]
    ensures ChainHolds(v', spc, cs, data)
  {
    forall i: nat | i < |cs| ensures ClusterAt(v', spc, cs, data, i) {
      assert ClusterAt(v, spc, cs, data, i);
    }
  }

  /** Writing the chain of a new file touches neither the directory ... */
  lemma WritingSparesDir(g: Geometry, v: Vol, v': Vol, dir: nat, cs: seq<nat>, data: seq<byte>, written: nat)
    requires DirOk(g, v, dir) && Filling(g, v, v', cs, data, written, 0)
    ensures dir !in cs && DirOf(v', dir) == DirOf(v, dir) && (dir != 0 ==> v'.fat[dir] == v.fat[dir])
  {
    C.AllFreeMeans(v.fat, cs);
  }

  /** ... nor the chain of any other file. */
  lemma WritingSparesChain(g: Geometry, v: Vol, v': Vol, cs: seq<nat>, data: seq<byte>, written: nat,
                           other: seq<nat>, otherData: seq<byte>)
    requires Filling(g, v, v', cs, data, written, 0)
    requires C.IsChain(v.fat, g.limit, other) && ChainHolds(v, g.sectorsPerCluster, other, otherData)
    ensures C.IsChain(v'.fat, g.limit, other) && ChainHolds(v', g.sectorsPerCluster, other, otherData)
  {
    C.AllocKeepsChain(v.fat, v'.fat, g.limit, cs, other);
    forall i | 0 <= i < |other| ensures other[i] < g.limit && v'.clusters[other[i]] == v.clusters[other[i]] {
      assert other[i] in other;
    }
    ChainApart(v, v', g.limit, g.sectorsPerCluster, other, otherData);
  }

  /** A change of the directory's sectors touches no chain apart from it. */
  lemma DirChangeSparesChain(g: Geometry, v: Vol, v': Vol, dir: nat, slots: Slots, cs: seq<nat>, data: seq<byte>)
    requires Shaped(g, v) && dir < |v.clusters| && OnlyDirChanged(v, v', dir, slots)
    requires C.IsChain(v.fat, g.limit, cs) && ChainHolds(v, g.sectorsPerCluster, cs, data) && dir !in cs
    ensures C.IsChain(v'.fat, g.limit, cs) && ChainHolds(v', g.sectorsPerCluster, cs, data)
  {
    forall i | 0 <= i < |cs| ensures cs[i] != dir {
      assert cs[i] in cs;
    }
    ChainApart(v, v', g.limit, g.sectorsPerCluster, cs, data);
  }

  lemma DirChanged(g: Geometry, v: Vol, v': Vol, dir: nat, slots: Slots)
    requires Shaped(g, v) && IsDir(g, dir) && 2 <= g.limit && OnlyDirChanged(v, v', dir, slots)
    ensures Shaped(g, v') && DirSlots(v', dir) == slots && v'.fat == v.fat
  {
  }

  lemma WritingKeepsClosed(g: Geometry, v: Vol, v': Vol, cs: seq<nat>, data: seq<byte>, written: nat)
    requires Filling(g, v, v', cs, data, written, 0) && Closed(v.fat)
    ensures Closed(v'.fat)
  {
    forall c | 2 <= c < |v'.fat| ensures v'.fat[c] < |v'.fat| || v'.fat[c] >= EOC {
      if c in cs {
        var i :| 0 <= i < |cs| && cs[i] == c;
        assert v'.fat[cs[i]] == C.Link(cs, i);
      }
    }
  }

  lemma WrittenHolds(g: Geometry, v: Vol, v': Vol, cs: seq<nat>, data: seq<byte>)
    requires Filling(g, v, v', cs, data, Filled(cs, data), 0) && g.sectorsPerCluster >= 1
    requires |cs| == ClustersNeeded(|data|, g.sectorsPerCluster)
    ensures C.IsChain(v'.fat, g.limit, cs) && ChainHolds(v', g.sectorsPerCluster, cs, data)
  {
    NeededCovers(|data|, g.sectorsPerCluster);
    C.LinkedIsChain(v.fat, v'.fat, g.limit, cs);
    if data == [] {
      NothingToHold(v', g.sectorsPerCluster, cs);
    }
  }

  /** Any clusters hold an empty file. */
  lemma NothingToHold(v: Vol, spc: nat, cs: seq<nat>)
    requires forall i :: 0 <= i < |cs| ==> cs[i] < |v.clusters| && |v.clusters[cs[i]]| == spc
    ensures HoldsTo(v, spc, cs, [], |cs|)
  {
    forall i: nat | i < |cs| ensures ClusterAt(v, spc, cs, [], i) {
      forall s: nat | s < |v.clusters[cs[i]]| ensures SectorAt(v.clusters[cs[i]], [], Base(spc, i), s) {
      }
    }
  }

  // ---------- fat16_write_file ----------

  /** What fat16_write_file does when the directory has room: it writes the chain of the
      data, which takes the volume from v to vm, then adds the entry at the first fit, which no
      orphaned long name stands right before. */
  ghost predicate Wrote(g: Geometry, v: Vol, vm: Vol, v': Vol, dir: nat, name: seq<byte>, cs: seq<nat>, data: seq<byte>, p: nat)
    requires IsName(name)
  {
    && DirOk(g, v, dir) && |data| < 0x1_0000_0000
    && |cs| == ClustersNeeded(|data|, g.sectorsPerCluster)
    && FitsAt(DirSlots(v, dir), p, LfnCount(name) + 1)
    && Filling(g, v, vm, cs, data, Filled(cs, data), 0)
    && OnlyDirChanged(vm, v', dir, Added(DirSlots(v, dir), p, name, ATTR_FILE, cs[0], |data|))
  }

  /** The directory after a write, visible or not. */
  lemma WroteSlots(g: Geometry, v: Vol, vm: Vol, v': Vol, dir: nat, name: seq<byte>, cs: seq<nat>, data: seq<byte>, p: nat)
    requires IsName(name) && Wrote(g, v, vm, v', dir, name, cs, data, p)
    ensures Shaped(g, v') && Closed(v'.fat) && v'.fat == vm.fat && dir !in cs && (dir != 0 ==> v'.fat[dir] >= EOC)
    ensures DirSlots(v', dir) == Added(DirSlots(v, dir), p, name, ATTR_FILE, cs[0], |data|)
  {
    WritingSparesDir(g, v, vm, dir, cs, data, Filled(cs, data));
    WritingKeepsClosed(g, v, vm, cs, data, Filled(cs, data));
    DirChanged(g, vm, v', dir, Added(DirSlots(v, dir), p, name, ATTR_FILE, cs[0], |data|));
  }

  lemma WroteDir(g: Geometry, v: Vol, vm: Vol, v': Vol, dir: nat, name: seq<byte>, cs: seq<nat>, data: seq<byte>, p: nat)
    requires IsName(name) && Wrote(g, v, vm, v', dir, name, cs, data, p)
    ensures DirOk(g, v', dir) && dir !in cs
    ensures DirSlots(v', dir) == Added(DirSlots(v, dir), p, name, ATTR_FILE, cs[0], |data|)
  {
    WroteSlots(g, v, vm, v', dir, name, cs, data, p);
    AddKeepsWellFormed(DirSlots(v, dir), p, name, ATTR_FILE, cs[0], |data|);
  }

  /**
   * After a write under a visible name, each name that answers to it and led nowhere leads to the
   * new entry, whose chain holds exactly the data.
   */
  lemma WroteStores(g: Geometry, v: Vol, vm: Vol, v': Vol, dir: nat, name: seq<byte>, cs: seq<nat>, data: seq<byte>, p: nat, target: seq<byte>)
    requires IsName(name) && Visible(name) && Wrote(g, v, vm, v', dir, name, cs, data, p)
    requires SameName(name, target) && Lookup(DirSlots(v, dir), target, Any).None?
    ensures Stores(g, v', dir, target, Hit(p, p + LfnCount(name)), cs, data)
  {
    WroteDir(g, v, vm, v', dir, name, cs, data, p);
    NewlyFound(DirSlots(v, dir), p, name, cs[0], |data|, target, DirSlots(v', dir));
    EntryStores(g, v, vm, v', dir, name, cs, data, p, target, DirSlots(v', dir));
  }

  /** Once a name resolves to the new entry, it has the data. */
  lemma EntryStores(g: Geometry, v: Vol, vm: Vol, v': Vol, dir: nat, name: seq<byte>, cs: seq<nat>, data: seq<byte>, p: nat, target: seq<byte>, a: Slots)
    requires IsName(name) && Wrote(g, v, vm, v', dir, name, cs, data, p) && DirOk(g, v', dir)
    requires a == DirSlots(v', dir) == Added(DirSlots(v, dir), p, name, ATTR_FILE, cs[0], |data|)
    requires Lookup(a, target, Any) == Some(Hit(p, p + LfnCount(name)))
    ensures Stores(g, v', dir, target, Hit(p, p + LfnCount(name)), cs, data)
  {
    NewSlotReadsBack(DirSlots(v, dir), p, name, cs[0], |data|, a);
    NewChainHolds(g, v, vm, v', dir, name, cs, data, p);
  }

  lemma NewlyFound(slots: Slots, p: nat, name: seq<byte>, cluster: nat, size: nat, target: seq<byte>, a: Slots)
    requires IsName(name) && Visible(name) && SameName(name, target) && IsEntry(ATTR_FILE, cluster, size)
    requires WellFormed(slots) && FitsAt(slots, p, LfnCount(name) + 1) && Lookup(slots, target, Any).None?
    requires a == Added(slots, p, name, ATTR_FILE, cluster, size)
    ensures Lookup(a, target, Any) == Some(Hit(p, p + LfnCount(name)))
  {
    LookupAfterAdd(slots, p, name, ATTR_FILE, cluster, size, target, Any);
  }

  /** Every file under a name the new entry does not answer keeps its entry and contents. */
  lemma WroteKeeps(g: Geometry, v: Vol, vm: Vol, v': Vol, dir: nat, name: seq<byte>, cs: seq<nat>, data: seq<byte>, p: nat,
                   other: seq<byte>, h: Hit, otherCs: seq<nat>, otherData: seq<byte>)
    requires IsName(name) && Wrote(g, v, vm, v', dir, name, cs, data, p)
    requires Stores(g, v, dir, other, h, otherCs, otherData) && !SameName(name, other)
    ensures Stores(g, v', dir, other, h, otherCs, otherData)
  {
    WroteDir(g, v, vm, v', dir, name, cs, data, p);
    OldChainStays(g, v, vm, v', dir, name, cs, data, p, otherCs, otherData);
    EntryKept(DirSlots(v, dir), p, name, cs[0], |data|, other, h);
  }

  /**
   * A write under a name that a file answers to already adds a second entry: afterwards each such
   * name resolves to the new file if the new entry stands before the old one, and to the old file,
   * as it was, if not.
   */
  lemma WroteAgain(g: Geometry, v: Vol, vm: Vol, v': Vol, dir: nat, name: seq<byte>, cs: seq<nat>, data: seq<byte>, p: nat,
                   target: seq<byte>, h: Hit, oldCs: seq<nat>, oldData: seq<byte>)
    requires IsName(name) && Visible(name) && Wrote(g, v, vm, v', dir, name, cs, data, p)
    requires SameName(name, target) && Stores(g, v, dir, target, h, oldCs, oldData)
    ensures if h.slot < p then Stores(g, v', dir, target, h, oldCs, oldData)
            else Stores(g, v', dir, target, Hit(p, p + LfnCount(name)), cs, data)
  {
    if h.slot < p {
      OldStillFound(g, v, vm, v', dir, name, cs, data, p, target, h, oldCs, oldData);
    } else {
      NewIsFound(g, v, vm, v', dir, name, cs, data, p, target, h);
    }
  }

  lemma OldStillFound(g: Geometry, v: Vol, vm: Vol, v': Vol, dir: nat, name: seq<byte>, cs: seq<nat>, data: seq<byte>, p: nat,
                      target: seq<byte>, h: Hit, oldCs: seq<nat>, oldData: seq<byte>)
    requires IsName(name) && Visible(name) && Wrote(g, v, vm, v', dir, name, cs, data, p)
    requires SameName(name, target) && Stores(g, v, dir, target, h, oldCs, oldData) && h.slot < p
    ensures Stores(g, v', dir, target, h, oldCs, oldData)
  {
    WroteDir(g, v, vm, v', dir, name, cs, data, p);
    FoundFirst(DirSlots(v, dir), p, name, cs[0], |data|, target, h, DirSlots(v', dir));
    OldSlotStays(DirSlots(v, dir), p, name, cs[0], |data|, h, DirSlots(v', dir));
    OldChainStays(g, v, vm, v', dir, name, cs, data, p, oldCs, oldData);
  }

  lemma NewIsFound(g: Geometry, v: Vol, vm: Vol, v': Vol, dir: nat, name: seq<byte>, cs: seq<nat>, data: seq<byte>, p: nat, target: seq<byte>, h: Hit)
    requires IsName(name) && Visible(name) && Wrote(g, v, vm, v', dir, name, cs, data, p)
    requires SameName(name, target) && Lookup(DirSlots(v, dir), target, Any) == Some(h) && h.slot >= p
    ensures Stores(g, v', dir, target, Hit(p, p + LfnCount(name)), cs, data)
  {
    WroteDir(g, v, vm, v', dir, name, cs, data, p);
    FoundFirst(DirSlots(v, dir), p, name, cs[0], |data|, target, h, DirSlots(v', dir));
    EntryStores(g, v, vm, v', dir, name, cs, data, p, target, DirSlots(v', dir));
  }

  lemma FoundFirst(slots: Slots, p: nat, name: seq<byte>, cluster: nat, size: nat, target: seq<byte>, h: Hit, a: Slots)
    requires IsName(name) && Visible(name) && SameName(name, target) && IsEntry(ATTR_FILE, cluster, size)
    requires WellFormed(slots) && FitsAt(slots, p, LfnCount(name) + 1) && Lookup(slots, target, Any) == Some(h)
    requires a == Added(slots, p, name, ATTR_FILE, cluster, size)
    ensures Lookup(a, target, Any) == Some(if h.slot < p then h else Hit(p, p + LfnCount(name)))
  {
    AddAgain(slots, p, name, ATTR_FILE, cluster, size, target, Any, h);
  }

  lemma OldSlotStays(slots: Slots, p: nat, name: seq<byte>, cluster: nat, size: nat, h: Hit, a: Slots)
    requires IsName(name) && IsEntry(ATTR_FILE, cluster, size)
    requires FitsAt(slots, p, LfnCount(name) + 1) && h.slot < p
    requires a == Added(slots, p, name, ATTR_FILE, cluster, size)
    ensures h.slot < |a| == |slots| && a[h.slot] == slots[h.slot]
  {
    AddedShape(slots, p, name, ATTR_FILE, cluster, size);
    SameOutside(slots, a, p, LfnCount(name) + 1);
  }

  lemma NewSlotReadsBack(slots: Slots, p: nat, name: seq<byte>, cluster: nat, size: nat, a: Slots)
    requires IsName(name) && IsEntry(ATTR_FILE, cluster, size)
    requires FitsAt(slots, p, LfnCount(name) + 1) && a == Added(slots, p, name, ATTR_FILE, cluster, size)
    ensures p + LfnCount(name) < |a|
    ensures var s := a[p + LfnCount(name)]; !IsDirSlot(s) && ClusterOf(s) == cluster && SizeOf(s) == size
  {
    AddedShape(slots, p, name, ATTR_FILE, cluster, size);
    EntryReadsBack(ShortName(name), ATTR_FILE, cluster, size);
  }

  /** The chain of a new file holds its data when the entry is there as well ... */
  lemma NewChainHolds(g: Geometry, v: Vol, vm: Vol, v': Vol, dir: nat, name: seq<byte>, cs: seq<nat>, data: seq<byte>, p: nat)
    requires IsName(name) && Wrote(g, v, vm, v', dir, name, cs, data, p)
    ensures C.IsChain(v'.fat, g.limit, cs) && ChainHolds(v', g.sectorsPerCluster, cs, data) && dir !in cs
  {
    WroteDir(g, v, vm, v', dir, name, cs, data, p);
    WrittenHolds(g, v, vm, cs, data);
    DirChangeSparesChain(g, vm, v', dir, DirSlots(v', dir), cs, data);
  }

  /** ... and so does every chain there was. */
  lemma OldChainStays(g: Geometry, v: Vol, vm: Vol, v': Vol, dir: nat, name: seq<byte>, cs: seq<nat>, data: seq<byte>, p: nat,
                      other: seq<nat>, otherData: seq<byte>)
    requires IsName(name) && Wrote(g, v, vm, v', dir, name, cs, data, p)
    requires C.IsChain(v.fat, g.limit, other) && ChainHolds(v, g.sectorsPerCluster, other, otherData) && dir !in other
    ensures C.IsChain(v'.fat, g.limit, other) && ChainHolds(v', g.sectorsPerCluster, other, otherData)
  {
    WroteSlots(g, v, vm, v', dir, name, cs, data, p);
    WritingSparesChain(g, v, vm, cs, data, Filled(cs, data), other, otherData);
    DirChangeSparesChain(g, vm, v', dir, DirSlots(v', dir), other, otherData);
  }

  lemma EntryKept(slots: Slots, p: nat, name: seq<byte>, cluster: nat, size: nat, other: seq<byte>, h: Hit)
    requires IsName(name) && IsEntry(ATTR_FILE, cluster, size)
    requires WellFormed(slots) && FitsAt(slots, p, LfnCount(name) + 1)
    requires Lookup(slots, other, Any) == Some(h) && !SameName(name, other)
    ensures var added := Added(slots, p, name, ATTR_FILE, cluster, size);
            Lookup(added, other, Any) == Some(h) && h.slot < |slots| && added[h.slot] == slots[h.slot]
  {
    LookupAfterAdd(slots, p, name, ATTR_FILE, cluster, size, other, Any);
    HitIsEntry(slots, 0, Clean, other, Any);
    AddedShape(slots, p, name, ATTR_FILE, cluster, size);
    SameOutside(slots, Added(slots, p, name, ATTR_FILE, cluster, size), p, LfnCount(name) + 1);
  }

  // ---------- fat16_delete_file ----------

  /** What fat16_delete_file does to the file at entry h: it marks the entry, which takes the
      volume from v to vm, then frees the chain. */
  ghost predicate Deleted(g: Geometry, v: Vol, vm: Vol, v': Vol, dir: nat, h: Hit, cs: seq<nat>) {
    && DirOk(g, v, dir) && ValidHit(DirSlots(v, dir), h)
    && OnlyDirChanged(v, vm, dir, Marked(DirSlots(v, dir), h.start, h.slot))
    && v' == vm.(fat := v'.fat) && C.Freed(vm.fat, v'.fat, cs)
  }

  lemma DeletedSlots(g: Geometry, v: Vol, vm: Vol, v': Vol, dir: nat, h: Hit, cs: seq<nat>)
    requires Deleted(g, v, vm, v', dir, h, cs)
    ensures Shaped(g, v') && vm.fat == v.fat && C.Freed(v.fat, v'.fat, cs)
    ensures DirSlots(v', dir) == Marked(DirSlots(v, dir), h.start, h.slot)
  {
    DirChanged(g, v, vm, dir, Marked(DirSlots(v, dir), h.start, h.slot));
    assert DirOf(v', dir) == DirOf(vm, dir);
  }

  lemma FreedStaysClosed(fat: seq<nat>, fat': seq<nat>, cs: seq<nat>)
    requires Closed(fat) && C.Freed(fat, fat', cs) && |fat| > 0
    ensures Closed(fat')
  {
  }

  lemma DeletedDir(g: Geometry, v: Vol, vm: Vol, v': Vol, dir: nat, h: Hit, cs: seq<nat>)
    requires Deleted(g, v, vm, v', dir, h, cs) && dir !in cs
    ensures DirOk(g, v', dir)
  {
    DeletedSlots(g, v, vm, v', dir, h, cs);
    DeleteKeepsWellFormed(DirSlots(v, dir), h);
    FreedStaysClosed(v.fat, v'.fat, cs);
  }

  /** The other files of the directory survive a deletion. */
  lemma DeletedKeeps(g: Geometry, v: Vol, vm: Vol, v': Vol, dir: nat, h: Hit, cs: seq<nat>,
                     other: seq<byte>, oh: Hit, otherCs: seq<nat>, otherData: seq<byte>)
    requires Deleted(g, v, vm, v', dir, h, cs) && dir !in cs
    requires Stores(g, v, dir, other, oh, otherCs, otherData) && oh != h && C.Disjoint(otherCs, cs)
    ensures Stores(g, v', dir, other, oh, otherCs, otherData)
  {
    DeletedDir(g, v, vm, v', dir, h, cs);
    DeletedSlots(g, v, vm, v', dir, h, cs);
    LookupAfterDelete(DirSlots(v, dir), h, other, Any);
    OtherEntryOutside(DirSlots(v, dir), h, other, oh);
    DirChangeSparesChain(g, v, vm, dir, Marked(DirSlots(v, dir), h.start, h.slot), otherCs, otherData);
    C.FreeKeepsChain(vm.fat, v'.fat, g.limit, cs, otherCs);
    ChainApart(vm, v', g.limit, g.sectorsPerCluster, otherCs, otherData);
  }

  lemma OtherEntryOutside(slots: Slots, h: Hit, other: seq<byte>, oh: Hit)
    requires WellFormed(slots) && ValidHit(slots, h) && Lookup(slots, other, Any) == Some(oh) && oh != h
    ensures oh.slot < |slots| && Marked(slots, h.start, h.slot)[oh.slot] == slots[oh.slot]
  {
    HitIsEntry(slots, 0, Clean, other, Any);
    SameSlotSameEntry(slots, h, oh);
  }

  lemma NotStartingBefore(slots: Slots, a: Hit, b: Hit)
    requires ValidHit(slots, a) && ValidHit(slots, b) && a.slot == b.slot
    ensures a.start >= b.start
  {
    if a.start < b.start {
      LongAt(slots, a, b.start - 1);
    }
  }

  lemma LongAt(slots: Slots, h: Hit, i: nat)
    requires ValidHit(slots, h) && h.start <= i < h.slot
    ensures !Free(slots[i]) && IsLfn(slots[i])
  {
  }

  /** Two entries ending at the same slot are the same entry. */
  lemma StartUnique(slots: Slots, a: Hit, b: Hit)
    requires ValidHit(slots, a) && ValidHit(slots, b) && a.slot == b.slot
    ensures a == b
  {
    NotStartingBefore(slots, a, b);
    NotStartingBefore(slots, b, a);
  }

  lemma SameSlotSameEntry(slots: Slots, a: Hit, b: Hit)
    requires ValidHit(slots, a) && ValidHit(slots, b) && a != b
    ensures b.slot < a.start || a.slot < b.slot
  {
    if a.slot == b.slot {
      StartUnique(slots, a, b);
    }
  }
}
