/**
 * Who owns the cluster chains: the entries on disk, over all usable directories.
 *
 * `chains` has the chain of each entry by its first cluster.  It is sound when the chains are
 * acyclic, end-marked and disjoint, every entry but "." and ".." has one of them to itself, and the
 * directories' own clusters are among them.
 */
module FatOwned {
  import opened Common
  import opened FatConst
  import opened Bytes
  import opened FatNames
  import opened FatDir
  import opened FatDirUpdate
  import opened FatDirTheorems
  import opened FatDisk
  import opened FatDirIo
  import opened FatFiles
  import opened FatVolume
  import opened PathText
  import opened FatChdir
  import C = FatChain

  // ---------- entries in a directory ----------

  predicate Live(s: Slot) { !Free(s) && !IsLfn(s) }

  predicate Dot(s: Slot, t: Token) { Live(s) && IsDirSlot(s) && s[..11] == Format83(t) }

  /** A directory below the root begins with its own entry and its parent's. */
  predicate DotsFirst(slots: Slots, d: nat) {
    d != 0 ==> |slots| >= 2 && Dot(slots[0], Here) && Dot(slots[1], Up)
  }

  /** Slot i of directory d is an entry with a chain of its own. */
  predicate OwnsIn(slots: Slots, d: nat, i: nat) {
    i < |slots| && (d != 0 ==> 2 <= i) && Live(slots[i])
  }

  /** An entry that owns something after the change is one that did before. */
  predicate KeptIn(slots: Slots, slots': Slots, d: nat, i: nat) {
    OwnsIn(slots', d, i) ==> OwnsIn(slots, d, i) && slots'[i] == slots[i]
  }

  predicate StaysIn(slots: Slots, slots': Slots, d: nat, i: nat) {
    OwnsIn(slots, d, i) ==> OwnsIn(slots', d, i) && slots'[i] == slots[i]
  }

  /** Entry q is new and all others are as they were. */
  ghost predicate Gains(slots: Slots, slots': Slots, d: nat, q: nat, first: nat, isDir: bool) {
    && OwnsIn(slots', d, q) && !OwnsIn(slots, d, q) && ClusterOf(slots'[q]) == first && (IsDirSlot(slots'[q]) <==> isDir)
    && (forall i: nat {:trigger KeptIn(slots, slots', d, i)} :: i != q ==> KeptIn(slots, slots', d, i))
    && (forall i: nat {:trigger StaysIn(slots, slots', d, i)} :: StaysIn(slots, slots', d, i))
    && (DotsFirst(slots, d) ==> DotsFirst(slots', d))
  }

  /** Entry q, or none, is gone and all others are as they were. */
  ghost predicate Drops(slots: Slots, slots': Slots, d: nat, q: Option<nat>) {
    && (q.Some? ==> !OwnsIn(slots', d, q.value))
    && (forall i: nat {:trigger KeptIn(slots, slots', d, i)} :: KeptIn(slots, slots', d, i))
    && (forall i: nat {:trigger StaysIn(slots, slots', d, i)} :: q != Some(i) ==> StaysIn(slots, slots', d, i))
    && (DotsFirst(slots, d) ==> DotsFirst(slots', d))
  }

  /** The free run of an addition lies behind the first two entries. */
  lemma RunBehindDots(slots: Slots, d: nat, p: nat, n: nat)
    requires DotsFirst(slots, d) && FreeRun(slots, p, n) && n > 0
    ensures d != 0 ==> p >= 2
  {
    assert Free(slots[p]);
  }

  lemma AddedGains(slots: Slots, a: Slots, d: nat, p: nat, q: nat, name: seq<byte>, attributes: nat, cluster: nat, size: nat)
    requires IsName(name) && IsEntry(attributes, cluster, size) && Visible(name) && DotsFirst(slots, d)
    requires FitsAt(slots, p, LfnCount(name) + 1) && a == Added(slots, p, name, attributes, cluster, size)
    requires q == p + LfnCount(name) && (attributes == ATTR_FILE || attributes == ATTR_DIR)
    ensures Gains(slots, a, d, q, cluster, attributes == ATTR_DIR)
  {
    AddedShape(slots, p, name, attributes, cluster, size);
    SameOutside(slots, a, p, LfnCount(name) + 1);
    RunLooks(a, p, name, attributes, cluster, size);
    RunBehindDots(slots, d, p, LfnCount(name) + 1);
    RunGains(slots, a, d, p, q);
    NewSlotKind(a[q], name, attributes, cluster, size);
  }

  lemma NewSlotKind(s: Slot, name: seq<byte>, attributes: nat, cluster: nat, size: nat)
    requires IsName(name) && IsEntry(attributes, cluster, size) && s == EntrySlot(ShortName(name), attributes, cluster, size)
    requires attributes == ATTR_FILE || attributes == ATTR_DIR
    ensures ClusterOf(s) == cluster && (IsDirSlot(s) <==> attributes == ATTR_DIR)
  {
    EntryReadsBack(ShortName(name), attributes, cluster, size);
  }

  /** A free run that becomes long-name slots and an entry. */
  lemma RunGains(slots: Slots, a: Slots, d: nat, p: nat, q: nat)
    requires p <= q < |slots| == |a| && (d != 0 ==> p >= 2)
    requires forall i :: p <= i <= q ==> Free(slots[i])
    requires forall i :: p <= i < q ==> IsLfn(a[i])
    requires forall i :: 0 <= i < p ==> a[i] == slots[i]
    requires forall i :: q < i < |a| ==> a[i] == slots[i]
    requires !Free(a[q]) && !IsLfn(a[q])
    ensures OwnsIn(a, d, q) && !OwnsIn(slots, d, q)
    ensures forall i: nat {:trigger KeptIn(slots, a, d, i)} :: i != q ==> KeptIn(slots, a, d, i)
    ensures forall i: nat {:trigger StaysIn(slots, a, d, i)} :: StaysIn(slots, a, d, i)
  {
    forall i: nat | i != q ensures KeptIn(slots, a, d, i) {
    }
    forall i: nat ensures StaysIn(slots, a, d, i) {
    }
  }

  /** An invisible entry is no entry. */
  lemma HiddenDrops(slots: Slots, a: Slots, d: nat, p: nat, name: seq<byte>, attributes: nat, cluster: nat, size: nat)
    requires IsName(name) && IsEntry(attributes, cluster, size) && !Visible(name) && DotsFirst(slots, d)
    requires FitsAt(slots, p, LfnCount(name) + 1) && a == Added(slots, p, name, attributes, cluster, size)
    ensures Drops(slots, a, d, None)
  {
    AddedShape(slots, p, name, attributes, cluster, size);
    SameOutside(slots, a, p, LfnCount(name) + 1);
    RunLooks(a, p, name, attributes, cluster, size);
    RunBehindDots(slots, d, p, LfnCount(name) + 1);
    forall i: nat ensures KeptIn(slots, a, d, i) && StaysIn(slots, a, d, i) {
    }
  }

  lemma MarkedDrops(slots: Slots, m: Slots, d: nat, h: Hit)
    requires ValidHit(slots, h) && OwnsIn(slots, d, h.slot) && m == Marked(slots, h.start, h.slot)
    ensures Drops(slots, m, d, Some(h.slot))
  {
    forall i: nat ensures KeptIn(slots, m, d, i) && (i != h.slot ==> StaysIn(slots, m, d, i)) {
      assert h.start <= i < h.slot ==> IsLfn(slots[i]);
    }
  }

  /** A file's entry has a chain of its own. */
  lemma FileOwns(slots: Slots, d: nat, h: Hit)
    requires DotsFirst(slots, d) && ValidHit(slots, h) && !IsDirSlot(slots[h.slot])
    ensures OwnsIn(slots, d, h.slot)
  {
  }

  // ---------- entries on the volume ----------

  ghost predicate Laid(g: Geometry, v: Vol) {
    Shaped(g, v) && 2 <= g.limit <= g.Entries() && g.limit <= EOC && g.sectorsPerCluster >= 1 && Closed(v.fat)
  }

  predicate Owns(v: Vol, d: nat, i: nat) {
    d < |v.clusters| && OwnsIn(DirSlots(v, d), d, i)
  }

  /** The first cluster of the entry's chain. */
  function FirstOf(v: Vol, d: nat, i: nat): nat
    requires Owns(v, d, i)
  {
    ClusterOf(DirSlots(v, d)[i])
  }

  ghost predicate DirFits(g: Geometry, v: Vol, chains: map<nat, seq<nat>>, d: nat) {
    DirUsable(g, v, d) && DotsFirst(DirSlots(v, d), d) && (d != 0 ==> d in chains)
  }

  /** An entry has a chain, and a usable directory's chain is a directory entry's. */
  ghost predicate EntryFits(v: Vol, dirs: set<nat>, chains: map<nat, seq<nat>>, d: nat, i: nat) {
    Owns(v, d, i) ==> FirstOf(v, d, i) in chains && (FirstOf(v, d, i) in dirs ==> IsDirSlot(DirSlots(v, d)[i]))
  }

  predicate EntriesApart(v: Vol, d: nat, i: nat, e: nat, j: nat) {
    Owns(v, d, i) && Owns(v, e, j) && (d != e || i != j) ==> FirstOf(v, d, i) != FirstOf(v, e, j)
  }

  ghost predicate AllDirsFit(g: Geometry, v: Vol, dirs: set<nat>, chains: map<nat, seq<nat>>) {
    forall d {:trigger DirFits(g, v, chains, d)} :: d in dirs ==> DirFits(g, v, chains, d)
  }

  ghost predicate AllEntriesFit(v: Vol, dirs: set<nat>, chains: map<nat, seq<nat>>) {
    forall d, i: nat {:trigger EntryFits(v, dirs, chains, d, i)} :: d in dirs ==> EntryFits(v, dirs, chains, d, i)
  }

  ghost predicate AllEntriesApart(v: Vol, dirs: set<nat>) {
    forall d, i: nat, e, j: nat {:trigger EntriesApart(v, d, i, e, j)} :: d in dirs && e in dirs ==> EntriesApart(v, d, i, e, j)
  }

  /** The chains are those of the entries in the directories. */
  ghost predicate Owned(g: Geometry, v: Vol, dirs: set<nat>, chains: map<nat, seq<nat>>) {
    && Laid(g, v) && C.ChainsSound(g.limit, C.Table(v.fat, chains))
    && AllDirsFit(g, v, dirs, chains) && AllEntriesFit(v, dirs, chains) && AllEntriesApart(v, dirs)
  }

  ghost predicate HasOwner(v: Vol, dirs: set<nat>, k: nat) {
    exists d, i: nat :: d in dirs && Owns(v, d, i) && FirstOf(v, d, i) == k
  }

  /** Every chain is some entry's. */
  ghost predicate Complete(v: Vol, dirs: set<nat>, chains: map<nat, seq<nat>>) {
    forall k {:trigger HasOwner(v, dirs, k)} :: k in chains ==> HasOwner(v, dirs, k)
  }

  /** Every cluster in use is in the chain of some entry. */
  ghost predicate NothingStray(v: Vol, dirs: set<nat>, chains: map<nat, seq<nat>>) {
    C.NothingLost(C.Table(v.fat, chains)) && Complete(v, dirs, chains)
  }

  lemma DirIsOk(g: Geometry, v: Vol, dirs: set<nat>, chains: map<nat, seq<nat>>, d: nat)
    requires Owned(g, v, dirs, chains) && d in dirs
    ensures DirOk(g, v, d) && DirUsable(g, v, d) && DotsFirst(DirSlots(v, d), d)
  {
    assert DirFits(g, v, chains, d);
  }

  /** A directory's cluster is taken. */
  lemma DirInUse(g: Geometry, v: Vol, dirs: set<nat>, chains: map<nat, seq<nat>>, d: nat)
    requires Owned(g, v, dirs, chains) && d in dirs && d != 0
    ensures d in chains && chains[d] == [d] && d < |v.fat| && v.fat[d] != FREE
  {
    assert DirFits(g, v, chains, d);
    C.ChainUnique(v.fat, g.limit, chains[d], [d]);
  }

  /** A file's chain holds no directory. */
  lemma FileChain(g: Geometry, v: Vol, dirs: set<nat>, chains: map<nat, seq<nat>>, d: nat, i: nat)
    requires Owned(g, v, dirs, chains) && d in dirs && Owns(v, d, i) && !IsDirSlot(DirSlots(v, d)[i])
    ensures var k := FirstOf(v, d, i);
            && k in chains && C.IsChain(v.fat, g.limit, chains[k]) && chains[k][0] == k && k !in dirs
            && forall e :: e in dirs ==> e !in chains[k]
  {
    assert EntryFits(v, dirs, chains, d, i);
    var k := FirstOf(v, d, i);
    forall e | e in dirs ensures e !in chains[k] {
      if e != 0 {
        DirInUse(g, v, dirs, chains, e);
        assert e in chains[e];
      }
    }
  }

  // ---------- changes ----------

  /** Every directory is usable, and all but `dir` have the slots they had. */
  ghost predicate OnlyDir(g: Geometry, v: Vol, v': Vol, dirs: set<nat>, dir: nat) {
    forall d {:trigger DirUsable(g, v', d)} :: d in dirs ==>
      DirUsable(g, v', d) && d < |v.clusters| && (d != dir ==> DirSlots(v', d) == DirSlots(v, d))
  }

  ghost predicate DirDrops(v: Vol, v': Vol, dir: nat, q: Option<nat>) {
    dir < |v.clusters| && dir < |v'.clusters| && Drops(DirSlots(v, dir), DirSlots(v', dir), dir, q)
  }

  ghost predicate DirGains(v: Vol, v': Vol, dir: nat, q: nat, first: nat, isDir: bool) {
    dir < |v.clusters| && dir < |v'.clusters| && Gains(DirSlots(v, dir), DirSlots(v', dir), dir, q, first, isDir)
  }

  lemma GainsThere(v: Vol, v': Vol, dir: nat, q: nat, first: nat, isDir: bool, slots: Slots, slots': Slots)
    requires dir < |v.clusters| && dir < |v'.clusters| && slots == DirSlots(v, dir) && slots' == DirSlots(v', dir)
    requires Gains(slots, slots', dir, q, first, isDir)
    ensures DirGains(v, v', dir, q, first, isDir)
  {
  }

  /** No directory has got an entry it did not have, and the chains are those of the others. */
  lemma FewerFit(g: Geometry, v: Vol, v': Vol, dirs: set<nat>, chains: map<nat, seq<nat>>, chains': map<nat, seq<nat>>, dir: nat, q: Option<nat>)
    requires Owned(g, v, dirs, chains) && Laid(g, v') && C.ChainsSound(g.limit, C.Table(v'.fat, chains'))
    requires OnlyDir(g, v, v', dirs, dir) && (dir in dirs ==> DirDrops(v, v', dir, q))
    requires q.Some? ==> dir in dirs && Owns(v, dir, q.value) && FirstOf(v, dir, q.value) !in dirs
    requires chains'.Keys == if q.Some? then chains.Keys - {FirstOf(v, dir, q.value)} else chains.Keys
    ensures Owned(g, v', dirs, chains')
  {
    FewerDirs(g, v, v', dirs, chains, chains', dir, q);
    FewerEntries(g, v, v', dirs, chains, chains', dir, q);
    FewerApart(g, v, v', dirs, dir, q);
  }

  lemma FewerDirs(g: Geometry, v: Vol, v': Vol, dirs: set<nat>, chains: map<nat, seq<nat>>, chains': map<nat, seq<nat>>, dir: nat, q: Option<nat>)
    requires AllDirsFit(g, v, dirs, chains) && OnlyDir(g, v, v', dirs, dir) && (dir in dirs ==> DirDrops(v, v', dir, q))
    requires forall d :: d in dirs && d in chains ==> d in chains'
    ensures AllDirsFit(g, v', dirs, chains')
  {
    forall d | d in dirs ensures DirFits(g, v', chains', d) {
      assert DirUsable(g, v', d) && DirFits(g, v, chains, d);
    }
  }

  lemma FewerEntries(g: Geometry, v: Vol, v': Vol, dirs: set<nat>, chains: map<nat, seq<nat>>, chains': map<nat, seq<nat>>, dir: nat, q: Option<nat>)
    requires AllEntriesFit(v, dirs, chains) && AllEntriesApart(v, dirs)
    requires OnlyDir(g, v, v', dirs, dir) && (dir in dirs ==> DirDrops(v, v', dir, q))
    requires q.Some? ==> dir in dirs && Owns(v, dir, q.value)
    requires chains'.Keys == if q.Some? then chains.Keys - {FirstOf(v, dir, q.value)} else chains.Keys
    ensures AllEntriesFit(v', dirs, chains')
  {
    forall d, i: nat | d in dirs ensures EntryFits(v', dirs, chains', d, i) {
      FewerKept(g, v, v', dirs, dir, q, d, i);
      assert EntryFits(v, dirs, chains, d, i);
      if q.Some? {
        assert EntriesApart(v, d, i, dir, q.value);
      }
    }
  }

  lemma FewerApart(g: Geometry, v: Vol, v': Vol, dirs: set<nat>, dir: nat, q: Option<nat>)
    requires AllEntriesApart(v, dirs) && OnlyDir(g, v, v', dirs, dir) && (dir in dirs ==> DirDrops(v, v', dir, q))
    ensures AllEntriesApart(v', dirs)
  {
    forall d, i: nat, e, j: nat | d in dirs && e in dirs ensures EntriesApart(v', d, i, e, j) {
      FewerKept(g, v, v', dirs, dir, q, d, i);
      FewerKept(g, v, v', dirs, dir, q, e, j);
      assert EntriesApart(v, d, i, e, j);
    }
  }

  lemma FewerKept(g: Geometry, v: Vol, v': Vol, dirs: set<nat>, dir: nat, q: Option<nat>, d: nat, i: nat)
    requires OnlyDir(g, v, v', dirs, dir) && d in dirs && (dir in dirs ==> DirDrops(v, v', dir, q))
    ensures Owns(v', d, i) ==> Owns(v, d, i) && DirSlots(v', d)[i] == DirSlots(v, d)[i] && !(d == dir && q == Some(i))
    ensures Owns(v, d, i) && !(d == dir && q == Some(i)) ==> Owns(v', d, i) && DirSlots(v', d)[i] == DirSlots(v, d)[i]
  {
    assert DirUsable(g, v', d);
    if d == dir {
      assert KeptIn(DirSlots(v, d), DirSlots(v', d), d, i);
      assert q != Some(i) ==> StaysIn(DirSlots(v, d), DirSlots(v', d), d, i);
    }
  }

  lemma FewerOwners(g: Geometry, v: Vol, v': Vol, dirs: set<nat>, dir: nat, q: Option<nat>, k: nat)
    requires OnlyDir(g, v, v', dirs, dir) && HasOwner(v, dirs, k) && (dir in dirs ==> DirDrops(v, v', dir, q))
    requires q.Some? ==> Owns(v, dir, q.value) && FirstOf(v, dir, q.value) != k
    ensures HasOwner(v', dirs, k)
  {
    var d, i: nat :| d in dirs && Owns(v, d, i) && FirstOf(v, d, i) == k;
    FewerKept(g, v, v', dirs, dir, q, d, i);
    assert Owns(v', d, i) && FirstOf(v', d, i) == k;
  }

  lemma FewerComplete(g: Geometry, v: Vol, v': Vol, dirs: set<nat>, chains: map<nat, seq<nat>>, chains': map<nat, seq<nat>>, dir: nat, q: nat)
    requires Complete(v, dirs, chains) && OnlyDir(g, v, v', dirs, dir) && (dir in dirs ==> DirDrops(v, v', dir, Some(q)))
    requires Owns(v, dir, q) && chains'.Keys == chains.Keys - {FirstOf(v, dir, q)}
    ensures Complete(v', dirs, chains')
  {
    forall k | k in chains' ensures HasOwner(v', dirs, k) {
      FewerOwners(g, v, v', dirs, dir, Some(q), k);
    }
  }

  /** A directory has got an entry with a chain of its own. */
  lemma OneMoreFits(g: Geometry, v: Vol, v': Vol, dirs: set<nat>, chains: map<nat, seq<nat>>, chains': map<nat, seq<nat>>,
                    dir: nat, q: nat, k: nat, isDir: bool)
    requires Owned(g, v, dirs, chains) && Laid(g, v') && C.ChainsSound(g.limit, C.Table(v'.fat, chains'))
    requires OnlyDir(g, v, v', dirs, dir) && dir in dirs && DirGains(v, v', dir, q, k, isDir)
    requires k !in chains && k != 0 && chains'.Keys == chains.Keys + {k}
    ensures Owned(g, v', dirs, chains')
  {
    OneMoreDirs(g, v, v', dirs, chains, chains', dir, q, k, isDir);
    OneMoreEntries(g, v, v', dirs, chains, chains', dir, q, k, isDir);
    OneMoreApart(g, v, v', dirs, chains, dir, q, k, isDir);
  }

  lemma OneMoreDirs(g: Geometry, v: Vol, v': Vol, dirs: set<nat>, chains: map<nat, seq<nat>>, chains': map<nat, seq<nat>>,
                    dir: nat, q: nat, k: nat, isDir: bool)
    requires AllDirsFit(g, v, dirs, chains) && OnlyDir(g, v, v', dirs, dir) && dir in dirs && DirGains(v, v', dir, q, k, isDir)
    requires k !in chains && k != 0 && chains'.Keys == chains.Keys + {k}
    ensures AllDirsFit(g, v', dirs, chains') && k !in dirs
  {
    forall d | d in dirs ensures DirFits(g, v', chains', d) && d != k {
      assert DirUsable(g, v', d) && DirFits(g, v, chains, d);
    }
  }

  lemma OneMoreEntries(g: Geometry, v: Vol, v': Vol, dirs: set<nat>, chains: map<nat, seq<nat>>, chains': map<nat, seq<nat>>,
                       dir: nat, q: nat, k: nat, isDir: bool)
    requires AllEntriesFit(v, dirs, chains) && OnlyDir(g, v, v', dirs, dir) && dir in dirs && DirGains(v, v', dir, q, k, isDir)
    requires k !in dirs && chains'.Keys == chains.Keys + {k}
    ensures AllEntriesFit(v', dirs, chains')
  {
    forall d, i: nat | d in dirs ensures EntryFits(v', dirs, chains', d, i) {
      OneMoreKept(g, v, v', dirs, dir, q, k, isDir, d, i);
      assert EntryFits(v, dirs, chains, d, i);
    }
  }

  lemma OneMoreApart(g: Geometry, v: Vol, v': Vol, dirs: set<nat>, chains: map<nat, seq<nat>>, dir: nat, q: nat, k: nat, isDir: bool)
    requires AllEntriesFit(v, dirs, chains) && AllEntriesApart(v, dirs) && k !in chains
    requires OnlyDir(g, v, v', dirs, dir) && dir in dirs && DirGains(v, v', dir, q, k, isDir)
    ensures AllEntriesApart(v', dirs)
  {
    forall d, i: nat, e, j: nat | d in dirs && e in dirs ensures EntriesApart(v', d, i, e, j) {
      OneMoreKept(g, v, v', dirs, dir, q, k, isDir, d, i);
      OneMoreKept(g, v, v', dirs, dir, q, k, isDir, e, j);
      assert EntriesApart(v, d, i, e, j) && EntryFits(v, dirs, chains, d, i) && EntryFits(v, dirs, chains, e, j);
    }
  }

  lemma OneMoreKept(g: Geometry, v: Vol, v': Vol, dirs: set<nat>, dir: nat, q: nat, k: nat, isDir: bool, d: nat, i: nat)
    requires OnlyDir(g, v, v', dirs, dir) && d in dirs && dir in dirs && DirGains(v, v', dir, q, k, isDir)
    ensures Owns(v', d, i) ==> if d == dir && i == q then FirstOf(v', d, i) == k
                               else Owns(v, d, i) && DirSlots(v', d)[i] == DirSlots(v, d)[i]
    ensures Owns(v, d, i) ==> Owns(v', d, i) && DirSlots(v', d)[i] == DirSlots(v, d)[i]
  {
    assert DirUsable(g, v', d);
    if d == dir {
      assert i != q ==> KeptIn(DirSlots(v, d), DirSlots(v', d), d, i);
      assert StaysIn(DirSlots(v, d), DirSlots(v', d), d, i);
    }
  }

  lemma OneMoreOwner(g: Geometry, v: Vol, v': Vol, dirs: set<nat>, dir: nat, q: nat, k: nat, isDir: bool, j: nat)
    requires OnlyDir(g, v, v', dirs, dir) && dir in dirs && DirGains(v, v', dir, q, k, isDir)
    requires j == k || HasOwner(v, dirs, j)
    ensures HasOwner(v', dirs, j)
  {
    if j == k {
      assert Owns(v', dir, q) && FirstOf(v', dir, q) == k;
    } else {
      var d, i: nat :| d in dirs && Owns(v, d, i) && FirstOf(v, d, i) == j;
      OneMoreKept(g, v, v', dirs, dir, q, k, isDir, d, i);
      assert Owns(v', d, i) && FirstOf(v', d, i) == j;
    }
  }

  lemma OneMoreComplete(g: Geometry, v: Vol, v': Vol, dirs: set<nat>, chains: map<nat, seq<nat>>, chains': map<nat, seq<nat>>,
                        dir: nat, q: nat, k: nat, isDir: bool)
    requires Complete(v, dirs, chains) && OnlyDir(g, v, v', dirs, dir) && dir in dirs && DirGains(v, v', dir, q, k, isDir)
    requires chains'.Keys == chains.Keys + {k}
    ensures Complete(v', dirs, chains')
  {
    forall j | j in chains' ensures HasOwner(v', dirs, j) {
      OneMoreOwner(g, v, v', dirs, dir, q, k, isDir, j);
    }
  }

  lemma MoreDirsComplete(v: Vol, dirs: set<nat>, more: set<nat>, chains: map<nat, seq<nat>>)
    requires Complete(v, dirs, chains) && dirs <= more
    ensures Complete(v, more, chains)
  {
    forall k | k in chains ensures HasOwner(v, more, k) {
      assert HasOwner(v, dirs, k);
      var d, i: nat :| d in dirs && Owns(v, d, i) && FirstOf(v, d, i) == k;
      assert d in more;
    }
  }

  /** A directory without entries of its own. */
  ghost predicate OwnsNothing(v: Vol, c: nat) {
    forall i: nat {:trigger Owns(v, c, i)} :: !Owns(v, c, i)
  }

  /** An empty directory whose entry stands joins the usable ones. */
  lemma Joins(g: Geometry, v: Vol, dirs: set<nat>, chains: map<nat, seq<nat>>, dir: nat, q: nat, c: nat)
    requires Owned(g, v, dirs, chains) && dir in dirs && Owns(v, dir, q) && FirstOf(v, dir, q) == c && IsDirSlot(DirSlots(v, dir)[q])
    requires DirUsable(g, v, c) && DotsFirst(DirSlots(v, c), c) && OwnsNothing(v, c)
    ensures Owned(g, v, dirs + {c}, chains)
  {
    assert EntryFits(v, dirs, chains, dir, q);
    JoinsDirs(g, v, dirs, chains, c);
    JoinsEntries(v, dirs, chains, dir, q, c);
    JoinsApart(v, dirs, c);
  }

  lemma JoinsDirs(g: Geometry, v: Vol, dirs: set<nat>, chains: map<nat, seq<nat>>, c: nat)
    requires AllDirsFit(g, v, dirs, chains) && c in chains && DirUsable(g, v, c) && DotsFirst(DirSlots(v, c), c)
    ensures AllDirsFit(g, v, dirs + {c}, chains)
  {
    forall d | d in dirs + {c} ensures DirFits(g, v, chains, d) {
      assert d in dirs ==> DirFits(g, v, chains, d);
    }
  }

  lemma JoinsEntries(v: Vol, dirs: set<nat>, chains: map<nat, seq<nat>>, dir: nat, q: nat, c: nat)
    requires AllEntriesFit(v, dirs, chains) && AllEntriesApart(v, dirs) && OwnsNothing(v, c)
    requires dir in dirs && Owns(v, dir, q) && FirstOf(v, dir, q) == c && IsDirSlot(DirSlots(v, dir)[q])
    ensures AllEntriesFit(v, dirs + {c}, chains)
  {
    forall d, i: nat | d in dirs + {c} ensures EntryFits(v, dirs + {c}, chains, d, i) {
      if Owns(v, d, i) {
        assert EntryFits(v, dirs, chains, d, i) && EntriesApart(v, d, i, dir, q);
      }
    }
  }

  lemma JoinsApart(v: Vol, dirs: set<nat>, c: nat)
    requires AllEntriesApart(v, dirs) && OwnsNothing(v, c)
    ensures AllEntriesApart(v, dirs + {c})
  {
    forall d, i: nat, e, j: nat | d in dirs + {c} && e in dirs + {c} ensures EntriesApart(v, d, i, e, j) {
      if Owns(v, d, i) && Owns(v, e, j) {
        assert EntriesApart(v, d, i, e, j);
      }
    }
  }

  /** A freshly formatted volume. */
  lemma EmptyOwned(g: Geometry, v: Vol)
    requires Laid(g, v) && (forall c :: 2 <= c < |v.fat| ==> v.fat[c] == FREE)
    requires forall i: nat {:trigger DirSlots(v, 0)[i]} :: i < |DirSlots(v, 0)| ==> DirSlots(v, 0)[i][0] == 0
    ensures Owned(g, v, {0}, map[]) && NothingStray(v, {0}, map[])
  {
    C.EmptySound(g.limit, v.fat);
    assert WellFormed(DirSlots(v, 0));
  }
}
