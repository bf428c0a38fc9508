/**
 * The files of all usable directories over whole runs: which entries there are, what each holds,
 * and which of them a name leads to, whatever happens in its own directory and in the others.
 */
module FatTreeRun {
  import opened Common
  import opened FatConst
  import opened Bytes
  import opened FatNames
  import opened FatDir
  import opened FatDirUpdate
  import opened FatDirTheorems
  import opened FatHits
  import opened FatDisk
  import opened FatDirIo
  import opened FatFiles
  import opened FatVolume
  import opened FatVolumeIo
  import opened FatDirectory
  import opened PathText
  import opened FatChdir
  import opened FatMkdir
  import opened FatOwned
  import opened FatRun
  import C = FatChain

  // ---------- files and names on the volume ----------

  /** There is a file's entry at f.hit, its chain is apart from the directory and holds the data. */
  ghost predicate FileAt(g: Geometry, v: Vol, d: nat, f: File) {
    && DirOk(g, v, d) && ValidHit(DirSlots(v, d), f.hit) && !IsDirSlot(DirSlots(v, d)[f.hit.slot])
    && ChainOf(g, v, d, DirSlots(v, d)[f.hit.slot], f.chain, f.data)
  }

  lemma StoredFile(g: Geometry, v: Vol, d: nat, name: seq<byte>, f: File)
    requires Stores(g, v, d, name, f.hit, f.chain, f.data)
    ensures FileAt(g, v, d, f)
  {
    HitIsEntry(DirSlots(v, d), 0, Clean, name, Any);
  }

  /** The entries of directory d that the name answers to, the one it leads to first. */
  function EntriesOf(v: Vol, d: nat, name: seq<byte>): seq<Hit> {
    if d < |v.clusters| then Hits(DirSlots(v, d), 0, name) else []
  }

  /** What a name leads to: nothing, or the first of its entries, and if that is a file's, its bytes. */
  lemma NameLeads(g: Geometry, v: Vol, d: nat, name: seq<byte>, f: File)
    requires DirOk(g, v, d)
    ensures var hs := EntriesOf(v, d, name); Lookup(DirSlots(v, d), name, Any) == if hs == [] then None else Some(hs[0])
    ensures var hs := EntriesOf(v, d, name);
            hs != [] && FileAt(g, v, d, f) && f.hit.slot == hs[0].slot ==> Stores(g, v, d, name, f.hit, f.chain, f.data)
  {
    FirstHit(DirSlots(v, d), name);
    HitIsEntry(DirSlots(v, d), 0, Clean, name, Any);
    var hs := EntriesOf(v, d, name);
    if hs != [] && FileAt(g, v, d, f) && f.hit.slot == hs[0].slot {
      StartUnique(DirSlots(v, d), f.hit, hs[0]);
    }
  }

  // ---------- what an event does to the entries ----------

  datatype NewEntry = NewEntry(name: seq<byte>, attributes: nat, cluster: nat, size: nat, p: nat) {
    function Hit(): Hit { FatDir.Hit.Hit(p, p + LfnCount(name)) }
  }

  /** The entry an event adds. */
  function EntryOf(e: Event): Option<NewEntry> {
    match e
    case WroteFile(_, name, cs, data, p) => if cs == [] then None else Some(NewEntry(name, ATTR_FILE, cs[0], |data|, p))
    case HiddenFile(_, name, cs, data, p) => if cs == [] then None else Some(NewEntry(name, ATTR_FILE, cs[0], |data|, p))
    case MadeDirectory(_, name, c, p) => Some(NewEntry(name, ATTR_DIR, c, 0, p))
    case HiddenDirectory(_, name, c, p) => Some(NewEntry(name, ATTR_DIR, c, 0, p))
    case _ => None
  }

  /** What an event does to the slots of the directory it takes place in. */
  ghost predicate SlotsChange(e: Event, slots: Slots, slots': Slots) {
    if EntryOf(e).Some? then
      var x := EntryOf(e).value;
      Adds(slots, slots', x.p, x.name, x.attributes, x.cluster, x.size)
    else
      e.DeletedFile? && WellFormed(slots) && ValidHit(slots, e.h) && slots' == Marked(slots, e.h.start, e.h.slot)
  }

  /** What it does to the entries a name answers to there. */
  function HitsChanged(e: Event, name: seq<byte>, was: seq<Hit>): seq<Hit> {
    if EntryOf(e).Some? then Grown(was, EntryOf(e).value.Hit(), Shows(EntryOf(e).value.name, name))
    else if e.DeletedFile? then WithoutSlot(was, e.h.slot)
    else was
  }

  lemma AddedHits(x: NewEntry, slots: Slots, slots': Slots, name: seq<byte>, h: Hit, yes: bool)
    requires Adds(slots, slots', x.p, x.name, x.attributes, x.cluster, x.size)
    requires h == x.Hit() && yes == Shows(x.name, name)
    ensures Hits(slots', 0, name) == Grown(Hits(slots, 0, name), h, yes)
  {
    HitsAfterAdd(slots, slots', x.p, x.name, x.attributes, x.cluster, x.size, name, h, yes);
  }

  lemma DeletedHits(h: Hit, slots: Slots, slots': Slots, name: seq<byte>, was: seq<Hit>, now: seq<Hit>)
    requires WellFormed(slots) && ValidHit(slots, h) && slots' == Marked(slots, h.start, h.slot)
    requires was == Hits(slots, 0, name) && now == Hits(slots', 0, name)
    ensures now == WithoutSlot(was, h.slot)
  {
    HitsAfterDelete(slots, slots', h, 0, name);
  }

  lemma HitsFollowSlots(e: Event, slots: Slots, slots': Slots, name: seq<byte>, was: seq<Hit>, now: seq<Hit>)
    requires SlotsChange(e, slots, slots') && was == Hits(slots, 0, name) && now == Hits(slots', 0, name)
    ensures now == HitsChanged(e, name, was)
  {
    if EntryOf(e).Some? {
      var x := EntryOf(e).value;
      AddedHits(x, slots, slots', name, x.Hit(), Shows(x.name, name));
    } else {
      DeletedHits(e.h, slots, slots', name, was, now);
    }
  }

  lemma HitFollowsSlots(e: Event, slots: Slots, slots': Slots, h: Hit)
    requires SlotsChange(e, slots, slots') && ValidHit(slots, h) && !(e.DeletedFile? && e.h.slot == h.slot)
    ensures ValidHit(slots', h) && slots'[h.slot] == slots[h.slot]
  {
    if EntryOf(e).Some? {
      var x := EntryOf(e).value;
      AddKeepsHit(slots, slots', x.p, x.name, x.attributes, x.cluster, x.size, h);
    } else {
      DeleteKeepsHit(slots, e.h, h);
    }
  }

  // ---------- chains that stay ----------

  lemma ClaimSparesChain(g: Geometry, v: Vol, vm: Vol, c: nat, parent: nat, cs: seq<nat>, data: seq<byte>)
    requires Claimed(g, v, vm, c, parent)
    requires C.IsChain(v.fat, g.limit, cs) && ChainHolds(v, g.sectorsPerCluster, cs, data)
    ensures C.IsChain(vm.fat, g.limit, cs) && ChainHolds(vm, g.sectorsPerCluster, cs, data)
  {
    C.LinkedStarts(v.fat, c);
    C.AllocKeepsChain(v.fat, vm.fat, g.limit, [c], cs);
    forall i | 0 <= i < |cs| ensures cs[i] < |v.clusters| && vm.clusters[cs[i]] == v.clusters[cs[i]] {
      assert cs[i] in cs && c in [c];
    }
    ChainApart(v, vm, g.limit, g.sectorsPerCluster, cs, data);
  }

  lemma MakeSparesChain(g: Geometry, v: Vol, vm: Vol, v': Vol, dir: nat, name: seq<byte>, c: nat, p: nat, cs: seq<nat>, data: seq<byte>)
    requires MadeDir(g, v, vm, v', dir, name, c, p) && dir !in cs
    requires C.IsChain(v.fat, g.limit, cs) && ChainHolds(v, g.sectorsPerCluster, cs, data)
    ensures C.IsChain(v'.fat, g.limit, cs) && ChainHolds(v', g.sectorsPerCluster, cs, data)
  {
    ClaimSparesChain(g, v, vm, c, dir, cs, data);
    ClaimSparesDir(g, v, vm, c, dir);
    DirChangeSparesChain(g, vm, v', dir, Added(DirSlots(v, dir), p, name, ATTR_DIR, c, 0), cs, data);
  }

  lemma DeleteSparesChain(g: Geometry, v: Vol, vm: Vol, v': Vol, dir: nat, h: Hit, gone: seq<nat>, cs: seq<nat>, data: seq<byte>)
    requires Deleted(g, v, vm, v', dir, h, gone) && dir !in cs && C.Disjoint(cs, gone)
    requires C.IsChain(v.fat, g.limit, cs) && ChainHolds(v, g.sectorsPerCluster, cs, data)
    ensures C.IsChain(v'.fat, g.limit, cs) && ChainHolds(v', g.sectorsPerCluster, cs, data)
  {
    DirChangeSparesChain(g, v, vm, dir, Marked(DirSlots(v, dir), h.start, h.slot), cs, data);
    C.FreeKeepsChain(vm.fat, v'.fat, g.limit, gone, cs);
    DeletedSlots(g, v, vm, v', dir, h, gone);
    forall i | 0 <= i < |cs| ensures cs[i] < |vm.clusters| {
      assert cs[i] in cs;
    }
    ChainApart(vm, v', g.limit, g.sectorsPerCluster, cs, data);
  }

  /** An event leaves a chain and its contents alone, unless it frees that chain. */
  lemma EventSparesChain(g: Geometry, v: Vol, v': Vol, e: Event, cs: seq<nat>, data: seq<byte>)
    requires Happens(g, v, e, v') && (Place(e).Some? ==> Place(e).value !in cs) && (e.DeletedFile? ==> C.Disjoint(cs, e.cs))
    requires C.IsChain(v.fat, g.limit, cs) && ChainHolds(v, g.sectorsPerCluster, cs, data)
    ensures C.IsChain(v'.fat, g.limit, cs) && ChainHolds(v', g.sectorsPerCluster, cs, data)
  {
    match e
    case WroteFile(dir, name, added, bytes, p) =>
      var vm :| Wrote(g, v, vm, v', dir, name, added, bytes, p);
      OldChainStays(g, v, vm, v', dir, name, added, bytes, p, cs, data);
    case HiddenFile(dir, name, added, bytes, p) =>
      var vm :| Wrote(g, v, vm, v', dir, name, added, bytes, p);
      OldChainStays(g, v, vm, v', dir, name, added, bytes, p, cs, data);
    case LostFile(added, bytes) => WritingSparesChain(g, v, v', added, bytes, Filled(added, bytes), cs, data);
    case DeletedFile(dir, h, gone) =>
      var vm :| Deleted(g, v, vm, v', dir, h, gone);
      DeleteSparesChain(g, v, vm, v', dir, h, gone, cs, data);
    case MadeDirectory(dir, name, c, p) =>
      var vm :| MadeDir(g, v, vm, v', dir, name, c, p);
      MakeSparesChain(g, v, vm, v', dir, name, c, p, cs, data);
    case HiddenDirectory(dir, name, c, p) =>
      var vm :| MadeDir(g, v, vm, v', dir, name, c, p);
      MakeSparesChain(g, v, vm, v', dir, name, c, p, cs, data);
    case LostDirectory(c, parent) => ClaimSparesChain(g, v, v', c, parent, cs, data);
  }

  // ---------- directories that stay ----------

  lemma DeletionSparesDir(g: Geometry, v: Vol, vm: Vol, v': Vol, dirs: set<nat>, chains: map<nat, seq<nat>>, dir: nat, h: Hit, cs: seq<nat>, d: nat)
    requires Owned(g, v, dirs, chains) && dir in dirs && IsFileAt(g, v, dir, h, cs) && Deleted(g, v, vm, v', dir, h, cs)
    requires d in dirs && d != dir
    ensures d < |v.clusters| && d < |v'.clusters| && DirSlots(v', d) == DirSlots(v, d)
  {
    DirIsOk(g, v, dirs, chains, d);
    DeleteIsStep(g, v, vm, v', dirs, chains, dir, h, cs);
    DeleteSparesDir(g, v, vm, v', dir, h, cs, d);
  }

  lemma EventSparesDir(g: Geometry, v: Vol, v': Vol, dirs: set<nat>, chains: map<nat, seq<nat>>, e: Event, d: nat)
    requires Owned(g, v, dirs, chains) && Occurs(g, v, dirs, e, v') && d in dirs && Place(e) != Some(d)
    ensures d < |v.clusters| && d < |v'.clusters| && DirSlots(v', d) == DirSlots(v, d)
  {
    DirIsOk(g, v, dirs, chains, d);
    match e
    case DeletedFile(dir, h, cs) =>
      var vm :| Deleted(g, v, vm, v', dir, h, cs);
      DeletionSparesDir(g, v, vm, v', dirs, chains, dir, h, cs, d);
    case LostFile(cs, data) => WritingSparesDir(g, v, v', d, cs, data, Filled(cs, data));
    case LostDirectory(c, parent) => ClaimSparesDir(g, v, v', c, d);
    case _ => AdditionSparesDir(g, v, v', e, d);
  }

  lemma AdditionSparesDir(g: Geometry, v: Vol, v': Vol, e: Event, d: nat)
    requires e.WroteFile? || e.HiddenFile? || e.MadeDirectory? || e.HiddenDirectory?
    requires Happens(g, v, e, v') && DirOk(g, v, d) && DirUsable(g, v, d) && Place(e) != Some(d)
    ensures d < |v'.clusters| && DirSlots(v', d) == DirSlots(v, d)
  {
    match e
    case WroteFile(dir, name, cs, data, p) =>
      var vm :| Wrote(g, v, vm, v', dir, name, cs, data, p);
      WriteSparesDir(g, v, vm, v', dir, name, cs, data, p, d);
    case HiddenFile(dir, name, cs, data, p) =>
      var vm :| Wrote(g, v, vm, v', dir, name, cs, data, p);
      WriteSparesDir(g, v, vm, v', dir, name, cs, data, p, d);
    case MadeDirectory(dir, name, c, p) =>
      var vm :| MadeDir(g, v, vm, v', dir, name, c, p);
      MakeSparesSlots(g, v, vm, v', dir, name, c, p, d);
    case HiddenDirectory(dir, name, c, p) =>
      var vm :| MadeDir(g, v, vm, v', dir, name, c, p);
      MakeSparesSlots(g, v, vm, v', dir, name, c, p, d);
    case _ =>
  }

  // ---------- the slots after an event ----------

  lemma WriteChanges(g: Geometry, v: Vol, vm: Vol, v': Vol, d: nat, name: seq<byte>, cs: seq<nat>, data: seq<byte>, p: nat)
    requires IsName(name) && Wrote(g, v, vm, v', d, name, cs, data, p)
    ensures cs != [] && d < |v.clusters| && d < |v'.clusters| && Adds(DirSlots(v, d), DirSlots(v', d), p, name, ATTR_FILE, cs[0], |data|)
  {
    WroteSlots(g, v, vm, v', d, name, cs, data, p);
  }

  lemma MakeChanges(g: Geometry, v: Vol, vm: Vol, v': Vol, d: nat, name: seq<byte>, c: nat, p: nat)
    requires Laid(g, v) && MadeDir(g, v, vm, v', d, name, c, p)
    ensures d < |v.clusters| && d < |v'.clusters| && Adds(DirSlots(v, d), DirSlots(v', d), p, name, ATTR_DIR, c, 0)
  {
    MakeSlots(g, v, vm, v', d, name, c, p);
  }

  lemma DeletionChanges(g: Geometry, v: Vol, vm: Vol, v': Vol, d: nat, h: Hit, cs: seq<nat>)
    requires Deleted(g, v, vm, v', d, h, cs)
    ensures d < |v.clusters| && d < |v'.clusters| && WellFormed(DirSlots(v, d)) && ValidHit(DirSlots(v, d), h)
    ensures DirSlots(v', d) == Marked(DirSlots(v, d), h.start, h.slot)
  {
    DeletedSlots(g, v, vm, v', d, h, cs);
  }

  lemma PlaceChanges(g: Geometry, v: Vol, v': Vol, e: Event, d: nat)
    requires Laid(g, v) && Happens(g, v, e, v') && Place(e) == Some(d)
    ensures d < |v.clusters| && d < |v'.clusters| && SlotsChange(e, DirSlots(v, d), DirSlots(v', d))
  {
    match e
    case WroteFile(_, name, cs, data, p) =>
      var vm :| Wrote(g, v, vm, v', d, name, cs, data, p);
      WriteChanges(g, v, vm, v', d, name, cs, data, p);
    case HiddenFile(_, name, cs, data, p) =>
      var vm :| Wrote(g, v, vm, v', d, name, cs, data, p);
      WriteChanges(g, v, vm, v', d, name, cs, data, p);
    case DeletedFile(_, h, cs) =>
      var vm :| Deleted(g, v, vm, v', d, h, cs);
      DeletionChanges(g, v, vm, v', d, h, cs);
    case MadeDirectory(_, name, c, p) =>
      var vm :| MadeDir(g, v, vm, v', d, name, c, p);
      MakeChanges(g, v, vm, v', d, name, c, p);
    case HiddenDirectory(_, name, c, p) =>
      var vm :| MadeDir(g, v, vm, v', d, name, c, p);
      MakeChanges(g, v, vm, v', d, name, c, p);
    case _ =>
  }

  /** In its place the event changes the slots as it should, and elsewhere none. */
  lemma EventSlots(g: Geometry, v: Vol, v': Vol, dirs: set<nat>, chains: map<nat, seq<nat>>, e: Event, d: nat)
    requires Owned(g, v, dirs, chains) && Occurs(g, v, dirs, e, v') && d in dirs
    ensures d < |v.clusters| && d < |v'.clusters|
    ensures if Place(e) == Some(d) then SlotsChange(e, DirSlots(v, d), DirSlots(v', d)) else DirSlots(v', d) == DirSlots(v, d)
  {
    if Place(e) == Some(d) {
      PlaceChanges(g, v, v', e, d);
    } else {
      EventSparesDir(g, v, v', dirs, chains, e, d);
    }
  }

  // ---------- files that stay ----------

  /** The event takes the file's entry away. */
  predicate Removes(e: Event, d: nat, f: File) { e.DeletedFile? && e.dir == d && e.h.slot == f.hit.slot }

  /** A file's chain is the one its entry owns. */
  lemma FileOwnsChain(g: Geometry, v: Vol, dirs: set<nat>, chains: map<nat, seq<nat>>, d: nat, f: File)
    requires Owned(g, v, dirs, chains) && d in dirs && FileAt(g, v, d, f)
    ensures Owns(v, d, f.hit.slot) && FirstOf(v, d, f.hit.slot) in chains && chains[FirstOf(v, d, f.hit.slot)] == f.chain
    ensures forall e :: e in dirs ==> e !in f.chain
  {
    DirIsOk(g, v, dirs, chains, d);
    FileOwns(DirSlots(v, d), d, f.hit);
    FileChain(g, v, dirs, chains, d, f.hit.slot);
    C.ChainUnique(v.fat, g.limit, f.chain, chains[FirstOf(v, d, f.hit.slot)]);
  }

  /** The chain that a deletion frees is no other file's. */
  lemma DeletedApart(g: Geometry, v: Vol, v': Vol, dirs: set<nat>, chains: map<nat, seq<nat>>, e: Event, d: nat, f: File)
    requires e.DeletedFile? && Owned(g, v, dirs, chains) && Occurs(g, v, dirs, e, v') && d in dirs
    requires FileAt(g, v, d, f) && !Removes(e, d, f)
    ensures C.Disjoint(f.chain, e.cs)
  {
    var vm :| Deleted(g, v, vm, v', e.dir, e.h, e.cs);
    DeleteIsStep(g, v, vm, v', dirs, chains, e.dir, e.h, e.cs);
    FileOwnsChain(g, v, dirs, chains, d, f);
    assert EntriesApart(v, d, f.hit.slot, e.dir, e.h.slot);
  }

  lemma ChainStays(g: Geometry, v: Vol, v': Vol, dirs: set<nat>, chains: map<nat, seq<nat>>, e: Event, d: nat, f: File)
    requires Owned(g, v, dirs, chains) && Occurs(g, v, dirs, e, v') && d in dirs
    requires FileAt(g, v, d, f) && !Removes(e, d, f)
    ensures C.IsChain(v'.fat, g.limit, f.chain) && ChainHolds(v', g.sectorsPerCluster, f.chain, f.data)
  {
    FileOwnsChain(g, v, dirs, chains, d, f);
    if e.DeletedFile? {
      DeletedApart(g, v, v', dirs, chains, e, d, f);
    }
    EventSparesChain(g, v, v', e, f.chain, f.data);
  }

  lemma HitStays(g: Geometry, v: Vol, v': Vol, dirs: set<nat>, chains: map<nat, seq<nat>>, e: Event, d: nat, f: File)
    requires Owned(g, v, dirs, chains) && Occurs(g, v, dirs, e, v') && d in dirs
    requires FileAt(g, v, d, f) && !Removes(e, d, f)
    ensures d < |v'.clusters| && ValidHit(DirSlots(v', d), f.hit) && DirSlots(v', d)[f.hit.slot] == DirSlots(v, d)[f.hit.slot]
  {
    EventSlots(g, v, v', dirs, chains, e, d);
    if Place(e) == Some(d) {
      HitFollowsSlots(e, DirSlots(v, d), DirSlots(v', d), f.hit);
    }
  }

  lemma DirStaysOk(g: Geometry, v: Vol, v': Vol, dirs: set<nat>, chains: map<nat, seq<nat>>, e: Event, d: nat)
    requires Owned(g, v, dirs, chains) && Occurs(g, v, dirs, e, v') && d in dirs
    ensures DirOk(g, v', d)
  {
    EventKeepsOwned(g, v, v', dirs, chains, e, DirsAfter(v, dirs, e), ChainsAfter(chains, e));
    DirIsOk(g, v', DirsAfter(v, dirs, e), ChainsAfter(chains, e), d);
  }

  /**
   * Whatever happens, here or in another directory: a file whose entry the event does not remove
   * keeps its entry, its chain and its bytes.
   */
  lemma FileKept(g: Geometry, v: Vol, v': Vol, dirs: set<nat>, chains: map<nat, seq<nat>>, e: Event, d: nat, f: File)
    requires Owned(g, v, dirs, chains) && Occurs(g, v, dirs, e, v') && d in dirs
    requires FileAt(g, v, d, f) && !Removes(e, d, f)
    ensures FileAt(g, v', d, f)
  {
    DirStaysOk(g, v, v', dirs, chains, e, d);
    ChainStays(g, v, v', dirs, chains, e, d, f);
    HitStays(g, v, v', dirs, chains, e, d, f);
  }

  // ---------- names that stay ----------

  /** The entries a new directory has for a name. */
  function NewHits(name: seq<byte>): seq<Hit> {
    if Format83(name) == Format83(Here) then [Hit(0, 0)] else if Format83(name) == Format83(Up) then [Hit(1, 1)] else []
  }

  /** The entries a name answers to after an event. */
  function HitsAfter(e: Event, d: nat, name: seq<byte>, was: seq<Hit>): seq<Hit> {
    if e.MadeDirectory? && e.c == d then NewHits(name)
    else if Place(e) == Some(d) then HitsChanged(e, name, was)
    else was
  }

  lemma HitsFollow(g: Geometry, v: Vol, v': Vol, dirs: set<nat>, chains: map<nat, seq<nat>>, e: Event, d: nat, name: seq<byte>)
    requires Owned(g, v, dirs, chains) && Occurs(g, v, dirs, e, v') && d in dirs
    ensures EntriesOf(v', d, name) == HitsAfter(e, d, name, EntriesOf(v, d, name))
  {
    NotMadeHere(g, v, v', dirs, chains, e, d);
    EventSlots(g, v, v', dirs, chains, e, d);
    if Place(e) == Some(d) {
      HitsFollowSlots(e, DirSlots(v, d), DirSlots(v', d), name, EntriesOf(v, d, name), EntriesOf(v', d, name));
    }
  }

  /** The cluster of a new directory is no directory's yet. */
  lemma NotMadeHere(g: Geometry, v: Vol, v': Vol, dirs: set<nat>, chains: map<nat, seq<nat>>, e: Event, d: nat)
    requires Owned(g, v, dirs, chains) && Happens(g, v, e, v') && d in dirs
    ensures !(e.MadeDirectory? && e.c == d)
  {
    if e.MadeDirectory? {
      var vm :| MadeDir(g, v, vm, v', e.dir, e.name, e.c, e.p);
      DirIsOk(g, v, dirs, chains, d);
      ClaimSparesDir(g, v, vm, e.c, d);
    }
  }

  /** The event neither removes the file nor adds an entry that answers to its name. */
  predicate Leaves(e: Event, d: nat, name: seq<byte>, f: File) {
    Place(e) == Some(d) ==>
      match e
      case WroteFile(_, added, _, _, _) => !SameName(added, name)
      case MadeDirectory(_, added, _, _) => !SameName(added, name)
      case DeletedFile(_, h, _) => h.slot != f.hit.slot
      case _ => true
  }

  lemma LeavesHits(g: Geometry, v: Vol, v': Vol, e: Event, d: nat, name: seq<byte>, f: File)
    requires Happens(g, v, e, v') && Leaves(e, d, name, f) && Place(e) == Some(d)
    ensures HitsChanged(e, name, [f.hit]) == [f.hit] && !Removes(e, d, f)
  {
    HiddenIsHidden(g, v, v', e);
    if EntryOf(e).Some? {
      EntryKind(e);
    } else {
      NothingWithoutOne(f.hit, e);
    }
  }

  lemma HiddenIsHidden(g: Geometry, v: Vol, v': Vol, e: Event)
    requires Happens(g, v, e, v')
    ensures e.HiddenFile? || e.HiddenDirectory? ==> !Visible(e.name)
    ensures e.WroteFile? ==> Visible(e.name)
  {
  }

  lemma NothingWithoutOne(h: Hit, e: Event)
    requires e.DeletedFile? ==> e.h.slot != h.slot
    ensures e.DeletedFile? ==> WithoutSlot([h], e.h.slot) == [h]
  {
    assert [h][1..] == [];
  }

  /**
   * So a file that the event neither removes nor hides behind a new entry of its name keeps its
   * entry, its chain and its bytes, and its name leads to nothing else.
   */
  lemma FileStays(g: Geometry, v: Vol, v': Vol, dirs: set<nat>, chains: map<nat, seq<nat>>, e: Event, d: nat, name: seq<byte>, f: File)
    requires Owned(g, v, dirs, chains) && Occurs(g, v, dirs, e, v') && d in dirs
    requires Sole(g, v, d, name, f) && Leaves(e, d, name, f)
    ensures Sole(g, v', d, name, f)
  {
    SoleHit(g, v, d, name, f);
    if Place(e) == Some(d) {
      LeavesHits(g, v, v', e, d, name, f);
    }
    NotMadeHere(g, v, v', dirs, chains, e, d);
    HitsFollow(g, v, v', dirs, chains, e, d, name);
    FileKept(g, v, v', dirs, chains, e, d, f);
    HitIsSole(g, v', d, name, f);
  }

  lemma SoleHit(g: Geometry, v: Vol, d: nat, name: seq<byte>, f: File)
    requires Sole(g, v, d, name, f)
    ensures FileAt(g, v, d, f) && EntriesOf(v, d, name) == [f.hit]
  {
    StoredFile(g, v, d, name, f);
    OneHit(DirSlots(v, d), name, f.hit);
  }

  lemma HitIsSole(g: Geometry, v: Vol, d: nat, name: seq<byte>, f: File)
    requires FileAt(g, v, d, f) && EntriesOf(v, d, name) == [f.hit] && f.hit.start + LfnCount(name) <= f.hit.slot
    ensures Sole(g, v, d, name, f)
  {
    OneHit(DirSlots(v, d), name, f.hit);
  }

  // ---------- the files after an event ----------

  /** The files known, by directory and by the slot of their entry. */
  type Entries = map<nat, map<nat, File>>

  ghost predicate HasFile(g: Geometry, v: Vol, d: nat, files: map<nat, File>, s: nat)
    requires s in files
  {
    files[s].hit.slot == s && FileAt(g, v, d, files[s])
  }

  ghost predicate HasFiles(g: Geometry, v: Vol, d: nat, files: map<nat, File>) {
    forall s {:trigger HasFile(g, v, d, files, s)} :: s in files ==> HasFile(g, v, d, files, s)
  }

  /** Every file's entry is among the slots. */
  ghost predicate Knows(v: Vol, d: nat, files: map<nat, File>) {
    forall s: nat {:trigger Owns(v, d, s)} :: Owns(v, d, s) && !IsDirSlot(DirSlots(v, d)[s]) ==> s in files
  }

  function FilesAfter(files: map<nat, File>, e: Event): map<nat, File> {
    match e
    case WroteFile(_, name, cs, data, p) => files[p + LfnCount(name) := File(Hit(p, p + LfnCount(name)), cs, data)]
    case DeletedFile(_, h, _) => files - {h.slot}
    case _ => files
  }

  function FilesThen(d: nat, files: map<nat, File>, e: Event): map<nat, File> {
    if Place(e) == Some(d) then FilesAfter(files, e) else files
  }

  lemma WriteThere(g: Geometry, v: Vol, vm: Vol, v': Vol, d: nat, name: seq<byte>, cs: seq<nat>, data: seq<byte>, p: nat, f: File)
    requires IsName(name) && Visible(name) && Wrote(g, v, vm, v', d, name, cs, data, p) && DirOk(g, v', d)
    requires f == File(Hit(p, p + LfnCount(name)), cs, data)
    ensures FileAt(g, v', d, f)
  {
    WriteChanges(g, v, vm, v', d, name, cs, data, p);
    NewHitThere(DirSlots(v, d), DirSlots(v', d), p, name, cs[0], |data|, f.hit);
    NewChainHolds(g, v, vm, v', d, name, cs, data, p);
  }

  lemma NewHitThere(slots: Slots, a: Slots, p: nat, name: seq<byte>, cluster: nat, size: nat, h: Hit)
    requires Adds(slots, a, p, name, ATTR_FILE, cluster, size) && Visible(name) && h == Hit(p, p + LfnCount(name))
    ensures ValidHit(a, h) && !IsDirSlot(a[h.slot]) && ClusterOf(a[h.slot]) == cluster && SizeOf(a[h.slot]) == size
  {
    AddedShape(slots, p, name, ATTR_FILE, cluster, size);
    SameOutside(slots, a, p, LfnCount(name) + 1);
    RunLooks(a, p, name, ATTR_FILE, cluster, size);
    NewSlotReadsBack(slots, p, name, cluster, size, a);
  }

  /** The volume between the two halves of a write. */
  lemma WrittenBetween(g: Geometry, v: Vol, v': Vol, e: Event) returns (vm: Vol)
    requires e.WroteFile? && Happens(g, v, e, v')
    ensures IsName(e.name) && Visible(e.name) && Wrote(g, v, vm, v', e.dir, e.name, e.cs, e.data, e.p)
  {
    vm :| Wrote(g, v, vm, v', e.dir, e.name, e.cs, e.data, e.p);
  }

  /** Where a file is after the event: it was there before, or is the one written. */
  lemma ThenFrom(d: nat, files: map<nat, File>, e: Event, after: map<nat, File>, s: nat)
    requires after == FilesThen(d, files, e) && s in after
    ensures if e.WroteFile? && e.dir == d && s == e.p + LfnCount(e.name) then after[s] == File(Hit(e.p, s), e.cs, e.data)
            else s in files && after[s] == files[s] && !(e.DeletedFile? && e.dir == d && e.h.slot == s)
  {
  }

  lemma FilesFollow(g: Geometry, v: Vol, v': Vol, dirs: set<nat>, chains: map<nat, seq<nat>>, e: Event, d: nat, files: map<nat, File>, after: map<nat, File>)
    requires Owned(g, v, dirs, chains) && Occurs(g, v, dirs, e, v') && d in dirs
    requires HasFiles(g, v, d, files) && after == FilesThen(d, files, e)
    ensures HasFiles(g, v', d, after)
  {
    forall s | s in after ensures HasFile(g, v', d, after, s) {
      ThenFrom(d, files, e, after, s);
      if e.WroteFile? && e.dir == d && s == e.p + LfnCount(e.name) {
        NewFileThere(g, v, v', dirs, chains, e, after[s]);
      } else {
        assert HasFile(g, v, d, files, s);
        FileKept(g, v, v', dirs, chains, e, d, files[s]);
      }
    }
  }

  lemma NewFileThere(g: Geometry, v: Vol, v': Vol, dirs: set<nat>, chains: map<nat, seq<nat>>, e: Event, f: File)
    requires e.WroteFile? && Owned(g, v, dirs, chains) && Occurs(g, v, dirs, e, v')
    requires f == File(Hit(e.p, e.p + LfnCount(e.name)), e.cs, e.data)
    ensures FileAt(g, v', e.dir, f)
  {
    DirStaysOk(g, v, v', dirs, chains, e, e.dir);
    var vm := WrittenBetween(g, v, v', e);
    WriteThere(g, v, vm, v', e.dir, e.name, e.cs, e.data, e.p, f);
  }

  // ---------- no file is missed ----------

  /** A live file's entry after the event was one before, unless it is the one written. */
  lemma OwnerFollows(g: Geometry, v: Vol, v': Vol, dirs: set<nat>, chains: map<nat, seq<nat>>, e: Event, d: nat, s: nat)
    requires Owned(g, v, dirs, chains) && Occurs(g, v, dirs, e, v') && d in dirs
    requires Owns(v', d, s) && !IsDirSlot(DirSlots(v', d)[s])
    ensures || (e.WroteFile? && e.dir == d && s == e.p + LfnCount(e.name))
            || (Owns(v, d, s) && !IsDirSlot(DirSlots(v, d)[s]) && !(e.DeletedFile? && e.dir == d && e.h.slot == s))
  {
    EventSlots(g, v, v', dirs, chains, e, d);
    DirIsOk(g, v, dirs, chains, d);
    if Place(e) == Some(d) {
      HiddenIsHidden(g, v, v', e);
      SlotFollows(e, DirSlots(v, d), DirSlots(v', d), d, s);
    }
  }

  lemma SlotFollows(e: Event, slots: Slots, slots': Slots, d: nat, s: nat)
    requires SlotsChange(e, slots, slots') && (e.HiddenFile? ==> !Visible(e.name))
    requires DotsFirst(slots, d) && OwnsIn(slots', d, s) && !IsDirSlot(slots'[s])
    ensures || (e.WroteFile? && s == e.p + LfnCount(e.name))
            || (OwnsIn(slots, d, s) && slots'[s] == slots[s] && !(e.DeletedFile? && e.h.slot == s))
  {
    if EntryOf(e).Some? {
      var x := EntryOf(e).value;
      AddedSlot(slots, slots', d, x.p, x.name, x.attributes, x.cluster, x.size, s);
      EntryKind(e);
    } else {
      assert slots'[s] == if e.h.start <= s <= e.h.slot then Erase(slots[s]) else slots[s];
    }
  }

  lemma EntryKind(e: Event)
    requires EntryOf(e).Some?
    ensures EntryOf(e).value.attributes == (if e.WroteFile? || e.HiddenFile? then ATTR_FILE else ATTR_DIR)
    ensures e.WroteFile? || e.HiddenFile? || e.MadeDirectory? || e.HiddenDirectory?
    ensures EntryOf(e).value.name == e.name && EntryOf(e).value.p == e.p
  {
  }

  lemma AddedSlot(slots: Slots, a: Slots, d: nat, p: nat, name: seq<byte>, attributes: nat, cluster: nat, size: nat, s: nat)
    requires Adds(slots, a, p, name, attributes, cluster, size) && (attributes == ATTR_FILE || attributes == ATTR_DIR) && OwnsIn(a, d, s)
    ensures || (s == p + LfnCount(name) && Visible(name) && (IsDirSlot(a[s]) <==> attributes == ATTR_DIR))
            || (OwnsIn(slots, d, s) && a[s] == slots[s])
  {
    AddedShape(slots, p, name, attributes, cluster, size);
    SameOutside(slots, a, p, LfnCount(name) + 1);
    RunLooks(a, p, name, attributes, cluster, size);
    NewSlotKind(a[p + LfnCount(name)], name, attributes, cluster, size);
  }

  lemma KnowsFollows(g: Geometry, v: Vol, v': Vol, dirs: set<nat>, chains: map<nat, seq<nat>>, e: Event, d: nat, files: map<nat, File>, after: map<nat, File>)
    requires Owned(g, v, dirs, chains) && Occurs(g, v, dirs, e, v') && d in dirs
    requires Knows(v, d, files) && after == FilesThen(d, files, e)
    ensures Knows(v', d, after)
  {
    forall s: nat | Owns(v', d, s) && !IsDirSlot(DirSlots(v', d)[s]) ensures s in after {
      OwnerFollows(g, v, v', dirs, chains, e, d, s);
      ThenHas(d, files, e, after, s);
    }
  }

  lemma ThenHas(d: nat, files: map<nat, File>, e: Event, after: map<nat, File>, s: nat)
    requires after == FilesThen(d, files, e)
    requires (e.WroteFile? && e.dir == d && s == e.p + LfnCount(e.name)) || (s in files && !(e.DeletedFile? && e.dir == d && e.h.slot == s))
    ensures s in after
  {
  }

  // ---------- a new directory ----------

  lemma NewDirHits(slots: Slots, stale: Slots, c: nat, parent: nat, name: seq<byte>)
    requires NewDir(slots, stale, c, parent)
    ensures Hits(slots, 0, name) == NewHits(name)
  {
    FirstSlots(c, parent);
    CleanIsEmpty();
    DotNames(name);
    assert slots[2] == FirstSlot(c, parent, 2) && slots[0] == FirstSlot(c, parent, 0) && slots[1] == FirstSlot(c, parent, 1);
    DotHits(slots, name);
  }

  lemma DotHits(slots: Slots, name: seq<byte>)
    requires |slots| >= 3 && slots[2][0] == 0 && Clean.buf[0] == 0 && Clean.start == -1
    requires !Free(slots[0]) && !IsLfn(slots[0]) && slots[0][..11] == Format83(Here)
    requires !Free(slots[1]) && !IsLfn(slots[1]) && slots[1][..11] == Format83(Up) && Format83(Here) != Format83(Up)
    ensures Hits(slots, 0, name) == NewHits(name)
  {
    NoHits(slots, 2, name);
    SecondDot(slots, name);
    assert Find(slots, 0, Clean, name, Any) == if Format83(name) == Format83(Here) then Some(Hit(0, 0)) else Find(slots, 1, Clean, name, Any);
    if Format83(name) == Format83(Here) {
      HitsThen(slots, 0, name, Hit(0, 0));
      NoHits(slots, 1, name);
    } else if Format83(name) == Format83(Up) {
      HitsThen(slots, 0, name, Hit(1, 1));
    } else {
      NoHits(slots, 0, name);
    }
  }

  lemma SecondDot(slots: Slots, name: seq<byte>)
    requires |slots| >= 3 && slots[2][0] == 0 && Clean.buf[0] == 0 && Clean.start == -1
    requires !Free(slots[1]) && !IsLfn(slots[1]) && slots[1][..11] == Format83(Up)
    ensures Find(slots, 1, Clean, name, Any) == if Format83(name) == Format83(Up) then Some(Hit(1, 1)) else None
    ensures Find(slots, 2, Clean, name, Any) == None
  {
    assert Find(slots, 2, Clean, name, Any) == None;
  }

  /** A directory just made, when it is usable: "." and "..", and no file. */
  lemma NewDirHolds(g: Geometry, v: Vol, v': Vol, e: Event)
    requires e.MadeDirectory? && Happens(g, v, e, v') && e.c < |v.clusters| && NeverUsed(SlotsOf(v.clusters[e.c]))
    ensures forall name {:trigger EntriesOf(v', e.c, name)} :: EntriesOf(v', e.c, name) == NewHits(name)
    ensures Knows(v', e.c, map[])
  {
    var vm :| MadeDir(g, v, vm, v', e.dir, e.name, e.c, e.p);
    NewDirIsEmpty(g, v, vm, v', e.dir, e.name, e.c, e.p);
    NewDirLaid(g, v, vm, v', e.dir, e.name, e.c, e.p);
    forall name ensures EntriesOf(v', e.c, name) == NewHits(name) {
      NewDirHits(DirSlots(v', e.c), SlotsOf(v.clusters[e.c]), e.c, e.dir, name);
    }
  }

  // ---------- a step of the tree ----------

  ghost predicate HoldsFiles(g: Geometry, v: Vol, entries: Entries, d: nat)
    requires d in entries
  {
    HasFiles(g, v, d, entries[d])
  }

  /** The files are there. */
  ghost predicate TreeHolds(g: Geometry, v: Vol, dirs: set<nat>, entries: Entries) {
    entries.Keys <= dirs && forall d {:trigger HoldsFiles(g, v, entries, d)} :: d in entries ==> HoldsFiles(g, v, entries, d)
  }

  ghost predicate KnowsFiles(v: Vol, entries: Entries, d: nat)
    requires d in entries
  {
    Knows(v, d, entries[d])
  }

  /** There are no others. */
  ghost predicate TreeKnows(v: Vol, entries: Entries) {
    forall d {:trigger KnowsFiles(v, entries, d)} :: d in entries ==> KnowsFiles(v, entries, d)
  }

  /** A write adds the file it writes, a deletion takes one away; a usable new directory has none. */
  ghost function EntriesAfter(v: Vol, entries: Entries, e: Event): Entries {
    var t := if Place(e).Some? && Place(e).value in entries then entries[Place(e).value := FilesAfter(entries[Place(e).value], e)] else entries;
    if e.MadeDirectory? && e.c < |v.clusters| && NeverUsed(SlotsOf(v.clusters[e.c])) then t[e.c := map[]] else t
  }

  lemma EntriesThen(v: Vol, dirs: set<nat>, entries: Entries, e: Event, after: Entries, d: nat)
    requires after == EntriesAfter(v, entries, e) && d in after && entries.Keys <= dirs && (e.MadeDirectory? ==> e.c !in dirs)
    ensures if e.MadeDirectory? && d == e.c then after[d] == map[] && e.c < |v.clusters| && NeverUsed(SlotsOf(v.clusters[e.c]))
            else d in entries && after[d] == FilesThen(d, entries[d], e)
    ensures d in DirsAfter(v, dirs, e)
  {
  }

  lemma NewOutside(g: Geometry, v: Vol, v': Vol, dirs: set<nat>, chains: map<nat, seq<nat>>, e: Event)
    requires Owned(g, v, dirs, chains) && Happens(g, v, e, v')
    ensures e.MadeDirectory? ==> e.c !in dirs
  {
    if e.MadeDirectory? && e.c in dirs {
      NotMadeHere(g, v, v', dirs, chains, e, e.c);
    }
  }

  /** After the event the tree has the files that it gives, and no others if it had no others. */
  lemma EventKeepsTree(g: Geometry, v: Vol, v': Vol, dirs: set<nat>, chains: map<nat, seq<nat>>, e: Event, entries: Entries, dirs': set<nat>, after: Entries)
    requires Owned(g, v, dirs, chains) && Occurs(g, v, dirs, e, v') && TreeHolds(g, v, dirs, entries)
    requires dirs' == DirsAfter(v, dirs, e) && after == EntriesAfter(v, entries, e)
    ensures TreeHolds(g, v', dirs', after) && (TreeKnows(v, entries) ==> TreeKnows(v', after))
  {
    NewOutside(g, v, v', dirs, chains, e);
    forall d | d in after ensures d in dirs' && HoldsFiles(g, v', after, d) && (TreeKnows(v, entries) ==> KnowsFiles(v', after, d)) {
      EntriesThen(v, dirs, entries, e, after, d);
      if e.MadeDirectory? && d == e.c {
        NewDirHolds(g, v, v', e);
      } else {
        assert HoldsFiles(g, v, entries, d);
        FilesFollow(g, v, v', dirs, chains, e, d, entries[d], after[d]);
        if TreeKnows(v, entries) {
          assert KnowsFiles(v, entries, d);
          KnowsFollows(g, v, v', dirs, chains, e, d, entries[d], after[d]);
        }
      }
    }
  }

  lemma NamesFollow(g: Geometry, v: Vol, v': Vol, dirs: set<nat>, chains: map<nat, seq<nat>>, e: Event, d: nat, name: seq<byte>)
    requires Owned(g, v, dirs, chains) && Occurs(g, v, dirs, e, v') && d in DirsAfter(v, dirs, e)
    ensures EntriesOf(v', d, name) == HitsAfter(e, d, name, EntriesOf(v, d, name))
  {
    NewOutside(g, v, v', dirs, chains, e);
    if e.MadeDirectory? && d == e.c {
      NewDirHolds(g, v, v', e);
    } else {
      HitsFollow(g, v, v', dirs, chains, e, d, name);
    }
  }

  // ---------- runs ----------

  ghost function EntriesAt(vs: seq<Vol>, entries: Entries, es: seq<Event>, n: nat): Entries
    requires n <= |es| <= |vs|
  {
    if n == 0 then entries else EntriesAfter(vs[n - 1], EntriesAt(vs, entries, es, n - 1), es[n - 1])
  }

  /** The entries a name answers to after n events, by the events alone. */
  function HitsAt(es: seq<Event>, d: nat, name: seq<byte>, was: seq<Hit>, n: nat): seq<Hit>
    requires n <= |es|
  {
    if n == 0 then was else HitsAfter(es[n - 1], d, name, HitsAt(es, d, name, was, n - 1))
  }

  ghost predicate NamesAt(v0: Vol, v: Vol, dirs: set<nat>, es: seq<Event>, n: nat)
    requires n <= |es|
  {
    forall d, name {:trigger EntriesOf(v, d, name)} :: d in dirs ==> EntriesOf(v, d, name) == HitsAt(es, d, name, EntriesOf(v0, d, name), n)
  }

  /** After n events the directories have the files that the events give, and no others if they had
      no others, and each name answers to the entries that they give; and so after each before. */
  ghost predicate HoldsUpTo(g: Geometry, dirs: set<nat>, entries: Entries, vs: seq<Vol>, es: seq<Event>, n: nat)
    requires |vs| == |es| + 1 && n <= |es|
  {
    && TreeHolds(g, vs[n], DirsAt(vs, dirs, es, n), EntriesAt(vs, entries, es, n))
    && (TreeKnows(vs[0], entries) ==> TreeKnows(vs[n], EntriesAt(vs, entries, es, n)))
    && NamesAt(vs[0], vs[n], DirsAt(vs, dirs, es, n), es, n)
    && (n > 0 ==> HoldsUpTo(g, dirs, entries, vs, es, n - 1))
  }

  lemma NamesNext(g: Geometry, dirs: set<nat>, chains: map<nat, seq<nat>>, v0: Vol, v: Vol, v': Vol, es: seq<Event>, n: nat, dirs': set<nat>)
    requires n < |es| && Owned(g, v, dirs, chains) && Occurs(g, v, dirs, es[n], v') && dirs' == DirsAfter(v, dirs, es[n])
    requires NamesAt(v0, v, dirs, es, n)
    ensures NamesAt(v0, v', dirs', es, n + 1)
  {
    forall d, name | d in dirs' ensures EntriesOf(v', d, name) == HitsAt(es, d, name, EntriesOf(v0, d, name), n + 1) {
      NamesFollow(g, v, v', dirs, chains, es[n], d, name);
      assert d in dirs ==> EntriesOf(v, d, name) == HitsAt(es, d, name, EntriesOf(v0, d, name), n);
    }
  }

  lemma HoldsNext(g: Geometry, dirs: set<nat>, chains: map<nat, seq<nat>>, entries: Entries, vs: seq<Vol>, es: seq<Event>, n: nat)
    requires |vs| == |es| + 1 && n < |es| && RunTo(g, dirs, vs, es, n + 1)
    requires OwnedUpTo(g, dirs, chains, vs, es, n) && HoldsUpTo(g, dirs, entries, vs, es, n)
    ensures HoldsUpTo(g, dirs, entries, vs, es, n + 1)
  {
    EventKeepsTree(g, vs[n], vs[n + 1], DirsAt(vs, dirs, es, n), ChainsAt(chains, es, n), es[n], EntriesAt(vs, entries, es, n),
                   DirsAt(vs, dirs, es, n + 1), EntriesAt(vs, entries, es, n + 1));
    NamesNext(g, DirsAt(vs, dirs, es, n), ChainsAt(chains, es, n), vs[0], vs[n], vs[n + 1], es, n, DirsAt(vs, dirs, es, n + 1));
  }

  /**
   * Over every run of events in whatever usable directories: the files are exactly those that the
   * events give, each with its own chain and the bytes it was written with; and every name, in every
   * directory, answers to exactly the entries that the events give, of which it leads to the first.
   */
  lemma {:induction false} TreeRun(g: Geometry, dirs: set<nat>, chains: map<nat, seq<nat>>, entries: Entries, vs: seq<Vol>, es: seq<Event>, n: nat)
    requires |vs| == |es| + 1 && n <= |es| && RunTo(g, dirs, vs, es, n)
    requires Owned(g, vs[0], dirs, chains) && TreeHolds(g, vs[0], dirs, entries)
    ensures HoldsUpTo(g, dirs, entries, vs, es, n)
    decreases n
  {
    if n > 0 {
      TreeRun(g, dirs, chains, entries, vs, es, n - 1);
      RunKeepsChains(g, dirs, chains, vs, es, n - 1);
      HoldsNext(g, dirs, chains, entries, vs, es, n - 1);
    }
  }

  // ---------- a write through a node ----------

  /** Files by directory and name, each the only one of its name. */
  type Tree = map<nat, map<seq<byte>, File>>

  ghost predicate HoldsIn(g: Geometry, v: Vol, tree: Tree, d: nat)
    requires d in tree
  {
    Holds(g, v, d, tree[d])
  }

  ghost predicate HoldsTree(g: Geometry, v: Vol, dirs: set<nat>, tree: Tree) {
    tree.Keys <= dirs && forall d {:trigger HoldsIn(g, v, tree, d)} :: d in tree ==> HoldsIn(g, v, tree, d)
  }

  /** A write through a node of directory `dir` leaves every file of every other directory alone ... */
  lemma NodeSparesFile(g: Geometry, v: Vol, mid: Vol, v': Vol, dirs: set<nat>, chains: map<nat, seq<nat>>, dir: nat, gone: Option<Event>, put: Event,
                       d: nat, f: File)
    requires Owned(g, v, dirs, chains) && OccursIf(g, v, dirs, gone, mid) && Occurs(g, mid, dirs, put, v')
    requires InPlace(gone, dir) && InPlace(Some(put), dir)
    requires d in dirs && d != dir && FileAt(g, v, d, f)
    ensures FileAt(g, v', d, f)
  {
    if gone.Some? {
      Away(gone.value, dir, d, f);
      FileKept(g, v, mid, dirs, chains, gone.value, d, f);
    }
    HalfKeepsOwned(g, v, mid, dirs, chains, dir, gone);
    Away(put, dir, d, f);
    FileKept(g, mid, v', dirs, ChainsAfterIf(chains, gone), put, d, f);
  }

  /** ... and the entries that each name answers to there. */
  lemma NodeSparesName(g: Geometry, v: Vol, mid: Vol, v': Vol, dirs: set<nat>, chains: map<nat, seq<nat>>, dir: nat, gone: Option<Event>, put: Event,
                       d: nat, name: seq<byte>)
    requires Owned(g, v, dirs, chains) && OccursIf(g, v, dirs, gone, mid) && Occurs(g, mid, dirs, put, v')
    requires InPlace(gone, dir) && InPlace(Some(put), dir) && d in dirs && d != dir
    ensures EntriesOf(v', d, name) == EntriesOf(v, d, name)
  {
    if gone.Some? {
      HitsFollow(g, v, mid, dirs, chains, gone.value, d, name);
    }
    HalfKeepsOwned(g, v, mid, dirs, chains, dir, gone);
    HitsFollow(g, mid, v', dirs, ChainsAfterIf(chains, gone), put, d, name);
  }

  /** The event makes no directory, and changes the entries of no directory but `dir`. */
  predicate InPlace(e: Option<Event>, dir: nat) {
    e.Some? ==> !e.value.MadeDirectory? && (Place(e.value).Some? ==> Place(e.value).value == dir)
  }

  lemma Away(e: Event, dir: nat, d: nat, f: File)
    requires InPlace(Some(e), dir) && d != dir
    ensures !Removes(e, d, f)
  {
  }

  lemma HalfKeepsOwned(g: Geometry, v: Vol, v': Vol, dirs: set<nat>, chains: map<nat, seq<nat>>, dir: nat, e: Option<Event>)
    requires Owned(g, v, dirs, chains) && OccursIf(g, v, dirs, e, v') && InPlace(e, dir)
    ensures Owned(g, v', dirs, ChainsAfterIf(chains, e))
  {
    if e.Some? {
      EventKeepsOwned(g, v, v', dirs, chains, e.value, DirsAfter(v, dirs, e.value), ChainsAfter(chains, e.value));
    }
  }

  lemma NodeInPlace(dir: nat, files: map<seq<byte>, File>, name: seq<byte>, length: nat, ok: bool, f: File)
    ensures InPlace(GoneEvent(dir, files, name, length), dir) && InPlace(Some(PutEvent(dir, name, ok, f)), dir)
  {
  }

  lemma NodeSparesDir(g: Geometry, v: Vol, mid: Vol, v': Vol, dirs: set<nat>, chains: map<nat, seq<nat>>, chains': map<nat, seq<nat>>, dir: nat, gone: Option<Event>, put: Event,
                      d: nat, files: map<seq<byte>, File>)
    requires Owned(g, v, dirs, chains) && OccursIf(g, v, dirs, gone, mid) && Occurs(g, mid, dirs, put, v') && Owned(g, v', dirs, chains')
    requires InPlace(gone, dir) && InPlace(Some(put), dir)
    requires d in dirs && d != dir && Holds(g, v, d, files)
    ensures Holds(g, v', d, files)
  {
    DirIsOk(g, v', dirs, chains', d);
    forall n | n in files ensures Sole(g, v', d, n, files[n]) {
      assert Sole(g, v, d, n, files[n]);
      SoleHit(g, v, d, n, files[n]);
      NodeSparesFile(g, v, mid, v', dirs, chains, dir, gone, put, d, files[n]);
      NodeSparesName(g, v, mid, v', dirs, chains, dir, gone, put, d, n);
      HitIsSole(g, v', d, n, files[n]);
    }
  }

  /** The files after a write through a node: in its directory what NodeWritten says, and in every
      other directory those there were. */
  ghost predicate TreeWritten(g: Geometry, v: Vol, v': Vol, tree: Tree, dir: nat, name: seq<byte>, length: nat, offset: nat, buf: seq<byte>, ok: bool, f: File) {
    && dir in tree && IsName(name) && dir < |v.clusters|
    && NodeWritten(g, v, v', dir, tree[dir], name, length, offset, buf, ok, f)
    && forall d {:trigger HoldsIn(g, v', tree, d)} :: d in tree && d != dir ==> HoldsIn(g, v', tree, d)
  }

  lemma NodeSparesOthers(g: Geometry, v: Vol, mid: Vol, v': Vol, dirs: set<nat>, chains: map<nat, seq<nat>>, chains': map<nat, seq<nat>>, dir: nat, gone: Option<Event>, put: Event, tree: Tree)
    requires Owned(g, v, dirs, chains) && OccursIf(g, v, dirs, gone, mid) && Occurs(g, mid, dirs, put, v') && Owned(g, v', dirs, chains')
    requires InPlace(gone, dir) && InPlace(Some(put), dir) && HoldsTree(g, v, dirs, tree)
    ensures forall d {:trigger HoldsIn(g, v', tree, d)} :: d in tree && d != dir ==> HoldsIn(g, v', tree, d)
  {
    forall d | d in tree && d != dir ensures HoldsIn(g, v', tree, d) {
      assert HoldsIn(g, v, tree, d);
      NodeSparesDir(g, v, mid, v', dirs, chains, chains', dir, gone, put, d, tree[d]);
    }
  }

  /** Unless the node recorded length 0 for a file that exists, the tree has exactly that file anew. */
  lemma WrittenTree(g: Geometry, v: Vol, v': Vol, dirs: set<nat>, tree: Tree, dir: nat, name: seq<byte>, length: nat, offset: nat, buf: seq<byte>, ok: bool, f: File)
    requires TreeWritten(g, v, v', tree, dir, name, length, offset, buf, ok, f) && tree.Keys <= dirs
    requires !(name in tree[dir] && length == 0)
    ensures HoldsTree(g, v', dirs, tree[dir := tree[dir][name := f]])
  {
    var after := tree[dir := tree[dir][name := f]];
    forall d | d in after ensures HoldsIn(g, v', after, d) {
      if d != dir {
        assert HoldsIn(g, v', tree, d);
      }
    }
  }

  /**
   * fat16_vfs_write with the files of the whole tree: the write takes place in one directory, every
   * file of every other one keeps its entry, chain and bytes, and the chains are the entries' again.
   */
  method WriteNode(tv: TrackedVolume, dir: nat, name: seq<byte>, length: nat, offset: nat, buf: seq<byte>, memory: bool, behind: Sector, ghost tree: Tree)
    returns (n: nat, length': nat, ghost ok: bool, ghost f: File)
    requires tv.Sound() && HoldsTree(tv.vol.g, tv.vol.V(), tv.dirs, tree) && dir in tree && Holds(tv.vol.g, tv.vol.V(), dir, tree[dir])
    requires IsNode(tv.vol.g, tv.vol.V(), dir, tree[dir], name)
    requires RoomApart(SlotsLeft(tv.vol.V(), dir, tree[dir], name, length), LfnCount(name) + 1)
    requires length < 0x1_0000_0000 && offset + |buf| < 0x1_0000_0000
    requires EnoughSpace(tv.vol.g, tv.vol.V(), tree[dir], name, length, Max(length, offset + |buf|))
    modifies tv, tv.vol`disk
    ensures tv.Sound() && tv.dirs == old(tv.dirs)
    ensures !memory ==> n == 0 && length' == length && tv.vol.V() == old(tv.vol.V()) && tv.chains == old(tv.chains)
    ensures memory ==> n == |buf| && length' == Max(length, offset + |buf|)
    ensures memory ==> TreeWritten(tv.vol.g, old(tv.vol.V()), tv.vol.V(), tree, dir, name, length, offset, buf, ok, f)
  {
    ghost var v, dirs, chains := tv.vol.V(), tv.dirs, tv.chains;
    ghost var mid;
    n, length', mid, ok, f := tv.VfsWrite(dir, name, length, offset, buf, memory, behind, tree[dir]);
    if memory {
      NodeInPlace(dir, tree[dir], name, length, ok, f);
      NodeSparesOthers(tv.vol.g, v, mid, tv.vol.V(), dirs, chains, tv.chains, dir, GoneEvent(dir, tree[dir], name, length), PutEvent(dir, name, ok, f), tree);
    }
  }
}
