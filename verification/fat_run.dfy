/**
 * Whole runs of the file-system operations, anywhere in the tree: the cluster chains stay those
 * of the entries on disk.
 */
module FatRun {
  import opened Common
  import opened FatConst
  import opened Bytes
  import opened FatNames
  import opened FatDir
  import opened FatDirUpdate
  import opened FatDirTheorems
  import opened FatDisk
  import opened FatDirIo
  import opened FatDirWrite
  import opened FatFiles
  import opened FatVolume
  import opened FatVolumeIo
  import opened FatDirectory
  import opened PathText
  import opened FatChdir
  import opened FatFileSystem
  import opened FatMkdir
  import opened FatOwned
  import C = FatChain

  // ---------- what the operations do to the volume ----------

  /**
   * One operation as its contract describes it.  A copy is a WroteFile like any other write, and
   * fat16_vfs_write is at most a DeletedFile and then a write (GoneOccurs, PutOccurs).  The Lost events met
   * a full directory; the Hidden ones wrote an entry that no scan sees.
   */
  datatype Event =
    | WroteFile(dir: nat, name: seq<byte>, cs: seq<nat>, data: seq<byte>, p: nat)
    | HiddenFile(dir: nat, name: seq<byte>, cs: seq<nat>, data: seq<byte>, p: nat)
    | LostFile(cs: seq<nat>, data: seq<byte>)
    | DeletedFile(dir: nat, h: Hit, cs: seq<nat>)
    | MadeDirectory(dir: nat, name: seq<byte>, c: nat, p: nat)
    | HiddenDirectory(dir: nat, name: seq<byte>, c: nat, p: nat)
    | LostDirectory(c: nat, parent: nat)

  ghost predicate Happens(g: Geometry, v: Vol, e: Event, v': Vol) {
    match e
    case WroteFile(dir, name, cs, data, p) => IsName(name) && Visible(name) && exists vm :: Wrote(g, v, vm, v', dir, name, cs, data, p)
    case HiddenFile(dir, name, cs, data, p) => IsName(name) && !Visible(name) && exists vm :: Wrote(g, v, vm, v', dir, name, cs, data, p)
    case LostFile(cs, data) => Filling(g, v, v', cs, data, Filled(cs, data), 0)
    case DeletedFile(dir, h, cs) => IsFileAt(g, v, dir, h, cs) && exists vm :: Deleted(g, v, vm, v', dir, h, cs)
    case MadeDirectory(dir, name, c, p) => Visible(name) && exists vm :: MadeDir(g, v, vm, v', dir, name, c, p)
    case HiddenDirectory(dir, name, c, p) => !Visible(name) && exists vm :: MadeDir(g, v, vm, v', dir, name, c, p)
    case LostDirectory(c, parent) => Claimed(g, v, v', c, parent)
  }

  /** The entry at h is a file's, and cs is its chain. */
  ghost predicate IsFileAt(g: Geometry, v: Vol, dir: nat, h: Hit, cs: seq<nat>) {
    && dir < |v.clusters| && h.slot < |DirSlots(v, dir)| && !IsDirSlot(DirSlots(v, dir)[h.slot])
    && C.IsChain(v.fat, g.limit, cs) && ClusterOf(DirSlots(v, dir)[h.slot]) == cs[0]
  }

  /** The directory whose entries an event changes. */
  function Place(e: Event): Option<nat> {
    match e
    case WroteFile(dir, _, _, _, _) => Some(dir)
    case HiddenFile(dir, _, _, _, _) => Some(dir)
    case DeletedFile(dir, _, _) => Some(dir)
    case MadeDirectory(dir, _, _, _) => Some(dir)
    case HiddenDirectory(dir, _, _, _) => Some(dir)
    case _ => None
  }

  /** An event in one of the directories. */
  ghost predicate Occurs(g: Geometry, v: Vol, dirs: set<nat>, e: Event, v': Vol) {
    Happens(g, v, e, v') && (Place(e).Some? ==> Place(e).value in dirs)
  }

  predicate Loses(e: Event) { e.LostFile? || e.LostDirectory? || e.HiddenFile? || e.HiddenDirectory? }

  /** The write of fat16_write_file and fat16_copy_file is an event ... */
  lemma WriteIsEvent(ok: bool, g: Geometry, v: Vol, vm: Vol, v': Vol, d: nat, name: seq<byte>, cs: seq<nat>, data: seq<byte>, p: nat)
    requires WriteResult(ok, g, v, vm, v', d, name, cs, data, p)
    ensures Happens(g, v, WriteEvent(ok, d, name, cs, data, p), v')
  {
  }

  function WriteEvent(ok: bool, d: nat, name: seq<byte>, cs: seq<nat>, data: seq<byte>, p: nat): Event {
    if !ok then LostFile(cs, data)
    else if Visible(name) then WroteFile(d, name, cs, data, p)
    else HiddenFile(d, name, cs, data, p)
  }

  /** ... so is a deletion that finds its file ... */
  lemma DeleteIsEvent(g: Geometry, v: Vol, vm: Vol, v': Vol, dirs: set<nat>, d: nat, name: seq<byte>, h: Hit, cs: seq<nat>) returns (e: Option<Event>)
    requires d in dirs && DeleteResult(g, v, vm, v', d, name, h, cs) && LeadsTo(g, v, d, name, h, cs)
    ensures OccursIf(g, v, dirs, e, v') && (e.Some? ==> e.value.DeletedFile? && e.value.dir == d)
    ensures Lookup(DirSlots(v, d), name, FileOnly) == if e.Some? then Some(e.value.h) else None
  {
    e := None;
    if Lookup(DirSlots(v, d), name, FileOnly).Some? {
      HitIsFile(g, v, d, name, h, cs);
      DeletionOccurs(g, v, vm, v', dirs, d, h, cs);
      e := Some(DeletedFile(d, h, cs));
    }
  }

  lemma HitIsFile(g: Geometry, v: Vol, d: nat, name: seq<byte>, h: Hit, cs: seq<nat>)
    requires DirOk(g, v, d) && LeadsTo(g, v, d, name, h, cs) && Lookup(DirSlots(v, d), name, FileOnly).Some?
    ensures IsFileAt(g, v, d, h, cs)
  {
    HitIsEntry(DirSlots(v, d), 0, Clean, name, FileOnly);
  }

  lemma DeletionOccurs(g: Geometry, v: Vol, vm: Vol, v': Vol, dirs: set<nat>, d: nat, h: Hit, cs: seq<nat>)
    requires d in dirs && IsFileAt(g, v, d, h, cs) && Deleted(g, v, vm, v', d, h, cs)
    ensures Occurs(g, v, dirs, DeletedFile(d, h, cs), v')
  {
  }

  /** ... so is create_dir, unless it does nothing ... */
  lemma CreateIsEvent(ok: bool, g: Geometry, v: Vol, vm: Vol, v': Vol, dirs: set<nat>, d: nat, name: seq<byte>, c: nat, p: nat) returns (e: Option<Event>)
    requires d in dirs && if ok then MadeDir(g, v, vm, v', d, name, c, p) else v' == v || Claimed(g, v, v', c, d)
    ensures OccursIf(g, v, dirs, e, v')
    ensures if e.None? then !ok else e.value == if ok then MakeEvent(d, name, c, p) else LostDirectory(c, d)
  {
    e := None;
    if ok {
      DirMadeOccurs(g, v, vm, v', dirs, d, name, c, p);
      e := Some(MakeEvent(d, name, c, p));
    } else if v' != v {
      e := Some(LostDirectory(c, d));
    }
  }

  lemma DirMadeOccurs(g: Geometry, v: Vol, vm: Vol, v': Vol, dirs: set<nat>, d: nat, name: seq<byte>, c: nat, p: nat)
    requires d in dirs && MadeDir(g, v, vm, v', d, name, c, p)
    ensures Occurs(g, v, dirs, MakeEvent(d, name, c, p), v')
  {
  }

  function MakeEvent(d: nat, name: seq<byte>, c: nat, p: nat): Event {
    if Visible(name) then MadeDirectory(d, name, c, p) else HiddenDirectory(d, name, c, p)
  }

  /** ... and a write through a node is a deletion, if the node knows of a file ... */
  lemma GoneOccurs(g: Geometry, v: Vol, mid: Vol, dirs: set<nat>, dir: nat, files: map<seq<byte>, File>, name: seq<byte>, length: nat)
    requires AllSole(g, v, dir, files) && dir in dirs && TakenOut(g, v, mid, dir, files, name, length)
    ensures OccursIf(g, v, dirs, GoneEvent(dir, files, name, length), mid)
  {
    if length > 0 && name in files {
      assert Sole(g, v, dir, name, files[name]);
      GoneIsEvent(g, v, mid, dir, name, files[name]);
    }
  }

  lemma GoneIsEvent(g: Geometry, v: Vol, mid: Vol, dir: nat, name: seq<byte>, f: File)
    requires Sole(g, v, dir, name, f) && exists vm :: Deleted(g, v, vm, mid, dir, f.hit, f.chain)
    ensures Happens(g, v, DeletedFile(dir, f.hit, f.chain), mid)
  {
    FileIsFile(g, v, dir, name, f);
  }

  lemma FileIsFile(g: Geometry, v: Vol, dir: nat, name: seq<byte>, f: File)
    requires Sole(g, v, dir, name, f)
    ensures IsFileAt(g, v, dir, f.hit, f.chain)
  {
  }

  /** ... and then a write. */
  lemma PutIsEvent(g: Geometry, v: Vol, v': Vol, dir: nat, name: seq<byte>, ok: bool, f: File)
    requires PutIn(g, v, v', dir, name, ok, f)
    ensures Happens(g, v, PutEvent(dir, name, ok, f), v')
  {
  }

  lemma PutOccurs(g: Geometry, v: Vol, v': Vol, dirs: set<nat>, dir: nat, name: seq<byte>, ok: bool, f: File)
    requires PutIn(g, v, v', dir, name, ok, f) && dir in dirs
    ensures Occurs(g, v, dirs, PutEvent(dir, name, ok, f), v')
  {
    PutIsEvent(g, v, v', dir, name, ok, f);
    PutPlace(dir, name, ok, f);
  }

  lemma PutPlace(dir: nat, name: seq<byte>, ok: bool, f: File)
    ensures Place(PutEvent(dir, name, ok, f)) == if ok then Some(dir) else None
  {
  }

  function GoneEvent(dir: nat, files: map<seq<byte>, File>, name: seq<byte>, length: nat): Option<Event> {
    if length > 0 && name in files then Some(DeletedFile(dir, files[name].hit, files[name].chain)) else None
  }

  function PutEvent(dir: nat, name: seq<byte>, ok: bool, f: File): Event {
    WriteEvent(ok, dir, name, f.chain, f.data, f.hit.start)
  }

  ghost predicate OccursIf(g: Geometry, v: Vol, dirs: set<nat>, e: Option<Event>, v': Vol) {
    if e.Some? then Occurs(g, v, dirs, e.value, v') else v' == v
  }

  // ---------- the chains and the directories after an event ----------

  /** What an event is to the FAT. */
  function OpOf(e: Event): C.Op {
    match e
    case WroteFile(_, _, cs, _, _) => C.Add(|cs|)
    case HiddenFile(_, _, cs, _, _) => C.Lost(|cs|)
    case LostFile(cs, _) => C.Lost(|cs|)
    case DeletedFile(_, _, cs) => C.Delete(if cs == [] then 0 else cs[0])
    case MadeDirectory(_, _, _, _) => C.Add(1)
    case HiddenDirectory(_, _, _, _) => C.Lost(1)
    case LostDirectory(_, _) => C.Lost(1)
  }

  function ChainsAfter(chains: map<nat, seq<nat>>, e: Event): map<nat, seq<nat>> {
    match e
    case WroteFile(_, _, cs, _, _) => if cs == [] then chains else chains[cs[0] := cs]
    case DeletedFile(_, _, cs) => if cs == [] then chains else chains - {cs[0]}
    case MadeDirectory(_, _, c, _) => chains[c := [c]]
    case _ => chains
  }

  function ChainsAfterIf(chains: map<nat, seq<nat>>, e: Option<Event>): map<nat, seq<nat>> {
    if e.Some? then ChainsAfter(chains, e.value) else chains
  }

  /** A new directory is usable if the rest of its cluster never held an entry. */
  ghost function DirsAfter(v: Vol, dirs: set<nat>, e: Event): set<nat> {
    match e
    case MadeDirectory(_, _, c, _) => if c < |v.clusters| && NeverUsed(SlotsOf(v.clusters[c])) then dirs + {c} else dirs
    case _ => dirs
  }

  ghost function DirsAfterIf(v: Vol, dirs: set<nat>, e: Option<Event>): set<nat> {
    if e.Some? then DirsAfter(v, dirs, e.value) else dirs
  }

  lemma TakesOne(g: Geometry, v: Vol, vm: Vol, c: nat, parent: nat, chains: map<nat, seq<nat>>)
    requires Claimed(g, v, vm, c, parent)
    ensures C.Allocates(C.Table(v.fat, chains), vm.fat, g.limit, 1, [c])
    ensures C.Step(g.limit, C.Table(v.fat, chains), C.Add(1), C.Table(vm.fat, chains[c := [c]]))
    ensures C.Step(g.limit, C.Table(v.fat, chains), C.Lost(1), C.Table(vm.fat, chains))
  {
    C.LinkedStarts(v.fat, c);
    assert C.Allocates(C.Table(v.fat, chains), vm.fat, g.limit, 1, [c]);
  }

  /** The directory part of an operation leaves the FAT alone. */
  lemma DirPartSparesFat(v: Vol, v': Vol, dir: nat, slots: Slots)
    requires dir < |v.clusters| && OnlyDirChanged(v, v', dir, slots)
    ensures v'.fat == v.fat
  {
  }

  lemma WriteIsStep(g: Geometry, v: Vol, vm: Vol, v': Vol, dir: nat, name: seq<byte>, cs: seq<nat>, data: seq<byte>, p: nat, chains: map<nat, seq<nat>>)
    requires IsName(name) && Wrote(g, v, vm, v', dir, name, cs, data, p)
    ensures C.Allocates(C.Table(v.fat, chains), v'.fat, g.limit, |cs|, cs)
    ensures C.Step(g.limit, C.Table(v.fat, chains), C.Add(|cs|), C.Table(v'.fat, chains[cs[0] := cs]))
    ensures C.Step(g.limit, C.Table(v.fat, chains), C.Lost(|cs|), C.Table(v'.fat, chains))
  {
    DirPartSparesFat(vm, v', dir, Added(DirSlots(v, dir), p, name, ATTR_FILE, cs[0], |data|));
    assert C.Allocates(C.Table(v.fat, chains), v'.fat, g.limit, |cs|, cs);
  }

  lemma MakeIsStep(g: Geometry, v: Vol, vm: Vol, v': Vol, dir: nat, name: seq<byte>, c: nat, p: nat, chains: map<nat, seq<nat>>)
    requires MadeDir(g, v, vm, v', dir, name, c, p)
    ensures C.Allocates(C.Table(v.fat, chains), v'.fat, g.limit, 1, [c])
    ensures C.Step(g.limit, C.Table(v.fat, chains), C.Add(1), C.Table(v'.fat, chains[c := [c]]))
    ensures C.Step(g.limit, C.Table(v.fat, chains), C.Lost(1), C.Table(v'.fat, chains))
  {
    TakesOne(g, v, vm, c, dir, chains);
    DirPartSparesFat(vm, v', dir, Added(DirSlots(v, dir), p, name, ATTR_DIR, c, 0));
  }

  /** The chain of a file that goes is the one its entry owns. */
  lemma DeleteIsStep(g: Geometry, v: Vol, vm: Vol, v': Vol, dirs: set<nat>, chains: map<nat, seq<nat>>, dir: nat, h: Hit, cs: seq<nat>)
    requires Owned(g, v, dirs, chains) && dir in dirs && IsFileAt(g, v, dir, h, cs) && Deleted(g, v, vm, v', dir, h, cs)
    ensures Owns(v, dir, h.slot) && FirstOf(v, dir, h.slot) == cs[0] && cs[0] in chains && chains[cs[0]] == cs && cs[0] !in dirs
    ensures forall e :: e in dirs ==> e !in cs
    ensures C.Step(g.limit, C.Table(v.fat, chains), C.Delete(cs[0]), C.Table(v'.fat, chains - {cs[0]}))
  {
    DirIsOk(g, v, dirs, chains, dir);
    FileOwns(DirSlots(v, dir), dir, h);
    FileChain(g, v, dirs, chains, dir, h.slot);
    C.ChainUnique(v.fat, g.limit, cs, chains[cs[0]]);
    DirPartSparesFat(v, vm, dir, Marked(DirSlots(v, dir), h.start, h.slot));
  }

  /** Every event in the tree is a step of the chain machine. */
  lemma HappensIsStep(g: Geometry, v: Vol, v': Vol, dirs: set<nat>, chains: map<nat, seq<nat>>, e: Event)
    requires Owned(g, v, dirs, chains) && Occurs(g, v, dirs, e, v')
    ensures C.Step(g.limit, C.Table(v.fat, chains), OpOf(e), C.Table(v'.fat, ChainsAfter(chains, e)))
  {
    match e
    case DeletedFile(dir, h, cs) =>
      var vm :| Deleted(g, v, vm, v', dir, h, cs);
      DeleteIsStep(g, v, vm, v', dirs, chains, dir, h, cs);
    case _ => AllocationIsStep(g, v, v', chains, e);
  }

  lemma AllocationIsStep(g: Geometry, v: Vol, v': Vol, chains: map<nat, seq<nat>>, e: Event)
    requires Happens(g, v, e, v') && !e.DeletedFile?
    ensures C.Step(g.limit, C.Table(v.fat, chains), OpOf(e), C.Table(v'.fat, ChainsAfter(chains, e)))
  {
    match e
    case WroteFile(dir, name, cs, data, p) =>
      var vm :| Wrote(g, v, vm, v', dir, name, cs, data, p);
      WriteIsStep(g, v, vm, v', dir, name, cs, data, p, chains);
    case HiddenFile(dir, name, cs, data, p) =>
      var vm :| Wrote(g, v, vm, v', dir, name, cs, data, p);
      WriteIsStep(g, v, vm, v', dir, name, cs, data, p, chains);
    case LostFile(cs, data) =>
      assert C.Allocates(C.Table(v.fat, chains), v'.fat, g.limit, |cs|, cs);
    case MadeDirectory(dir, name, c, p) =>
      var vm :| MadeDir(g, v, vm, v', dir, name, c, p);
      MakeIsStep(g, v, vm, v', dir, name, c, p, chains);
    case HiddenDirectory(dir, name, c, p) =>
      var vm :| MadeDir(g, v, vm, v', dir, name, c, p);
      MakeIsStep(g, v, vm, v', dir, name, c, p, chains);
    case LostDirectory(c, parent) =>
      TakesOne(g, v, v', c, parent, chains);
    case _ =>
  }

  /** So the chains stay sound, and nothing is lost by an event that loses nothing. */
  lemma ChainsStaySound(g: Geometry, v: Vol, v': Vol, dirs: set<nat>, chains: map<nat, seq<nat>>, e: Event, after: map<nat, seq<nat>>)
    requires Owned(g, v, dirs, chains) && Occurs(g, v, dirs, e, v') && after == ChainsAfter(chains, e)
    ensures C.ChainsSound(g.limit, C.Table(v'.fat, after))
    ensures C.NothingLost(C.Table(v.fat, chains)) && !Loses(e) ==> C.NothingLost(C.Table(v'.fat, after))
  {
    HappensIsStep(g, v, v', dirs, chains, e);
    C.StepKeepsSound(g.limit, C.Table(v.fat, chains), OpOf(e), C.Table(v'.fat, after));
  }

  // ---------- writing ----------

  /** Directories other than the one written to. */
  lemma WriteSparesDir(g: Geometry, v: Vol, vm: Vol, v': Vol, dir: nat, name: seq<byte>, cs: seq<nat>, data: seq<byte>, p: nat, d: nat)
    requires IsName(name) && Wrote(g, v, vm, v', dir, name, cs, data, p) && DirOk(g, v, d) && d != dir
    ensures DirUsable(g, v', d) && DirSlots(v', d) == DirSlots(v, d)
  {
    WritingSparesDir(g, v, vm, d, cs, data, Filled(cs, data));
    OtherDirSame(vm, v', dir, Added(DirSlots(v, dir), p, name, ATTR_FILE, cs[0], |data|), d);
    WroteSlots(g, v, vm, v', dir, name, cs, data, p);
  }

  lemma WriteOnlyDir(g: Geometry, v: Vol, vm: Vol, v': Vol, dirs: set<nat>, chains: map<nat, seq<nat>>, dir: nat, name: seq<byte>, cs: seq<nat>, data: seq<byte>, p: nat)
    requires Owned(g, v, dirs, chains) && IsName(name) && Wrote(g, v, vm, v', dir, name, cs, data, p)
    requires dir in dirs ==> DirUsable(g, v', dir)
    ensures OnlyDir(g, v, v', dirs, dir)
  {
    forall d | d in dirs ensures DirUsable(g, v', d) && d < |v.clusters| && (d != dir ==> DirSlots(v', d) == DirSlots(v, d)) {
      DirIsOk(g, v, dirs, chains, d);
      if d != dir {
        WriteSparesDir(g, v, vm, v', dir, name, cs, data, p, d);
      }
    }
  }

  /** The directory written to has a new entry, with a chain that no entry had. */
  lemma WriteGains(g: Geometry, v: Vol, vm: Vol, v': Vol, dirs: set<nat>, chains: map<nat, seq<nat>>, dir: nat, name: seq<byte>, cs: seq<nat>, data: seq<byte>, p: nat, q: nat, first: nat)
    requires Owned(g, v, dirs, chains) && dir in dirs && IsName(name) && Visible(name) && Wrote(g, v, vm, v', dir, name, cs, data, p)
    requires q == p + LfnCount(name) && first == cs[0]
    ensures Laid(g, v') && OnlyDir(g, v, v', dirs, dir) && DirGains(v, v', dir, q, first, false)
  {
    WroteDir(g, v, vm, v', dir, name, cs, data, p);
    WriteOnlyDir(g, v, vm, v', dirs, chains, dir, name, cs, data, p);
    DirIsOk(g, v, dirs, chains, dir);
    var slots, a := DirSlots(v, dir), DirSlots(v', dir);
    AddedGains(slots, a, dir, p, q, name, ATTR_FILE, first, |data|);
    GainsThere(v, v', dir, q, first, false, slots, a);
  }

  lemma WriteEffect(g: Geometry, v: Vol, vm: Vol, v': Vol, dirs: set<nat>, chains: map<nat, seq<nat>>,
                    dir: nat, name: seq<byte>, cs: seq<nat>, data: seq<byte>, p: nat, q: nat, first: nat)
    requires Owned(g, v, dirs, chains) && dir in dirs && IsName(name) && Visible(name) && Wrote(g, v, vm, v', dir, name, cs, data, p)
    requires q == p + LfnCount(name) && first == cs[0]
    ensures Laid(g, v') && OnlyDir(g, v, v', dirs, dir) && DirGains(v, v', dir, q, first, false)
    ensures first !in chains && first != 0
  {
    FirstIsNew(g, v, vm, v', dir, name, cs, data, p, chains);
    WriteGains(g, v, vm, v', dirs, chains, dir, name, cs, data, p, q, first);
  }

  lemma GainKeepsOwned(g: Geometry, v: Vol, v': Vol, dirs: set<nat>, chains: map<nat, seq<nat>>, after: map<nat, seq<nat>>,
                       dir: nat, q: nat, first: nat, isDir: bool)
    requires Owned(g, v, dirs, chains) && Laid(g, v') && OnlyDir(g, v, v', dirs, dir) && dir in dirs && DirGains(v, v', dir, q, first, isDir)
    requires first !in chains && first != 0 && after.Keys == chains.Keys + {first} && C.ChainsSound(g.limit, C.Table(v'.fat, after))
    ensures Owned(g, v', dirs, after) && (Complete(v, dirs, chains) ==> Complete(v', dirs, after))
  {
    OneMoreFits(g, v, v', dirs, chains, after, dir, q, first, isDir);
    if Complete(v, dirs, chains) {
      OneMoreComplete(g, v, v', dirs, chains, after, dir, q, first, isDir);
    }
  }

  lemma FirstIsNew(g: Geometry, v: Vol, vm: Vol, v': Vol, dir: nat, name: seq<byte>, cs: seq<nat>, data: seq<byte>, p: nat, chains: map<nat, seq<nat>>)
    requires IsName(name) && Wrote(g, v, vm, v', dir, name, cs, data, p) && C.ChainsSound(g.limit, C.Table(v.fat, chains))
    ensures cs != [] && cs[0] !in chains && cs[0] != 0
  {
    WriteIsStep(g, v, vm, v', dir, name, cs, data, p, chains);
    C.OthersStay(g.limit, C.Table(v.fat, chains), v'.fat, |cs|, cs);
  }

  lemma HiddenWriteKeepsOwned(g: Geometry, v: Vol, vm: Vol, v': Vol, dirs: set<nat>, chains: map<nat, seq<nat>>,
                              dir: nat, name: seq<byte>, cs: seq<nat>, data: seq<byte>, p: nat)
    requires Owned(g, v, dirs, chains) && dir in dirs && IsName(name) && !Visible(name) && Wrote(g, v, vm, v', dir, name, cs, data, p)
    requires C.ChainsSound(g.limit, C.Table(v'.fat, chains))
    ensures Owned(g, v', dirs, chains)
  {
    WroteDir(g, v, vm, v', dir, name, cs, data, p);
    DirIsOk(g, v, dirs, chains, dir);
    HiddenDrops(DirSlots(v, dir), DirSlots(v', dir), dir, p, name, ATTR_FILE, cs[0], |data|);
    WriteOnlyDir(g, v, vm, v', dirs, chains, dir, name, cs, data, p);
    FewerFit(g, v, v', dirs, chains, chains, dir, None);
  }

  // ---------- a change that leaves every directory as it was ----------

  /** A number no directory has. */
  const NOWHERE: nat := 1

  lemma NowhereIsNoDir(g: Geometry, v: Vol, dirs: set<nat>, chains: map<nat, seq<nat>>)
    requires Owned(g, v, dirs, chains)
    ensures NOWHERE !in dirs
  {
    if NOWHERE in dirs {
      DirIsOk(g, v, dirs, chains, NOWHERE);
    }
  }

  lemma LostWriteKeepsOwned(g: Geometry, v: Vol, v': Vol, dirs: set<nat>, chains: map<nat, seq<nat>>, cs: seq<nat>, data: seq<byte>)
    requires Owned(g, v, dirs, chains) && Filling(g, v, v', cs, data, Filled(cs, data), 0)
    requires C.ChainsSound(g.limit, C.Table(v'.fat, chains))
    ensures Owned(g, v', dirs, chains)
  {
    NowhereIsNoDir(g, v, dirs, chains);
    forall d | d in dirs ensures DirUsable(g, v', d) && d < |v.clusters| && DirSlots(v', d) == DirSlots(v, d) {
      DirIsOk(g, v, dirs, chains, d);
      WritingSparesDir(g, v, v', d, cs, data, Filled(cs, data));
    }
    WritingKeepsClosed(g, v, v', cs, data, Filled(cs, data));
    FewerFit(g, v, v', dirs, chains, chains, NOWHERE, None);
  }

  lemma ClaimKeepsLaid(g: Geometry, v: Vol, vm: Vol, c: nat, parent: nat)
    requires Laid(g, v) && Claimed(g, v, vm, c, parent)
    ensures Laid(g, vm)
  {
  }

  lemma LostDirKeepsOwned(g: Geometry, v: Vol, v': Vol, dirs: set<nat>, chains: map<nat, seq<nat>>, c: nat, parent: nat)
    requires Owned(g, v, dirs, chains) && Claimed(g, v, v', c, parent)
    requires C.ChainsSound(g.limit, C.Table(v'.fat, chains))
    ensures Owned(g, v', dirs, chains)
  {
    NowhereIsNoDir(g, v, dirs, chains);
    forall d | d in dirs ensures DirUsable(g, v', d) && d < |v.clusters| && DirSlots(v', d) == DirSlots(v, d) {
      DirIsOk(g, v, dirs, chains, d);
      ClaimSparesDir(g, v, v', c, d);
    }
    ClaimKeepsLaid(g, v, v', c, parent);
    FewerFit(g, v, v', dirs, chains, chains, NOWHERE, None);
  }

  // ---------- deleting ----------

  lemma DeleteSparesDir(g: Geometry, v: Vol, vm: Vol, v': Vol, dir: nat, h: Hit, cs: seq<nat>, d: nat)
    requires Deleted(g, v, vm, v', dir, h, cs) && DirOk(g, v, d) && d != dir && d !in cs
    ensures DirUsable(g, v', d) && DirSlots(v', d) == DirSlots(v, d)
  {
    OtherDirSame(v, vm, dir, Marked(DirSlots(v, dir), h.start, h.slot), d);
    assert DirOf(v', d) == DirOf(vm, d);
    DeletedSlots(g, v, vm, v', dir, h, cs);
  }

  lemma DeleteOnlyDir(g: Geometry, v: Vol, vm: Vol, v': Vol, dirs: set<nat>, chains: map<nat, seq<nat>>, dir: nat, h: Hit, cs: seq<nat>)
    requires Owned(g, v, dirs, chains) && Deleted(g, v, vm, v', dir, h, cs) && forall d :: d in dirs ==> d !in cs
    ensures OnlyDir(g, v, v', dirs, dir)
  {
    forall d | d in dirs ensures DirUsable(g, v', d) && d < |v.clusters| && (d != dir ==> DirSlots(v', d) == DirSlots(v, d)) {
      DirIsOk(g, v, dirs, chains, d);
      if d != dir {
        DeleteSparesDir(g, v, vm, v', dir, h, cs, d);
      } else {
        DeletedDir(g, v, vm, v', dir, h, cs);
      }
    }
  }

  lemma DeleteKeepsOwned(g: Geometry, v: Vol, vm: Vol, v': Vol, dirs: set<nat>, chains: map<nat, seq<nat>>, after: map<nat, seq<nat>>, dir: nat, h: Hit, cs: seq<nat>)
    requires Owned(g, v, dirs, chains) && dir in dirs && IsFileAt(g, v, dir, h, cs) && Deleted(g, v, vm, v', dir, h, cs)
    requires after == chains - {cs[0]} && C.ChainsSound(g.limit, C.Table(v'.fat, after))
    ensures Owned(g, v', dirs, after) && (Complete(v, dirs, chains) ==> Complete(v', dirs, after))
  {
    DeleteIsStep(g, v, vm, v', dirs, chains, dir, h, cs);
    DeleteOnlyDir(g, v, vm, v', dirs, chains, dir, h, cs);
    DeletedSlots(g, v, vm, v', dir, h, cs);
    DeletedDir(g, v, vm, v', dir, h, cs);
    MarkedDrops(DirSlots(v, dir), DirSlots(v', dir), dir, h);
    FewerFit(g, v, v', dirs, chains, after, dir, Some(h.slot));
    if Complete(v, dirs, chains) {
      FewerComplete(g, v, v', dirs, chains, after, dir, h.slot);
    }
  }

  // ---------- making a directory ----------

  lemma MakeSlots(g: Geometry, v: Vol, vm: Vol, v': Vol, dir: nat, name: seq<byte>, c: nat, p: nat)
    requires MadeDir(g, v, vm, v', dir, name, c, p) && Laid(g, v)
    ensures Laid(g, v') && v'.fat == vm.fat && c != dir && (dir != 0 ==> v'.fat[dir] >= EOC)
    ensures DirSlots(v', dir) == Added(DirSlots(v, dir), p, name, ATTR_DIR, c, 0)
  {
    ClaimSparesDir(g, v, vm, c, dir);
    ClaimKeepsLaid(g, v, vm, c, dir);
    DirChanged(g, vm, v', dir, Added(DirSlots(v, dir), p, name, ATTR_DIR, c, 0));
  }

  lemma MakeSparesDir(g: Geometry, v: Vol, vm: Vol, v': Vol, dir: nat, name: seq<byte>, c: nat, p: nat, d: nat)
    requires MadeDir(g, v, vm, v', dir, name, c, p) && Laid(g, v) && DirUsable(g, v, d) && d != dir
    ensures DirUsable(g, v', d) && DirSlots(v', d) == DirSlots(v, d)
  {
    MakeSparesSlots(g, v, vm, v', dir, name, c, p, d);
    MakeSlots(g, v, vm, v', dir, name, c, p);
  }

  lemma MakeSparesSlots(g: Geometry, v: Vol, vm: Vol, v': Vol, dir: nat, name: seq<byte>, c: nat, p: nat, d: nat)
    requires MadeDir(g, v, vm, v', dir, name, c, p) && DirUsable(g, v, d) && d != dir
    ensures c != d && d < |v'.clusters| && DirSlots(v', d) == DirSlots(v, d) && (d != 0 ==> d < |vm.fat| && vm.fat[d] == v.fat[d])
  {
    ClaimSparesDir(g, v, vm, c, d);
    ClaimSparesDir(g, v, vm, c, dir);
    OtherDirSame(vm, v', dir, Added(DirSlots(v, dir), p, name, ATTR_DIR, c, 0), d);
  }

  lemma MakeOnlyDir(g: Geometry, v: Vol, vm: Vol, v': Vol, dirs: set<nat>, chains: map<nat, seq<nat>>, dir: nat, name: seq<byte>, c: nat, p: nat)
    requires Owned(g, v, dirs, chains) && MadeDir(g, v, vm, v', dir, name, c, p)
    requires dir in dirs ==> DirUsable(g, v', dir)
    ensures OnlyDir(g, v, v', dirs, dir)
  {
    forall d | d in dirs ensures DirUsable(g, v', d) && d < |v.clusters| && (d != dir ==> DirSlots(v', d) == DirSlots(v, d)) {
      DirIsOk(g, v, dirs, chains, d);
      if d != dir {
        MakeSparesDir(g, v, vm, v', dir, name, c, p, d);
      }
    }
  }

  lemma MakeGains(g: Geometry, v: Vol, vm: Vol, v': Vol, dirs: set<nat>, chains: map<nat, seq<nat>>, dir: nat, name: seq<byte>, c: nat, p: nat, q: nat)
    requires Owned(g, v, dirs, chains) && dir in dirs && Visible(name) && MadeDir(g, v, vm, v', dir, name, c, p)
    requires q == p + LfnCount(name)
    ensures Laid(g, v') && OnlyDir(g, v, v', dirs, dir) && DirGains(v, v', dir, q, c, true)
  {
    MakeSlots(g, v, vm, v', dir, name, c, p);
    AddKeepsWellFormed(DirSlots(v, dir), p, name, ATTR_DIR, c, 0);
    MakeOnlyDir(g, v, vm, v', dirs, chains, dir, name, c, p);
    DirIsOk(g, v, dirs, chains, dir);
    var slots, a := DirSlots(v, dir), DirSlots(v', dir);
    AddedGains(slots, a, dir, p, q, name, ATTR_DIR, c, 0);
    GainsThere(v, v', dir, q, c, true, slots, a);
  }

  lemma MakeKeepsOwned(g: Geometry, v: Vol, vm: Vol, v': Vol, dirs: set<nat>, chains: map<nat, seq<nat>>, after: map<nat, seq<nat>>,
                       dir: nat, name: seq<byte>, c: nat, p: nat, q: nat)
    requires Owned(g, v, dirs, chains) && dir in dirs && Visible(name) && MadeDir(g, v, vm, v', dir, name, c, p) && q == p + LfnCount(name)
    requires after == chains[c := [c]] && C.ChainsSound(g.limit, C.Table(v'.fat, after))
    ensures Owned(g, v', dirs, after) && DirGains(v, v', dir, q, c, true)
    ensures Complete(v, dirs, chains) ==> Complete(v', dirs, after)
  {
    MakeGains(g, v, vm, v', dirs, chains, dir, name, c, p, q);
    ClusterIsNew(g, v, vm, v', dir, name, c, p, chains);
    GainKeepsOwned(g, v, v', dirs, chains, after, dir, q, c, true);
  }

  lemma ClusterIsNew(g: Geometry, v: Vol, vm: Vol, v': Vol, dir: nat, name: seq<byte>, c: nat, p: nat, chains: map<nat, seq<nat>>)
    requires MadeDir(g, v, vm, v', dir, name, c, p) && C.ChainsSound(g.limit, C.Table(v.fat, chains))
    ensures c !in chains && c != 0
  {
    MakeIsStep(g, v, vm, v', dir, name, c, p, chains);
    C.OthersStay(g.limit, C.Table(v.fat, chains), v'.fat, 1, [c]);
  }

  /** A new directory has no entry of its own. */
  lemma NewDirOwns(slots: Slots, stale: Slots, c: nat, parent: nat)
    requires NewDir(slots, stale, c, parent) && NeverUsed(stale)
    ensures DotsFirst(slots, c) && forall i: nat {:trigger OwnsIn(slots, c, i)} :: c != 0 ==> !OwnsIn(slots, c, i)
  {
    FirstSlots(c, parent);
    assert slots[0] == FirstSlot(c, parent, 0) && slots[1] == FirstSlot(c, parent, 1);
    forall i: nat | 2 <= i < |slots| ensures slots[i][0] == 0 {
      if i < 16 {
        assert slots[i] == FirstSlot(c, parent, i);
      }
    }
  }

  lemma NewDirLaid(g: Geometry, v: Vol, vm: Vol, v': Vol, dir: nat, name: seq<byte>, c: nat, p: nat)
    requires MadeDir(g, v, vm, v', dir, name, c, p)
    ensures c < |v.clusters| && c < |v'.clusters| && NewDir(DirSlots(v', c), SlotsOf(v.clusters[c]), c, dir)
  {
    ClaimSparesDir(g, v, vm, c, dir);
    OtherDirSame(vm, v', dir, Added(DirSlots(v, dir), p, name, ATTR_DIR, c, 0), c);
    NewDirMade(v.clusters[c], c, dir);
  }

  lemma NewDirIsEmpty(g: Geometry, v: Vol, vm: Vol, v': Vol, dir: nat, name: seq<byte>, c: nat, p: nat)
    requires MadeDir(g, v, vm, v', dir, name, c, p) && NeverUsed(SlotsOf(v.clusters[c]))
    ensures DirUsable(g, v', c) && DotsFirst(DirSlots(v', c), c) && OwnsNothing(v', c)
  {
    MadeNew(g, v, vm, v', dir, name, c, p, Up);
    NewDirLaid(g, v, vm, v', dir, name, c, p);
    NewDirOwns(DirSlots(v', c), SlotsOf(v.clusters[c]), c, dir);
    forall i: nat ensures !Owns(v', c, i) {
      assert !OwnsIn(DirSlots(v', c), c, i);
    }
  }

  lemma HiddenMakeKeepsOwned(g: Geometry, v: Vol, vm: Vol, v': Vol, dirs: set<nat>, chains: map<nat, seq<nat>>,
                             dir: nat, name: seq<byte>, c: nat, p: nat)
    requires Owned(g, v, dirs, chains) && dir in dirs && !Visible(name) && MadeDir(g, v, vm, v', dir, name, c, p)
    requires C.ChainsSound(g.limit, C.Table(v'.fat, chains))
    ensures Owned(g, v', dirs, chains)
  {
    MakeSlots(g, v, vm, v', dir, name, c, p);
    AddKeepsWellFormed(DirSlots(v, dir), p, name, ATTR_DIR, c, 0);
    DirIsOk(g, v, dirs, chains, dir);
    HiddenDrops(DirSlots(v, dir), DirSlots(v', dir), dir, p, name, ATTR_DIR, c, 0);
    MakeOnlyDir(g, v, vm, v', dirs, chains, dir, name, c, p);
    FewerFit(g, v, v', dirs, chains, chains, dir, None);
  }

  // ---------- every event ----------

  lemma HiddenKeepsOwned(g: Geometry, v: Vol, v': Vol, dirs: set<nat>, chains: map<nat, seq<nat>>, e: Event)
    requires (e.HiddenFile? || e.HiddenDirectory?) && Owned(g, v, dirs, chains) && Occurs(g, v, dirs, e, v')
    requires C.ChainsSound(g.limit, C.Table(v'.fat, chains))
    ensures Owned(g, v', dirs, chains)
  {
    match e
    case HiddenFile(dir, name, cs, data, p) =>
      var vm :| Wrote(g, v, vm, v', dir, name, cs, data, p);
      HiddenWriteKeepsOwned(g, v, vm, v', dirs, chains, dir, name, cs, data, p);
    case HiddenDirectory(dir, name, c, p) =>
      var vm :| MadeDir(g, v, vm, v', dir, name, c, p);
      HiddenMakeKeepsOwned(g, v, vm, v', dirs, chains, dir, name, c, p);
    case _ =>
  }

  lemma MadeKeepsOwned(g: Geometry, v: Vol, v': Vol, dirs: set<nat>, chains: map<nat, seq<nat>>, e: Event, after: map<nat, seq<nat>>)
    requires e.MadeDirectory? && Owned(g, v, dirs, chains) && Occurs(g, v, dirs, e, v') && after == ChainsAfter(chains, e)
    requires C.ChainsSound(g.limit, C.Table(v'.fat, after))
    ensures Owned(g, v', DirsAfter(v, dirs, e), after)
    ensures Complete(v, dirs, chains) ==> Complete(v', DirsAfter(v, dirs, e), after)
  {
    var vm :| MadeDir(g, v, vm, v', e.dir, e.name, e.c, e.p);
    var q := e.p + LfnCount(e.name);
    MakeKeepsOwned(g, v, vm, v', dirs, chains, after, e.dir, e.name, e.c, e.p, q);
    NewDirEnters(g, v, vm, v', dirs, after, e.dir, e.name, e.c, e.p, q);
    if Complete(v, dirs, chains) {
      MoreDirsComplete(v', dirs, DirsAfter(v, dirs, e), after);
    }
  }

  lemma NewDirEnters(g: Geometry, v: Vol, vm: Vol, v': Vol, dirs: set<nat>, after: map<nat, seq<nat>>, dir: nat, name: seq<byte>, c: nat, p: nat, q: nat)
    requires Owned(g, v', dirs, after) && dir in dirs && MadeDir(g, v, vm, v', dir, name, c, p)
    requires DirGains(v, v', dir, q, c, true)
    ensures NeverUsed(SlotsOf(v.clusters[c])) ==> Owned(g, v', dirs + {c}, after)
  {
    if NeverUsed(SlotsOf(v.clusters[c])) {
      NewDirIsEmpty(g, v, vm, v', dir, name, c, p);
      Joins(g, v', dirs, after, dir, q, c);
    }
  }

  lemma WroteKeepsOwned(g: Geometry, v: Vol, v': Vol, dirs: set<nat>, chains: map<nat, seq<nat>>, e: Event, after: map<nat, seq<nat>>)
    requires e.WroteFile? && Owned(g, v, dirs, chains) && Occurs(g, v, dirs, e, v') && after == ChainsAfter(chains, e)
    requires C.ChainsSound(g.limit, C.Table(v'.fat, after))
    ensures Owned(g, v', dirs, after) && (Complete(v, dirs, chains) ==> Complete(v', dirs, after))
  {
    var q, first := WhereWritten(g, v, v', dirs, chains, e);
    KeysAfterWrite(chains, e, first, after);
    GainKeepsOwned(g, v, v', dirs, chains, after, e.dir, q, first, false);
  }

  lemma KeysAfterWrite(chains: map<nat, seq<nat>>, e: Event, first: nat, after: map<nat, seq<nat>>)
    requires e.WroteFile? && e.cs != [] && first == e.cs[0] && after == ChainsAfter(chains, e)
    ensures after.Keys == chains.Keys + {first}
  {
  }

  lemma WhereWritten(g: Geometry, v: Vol, v': Vol, dirs: set<nat>, chains: map<nat, seq<nat>>, e: Event) returns (q: nat, first: nat)
    requires e.WroteFile? && Owned(g, v, dirs, chains) && Occurs(g, v, dirs, e, v')
    ensures Laid(g, v') && OnlyDir(g, v, v', dirs, e.dir) && DirGains(v, v', e.dir, q, first, false)
    ensures first !in chains && first != 0 && e.cs != [] && first == e.cs[0]
  {
    var vm :| Wrote(g, v, vm, v', e.dir, e.name, e.cs, e.data, e.p);
    q, first := e.p + LfnCount(e.name), e.cs[0];
    WriteEffect(g, v, vm, v', dirs, chains, e.dir, e.name, e.cs, e.data, e.p, q, first);
  }

  lemma DeletedKeepsOwned(g: Geometry, v: Vol, v': Vol, dirs: set<nat>, chains: map<nat, seq<nat>>, e: Event, after: map<nat, seq<nat>>)
    requires e.DeletedFile? && Owned(g, v, dirs, chains) && Occurs(g, v, dirs, e, v') && after == ChainsAfter(chains, e)
    requires C.ChainsSound(g.limit, C.Table(v'.fat, after))
    ensures Owned(g, v', dirs, after) && (Complete(v, dirs, chains) ==> Complete(v', dirs, after))
  {
    var vm :| Deleted(g, v, vm, v', e.dir, e.h, e.cs);
    DeleteKeepsOwned(g, v, vm, v', dirs, chains, after, e.dir, e.h, e.cs);
  }

  /**
   * Every event in the tree leaves the chains those of the entries on disk; and if it loses
   * nothing, no cluster in use is without an entry if none was.
   */
  lemma EventKeepsOwned(g: Geometry, v: Vol, v': Vol, dirs: set<nat>, chains: map<nat, seq<nat>>, e: Event,
                        dirs': set<nat>, after: map<nat, seq<nat>>)
    requires Owned(g, v, dirs, chains) && Occurs(g, v, dirs, e, v')
    requires dirs' == DirsAfter(v, dirs, e) && after == ChainsAfter(chains, e)
    ensures Owned(g, v', dirs', after)
    ensures NothingStray(v, dirs, chains) && !Loses(e) ==> NothingStray(v', dirs', after)
  {
    ChainsStaySound(g, v, v', dirs, chains, e, after);
    match e
    case WroteFile(_, _, _, _, _) => WroteKeepsOwned(g, v, v', dirs, chains, e, after);
    case DeletedFile(_, _, _) => DeletedKeepsOwned(g, v, v', dirs, chains, e, after);
    case LostFile(cs, data) => LostWriteKeepsOwned(g, v, v', dirs, chains, cs, data);
    case LostDirectory(c, parent) => LostDirKeepsOwned(g, v, v', dirs, chains, c, parent);
    case MadeDirectory(_, _, _, _) => MadeKeepsOwned(g, v, v', dirs, chains, e, after);
    case HiddenFile(_, _, _, _, _) => HiddenKeepsOwned(g, v, v', dirs, chains, e);
    case HiddenDirectory(_, _, _, _) => HiddenKeepsOwned(g, v, v', dirs, chains, e);
  }

  // ---------- runs ----------

  /** The chains and the directories after the first n events. */
  function ChainsAt(chains: map<nat, seq<nat>>, es: seq<Event>, n: nat): map<nat, seq<nat>>
    requires n <= |es|
  {
    if n == 0 then chains else ChainsAfter(ChainsAt(chains, es, n - 1), es[n - 1])
  }

  ghost function DirsAt(vs: seq<Vol>, dirs: set<nat>, es: seq<Event>, n: nat): set<nat>
    requires n <= |es| <= |vs|
  {
    if n == 0 then dirs else DirsAfter(vs[n - 1], DirsAt(vs, dirs, es, n - 1), es[n - 1])
  }

  /** The first n events occur, one after the other, each in a directory that is usable then. */
  ghost predicate RunTo(g: Geometry, dirs: set<nat>, vs: seq<Vol>, es: seq<Event>, n: nat)
    requires |vs| == |es| + 1 && n <= |es|
  {
    n > 0 ==> Occurs(g, vs[n - 1], DirsAt(vs, dirs, es, n - 1), es[n - 1], vs[n]) && RunTo(g, dirs, vs, es, n - 1)
  }

  /** After n events the chains are those of the entries on disk, and no cluster in use is without an
      entry if none was and no event lost any; and so it was after each event before. */
  ghost predicate OwnedUpTo(g: Geometry, dirs: set<nat>, chains: map<nat, seq<nat>>, vs: seq<Vol>, es: seq<Event>, n: nat)
    requires |vs| == |es| + 1 && n <= |es|
  {
    && Owned(g, vs[n], DirsAt(vs, dirs, es, n), ChainsAt(chains, es, n))
    && (NothingStray(vs[0], dirs, chains) && (forall i :: 0 <= i < n ==> !Loses(es[i])) ==>
          NothingStray(vs[n], DirsAt(vs, dirs, es, n), ChainsAt(chains, es, n)))
    && (n > 0 ==> OwnedUpTo(g, dirs, chains, vs, es, n - 1))
  }

  lemma OwnedNext(g: Geometry, dirs: set<nat>, chains: map<nat, seq<nat>>, vs: seq<Vol>, es: seq<Event>, n: nat)
    requires |vs| == |es| + 1 && n < |es| && RunTo(g, dirs, vs, es, n + 1) && OwnedUpTo(g, dirs, chains, vs, es, n)
    ensures OwnedUpTo(g, dirs, chains, vs, es, n + 1)
  {
    EventKeepsOwned(g, vs[n], vs[n + 1], DirsAt(vs, dirs, es, n), ChainsAt(chains, es, n), es[n],
                    DirsAt(vs, dirs, es, n + 1), ChainsAt(chains, es, n + 1));
  }

  /**
   * Over every run of writes, copies, deletions, rewrites and create_dirs, in whatever usable
   * directories: the entries on disk own chains that are acyclic, end-marked and pairwise disjoint,
   * and the directories' own clusters are among them; and unless an event lost its chain, every
   * cluster in use is in the chain of an entry.
   */
  lemma {:induction false} RunKeepsChains(g: Geometry, dirs: set<nat>, chains: map<nat, seq<nat>>, vs: seq<Vol>, es: seq<Event>, n: nat)
    requires |vs| == |es| + 1 && n <= |es| && RunTo(g, dirs, vs, es, n)
    requires Owned(g, vs[0], dirs, chains)
    ensures OwnedUpTo(g, dirs, chains, vs, es, n)
    decreases n
  {
    if n > 0 {
      RunKeepsChains(g, dirs, chains, vs, es, n - 1);
      OwnedNext(g, dirs, chains, vs, es, n - 1);
    }
  }

  /** What that says of two entries: their chains are whole and share no cluster. */
  lemma EntriesShareNothing(g: Geometry, v: Vol, dirs: set<nat>, chains: map<nat, seq<nat>>, d: nat, i: nat, e: nat, j: nat)
    requires Owned(g, v, dirs, chains) && d in dirs && e in dirs && Owns(v, d, i) && Owns(v, e, j) && (d != e || i != j)
    ensures exists a, b :: C.IsChain(v.fat, g.limit, a) && C.IsChain(v.fat, g.limit, b)
                           && a[0] == FirstOf(v, d, i) && b[0] == FirstOf(v, e, j) && C.Disjoint(a, b)
  {
    assert EntryFits(v, dirs, chains, d, i) && EntryFits(v, dirs, chains, e, j) && EntriesApart(v, d, i, e, j);
    var a, b := chains[FirstOf(v, d, i)], chains[FirstOf(v, e, j)];
    assert C.Disjoint(a, b);
  }

  // ---------- the same for the disk itself ----------

  /** A volume with its usable directories and the chains of their entries.  Each operation keeps
      them and, through Valid of the volume, the two copies of the FAT equal. */
  class TrackedVolume {
    const vol: Volume
    ghost var dirs: set<nat>
    ghost var chains: map<nat, seq<nat>>

    ghost predicate Sound()
      reads this, vol
    {
      vol.Valid() && Owned(vol.g, vol.V(), dirs, chains)
    }

    constructor (vol: Volume, ghost dirs: set<nat>, ghost chains: map<nat, seq<nat>>)
      requires vol.Valid() && Owned(vol.g, vol.V(), dirs, chains)
      ensures this.vol == vol && this.dirs == dirs && this.chains == chains && Sound()
    {
      this.vol, this.dirs, this.chains := vol, dirs, chains;
    }

    ghost method Track(v: Vol, e: Event, v': Vol)
      requires Owned(vol.g, v, dirs, chains) && Occurs(vol.g, v, dirs, e, v')
      modifies this`dirs, this`chains
      ensures Owned(vol.g, v', dirs, chains) && dirs == DirsAfter(v, old(dirs), e) && chains == ChainsAfter(old(chains), e)
      ensures NothingStray(v, old(dirs), old(chains)) && !Loses(e) ==> NothingStray(v', dirs, chains)
    {
      EventKeepsOwned(vol.g, v, v', dirs, chains, e, DirsAfter(v, dirs, e), ChainsAfter(chains, e));
      dirs, chains := DirsAfter(v, dirs, e), ChainsAfter(chains, e);
    }

    ghost method TrackIf(v: Vol, e: Option<Event>, v': Vol)
      requires Owned(vol.g, v, dirs, chains) && OccursIf(vol.g, v, dirs, e, v')
      modifies this`dirs, this`chains
      ensures Owned(vol.g, v', dirs, chains) && dirs == DirsAfterIf(v, old(dirs), e) && chains == ChainsAfterIf(old(chains), e)
    {
      if e.Some? {
        Track(v, e.value, v');
      }
    }

    method WriteFile(dir: nat, name: seq<byte>, data: seq<byte>, behind: Sector) returns (ok: bool, ghost e: Event)
      requires Sound() && dir in dirs && IsName(name) && |data| < 0x1_0000_0000
      requires dir < |vol.V().clusters| && RoomApart(DirSlots(vol.V(), dir), LfnCount(name) + 1)
      requires |C.FreeBelow(vol.V().fat, vol.g.limit)| >= ClustersNeeded(|data|, vol.g.sectorsPerCluster)
      modifies this, vol`disk
      ensures Sound() && Occurs(vol.g, old(vol.V()), old(dirs), e, vol.V())
      ensures dirs == DirsAfter(old(vol.V()), old(dirs), e) && chains == ChainsAfter(old(chains), e)
      ensures if !ok then e.LostFile? && e.data == data
              else if Visible(name) then e.WroteFile? && e.dir == dir && e.name == name && e.data == data
              else e.HiddenFile? && e.dir == dir && e.name == name && e.data == data
    {
      ghost var v := vol.V();
      ghost var vm, cs, p;
      DirIsOk(vol.g, v, dirs, chains, dir);
      ok, vm, cs, p := FatVolumeIo.WriteFile(vol, dir, name, data, behind);
      e := WriteEvent(ok, dir, name, cs, data, p);
      WriteIsEvent(ok, vol.g, v, vm, vol.V(), dir, name, cs, data, p);
      Track(v, e, vol.V());
    }

    /** Nothing is asked of the file: that its clusters are a chain, and the chain of no other
        entry, is part of Sound. */
    method DeleteFile(dir: nat, name: seq<byte>) returns (ghost e: Option<Event>)
      requires Sound() && dir in dirs && IsText(name)
      modifies this, vol`disk
      ensures Sound() && OccursIf(vol.g, old(vol.V()), old(dirs), e, vol.V())
      ensures dirs == old(dirs) && chains == ChainsAfterIf(old(chains), e)
      ensures e.Some? ==> e.value.DeletedFile? && e.value.dir == dir
      ensures dir < |old(vol.V()).clusters|
      ensures Lookup(DirSlots(old(vol.V()), dir), name, FileOnly) == if e.Some? then Some(e.value.h) else None
    {
      ghost var v := vol.V();
      e := DeleteOwned(vol, dirs, chains, dir, name);
      TrackIf(v, e, vol.V());
    }

    method MakeDir(dir: nat, name: seq<byte>) returns (ok: bool, ghost e: Option<Event>)
      requires Sound() && dir in dirs && IsName(name) && FullOrNot(vol.g, vol.V())
      requires dir < |vol.V().clusters| && RoomApart(DirSlots(vol.V(), dir), LfnCount(name) + 1)
      modifies this, vol`disk
      ensures Sound() && OccursIf(vol.g, old(vol.V()), old(dirs), e, vol.V())
      ensures dirs == DirsAfterIf(old(vol.V()), old(dirs), e) && chains == ChainsAfterIf(old(chains), e)
      ensures if e.None? then !ok else if !ok then e.value.LostDirectory? else if Visible(name) then e.value.MadeDirectory? else e.value.HiddenDirectory?
    {
      ghost var v := vol.V();
      ghost var c, vm, p;
      DirIsOk(vol.g, v, dirs, chains, dir);
      ok, c, vm, p := FatMkdir.MakeDir(vol, dir, name);
      e := CreateIsEvent(ok, vol.g, v, vm, vol.V(), dirs, dir, name, c, p);
      TrackIf(v, e, vol.V());
    }

    /** fat16_vfs_write: the chain of the file the node knows of goes, and the chain of the file
        written comes. */
    method VfsWrite(dir: nat, name: seq<byte>, length: nat, offset: nat, buf: seq<byte>, memory: bool, behind: Sector, ghost files: map<seq<byte>, File>)
      returns (n: nat, length': nat, ghost mid: Vol, ghost ok: bool, ghost f: File)
      requires Sound() && dir in dirs && Holds(vol.g, vol.V(), dir, files)
      requires IsNode(vol.g, vol.V(), dir, files, name) && RoomApart(SlotsLeft(vol.V(), dir, files, name, length), LfnCount(name) + 1)
      requires length < 0x1_0000_0000 && offset + |buf| < 0x1_0000_0000
      requires EnoughSpace(vol.g, vol.V(), files, name, length, Max(length, offset + |buf|))
      modifies this, vol`disk
      ensures Sound() && dirs == old(dirs)
      ensures !memory ==> n == 0 && length' == length && vol.V() == old(vol.V()) && chains == old(chains)
      ensures memory ==> n == |buf| && length' == Max(length, offset + |buf|)
      ensures memory ==> NodeWritten(vol.g, old(vol.V()), vol.V(), dir, files, name, length, offset, buf, ok, f)
      ensures memory ==> OccursIf(vol.g, old(vol.V()), dirs, GoneEvent(dir, files, name, length), mid)
                         && Occurs(vol.g, mid, dirs, PutEvent(dir, name, ok, f), vol.V())
      ensures memory ==> chains == ChainsAfter(ChainsAfterIf(old(chains), GoneEvent(dir, files, name, length)), PutEvent(dir, name, ok, f))
    {
      ghost var v := vol.V();
      n, length', mid, ok, f := FatVolumeIo.VfsWrite(vol, dir, name, length, offset, buf, memory, behind, files);
      if memory {
        GoneOccurs(vol.g, v, mid, dirs, dir, files, name, length);
        PutOccurs(vol.g, mid, vol.V(), dirs, dir, name, ok, f);
        TrackNode(v, mid, GoneEvent(dir, files, name, length), PutEvent(dir, name, ok, f));
      }
    }

    ghost method TrackNode(v: Vol, mid: Vol, gone: Option<Event>, put: Event)
      requires vol.Valid() && Owned(vol.g, v, dirs, chains) && OccursIf(vol.g, v, dirs, gone, mid) && Occurs(vol.g, mid, dirs, put, vol.V())
      requires (gone.Some? ==> gone.value.DeletedFile?) && (put.WroteFile? || put.HiddenFile? || put.LostFile?)
      modifies this`dirs, this`chains
      ensures Sound() && dirs == old(dirs) && chains == ChainsAfter(ChainsAfterIf(old(chains), gone), put)
    {
      TrackIf(v, gone, mid);
      Track(mid, put, vol.V());
    }

  }

  method DeleteOwned(vol: Volume, ghost dirs: set<nat>, ghost chains: map<nat, seq<nat>>, dir: nat, name: seq<byte>) returns (ghost e: Option<Event>)
    requires vol.Valid() && Owned(vol.g, vol.V(), dirs, chains) && dir in dirs && IsText(name)
    modifies vol`disk
    ensures vol.Valid() && OccursIf(vol.g, old(vol.V()), dirs, e, vol.V())
    ensures e.Some? ==> e.value.DeletedFile? && e.value.dir == dir
    ensures dir < |old(vol.V()).clusters|
    ensures Lookup(DirSlots(old(vol.V()), dir), name, FileOnly) == if e.Some? then Some(e.value.h) else None
  {
    ghost var v := vol.V();
    DirIsOk(vol.g, v, dirs, chains, dir);
    ghost var h, cs := FileNamed(vol.g, v, dirs, chains, dir, name);
    ghost var vm := FatVolumeIo.DeleteFile(vol, dir, name, h, cs);
    e := DeleteIsEvent(vol.g, v, vm, vol.V(), dirs, dir, name, h, cs);
  }

  /** The entry a deletion would hit, with its chain. */
  lemma FileNamed(g: Geometry, v: Vol, dirs: set<nat>, chains: map<nat, seq<nat>>, dir: nat, name: seq<byte>) returns (h: Hit, cs: seq<nat>)
    requires Owned(g, v, dirs, chains) && dir in dirs
    ensures dir < |v.clusters| && LeadsTo(g, v, dir, name, h, cs)
    ensures Lookup(DirSlots(v, dir), name, FileOnly).Some? ==> Lookup(DirSlots(v, dir), name, FileOnly) == Some(h) && IsFileAt(g, v, dir, h, cs)
  {
    DirIsOk(g, v, dirs, chains, dir);
    h, cs := Hit(0, 0), [];
    var hit := Lookup(DirSlots(v, dir), name, FileOnly);
    if hit.Some? {
      h := hit.value;
      HitIsEntry(DirSlots(v, dir), 0, Clean, name, FileOnly);
      FileOwns(DirSlots(v, dir), dir, h);
      FileChain(g, v, dirs, chains, dir, h.slot);
      cs := chains[FirstOf(v, dir, h.slot)];
    }
  }
}
