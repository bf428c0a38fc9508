/**
 * A directory as a map from names to contents: writing, deleting and rewriting files acts on
 * the disk as the corresponding map update.  FatTreeRun.TreeRun puts the steps together.
 */
module FatDirectory {
  import opened Common
  import opened FatConst
  import opened Bytes
  import opened FatNames
  import opened FatDir
  import opened FatDirUpdate
  import opened FatDirTheorems
  import opened FatDisk
  import opened FatDirIo
  import opened FatFiles
  import opened FatVolume
  import C = FatChain

  datatype File = File(hit: Hit, chain: seq<nat>, data: seq<byte>)

  /** The name has this file, no other entry answers to it, and its entry has at least the
      slots that writing the name again takes. */
  ghost predicate Sole(g: Geometry, v: Vol, dir: nat, name: seq<byte>, f: File) {
    && Stores(g, v, dir, name, f.hit, f.chain, f.data)
    && Unique(DirSlots(v, dir), f.hit, name, Any)
    && f.hit.start + LfnCount(name) <= f.hit.slot
  }

  /** Two names and files that do not get in each other's way. */
  ghost predicate Apart(a: seq<byte>, fa: File, b: seq<byte>, fb: File) {
    !SameName(a, b) && C.Disjoint(fa.chain, fb.chain)
  }

  ghost predicate AllApart(files: map<seq<byte>, File>) {
    forall a, b {:trigger Apart(a, files[a], b, files[b])} :: a in files && b in files && a != b ==> Apart(a, files[a], b, files[b])
  }

  ghost predicate AllSole(g: Geometry, v: Vol, dir: nat, files: map<seq<byte>, File>) {
    forall n {:trigger Sole(g, v, dir, n, files[n])} :: n in files ==> Sole(g, v, dir, n, files[n])
  }

  ghost predicate Named(files: map<seq<byte>, File>) {
    forall n :: n in files ==> IsName(n) && Visible(n)
  }

  /** The directory has these contents under these names. */
  ghost predicate Holds(g: Geometry, v: Vol, dir: nat, files: map<seq<byte>, File>) {
    && DirOk(g, v, dir)
    && Named(files) && AllSole(g, v, dir, files)
    && AllApart(files)
  }

  /** A name no file has, nor any name that answers to it or that it answers to. */
  ghost predicate Fresh(g: Geometry, v: Vol, dir: nat, files: map<seq<byte>, File>, name: seq<byte>)
    requires DirOk(g, v, dir)
  {
    && IsName(name) && Visible(name)
    && Lookup(DirSlots(v, dir), name, Any).None?
    && forall n :: n in files ==> !SameName(name, n) && !SameName(n, name)
  }

  // ---------- writing ----------

  lemma WroteSole(g: Geometry, v: Vol, vm: Vol, v': Vol, dir: nat, name: seq<byte>, cs: seq<nat>, data: seq<byte>, p: nat)
    requires IsName(name) && Visible(name) && Wrote(g, v, vm, v', dir, name, cs, data, p)
    requires Lookup(DirSlots(v, dir), name, Any).None?
    ensures Sole(g, v', dir, name, File(Hit(p, p + LfnCount(name)), cs, data))
  {
    WroteStores(g, v, vm, v', dir, name, cs, data, p, name);
    WroteAdds(g, v, vm, v', dir, name, cs, data, p, DirSlots(v, dir), DirSlots(v', dir));
    AddedIsSole(g, v', dir, name, File(Hit(p, p + LfnCount(name)), cs, data), cs[0], |data|, DirSlots(v, dir), DirSlots(v', dir));
  }

  lemma AddedIsSole(g: Geometry, v: Vol, dir: nat, name: seq<byte>, f: File, cluster: nat, size: nat, slots: Slots, a: Slots)
    requires Stores(g, v, dir, name, f.hit, f.chain, f.data) && a == DirSlots(v, dir)
    requires Adds(slots, a, f.hit.start, name, ATTR_FILE, cluster, size) && f.hit.slot == f.hit.start + LfnCount(name)
    requires Lookup(slots, name, Any).None?
    ensures Sole(g, v, dir, name, f)
  {
    NewIsUnique(slots, a, f.hit.start, name, cluster, size, f.hit.slot);
  }

  lemma WroteAdds(g: Geometry, v: Vol, vm: Vol, v': Vol, dir: nat, name: seq<byte>, cs: seq<nat>, data: seq<byte>, p: nat, slots: Slots, a: Slots)
    requires IsName(name) && Wrote(g, v, vm, v', dir, name, cs, data, p) && slots == DirSlots(v, dir)
    requires dir < |v'.clusters| && a == DirSlots(v', dir)
    ensures cs != [] && Adds(slots, a, p, name, ATTR_FILE, cs[0], |data|)
  {
    WroteDir(g, v, vm, v', dir, name, cs, data, p);
  }

  lemma NewIsUnique(slots: Slots, a: Slots, p: nat, name: seq<byte>, cluster: nat, size: nat, q: nat)
    requires Adds(slots, a, p, name, ATTR_FILE, cluster, size) && q == p + LfnCount(name)
    requires Lookup(slots, name, Any).None?
    ensures q < |a| && Unique(a, Hit(p, q), name, Any)
  {
    var n := LfnCount(name) + 1;
    AddedBehind(slots, a, p, name, cluster, size, n);
    NothingBehind(slots, a, p, n, q + 1, name, Any);
  }

  lemma AddedBehind(slots: Slots, a: Slots, p: nat, name: seq<byte>, cluster: nat, size: nat, n: nat)
    requires IsName(name) && IsEntry(ATTR_FILE, cluster, size) && n == LfnCount(name) + 1 && p + n <= |slots|
    requires a == Added(slots, p, name, ATTR_FILE, cluster, size)
    ensures |a| == |slots| && a[p + n..] == slots[p + n..]
  {
    AddedOutside(slots, p, name, ATTR_FILE, cluster, size);
  }

  lemma WroteKeepsSole(g: Geometry, v: Vol, vm: Vol, v': Vol, dir: nat, name: seq<byte>, cs: seq<nat>, data: seq<byte>, p: nat,
                       other: seq<byte>, f: File)
    requires IsName(name) && Wrote(g, v, vm, v', dir, name, cs, data, p)
    requires Sole(g, v, dir, other, f) && !SameName(name, other)
    ensures Sole(g, v', dir, other, f) && C.Disjoint(f.chain, cs)
  {
    WroteKeeps(g, v, vm, v', dir, name, cs, data, p, other, f.hit, f.chain, f.data);
    WroteDir(g, v, vm, v', dir, name, cs, data, p);
    C.AllocKeepsChain(v.fat, vm.fat, g.limit, cs, f.chain);
    HitIsEntry(DirSlots(v, dir), 0, Clean, other, Any);
    AddKeepsUnique(DirSlots(v, dir), p, name, ATTR_FILE, cs[0], |data|, f.hit, other, Any);
  }

  /** fat16_write_file of a fresh name: the map gains exactly that file. */
  lemma WriteRefines(g: Geometry, v: Vol, vm: Vol, v': Vol, dir: nat, files: map<seq<byte>, File>,
                     name: seq<byte>, cs: seq<nat>, data: seq<byte>, p: nat)
    requires Holds(g, v, dir, files) && Fresh(g, v, dir, files, name) && Wrote(g, v, vm, v', dir, name, cs, data, p)
    ensures Holds(g, v', dir, files[name := File(Hit(p, p + LfnCount(name)), cs, data)])
  {
    var file := File(Hit(p, p + LfnCount(name)), cs, data);
    WroteDir(g, v, vm, v', dir, name, cs, data, p);
    WroteSole(g, v, vm, v', dir, name, cs, data, p);
    WroteOthers(g, v, vm, v', dir, files, name, cs, data, p);
    OneMoreSole(g, v', dir, files, name, file);
    OneMoreApart(files, name, file);
  }

  lemma WroteOthers(g: Geometry, v: Vol, vm: Vol, v': Vol, dir: nat, files: map<seq<byte>, File>,
                    name: seq<byte>, cs: seq<nat>, data: seq<byte>, p: nat)
    requires AllSole(g, v, dir, files) && IsName(name) && Wrote(g, v, vm, v', dir, name, cs, data, p)
    requires forall n :: n in files ==> !SameName(name, n)
    ensures AllSole(g, v', dir, files)
    ensures forall n :: n in files ==> C.Disjoint(files[n].chain, cs)
  {
    forall n | n in files ensures Sole(g, v', dir, n, files[n]) && C.Disjoint(files[n].chain, cs) {
      assert Sole(g, v, dir, n, files[n]);
      WroteKeepsSole(g, v, vm, v', dir, name, cs, data, p, n, files[n]);
    }
  }

  /** A chain allocated without an entry leaves every file as it was. */
  lemma LossKeepsSole(g: Geometry, v: Vol, vm: Vol, dir: nat, cs: seq<nat>, data: seq<byte>, other: seq<byte>, f: File)
    requires Sole(g, v, dir, other, f) && Filling(g, v, vm, cs, data, Filled(cs, data), 0)
    ensures Sole(g, vm, dir, other, f)
  {
    WritingSparesDir(g, v, vm, dir, cs, data, Filled(cs, data));
    WritingKeepsClosed(g, v, vm, cs, data, Filled(cs, data));
    WritingSparesChain(g, v, vm, cs, data, Filled(cs, data), f.chain, f.data);
  }

  lemma LossKeepsAll(g: Geometry, v: Vol, vm: Vol, dir: nat, cs: seq<nat>, data: seq<byte>, files: map<seq<byte>, File>)
    requires AllSole(g, v, dir, files) && Filling(g, v, vm, cs, data, Filled(cs, data), 0)
    ensures AllSole(g, vm, dir, files)
  {
    forall n | n in files ensures Sole(g, vm, dir, n, files[n]) {
      assert Sole(g, v, dir, n, files[n]);
      LossKeepsSole(g, v, vm, dir, cs, data, n, files[n]);
    }
  }

  lemma OneMoreSole(g: Geometry, v: Vol, dir: nat, files: map<seq<byte>, File>, name: seq<byte>, f: File)
    requires AllSole(g, v, dir, files) && Sole(g, v, dir, name, f)
    ensures AllSole(g, v, dir, files[name := f])
  {
    var more := files[name := f];
    forall n | n in more ensures Sole(g, v, dir, n, more[n]) {
      assert n != name ==> Sole(g, v, dir, n, files[n]);
    }
  }

  lemma OneMoreApart(files: map<seq<byte>, File>, name: seq<byte>, f: File)
    requires AllApart(files)
    requires forall n :: n in files ==> C.Disjoint(files[n].chain, f.chain) && !SameName(name, n) && !SameName(n, name)
    ensures AllApart(files[name := f])
  {
    var more := files[name := f];
    forall a, b | a in more && b in more && a != b ensures Apart(a, more[a], b, more[b]) {
      if a != name && b != name {
        assert Apart(a, files[a], b, files[b]);
      }
    }
  }

  // ---------- deleting ----------

  /** Files with disjoint chains have different entries. */
  lemma DifferentEntries(g: Geometry, v: Vol, dir: nat, a: seq<byte>, fa: File, b: seq<byte>, fb: File)
    requires Sole(g, v, dir, a, fa) && Sole(g, v, dir, b, fb) && C.Disjoint(fa.chain, fb.chain)
    ensures fa.hit.slot != fb.hit.slot
  {
    assert fa.chain[0] in fa.chain && fb.chain[0] in fb.chain;
  }

  lemma DeletedKeepsSole(g: Geometry, v: Vol, vm: Vol, v': Vol, dir: nat, name: seq<byte>, f: File, other: seq<byte>, fo: File)
    requires Sole(g, v, dir, name, f) && Deleted(g, v, vm, v', dir, f.hit, f.chain)
    requires Sole(g, v, dir, other, fo) && C.Disjoint(fo.chain, f.chain)
    ensures Sole(g, v', dir, other, fo)
  {
    DifferentEntries(g, v, dir, other, fo, name, f);
    DeletedKeeps(g, v, vm, v', dir, f.hit, f.chain, other, fo.hit, fo.chain, fo.data);
    DeletedSlots(g, v, vm, v', dir, f.hit, f.chain);
    HitIsEntry(DirSlots(v, dir), 0, Clean, other, Any);
    DeleteKeepsUnique(DirSlots(v, dir), f.hit, fo.hit, other, Any);
  }

  /** Deleting the only entry of a name leaves the name fresh. */
  lemma DeletedGone(g: Geometry, v: Vol, vm: Vol, v': Vol, dir: nat, name: seq<byte>, f: File)
    requires Sole(g, v, dir, name, f) && Deleted(g, v, vm, v', dir, f.hit, f.chain)
    ensures DirOk(g, v', dir) && Lookup(DirSlots(v', dir), name, Any).None?
  {
    DeletedDir(g, v, vm, v', dir, f.hit, f.chain);
    DeletedSlots(g, v, vm, v', dir, f.hit, f.chain);
    ErasedGone(DirSlots(v, dir), f.hit, name);
  }

  lemma ErasedGone(slots: Slots, h: Hit, name: seq<byte>)
    requires WellFormed(slots) && ValidHit(slots, h) && Lookup(slots, name, Any) == Some(h) && Unique(slots, h, name, Any)
    ensures Lookup(Marked(slots, h.start, h.slot), name, Any).None?
  {
    LookupAfterDelete(slots, h, name, Any);
  }

  /** fat16_delete_file of a file of the map: the map loses exactly that file, and the name
      can be written again. */
  lemma DeleteRefines(g: Geometry, v: Vol, vm: Vol, v': Vol, dir: nat, files: map<seq<byte>, File>, name: seq<byte>)
    requires Holds(g, v, dir, files) && name in files
    requires Deleted(g, v, vm, v', dir, files[name].hit, files[name].chain)
    ensures Holds(g, v', dir, files - {name}) && Fresh(g, v', dir, files - {name}, name)
  {
    assert Sole(g, v, dir, name, files[name]);
    DeletedGone(g, v, vm, v', dir, name, files[name]);
    DeletedOthers(g, v, vm, v', dir, files, name);
    LessApart(files, name);
  }

  lemma DeletedOthers(g: Geometry, v: Vol, vm: Vol, v': Vol, dir: nat, files: map<seq<byte>, File>, name: seq<byte>)
    requires AllSole(g, v, dir, files) && AllApart(files) && name in files
    requires Deleted(g, v, vm, v', dir, files[name].hit, files[name].chain)
    ensures AllSole(g, v', dir, files - {name})
    ensures forall n :: n in files - {name} ==> !SameName(name, n) && !SameName(n, name)
  {
    var less := files - {name};
    forall n | n in less ensures Sole(g, v', dir, n, less[n]) && !SameName(name, n) && !SameName(n, name) {
      assert Apart(n, files[n], name, files[name]) && Apart(name, files[name], n, files[n]);
      assert Sole(g, v, dir, n, files[n]) && Sole(g, v, dir, name, files[name]);
      DeletedKeepsSole(g, v, vm, v', dir, name, files[name], n, files[n]);
    }
  }

  lemma LessSole(g: Geometry, v: Vol, dir: nat, files: map<seq<byte>, File>, name: seq<byte>)
    requires AllSole(g, v, dir, files)
    ensures AllSole(g, v, dir, files - {name})
  {
    var less := files - {name};
    forall n | n in less ensures Sole(g, v, dir, n, less[n]) {
      assert Sole(g, v, dir, n, files[n]);
    }
  }

  lemma LessApart(files: map<seq<byte>, File>, name: seq<byte>)
    requires AllApart(files)
    ensures AllApart(files - {name})
  {
    var less := files - {name};
    forall a, b | a in less && b in less && a != b ensures Apart(a, less[a], b, less[b]) {
      assert Apart(a, files[a], b, files[b]);
    }
  }

  // ---------- space ----------

  ghost function Members(cs: seq<nat>): set<nat> { set c | c in cs }

  lemma {:induction false} DistinctCount(cs: seq<nat>)
    requires C.Distinct(cs)
    ensures |Members(cs)| == |cs|
  {
    if cs != [] {
      var last := cs[|cs| - 1];
      var rest := cs[..|cs| - 1];
      DistinctCount(rest);
      assert Members(cs) == Members(rest) + {last};
    } else {
      assert Members(cs) == {};
    }
  }

  /** Freeing a chain gives back as many clusters as it has. */
  lemma FreedSpace(fat: seq<nat>, fat': seq<nat>, limit: nat, cs: seq<nat>)
    requires C.IsChain(fat, limit, cs) && C.Freed(fat, fat', cs)
    ensures |C.FreeBelow(fat', limit)| == |C.FreeBelow(fat, limit)| + |cs|
  {
    DistinctCount(cs);
    forall c | c in cs ensures c in C.FreeBelow(fat', limit) && c !in C.FreeBelow(fat, limit) {
      var i :| 0 <= i < |cs| && cs[i] == c;
      C.ChainNotFree(fat, limit, cs, c);
    }
    assert C.FreeBelow(fat', limit) == C.FreeBelow(fat, limit) + Members(cs);
    assert C.FreeBelow(fat, limit) !! Members(cs);
  }

  /** Data can be stored only where as many clusters are free as they need. */
  lemma RoomIsNeeded(g: Geometry, v: Vol, v': Vol, cs: seq<nat>, data: seq<byte>)
    requires Filling(g, v, v', cs, data, Filled(cs, data), 0)
    ensures |C.FreeBelow(v.fat, g.limit)| >= |cs|
  {
    C.AllFreeMeans(v.fat, cs);
    DistinctCount(cs);
    forall c | c in Members(cs) ensures c in C.FreeBelow(v.fat, g.limit) {
    }
    SubsetCount(Members(cs), C.FreeBelow(v.fat, g.limit));
  }

  lemma SubsetCount(a: set<nat>, b: set<nat>)
    requires a <= b
    ensures |a| <= |b|
  {
    assert b == a + (b - a);
  }

  /** The slots an entry leaves behind make room for as many again. */
  lemma ErasedRoom(slots: Slots, h: Hit, n: nat)
    requires ValidHit(slots, h) && h.start + n <= h.slot + 1
    ensures !NoRoom(Marked(slots, h.start, h.slot), n)
  {
    assert FreeRun(Marked(slots, h.start, h.slot), h.start, n);
  }

  lemma RoomAfter(g: Geometry, v: Vol, vm: Vol, v': Vol, dir: nat, h: Hit, cs: seq<nat>, n: nat)
    requires Deleted(g, v, vm, v', dir, h, cs) && h.start + n <= h.slot + 1
    ensures dir < |v'.clusters| && !NoRoom(DirSlots(v', dir), n)
  {
    DeletedSlots(g, v, vm, v', dir, h, cs);
    ErasedRoom(DirSlots(v, dir), h, n);
  }

  lemma RoomAgain(g: Geometry, v: Vol, vm: Vol, v': Vol, dir: nat, name: seq<byte>, f: File)
    requires Sole(g, v, dir, name, f) && Deleted(g, v, vm, v', dir, f.hit, f.chain)
    ensures !NoRoom(DirSlots(v', dir), LfnCount(name) + 1)
  {
    RoomAfter(g, v, vm, v', dir, f.hit, f.chain, LfnCount(name) + 1);
  }

  lemma SpaceAgain(g: Geometry, v: Vol, vm: Vol, v': Vol, dir: nat, name: seq<byte>, f: File)
    requires Sole(g, v, dir, name, f) && Deleted(g, v, vm, v', dir, f.hit, f.chain)
    ensures |C.FreeBelow(v'.fat, g.limit)| == |C.FreeBelow(v.fat, g.limit)| + |f.chain|
  {
    DeletedSlots(g, v, vm, v', dir, f.hit, f.chain);
    FreedSpace(v.fat, v'.fat, g.limit, f.chain);
  }
}
