/**
 * fat16_write_file, fat16_read_file, fat16_delete_file and fat16_vfs_write on the disk,
 * proved against the relations of FatVolume.
 */
module FatVolumeIo {
  import opened Common
  import opened FatConst
  import opened Bytes
  import opened FatNames
  import opened FatDir
  import opened FatDirUpdate
  import opened FatDirTheorems
  import opened FatDisk
  import opened FatDirIo
  import opened FatDirWrite
  import opened FatFiles
  import opened FatVolume
  import opened FatDirectory
  import C = FatChain

  /** fat16_write_file in the current directory.  A full directory is only logged: the chain
      then stays allocated with no entry for it. */
  method WriteFile(vol: Volume, dir: nat, name: seq<byte>, data: seq<byte>, behind: Sector)
    returns (ok: bool, ghost vm: Vol, ghost cs: seq<nat>, ghost p: nat)
    requires vol.Valid() && DirOk(vol.g, vol.V(), dir) && IsName(name) && |data| < 0x1_0000_0000
    requires RoomApart(DirSlots(vol.V(), dir), LfnCount(name) + 1)
    requires |C.FreeBelow(vol.V().fat, vol.g.limit)| >= ClustersNeeded(|data|, vol.g.sectorsPerCluster)
    modifies vol`disk
    ensures vol.Valid()
    ensures |cs| == ClustersNeeded(|data|, vol.g.sectorsPerCluster)
    ensures Filling(vol.g, old(vol.V()), vm, cs, data, Filled(cs, data), 0)
    ensures ok ==> Wrote(vol.g, old(vol.V()), vm, vol.V(), dir, name, cs, data, p)
    ensures !ok ==> vol.V() == vm && NoRoom(DirSlots(old(vol.V()), dir), LfnCount(name) + 1)
  {
    ghost var v := vol.V();
    var first;
    first, cs := WriteChain(vol, data, behind);
    vm := vol.V();
    WritingSparesDir(vol.g, v, vm, dir, cs, data, Filled(cs, data));
    FirstIsCluster(vol.g, v, vm, cs, data, Filled(cs, data));
    ok, p := AddDirEntry(vol, dir, name, ATTR_FILE, first, |data|);
  }

  lemma FirstIsCluster(g: Geometry, v: Vol, v': Vol, cs: seq<nat>, data: seq<byte>, written: nat)
    requires Filling(g, v, v', cs, data, written, 0) && |data| < 0x1_0000_0000
    ensures IsEntry(ATTR_FILE, cs[0], |data|)
  {
  }

  /** The name resolves to an entry of size 0, as every directory's is. */
  ghost predicate SizeZero(v: Vol, dir: nat, name: seq<byte>)
    requires dir < |v.clusters|
  {
    var hit := Lookup(DirSlots(v, dir), name, Any);
    hit.Some? && hit.value.slot < |DirSlots(v, dir)| && SizeOf(DirSlots(v, dir)[hit.value.slot]) == 0
  }

  /** fat16_read_file in the current directory: a name that does not resolve, or resolves to a
      directory, reads as nothing, a stored file as the bytes from the offset on. */
  method ReadFile(vol: Volume, dir: nat, name: seq<byte>, offset: nat, n: nat,
                  ghost h: Hit, ghost cs: seq<nat>, ghost data: seq<byte>)
    returns (out: seq<byte>)
    requires vol.Valid() && DirOk(vol.g, vol.V(), dir) && IsText(name) && offset + n < 0x1_0000_0000
    requires || Lookup(DirSlots(vol.V(), dir), name, Any).None? || SizeZero(vol.V(), dir, name)
             || Stores(vol.g, vol.V(), dir, name, h, cs, data)
    ensures Lookup(DirSlots(vol.V(), dir), name, Any).None? || SizeZero(vol.V(), dir, name) ==> out == []
    ensures Stores(vol.g, vol.V(), dir, name, h, cs, data) ==>
              out == if offset >= |data| then [] else data[offset..Min(offset + n, |data|)]
  {
    var hit := ScanDir(vol, dir, name, Any);
    if hit.None? {
      return [];
    }
    var entry := EntryAtSlot(vol, dir, hit.value.slot);
    if offset >= SizeOf(entry) {
      return [];
    }
    out := ReadChain(vol, ClusterOf(entry), SizeOf(entry), offset, n, cs, data);
  }

  /** The 32 bytes of slot k, which a scan has copied out. */
  method EntryAtSlot(vol: Volume, dir: nat, k: nat) returns (s: Slot)
    requires vol.Valid() && IsDir(vol.g, dir) && k < |DirSlots(vol.V(), dir)|
    ensures s == DirSlots(vol.V(), dir)[k]
  {
    ghost var sectors: seq<Sector> := DirOf(vol.V(), dir);
    var buf := ReadDirSector(vol, dir, k / 16);
    SlotsIndex(sectors, k / 16, k % 16);
    s := SlotAt(buf, k % 16);
  }

  /** When the first entry of a name is a file, a scan for files stops there too. */
  lemma {:induction false} FileFoundToo(slots: Slots, k: nat, p: Pending, target: seq<byte>)
    requires k <= |slots|
    ensures var r := Find(slots, k, p, target, Any);
            r.Some? ==> r.value.slot < |slots| && (!IsDirSlot(slots[r.value.slot]) ==> Find(slots, k, p, target, FileOnly) == r)
    decreases |slots| - k
  {
    if k < |slots| && slots[k][0] != 0 {
      if slots[k][0] == DELETED {
        FileFoundToo(slots, k + 1, Clean, target);
      } else if IsLfn(slots[k]) {
        FileFoundToo(slots, k + 1, After(slots[k], k, p), target);
      } else if !Matches(slots[k], p, target, Any) {
        FileFoundToo(slots, k + 1, Clean, target);
      }
    }
  }

  /** The file entry the name leads to, if any, is h, and its chain is cs. */
  ghost predicate LeadsTo(g: Geometry, v: Vol, dir: nat, name: seq<byte>, h: Hit, cs: seq<nat>)
    requires dir < |v.clusters|
  {
    var hit := Lookup(DirSlots(v, dir), name, FileOnly);
    hit.Some? ==> hit.value == h && h.slot < |DirSlots(v, dir)|
                  && C.IsChain(v.fat, g.limit, cs) && ClusterOf(DirSlots(v, dir)[h.slot]) == cs[0]
  }

  lemma StoredLeadsTo(g: Geometry, v: Vol, dir: nat, name: seq<byte>, h: Hit, cs: seq<nat>, data: seq<byte>)
    requires Stores(g, v, dir, name, h, cs, data)
    ensures LeadsTo(g, v, dir, name, h, cs) && Lookup(DirSlots(v, dir), name, FileOnly) == Some(h)
  {
    FileFoundToo(DirSlots(v, dir), 0, Clean, name);
  }

  /** fat16_delete_file: the file the name leads to goes; when there is none, nothing happens. */
  method DeleteFile(vol: Volume, dir: nat, name: seq<byte>, ghost h: Hit, ghost cs: seq<nat>)
    returns (ghost vm: Vol)
    requires vol.Valid() && IsText(name) && DirOk(vol.g, vol.V(), dir) && LeadsTo(vol.g, vol.V(), dir, name, h, cs)
    modifies vol`disk
    ensures vol.Valid()
    ensures Lookup(DirSlots(old(vol.V()), dir), name, FileOnly).None? ==> vol.V() == old(vol.V())
    ensures Lookup(DirSlots(old(vol.V()), dir), name, FileOnly).Some? ==> Deleted(vol.g, old(vol.V()), vm, vol.V(), dir, h, cs)
  {
    ghost var v := vol.V();
    HitIsEntry(DirSlots(v, dir), 0, Clean, name, FileOnly);
    var hit := ScanDir(vol, dir, name, FileOnly);
    vm := v;
    if hit.Some? {
      var entry := EntryAtSlot(vol, dir, hit.value.slot);
      MarkEntriesDeleted(vol, dir, hit.value.start, hit.value.slot);
      vm := vol.V();
      DirChanged(vol.g, v, vm, dir, Marked(DirSlots(v, dir), h.start, h.slot));
      FreeChain(vol, ClusterOf(entry), cs);
    }
  }

  // ---------- fat16_vfs_write ----------

  function Contents(files: map<seq<byte>, File>, name: seq<byte>): seq<byte> {
    if name in files then files[name].data else []
  }

  /** What a node that believes the file to be `length` bytes long reads of it. */
  function Believed(was: seq<byte>, length: nat): seq<byte> { was[..Min(length, |was|)] }

  /** The temporary buffer of fat16_vfs_write: zeroed, then the old contents, then the new bytes. */
  function Patched(was: seq<byte>, size: nat, offset: nat, buf: seq<byte>): seq<byte>
    requires |was| <= size && offset + |buf| <= size
  {
    var temp := was + Zeros(size)[|was|..];
    temp[..offset] + buf + temp[offset + |buf|..]
  }

  /** What the file holds after a write through such a node. */
  function Rewritten(was: seq<byte>, length: nat, offset: nat, buf: seq<byte>): (r: seq<byte>)
    ensures |r| == Max(length, offset + |buf|)
  {
    Patched(Believed(was, length), Max(length, offset + |buf|), offset, buf)
  }

  lemma RewrittenByte(was: seq<byte>, length: nat, offset: nat, buf: seq<byte>, i: nat)
    requires i < Max(length, offset + |buf|)
    ensures Rewritten(was, length, offset, buf)[i] == OverlayByte(Believed(was, length), offset, buf, i)
  {
  }

  /** The node's length is right, or the write reaches past it and past the end of the file, and
      what lies between them before the offset is zero anyway. */
  predicate LengthWillDo(was: seq<byte>, length: nat, offset: nat, buf: seq<byte>) {
    || length == |was|
    || (length <= offset + |buf| && |was| <= offset + |buf| && forall i :: length <= i < |was| && i < offset ==> was[i] == 0)
  }

  /**
   * The write is a positioned write exactly when the node's length will do.  A node's length
   * goes stale when the file is written through another node.
   */
  lemma RightLength(was: seq<byte>, length: nat, offset: nat, buf: seq<byte>)
    ensures Rewritten(was, length, offset, buf) == Overlay(was, offset, buf) <==> LengthWillDo(was, length, offset, buf)
  {
    var r, o := Rewritten(was, length, offset, buf), Overlay(was, offset, buf);
    if LengthWillDo(was, length, offset, buf) {
      forall i: nat | i < |r| ensures r[i] == o[i] {
        RewrittenByte(was, length, offset, buf, i);
      }
    } else if |r| == |o| {
      var i: nat :| length <= i < |was| && i < offset && was[i] != 0;
      RewrittenByte(was, length, offset, buf, i);
      assert o[i] == was[i];
    }
  }

  /** One byte written through a node that missed the file's growth to three cuts it to one. */
  lemma StaleNodeCuts()
    ensures Rewritten([7, 8, 9], 1, 0, [5]) == [5] && Overlay([7, 8, 9], 0, [5]) == [5, 8, 9]
  {
  }

  /** The write half, of a name that is free or has an entry already. */
  method AddFile(vol: Volume, dir: nat, name: seq<byte>, data: seq<byte>, behind: Sector, ghost files: map<seq<byte>, File>)
    returns (ghost ok: bool, ghost f: File)
    requires vol.Valid() && Holds(vol.g, vol.V(), dir, files) && IsNode(vol.g, vol.V(), dir, files, name)
    requires |data| < 0x1_0000_0000 && RoomApart(DirSlots(vol.V(), dir), LfnCount(name) + 1)
    requires |C.FreeBelow(vol.V().fat, vol.g.limit)| >= ClustersNeeded(|data|, vol.g.sectorsPerCluster)
    modifies vol`disk
    ensures vol.Valid() && f.data == data && PutIn(vol.g, old(vol.V()), vol.V(), dir, name, ok, f)
    ensures name !in files ==> Holds(vol.g, vol.V(), dir, files[name := f])
    ensures name in files ==> Doubled(vol.g, old(vol.V()), vol.V(), dir, files, name, ok, f)
  {
    ghost var v := vol.V();
    var added: bool;
    ghost var vm, cs, p;
    added, vm, cs, p := WriteFile(vol, dir, name, data, behind);
    ok, f := added, File(Hit(p, p + LfnCount(name)), cs, data);
    if added {
      FileAdded(vol.g, v, vm, vol.V(), dir, files, name, cs, data, p, f);
    } else {
      AddedNothing(vol.g, v, vol.V(), dir, files, name, cs, data, f);
    }
  }

  /** What the write half did: the file, or, in a full directory, only its chain. */
  ghost predicate PutIn(g: Geometry, v: Vol, v': Vol, dir: nat, name: seq<byte>, ok: bool, f: File) {
    && IsName(name)
    && if ok then f.hit.slot == f.hit.start + LfnCount(name) && exists vm :: Wrote(g, v, vm, v', dir, name, f.chain, f.data, f.hit.start)
       else Filling(g, v, v', f.chain, f.data, Filled(f.chain, f.data), 0)
  }

  lemma FileAdded(g: Geometry, v: Vol, vm: Vol, v': Vol, dir: nat, files: map<seq<byte>, File>,
                  name: seq<byte>, cs: seq<nat>, data: seq<byte>, p: nat, f: File)
    requires Holds(g, v, dir, files) && IsNode(g, v, dir, files, name) && Wrote(g, v, vm, v', dir, name, cs, data, p)
    requires f == File(Hit(p, p + LfnCount(name)), cs, data)
    ensures PutIn(g, v, v', dir, name, true, f)
    ensures name !in files ==> Holds(g, v', dir, files[name := f])
    ensures name in files ==> Doubled(g, v, v', dir, files, name, true, f)
  {
    if name !in files {
      WriteRefines(g, v, vm, v', dir, files, name, cs, data, p);
    } else {
      AddedAgain(g, v, vm, v', dir, files, name, cs, data, p);
    }
  }

  lemma AddedAgain(g: Geometry, v: Vol, vm: Vol, v': Vol, dir: nat, files: map<seq<byte>, File>,
                   name: seq<byte>, cs: seq<nat>, data: seq<byte>, p: nat)
    requires Holds(g, v, dir, files) && name in files && Wrote(g, v, vm, v', dir, name, cs, data, p)
    ensures Doubled(g, v, v', dir, files, name, true, File(Hit(p, p + LfnCount(name)), cs, data))
  {
    var f := files[name];
    assert Sole(g, v, dir, name, f);
    LessSole(g, v, dir, files, name);
    OthersApart(files, name);
    WroteOthers(g, v, vm, v', dir, files - {name}, name, cs, data, p);
    WroteAgain(g, v, vm, v', dir, name, cs, data, p, name, f.hit, f.chain, f.data);
  }

  lemma AddedNothing(g: Geometry, v: Vol, vm: Vol, dir: nat, files: map<seq<byte>, File>, name: seq<byte>, cs: seq<nat>, data: seq<byte>, f: File)
    requires Holds(g, v, dir, files) && IsNode(g, v, dir, files, name) && Filling(g, v, vm, cs, data, Filled(cs, data), 0)
    requires NoRoom(DirSlots(v, dir), LfnCount(name) + 1) && f.chain == cs && f.data == data
    ensures PutIn(g, v, vm, dir, name, false, f) && name in files && Doubled(g, v, vm, dir, files, name, false, f)
  {
    assert Sole(g, v, dir, name, files[name]);
    LossKeepsSole(g, v, vm, dir, cs, data, name, files[name]);
    LessSole(g, v, dir, files, name);
    LossKeepsAll(g, v, vm, dir, cs, data, files - {name});
  }

  lemma OthersApart(files: map<seq<byte>, File>, name: seq<byte>)
    requires AllApart(files) && name in files
    ensures forall n :: n in files - {name} ==> !SameName(name, n)
  {
    forall n | n in files - {name} ensures !SameName(name, n) {
      assert Apart(name, files[name], n, files[n]);
    }
  }

  /** The directory has a second entry of the name, which the name resolves to only if it stands
      before the first one; or there was no room for it and the name has its file.  Every other
      name has its file. */
  ghost predicate Doubled(g: Geometry, v: Vol, v': Vol, dir: nat, files: map<seq<byte>, File>, name: seq<byte>, ok: bool, f: File)
    requires IsName(name) && name in files && dir < |v.clusters|
  {
    var found := if ok && f.hit.start <= files[name].hit.slot then f else files[name];
    && Stores(g, v', dir, name, found.hit, found.chain, found.data)
    && (!ok ==> NoRoom(DirSlots(v, dir), LfnCount(name) + 1))
    && AllSole(g, v', dir, files - {name})
  }

  /** The result of a write through a node.  When the node has length 0 on record and the file
      exists, nothing is read and nothing deleted. */
  ghost predicate NodeWritten(g: Geometry, v: Vol, v': Vol, dir: nat, files: map<seq<byte>, File>, name: seq<byte>, length: nat,
                              offset: nat, buf: seq<byte>, ok: bool, f: File)
    requires IsName(name) && dir < |v.clusters|
  {
    var was := Contents(files, name);
    && f.data == Rewritten(was, length, offset, buf)
    && if name in files && length == 0 then Doubled(g, v, v', dir, files, name, ok, f)
       else Holds(g, v', dir, files[name := f]) && (f.data == Overlay(was, offset, buf) <==> LengthWillDo(was, length, offset, buf))
  }

  /** The first half of such a write: the file the node knows of has gone, or nothing has. */
  ghost predicate TakenOut(g: Geometry, v: Vol, v': Vol, dir: nat, files: map<seq<byte>, File>, name: seq<byte>, length: nat) {
    if length > 0 && name in files then exists vm :: Deleted(g, v, vm, v', dir, files[name].hit, files[name].chain) else v' == v
  }

  /** The directory after it. */
  ghost function SlotsLeft(v: Vol, dir: nat, files: map<seq<byte>, File>, name: seq<byte>, length: nat): Slots
    requires dir < |v.clusters|
  {
    var slots := DirSlots(v, dir);
    if length > 0 && name in files && files[name].hit.slot < |slots| then Marked(slots, files[name].hit.start, files[name].hit.slot)
    else slots
  }

  /** In a tidy directory the entry goes where no orphaned long name stands. */
  lemma TidyWillDo(g: Geometry, v: Vol, dir: nat, files: map<seq<byte>, File>, name: seq<byte>, length: nat)
    requires Holds(g, v, dir, files) && IsName(name) && Tidy(DirSlots(v, dir))
    ensures RoomApart(SlotsLeft(v, dir, files, name, length), LfnCount(name) + 1)
  {
    if length > 0 && name in files {
      HitOfFile(g, v, dir, files, name);
      DeleteKeepsTidy(DirSlots(v, dir), files[name].hit);
    }
    TidyRoom(SlotsLeft(v, dir, files, name, length), LfnCount(name) + 1);
  }

  lemma HitOfFile(g: Geometry, v: Vol, dir: nat, files: map<seq<byte>, File>, name: seq<byte>)
    requires AllSole(g, v, dir, files) && name in files
    ensures dir < |v.clusters| && ValidHit(DirSlots(v, dir), files[name].hit)
  {
    assert Sole(g, v, dir, name, files[name]);
    HitIsEntry(DirSlots(v, dir), 0, Clean, name, Any);
  }

  /**
   * fat16_vfs_write, for whatever length the node records.  A node whose file is gone writes it
   * anew.  One that records a length for its file leaves what Rewritten says, which is the old
   * contents overlaid at the offset exactly when that length will do, and every other file as
   * before.  One that records length 0 for a file that exists adds a second entry.  The volume
   * changes by a deletion, if the node knows of a file, and a write, with `mid` in between.
   */
  method VfsWrite(vol: Volume, dir: nat, name: seq<byte>, length: nat, offset: nat, buf: seq<byte>, memory: bool,
                  behind: Sector, ghost files: map<seq<byte>, File>)
    returns (n: nat, length': nat, ghost mid: Vol, ghost ok: bool, ghost f: File)
    requires vol.Valid() && Holds(vol.g, vol.V(), dir, files)
    requires IsNode(vol.g, vol.V(), dir, files, name) && RoomApart(SlotsLeft(vol.V(), dir, files, name, length), LfnCount(name) + 1)
    requires length < 0x1_0000_0000 && offset + |buf| < 0x1_0000_0000
    requires EnoughSpace(vol.g, vol.V(), files, name, length, Max(length, offset + |buf|))
    modifies vol`disk
    ensures vol.Valid()
    ensures !memory ==> n == 0 && length' == length && vol.V() == old(vol.V())
    ensures memory ==> n == |buf| && length' == Max(length, offset + |buf|)
    ensures memory ==> TakenOut(vol.g, old(vol.V()), mid, dir, files, name, length) && PutIn(vol.g, mid, vol.V(), dir, name, ok, f)
    ensures memory ==> NodeWritten(vol.g, old(vol.V()), vol.V(), dir, files, name, length, offset, buf, ok, f)
  {
    n, length', mid, ok, f := 0, length, vol.V(), false, File(Hit(0, 0), [], []);
    if memory {
      length' := Max(length, offset + |buf|);
      mid, ok, f := WriteThrough(vol, dir, name, length, offset, buf, behind, files);
      n := |buf|;
    }
  }

  method WriteThrough(vol: Volume, dir: nat, name: seq<byte>, length: nat, offset: nat, buf: seq<byte>, behind: Sector, ghost files: map<seq<byte>, File>)
    returns (ghost mid: Vol, ghost ok: bool, ghost f: File)
    requires vol.Valid() && Holds(vol.g, vol.V(), dir, files)
    requires IsNode(vol.g, vol.V(), dir, files, name) && RoomApart(SlotsLeft(vol.V(), dir, files, name, length), LfnCount(name) + 1)
    requires length < 0x1_0000_0000 && offset + |buf| < 0x1_0000_0000
    requires EnoughSpace(vol.g, vol.V(), files, name, length, Max(length, offset + |buf|))
    modifies vol`disk
    ensures vol.Valid() && TakenOut(vol.g, old(vol.V()), mid, dir, files, name, length) && PutIn(vol.g, mid, vol.V(), dir, name, ok, f)
    ensures NodeWritten(vol.g, old(vol.V()), vol.V(), dir, files, name, length, offset, buf, ok, f)
  {
    var temp: seq<byte>;
    ghost var rest: map<seq<byte>, File>;
    temp, rest := Prepare(vol, dir, name, length, offset, buf, files);
    mid := vol.V();
    ok, f := AddFile(vol, dir, name, temp, behind, rest);
    NodeDone(vol.g, old(vol.V()), mid, vol.V(), dir, files, rest, name, length, offset, buf, ok, f);
  }

  /** The temporary buffer, with the file gone. */
  method Prepare(vol: Volume, dir: nat, name: seq<byte>, length: nat, offset: nat, buf: seq<byte>, ghost files: map<seq<byte>, File>)
    returns (temp: seq<byte>, ghost rest: map<seq<byte>, File>)
    requires vol.Valid() && Holds(vol.g, vol.V(), dir, files)
    requires IsNode(vol.g, vol.V(), dir, files, name) && RoomApart(SlotsLeft(vol.V(), dir, files, name, length), LfnCount(name) + 1)
    requires length < 0x1_0000_0000 && offset + |buf| < 0x1_0000_0000
    requires EnoughSpace(vol.g, vol.V(), files, name, length, Max(length, offset + |buf|))
    modifies vol`disk
    ensures vol.Valid() && temp == Rewritten(Contents(files, name), length, offset, buf) && |temp| < 0x1_0000_0000
    ensures TakenOut(vol.g, old(vol.V()), vol.V(), dir, files, name, length) && rest == if length == 0 then files else files - {name}
    ensures Holds(vol.g, vol.V(), dir, rest) && IsNode(vol.g, vol.V(), dir, rest, name)
    ensures RoomApart(DirSlots(vol.V(), dir), LfnCount(name) + 1)
    ensures |C.FreeBelow(vol.V().fat, vol.g.limit)| >= ClustersNeeded(|temp|, vol.g.sectorsPerCluster)
  {
    var size := Max(length, offset + |buf|);
    var content: seq<byte>;
    content, rest := TakeOut(vol, dir, name, length, size, files);
    temp := Patched(content, size, offset, buf);
  }

  lemma NodeDone(g: Geometry, v: Vol, taken: Vol, v': Vol, dir: nat, files: map<seq<byte>, File>, rest: map<seq<byte>, File>,
                 name: seq<byte>, length: nat, offset: nat, buf: seq<byte>, ok: bool, f: File)
    requires IsName(name) && dir < |v.clusters| && dir < |taken.clusters|
    requires (rest == if length == 0 then files else files - {name}) && TakenOut(g, v, taken, dir, files, name, length)
    requires f.data == Rewritten(Contents(files, name), length, offset, buf)
    requires name !in rest ==> Holds(g, v', dir, rest[name := f])
    requires name in rest ==> Doubled(g, taken, v', dir, rest, name, ok, f)
    ensures NodeWritten(g, v, v', dir, files, name, length, offset, buf, ok, f)
  {
    RightLength(Contents(files, name), length, offset, buf);
    PutBack(files, rest, name, f);
  }

  lemma PutBack(files: map<seq<byte>, File>, rest: map<seq<byte>, File>, name: seq<byte>, f: File)
    requires rest == files || rest == files - {name}
    ensures rest[name := f] == files[name := f]
  {
  }

  /** A node names a file, or a name that can be written anew. */
  ghost predicate IsNode(g: Geometry, v: Vol, dir: nat, files: map<seq<byte>, File>, name: seq<byte>)
    requires DirOk(g, v, dir)
  {
    IsName(name) && (name !in files ==> Fresh(g, v, dir, files, name) && !NoRoom(DirSlots(v, dir), LfnCount(name) + 1))
  }

  /** Reads as much of the contents as the node knows of, and deletes the file; nothing of both
      when the node knows of none. */
  method TakeOut(vol: Volume, dir: nat, name: seq<byte>, length: nat, ghost size: nat, ghost files: map<seq<byte>, File>)
    returns (content: seq<byte>, ghost rest: map<seq<byte>, File>)
    requires vol.Valid() && Holds(vol.g, vol.V(), dir, files)
    requires IsNode(vol.g, vol.V(), dir, files, name) && length < 0x1_0000_0000
    requires RoomApart(SlotsLeft(vol.V(), dir, files, name, length), LfnCount(name) + 1)
    requires EnoughSpace(vol.g, vol.V(), files, name, length, size)
    modifies vol`disk
    ensures vol.Valid() && content == Believed(Contents(files, name), length)
    ensures TakenOut(vol.g, old(vol.V()), vol.V(), dir, files, name, length) && rest == if length == 0 then files else files - {name}
    ensures Holds(vol.g, vol.V(), dir, rest) && IsNode(vol.g, vol.V(), dir, rest, name)
    ensures RoomApart(DirSlots(vol.V(), dir), LfnCount(name) + 1)
    ensures |C.FreeBelow(vol.V().fat, vol.g.limit)| >= ClustersNeeded(size, vol.g.sectorsPerCluster)
  {
    content := [];
    rest := files;
    if length > 0 {
      content := ReadKnown(vol, dir, name, length, files);
      RemoveIfThere(vol, dir, name, length, files);
      rest := files - {name};
    }
  }

  /** The free clusters, with those of the file that goes first, hold that many bytes. */
  ghost predicate EnoughSpace(g: Geometry, v: Vol, files: map<seq<byte>, File>, name: seq<byte>, length: nat, size: nat) {
    && g.sectorsPerCluster >= 1
    && |C.FreeBelow(v.fat, g.limit)| + (if name in files && length > 0 then |files[name].chain| else 0)
       >= ClustersNeeded(size, g.sectorsPerCluster)
  }

  method ReadKnown(vol: Volume, dir: nat, name: seq<byte>, length: nat, ghost files: map<seq<byte>, File>)
    returns (out: seq<byte>)
    requires vol.Valid() && Holds(vol.g, vol.V(), dir, files) && 0 < length < 0x1_0000_0000
    requires name !in files ==> Fresh(vol.g, vol.V(), dir, files, name)
    ensures out == Believed(Contents(files, name), length)
  {
    ghost var f := if name in files then files[name] else File(Hit(0, 0), [], []);
    assert name in files ==> Sole(vol.g, vol.V(), dir, name, f);
    out := ReadFile(vol, dir, name, 0, length, f.hit, f.chain, f.data);
  }

  /** With no entry of a name there is no file entry of it. */
  lemma {:induction false} NoFileEither(slots: Slots, k: nat, p: Pending, target: seq<byte>)
    requires k <= |slots| && Find(slots, k, p, target, Any).None?
    ensures Find(slots, k, p, target, FileOnly).None?
    decreases |slots| - k
  {
    if k < |slots| && slots[k][0] != 0 {
      if slots[k][0] == DELETED {
        NoFileEither(slots, k + 1, Clean, target);
      } else if IsLfn(slots[k]) {
        NoFileEither(slots, k + 1, After(slots[k], k, p), target);
      } else {
        NoFileEither(slots, k + 1, Clean, target);
      }
    }
  }

  method RemoveIfThere(vol: Volume, dir: nat, name: seq<byte>, ghost length: nat, ghost files: map<seq<byte>, File>)
    requires vol.Valid() && Holds(vol.g, vol.V(), dir, files) && length > 0
    requires name !in files ==> Fresh(vol.g, vol.V(), dir, files, name) && !NoRoom(DirSlots(vol.V(), dir), LfnCount(name) + 1)
    modifies vol`disk
    ensures vol.Valid() && TakenOut(vol.g, old(vol.V()), vol.V(), dir, files, name, length)
    ensures Holds(vol.g, vol.V(), dir, files - {name}) && Fresh(vol.g, vol.V(), dir, files - {name}, name)
    ensures !NoRoom(DirSlots(vol.V(), dir), LfnCount(name) + 1)
    ensures DirSlots(vol.V(), dir) == SlotsLeft(old(vol.V()), dir, files, name, length)
    ensures |C.FreeBelow(vol.V().fat, vol.g.limit)|
         == |C.FreeBelow(old(vol.V()).fat, vol.g.limit)| + (if name in files then |files[name].chain| else 0)
  {
    ghost var v := vol.V();
    ghost var f := if name in files then files[name] else File(Hit(0, 0), [], []);
    FileOrNone(vol.g, v, dir, files, name, f);
    ghost var vm := DeleteFile(vol, dir, name, f.hit, f.chain);
    if name in files {
      FileGone(vol.g, v, vm, vol.V(), dir, files, name, length, f);
    } else {
      assert files - {name} == files;
    }
  }

  /** What a deletion of the name will find. */
  lemma FileOrNone(g: Geometry, v: Vol, dir: nat, files: map<seq<byte>, File>, name: seq<byte>, f: File)
    requires Holds(g, v, dir, files) && (name !in files ==> Fresh(g, v, dir, files, name))
    requires name in files ==> f == files[name]
    ensures LeadsTo(g, v, dir, name, f.hit, f.chain)
    ensures Lookup(DirSlots(v, dir), name, FileOnly) == if name in files then Some(f.hit) else None
  {
    if name in files {
      assert Sole(g, v, dir, name, f);
      StoredLeadsTo(g, v, dir, name, f.hit, f.chain, f.data);
    } else {
      NoFileEither(DirSlots(v, dir), 0, Clean, name);
    }
  }

  lemma FileGone(g: Geometry, v: Vol, vm: Vol, v': Vol, dir: nat, files: map<seq<byte>, File>, name: seq<byte>, length: nat, f: File)
    requires Holds(g, v, dir, files) && name in files && f == files[name] && Deleted(g, v, vm, v', dir, f.hit, f.chain) && length > 0
    ensures TakenOut(g, v, v', dir, files, name, length)
    ensures Holds(g, v', dir, files - {name}) && Fresh(g, v', dir, files - {name}, name)
    ensures !NoRoom(DirSlots(v', dir), LfnCount(name) + 1) && DirSlots(v', dir) == SlotsLeft(v, dir, files, name, length)
    ensures |C.FreeBelow(v'.fat, g.limit)| == |C.FreeBelow(v.fat, g.limit)| + |f.chain|
  {
    assert Sole(g, v, dir, name, f);
    DeleteRefines(g, v, vm, v', dir, files, name);
    RoomAgain(g, v, vm, v', dir, name, f);
    SpaceAgain(g, v, vm, v', dir, name, f);
    DeletedSlots(g, v, vm, v', dir, f.hit, f.chain);
  }
}
