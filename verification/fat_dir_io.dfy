/**
 * Directories on disk: the sector loops of find_entry_in_current_dir, add_dir_entry,
 * fat16_delete_file and mark_entries_deleted, proved against the slot-level functions.
 *
 * A directory is named by its cluster, 0 for the root.
 */
module FatDirIo {
  import opened Common
  import opened FatConst
  import opened Bytes
  import opened FatNames
  import opened FatDir
  import opened FatDirUpdate
  import opened FatDisk

  function SlotAt(s: Sector, i: nat): Slot
    requires i < 16
  {
    s[32 * i..32 * i + 32]
  }

  function PutSlot(s: Sector, i: nat, slot: Slot): Sector
    requires i < 16
  {
    s[..32 * i] + slot + s[32 * i + 32..]
  }

  lemma PutThenSlot(s: Sector, i: nat, slot: Slot, j: nat)
    requires i < 16 && j < 16
    ensures SlotAt(PutSlot(s, i, slot), j) == if j == i then slot else SlotAt(s, j)
  {
    var t := PutSlot(s, i, slot);
    if j == i {
      assert t[32 * i..32 * i + 32] == slot;
    } else {
      forall k | 0 <= k < 32 ensures SlotAt(t, j)[k] == SlotAt(s, j)[k] {
      }
      assert SlotAt(t, j) == SlotAt(s, j);
    }
  }

  function SlotsOf(sectors: seq<Sector>): (slots: Slots)
    ensures |slots| == 16 * |sectors|
  {
    seq(16 * |sectors|, k requires 0 <= k < 16 * |sectors| =>
      SlotAt(sectors[k / 16], k % 16))
  }

  lemma SlotsIndex(sectors: seq<Sector>, s: nat, i: nat)
    requires s < |sectors| && i < 16
    ensures s * 16 + i < |SlotsOf(sectors)|
    ensures SlotsOf(sectors)[s * 16 + i] == SlotAt(sectors[s], i)
  {
    var k := s * 16 + i;
    assert k / 16 == s && k % 16 == i;
  }

  lemma SlotsUpdate(sectors: seq<Sector>, s: nat, i: nat, slot: Slot)
    requires s < |sectors| && i < 16
    ensures s * 16 + i < |SlotsOf(sectors)|
    ensures SlotsOf(SetSector(sectors, s, PutSlot(sectors[s], i, slot))) ==
            SlotsOf(sectors)[s * 16 + i := slot]
  {
    var at := s * 16 + i;
    var a, b := SlotsOf(SetSector(sectors, s, PutSlot(sectors[s], i, slot))), SlotsOf(sectors)[at := slot];
    forall k | 0 <= k < |a| ensures a[k] == b[k] {
      PutThenSlot(sectors[s], i, slot, k % 16);
    }
  }

  // ---------- the directory of a view ----------

  predicate IsDir(g: Geometry, dir: nat) { dir == 0 || 2 <= dir < g.limit }

  function DirOf(v: Vol, dir: nat): seq<Sector>
    requires dir < |v.clusters|
  {
    if dir == 0 then v.root else v.clusters[dir]
  }

  function WithDir(v: Vol, dir: nat, sectors: seq<Sector>): Vol
    requires dir < |v.clusters|
  {
    if dir == 0 then v.(root := sectors) else v.(clusters := v.clusters[dir := sectors])
  }

  function DirSlots(v: Vol, dir: nat): Slots
    requires dir < |v.clusters|
  {
    SlotsOf(DirOf(v, dir))
  }

  method ReadDirSector(vol: Volume, dir: nat, s: nat) returns (buf: Sector)
    requires vol.Valid() && IsDir(vol.g, dir) && s < |DirOf(vol.V(), dir)|
    ensures buf == DirOf(vol.V(), dir)[s]
  {
    if dir == 0 {
      buf := vol.ReadRootSector(s);
    } else {
      buf := vol.ReadClusterSector(dir, s);
    }
  }

  method WriteDirSector(vol: Volume, dir: nat, s: nat, buf: Sector)
    requires vol.Valid() && IsDir(vol.g, dir) && s < |DirOf(vol.V(), dir)|
    modifies vol`disk
    ensures vol.Valid()
    ensures vol.V() == WithDir(old(vol.V()), dir, SetSector(DirOf(old(vol.V()), dir), s, buf))
  {
    if dir == 0 {
      vol.PutRootSector(s, buf);
    } else {
      vol.PutClusterSector(dir, s, buf);
    }
  }

  /** root_dir_sectors or sectors_per_cluster. */
  function SectorCount(g: Geometry, dir: nat): nat { if dir == 0 then g.rootSectors else g.sectorsPerCluster }

  // ---------- scanning ----------

  /** The comparison a scan makes at a short entry. */
  method EntryMatches(s: Slot, buf: NameBuf, target: seq<byte>, kind: Kind) returns (matched: bool)
    requires IsText(target)
    ensures matched <==> NameMatches(s, buf, target) && KindMatches(s, kind)
  {
    if buf[0] != 0 {
      matched := StrCaseCmp(CString(buf), target);
    } else {
      var fat := FormatFilename(target);
      matched := s[..11] == fat;
    }
    matched := matched && (kind.Any? || (kind.DirOnly? == IsDirSlot(s)));
  }

  /**
   * One live slot of the scan: whether it ends it (and where its entry starts), and what it
   * leaves pending.  The three variables of the source's loops are the fields of `p`; the
   * source leaves a stale checksum behind when it clears the buffer, and never reads it.
   */
  method ScanSlot(s: Slot, k: nat, p: Pending, target: seq<byte>, kind: Kind)
    returns (matched: bool, start: nat, q: Pending)
    requires IsText(target)
    requires s[0] != 0 && (!Free(s) && IsLfn(s) ==> FitsBuf(s))
    ensures matched <==> !Free(s) && !IsLfn(s) && Matches(s, p, target, kind)
    ensures matched ==> start == StartOf(Checked(s, p), k)
    ensures !matched ==> q == if !Free(s) && IsLfn(s) then After(s, k, p) else Clean
  {
    start, q := k, Clean;
    if s[0] == DELETED {
      return false, start, q;
    }
    if IsLfn(s) {
      var buf := ExtractLfnChars(s, p.buf);
      return false, start, Pending(buf, s[13], if p.start < 0 then k else p.start);
    }
    var sum := LfnChecksum(s[..11]);
    var c := if p.buf[0] != 0 && p.checksum != sum then Clean else p;
    matched := EntryMatches(s, c.buf, target, kind);
    start := if c.start < 0 then k else c.start;
  }

  /** Slot i of the sector is slot 16 * s + i of the directory. */
  ghost predicate HoldsSlot(sector: Sector, slots: Slots, s: nat, i: nat) {
    i < 16 ==> s * 16 + i < |slots| && slots[s * 16 + i] == SlotAt(sector, i)
  }

  /** Sector s of a directory holds its slots from 16*s on. */
  ghost predicate HoldsSlots(sector: Sector, slots: Slots, s: nat) {
    (s + 1) * 16 <= |slots| && forall i: nat {:trigger HoldsSlot(sector, slots, s, i)} :: HoldsSlot(sector, slots, s, i)
  }

  lemma SectorHolds(sectors: seq<Sector>, s: nat)
    requires s < |sectors|
    ensures HoldsSlots(sectors[s], SlotsOf(sectors), s)
  {
    forall i: nat ensures HoldsSlot(sectors[s], SlotsOf(sectors), s, i) {
      if i < 16 {
        SlotsIndex(sectors, s, i);
      }
    }
  }

  /** A long-name slot does not overrun lfn_buf. */
  predicate FitAt(sector: Sector, i: nat) {
    i < 16 && !Free(SlotAt(sector, i)) && IsLfn(SlotAt(sector, i)) ==> FitsBuf(SlotAt(sector, i))
  }

  /** No long-name slot of the sector does. */
  ghost predicate AllFit(sector: Sector) {
    forall i: nat {:trigger FitAt(sector, i)} :: FitAt(sector, i)
  }

  lemma SectorFits(sectors: seq<Sector>, s: nat)
    requires WellFormed(SlotsOf(sectors)) && s < |sectors|
    ensures AllFit(sectors[s])
  {
    forall i: nat ensures FitAt(sectors[s], i) {
      if i < 16 {
        SlotsIndex(sectors, s, i);
      }
    }
  }

  /** The scan's step at slot k. */
  method ScanAt(sector: Sector, s: nat, i: nat, k: nat, p: Pending, target: seq<byte>, kind: Kind, ghost slots: Slots)
    returns (done: bool, hit: Option<Hit>, q: Pending)
    requires HoldsSlots(sector, slots, s) && AllFit(sector) && i < 16 && k == s * 16 + i < |slots|
    requires IsText(target)
    ensures done ==> hit == Find(slots, k, p, target, kind)
    ensures !done ==> Find(slots, k, p, target, kind) == Find(slots, k + 1, q, target, kind)
  {
    assert HoldsSlot(sector, slots, s, i) && FitAt(sector, i);
    var e := SlotAt(sector, i);
    if e[0] == 0 {
      return true, None, p;
    }
    var start;
    done, start, q := ScanSlot(e, k, p, target, kind);
    hit := if done then Some(Hit(start, k)) else None;
  }

  /** The inner loop of a scan: the 16 slots of one sector. */
  method ScanSector(sector: Sector, s: nat, p0: Pending, target: seq<byte>, kind: Kind, ghost slots: Slots)
    returns (done: bool, hit: Option<Hit>, p: Pending)
    requires HoldsSlots(sector, slots, s) && AllFit(sector)
    requires IsText(target)
    ensures done ==> hit == Find(slots, s * 16, p0, target, kind)
    ensures !done ==> Find(slots, s * 16, p0, target, kind) == Find(slots, (s + 1) * 16, p, target, kind)
  {
    ghost var answer := Find(slots, s * 16, p0, target, kind);
    p := p0;
    var i, k := 0, s * 16;
    while i < 16
      invariant 0 <= i <= 16 && k == s * 16 + i <= |slots|
      invariant answer == Find(slots, k, p, target, kind)
    {
      done, hit, p := ScanAt(sector, s, i, k, p, target, kind, slots);
      if done {
        return;
      }
      i, k := i + 1, k + 1;
    }
    done, hit := false, None;
  }

  /** A directory below the root is one cluster, marked as the end of its chain. */
  predicate OneCluster(v: Vol, dir: nat) {
    dir != 0 ==> dir < |v.fat| && v.fat[dir] >= EOC
  }

  /** Long-name slots fit lfn_buf in every sector. */
  ghost predicate FitsThroughout(sectors: seq<Sector>) {
    forall s: nat {:trigger AllFit(sectors[s])} :: s < |sectors| ==> AllFit(sectors[s])
  }

  lemma WellFormedFits(sectors: seq<Sector>)
    requires WellFormed(SlotsOf(sectors))
    ensures FitsThroughout(sectors)
  {
    forall s: nat | s < |sectors| ensures AllFit(sectors[s]) {
      SectorFits(sectors, s);
    }
  }

  /** The scan of a directory: find_entry_in_current_dir (kind Any), and the search loops of
      fat16_delete_file and fat16_delete_dir.  With one cluster to a directory, following its
      chain ends after that cluster. */
  method ScanDir(vol: Volume, dir: nat, target: seq<byte>, kind: Kind) returns (hit: Option<Hit>)
    requires vol.Valid() && IsDir(vol.g, dir) && OneCluster(vol.V(), dir) && WellFormed(DirSlots(vol.V(), dir))
    requires IsText(target)
    ensures hit == Lookup(DirSlots(vol.V(), dir), target, kind)
  {
    WellFormedFits(DirOf(vol.V(), dir));
    hit := ScanSectors(vol, dir, target, kind);
  }

  /** Its sectors, in order. */
  method ScanSectors(vol: Volume, dir: nat, target: seq<byte>, kind: Kind) returns (hit: Option<Hit>)
    requires vol.Valid() && IsDir(vol.g, dir) && FitsThroughout(DirOf(vol.V(), dir))
    requires IsText(target)
    ensures hit == Lookup(DirSlots(vol.V(), dir), target, kind)
  {
    ghost var sectors: seq<Sector> := DirOf(vol.V(), dir);
    ghost var slots := SlotsOf(sectors);
    ghost var answer := Lookup(slots, target, kind);
    var nsec := SectorCount(vol.g, dir);
    var p := Clean;
    var s := 0;
    while s < nsec
      invariant 0 <= s <= nsec
      invariant answer == Find(slots, s * 16, p, target, kind)
    {
      var sector := ReadDirSector(vol, dir, s);
      SectorHolds(sectors, s);
      assert AllFit(sectors[s]);
      var done;
      done, hit, p := ScanSector(sector, s, p, target, kind, slots);
      if done {
        return;
      }
      s := s + 1;
    }
    hit := None;
  }

  // ---------- add_dir_entry ----------

  /** The inner loop of the search for room. */
  method RoomInSector(sector: Sector, s: nat, n: nat, count0: nat, begin0: nat, ghost slots: Slots)
    returns (found: bool, count: nat, begin: nat)
    requires HoldsSlots(sector, slots, s) && RoomSoFar(slots, s * 16, n, count0, begin0)
    ensures found ==> IsFirstFit(slots, begin, n)
    ensures !found ==> RoomSoFar(slots, (s + 1) * 16, n, count, begin)
  {
    count, begin := count0, begin0;
    var i := 0;
    while i < 16
      invariant 0 <= i <= 16 && RoomSoFar(slots, s * 16 + i, n, count, begin)
    {
      assert HoldsSlot(sector, slots, s, i);
      RoomStep(slots, s * 16 + i, n, count, begin);
      if Free(SlotAt(sector, i)) {
        if count == 0 {
          begin := s * 16 + i;
        }
        count := count + 1;
        if count == n {
          return true, count, begin;
        }
      } else {
        count := 0;
      }
      i := i + 1;
    }
    found := false;
  }

  /** The search for room: the first run of n free slots. */
  method FindRoom(vol: Volume, dir: nat, n: nat) returns (room: Option<nat>)
    requires vol.Valid() && IsDir(vol.g, dir) && n > 0
    ensures room.Some? ==> IsFirstFit(DirSlots(vol.V(), dir), room.value, n)
    ensures room.None? ==> NoRoom(DirSlots(vol.V(), dir), n)
  {
    ghost var sectors: seq<Sector> := DirOf(vol.V(), dir);
    ghost var slots := SlotsOf(sectors);
    var nsec := SectorCount(vol.g, dir);
    var count, begin := 0, 0;
    var s := 0;
    while s < nsec
      invariant 0 <= s <= nsec && RoomSoFar(slots, s * 16, n, count, begin)
    {
      var sector := ReadDirSector(vol, dir, s);
      SectorHolds(sectors, s);
      var found;
      found, count, begin := RoomInSector(sector, s, n, count, begin, slots);
      if found {
        return Some(begin);
      }
      s := s + 1;
    }
    NoRoomLeft(slots, n, count, begin);
    room := None;
  }

  ghost predicate NoRoom(slots: Slots, n: nat) {
    forall q: nat :: !FreeRun(slots, q, n)
  }

  /** How many free slots end at k. */
  function RunLength(slots: Slots, k: nat): (n: nat)
    requires k <= |slots|
    ensures n <= k
  {
    if k == 0 || !Free(slots[k - 1]) then 0 else 1 + RunLength(slots, k - 1)
  }

  /** No run of n free slots ends at or before k. */
  predicate NoRun(slots: Slots, k: nat, n: nat)
    requires k <= |slots|
  {
    RunLength(slots, k) < n && (k > 0 ==> NoRun(slots, k - 1, n))
  }

  /** free_count and the start of the run it counts, after k slots. */
  ghost predicate RoomSoFar(slots: Slots, k: nat, n: nat, count: nat, begin: nat) {
    && k <= |slots| && count == RunLength(slots, k) && NoRun(slots, k, n)
    && (count > 0 ==> begin + count == k)
  }

  lemma {:induction false} RunLengthCounts(slots: Slots, k: nat)
    requires k <= |slots|
    ensures forall i :: k - RunLength(slots, k) <= i < k ==> Free(slots[i])
    ensures RunLength(slots, k) < k ==> !Free(slots[k - RunLength(slots, k) - 1])
  {
    if k > 0 && Free(slots[k - 1]) {
      RunLengthCounts(slots, k - 1);
    }
  }

  lemma {:induction false} NoRunMeans(slots: Slots, k: nat, n: nat, q: nat)
    requires k <= |slots| && NoRun(slots, k, n) && q + n <= k
    ensures !FreeRun(slots, q, n)
  {
    RunLengthCounts(slots, k);
    if q + n < k {
      NoRunMeans(slots, k - 1, n, q);
    } else {
      var w := k - RunLength(slots, k) - 1;
      assert q <= w < q + n && !Free(slots[w]);
    }
  }

  lemma RoomStep(slots: Slots, k: nat, n: nat, count: nat, begin: nat)
    requires RoomSoFar(slots, k, n, count, begin) && k < |slots|
    ensures !Free(slots[k]) ==> RoomSoFar(slots, k + 1, n, 0, begin)
    ensures Free(slots[k]) && count + 1 < n ==> RoomSoFar(slots, k + 1, n, count + 1, if count == 0 then k else begin)
    ensures Free(slots[k]) && count + 1 == n ==> IsFirstFit(slots, if count == 0 then k else begin, n)
    ensures count < n
  {
    if Free(slots[k]) && count + 1 == n {
      RunLengthCounts(slots, k);
      forall q: nat | q < k + 1 - n ensures !FreeRun(slots, q, n) {
        NoRunMeans(slots, k, n, q);
      }
    }
  }

  lemma NoRoomLeft(slots: Slots, n: nat, count: nat, begin: nat)
    requires RoomSoFar(slots, |slots|, n, count, begin)
    ensures NoRoom(slots, n)
  {
    forall q: nat ensures !FreeRun(slots, q, n) {
      if q + n <= |slots| {
        NoRunMeans(slots, |slots|, n, q);
      }
    }
  }
}
