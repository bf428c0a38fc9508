/**
 * The two loops that rewrite directory sectors: add_dir_entry's, which spills a run of
 * slots across sector boundaries, and mark_entries_deleted's.
 */
module FatDirWrite {
  import opened Bytes
  import opened FatNames
  import opened FatDir
  import opened FatDirUpdate
  import opened FatDirTheorems
  import opened FatDisk
  import opened FatDirIo

  lemma InsertStep(slots: Slots, p: nat, run: Slots, j: nat)
    requires j < |run| && p + |run| <= |slots|
    ensures Insert(slots, p, run[..j + 1]) == Insert(slots, p, run[..j])[p + j := run[j]]
  {
  }

  lemma InsertNone(slots: Slots, p: nat, run: Slots)
    requires p <= |slots|
    ensures Insert(slots, p, run[..0]) == slots
  {
  }

  /** The state of the writing loop: j slots of the run are in the directory or in the
      sector buffer `buf` of sector s. */
  ghost predicate Writing(before: seq<Sector>, now: seq<Sector>, p: nat, run: Slots, j: nat, s: nat, i: nat, buf: Sector) {
    && |now| == |before| && j < |run| && p + |run| <= 16 * |before|
    && s < |now| && i < 16 && s * 16 + i == p + j
    && SlotsOf(SetSector(now, s, buf)) == Insert(SlotsOf(before), p, run[..j])
  }

  lemma BeginWriting(before: seq<Sector>, p: nat, run: Slots)
    requires 0 < |run| && p + |run| <= 16 * |before|
    ensures p / 16 < |before|
    ensures Writing(before, before, p, run, 0, p / 16, p % 16, before[p / 16])
  {
    var s := p / 16;
    InsertNone(SlotsOf(before), p, run);
    assert SetSector(before, s, before[s]) == before;
  }

  /** One slot goes into the buffer. */
  lemma PutOne(before: seq<Sector>, now: seq<Sector>, p: nat, run: Slots, j: nat, s: nat, i: nat, buf: Sector)
    requires Writing(before, now, p, run, j, s, i, buf)
    ensures SlotsOf(SetSector(now, s, PutSlot(buf, i, run[j]))) == Insert(SlotsOf(before), p, run[..j + 1])
  {
    var held := SetSector(now, s, buf);
    SlotsUpdate(held, s, i, run[j]);
    assert SetSector(held, s, PutSlot(held[s], i, run[j])) == SetSector(now, s, PutSlot(buf, i, run[j]));
    InsertStep(SlotsOf(before), p, run, j);
  }

  lemma NextSlot(before: seq<Sector>, now: seq<Sector>, p: nat, run: Slots, j: nat, s: nat, i: nat, buf: Sector)
    requires Writing(before, now, p, run, j, s, i, buf) && j + 1 < |run|
    ensures var b := PutSlot(buf, i, run[j]);
            if i + 1 < 16 then Writing(before, now, p, run, j + 1, s, i + 1, b)
            else s + 1 < |now| && Writing(before, SetSector(now, s, b), p, run, j + 1, s + 1, 0, SetSector(now, s, b)[s + 1])
  {
    PutOne(before, now, p, run, j, s, i, buf);
    if i + 1 == 16 {
      assert s + 1 < |now|;
      var next := SetSector(now, s, PutSlot(buf, i, run[j]));
      assert SetSector(next, s + 1, next[s + 1]) == next;
    }
  }

  lemma LastSlot(before: seq<Sector>, now: seq<Sector>, p: nat, run: Slots, s: nat, i: nat, buf: Sector)
    requires 0 < |run| && Writing(before, now, p, run, |run| - 1, s, i, buf)
    ensures SlotsOf(SetSector(now, s, PutSlot(buf, i, run[|run| - 1]))) == Insert(SlotsOf(before), p, run)
  {
    PutOne(before, now, p, run, |run| - 1, s, i, buf);
    assert run[..|run|] == run;
  }

  lemma WithDirTwice(v: Vol, dir: nat, a: seq<Sector>, b: seq<Sector>)
    requires dir < |v.clusters|
    ensures WithDir(WithDir(v, dir, a), dir, b) == WithDir(v, dir, b)
    ensures DirOf(WithDir(v, dir, a), dir) == a
    ensures WithDir(v, dir, DirOf(v, dir)) == v
  {
  }

  /** Directory dir of a volume that was v0 is being rewritten sector by sector; it now
      holds `now`. */
  ghost predicate Editing(vol: Volume, v0: Vol, dir: nat, now: seq<Sector>)
    reads vol
  {
    && vol.Valid() && IsDir(vol.g, dir) && Shaped(vol.g, v0)
    && |now| == |DirOf(v0, dir)| && vol.V() == WithDir(v0, dir, now)
  }

  method Load(vol: Volume, ghost v0: Vol, dir: nat, ghost now: seq<Sector>, s: nat) returns (buf: Sector)
    requires Editing(vol, v0, dir, now) && s < |now|
    ensures buf == now[s]
  {
    WithDirTwice(v0, dir, now, now);
    buf := ReadDirSector(vol, dir, s);
  }

  method Store(vol: Volume, ghost v0: Vol, dir: nat, ghost now: seq<Sector>, s: nat, buf: Sector)
    requires Editing(vol, v0, dir, now) && s < |now|
    modifies vol`disk
    ensures Editing(vol, v0, dir, SetSector(now, s, buf))
  {
    WithDirTwice(v0, dir, now, SetSector(now, s, buf));
    WriteDirSector(vol, dir, s, buf);
  }

  lemma BeginEditing(vol: Volume, dir: nat)
    requires vol.Valid() && IsDir(vol.g, dir)
    ensures Editing(vol, vol.V(), dir, DirOf(vol.V(), dir))
  {
    WithDirTwice(vol.V(), dir, [], []);
  }

  lemma PrefixGrows(s: Slots, x: Slot, t: Slots)
    requires s <= t && |s| < |t| && t[|s|] == x
    ensures s + [x] <= t
    ensures |s| + 1 == |t| ==> s + [x] == t
  {
  }

  /** The slots of a new entry: the loop from the last long-name block down to the first,
      and the short entry after it. */
  method BuildRun(name: seq<byte>, attributes: nat, cluster: nat, size: nat) returns (run: Slots)
    requires IsName(name) && IsEntry(attributes, cluster, size)
    ensures run == NewRun(name, attributes, cluster, size)
  {
    ghost var target := NewRun(name, attributes, cluster, size);
    LfnCountBound(name);
    var count := LfnCount(name);
    var short: Short;
    if NeedLfn(name) {
      short := GenerateShortName(name);
    } else {
      short := FormatFilename(name);
    }
    var checksum := LfnChecksum(short);
    run := [];
    var l := count;
    while l >= 1
      invariant 0 <= l <= count && |run| == count - l < |target| && run <= target
    {
      var slot := PopulateLfnEntry(name, l, checksum, l == count);
      PrefixGrows(run, slot, target);
      run := run + [slot];
      l := l - 1;
    }
    PrefixGrows(run, EntrySlot(short, attributes, cluster, size), target);
    run := run + [EntrySlot(short, attributes, cluster, size)];
  }

  /** One slot into the sector buffer, which is written out and replaced when it is full. */
  method WriteSlot(vol: Volume, ghost v0: Vol, dir: nat, ghost p: nat, ghost run: Slots, ghost j: nat,
                   s0: nat, i0: nat, buf0: Sector, slot: Slot, ghost now0: seq<Sector>)
    returns (s: nat, i: nat, buf: Sector, ghost now: seq<Sector>)
    requires dir < |v0.clusters| && Editing(vol, v0, dir, now0)
    requires Writing(DirOf(v0, dir), now0, p, run, j, s0, i0, buf0) && j + 1 < |run| && slot == run[j]
    modifies vol`disk
    ensures Editing(vol, v0, dir, now) && Writing(DirOf(v0, dir), now, p, run, j + 1, s, i, buf)
  {
    NextSlot(DirOf(v0, dir), now0, p, run, j, s0, i0, buf0);
    now := now0;
    buf := PutSlot(buf0, i0, slot);
    s, i := s0, i0 + 1;
    if i == 16 {
      Store(vol, v0, dir, now, s, buf);
      now := SetSector(now, s, buf);
      s, i := s + 1, 0;
      buf := Load(vol, v0, dir, now, s);
    }
  }

  /** Writes all slots of a run but the last, leaving the buffer ready for that. */
  method WriteSlots(vol: Volume, ghost v0: Vol, dir: nat, p: nat, run: Slots)
    returns (s: nat, i: nat, buf: Sector, ghost now: seq<Sector>)
    requires dir < |v0.clusters| && Editing(vol, v0, dir, DirOf(v0, dir))
    requires 0 < |run| && p + |run| <= 16 * |DirOf(v0, dir)|
    modifies vol`disk
    ensures Editing(vol, v0, dir, now) && Writing(DirOf(v0, dir), now, p, run, |run| - 1, s, i, buf)
  {
    now := DirOf(v0, dir);
    s, i := p / 16, p % 16;
    BeginWriting(now, p, run);
    buf := Load(vol, v0, dir, now, s);
    var j := 0;
    while j < |run| - 1
      invariant 0 <= j <= |run| - 1
      invariant Editing(vol, v0, dir, now)
      invariant Writing(DirOf(v0, dir), now, p, run, j, s, i, buf)
    {
      s, i, buf, now := WriteSlot(vol, v0, dir, p, run, j, s, i, buf, run[j], now);
      j := j + 1;
    }
  }

  /** The writing half of add_dir_entry. */
  method WriteEntry(vol: Volume, dir: nat, p: nat, name: seq<byte>, attributes: nat, cluster: nat, size: nat)
    requires vol.Valid() && IsDir(vol.g, dir)
    requires IsName(name) && IsEntry(attributes, cluster, size)
    requires p + LfnCount(name) + 1 <= |DirSlots(vol.V(), dir)|
    modifies vol`disk
    ensures vol.Valid()
    ensures OnlyDirChanged(old(vol.V()), vol.V(), dir,
                           Added(DirSlots(old(vol.V()), dir), p, name, attributes, cluster, size))
  {
    ghost var v0 := vol.V();
    LfnCountBound(name);
    BeginEditing(vol, dir);
    var run := BuildRun(name, attributes, cluster, size);
    var s, i, buf;
    ghost var now;
    s, i, buf, now := WriteSlots(vol, v0, dir, p, run);
    LastSlot(DirOf(v0, dir), now, p, run, s, i, buf);
    buf := PutSlot(buf, i, run[|run| - 1]);
    Store(vol, v0, dir, now, s, buf);
  }

  /** The directory part of the view after a change of that directory only. */
  ghost predicate OnlyDirChanged(v: Vol, v': Vol, dir: nat, slots: Slots)
    requires dir < |v.clusters|
  {
    exists sectors :: v' == WithDir(v, dir, sectors) && |sectors| == |DirOf(v, dir)| && SlotsOf(sectors) == slots
  }

  /**
   * add_dir_entry: the entry goes into the first run of free slots that holds it, or, when
   * there is none, nothing changes and the call fails.
   */
  method AddDirEntry(vol: Volume, dir: nat, name: seq<byte>, attributes: nat, cluster: nat, size: nat)
    returns (ok: bool, ghost p: nat)
    requires vol.Valid() && IsDir(vol.g, dir)
    requires IsName(name) && IsEntry(attributes, cluster, size)
    modifies vol`disk
    ensures vol.Valid()
    ensures ok ==> IsFirstFit(DirSlots(old(vol.V()), dir), p, LfnCount(name) + 1)
                   && OnlyDirChanged(old(vol.V()), vol.V(), dir,
                                     Added(DirSlots(old(vol.V()), dir), p, name, attributes, cluster, size))
    ensures !ok ==> vol.V() == old(vol.V()) && NoRoom(DirSlots(vol.V(), dir), LfnCount(name) + 1)
  {
    var room := FindRoom(vol, dir, LfnCount(name) + 1);
    if room.None? {
      return false, 0;
    }
    p := room.value;
    WriteEntry(vol, dir, room.value, name, attributes, cluster, size);
    ok := true;
  }

  // ---------- mark_entries_deleted ----------

  /** Slots from start up to k (exclusive) erased. */
  function MarkedTo(slots: Slots, start: nat, k: nat): Slots
  {
    seq(|slots|, i requires 0 <= i < |slots| => if start <= i < k then Erase(slots[i]) else slots[i])
  }

  lemma MarkStep(slots: Slots, start: nat, k: nat)
    requires start <= k < |slots|
    ensures MarkedTo(slots, start, k + 1) == MarkedTo(slots, start, k)[k := Erase(slots[k])]
    ensures MarkedTo(slots, start, k)[k] == slots[k]
  {
  }

  /** The slots of the directory with `buf` in place of sector s are marked up to k. */
  ghost predicate Marking(before: seq<Sector>, now: seq<Sector>, start: nat, k: nat, s: nat, buf: Sector) {
    && |now| == |before| && s < |now|
    && SlotsOf(SetSector(now, s, buf)) == MarkedTo(SlotsOf(before), start, k)
  }

  lemma MarkOne(before: seq<Sector>, now: seq<Sector>, start: nat, s: nat, i: nat, buf: Sector)
    requires i < 16 && start <= s * 16 + i
    requires Marking(before, now, start, s * 16 + i, s, buf)
    ensures Marking(before, now, start, s * 16 + i + 1, s, PutSlot(buf, i, Erase(SlotAt(buf, i))))
  {
    var held := SetSector(now, s, buf);
    var k := s * 16 + i;
    SlotsIndex(held, s, i);
    SlotsUpdate(held, s, i, Erase(SlotAt(buf, i)));
    assert SetSector(held, s, PutSlot(held[s], i, Erase(SlotAt(buf, i)))) == SetSector(now, s, PutSlot(buf, i, Erase(SlotAt(buf, i))));
    MarkStep(SlotsOf(before), start, k);
  }

  /** The inner loop: the slots of sector s from i0 on, stopping after slot `last`. */
  method MarkSector(buf0: Sector, s: nat, i0: nat, start: nat, last: nat, ghost before: seq<Sector>, ghost now: seq<Sector>)
    returns (buf: Sector)
    requires i0 < 16 && start <= s * 16 + i0 <= last
    requires Marking(before, now, start, s * 16 + i0, s, buf0)
    ensures Marking(before, now, start,
                    if last < (s + 1) * 16 then last + 1 else (s + 1) * 16, s, buf)
  {
    buf := buf0;
    var i := i0;
    while i < 16
      invariant i0 <= i <= 16 && s * 16 + i <= last + 1
      invariant i == 16 || s * 16 + i <= last
      invariant Marking(before, now, start, s * 16 + i, s, buf)
    {
      MarkOne(before, now, start, s, i, buf);
      buf := PutSlot(buf, i, Erase(SlotAt(buf, i)));
      if s * 16 + i == last {
        return;
      }
      i := i + 1;
    }
  }

  lemma BeginMarking(before: seq<Sector>, start: nat)
    requires start < 16 * |before|
    ensures MarkedTo(SlotsOf(before), start, start) == SlotsOf(before)
  {
  }

  method MarkEntriesDeleted(vol: Volume, dir: nat, start: nat, end: nat)
    requires vol.Valid() && IsDir(vol.g, dir) && start <= end < |DirSlots(vol.V(), dir)|
    modifies vol`disk
    ensures vol.Valid()
    ensures OnlyDirChanged(old(vol.V()), vol.V(), dir, Marked(DirSlots(old(vol.V()), dir), start, end))
  {
    ghost var v0 := vol.V();
    ghost var before: seq<Sector> := DirOf(v0, dir);
    ghost var now: seq<Sector> := before;
    BeginEditing(vol, dir);
    BeginMarking(before, start);
    var s, i := start / 16, start % 16;
    while s <= end / 16
      invariant start / 16 <= s <= end / 16 + 1
      invariant 0 <= i < 16 && start <= s * 16 + i && |now| == |before|
      invariant s <= end / 16 ==> s * 16 + i <= end
      invariant Editing(vol, v0, dir, now)
      invariant SlotsOf(now) == MarkedTo(SlotsOf(before), start, UpTo(s * 16 + i, end))
    {
      var buf := Load(vol, v0, dir, now, s);
      assert SetSector(now, s, buf) == now;
      buf := MarkSector(buf, s, i, start, end, before, now);
      Store(vol, v0, dir, now, s, buf);
      now := SetSector(now, s, buf);
      s, i := s + 1, 0;
    }
    AllMarked(SlotsOf(before), start, end);
  }

  function UpTo(k: nat, end: nat): nat { if k <= end then k else end + 1 }

  lemma AllMarked(slots: Slots, start: nat, end: nat)
    requires end < |slots|
    ensures MarkedTo(slots, start, end + 1) == Marked(slots, start, end)
  {
  }
}
