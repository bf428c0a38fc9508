/**
 * Two-level page tables of src/kernel/mem/virtual_memory_manager/vmm.c, against a flat map from
 * pages to frames.
 *
 * Frames and pages go by number.  A frame holds a table of 1024 entries or 4096 bytes.
 */
module Vmm {
  import opened Common
  import opened Bytes
  import Pmm

  /** Pages below this number go through the directory's own tables; entry 1023 maps the
      directory itself. */
  const LIMIT: nat := 1047552

  type Tables = map<nat, seq<nat>>

  // ---------- entries ----------

  function Entry(frame: nat, flags: nat): nat {
    frame * 4096 + (if flags % 2 == 1 then flags else flags + 1)
  }

  predicate Present(e: nat) { e % 2 == 1 }

  function FrameOf(e: nat): nat { e / 4096 }

  lemma EntryReads(frame: nat, flags: nat)
    requires flags < 4096
    ensures Present(Entry(frame, flags)) && FrameOf(Entry(frame, flags)) == frame
  {
  }

  // ---------- what a directory maps ----------

  predicate IsTable(tables: Tables, t: nat) { t in tables && |tables[t]| == 1024 }

  /** The frame behind a page, walking directory and table. */
  function Translate(tables: Tables, dir: nat, page: nat): Option<nat> {
    if !IsTable(tables, dir) || page / 1024 >= 1024 || !Present(tables[dir][page / 1024]) then None
    else ThroughTable(tables, FrameOf(tables[dir][page / 1024]), page % 1024)
  }

  function ThroughTable(tables: Tables, t: nat, i: nat): Option<nat>
    requires i < 1024
  {
    if !IsTable(tables, t) || !Present(tables[t][i]) then None else Some(FrameOf(tables[t][i]))
  }

  /** Entry i of the directory leads to a table of its own. */
  predicate SlotOk(tables: Tables, dir: nat, i: nat)
    requires IsTable(tables, dir) && i < 1023
  {
    Present(tables[dir][i]) ==> IsTable(tables, FrameOf(tables[dir][i])) && FrameOf(tables[dir][i]) != dir && FrameOf(tables[dir][i]) != 0
  }

  predicate SlotsApart(tables: Tables, dir: nat, i: nat, j: nat)
    requires IsTable(tables, dir) && i < 1023 && j < 1023
  {
    i != j && Present(tables[dir][i]) && Present(tables[dir][j]) ==> FrameOf(tables[dir][i]) != FrameOf(tables[dir][j])
  }

  /** A directory whose entries below the last lead to different tables. */
  ghost predicate DirOk(tables: Tables, dir: nat) {
    && IsTable(tables, dir)
    && (forall i: nat {:trigger SlotOk(tables, dir, i)} :: i < 1023 ==> SlotOk(tables, dir, i))
    && (forall i: nat, j: nat {:trigger SlotsApart(tables, dir, i, j)} :: i < 1023 && j < 1023 ==> SlotsApart(tables, dir, i, j))
  }

  // ---------- changing one entry ----------

  function SetEntry(tables: Tables, t: nat, i: nat, e: nat): Tables
    requires IsTable(tables, t) && i < 1024
  {
    var table: seq<nat> := tables[t][i := e];
    tables[t := table]
  }

  /** Writing entry i of the table behind directory entry k changes the translation of one
      page: what the entry says. */
  lemma SetInTable(tables: Tables, dir: nat, k: nat, i: nat, e: nat, page: nat)
    requires DirOk(tables, dir) && k < 1023 && i < 1024 && Present(tables[dir][k]) && page < LIMIT
    ensures IsTable(tables, FrameOf(tables[dir][k]))
    ensures var now := SetEntry(tables, FrameOf(tables[dir][k]), i, e);
            Translate(now, dir, page) == if page == k * 1024 + i then (if Present(e) then Some(FrameOf(e)) else None) else Translate(tables, dir, page)
  {
    assert SlotOk(tables, dir, k);
    var t := FrameOf(tables[dir][k]);
    var now := SetEntry(tables, t, i, e);
    var j := page / 1024;
    assert j < 1023 && now[dir] == tables[dir];
    assert page == j * 1024 + page % 1024;
    if Present(tables[dir][j]) {
      assert SlotsApart(tables, dir, j, k) && SlotOk(tables, dir, j);
    }
  }

  lemma SetKeepsDir(tables: Tables, dir: nat, k: nat, i: nat, e: nat)
    requires DirOk(tables, dir) && k < 1023 && i < 1024 && Present(tables[dir][k])
    ensures IsTable(tables, FrameOf(tables[dir][k])) && DirOk(SetEntry(tables, FrameOf(tables[dir][k]), i, e), dir)
  {
    assert SlotOk(tables, dir, k);
    var now := SetEntry(tables, FrameOf(tables[dir][k]), i, e);
    forall j: nat | j < 1023 ensures SlotOk(now, dir, j) {
      assert SlotOk(tables, dir, j);
    }
    forall a: nat, b: nat | a < 1023 && b < 1023 ensures SlotsApart(now, dir, a, b) {
      assert SlotsApart(tables, dir, a, b);
    }
  }

  function Blank(): (t: seq<nat>)
    ensures |t| == 1024 && forall i :: 0 <= i < 1024 ==> t[i] == 0
  {
    seq(1024, i => 0)
  }

  /** A new, empty table behind entry k of the directory. */
  function WithTable(tables: Tables, dir: nat, k: nat, t: nat, flags: nat): Tables
    requires IsTable(tables, dir) && k < 1024
  {
    SetEntry(tables, dir, k, Entry(t, flags))[t := Blank()]
  }

  lemma NewTableMapsNothing(tables: Tables, dir: nat, k: nat, t: nat, flags: nat, page: nat)
    requires DirOk(tables, dir) && k < 1023 && !Present(tables[dir][k]) && t !in tables && flags < 4096 && page < LIMIT
    ensures Translate(WithTable(tables, dir, k, t, flags), dir, page) == Translate(tables, dir, page)
  {
    EntryReads(t, flags);
    var j := page / 1024;
    if j != k && Present(tables[dir][j]) {
      assert SlotOk(tables, dir, j);
    }
  }

  lemma NewTableKeepsDir(tables: Tables, dir: nat, k: nat, t: nat, flags: nat)
    requires DirOk(tables, dir) && k < 1023 && !Present(tables[dir][k]) && t !in tables && t != 0 && flags < 4096
    ensures DirOk(WithTable(tables, dir, k, t, flags), dir)
    ensures Present(WithTable(tables, dir, k, t, flags)[dir][k]) && FrameOf(WithTable(tables, dir, k, t, flags)[dir][k]) == t
  {
    EntryReads(t, flags);
    var now := WithTable(tables, dir, k, t, flags);
    forall j: nat | j < 1023 ensures SlotOk(now, dir, j) {
      assert SlotOk(tables, dir, j);
    }
    forall a: nat, b: nat | a < 1023 && b < 1023 ensures SlotsApart(now, dir, a, b) {
      assert SlotsApart(tables, dir, a, b) && SlotOk(tables, dir, a) && SlotOk(tables, dir, b);
    }
  }

  // ---------- other directories ----------

  /** Nothing is left among the frames that single allocations come from. */
  ghost predicate Exhausted(free: set<nat>, maxBlocks: nat) {
    forall b :: b in free ==> b >= maxBlocks / 32 * 32
  }

  /** The directory does not go through table t. */
  ghost predicate Avoids(tables: Tables, dir: nat, t: nat) {
    t != dir && IsTable(tables, dir) && forall i: nat {:trigger tables[dir][i]} :: i < 1023 && Present(tables[dir][i]) ==> FrameOf(tables[dir][i]) != t
  }

  // ---------- the manager ----------

  /** What a mapping call leaves: the flat map with one page changed. */
  ghost predicate Remapped(tables: Tables, now: Tables, dir: nat, page: nat, frame: Option<nat>) {
    && DirOk(now, dir)
    && forall p: nat {:trigger Translate(now, dir, p)} :: p < LIMIT ==>
         Translate(now, dir, p) == if p == page then frame else Translate(tables, dir, p)
  }

  lemma EntryFor(tables: Tables, dir: nat, page: nat, e: nat)
    requires DirOk(tables, dir) && page < LIMIT && Present(tables[dir][page / 1024])
    ensures IsTable(tables, FrameOf(tables[dir][page / 1024]))
    ensures Remapped(tables, SetEntry(tables, FrameOf(tables[dir][page / 1024]), page % 1024, e), dir, page, if Present(e) then Some(FrameOf(e)) else None)
  {
    var k, i := page / 1024, page % 1024;
    SetKeepsDir(tables, dir, k, i, e);
    forall p: nat | p < LIMIT
      ensures Translate(SetEntry(tables, FrameOf(tables[dir][k]), i, e), dir, p) ==
              if p == page then (if Present(e) then Some(FrameOf(e)) else None) else Translate(tables, dir, p)
    {
      SetInTable(tables, dir, k, i, e, p);
    }
  }

  lemma TableFor(tables: Tables, dir: nat, page: nat, t: nat, flags: nat)
    requires DirOk(tables, dir) && page < LIMIT && !Present(tables[dir][page / 1024]) && t !in tables && t != 0 && flags < 4096
    ensures var now := WithTable(tables, dir, page / 1024, t, flags);
            DirOk(now, dir) && forall p: nat {:trigger Translate(now, dir, p)} :: p < LIMIT ==> Translate(now, dir, p) == Translate(tables, dir, p)
  {
    NewTableKeepsDir(tables, dir, page / 1024, t, flags);
    forall p: nat | p < LIMIT
      ensures Translate(WithTable(tables, dir, page / 1024, t, flags), dir, p) == Translate(tables, dir, p)
    {
      NewTableMapsNothing(tables, dir, page / 1024, t, flags, p);
    }
  }

  /** Only the table that serves the page has changed or come into being, and the directory
      entry for it. */
  ghost predicate OnlyTableOf(tables: Tables, now: Tables, dir: nat, page: nat) {
    && IsTable(now, dir) && page / 1024 < 1024
    && var t := FrameOf(now[dir][page / 1024]);
       && now.Keys == tables.Keys + {t}
       && (forall f :: f in tables && f != dir && f != t ==> now[f] == tables[f])
       && dir in tables && |tables[dir]| == 1024
       && (forall j :: 0 <= j < 1024 && j != page / 1024 ==> now[dir][j] == tables[dir][j])
       && (Present(tables[dir][page / 1024]) ==> now[dir] == tables[dir] && t in tables)
       && (!Present(tables[dir][page / 1024]) ==> t !in tables)
  }

  // ---------- what a page may be used for ----------

  /** The bits of an entry that let a program write, and let it in at all. */
  predicate Writable(e: nat) { (e / 2) % 2 == 1 }
  predicate ForUser(e: nat) { (e / 4) % 2 == 1 }

  /** The processor lets a program write to a page only if both entries on the way do. */
  predicate UserMayWrite(tables: Tables, dir: nat, page: nat) {
    && Translate(tables, dir, page).Some?
    && var d := tables[dir][page / 1024];
       var e := tables[FrameOf(d)][page % 1024];
       Writable(d) && ForUser(d) && Writable(e) && ForUser(e)
  }

  /** The call has written the entry of the page, and that of a table it had to make, with these flags. */
  ghost predicate Written(tables: Tables, now: Tables, dir: nat, page: nat, frame: nat, flags: nat) {
    && IsTable(tables, dir) && IsTable(now, dir) && page / 1024 < 1023
    && var k := page / 1024;
       var t := FrameOf(now[dir][k]);
       && t != dir && IsTable(now, t)
       && (Present(tables[dir][k]) ==> IsTable(tables, t) && now[dir] == tables[dir] && now[t] == tables[t][page % 1024 := Entry(frame, flags)])
       && (!Present(tables[dir][k]) ==> now[dir] == tables[dir][k := Entry(t, flags)] && now[t] == Blank()[page % 1024 := Entry(frame, flags)])
  }

  lemma EntryRights(frame: nat, flags: nat)
    requires flags < 4096
    ensures Writable(Entry(frame, flags)) == Writable(flags) && ForUser(Entry(frame, flags)) == ForUser(flags)
  {
    var low := if flags % 2 == 1 then flags else flags + 1;
    HalfOf(frame, low);
    QuarterOf(frame, low);
    assert low / 2 == flags / 2 && low / 4 == flags / 4;
  }

  lemma HalfOf(frame: nat, low: nat)
    ensures (frame * 4096 + low) / 2 % 2 == low / 2 % 2
  {
    var half, rest := low / 2, low % 2;
    assert frame * 4096 + low == 2 * (frame * 2048 + half) + rest;
    Quotient(2, frame * 2048 + half, rest);
    SameParity(frame * 1024, half);
  }

  lemma QuarterOf(frame: nat, low: nat)
    ensures (frame * 4096 + low) / 4 % 2 == low / 4 % 2
  {
    var quarter, rest := low / 4, low % 4;
    assert frame * 4096 + low == 4 * (frame * 1024 + quarter) + rest;
    Quotient(4, frame * 1024 + quarter, rest);
    SameParity(frame * 512, quarter);
  }

  lemma Quotient(d: nat, q: nat, rest: nat)
    requires rest < d && (d == 2 || d == 4)
    ensures (d * q + rest) / d == q
  {
  }

  lemma SameParity(a: nat, b: nat)
    ensures (2 * a + b) % 2 == b % 2
  {
  }

  /** A program may write to a mapped page if and only if the flags say so, and, where a table was there
      already, those of its entry. */
  lemma MappedRights(tables: Tables, now: Tables, dir: nat, page: nat, frame: nat, flags: nat)
    requires Written(tables, now, dir, page, frame, flags) && flags < 4096
    ensures UserMayWrite(now, dir, page) <==>
              && Writable(flags) && ForUser(flags)
              && var d := tables[dir][page / 1024]; Present(d) ==> Writable(d) && ForUser(d)
  {
    EntryReads(frame, flags);
    EntryRights(frame, flags);
    EntryReads(FrameOf(now[dir][page / 1024]), flags);
    EntryRights(FrameOf(now[dir][page / 1024]), flags);
  }

  // ---------- the kernel's view ----------

  /** A new directory's entries: the kernel's, and itself behind the last. */
  function Copied(kernel: seq<nat>, dir: nat): (t: seq<nat>)
    requires |kernel| == 1024
  {
    kernel[1023 := Entry(dir, 3)]
  }

  /** The directory shares the kernel's entries, and its others lead to no table that the kernel
      goes through. */
  predicate PrivateEntry(tables: Tables, dir: nat, kernel: nat, k: nat)
    requires IsTable(tables, dir) && IsTable(tables, kernel) && k < 1023
  {
    && (Present(tables[kernel][k]) ==> tables[dir][k] == tables[kernel][k] && FrameOf(tables[kernel][k]) != dir)
    && (!Present(tables[kernel][k]) && Present(tables[dir][k]) ==> FrameOf(tables[dir][k]) != kernel)
  }

  ghost predicate Private(tables: Tables, dir: nat, kernel: nat) {
    && IsTable(tables, dir) && IsTable(tables, kernel) && dir != kernel
    && forall k: nat {:trigger PrivateEntry(tables, dir, kernel, k)} :: k < 1023 ==> PrivateEntry(tables, dir, kernel, k)
  }

  ghost predicate SameView(was: Tables, now: Tables, dir: nat) {
    forall p: nat {:trigger Translate(now, dir, p)} :: p < LIMIT ==> Translate(now, dir, p) == Translate(was, dir, p)
  }

  /** The kernel sees what it saw, and goes on being shielded from the directory. */
  ghost predicate KernelSafe(was: Tables, now: Tables, dir: nat, kernel: nat) {
    && DirOk(now, dir) && DirOk(now, kernel) && Private(now, dir, kernel)
    && IsTable(was, kernel) && now[kernel] == was[kernel] && SameView(was, now, kernel)
  }

  lemma NewDirectory(tables: Tables, kernel: nat, dir: nat)
    requires DirOk(tables, kernel) && dir !in tables && dir != 0
    ensures var now := tables[dir := Copied(tables[kernel], dir)];
            && KernelSafe(tables, now, dir, kernel)
            && forall p: nat {:trigger Translate(now, dir, p)} :: p < LIMIT ==> Translate(now, dir, p) == Translate(tables, kernel, p)
  {
    var now := tables[dir := Copied(tables[kernel], dir)];
    forall i: nat | i < 1023 ensures SlotOk(now, dir, i) && SlotOk(now, kernel, i) && PrivateEntry(now, dir, kernel, i) {
      assert SlotOk(tables, kernel, i);
    }
    forall a: nat, b: nat | a < 1023 && b < 1023 ensures SlotsApart(now, dir, a, b) && SlotsApart(now, kernel, a, b) {
      assert SlotsApart(tables, kernel, a, b);
    }
    forall p: nat | p < LIMIT
      ensures Translate(now, dir, p) == Translate(tables, kernel, p) && Translate(now, kernel, p) == Translate(tables, kernel, p)
    {
      assert SlotOk(tables, kernel, p / 1024);
    }
  }

  /** The table that serves the page, when the kernel has none there. */
  lemma OwnTable(tables: Tables, now: Tables, dir: nat, kernel: nat, page: nat)
    requires Private(tables, dir, kernel) && DirOk(tables, dir) && DirOk(tables, kernel) && OnlyTableOf(tables, now, dir, page) && page < LIMIT
    requires DirOk(now, dir) && Present(now[dir][page / 1024]) && !Present(tables[kernel][page / 1024])
    ensures Avoids(tables, kernel, FrameOf(now[dir][page / 1024]))
  {
    var k := page / 1024;
    var t := FrameOf(now[dir][k]);
    assert PrivateEntry(tables, dir, kernel, k);
    forall i: nat | i < 1023 && Present(tables[kernel][i]) ensures FrameOf(tables[kernel][i]) != t {
      assert SlotOk(tables, kernel, i) && PrivateEntry(tables, dir, kernel, i);
      if Present(tables[dir][k]) {
        assert SlotsApart(tables, dir, i, k);
      }
    }
  }

  /** Mapping a page where the kernel has no table leaves everything the kernel sees alone. */
  lemma KernelUntouched(was: Tables, tables: Tables, now: Tables, dir: nat, kernel: nat, page: nat)
    requires KernelSafe(was, tables, dir, kernel) && OnlyTableOf(tables, now, dir, page) && page < LIMIT
    requires DirOk(now, dir) && Present(now[dir][page / 1024]) && !Present(was[kernel][page / 1024])
    ensures KernelSafe(was, now, dir, kernel)
  {
    OwnTable(tables, now, dir, kernel, page);
    var t := FrameOf(now[dir][page / 1024]);
    assert SlotOk(now, dir, page / 1024) && now[kernel] == tables[kernel];
    forall i: nat | i < 1023 ensures SlotOk(now, kernel, i) && PrivateEntry(now, dir, kernel, i) {
      assert SlotOk(tables, kernel, i) && PrivateEntry(tables, dir, kernel, i);
    }
    forall a: nat, b: nat | a < 1023 && b < 1023 ensures SlotsApart(now, kernel, a, b) {
      assert SlotsApart(tables, kernel, a, b);
    }
    forall p: nat | p < LIMIT ensures Translate(now, kernel, p) == Translate(was, kernel, p) {
      assert Translate(tables, kernel, p) == Translate(was, kernel, p);
      assert SlotOk(tables, kernel, p / 1024) && PrivateEntry(tables, dir, kernel, p / 1024);
    }
  }

  /** The kernel's view survives the mapping of a page if and only if the kernel has no table
      there, or already had that frame behind the page. */
  lemma KernelSees(tables: Tables, now: Tables, dir: nat, kernel: nat, page: nat, frame: nat)
    requires KernelSafe(tables, tables, dir, kernel) && OnlyTableOf(tables, now, dir, page) && page < LIMIT
    requires Remapped(tables, now, dir, page, Some(frame))
    ensures SameView(tables, now, kernel) <==> !Present(tables[kernel][page / 1024]) || Translate(tables, kernel, page) == Some(frame)
  {
    var k := page / 1024;
    assert Translate(now, dir, page) == Some(frame);
    if !Present(tables[kernel][k]) {
      KernelUntouched(tables, tables, now, dir, kernel, page);
    } else {
      assert PrivateEntry(tables, dir, kernel, k) && SlotOk(tables, dir, k);
      forall p: nat | p < LIMIT ensures Translate(now, kernel, p) == if p == page then Some(frame) else Translate(tables, kernel, p) {
        SharedTable(tables, now, dir, kernel, page, p, frame);
      }
    }
  }

  lemma SharedTable(tables: Tables, now: Tables, dir: nat, kernel: nat, page: nat, p: nat, frame: nat)
    requires Private(tables, dir, kernel) && DirOk(tables, dir) && DirOk(tables, kernel) && OnlyTableOf(tables, now, dir, page) && page < LIMIT && p < LIMIT
    requires Remapped(tables, now, dir, page, Some(frame)) && Present(tables[kernel][page / 1024])
    ensures Translate(now, kernel, p) == if p == page then Some(frame) else Translate(tables, kernel, p)
  {
    var k, j := page / 1024, p / 1024;
    assert PrivateEntry(tables, dir, kernel, k) && SlotOk(tables, kernel, k) && PrivateEntry(tables, dir, kernel, j) && SlotOk(tables, kernel, j);
    assert now[kernel] == tables[kernel] && now[dir] == tables[dir];
    assert Translate(now, dir, p) == if p == page then Some(frame) else Translate(tables, dir, p);
  }

  class Memory {
    const bitmap: Pmm.Bitmap
    var tables: Tables
    var pages: map<nat, seq<byte>>

    /** Frames with contents are in use, and are tables or pages but not both. */
    ghost predicate Valid()
      reads this, bitmap, bitmap.bits
    {
      && bitmap.Valid()
      && (forall f :: f in tables ==> f !in bitmap.Free() && f !in pages && f != 0)
      && (forall f :: f in pages ==> f !in bitmap.Free() && f != 0 && |pages[f]| == 4096)
    }

    constructor (bitmap: Pmm.Bitmap)
      requires bitmap.Valid()
      ensures Valid() && this.bitmap == bitmap && tables == map[] && pages == map[]
    {
      this.bitmap := bitmap;
      tables, pages := map[], map[];
    }

    /** A frame from the bitmap, or 0. */
    method NewFrame() returns (f: nat)
      requires Valid()
      modifies bitmap.bits
      ensures Valid() && f !in tables && f !in pages
      ensures f == 0 ==> bitmap.Free() == old(bitmap.Free())
      ensures f != 0 ==> f in old(bitmap.Free()) && bitmap.Free() == old(bitmap.Free()) - {f}
      ensures f == 0 <==> Exhausted(old(bitmap.Free()), bitmap.maxBlocks)
    {
      var addr := bitmap.AllocBlock();
      f := addr / 4096;
    }

    /** vmm_create_directory: it maps what the kernel's does. */
    method CreateDirectory(kernel: nat) returns (dir: nat)
      requires Valid() && DirOk(tables, kernel)
      modifies this`tables, bitmap.bits
      ensures Valid() && DirOk(tables, kernel) && bitmap.Free() <= old(bitmap.Free())
      ensures dir == 0 <==> Exhausted(old(bitmap.Free()), bitmap.maxBlocks)
      ensures dir == 0 ==> tables == old(tables) && bitmap.Free() == old(bitmap.Free())
      ensures dir != 0 ==> dir in old(bitmap.Free()) && KernelSafe(old(tables), tables, dir, kernel) && tables[dir][1023] == Entry(dir, 3)
      ensures dir != 0 ==> forall p: nat {:trigger Translate(tables, dir, p)} :: p < LIMIT ==>
                Translate(tables, dir, p) == Translate(old(tables), kernel, p)
      ensures dir != 0 ==> forall k :: 0 <= k < 1023 ==> tables[dir][k] == tables[kernel][k]
    {
      dir := NewFrame();
      if dir == 0 {
        return;
      }
      var table: seq<nat> := Blank();
      var i := 0;
      while i < 1023
        invariant 0 <= i <= 1023 && |table| == 1024
        invariant forall j :: 0 <= j < i ==> table[j] == tables[kernel][j]
      {
        table := table[i := tables[kernel][i]];
        i := i + 1;
      }
      table := table[1023 := Entry(dir, 3)];
      assert table == Copied(tables[kernel], dir);
      NewDirectory(tables, kernel, dir);
      tables := tables[dir := table];
    }

    /**
     * vmm_map_page_in_directory: the page maps to the frame and every other page to what it
     * did, unless a table was needed and no frame was left for it.  Page 0 is refused.
     */
    method MapPage(dir: nat, frame: nat, page: nat, flags: nat) returns (ghost ok: bool)
      requires Valid() && DirOk(tables, dir) && page < LIMIT && flags < 4096
      modifies this`tables, bitmap.bits
      ensures Valid() && DirOk(tables, dir)
      ensures bitmap.Free() <= old(bitmap.Free())
      ensures !ok ==> tables == old(tables) && bitmap.Free() == old(bitmap.Free())
      ensures ok ==> Remapped(old(tables), tables, dir, page, Some(frame))
      ensures ok <==> dir != 0 && frame != 0 && page != 0 && (Present(old(tables)[dir][page / 1024]) || !Exhausted(old(bitmap.Free()), bitmap.maxBlocks))
      ensures ok ==> OnlyTableOf(old(tables), tables, dir, page) && Written(old(tables), tables, dir, page, frame, flags)
    {
      ok := false;
      if dir == 0 || frame == 0 || page == 0 {
        return;
      }
      var k, i := page / 1024, page % 1024;
      if !Present(tables[dir][k]) {
        ghost var was := tables;
        var t := NewFrame();
        if t == 0 {
          return;
        }
        TableFor(tables, dir, page, t, flags);
        NewTableKeepsDir(tables, dir, k, t, flags);
        tables := WithTable(tables, dir, k, t, flags);
        EntryReads(frame, flags);
        EntryFor(tables, dir, page, Entry(frame, flags));
      } else {
        EntryReads(frame, flags);
        EntryFor(tables, dir, page, Entry(frame, flags));
      }
      assert SlotOk(tables, dir, k);
      tables := SetEntry(tables, FrameOf(tables[dir][k]), i, Entry(frame, flags));
      ok := true;
    }

    /** vmm_unmap_page_in_directory: the page maps nowhere any more, and its frame, if the bitmap has
        it, is free. */
    method UnmapPage(dir: nat, page: nat)
      requires Valid() && DirOk(tables, dir) && page < LIMIT
      requires Translate(tables, dir, page).Some? ==> Translate(tables, dir, page).value !in tables
      modifies this`tables, this`pages, bitmap.bits
      ensures Valid() && DirOk(tables, dir)
      ensures page == 0 || dir == 0 || Translate(old(tables), dir, page).None? ==> tables == old(tables) && bitmap.Free() == old(bitmap.Free())
      ensures page != 0 && dir != 0 && Translate(old(tables), dir, page).Some? ==>
                && Remapped(old(tables), tables, dir, page, None)
                && var f := Translate(old(tables), dir, page).value;
                   && pages == old(pages) - {f}
                   && bitmap.Free() == old(bitmap.Free()) + if 0 < f < bitmap.maxBlocks then {f} else {}
    {
      if dir == 0 || page == 0 {
        return;
      }
      var k, i := page / 1024, page % 1024;
      if !Present(tables[dir][k]) {
        return;
      }
      assert SlotOk(tables, dir, k);
      var t := FrameOf(tables[dir][k]);
      var pte := tables[t][i];
      if !Present(pte) {
        return;
      }
      EntryFor(tables, dir, page, 0);
      tables := SetEntry(tables, t, i, 0);
      pages := pages - {FrameOf(pte)};
      bitmap.FreeBlock(FrameOf(pte) * 4096);
    }
  }
}
