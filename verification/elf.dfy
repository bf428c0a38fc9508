/**
 * Loading a program: vmm_create_directory and the page loops of src/kernel/progs/elf/elf.c, up to
 * the point where the user's stack is filled in.
 */
module Elf {
  import opened Common
  import opened Bytes
  import opened Vmm

  /** What a program header of type PT_LOAD asks for. */
  datatype Segment = Segment(vaddr: nat, memsz: nat, filesz: nat, offset: nat) {
    function First(): nat { vaddr / 4096 }
    function End(): nat { (vaddr + memsz + 4095) / 4096 }
    predicate Covers(page: nat) { First() <= page < End() }
  }

  /** PAGE_PRESENT | PAGE_WRITE | PAGE_USER. */
  const USER_PAGE := 7

  /** The page below the top of the user's stack and the one for thread-local storage. */
  const STACK := Segment(0xBFFFF000, 4096, 0, 0)
  const TLS := Segment(0xBFFFE000, 4096, 0, 0)

  // ---------- what a loaded program looks like ----------

  /** The byte the segment has at an address: the file's, and zero where the file has none. */
  function SegmentByte(file: seq<byte>, s: Segment, a: nat): byte {
    if s.vaddr <= a < s.vaddr + s.filesz && s.offset + (a - s.vaddr) < |file| then file[s.offset + (a - s.vaddr)] else 0
  }

  function PageContent(file: seq<byte>, s: Segment, page: nat): (r: seq<byte>)
    ensures |r| == 4096
  {
    seq<byte>(4096, j requires 0 <= j => SegmentByte(file, s, page * 4096 + j))
  }

  /** The byte at a virtual address, seen through the directory. */
  function ByteAt(tables: Tables, pages: map<nat, seq<byte>>, dir: nat, a: nat): Option<byte> {
    var f := Translate(tables, dir, a / 4096);
    if f.None? || f.value !in pages || |pages[f.value]| != 4096 then None else Some(pages[f.value][a % 4096])
  }

  /** The page holds this, seen through the directory. */
  predicate Shows(tables: Tables, pages: map<nat, seq<byte>>, dir: nat, page: nat, content: seq<byte>) {
    var f := Translate(tables, dir, page);
    f.Some? && f.value in pages && pages[f.value] == content
  }

  /** The last segment that covers the page. */
  function Covering(segs: seq<Segment>, page: nat): Option<Segment> {
    if segs == [] then None
    else if segs[|segs| - 1].Covers(page) then Some(segs[|segs| - 1])
    else Covering(segs[..|segs| - 1], page)
  }

  /** The page as the loader leaves it: the last segment that covers it decides, and a page of no
      segment maps to what it mapped to before.  Page 0 is never mapped. */
  predicate PageRight(file: seq<byte>, segs: seq<Segment>, was: Tables, from: nat, tables: Tables, pages: map<nat, seq<byte>>, dir: nat, page: nat) {
    var s := Covering(segs, page);
    if s.None? || page == 0 then Translate(tables, dir, page) == Translate(was, from, page)
    else Shows(tables, pages, dir, page, PageContent(file, s.value, page))
  }

  ghost predicate Image(file: seq<byte>, segs: seq<Segment>, was: Tables, from: nat, tables: Tables, pages: map<nat, seq<byte>>, dir: nat) {
    forall p: nat {:trigger PageRight(file, segs, was, from, tables, pages, dir, p)} :: p < LIMIT ==>
      PageRight(file, segs, was, from, tables, pages, dir, p)
  }

  /** Byte k of the segment is where it belongs. */
  predicate ByteLoaded(file: seq<byte>, s: Segment, tables: Tables, pages: map<nat, seq<byte>>, dir: nat, k: nat) {
    ByteAt(tables, pages, dir, s.vaddr + k) == Some(SegmentByte(file, s, s.vaddr + k))
  }

  ghost predicate Loaded(file: seq<byte>, s: Segment, tables: Tables, pages: map<nat, seq<byte>>, dir: nat) {
    forall k: nat {:trigger ByteLoaded(file, s, tables, pages, dir, k)} :: k < s.memsz ==> ByteLoaded(file, s, tables, pages, dir, k)
  }

  /** The last segment on the page of byte k of s has the same byte there. */
  predicate ByteKept(file: seq<byte>, segs: seq<Segment>, s: Segment, k: nat) {
    var c := Covering(segs, (s.vaddr + k) / 4096);
    c.Some? && SegmentByte(file, c.value, s.vaddr + k) == SegmentByte(file, s, s.vaddr + k)
  }

  ghost predicate Kept(file: seq<byte>, segs: seq<Segment>, s: Segment) {
    forall k: nat {:trigger ByteKept(file, segs, s, k)} :: k < s.memsz ==> ByteKept(file, segs, s, k)
  }

  lemma {:induction false} CoveredBySome(segs: seq<Segment>, i: nat, page: nat)
    requires i < |segs| && segs[i].Covers(page)
    ensures Covering(segs, page).Some? && Covering(segs, page).value.Covers(page)
  {
    if i < |segs| - 1 && !segs[|segs| - 1].Covers(page) {
      CoveredBySome(segs[..|segs| - 1], i, page);
    }
  }

  lemma BytePage(s: Segment, k: nat)
    requires k < s.memsz && s.End() <= LIMIT
    ensures s.Covers((s.vaddr + k) / 4096) && (s.vaddr + k) / 4096 < LIMIT
    ensures (s.vaddr + k) / 4096 * 4096 + (s.vaddr + k) % 4096 == s.vaddr + k
  {
  }

  /** A segment is loaded if and only if no later segment has another byte on one of its pages. */
  lemma LoadedIffKept(file: seq<byte>, segs: seq<Segment>, i: nat, was: Tables, from: nat, tables: Tables, pages: map<nat, seq<byte>>, dir: nat)
    requires i < |segs| && 1 <= segs[i].First() && segs[i].End() <= LIMIT
    requires Image(file, segs, was, from, tables, pages, dir)
    ensures Loaded(file, segs[i], tables, pages, dir) <==> Kept(file, segs, segs[i])
  {
    var s := segs[i];
    forall k: nat | k < s.memsz ensures ByteLoaded(file, s, tables, pages, dir, k) <==> ByteKept(file, segs, s, k) {
      var p := (s.vaddr + k) / 4096;
      BytePage(s, k);
      CoveredBySome(segs, i, p);
      var c := Covering(segs, p).value;
      assert PageRight(file, segs, was, from, tables, pages, dir, p);
      assert PageContent(file, c, p)[(s.vaddr + k) % 4096] == SegmentByte(file, c, p * 4096 + (s.vaddr + k) % 4096);
    }
    if Loaded(file, s, tables, pages, dir) {
      forall k: nat | k < s.memsz ensures ByteKept(file, segs, s, k) {
        assert ByteLoaded(file, s, tables, pages, dir, k);
      }
    }
    if Kept(file, segs, s) {
      forall k: nat | k < s.memsz ensures ByteLoaded(file, s, tables, pages, dir, k) {
        assert ByteKept(file, segs, s, k);
      }
    }
  }

  predicate PagesApart(a: Segment, b: Segment) { a.End() <= b.First() || b.End() <= a.First() }

  /** A segment that shares no page with a later one keeps every byte. */
  lemma ApartIsKept(file: seq<byte>, segs: seq<Segment>, i: nat)
    requires i < |segs| && segs[i].End() <= LIMIT
    requires forall j :: i < j < |segs| ==> PagesApart(segs[i], segs[j])
    ensures Kept(file, segs, segs[i])
  {
    var s := segs[i];
    forall k: nat | k < s.memsz ensures ByteKept(file, segs, s, k) {
      BytePage(s, k);
      LastWins(segs, i, (s.vaddr + k) / 4096);
    }
  }

  lemma {:induction false} LastWins(segs: seq<Segment>, i: nat, page: nat)
    requires i < |segs| && segs[i].Covers(page)
    requires forall j :: i < j < |segs| ==> PagesApart(segs[i], segs[j])
    ensures Covering(segs, page) == Some(segs[i])
  {
    if i < |segs| - 1 {
      assert PagesApart(segs[i], segs[|segs| - 1]);
      LastWins(segs[..|segs| - 1], i, page);
    }
  }

  /** Two segments on one page: the first loses its byte. */
  lemma SharedPageLost(was: Tables, from: nat, tables: Tables, pages: map<nat, seq<byte>>, dir: nat)
    requires Image([7, 8], [Segment(0x1000000, 1, 1, 0), Segment(0x1000800, 1, 1, 1)], was, from, tables, pages, dir)
    ensures !Loaded([7, 8], Segment(0x1000000, 1, 1, 0), tables, pages, dir)
  {
    var file: seq<byte> := [7, 8];
    var a, b := Segment(0x1000000, 1, 1, 0), Segment(0x1000800, 1, 1, 1);
    assert b.Covers(0x1000);
    assert Covering([a, b], 0x1000) == Some(b);
    assert SegmentByte(file, b, 0x1000000) == 0 && SegmentByte(file, a, 0x1000000) == 7;
    assert !ByteKept(file, [a, b], a, 0);
    LoadedIffKept(file, [a, b], 0, was, from, tables, pages, dir);
  }

  // ---------- one page ----------

  /** The page buffer after the read: dest_offset, segment_offset and read_len as the loop has
      them, and a read that stops at the end of the file. */
  function Filled(file: seq<byte>, s: Segment, page: nat): seq<byte>
    requires s.First() <= page
  {
    var at := page * 4096;
    var dest := if at < s.vaddr then s.vaddr - at else 0;
    var from := if at < s.vaddr then 0 else at - s.vaddr;
    if from >= s.filesz || s.offset + from >= |file| then Zeros(4096)
    else
      var n := Min(Min(s.filesz - from, 4096 - dest), |file| - (s.offset + from));
      Zeros(4096)[..dest] + file[s.offset + from..s.offset + from + n] + Zeros(4096)[dest + n..]
  }

  lemma FilledIsContent(file: seq<byte>, s: Segment, page: nat)
    requires s.First() <= page
    ensures Filled(file, s, page) == PageContent(file, s, page)
  {
    var at := page * 4096;
    assert s.vaddr < at + 4096;
    forall j: nat | j < 4096 ensures |Filled(file, s, page)| == 4096 && Filled(file, s, page)[j] == SegmentByte(file, s, at + j) {
    }
  }

  /** Old contents stay. */
  ghost predicate Grown(was: map<nat, seq<byte>>, pages: map<nat, seq<byte>>) {
    forall f :: f in was ==> f in pages && pages[f] == was[f]
  }

  /** How the page stands after n pages of the segment. */
  predicate PageStep(file: seq<byte>, s: Segment, n: nat, was: Tables, tables: Tables, pages: map<nat, seq<byte>>, dir: nat, p: nat) {
    if s.First() <= p < s.First() + n && p != 0 then Shows(tables, pages, dir, p, PageContent(file, s, p))
    else Translate(tables, dir, p) == Translate(was, dir, p)
  }

  ghost predicate Steps(file: seq<byte>, s: Segment, n: nat, was: Tables, tables: Tables, pages: map<nat, seq<byte>>, dir: nat) {
    forall p: nat {:trigger PageStep(file, s, n, was, tables, pages, dir, p)} :: p < LIMIT ==> PageStep(file, s, n, was, tables, pages, dir, p)
  }

  /** What loading one page does: a fresh frame with the segment's bytes behind that page. */
  ghost predicate PageLoaded(file: seq<byte>, s: Segment, tables: Tables, pages: map<nat, seq<byte>>, now: Tables, nowPages: map<nat, seq<byte>>, dir: nat, page: nat, f: nat) {
    && f !in pages && nowPages == pages[f := PageContent(file, s, page)]
    && if page == 0 then now == tables else Remapped(tables, now, dir, page, Some(f))
  }

  lemma OnePage(file: seq<byte>, s: Segment, n: nat, m: nat, was: Tables, tables: Tables, pages: map<nat, seq<byte>>, now: Tables, nowPages: map<nat, seq<byte>>, dir: nat, page: nat, f: nat)
    requires Steps(file, s, n, was, tables, pages, dir) && page == s.First() + n && page < LIMIT && m == n + 1
    requires PageLoaded(file, s, tables, pages, now, nowPages, dir, page, f)
    ensures Steps(file, s, m, was, now, nowPages, dir)
  {
    forall p: nat | p < LIMIT ensures PageStep(file, s, m, was, now, nowPages, dir, p) {
      assert PageStep(file, s, n, was, tables, pages, dir, p);
      if page != 0 {
        assert Translate(now, dir, p) == if p == page then Some(f) else Translate(tables, dir, p);
      }
    }
  }

  /** A whole segment goes on top of what is there. */
  lemma OneSegment(file: seq<byte>, segs: seq<Segment>, s: Segment, was: Tables, from: nat, tables: Tables, pages: map<nat, seq<byte>>, now: Tables, nowPages: map<nat, seq<byte>>, dir: nat)
    requires Image(file, segs, was, from, tables, pages, dir) && s.First() <= s.End()
    requires Steps(file, s, s.End() - s.First(), tables, now, nowPages, dir) && Grown(pages, nowPages)
    ensures Image(file, segs + [s], was, from, now, nowPages, dir)
  {
    assert (segs + [s])[..|segs|] == segs;
    forall p: nat | p < LIMIT ensures PageRight(file, segs + [s], was, from, now, nowPages, dir, p) {
      assert PageRight(file, segs, was, from, tables, pages, dir, p);
      assert PageStep(file, s, s.End() - s.First(), tables, now, nowPages, dir, p);
    }
  }

  /** The kernel has no table for the segment's pages. */
  ghost predicate UserRange(was: Tables, kernel: nat, s: Segment) {
    IsTable(was, kernel) && forall p: nat {:trigger p / 1024} :: s.First() <= p < s.End() && p < LIMIT ==> !Present(was[kernel][p / 1024])
  }

  ghost predicate InUserRange(segs: seq<Segment>, was: Tables, kernel: nat) {
    forall s :: s in segs ==> UserRange(was, kernel, s)
  }

  // ---------- what the program may do with its pages ----------

  predicate Open(e: nat) { Writable(e) && ForUser(e) }

  /** Where the kernel has no table, what the directory maps is the program's own to read and write. */
  ghost predicate OpenAt(was: Tables, kernel: nat, tables: Tables, dir: nat, k: nat) {
    IsTable(was, kernel) && IsTable(tables, dir) && k < 1023 && !Present(was[kernel][k]) && Present(tables[dir][k]) ==>
      Open(tables[dir][k]) && IsTable(tables, FrameOf(tables[dir][k])) && AllOpen(tables[FrameOf(tables[dir][k])])
  }

  ghost predicate AllOpen(table: seq<nat>) { forall i {:trigger Present(table[i])} :: 0 <= i < |table| && Present(table[i]) ==> Open(table[i]) }

  ghost predicate OpenDir(was: Tables, kernel: nat, tables: Tables, dir: nat) {
    forall k: nat {:trigger OpenAt(was, kernel, tables, dir, k)} :: OpenAt(was, kernel, tables, dir, k)
  }

  lemma OpenStays(was: Tables, kernel: nat, tables: Tables, now: Tables, dir: nat, page: nat, frame: nat)
    requires OpenDir(was, kernel, tables, dir) && DirOk(tables, dir) && DirOk(now, dir)
    requires OnlyTableOf(tables, now, dir, page) && Written(tables, now, dir, page, frame, USER_PAGE)
    ensures OpenDir(was, kernel, now, dir)
  {
    EntryRights(frame, USER_PAGE);
    EntryRights(FrameOf(now[dir][page / 1024]), USER_PAGE);
    forall k: nat ensures OpenAt(was, kernel, now, dir, k) {
      assert OpenAt(was, kernel, tables, dir, k);
      if k < 1023 && k != page / 1024 && Present(now[dir][k]) {
        OtherTable(tables, now, dir, page, frame, k);
      }
    }
  }

  /** The tables behind the directory's other entries are as they were. */
  lemma OtherTable(tables: Tables, now: Tables, dir: nat, page: nat, frame: nat, k: nat)
    requires DirOk(tables, dir) && DirOk(now, dir) && OnlyTableOf(tables, now, dir, page) && Written(tables, now, dir, page, frame, USER_PAGE)
    requires k < 1023 && k != page / 1024 && Present(now[dir][k])
    ensures now[dir][k] == tables[dir][k] && FrameOf(now[dir][k]) in tables && FrameOf(now[dir][k]) in now
    ensures now[FrameOf(now[dir][k])] == tables[FrameOf(now[dir][k])]
  {
    EntryReads(FrameOf(now[dir][page / 1024]), USER_PAGE);
    assert SlotOk(tables, dir, k) && SlotOk(now, dir, k) && SlotsApart(now, dir, k, page / 1024);
  }

  /** So a page that is mapped there may be written to. */
  lemma OpenPage(was: Tables, kernel: nat, tables: Tables, dir: nat, page: nat)
    requires OpenDir(was, kernel, tables, dir) && IsTable(was, kernel) && page < LIMIT && !Present(was[kernel][page / 1024])
    requires Translate(tables, dir, page).Some?
    ensures UserMayWrite(tables, dir, page)
  {
    assert OpenAt(was, kernel, tables, dir, page / 1024);
    assert Present(tables[FrameOf(tables[dir][page / 1024])][page % 1024]);
  }

  lemma NothingOpenYet(was: Tables, kernel: nat, tables: Tables, dir: nat)
    requires Private(tables, dir, kernel) && IsTable(was, kernel) && tables[kernel] == was[kernel]
    requires forall k :: 0 <= k < 1023 ==> tables[dir][k] == tables[kernel][k]
    ensures OpenDir(was, kernel, tables, dir)
  {
    forall k: nat ensures OpenAt(was, kernel, tables, dir, k) {
    }
  }

  // ---------- the loader ----------

  /**
   * The body of the page loop.  The frame is taken first; when the mapping then finds no frame
   * for a table, it fails without a word and the page stays unmapped (`mapped` is false).
   */
  method LoadPage(mem: Memory, dir: nat, file: seq<byte>, s: Segment, page: nat, ghost was: Tables, ghost kernel: nat)
      returns (ok: bool, ghost mapped: bool)
    requires mem.Valid() && DirOk(mem.tables, dir) && dir != 0 && page < LIMIT && s.First() <= page
    modifies mem`tables, mem`pages, mem.bitmap.bits
    ensures mem.Valid() && DirOk(mem.tables, dir) && mem.bitmap.Free() <= old(mem.bitmap.Free())
    ensures ok <==> !Exhausted(old(mem.bitmap.Free()), mem.bitmap.maxBlocks)
    ensures !mapped ==> Exhausted(mem.bitmap.Free(), mem.bitmap.maxBlocks)
    ensures ok && !mapped ==> !Present(old(mem.tables)[dir][page / 1024])
    ensures ok && mapped ==> exists f: nat :: PageLoaded(file, s, old(mem.tables), old(mem.pages), mem.tables, mem.pages, dir, page, f)
    ensures Grown(old(mem.pages), mem.pages)
    ensures KernelSafe(was, old(mem.tables), dir, kernel) && !Present(was[kernel][page / 1024]) ==> KernelSafe(was, mem.tables, dir, kernel)
    ensures OpenDir(was, kernel, old(mem.tables), dir) ==> OpenDir(was, kernel, mem.tables, dir)
  {
    ghost var tables, pages := mem.tables, mem.pages;
    ok, mapped := false, true;
    var f := mem.NewFrame();
    if f == 0 {
      mapped := false;
      return;
    }
    mem.pages := mem.pages[f := Filled(file, s, page)];
    FilledIsContent(file, s, page);
    ghost var done := mem.MapPage(dir, f, page, USER_PAGE);
    ok, mapped := true, done || page == 0;
    assert mapped ==> PageLoaded(file, s, tables, pages, mem.tables, mem.pages, dir, page, f);
    if done && KernelSafe(was, tables, dir, kernel) && !Present(was[kernel][page / 1024]) {
      assert Translate(mem.tables, dir, page) == Some(f);
      KernelUntouched(was, tables, mem.tables, dir, kernel, page);
    }
    if done && OpenDir(was, kernel, tables, dir) {
      OpenStays(was, kernel, tables, mem.tables, dir, page, f);
    }
  }

  /** The page loop for one segment. */
  method LoadSegment(mem: Memory, dir: nat, file: seq<byte>, s: Segment, ghost was: Tables, ghost kernel: nat)
      returns (ok: bool, ghost mapped: bool)
    requires mem.Valid() && DirOk(mem.tables, dir) && dir != 0 && s.First() <= s.End() <= LIMIT
    modifies mem`tables, mem`pages, mem.bitmap.bits
    ensures mem.Valid() && DirOk(mem.tables, dir) && mem.bitmap.Free() <= old(mem.bitmap.Free())
    ensures !ok || !mapped ==> Exhausted(mem.bitmap.Free(), mem.bitmap.maxBlocks)
    ensures ok && mapped ==> Steps(file, s, s.End() - s.First(), old(mem.tables), mem.tables, mem.pages, dir)
    ensures Grown(old(mem.pages), mem.pages)
    ensures KernelSafe(was, old(mem.tables), dir, kernel) && UserRange(was, kernel, s) ==> KernelSafe(was, mem.tables, dir, kernel)
    ensures OpenDir(was, kernel, old(mem.tables), dir) ==> OpenDir(was, kernel, mem.tables, dir)
  {
    var n, count := 0, s.End() - s.First();
    mapped := true;
    while n < count
      invariant 0 <= n <= count && mem.Valid() && DirOk(mem.tables, dir) && mem.bitmap.Free() <= old(mem.bitmap.Free())
      invariant !mapped ==> Exhausted(mem.bitmap.Free(), mem.bitmap.maxBlocks)
      invariant mapped ==> Steps(file, s, n, old(mem.tables), mem.tables, mem.pages, dir)
      invariant Grown(old(mem.pages), mem.pages)
      invariant KernelSafe(was, old(mem.tables), dir, kernel) && UserRange(was, kernel, s) ==> KernelSafe(was, mem.tables, dir, kernel)
      invariant OpenDir(was, kernel, old(mem.tables), dir) ==> OpenDir(was, kernel, mem.tables, dir)
    {
      ghost var tables, pages, before := mem.tables, mem.pages, mapped;
      var page := s.First() + n;
      ok, mapped := LoadPage(mem, dir, file, s, page, was, kernel);
      if !ok {
        return;
      }
      if before && mapped {
        ghost var f: nat :| PageLoaded(file, s, tables, pages, mem.tables, mem.pages, dir, page, f);
        OnePage(file, s, n, n + 1, old(mem.tables), tables, pages, mem.tables, mem.pages, dir, page, f);
      }
      mapped := before && mapped;
      n := n + 1;
    }
    ok := true;
  }

  /** The loop over the program headers. */
  method LoadSegments(mem: Memory, dir: nat, file: seq<byte>, segs: seq<Segment>, ghost was: Tables, ghost kernel: nat)
      returns (ok: bool, ghost mapped: bool)
    requires mem.Valid() && DirOk(mem.tables, dir) && dir != 0 && forall s :: s in segs ==> s.End() <= LIMIT
    requires Image(file, [], was, kernel, mem.tables, mem.pages, dir)
    modifies mem`tables, mem`pages, mem.bitmap.bits
    ensures mem.Valid() && DirOk(mem.tables, dir) && mem.bitmap.Free() <= old(mem.bitmap.Free())
    ensures !ok || !mapped ==> Exhausted(mem.bitmap.Free(), mem.bitmap.maxBlocks)
    ensures ok && mapped ==> Image(file, segs, was, kernel, mem.tables, mem.pages, dir)
    ensures Grown(old(mem.pages), mem.pages)
    ensures KernelSafe(was, old(mem.tables), dir, kernel) && InUserRange(segs, was, kernel) ==> KernelSafe(was, mem.tables, dir, kernel)
    ensures OpenDir(was, kernel, old(mem.tables), dir) ==> OpenDir(was, kernel, mem.tables, dir)
  {
    mapped := true;
    var i := 0;
    assert segs[..0] == [];
    while i < |segs|
      invariant 0 <= i <= |segs| && mem.Valid() && DirOk(mem.tables, dir) && mem.bitmap.Free() <= old(mem.bitmap.Free())
      invariant !mapped ==> Exhausted(mem.bitmap.Free(), mem.bitmap.maxBlocks)
      invariant mapped ==> Image(file, segs[..i], was, kernel, mem.tables, mem.pages, dir)
      invariant Grown(old(mem.pages), mem.pages)
      invariant KernelSafe(was, old(mem.tables), dir, kernel) && InUserRange(segs, was, kernel) ==> KernelSafe(was, mem.tables, dir, kernel)
      invariant OpenDir(was, kernel, old(mem.tables), dir) ==> OpenDir(was, kernel, mem.tables, dir)
    {
      ghost var tables, pages, before := mem.tables, mem.pages, mapped;
      assert segs[i] in segs;
      ok, mapped := LoadSegment(mem, dir, file, segs[i], was, kernel);
      if !ok {
        return;
      }
      if before && mapped {
        OneSegment(file, segs[..i], segs[i], was, kernel, tables, pages, mem.tables, mem.pages, dir);
        assert segs[..i] + [segs[i]] == segs[..i + 1];
      }
      mapped := before && mapped;
      i := i + 1;
    }
    assert segs[..i] == segs;
    ok := true;
  }

  /** The stack and the thread-local page: one zeroed page each. */
  method LoadFixed(mem: Memory, dir: nat, file: seq<byte>, segs: seq<Segment>, s: Segment, ghost was: Tables, ghost kernel: nat, ghost whole: bool)
      returns (ok: bool, ghost mapped: bool)
    requires mem.Valid() && DirOk(mem.tables, dir) && dir != 0 && 0 < s.First() && s.End() == s.First() + 1 <= LIMIT
    requires whole ==> Image(file, segs, was, kernel, mem.tables, mem.pages, dir)
    modifies mem`tables, mem`pages, mem.bitmap.bits
    ensures mem.Valid() && DirOk(mem.tables, dir) && mem.bitmap.Free() <= old(mem.bitmap.Free())
    ensures ok <==> !Exhausted(old(mem.bitmap.Free()), mem.bitmap.maxBlocks)
    ensures !mapped ==> Exhausted(mem.bitmap.Free(), mem.bitmap.maxBlocks)
    ensures ok && !mapped ==> !Present(old(mem.tables)[dir][s.First() / 1024])
    ensures ok && mapped ==> Present(mem.tables[dir][s.First() / 1024])
    ensures ok && mapped && whole ==> Image(file, segs + [s], was, kernel, mem.tables, mem.pages, dir)
    ensures Grown(old(mem.pages), mem.pages)
    ensures KernelSafe(was, old(mem.tables), dir, kernel) && UserRange(was, kernel, s) ==> KernelSafe(was, mem.tables, dir, kernel)
    ensures OpenDir(was, kernel, old(mem.tables), dir) ==> OpenDir(was, kernel, mem.tables, dir)
  {
    ghost var tables, pages := mem.tables, mem.pages;
    ok, mapped := LoadPage(mem, dir, file, s, s.First(), was, kernel);
    if ok && mapped {
      ghost var f: nat :| PageLoaded(file, s, tables, pages, mem.tables, mem.pages, dir, s.First(), f);
      assert Translate(mem.tables, dir, s.First()) == Some(f);
      NoPageYet(file, s, tables, pages, dir);
      OnePage(file, s, 0, 1, tables, tables, pages, mem.tables, mem.pages, dir, s.First(), f);
      if whole {
        OneSegment(file, segs, s, was, kernel, tables, pages, mem.tables, mem.pages, dir);
      }
    }
  }

  /** Both of them: when they are there, so is their table. */
  method LoadStack(mem: Memory, dir: nat, file: seq<byte>, segs: seq<Segment>, ghost was: Tables, ghost kernel: nat, ghost whole: bool)
      returns (ok: bool)
    requires mem.Valid() && DirOk(mem.tables, dir) && dir != 0
    requires if whole then Image(file, segs, was, kernel, mem.tables, mem.pages, dir) else Exhausted(mem.bitmap.Free(), mem.bitmap.maxBlocks)
    modifies mem`tables, mem`pages, mem.bitmap.bits
    ensures mem.Valid() && DirOk(mem.tables, dir) && mem.bitmap.Free() <= old(mem.bitmap.Free())
    ensures !ok ==> Exhausted(mem.bitmap.Free(), mem.bitmap.maxBlocks)
    ensures ok ==> Image(file, segs + [STACK, TLS], was, kernel, mem.tables, mem.pages, dir)
    ensures Grown(old(mem.pages), mem.pages)
    ensures KernelSafe(was, old(mem.tables), dir, kernel) && UserRange(was, kernel, STACK) && UserRange(was, kernel, TLS) ==>
              KernelSafe(was, mem.tables, dir, kernel)
    ensures OpenDir(was, kernel, old(mem.tables), dir) ==> OpenDir(was, kernel, mem.tables, dir)
  {
    ghost var stacked, finished;
    ok, stacked := LoadFixed(mem, dir, file, segs, STACK, was, kernel, whole);
    if !ok {
      return;
    }
    ok, finished := LoadFixed(mem, dir, file, segs + [STACK], TLS, was, kernel, whole && stacked);
    assert segs + [STACK] + [TLS] == segs + [STACK, TLS];
  }

  lemma NoPageYet(file: seq<byte>, s: Segment, tables: Tables, pages: map<nat, seq<byte>>, dir: nat)
    ensures Steps(file, s, 0, tables, tables, pages, dir)
  {
  }

  /**
   * The directory, the segments, the stack and the thread-local page of a new program.  When this
   * succeeds, every page of the program is as its headers say, although a failed mapping goes
   * unnoticed on the way: it means that no frame is left, and then one of the later allocations
   * fails.  The kernel's own view is as before whether it succeeds or not, provided that the
   * program stays where the kernel has no tables.
   */
  method LoadProgram(mem: Memory, kernel: nat, file: seq<byte>, segs: seq<Segment>) returns (dir: nat, ok: bool)
    requires mem.Valid() && DirOk(mem.tables, kernel) && forall s :: s in segs ==> s.End() <= LIMIT
    modifies mem`tables, mem`pages, mem.bitmap.bits
    ensures mem.Valid() && mem.bitmap.Free() <= old(mem.bitmap.Free())
    ensures ok ==> dir != 0 && DirOk(mem.tables, dir)
    ensures ok ==> Image(file, segs + [STACK, TLS], old(mem.tables), kernel, mem.tables, mem.pages, dir)
    ensures !ok ==> Exhausted(mem.bitmap.Free(), mem.bitmap.maxBlocks)
    ensures Grown(old(mem.pages), mem.pages)
    ensures dir != 0 && InUserRange(segs + [STACK, TLS], old(mem.tables), kernel) ==>
              KernelSafe(old(mem.tables), mem.tables, dir, kernel)
    ensures dir == 0 ==> mem.tables == old(mem.tables)
    ensures dir != 0 ==> OpenDir(old(mem.tables), kernel, mem.tables, dir)
  {
    ok := false;
    ghost var was := mem.tables;
    dir := mem.CreateDirectory(kernel);
    // The source goes on without a directory; the first allocation that follows then fails.
    if dir == 0 {
      return;
    }
    NothingLoaded(file, was, kernel, mem.tables, mem.pages, dir);
    NothingOpenYet(was, kernel, mem.tables, dir);
    if InUserRange(segs + [STACK, TLS], was, kernel) {
      UserSegments(segs, was, kernel);
    }
    ghost var whole;
    ok, whole := LoadSegments(mem, dir, file, segs, was, kernel);
    if !ok {
      return;
    }
    ok := LoadStack(mem, dir, file, segs, was, kernel, whole);
  }

  lemma NothingLoaded(file: seq<byte>, was: Tables, kernel: nat, tables: Tables, pages: map<nat, seq<byte>>, dir: nat)
    requires forall p: nat {:trigger Translate(tables, dir, p)} :: p < LIMIT ==> Translate(tables, dir, p) == Translate(was, kernel, p)
    ensures Image(file, [], was, kernel, tables, pages, dir)
  {
  }

  lemma UserSegments(segs: seq<Segment>, was: Tables, kernel: nat)
    requires InUserRange(segs + [STACK, TLS], was, kernel)
    ensures InUserRange(segs, was, kernel) && UserRange(was, kernel, STACK) && UserRange(was, kernel, TLS)
  {
    assert STACK in segs + [STACK, TLS] && TLS in segs + [STACK, TLS];
    forall s | s in segs ensures UserRange(was, kernel, s) {
      assert s in segs + [STACK, TLS];
    }
  }
}
