/**
 * The kernel heap of src/kernel/mem/heap/heap.c: next-fit over the same kind of blocks, with
 * a rover that remembers where the last search ended.
 */
module KernelHeap {
  import opened BlockList
  import opened BlockLinks
  import opened BlockHeap

  const MAGIC := 0x1234_5678
  /** A block is split when more than a header and four bytes would remain. */
  const SPARE := 25

  function Formed(size: nat): nat { (size + 3) / 4 * 4 }

  function Pages(size: nat): nat { (size + 4095) / 4096 }

  /** heap_start, heap_current_end, last_alloc and memory. */
  datatype State = State(start: nat, end: nat, rover: nat, mem: Mem)

  ghost predicate Sound(s: State, bs: seq<Block>) {
    bs != [] && Rep(s.mem.hdr, s.start, bs, MAGIC) && Good(bs, Extent(s.start, s.end))
  }

  /** The rover is one of the blocks. */
  ghost predicate Listed(bs: seq<Block>, rover: nat) {
    exists r: nat :: IsAt(bs, r, rover)
  }

  predicate IsAt(bs: seq<Block>, r: nat, a: nat) { r < |bs| && bs[r].addr == a }

  // ---------- the wrapped search ----------

  /** The block the search visits at step k: r, r + 1, and so on round to r - 1. */
  function Nth(r: nat, k: nat, n: nat): nat
    requires r < n && k < n
  {
    if r + k < n then r + k else r + k - n
  }

  /** In n steps it visits every block, and each one once. */
  lemma VisitsAll(r: nat, n: nat, i: nat) returns (k: nat)
    requires r < n && i < n
    ensures k < n && Nth(r, k, n) == i && forall j: nat {:trigger Nth(r, j, n)} :: j < n && Nth(r, j, n) == i ==> j == k
  {
    k := if r <= i then i - r else i + n - r;
  }

  ghost predicate NoneSoFar(bs: seq<Block>, r: nat, k: nat, n: nat)
    requires r < |bs| && k <= |bs|
  {
    forall j: nat {:trigger Nth(r, j, |bs|)} :: j < k ==> !Fits(bs[Nth(r, j, |bs|)], n)
  }

  lemma NoneAtAll(bs: seq<Block>, r: nat, n: nat)
    requires r < |bs| && NoneSoFar(bs, r, |bs|, n)
    ensures NoFit(bs, |bs|, n)
  {
    forall i: nat | i < |bs| ensures !Fits(bs[i], n) {
      var k := VisitsAll(r, |bs|, i);
    }
  }

  /** The loop of mem_alloc: the first fitting block from the rover on, or none at all. */
  method Search(s: State, n: nat, ghost bs: seq<Block>, ghost r: nat) returns (found: bool, curr: nat, ghost i: nat)
    requires Sound(s, bs) && IsAt(bs, r, s.rover)
    ensures found ==> i < |bs| && curr == bs[i].addr && Fits(bs[i], n)
    ensures found ==> exists k: nat {:trigger Nth(r, k, |bs|)} :: k < |bs| && i == Nth(r, k, |bs|) && NoneSoFar(bs, r, k, n)
    ensures !found ==> NoFit(bs, |bs|, n)
  {
    curr, found, i := s.rover, false, r;
    var wrapped := false;
    ghost var k: nat := 0;
    Nonzero(bs, s.start, s.end, r);
    while curr != 0
      invariant k < |bs| && i == Nth(r, k, |bs|) && curr == bs[i].addr != 0
      invariant wrapped <==> r + k >= |bs|
      invariant NoneSoFar(bs, r, k, n)
      invariant !found
      decreases |bs| - k
    {
      assert LinkedAt(s.mem.hdr, bs, i, MAGIC);
      var h := s.mem.hdr[curr];
      if h.free && h.size >= n {
        found := true;
        return;
      }
      curr := h.next;
      if curr == 0 {
        LastHasNoNext(bs, s.start, s.end, i);
      }
      if curr == 0 && !wrapped {
        curr := s.start;
        wrapped := true;
      }
      i := if i + 1 < |bs| then i + 1 else 0;
      k := k + 1;
      Nonzero(bs, s.start, s.end, i);
      if wrapped && curr == s.rover {
        Different(bs, s.start, s.end, i, r);
        NoneAtAll(bs, r, n);
        return;
      }
    }
  }

  // ---------- mem_alloc ----------

  /** What a successful mem_alloc leaves. */
  ghost predicate Allocated(s: State, s': State, bs: seq<Block>, bs': seq<Block>, size: nat, p: nat, blk: Block) {
    && Sound(s', bs') && Listed(bs', s'.rover) && s'.start == s.start
    && p == Bottom(blk) && blk.size >= size && blk !in LiveSet(bs) && LiveSet(bs') == LiveSet(bs) + {blk}
    && Spared(s.mem, s'.mem, LiveSet(bs))
  }

  lemma TakenIsNew(bs: seq<Block>, e: Extent, i: nat, n: nat)
    requires Placed(bs, e.start, e.brk) && i < |bs| && bs[i].free
    ensures Taken(bs[i], n, SPARE) !in LiveSet(bs)
  {
    forall x | x in LiveSet(bs) ensures x.addr != bs[i].addr {
      var k := LiveAt(bs, x);
      if x.addr == bs[i].addr {
        Different(bs, e.start, e.brk, k, i);
      }
    }
  }

  /** The block found is used, and the rover moves behind it. */
  method UseFound(s: State, curr: nat, n: nat, ghost bs: seq<Block>, ghost i: nat) returns (s': State, ghost bs': seq<Block>, ghost blk: Block)
    requires Sound(s, bs) && i < |bs| && curr == bs[i].addr && Fits(bs[i], n)
    ensures Allocated(s, s', bs, bs', n, curr + 20, blk) && s'.end == s.end
  {
    var m := UseFree(s.mem, s.start, curr, n, MAGIC, SPARE, bs, Extent(s.start, s.end), i);
    bs', blk := Take(bs, i, n, SPARE), Taken(bs[i], n, SPARE);
    TakenIsNew(bs, Extent(s.start, s.end), i, n);
    TakenAt(bs, i, n);
    assert LinkedAt(m.hdr, bs', i, MAGIC) && LinkedAt(m.hdr, bs', 0, MAGIC);
    var next := m.hdr[curr].next;
    s' := s.(mem := m, rover := if next != 0 then next else s.start);
    if next != 0 {
      assert IsAt(bs', i + 1, s'.rover);
    } else {
      assert IsAt(bs', 0, s'.rover);
    }
  }

  lemma TakenAt(bs: seq<Block>, i: nat, n: nat)
    requires i < |bs|
    ensures var now := Take(bs, i, n, SPARE); i < |now| && now[i] == Taken(bs[i], n, SPARE)
  {
  }

  // ---------- heap_expand ----------

  /** The pages added at the end: a new free block, or more room in the last one. */
  function Expanded(bs: seq<Block>, end: nat, size: nat): seq<Block> {
    var longer := Append(bs, end, size, true);
    if bs != [] && bs[|bs| - 1].free then Merge(longer, |bs| - 1) else longer
  }

  lemma ExpandedSettled(bs: seq<Block>, e: Extent, size: nat)
    requires Good(bs, e)
    ensures Settled(Expanded(bs, e.brk, size))
  {
    var longer, now := Append(bs, e.brk, size, true), Expanded(bs, e.brk, size);
    AppendTiles(bs, e.start, e.brk, size, true);
    forall k: nat ensures Apart(now, k) {
      assert Apart(bs, k);
      if bs != [] && bs[|bs| - 1].free {
        MergeShape(longer, e.start, e.brk + 20 + size, |bs| - 1);
      }
    }
  }

  lemma ExpandedLive(bs: seq<Block>, e: Extent, size: nat)
    requires Good(bs, e)
    ensures LiveSet(Expanded(bs, e.brk, size)) == LiveSet(bs)
  {
    var longer := Append(bs, e.brk, size, true);
    AppendTiles(bs, e.start, e.brk, size, true);
    assert LiveSet(longer) == LiveSet(bs);
    if bs != [] && bs[|bs| - 1].free {
      MergeLive(longer, Extent(e.start, e.brk + 20 + size), |bs| - 1);
    }
  }

  /** Some block of an expanded heap has the new room, and no listed block is gone. */
  lemma ExpandedFits(bs: seq<Block>, e: Extent, size: nat, r: nat, a: nat)
    requires Good(bs, e) && IsAt(bs, r, a)
    ensures var now := Expanded(bs, e.brk, size);
            IsAt(now, r, a) && now != [] && now[|now| - 1].free && now[|now| - 1].size >= size
  {
    var longer := Append(bs, e.brk, size, true);
    AppendTiles(bs, e.start, e.brk, size, true);
    if bs[|bs| - 1].free {
      MergeShape(longer, e.start, e.brk + 20 + size, |bs| - 1);
    }
  }

  /** heap_expand, when a frame can be had for every page. */
  method Expand(s: State, additional: nat, ghost bs: seq<Block>) returns (s': State, ghost bs': seq<Block>)
    requires Sound(s, bs) && additional >= 20
    ensures Sound(s', bs') && bs' == Expanded(bs, s.end, Pages(additional) * 4096 - 20)
    ensures s' == s.(end := s.end + Pages(additional) * 4096, mem := s'.mem)
    ensures Spared(s.mem, s'.mem, LiveSet(bs))
  {
    var pages := Pages(additional);
    assert pages >= 1;
    var size := pages * 4096 - 20;
    var end := s.end;
    var i := 0;
    while i < pages
      invariant 0 <= i <= pages && end == s.end + 4096 * i
    {
      end := end + 4096;
      i := i + 1;
    }
    ghost var e, e' := Extent(s.start, s.end), Extent(s.start, end);
    ghost var longer := Append(bs, s.end, size, true);
    TilesGrow(bs, s.start, s.end);
    var m, head := AppendBlock(s.mem, s.start, s.end, size, true, MAGIC, bs, s.start);
    SparedLive(s.mem, m, bs);
    assert LinkedAt(m.hdr, longer, |bs|, MAGIC) && LinkedAt(m.hdr, longer, |bs| - 1, MAGIC);
    var prev := m.hdr[s.end].prev;
    ExpandedSettled(bs, e, size);
    ExpandedLive(bs, e, size);
    bs' := longer;
    if prev != 0 && m.hdr[prev].free {
      var before := m;
      m := MergeNext(m, prev, MAGIC, head, longer, |bs| - 1, s.start, end);
      bs' := Merge(longer, |bs| - 1);
      SparedLive(before, m, bs');
      SparedTwice(s.mem, before, m, LiveSet(bs));
    } else {
      Nonzero(bs, s.start, s.end, |bs| - 1);
    }
    s' := s.(end := end, mem := m);
  }

  /** The size asked of heap_expand always makes a fitting block. */
  lemma PagesSuffice(size: nat)
    ensures Formed(size) <= Pages(size + 20) * 4096 - 20 && size <= Formed(size)
  {
  }

  /**
   * mem_alloc, from a listed rover.  It expands the heap only when no block fits, never more
   * than once, and returns a block apart from every block in use.
   */
  method MemAlloc(s: State, size: nat, ghost bs: seq<Block>) returns (p: nat, s': State, ghost bs': seq<Block>, ghost blk: Block)
    requires Sound(s, bs) && Listed(bs, s.rover)
    ensures Allocated(s, s', bs, bs', size, p, blk)
    ensures s'.end == if NoFit(bs, |bs|, Formed(size)) then s.end + Pages(size + 20) * 4096 else s.end
    decreases if NoFit(bs, |bs|, Formed(size)) then 1 else 0
  {
    ghost var r: nat :| IsAt(bs, r, s.rover);
    var n := Formed(size);
    PagesSuffice(size);
    var found, curr;
    ghost var i;
    found, curr, i := Search(s, n, bs, r);
    if found {
      s', bs', blk := UseFound(s, curr, n, bs, i);
      return curr + 20, s', bs', blk;
    }
    ghost var grown: seq<Block>;
    var bigger;
    bigger, grown := Expand(s, size + 20, bs);
    ExpandedFits(bs, Extent(s.start, s.end), Pages(size + 20) * 4096 - 20, r, s.rover);
    ExpandedLive(bs, Extent(s.start, s.end), Pages(size + 20) * 4096 - 20);
    assert IsAt(grown, r, bigger.rover) && Fits(grown[|grown| - 1], n);
    p, s', bs', blk := MemAlloc(bigger, size, grown);
    SparedTwice(s.mem, bigger.mem, s'.mem, LiveSet(bs));
  }

  // ---------- mem_free ----------

  /** Where mem_free leaves the rover when it frees block i. */
  function RoverAfter(bs: seq<Block>, i: nat, rover: nat): nat
    requires i < |bs|
  {
    var forward := if i + 1 < |bs| && bs[i + 1].free && rover == bs[i + 1].addr then bs[i].addr else rover;
    if i > 0 && bs[i - 1].free && forward == bs[i - 1].addr then bs[i].addr else forward
  }

  /** The rover stands on the freed block or on a free block beside it. */
  predicate Beside(bs: seq<Block>, i: nat, rover: nat)
    requires i < |bs|
  {
    || rover == bs[i].addr
    || (i > 0 && bs[i - 1].free && rover == bs[i - 1].addr)
    || (i + 1 < |bs| && bs[i + 1].free && rover == bs[i + 1].addr)
  }

  /** mem_free of a block in use, and of one that is free already. */
  method MemFree(s: State, ptr: nat, ghost bs: seq<Block>, ghost i: nat) returns (s': State, ghost bs': seq<Block>)
    requires Sound(s, bs) && (ptr != 0 ==> i < |bs| && ptr == Bottom(bs[i]))
    ensures Sound(s', bs') && s'.start == s.start && s'.end == s.end
    ensures ptr == 0 || bs[i].free ==> s' == s && bs' == bs
    ensures ptr != 0 && !bs[i].free ==>
              && bs' == Released(bs, i) && s'.rover == RoverAfter(bs, i, s.rover)
              && LiveSet(bs') == LiveSet(bs) - {bs[i]} && Spared(s.mem, s'.mem, LiveSet(bs'))
  {
    s', bs' := s, bs;
    if ptr == 0 {
      return;
    }
    var block := ptr - 20;
    assert LinkedAt(s.mem.hdr, bs, i, MAGIC);
    if s.mem.hdr[block].magic != MAGIC || s.mem.hdr[block].free {
      return;
    }
    var rover := MoveRover(s, block, bs, i);
    var m := Release(s.mem, s.start, block, MAGIC, bs, Extent(s.start, s.end), i);
    s', bs' := s.(mem := m, rover := rover), Released(bs, i);
    FirstStays(bs, i);
  }

  lemma FirstStays(bs: seq<Block>, i: nat)
    requires i < |bs|
    ensures Released(bs, i) != [] && Released(bs, i)[0].addr == bs[0].addr
  {
  }

  /** The two assignments to last_alloc in mem_free. */
  method MoveRover(s: State, block: nat, ghost bs: seq<Block>, ghost i: nat) returns (rover: nat)
    requires Sound(s, bs) && i < |bs| && block == bs[i].addr
    ensures rover == RoverAfter(bs, i, s.rover)
  {
    assert LinkedAt(s.mem.hdr, bs, i, MAGIC);
    var h := s.mem.hdr[block];
    rover := s.rover;
    if h.next != 0 {
      assert LinkedAt(s.mem.hdr, bs, i + 1, MAGIC);
      if s.mem.hdr[h.next].free && rover == h.next {
        rover := block;
      }
    } else {
      LastHasNoNext(bs, s.start, s.end, i);
    }
    if h.prev != 0 {
      assert LinkedAt(s.mem.hdr, bs, i - 1, MAGIC);
      if s.mem.hdr[h.prev].free && rover == h.prev {
        rover := block;
      }
    } else {
      FirstHasNoPrev(bs, Extent(s.start, s.end), i);
    }
  }

  /** The addresses of the blocks. */
  function Addresses(bs: seq<Block>): set<nat> {
    set b | b in bs :: b.addr
  }

  lemma ListedIsAddress(bs: seq<Block>, a: nat)
    ensures Listed(bs, a) <==> a in Addresses(bs)
  {
    if a in Addresses(bs) {
      var b :| b in bs && b.addr == a;
      var r: nat :| r < |bs| && bs[r] == b;
      assert IsAt(bs, r, a);
    }
  }

  lemma MergedAddresses(bs: seq<Block>, e: Extent, i: nat)
    requires Placed(bs, e.start, e.brk) && i + 1 < |bs|
    ensures Addresses(Merge(bs, i)) == Addresses(bs) - {bs[i + 1].addr}
  {
    var now := Merge(bs, i);
    MergeShape(bs, e.start, e.brk, i);
    forall b | b in bs && b.addr != bs[i + 1].addr ensures b.addr in Addresses(now) {
      var r: nat :| r < |bs| && bs[r] == b;
      var to := if r <= i then r else r - 1;
      assert now[to].addr == b.addr && now[to] in now;
    }
    forall b | b in now ensures b.addr in Addresses(bs) && b.addr != bs[i + 1].addr {
      var r: nat :| r < |now| && now[r] == b;
      var from := if r <= i then r else r + 1;
      assert bs[from].addr == b.addr && bs[from] in bs;
      if b.addr == bs[i + 1].addr {
        Different(bs, e.start, e.brk, from, i + 1);
      }
    }
  }

  /** The addresses a release leaves: a free block behind goes, and, if the block before is
      free, so does the freed block itself. */
  lemma ReleasedAddresses(bs: seq<Block>, e: Extent, i: nat)
    requires Placed(bs, e.start, e.brk) && i < |bs|
    ensures Addresses(Released(bs, i)) ==
            Addresses(bs) - (if i + 1 < |bs| && bs[i + 1].free then {bs[i + 1].addr} else {})
                          - (if i > 0 && bs[i - 1].free then {bs[i].addr} else {})
  {
    var flagged := Flag(bs, i, true);
    FlagTiles(bs, e.start, e.brk, i, true);
    FlagAddresses(bs, i);
    var forward := MergeIf(flagged, i);
    if forward != flagged {
      MergeShape(flagged, e.start, e.brk, i);
      MergedAddresses(flagged, e, i);
    }
    if i > 0 && bs[i - 1].free {
      MergedAddresses(forward, e, i - 1);
    }
  }

  lemma FlagAddresses(bs: seq<Block>, i: nat)
    requires i < |bs|
    ensures Addresses(bs[i := bs[i].(free := true)]) == Addresses(bs)
  {
    var now := bs[i := bs[i].(free := true)];
    forall b | b in bs ensures b.addr in Addresses(now) {
      var r: nat :| r < |bs| && bs[r] == b;
      assert now[r] in now && now[r].addr == b.addr;
    }
    forall b | b in now ensures b.addr in Addresses(bs) {
      var r: nat :| r < |now| && now[r] == b;
      assert bs[r] in bs && bs[r].addr == b.addr;
    }
  }

  /**
   * When the rover survives a free: exactly unless the block before is free and the rover
   * stood on it, on the freed block, or on a free block behind.  Then it is left on a block
   * that has been swallowed.
   */
  lemma RoverSurvives(s: State, bs: seq<Block>, i: nat)
    requires Sound(s, bs) && Listed(bs, s.rover) && i < |bs| && !bs[i].free
    ensures Listed(Released(bs, i), RoverAfter(bs, i, s.rover)) <==> !(i > 0 && bs[i - 1].free && Beside(bs, i, s.rover))
  {
    var e := Extent(s.start, s.end);
    var r: nat :| IsAt(bs, r, s.rover);
    RoverIndex(s, bs, i, r);
    ReleasedAddresses(bs, e, i);
    ListedIsAddress(Released(bs, i), RoverAfter(bs, i, s.rover));
    assert bs[r] in bs && bs[i] in bs;
    if i + 1 < |bs| {
      Ordered(bs, s.start, s.end, i, i + 1);
    }
  }

  /** The rover, by index. */
  lemma RoverIndex(s: State, bs: seq<Block>, i: nat, r: nat)
    requires Sound(s, bs) && i < |bs| && IsAt(bs, r, s.rover)
    ensures Beside(bs, i, s.rover) <==> r == i || (i > 0 && r == i - 1 && bs[r].free) || (r == i + 1 && bs[r].free)
    ensures RoverAfter(bs, i, s.rover) == (if Beside(bs, i, s.rover) then bs[i].addr else s.rover)
  {
    forall k: nat | k < |bs| && bs[k].addr == s.rover ensures k == r {
      Different(bs, s.start, s.end, k, r);
    }
    if i > 0 {
      Ordered(bs, s.start, s.end, i - 1, i);
    }
  }

  /** Such a heap exists: three free-used-free blocks with the rover on the first. */
  lemma RoverLost(base: nat)
    requires base > 0
    ensures var bs := [Block(base, 8, true), Block(base + 28, 8, false), Block(base + 56, 8, true)];
            && Placed(bs, base, base + 84) && Settled(bs) && Listed(bs, base)
            && !Listed(Released(bs, 1), RoverAfter(bs, 1, base))
  {
    var bs := [Block(base, 8, true), Block(base + 28, 8, false), Block(base + 56, 8, true)];
    assert bs[1..] == [bs[1], bs[2]] && bs[1..][1..] == [bs[2]] && bs[1..][1..][1..] == [];
    assert Tiles(bs[1..][1..], base + 56, base + 84);
    assert IsAt(bs, 0, base);
    ReleasedAddresses(bs, Extent(base, base + 84), 1);
    ListedIsAddress(Released(bs, 1), RoverAfter(bs, 1, base));
    forall k: nat ensures Apart(bs, k) {
    }
  }

  // ---------- the heap ----------

  class Heap {
    var start: nat
    var end: nat
    var rover: nat
    var mem: Mem
    ghost var bs: seq<Block>

    function S(): State
      reads this
    {
      State(start, end, rover, mem)
    }

    /** heap_initialize. */
    constructor (at: nat, size: nat)
      requires at > 0 && size >= 20
      ensures Sound(S(), bs) && Listed(bs, rover) && LiveSet(bs) == {}
    {
      start, end, rover := at, at + size, at;
      mem := Put(Mem(map[], map[]), at, Header(MAGIC, size - 20, true, 0, 0));
      bs := [Block(at, size - 20, true)];
      new;
      assert bs[1..] == [] && Tiles(bs[1..], at + size, at + size);
      assert IsAt(bs, 0, at);
      forall k: nat | k < |bs| ensures LinkedAt(mem.hdr, bs, k, MAGIC) {
      }
      forall k: nat ensures Apart(bs, k) {
      }
    }

    method Alloc(size: nat) returns (p: nat, ghost blk: Block)
      requires Sound(S(), bs) && Listed(bs, rover)
      modifies this
      ensures Allocated(old(S()), S(), old(bs), bs, size, p, blk)
      ensures end == if NoFit(old(bs), |old(bs)|, Formed(size)) then old(end) + Pages(size + 20) * 4096 else old(end)
    {
      var s: State;
      p, s, bs, blk := MemAlloc(S(), size, bs);
      start, end, rover, mem := s.start, s.end, s.rover, s.mem;
    }

    /** mem_free.  It keeps the heap in order; of the rover see RoverSurvives. */
    method Free(ptr: nat, ghost i: nat)
      requires Sound(S(), bs) && (ptr != 0 ==> i < |bs| && ptr == Bottom(bs[i]))
      modifies this
      ensures Sound(S(), bs) && start == old(start) && end == old(end)
      ensures ptr == 0 || old(bs)[i].free ==> S() == old(S()) && bs == old(bs)
      ensures ptr != 0 && !old(bs)[i].free ==>
                && bs == Released(old(bs), i) && rover == RoverAfter(old(bs), i, old(rover))
                && LiveSet(bs) == LiveSet(old(bs)) - {old(bs)[i]} && Spared(old(mem), mem, LiveSet(bs))
    {
      var s: State;
      s, bs := MemFree(S(), ptr, bs, i);
      start, end, rover, mem := s.start, s.end, s.rover, s.mem;
    }
  }
}
