/**
 * Heaps made of blocks: a 20-byte header and a payload, one behind the other, linked both
 * ways.  Shared by the user-space allocator (src/usr/libs/stdlib.c) and the kernel heap
 * (src/kernel/mem/heap/heap.c).
 *
 * The blocks in address order are the abstract heap; `Rep` says that the headers in memory
 * link exactly them.
 */
module BlockList {
  datatype Block = Block(addr: nat, size: nat, free: bool)

  /** user_block_t and heap_block_t. */
  datatype Header = Header(magic: nat, size: nat, free: bool, next: nat, prev: nat)

  /** Memory: the headers, and the bytes outside them. */
  datatype Mem = Mem(hdr: map<nat, Header>, bytes: map<nat, int>)

  function Bottom(b: Block): nat { b.addr + 20 }
  function Top(b: Block): nat { b.addr + 20 + b.size }

  // ---------- tiling ----------

  /** The blocks cover [start, end) exactly, in order. */
  predicate Tiles(bs: seq<Block>, start: nat, end: nat) {
    if bs == [] then start == end else bs[0].addr == start && Tiles(bs[1..], Top(bs[0]), end)
  }

  /** Where block i starts, or the end. */
  function StartAt(bs: seq<Block>, i: nat, end: nat): nat {
    if i < |bs| then bs[i].addr else end
  }

  lemma {:induction false} TilesSplit(bs: seq<Block>, i: nat, start: nat, end: nat)
    requires Tiles(bs, start, end) && i <= |bs|
    ensures Tiles(bs[..i], start, StartAt(bs, i, end)) && Tiles(bs[i..], StartAt(bs, i, end), end)
  {
    if i > 0 {
      TilesSplit(bs[1..], i - 1, Top(bs[0]), end);
      assert bs[..i][1..] == bs[1..][..i - 1] && bs[i..] == bs[1..][i - 1..];
    } else {
      assert bs[0..] == bs && (bs == [] ==> start == end);
    }
  }

  lemma {:induction false} TilesJoin(a: seq<Block>, b: seq<Block>, start: nat, mid: nat, end: nat)
    requires Tiles(a, start, mid) && Tiles(b, mid, end)
    ensures Tiles(a + b, start, end)
  {
    if a == [] {
      assert a + b == b;
    } else {
      TilesJoin(a[1..], b, Top(a[0]), mid, end);
      assert (a + b)[1..] == a[1..] + b;
    }
  }

  lemma {:induction false} TilesGrow(bs: seq<Block>, start: nat, end: nat)
    requires Tiles(bs, start, end)
    ensures start <= end && (bs != [] ==> start + 20 <= end)
  {
    if bs != [] {
      TilesGrow(bs[1..], Top(bs[0]), end);
    }
  }

  /** Blocks lie in order, without overlap, inside the heap. */
  lemma {:induction false} Ordered(bs: seq<Block>, start: nat, end: nat, i: nat, j: nat)
    requires Tiles(bs, start, end) && i < j < |bs|
    ensures Top(bs[i]) <= bs[j].addr
  {
    if i == 0 {
      Inside(bs[1..], Top(bs[0]), end, j - 1);
    } else {
      Ordered(bs[1..], Top(bs[0]), end, i - 1, j - 1);
    }
  }

  lemma {:induction false} Inside(bs: seq<Block>, start: nat, end: nat, i: nat)
    requires Tiles(bs, start, end) && i < |bs|
    ensures start <= bs[i].addr && Top(bs[i]) <= end
  {
    if i == 0 {
      TilesGrow(bs[1..], Top(bs[0]), end);
    } else {
      Inside(bs[1..], Top(bs[0]), end, i - 1);
    }
  }

  /** Neighbours touch. */
  lemma {:induction false} Touch(bs: seq<Block>, start: nat, end: nat, i: nat)
    requires Tiles(bs, start, end) && i < |bs|
    ensures Top(bs[i]) == StartAt(bs, i + 1, end)
  {
    if i > 0 {
      Touch(bs[1..], Top(bs[0]), end, i - 1);
    } else if |bs| > 1 {
      assert bs[1..][0] == bs[1];
    }
  }

  /** No two neighbours are both free. */
  predicate Apart(bs: seq<Block>, i: nat) {
    i + 1 < |bs| ==> !(bs[i].free && bs[i + 1].free)
  }

  ghost predicate Settled(bs: seq<Block>) {
    forall i: nat {:trigger Apart(bs, i)} :: Apart(bs, i)
  }

  // ---------- replacing blocks ----------

  /** Blocks i..j replaced by mid. */
  function Splice(bs: seq<Block>, i: nat, j: nat, mid: seq<Block>): seq<Block>
    requires i <= j <= |bs|
  {
    bs[..i] + mid + bs[j..]
  }

  lemma SpliceTiles(bs: seq<Block>, i: nat, j: nat, mid: seq<Block>, start: nat, end: nat)
    requires Tiles(bs, start, end) && i <= j <= |bs|
    requires Tiles(mid, StartAt(bs, i, end), StartAt(bs, j, end))
    ensures Tiles(Splice(bs, i, j, mid), start, end)
  {
    TilesSplit(bs, i, start, end);
    TilesSplit(bs, j, start, end);
    TilesJoin(mid, bs[j..], StartAt(bs, i, end), StartAt(bs, j, end), end);
    TilesJoin(bs[..i], mid + bs[j..], start, StartAt(bs, i, end), end);
    assert bs[..i] + (mid + bs[j..]) == Splice(bs, i, j, mid);
  }

  /** The blocks in use. */
  function LiveSet(bs: seq<Block>): set<Block> {
    set b | b in bs && !b.free
  }

  lemma SpliceLive(bs: seq<Block>, i: nat, j: nat, mid: seq<Block>, start: nat, end: nat)
    requires Tiles(bs, start, end) && i <= j <= |bs|
    ensures LiveSet(Splice(bs, i, j, mid)) == LiveSet(bs) - LiveSet(bs[i..j]) + LiveSet(mid)
  {
    var now := Splice(bs, i, j, mid);
    forall b | b in LiveSet(bs[..i]) || b in LiveSet(bs[j..]) ensures b !in bs[i..j] {
      NotInside(bs, i, j, start, end, b);
    }
    assert bs == bs[..i] + bs[i..j] + bs[j..];
  }

  lemma NotInside(bs: seq<Block>, i: nat, j: nat, start: nat, end: nat, b: Block)
    requires Tiles(bs, start, end) && i <= j <= |bs| && (b in bs[..i] || b in bs[j..])
    ensures b !in bs[i..j]
  {
    if b in bs[i..j] {
      var k :| i <= k < j && bs[k] == b;
      if b in bs[..i] {
        var l :| 0 <= l < i && bs[l] == b;
        Ordered(bs, start, end, l, k);
      } else {
        var l :| j <= l < |bs| && bs[l] == b;
        Ordered(bs, start, end, k, l);
      }
    }
  }

  /** Live blocks are those at some index. */
  lemma LiveAt(bs: seq<Block>, b: Block) returns (i: nat)
    requires b in LiveSet(bs)
    ensures i < |bs| && bs[i] == b && !b.free
  {
    i :| i < |bs| && bs[i] == b;
  }

  // ---------- free space in one piece ----------

  /** The byte at address a belongs to a free block, header included. */
  ghost predicate FreeByte(bs: seq<Block>, a: int) {
    exists i :: 0 <= i < |bs| && Covers(bs, i, a) && bs[i].free
  }

  predicate Covers(bs: seq<Block>, i: int, a: int)
    requires 0 <= i < |bs|
  {
    bs[i].addr <= a < Top(bs[i])
  }

  /**
   * With no two free neighbours, a run of free bytes lies in one free block.  So when no free
   * block has a payload of n bytes, no n + 20 bytes in a row are free.
   */
  lemma {:induction false} FreeRunInOneBlock(bs: seq<Block>, start: nat, end: nat, lo: int, hi: int) returns (i: nat)
    requires Tiles(bs, start, end) && Settled(bs) && lo < hi
    requires forall a :: lo <= a < hi ==> FreeByte(bs, a)
    ensures i < |bs| && bs[i].free && bs[i].addr <= lo && hi <= Top(bs[i])
    decreases hi - lo
  {
    if lo + 1 == hi {
      assert FreeByte(bs, lo);
      i :| i < |bs| && Covers(bs, i, lo) && bs[i].free;
    } else {
      i := FreeRunInOneBlock(bs, start, end, lo, hi - 1);
      assert FreeByte(bs, hi - 1);
      var k :| 0 <= k < |bs| && Covers(bs, k, hi - 1) && bs[k].free;
      if k < i {
        Ordered(bs, start, end, k, i);
      } else if i < k {
        Ordered(bs, start, end, i, k);
        Touch(bs, start, end, i);
        assert Apart(bs, i);
        if i + 1 < k {
          Ordered(bs, start, end, i + 1, k);
        }
      }
    }
  }
}
