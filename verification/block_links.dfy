/**
 * Relinking the headers of a block heap: each pointer operation of the two allocators,
 * proved to replace the blocks it claims to and to spare every payload in use.
 */
module BlockLinks {
  import opened BlockList

  // ---------- what the headers say ----------

  function NextOf(bs: seq<Block>, i: nat): nat { if i + 1 < |bs| then bs[i + 1].addr else 0 }

  function PrevOf(bs: seq<Block>, i: nat): nat
    requires i < |bs|
  {
    if i > 0 then bs[i - 1].addr else 0
  }

  function Node(bs: seq<Block>, i: nat, magic: nat): Header
    requires i < |bs|
  {
    Header(magic, bs[i].size, bs[i].free, NextOf(bs, i), PrevOf(bs, i))
  }

  ghost predicate LinkedAt(hdr: map<nat, Header>, bs: seq<Block>, i: nat, magic: nat)
    requires i < |bs|
  {
    bs[i].addr in hdr && hdr[bs[i].addr] == Node(bs, i, magic)
  }

  /** The headers link exactly the blocks, both ways, from `head` on. */
  ghost predicate Rep(hdr: map<nat, Header>, head: nat, bs: seq<Block>, magic: nat) {
    && head == (if bs == [] then 0 else bs[0].addr)
    && forall i: nat {:trigger LinkedAt(hdr, bs, i, magic)} :: i < |bs| ==> LinkedAt(hdr, bs, i, magic)
  }

  /** Address 0 is no block. */
  ghost predicate Placed(bs: seq<Block>, start: nat, end: nat) { Tiles(bs, start, end) && start > 0 }

  lemma Nonzero(bs: seq<Block>, start: nat, end: nat, i: nat)
    requires Placed(bs, start, end) && i < |bs|
    ensures bs[i].addr > 0
  {
    Inside(bs, start, end, i);
  }

  lemma Different(bs: seq<Block>, start: nat, end: nat, i: nat, j: nat)
    requires Placed(bs, start, end) && i < |bs| && j < |bs| && bs[i].addr == bs[j].addr
    ensures i == j
  {
    if i < j {
      Ordered(bs, start, end, i, j);
    } else if j < i {
      Ordered(bs, start, end, j, i);
    }
  }

  // ---------- bytes ----------

  /** Writing a header overwrites the 20 bytes it occupies. */
  function Put(m: Mem, a: nat, h: Header): Mem {
    Mem(m.hdr[a := h], map x | x in m.bytes && !(a <= x < a + 20) :: m.bytes[x])
  }

  /** Every byte of [lo, hi) that was stored is still there. */
  ghost predicate Kept(m: Mem, m': Mem, lo: int, hi: int) {
    forall a {:trigger a in m'.bytes} {:trigger m'.bytes[a]} ::
      lo <= a < hi && a in m.bytes ==> a in m'.bytes && m'.bytes[a] == m.bytes[a]
  }

  /** The payloads in use, as m' has them, hold what they held in m. */
  ghost predicate KeepsLive(m: Mem, m': Mem, bs: seq<Block>) {
    forall i: nat {:trigger LiveKept(m, m', bs, i)} :: i < |bs| ==> LiveKept(m, m', bs, i)
  }

  ghost predicate LiveKept(m: Mem, m': Mem, bs: seq<Block>, i: nat)
    requires i < |bs|
  {
    !bs[i].free ==> Kept(m, m', Bottom(bs[i]), Top(bs[i]))
  }

  lemma PutKeeps(m: Mem, a: nat, h: Header, lo: int, hi: int)
    requires hi <= a || a + 20 <= lo
    ensures Kept(m, Put(m, a, h), lo, hi)
  {
  }

  lemma KeptTwice(m: Mem, m1: Mem, m2: Mem, lo: int, hi: int)
    requires Kept(m, m1, lo, hi) && Kept(m1, m2, lo, hi)
    ensures Kept(m, m2, lo, hi)
  {
    forall a | lo <= a < hi && a in m.bytes ensures a in m2.bytes && m2.bytes[a] == m.bytes[a] {
      assert a in m1.bytes;
    }
  }

  /** No payload overlaps a header. */
  lemma HeaderApart(bs: seq<Block>, start: nat, end: nat, i: nat, k: nat)
    requires Placed(bs, start, end) && i < |bs| && k < |bs|
    ensures Top(bs[k]) <= bs[i].addr || bs[i].addr + 20 <= Bottom(bs[k])
  {
    if k < i {
      Ordered(bs, start, end, k, i);
    } else if i < k {
      Ordered(bs, start, end, i, k);
    }
  }

  /** Writing the header of a block spares every payload in use. */
  lemma PutKeepsLive(m: Mem, bs: seq<Block>, start: nat, end: nat, i: nat, h: Header)
    requires Placed(bs, start, end) && i < |bs|
    ensures KeepsLive(m, Put(m, bs[i].addr, h), bs)
  {
    forall k: nat | k < |bs| ensures LiveKept(m, Put(m, bs[i].addr, h), bs, k) {
      HeaderApart(bs, start, end, i, k);
      PutKeeps(m, bs[i].addr, h, Bottom(bs[k]), Top(bs[k]));
    }
  }

  lemma KeepsTwice(m: Mem, m1: Mem, m2: Mem, bs: seq<Block>)
    requires KeepsLive(m, m1, bs) && KeepsLive(m1, m2, bs)
    ensures KeepsLive(m, m2, bs)
  {
    forall k: nat | k < |bs| ensures LiveKept(m, m2, bs, k) {
      assert LiveKept(m, m1, bs, k) && LiveKept(m1, m2, bs, k);
      if !bs[k].free {
        KeptTwice(m, m1, m2, Bottom(bs[k]), Top(bs[k]));
      }
    }
  }

  // ---------- one flag ----------

  /** A block marked free or used. */
  function Flag(bs: seq<Block>, i: nat, free: bool): seq<Block>
    requires i < |bs|
  {
    Splice(bs, i, i + 1, [bs[i].(free := free)])
  }

  lemma FlagTiles(bs: seq<Block>, start: nat, end: nat, i: nat, free: bool)
    requires Placed(bs, start, end) && i < |bs|
    ensures Placed(Flag(bs, i, free), start, end) && Flag(bs, i, free) == bs[i := bs[i].(free := free)]
  {
    var mid := [bs[i].(free := free)];
    Touch(bs, start, end, i);
    assert mid[1..] == [];
    SpliceTiles(bs, i, i + 1, mid, start, end);
  }

  method SetFree(m: Mem, a: nat, free: bool, magic: nat, ghost head: nat, ghost bs: seq<Block>, ghost i: nat, ghost start: nat, ghost end: nat)
    returns (m': Mem)
    requires Rep(m.hdr, head, bs, magic) && Placed(bs, start, end) && i < |bs| && a == bs[i].addr
    ensures Rep(m'.hdr, head, Flag(bs, i, free), magic) && Placed(Flag(bs, i, free), start, end)
    ensures KeepsLive(m, m', Flag(bs, i, free))
  {
    assert LinkedAt(m.hdr, bs, i, magic);
    m' := Put(m, a, m.hdr[a].(free := free));
    ghost var now := Flag(bs, i, free);
    FlagTiles(bs, start, end, i, free);
    PutKeepsLive(m, now, start, end, i, m.hdr[a].(free := free));
    forall k: nat | k < |now| ensures LinkedAt(m'.hdr, now, k, magic) {
      assert LinkedAt(m.hdr, bs, k, magic);
      if k != i && bs[k].addr == bs[i].addr {
        Different(bs, start, end, k, i);
      }
    }
  }

  // ---------- splitting ----------

  /** A block cut after n bytes of payload; the rest becomes a free block. */
  function Halves(b: Block, n: nat): seq<Block>
    requires n + 20 <= b.size
  {
    [b.(size := n), Block(b.addr + 20 + n, b.size - n - 20, true)]
  }

  function Cut(bs: seq<Block>, i: nat, n: nat): seq<Block>
    requires i < |bs| && n + 20 <= bs[i].size
  {
    Splice(bs, i, i + 1, Halves(bs[i], n))
  }

  lemma CutShape(bs: seq<Block>, start: nat, end: nat, i: nat, n: nat)
    requires Placed(bs, start, end) && i < |bs| && n + 20 <= bs[i].size
    ensures var now := Cut(bs, i, n);
            && Placed(now, start, end) && |now| == |bs| + 1
            && now[i] == Halves(bs[i], n)[0] && now[i + 1] == Halves(bs[i], n)[1]
            && (forall k: nat :: k < i ==> now[k] == bs[k])
            && (forall k: nat :: i + 2 <= k < |now| ==> now[k] == bs[k - 1])
  {
    var mid := Halves(bs[i], n);
    Touch(bs, start, end, i);
    assert mid[1..] == [mid[1]] && mid[1..][1..] == [];
    SpliceTiles(bs, i, i + 1, mid, start, end);
  }

  /** The split of malloc, realloc and mem_alloc. */
  method SplitBlock(m: Mem, a: nat, n: nat, magic: nat, ghost head: nat, ghost bs: seq<Block>, ghost i: nat, ghost start: nat, ghost end: nat)
    returns (m': Mem)
    requires Rep(m.hdr, head, bs, magic) && Placed(bs, start, end)
    requires i < |bs| && a == bs[i].addr && n + 20 <= bs[i].size
    ensures Rep(m'.hdr, head, Cut(bs, i, n), magic) && Placed(Cut(bs, i, n), start, end)
    ensures KeepsLive(m, m', Cut(bs, i, n))
  {
    ghost var now := Cut(bs, i, n);
    CutShape(bs, start, end, i, n);
    assert LinkedAt(m.hdr, bs, i, magic);
    Nonzero(bs, start, end, i);
    var curr := m.hdr[a];
    var split := a + 20 + n;
    m' := Put(m, split, Header(magic, curr.size - n - 20, true, curr.next, a));
    PutKeepsLive(m, now, start, end, i + 1, m'.hdr[split]);
    if curr.next != 0 {
      assert LinkedAt(m.hdr, bs, i + 1, magic);
      Ordered(bs, start, end, i, i + 1);
      ghost var before := m';
      m' := Put(m', curr.next, m'.hdr[curr.next].(prev := split));
      PutKeepsLive(before, now, start, end, i + 2, m'.hdr[curr.next]);
      KeepsTwice(m, before, m', now);
    } else {
      LastHasNoNext(bs, start, end, i);
    }
    ghost var before := m';
    m' := Put(m', a, curr.(next := split, size := n));
    PutKeepsLive(before, now, start, end, i, m'.hdr[a]);
    KeepsTwice(m, before, m', now);
    RelinkedCut(m.hdr, m'.hdr, head, bs, i, n, magic, start, end);
  }

  lemma LastHasNoNext(bs: seq<Block>, start: nat, end: nat, i: nat)
    requires Placed(bs, start, end) && i < |bs| && NextOf(bs, i) == 0
    ensures i + 1 == |bs|
  {
    if i + 1 < |bs| {
      Nonzero(bs, start, end, i + 1);
    }
  }

  /** The headers after a split. */
  lemma RelinkedCut(hdr: map<nat, Header>, hdr': map<nat, Header>, head: nat, bs: seq<Block>, i: nat, n: nat, magic: nat, start: nat, end: nat)
    requires Rep(hdr, head, bs, magic) && Placed(bs, start, end) && i < |bs| && n + 20 <= bs[i].size
    requires var split := bs[i].addr + 20 + n;
             && hdr'.Keys == hdr.Keys + {split} && bs[i].addr in hdr && (i + 1 < |bs| ==> bs[i + 1].addr in hdr)
             && hdr'[split] == Header(magic, bs[i].size - n - 20, true, NextOf(bs, i), bs[i].addr)
             && hdr'[bs[i].addr] == Node(bs, i, magic).(next := split, size := n)
             && (i + 1 < |bs| ==> hdr'[bs[i + 1].addr] == Node(bs, i + 1, magic).(prev := split))
             && forall x :: x in hdr && x != split && x != bs[i].addr && !(i + 1 < |bs| && x == bs[i + 1].addr) ==> hdr'[x] == hdr[x]
    ensures Rep(hdr', head, Cut(bs, i, n), magic)
  {
    var now := Cut(bs, i, n);
    CutShape(bs, start, end, i, n);
    if i + 1 < |bs| {
      Ordered(bs, start, end, i, i + 1);
    }
    forall k: nat | k < |now| ensures LinkedAt(hdr', now, k, magic) {
      if k < i {
        CutBefore(hdr, hdr', head, bs, i, n, magic, start, end, k);
      } else if i + 2 < k {
        CutBehind(hdr, hdr', head, bs, i, n, magic, start, end, k);
      }
    }
  }

  lemma CutBefore(hdr: map<nat, Header>, hdr': map<nat, Header>, head: nat, bs: seq<Block>, i: nat, n: nat, magic: nat, start: nat, end: nat, k: nat)
    requires Rep(hdr, head, bs, magic) && Placed(bs, start, end) && k < i < |bs| && n + 20 <= bs[i].size
    requires hdr.Keys <= hdr'.Keys
    requires forall x :: x in hdr && x < bs[i].addr ==> hdr'[x] == hdr[x]
    ensures k < |Cut(bs, i, n)| && LinkedAt(hdr', Cut(bs, i, n), k, magic)
  {
    CutShape(bs, start, end, i, n);
    assert LinkedAt(hdr, bs, k, magic);
    Ordered(bs, start, end, k, i);
  }

  lemma CutBehind(hdr: map<nat, Header>, hdr': map<nat, Header>, head: nat, bs: seq<Block>, i: nat, n: nat, magic: nat, start: nat, end: nat, k: nat)
    requires Rep(hdr, head, bs, magic) && Placed(bs, start, end) && i < |bs| && n + 20 <= bs[i].size && i + 2 < k <= |bs|
    requires hdr.Keys <= hdr'.Keys
    requires forall x :: x in hdr && i + 1 < |bs| && x > bs[i + 1].addr ==> hdr'[x] == hdr[x]
    ensures k < |Cut(bs, i, n)| && LinkedAt(hdr', Cut(bs, i, n), k, magic)
  {
    CutShape(bs, start, end, i, n);
    assert LinkedAt(hdr, bs, k - 1, magic);
    Ordered(bs, start, end, i + 1, k - 1);
  }

  // ---------- merging ----------

  /** A block with the next one swallowed, header and all. */
  function Joined(a: Block, b: Block): Block { a.(size := a.size + 20 + b.size) }

  function Merge(bs: seq<Block>, i: nat): seq<Block>
    requires i + 1 < |bs|
  {
    Splice(bs, i, i + 2, [Joined(bs[i], bs[i + 1])])
  }

  lemma MergeShape(bs: seq<Block>, start: nat, end: nat, i: nat)
    requires Placed(bs, start, end) && i + 1 < |bs|
    ensures var now := Merge(bs, i);
            && Placed(now, start, end) && |now| == |bs| - 1 && now[i] == Joined(bs[i], bs[i + 1])
            && (forall k: nat :: k < i ==> now[k] == bs[k])
            && (forall k: nat :: i < k < |now| ==> now[k] == bs[k + 1])
  {
    var mid := [Joined(bs[i], bs[i + 1])];
    Touch(bs, start, end, i);
    Touch(bs, start, end, i + 1);
    assert mid[1..] == [];
    SpliceTiles(bs, i, i + 2, mid, start, end);
  }

  /** Swallowing the next block: the coalescing of free, realloc, mem_free and heap_expand. */
  method MergeNext(m: Mem, a: nat, magic: nat, ghost head: nat, ghost bs: seq<Block>, ghost i: nat, ghost start: nat, ghost end: nat)
    returns (m': Mem)
    requires Rep(m.hdr, head, bs, magic) && Placed(bs, start, end) && i + 1 < |bs| && a == bs[i].addr
    ensures Rep(m'.hdr, head, Merge(bs, i), magic) && Placed(Merge(bs, i), start, end)
    ensures KeepsLive(m, m', Merge(bs, i))
  {
    ghost var now := Merge(bs, i);
    MergeShape(bs, start, end, i);
    assert LinkedAt(m.hdr, bs, i, magic) && LinkedAt(m.hdr, bs, i + 1, magic);
    Ordered(bs, start, end, i, i + 1);
    var curr := m.hdr[a];
    var next := m.hdr[curr.next];
    m' := Put(m, a, curr.(size := curr.size + 20 + next.size, next := next.next));
    PutKeepsLive(m, now, start, end, i, m'.hdr[a]);
    if next.next != 0 {
      assert LinkedAt(m.hdr, bs, i + 2, magic);
      Ordered(bs, start, end, i, i + 2);
      ghost var before := m';
      m' := Put(m', next.next, m'.hdr[next.next].(prev := a));
      PutKeepsLive(before, now, start, end, i + 1, m'.hdr[next.next]);
      KeepsTwice(m, before, m', now);
    } else {
      LastHasNoNext(bs, start, end, i + 1);
    }
    RelinkedMerge(m.hdr, m'.hdr, head, bs, i, magic, start, end);
  }

  lemma RelinkedMerge(hdr: map<nat, Header>, hdr': map<nat, Header>, head: nat, bs: seq<Block>, i: nat, magic: nat, start: nat, end: nat)
    requires Rep(hdr, head, bs, magic) && Placed(bs, start, end) && i + 1 < |bs|
    requires && hdr'.Keys == hdr.Keys && bs[i].addr in hdr && (i + 2 < |bs| ==> bs[i + 2].addr in hdr)
             && hdr'[bs[i].addr] == Node(bs, i, magic).(size := Joined(bs[i], bs[i + 1]).size, next := NextOf(bs, i + 1))
             && (i + 2 < |bs| ==> hdr'[bs[i + 2].addr] == Node(bs, i + 2, magic).(prev := bs[i].addr))
             && forall x :: x in hdr && x != bs[i].addr && !(i + 2 < |bs| && x == bs[i + 2].addr) ==> hdr'[x] == hdr[x]
    ensures Rep(hdr', head, Merge(bs, i), magic)
  {
    var now := Merge(bs, i);
    MergeShape(bs, start, end, i);
    if i + 2 < |bs| {
      Ordered(bs, start, end, i, i + 2);
    }
    forall k: nat | k < |now| ensures LinkedAt(hdr', now, k, magic) {
      if k < i {
        assert LinkedAt(hdr, bs, k, magic);
        Ordered(bs, start, end, k, i);
      } else if i + 1 < k {
        assert LinkedAt(hdr, bs, k + 1, magic);
        Ordered(bs, start, end, i + 2, k + 1);
      }
    }
  }

  // ---------- appending ----------

  function Append(bs: seq<Block>, end: nat, size: nat, free: bool): seq<Block> {
    bs + [Block(end, size, free)]
  }

  lemma AppendTiles(bs: seq<Block>, start: nat, end: nat, size: nat, free: bool)
    requires Tiles(bs, start, end)
    ensures Tiles(Append(bs, end, size, free), start, end + 20 + size)
  {
    var mid := [Block(end, size, free)];
    assert mid[1..] == [];
    TilesJoin(bs, mid, start, end, end + 20 + size);
  }

  /** The last block, found by following the links. */
  method FindTail(m: Mem, head: nat, magic: nat, ghost bs: seq<Block>, ghost start: nat, ghost end: nat) returns (tail: nat)
    requires Rep(m.hdr, head, bs, magic) && Placed(bs, start, end) && bs != []
    ensures tail == bs[|bs| - 1].addr
  {
    tail := head;
    ghost var i: nat := 0;
    assert LinkedAt(m.hdr, bs, 0, magic);
    while m.hdr[tail].next != 0
      invariant i < |bs| && tail == bs[i].addr && LinkedAt(m.hdr, bs, i, magic)
      decreases |bs| - i
    {
      assert i + 1 < |bs| && LinkedAt(m.hdr, bs, i + 1, magic);
      tail := m.hdr[tail].next;
      i := i + 1;
    }
    LastHasNoNext(bs, start, end, i);
  }

  /** A new block at the end of the heap, linked behind the last one. */
  method AppendBlock(m: Mem, head0: nat, addr: nat, size: nat, free: bool, magic: nat, ghost bs: seq<Block>, ghost start: nat)
    returns (m': Mem, head: nat)
    requires Rep(m.hdr, head0, bs, magic) && Placed(bs, start, addr) && addr > 0
    ensures Rep(m'.hdr, head, Append(bs, addr, size, free), magic)
    ensures Placed(Append(bs, addr, size, free), start, addr + 20 + size)
    ensures KeepsLive(m, m', bs)
  {
    ghost var end := addr + 20 + size;
    ghost var now := Append(bs, addr, size, free);
    AppendTiles(bs, start, addr, size, free);
    head := head0;
    m' := Put(m, addr, Header(magic, size, free, 0, 0));
    PutKeepsLive(m, now, start, end, |bs|, m'.hdr[addr]);
    if head == 0 {
      EmptyHeap(bs, start, addr);
      head := addr;
    } else {
      ghost var before := m';
      var tail := FindTail(m, head, magic, bs, start, addr);
      assert LinkedAt(m.hdr, bs, |bs| - 1, magic);
      Ordered(now, start, end, |bs| - 1, |bs|);
      m' := Put(m', tail, m'.hdr[tail].(next := addr));
      PutKeepsLive(before, now, start, end, |bs| - 1, m'.hdr[tail]);
      KeepsTwice(m, before, m', now);
      before := m';
      m' := Put(m', addr, m'.hdr[addr].(prev := tail));
      PutKeepsLive(before, now, start, end, |bs|, m'.hdr[addr]);
      KeepsTwice(m, before, m', now);
    }
    RelinkedAppend(m.hdr, m'.hdr, head0, bs, addr, size, free, magic, start);
    KeepsShorter(m, m', bs, now);
  }

  lemma KeepsShorter(m: Mem, m': Mem, bs: seq<Block>, more: seq<Block>)
    requires KeepsLive(m, m', more) && bs <= more
    ensures KeepsLive(m, m', bs)
  {
    forall i: nat | i < |bs| ensures LiveKept(m, m', bs, i) {
      assert LiveKept(m, m', more, i);
    }
  }

  lemma EmptyHeap(bs: seq<Block>, start: nat, end: nat)
    requires Placed(bs, start, end) && (if bs == [] then 0 else bs[0].addr) == 0
    ensures bs == []
  {
  }

  lemma RelinkedAppend(hdr: map<nat, Header>, hdr': map<nat, Header>, head: nat, bs: seq<Block>, addr: nat, size: nat, free: bool, magic: nat, start: nat)
    requires Rep(hdr, head, bs, magic) && Placed(bs, start, addr)
    requires && hdr'.Keys == hdr.Keys + {addr}
             && hdr'[addr] == Header(magic, size, free, 0, if bs == [] then 0 else bs[|bs| - 1].addr)
             && (bs != [] ==> bs[|bs| - 1].addr in hdr && hdr'[bs[|bs| - 1].addr] == Node(bs, |bs| - 1, magic).(next := addr))
             && forall x :: x in hdr && x != addr && !(bs != [] && x == bs[|bs| - 1].addr) ==> hdr'[x] == hdr[x]
    ensures Rep(hdr', if bs == [] then addr else head, Append(bs, addr, size, free), magic)
  {
    var now := Append(bs, addr, size, free);
    AppendTiles(bs, start, addr, size, free);
    forall k: nat | k < |now| ensures LinkedAt(hdr', now, k, magic) {
      if k < |bs| {
        Ordered(now, start, addr + 20 + size, k, |bs|);
        assert LinkedAt(hdr, bs, k, magic);
        if k + 1 < |bs| {
          Ordered(bs, start, addr, k, |bs| - 1);
        }
      }
    }
  }
}
