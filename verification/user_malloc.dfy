/**
 * malloc, free, calloc and realloc of src/usr/libs/stdlib.c, as operations on the set of
 * blocks in use.
 */
module UserMalloc {
  import opened Common
  import opened BlockList
  import opened BlockLinks
  import opened BlockHeap
  import opened UserHeap

  /** heap_head, memory, the task's break, and the frames the kernel has left. */
  datatype State = State(head: nat, mem: Mem, brk: Extent, frames: nat)

  ghost predicate InSpace(b: Extent) {
    if b.brk == 0 then b.start < TOP_OF_HEAP else b.start <= b.brk < TOP_OF_HEAP
  }

  ghost predicate Sound(s: State, bs: seq<Block>) {
    && Rep(s.mem.hdr, s.head, bs, MAGIC) && Good(bs, Begun(s.brk))
    && InSpace(s.brk) && (bs != [] ==> s.brk.brk != 0)
  }

  /** Requests stay below 2^31, chunk header and alignment included. */
  predicate Modest(size: nat) { size <= 0x7FFF_FF00 }

  // ---------- malloc ----------

  method FindFit(m: Mem, head: nat, n: nat, ghost bs: seq<Block>, ghost b: Extent) returns (curr: nat, ghost i: nat)
    requires Rep(m.hdr, head, bs, MAGIC) && (bs != [] ==> Placed(bs, b.start, b.brk))
    ensures i <= |bs| && NoFit(bs, i, n)
    ensures if i < |bs| then curr == bs[i].addr && Fits(bs[i], n) else curr == 0
  {
    curr, i := head, 0;
    while curr != 0
      invariant i <= |bs| && NoFit(bs, i, n)
      invariant if i < |bs| then curr == bs[i].addr else curr == 0
      decreases |bs| - i
    {
      assert LinkedAt(m.hdr, bs, i, MAGIC);
      if m.hdr[curr].free && m.hdr[curr].size >= n {
        return;
      }
      curr := m.hdr[curr].next;
      i := i + 1;
    }
    if i < |bs| {
      Nonzero(bs, b.start, b.brk, i);
    }
  }

  /** A chunk fresh from sbrk, linked in and cut to size. */
  method GrowHeap(m: Mem, head0: nat, addr: nat, n: nat, ghost bs: seq<Block>, ghost b: Extent)
    returns (m': Mem, head: nat, ghost now: seq<Block>)
    requires Rep(m.hdr, head0, bs, MAGIC) && Good(bs, b) && addr == b.brk
    ensures var b' := b.(brk := addr + Chunk(n));
            Rep(m'.hdr, head, now, MAGIC) && Good(now, b') && now != []
    ensures Spared(m, m', LiveSet(bs))
    ensures var blk := Taken(Block(addr, Chunk(n) - 20, false), n, SPARE);
            LiveSet(now) == LiveSet(bs) + {blk} && blk !in LiveSet(bs)
  {
    ghost var b' := b.(brk := addr + Chunk(n));
    var size := Chunk(n) - 20;
    Inhabited(bs, b);
    m', head := AppendBlock(m, head0, addr, size, false, MAGIC, bs, b.start);
    ghost var mid := m';
    ghost var longer := Append(bs, addr, size, false);
    SparedLive(m, mid, bs);
    AppendedLive(bs, b, addr, size);
    AppendSettled(bs, addr, size);
    m' := TrimUsed(m', head, addr, n, MAGIC, SPARE, longer, b', |bs|);
    now := Take(longer, |bs|, n, SPARE);
    SparedLive(mid, m', now);
    SparedLess(mid, m', LiveSet(now), LiveSet(bs));
    SparedTwice(m, mid, m', LiveSet(bs));
  }


  /** What a malloc of size bytes did: nothing, or one more block in use. */
  ghost predicate Allocated(s: State, s': State, bs: seq<Block>, bs': seq<Block>, size: nat, p: nat, blk: Block) {
    && Spared(s.mem, s'.mem, LiveSet(bs))
    && (p == 0 <==> size == 0 || OutOfMemory(s, bs, AlignUp(size)))
    && (p == 0 ==> bs' == bs && s'.mem == s.mem)
    && (p != 0 ==> size > 0 && p == Bottom(blk) && blk.size >= size && blk !in LiveSet(bs) && LiveSet(bs') == LiveSet(bs) + {blk})
    && (Begun(s'.brk) != Begun(s.brk) ==> p != 0 && NoFit(bs, |bs|, AlignUp(size)))
  }

  /** No free block fits, and the system call refuses. */
  ghost predicate OutOfMemory(s: State, bs: seq<Block>, n: nat) {
    NoFit(bs, |bs|, n) && SbrkSpec(s.brk, Chunk(n), s.frames).0.None?
  }

  lemma AlignUpBounds(size: nat)
    requires Modest(size)
    ensures size <= AlignUp(size) <= size + 7 && AlignUp(size) % 8 == 0 && Chunk(AlignUp(size)) < 0x8000_0000
  {
  }

  lemma SbrkGrows(s: State, chunk: nat)
    requires InSpace(s.brk) && 0 < chunk < 0x8000_0000
    ensures var (r, b) := SbrkSpec(s.brk, chunk, s.frames);
            var was := Begun(s.brk);
            && InSpace(b) && b.brk != 0 && was.brk > 0
            && (r.Some? ==> r == Some(was.brk) && b == was.(brk := was.brk + chunk))
            && (r.None? ==> b == was)
  {
  }

  lemma FittingPointer(bs: seq<Block>, b: Extent, i: nat)
    requires Placed(bs, b.start, b.brk) && i < |bs|
    ensures bs[i].free ==> bs[i].(free := false) !in LiveSet(bs) && forall n :: Taken(bs[i], n, SPARE) !in LiveSet(bs)
  {
    if bs[i].free {
      forall x | x in LiveSet(bs) ensures x.addr != bs[i].addr {
        var k := LiveAt(bs, x);
        if k != i && x.addr == bs[i].addr {
          Different(bs, b.start, b.brk, k, i);
        }
      }
    }
  }

  /** malloc. */
  method MallocStep(s: State, size: nat, ghost bs: seq<Block>) returns (p: nat, s': State, ghost bs': seq<Block>, ghost blk: Block)
    requires Sound(s, bs) && Modest(size)
    ensures Sound(s', bs') && Allocated(s, s', bs, bs', size, p, blk)
    ensures size == 0 ==> p == 0
  {
    p, s', bs', blk := 0, s, bs, Block(0, 0, false);
    KeepsItself(s.mem, bs);
    SparedLive(s.mem, s.mem, bs);
    if size == 0 {
      return;
    }
    var n := AlignUp(size);
    AlignUpBounds(size);
    var curr;
    ghost var i;
    curr, i := FindFit(s.mem, s.head, n, bs, Begun(s.brk));
    if curr != 0 {
      var m := UseFree(s.mem, s.head, curr, n, MAGIC, SPARE, bs, Begun(s.brk), i);
      s' := s.(mem := m);
      p, bs', blk := curr + 20, Take(bs, i, n, SPARE), Taken(bs[i], n, SPARE);
      FittingPointer(bs, Begun(s.brk), i);
    } else {
      ExhaustedSearch(bs, Begun(s.brk), i);
      p, s', bs', blk := MallocGrow(s, n, bs);
    }
  }

  lemma ExhaustedSearch(bs: seq<Block>, b: Extent, i: nat)
    requires Placed(bs, b.start, b.brk) && i <= |bs| && (i < |bs| ==> bs[i].addr == 0)
    ensures i == |bs|
  {
    if i < |bs| {
      Nonzero(bs, b.start, b.brk, i);
    }
  }

  /** The half of malloc that asks the kernel for a chunk. */
  method MallocGrow(s: State, n: nat, ghost bs: seq<Block>) returns (p: nat, s': State, ghost bs': seq<Block>, ghost blk: Block)
    requires Sound(s, bs) && 0 < n && Chunk(n) < 0x8000_0000
    ensures Sound(s', bs') && Spared(s.mem, s'.mem, LiveSet(bs))
    ensures p == 0 <==> SbrkSpec(s.brk, Chunk(n), s.frames).0.None?
    ensures p == 0 ==> bs' == bs && s'.mem == s.mem
    ensures p != 0 ==> p == Bottom(blk) && blk.size >= n && blk !in LiveSet(bs) && LiveSet(bs') == LiveSet(bs) + {blk}
    ensures p == 0 ==> Begun(s'.brk) == Begun(s.brk)
  {
    bs', blk := bs, Block(0, 0, false);
    SbrkGrows(s, Chunk(n));
    var r, b, frames, mapped := Sbrk(s.brk, Chunk(n), s.frames);
    KeepsItself(s.mem, bs);
    SparedLive(s.mem, s.mem, bs);
    if r.None? {
      return 0, s.(brk := b, frames := frames), bs, blk;
    }
    var m, head;
    m, head, bs' := GrowHeap(s.mem, s.head, r.value, n, bs, Begun(s.brk));
    s' := State(head, m, b, frames);
    p, blk := r.value + 20, Taken(Block(r.value, Chunk(n) - 20, false), n, SPARE);
  }

  /**
   * malloc goes to the kernel only when it must: if the break moved, no run of free bytes,
   * headers included, could have held the request.
   */
  lemma SbrkOnlyWhenNeeded(s: State, s': State, bs: seq<Block>, bs': seq<Block>, size: nat, p: nat, blk: Block, lo: int, hi: int)
    requires Sound(s, bs) && Allocated(s, s', bs, bs', size, p, blk) && Begun(s'.brk) != Begun(s.brk)
    requires lo < hi && forall a :: lo <= a < hi ==> FreeByte(bs, a)
    ensures hi - lo < 20 + AlignUp(size)
  {
    var b := Begun(s.brk);
    var i := FreeRunInOneBlock(bs, b.start, b.brk, lo, hi);
  }

  // ---------- free ----------

  /** A pointer the program may pass: one that malloc gave and free has not taken back. */
  ghost predicate IsLive(bs: seq<Block>, ptr: nat, blk: Block) {
    blk in LiveSet(bs) && ptr == Bottom(blk)
  }

  method FreeStep(s: State, ptr: nat, ghost bs: seq<Block>, ghost blk: Block) returns (s': State, ghost bs': seq<Block>)
    requires Sound(s, bs) && (ptr != 0 ==> IsLive(bs, ptr, blk))
    ensures Sound(s', bs') && s'.brk == s.brk && s'.frames == s.frames
    ensures ptr == 0 ==> s' == s && bs' == bs
    ensures ptr != 0 ==> LiveSet(bs') == LiveSet(bs) - {blk} && Spared(s.mem, s'.mem, LiveSet(bs'))
  {
    s', bs' := s, bs;
    if ptr == 0 {
      return;
    }
    ghost var i := LiveAt(bs, blk);
    assert LinkedAt(s.mem.hdr, bs, i, MAGIC);
    var block := ptr - 20;
    if s.mem.hdr[block].magic != MAGIC {
      return;
    }
    var m := Release(s.mem, s.head, block, MAGIC, bs, Begun(s.brk), i);
    s', bs' := s.(mem := m), Released(bs, i);
  }

  // ---------- memory blocks ----------

  /** The bytes from `from` on, as far as they were ever stored, are now at `to`. */
  ghost predicate Copied(m: Mem, m': Mem, from: nat, to: nat, n: nat) {
    forall k: nat {:trigger ByteCopied(m.bytes, m'.bytes, from, to, k)} :: k < n ==> ByteCopied(m.bytes, m'.bytes, from, to, k)
  }

  ghost predicate ByteCopied(was: map<nat, int>, now: map<nat, int>, from: nat, to: nat, k: nat) {
    from + k in was ==> to + k in now && now[to + k] == was[from + k]
  }

  method Memcpy(m: Mem, to: nat, from: nat, n: nat) returns (m': Mem)
    requires from + n <= to || to + n <= from
    ensures m'.hdr == m.hdr && Copied(m, m', from, to, n)
    ensures forall lo, hi {:trigger Kept(m, m', lo, hi)} :: hi <= to || to + n <= lo ==> Kept(m, m', lo, hi)
  {
    var bytes: map<nat, int> := m.bytes;
    var k := 0;
    while k < n
      invariant 0 <= k <= n
      invariant forall x {:trigger x in bytes} {:trigger x in m.bytes} :: !(to <= x < to + n) ==> (x in bytes <==> x in m.bytes)
      invariant forall x :: !(to <= x < to + n) && x in m.bytes ==> bytes[x] == m.bytes[x]
      invariant forall j: nat {:trigger ByteCopied(m.bytes, bytes, from, to, j)} :: j < k ==> ByteCopied(m.bytes, bytes, from, to, j)
    {
      ghost var was: map<nat, int> := bytes;
      assert (from + k in bytes) == (from + k in m.bytes);
      if from + k in bytes {
        bytes := bytes[to + k := bytes[from + k]];
      } else {
        bytes := bytes - {to + k};
      }
      forall j: nat | j <= k ensures ByteCopied(m.bytes, bytes, from, to, j) {
        assert j < k ==> ByteCopied(m.bytes, was, from, to, j);
      }
      k := k + 1;
    }
    m' := m.(bytes := bytes);
  }

  method Memset(m: Mem, to: nat, n: nat) returns (m': Mem)
    ensures m'.hdr == m.hdr && forall x :: to <= x < to + n ==> x in m'.bytes && m'.bytes[x] == 0
    ensures forall lo, hi {:trigger Kept(m, m', lo, hi)} :: hi <= to || to + n <= lo ==> Kept(m, m', lo, hi)
  {
    var bytes: map<nat, int> := m.bytes;
    var k := 0;
    while k < n
      invariant 0 <= k <= n
      invariant forall x :: to <= x < to + k ==> x in bytes && bytes[x] == 0
      invariant forall x :: !(to <= x < to + n) && x in m.bytes ==> x in bytes && bytes[x] == m.bytes[x]
    {
      bytes := bytes[to + k := 0];
      k := k + 1;
    }
    m' := m.(bytes := bytes);
  }

  lemma LiveApart(bs: seq<Block>, b: Extent, x: Block, y: Block)
    requires Placed(bs, b.start, b.brk) && x in LiveSet(bs) && y in LiveSet(bs) && x != y
    ensures Top(x) <= Bottom(y) || Top(y) <= Bottom(x)
  {
    var i := LiveAt(bs, x);
    var j := LiveAt(bs, y);
    if i < j {
      Ordered(bs, b.start, b.brk, i, j);
    } else if j < i {
      Ordered(bs, b.start, b.brk, j, i);
    }
  }

  // ---------- realloc ----------

  lemma CopiedThrough(m: Mem, m1: Mem, m2: Mem, m3: Mem, from: nat, to: nat, n: nat)
    requires Kept(m, m1, from, from + n) && Copied(m1, m2, from, to, n) && Kept(m2, m3, to, to + n)
    ensures Copied(m, m3, from, to, n)
  {
    forall k: nat | k < n ensures ByteCopied(m.bytes, m3.bytes, from, to, k) {
      assert ByteCopied(m1.bytes, m2.bytes, from, to, k);
      if from + k in m.bytes {
        assert from + k in m1.bytes;
        assert to + k in m2.bytes;
        assert to + k in m3.bytes;
      }
    }
  }

  lemma CopiedInPlace(m: Mem, m': Mem, from: nat, n: nat)
    requires Kept(m, m', from, from + n)
    ensures Copied(m, m', from, from, n)
  {
    forall k: nat | k < n ensures ByteCopied(m.bytes, m'.bytes, from, from, k) {
      assert from + k in m.bytes ==> from + k in m'.bytes;
    }
  }

  lemma KeptPart(m: Mem, m': Mem, lo: int, hi: int, to: int)
    requires Kept(m, m', lo, hi) && to <= hi
    ensures Kept(m, m', lo, to)
  {
  }

  /** The block holds n bytes already, or does so together with the free block behind. */
  ghost predicate FitsInPlace(bs: seq<Block>, blk: Block, n: nat) {
    blk.size >= n || exists i: nat :: GrowsAt(bs, blk, n, i)
  }

  predicate GrowsAt(bs: seq<Block>, blk: Block, n: nat, i: nat) {
    i + 1 < |bs| && bs[i] == blk && bs[i + 1].free && blk.size + 20 + bs[i + 1].size >= n
  }

  lemma GrowsHere(bs: seq<Block>, b: Extent, blk: Block, n: nat, i: nat)
    requires Placed(bs, b.start, b.brk) && i < |bs| && bs[i] == blk && blk.size < n
    ensures FitsInPlace(bs, blk, n) <==> GrowsAt(bs, blk, n, i)
  {
    if FitsInPlace(bs, blk, n) {
      var k: nat :| GrowsAt(bs, blk, n, k);
      if k != i {
        Different(bs, b.start, b.brk, k, i);
      }
    }
  }

  /**
   * What realloc of a live pointer to a positive size did.  The pointer stays if and only if the new
   * size fits in place, with nothing changed if the block holds it already; otherwise the call fails
   * if and only if a malloc of the size would.
   */
  ghost predicate Resized(s: State, s': State, bs: seq<Block>, bs': seq<Block>, size: nat, q: nat, blk: Block, blk': Block) {
    && (q == Bottom(blk) <==> FitsInPlace(bs, blk, AlignUp(size)))
    && (q == 0 <==> !FitsInPlace(bs, blk, AlignUp(size)) && OutOfMemory(s, bs, AlignUp(size)))
    && (blk.size >= AlignUp(size) ==> s' == s && bs' == bs && blk' == blk)
    && if q == 0 then bs' == bs && s'.mem == s.mem && Begun(s'.brk) == Begun(s.brk)
    else
      && q == Bottom(blk') && blk'.size >= size
      && LiveSet(bs') == LiveSet(bs) - {blk} + {blk'} && blk' !in LiveSet(bs) - {blk}
      && Copied(s.mem, s'.mem, Bottom(blk), q, Min(blk.size, size))
      && Spared(s.mem, s'.mem, LiveSet(bs) - {blk})
  }

  /** The in-place branch: the free block behind is swallowed, the excess split off again. */
  method GrowInPlace(s: State, block: nat, n: nat, ghost bs: seq<Block>, ghost i: nat) returns (s': State, ghost bs': seq<Block>, ghost blk': Block)
    requires Sound(s, bs) && i + 1 < |bs| && block == bs[i].addr && !bs[i].free && bs[i + 1].free
    requires bs[i].size + 20 + bs[i + 1].size >= n > bs[i].size
    ensures Sound(s', bs') && blk'.addr == bs[i].addr && blk'.size >= n
    ensures LiveSet(bs') == LiveSet(bs) - {bs[i]} + {blk'} && blk' !in LiveSet(bs) - {bs[i]}
    ensures Kept(s.mem, s'.mem, Bottom(bs[i]), Top(bs[i])) && Spared(s.mem, s'.mem, LiveSet(bs) - {bs[i]})
  {
    ghost var b := Begun(s.brk);
    ghost var merged := Merge(bs, i);
    MergeShape(bs, b.start, b.brk, i);
    var m := MergeNext(s.mem, block, MAGIC, s.head, bs, i, b.start, b.brk);
    MergedUsed(bs, b, i);
    assert Apart(bs, i + 1);
    var m' := TrimUsed(m, s.head, block, n, MAGIC, SPARE, merged, b, i);
    s', bs', blk' := s.(mem := m'), Take(merged, i, n, SPARE), Taken(merged[i], n, SPARE);
    ghost var others := LiveSet(bs) - {bs[i]};
    SparedLive(s.mem, m, merged);
    SparedLive(m, m', bs');
    SparedLess(s.mem, m, LiveSet(merged), others);
    SparedLess(m, m', LiveSet(bs'), others);
    SparedTwice(s.mem, m, m', others);
    assert LiveKept(s.mem, m, merged, i);
    assert blk' in LiveSet(bs');
    KeptPart(s.mem, m, Bottom(bs[i]), Top(merged[i]), Top(bs[i]));
    KeptPart(m, m', Bottom(bs[i]), Top(blk'), Top(bs[i]));
    KeptTwice(s.mem, m, m', Bottom(bs[i]), Top(bs[i]));
    OnlyAt(bs, b, i, blk');
  }

  lemma OnlyAt(bs: seq<Block>, b: Extent, i: nat, blk: Block)
    requires Placed(bs, b.start, b.brk) && i < |bs| && blk.addr == bs[i].addr
    ensures blk !in LiveSet(bs) - {bs[i]}
  {
    if blk in LiveSet(bs) {
      var k := LiveAt(bs, blk);
      Different(bs, b.start, b.brk, k, i);
    }
  }

  lemma MergedUsed(bs: seq<Block>, b: Extent, i: nat)
    requires Good(bs, b) && i + 1 < |bs| && !bs[i].free && bs[i + 1].free
    ensures var now := Merge(bs, i);
            && i < |now| && Settled(now)
            && LiveSet(now) == LiveSet(bs) - {bs[i]} + {Joined(bs[i], bs[i + 1])}
            && Joined(bs[i], bs[i + 1]) !in LiveSet(bs) - {bs[i]}
  {
    var now, joined := Merge(bs, i), Joined(bs[i], bs[i + 1]);
    MergeShape(bs, b.start, b.brk, i);
    SpliceLive(bs, i, i + 2, [joined], b.start, b.brk);
    assert bs[i..i + 2] == [bs[i], bs[i + 1]];
    assert LiveSet(bs[i..i + 2]) == {bs[i]} && LiveSet([joined]) == {joined};
    OnlyAt(bs, b, i, joined);
    forall k: nat ensures Apart(now, k) {
      assert if k < i then Apart(bs, k) else Apart(bs, k + 1);
    }
  }

  /** The moving branch. */
  method MoveBlock(s: State, ptr: nat, size: nat, ghost bs: seq<Block>, ghost blk: Block) returns (q: nat, s': State, ghost bs': seq<Block>, ghost blk': Block)
    requires Sound(s, bs) && Modest(size) && size > 0 && IsLive(bs, ptr, blk) && !FitsInPlace(bs, blk, AlignUp(size))
    ensures Sound(s', bs') && Resized(s, s', bs, bs', size, q, blk, blk')
  {
    ghost var s0 := s;
    q, s', bs', blk' := MallocStep(s, size, bs);
    if q == 0 {
      return;
    }
    ghost var i := LiveAt(bs', blk);
    OtherBottom(bs', Begun(s'.brk), blk, blk');
    assert LinkedAt(s'.mem.hdr, bs', i, MAGIC);
    var held := s'.mem.hdr[ptr - 20].size;
    var n := if held < size then held else size;
    LiveApart(bs', Begun(s'.brk), blk, blk');
    ghost var m1 := s'.mem;
    var m2 := Memcpy(s'.mem, q, ptr, n);
    ghost var others := LiveSet(bs) - {blk};
    CopySpares(bs', Begun(s'.brk), m1, m2, q, n, blk', others);
    SparedLess(s.mem, m1, LiveSet(bs), others);
    SparedTwice(s.mem, m1, m2, others);
    ghost var before := bs';
    s', bs' := FreeStep(s'.(mem := m2), ptr, bs', blk);
    assert blk' in LiveSet(bs') && blk in LiveSet(bs);
    SparedLess(m2, s'.mem, LiveSet(bs'), others);
    SparedTwice(s.mem, m2, s'.mem, others);
    KeptPart(s.mem, m1, ptr, Top(blk), ptr + n);
    KeptPart(m2, s'.mem, q, Top(blk'), q + n);
    CopiedThrough(s.mem, m1, m2, s'.mem, ptr, q, n);
  }

  lemma OtherBottom(bs: seq<Block>, b: Extent, x: Block, y: Block)
    requires Placed(bs, b.start, b.brk) && x in LiveSet(bs) && y in LiveSet(bs) && x != y
    ensures Bottom(x) != Bottom(y)
  {
    var i := LiveAt(bs, x);
    var j := LiveAt(bs, y);
    if x.addr == y.addr {
      Different(bs, b.start, b.brk, i, j);
    }
  }

  /** Filling a block in use touches no other. */
  lemma CopySpares(bs: seq<Block>, b: Extent, m: Mem, m': Mem, to: nat, n: nat, blk: Block, others: set<Block>)
    requires Placed(bs, b.start, b.brk) && blk in LiveSet(bs) && others <= LiveSet(bs) && blk !in others
    requires to == Bottom(blk) && n <= blk.size
    requires forall lo, hi {:trigger Kept(m, m', lo, hi)} :: hi <= to || to + n <= lo ==> Kept(m, m', lo, hi)
    ensures Spared(m, m', others)
  {
    forall x | x in others ensures Kept(m, m', Bottom(x), Top(x)) {
      LiveApart(bs, b, x, blk);
    }
  }

  /** realloc. */
  method ReallocStep(s: State, ptr: nat, size: nat, ghost bs: seq<Block>, ghost blk: Block)
    returns (q: nat, s': State, ghost bs': seq<Block>, ghost blk': Block)
    requires Sound(s, bs) && Modest(size) && (ptr != 0 ==> IsLive(bs, ptr, blk))
    ensures Sound(s', bs')
    ensures size == 0 ==> q == 0
    ensures ptr == 0 ==> Allocated(s, s', bs, bs', size, q, blk')
    ensures ptr != 0 && size == 0 ==> q == 0 && LiveSet(bs') == LiveSet(bs) - {blk} && Spared(s.mem, s'.mem, LiveSet(bs'))
    ensures ptr != 0 && size > 0 ==> Resized(s, s', bs, bs', size, q, blk, blk')
  {
    if ptr == 0 {
      q, s', bs', blk' := MallocStep(s, size, bs);
      return;
    }
    if size == 0 {
      q, blk' := 0, blk;
      s', bs' := FreeStep(s, ptr, bs, blk);
      return;
    }
    q, s', bs', blk' := 0, s, bs, blk;
    ghost var i := LiveAt(bs, blk);
    assert LinkedAt(s.mem.hdr, bs, i, MAGIC);
    var block := ptr - 20;
    var h := s.mem.hdr[block];
    var n := AlignUp(size);
    AlignUpBounds(size);
    if h.magic != MAGIC {
      return;
    }
    if h.size >= n {
      KeepsItself(s.mem, bs);
      SparedLive(s.mem, s.mem, bs);
      CopiedInPlace(s.mem, s.mem, ptr, Min(blk.size, size));
      assert LiveSet(bs) - {blk} + {blk} == LiveSet(bs);
      return ptr, s, bs, blk;
    }
    GrowsHere(bs, Begun(s.brk), blk, n, i);
    if i + 1 < |bs| {
      Nonzero(bs, Begun(s.brk).start, Begun(s.brk).brk, i + 1);
      assert LinkedAt(s.mem.hdr, bs, i + 1, MAGIC);
    }
    if h.next != 0 {
      assert LinkedAt(s.mem.hdr, bs, i + 1, MAGIC);
      var next := s.mem.hdr[h.next];
      if next.free && next.magic == MAGIC && h.size + 20 + next.size >= n {
        s', bs', blk' := GrowInPlace(s, block, n, bs, i);
        q := ptr;
        KeptPart(s.mem, s'.mem, ptr, Top(blk), ptr + Min(blk.size, size));
        CopiedInPlace(s.mem, s'.mem, ptr, Min(blk.size, size));
        return;
      }
    }
    q, s', bs', blk' := MoveBlock(s, ptr, size, bs, blk);
  }

  // ---------- the allocator ----------

  class Allocator {
    var head: nat
    var mem: Mem
    var brk: Extent
    var frames: nat
    ghost var bs: seq<Block>

    function S(): State
      reads this
    {
      State(head, mem, brk, frames)
    }

    ghost predicate Valid()
      reads this
    {
      Sound(S(), bs)
    }

    constructor (heapStart: nat, frames: nat)
      requires heapStart < TOP_OF_HEAP
      ensures Valid() && bs == []
    {
      head, mem, brk, this.frames := 0, Mem(map[], map[]), Extent(heapStart, 0), frames;
      bs := [];
      new;
      forall k: nat ensures Apart(bs, k) {
      }
    }

    method Malloc(size: nat) returns (p: nat, ghost blk: Block)
      requires Valid() && Modest(size)
      modifies this
      ensures Valid() && Allocated(old(S()), S(), old(bs), bs, size, p, blk)
    {
      var s: State;
      p, s, bs, blk := MallocStep(S(), size, bs);
      head, mem, brk, frames := s.head, s.mem, s.brk, s.frames;
    }

    method Free(ptr: nat, ghost blk: Block)
      requires Valid() && (ptr != 0 ==> IsLive(bs, ptr, blk))
      modifies this
      ensures Valid() && brk == old(brk) && frames == old(frames)
      ensures ptr == 0 ==> S() == old(S()) && bs == old(bs)
      ensures ptr != 0 ==> LiveSet(bs) == LiveSet(old(bs)) - {blk} && Spared(old(mem), mem, LiveSet(bs))
    {
      var s: State;
      s, bs := FreeStep(S(), ptr, bs, blk);
      head, mem, brk, frames := s.head, s.mem, s.brk, s.frames;
    }

    method Realloc(ptr: nat, size: nat, ghost blk: Block) returns (q: nat, ghost blk': Block)
      requires Valid() && Modest(size) && (ptr != 0 ==> IsLive(bs, ptr, blk))
      modifies this
      ensures Valid()
      ensures ptr == 0 ==> Allocated(old(S()), S(), old(bs), bs, size, q, blk')
      ensures ptr != 0 && size == 0 ==> q == 0 && LiveSet(bs) == LiveSet(old(bs)) - {blk} && Spared(old(mem), mem, LiveSet(bs))
      ensures ptr != 0 && size > 0 ==> Resized(old(S()), S(), old(bs), bs, size, q, blk, blk')
    {
      var s: State;
      q, s, bs, blk' := ReallocStep(S(), ptr, size, bs, blk);
      head, mem, brk, frames := s.head, s.mem, s.brk, s.frames;
    }

    /** calloc: the product is refused when it would not fit 32 bits, and zeroed otherwise. */
    method Calloc(count: nat, size: nat) returns (p: nat, ghost blk: Block)
      requires Valid() && count < 0x1_0000_0000 && size < 0x1_0000_0000
      requires count * size < 0x1_0000_0000 ==> Modest(count * size)
      modifies this
      ensures Valid()
      ensures count * size >= 0x1_0000_0000 ==> p == 0 && S() == old(S()) && bs == old(bs)
      ensures p == 0 <==> count * size >= 0x1_0000_0000 || count * size == 0 || OutOfMemory(old(S()), old(bs), AlignUp(count * size))
      ensures p == 0 ==> LiveSet(bs) == LiveSet(old(bs))
      ensures p != 0 ==> p == Bottom(blk) && blk.size >= count * size && LiveSet(bs) == LiveSet(old(bs)) + {blk} && blk !in LiveSet(old(bs))
      ensures p != 0 ==> forall x :: p <= x < p + count * size ==> x in mem.bytes && mem.bytes[x] == 0
      ensures Spared(old(mem), mem, LiveSet(old(bs)))
    {
      KeepsItself(mem, bs);
      SparedLive(mem, mem, bs);
      ProductCheck(count, size);
      if size != 0 && count > 0xFFFF_FFFF / size {
        return 0, Block(0, 0, false);
      }
      var total := count * size;
      p, blk := Malloc(total);
      if p != 0 {
        ghost var m1 := mem;
        var m2 := Memset(mem, p, total);
        CopySpares(bs, Begun(brk), m1, m2, p, total, blk, LiveSet(old(bs)));
        SparedTwice(old(mem), m1, m2, LiveSet(old(bs)));
        mem := m2;
      }
    }
  }

  lemma ProductCheck(count: nat, size: nat)
    requires count < 0x1_0000_0000 && size < 0x1_0000_0000
    ensures count * size >= 0
    ensures size != 0 && count > 0xFFFF_FFFF / size <==> count * size >= 0x1_0000_0000
  {
    if size != 0 {
      var q := 0xFFFF_FFFF / size;
      assert q * size <= 0xFFFF_FFFF < (q + 1) * size;
      if count > q {
        ProductOrder(q + 1, count, size);
      } else {
        ProductOrder(count, q, size);
      }
    }
  }

  lemma ProductOrder(a: nat, b: nat, n: nat)
    requires a <= b
    ensures a * n <= b * n
  {
  }
}
