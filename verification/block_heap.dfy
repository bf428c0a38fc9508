/**
 * What allocating and releasing do to the blocks of a heap, shared by the two allocators.
 * `magic` marks a header; `spare` is what must remain of a block for it to be split.
 */
module BlockHeap {
  import opened BlockList
  import opened BlockLinks

  /** Where a heap starts and where it ends. */
  datatype Extent = Extent(start: nat, brk: nat)

  // ---------- the blocks ----------

  predicate Fits(b: Block, n: nat) { b.free && b.size >= n }

  /** No block before k can take a request of n bytes. */
  ghost predicate NoFit(bs: seq<Block>, k: nat, n: nat) {
    forall i :: 0 <= i < k && i < |bs| ==> !Fits(bs[i], n)
  }

  /** The heap is in order: blocks tile it and no two free ones are neighbours. */
  ghost predicate Good(bs: seq<Block>, b: Extent) {
    Placed(bs, b.start, b.brk) && Settled(bs)
  }

  /** Block i put to use for n bytes: split when the rest can hold a block of its own. */
  function Take(bs: seq<Block>, i: nat, n: nat, spare: nat): seq<Block>
    requires i < |bs| && spare >= 20
  {
    if bs[i].size >= n + spare then Splice(bs, i, i + 1, UsedHalves(bs[i], n)) else Flag(bs, i, false)
  }

  function UsedHalves(b: Block, n: nat): seq<Block>
    requires n + 20 <= b.size
  {
    [Block(b.addr, n, false), Block(b.addr + 20 + n, b.size - n - 20, true)]
  }

  /** The block the caller gets. */
  function Taken(b: Block, n: nat, spare: nat): Block { Block(b.addr, if b.size >= n + spare then n else b.size, false) }

  /** Splitting and then clearing the flag is taking. */
  lemma CutThenFlag(bs: seq<Block>, i: nat, n: nat, spare: nat)
    requires spare >= 20 && i < |bs| && bs[i].size >= n + spare
    ensures Flag(Cut(bs, i, n), i, false) == Take(bs, i, n, spare)
    ensures Cut(Flag(bs, i, false), i, n) == Take(bs, i, n, spare)
    ensures Flag(bs, i, false)[i] == bs[i].(free := false)
  {
    var cut, flag := Cut(bs, i, n), Flag(bs, i, false);
    assert cut[..i] == bs[..i] && cut[i + 1..] == [Halves(bs[i], n)[1]] + bs[i + 1..];
    assert flag[..i] == bs[..i] && flag[i + 1..] == bs[i + 1..];
  }

  lemma TakeLive(bs: seq<Block>, b: Extent, i: nat, n: nat, spare: nat)
    requires Placed(bs, b.start, b.brk) && i < |bs| && spare >= 20
    ensures LiveSet(Take(bs, i, n, spare)) == LiveSet(bs) - {bs[i]} + {Taken(bs[i], n, spare)}
  {
    SpliceLive(bs, i, i + 1, if bs[i].size >= n + spare then UsedHalves(bs[i], n) else [bs[i].(free := false)], b.start, b.brk);
    assert bs[i..i + 1] == [bs[i]];
    if bs[i].size < n + spare {
      assert Taken(bs[i], n, spare) == bs[i].(free := false);
      assert LiveSet([bs[i].(free := false)]) == {Taken(bs[i], n, spare)};
    } else {
      assert UsedHalves(bs[i], n)[0] == Taken(bs[i], n, spare);
      assert LiveSet(UsedHalves(bs[i], n)) == {Taken(bs[i], n, spare)};
    }
    assert bs[i].free ==> bs[i] !in LiveSet(bs);
    assert LiveSet(bs[i..i + 1]) <= {bs[i]};
  }

  /** Taking keeps the heap settled when what follows the block is in use. */
  lemma TakeSettled(bs: seq<Block>, i: nat, n: nat, spare: nat)
    requires spare >= 20 && i < |bs| && (i + 1 < |bs| ==> !bs[i + 1].free)
    requires forall k: nat {:trigger Apart(bs, k)} :: k != i && k + 1 != i ==> Apart(bs, k)
    ensures Settled(Take(bs, i, n, spare))
  {
    var now := Take(bs, i, n, spare);
    forall k: nat ensures Apart(now, k) {
      if k + 1 < i {
        assert Apart(bs, k);
      } else if bs[i].size >= n + spare && k > i + 1 {
        assert Apart(bs, k - 1);
      } else if bs[i].size < n + spare && k > i {
        assert Apart(bs, k);
      }
    }
  }

  // ---------- bytes in use ----------

  /** The payloads of these blocks keep their bytes. */
  ghost predicate Spared(m: Mem, m': Mem, live: set<Block>) {
    forall x {:trigger x in live} :: x in live ==> Kept(m, m', Bottom(x), Top(x))
  }

  lemma SparedLive(m: Mem, m': Mem, bs: seq<Block>)
    requires KeepsLive(m, m', bs)
    ensures Spared(m, m', LiveSet(bs))
  {
    forall x | x in LiveSet(bs) ensures Kept(m, m', Bottom(x), Top(x)) {
      var i := LiveAt(bs, x);
      assert LiveKept(m, m', bs, i);
    }
  }

  lemma SparedTwice(m: Mem, m1: Mem, m2: Mem, live: set<Block>)
    requires Spared(m, m1, live) && Spared(m1, m2, live)
    ensures Spared(m, m2, live)
  {
    forall x | x in live ensures Kept(m, m2, Bottom(x), Top(x)) {
      KeptTwice(m, m1, m2, Bottom(x), Top(x));
    }
  }

  lemma SparedLess(m: Mem, m': Mem, more: set<Block>, live: set<Block>)
    requires Spared(m, m', more) && live <= more
    ensures Spared(m, m', live)
  {
  }

  /** Puts block i, which is free, to use. */
  method UseFree(m: Mem, head: nat, a: nat, n: nat, magic: nat, spare: nat, ghost bs: seq<Block>, ghost b: Extent, ghost i: nat) returns (m': Mem)
    requires Rep(m.hdr, head, bs, magic) && Good(bs, b) && i < |bs| && a == bs[i].addr && Fits(bs[i], n) && spare >= 20
    ensures Rep(m'.hdr, head, Take(bs, i, n, spare), magic) && Good(Take(bs, i, n, spare), b)
    ensures Spared(m, m', LiveSet(bs))
    ensures LiveSet(Take(bs, i, n, spare)) == LiveSet(bs) + {Taken(bs[i], n, spare)}
  {
    assert LinkedAt(m.hdr, bs, i, magic);
    m' := m;
    ghost var cut := bs;
    if m.hdr[a].size >= n + spare {
      m' := SplitBlock(m, a, n, magic, head, bs, i, b.start, b.brk);
      cut := Cut(bs, i, n);
      CutShape(bs, b.start, b.brk, i, n);
      CutThenFlag(bs, i, n, spare);
      SparedLive(m, m', cut);
      CutLive(bs, b, i, n);
    }
    ghost var before := m';
    m' := SetFree(m', a, false, magic, head, cut, i, b.start, b.brk);
    SparedLive(before, m', Flag(cut, i, false));
    TakeLive(bs, b, i, n, spare);
    assert Flag(cut, i, false) == Take(bs, i, n, spare) && bs[i] !in LiveSet(bs);
    SparedLess(before, m', LiveSet(Take(bs, i, n, spare)), LiveSet(bs));
    SparedTwice(m, before, m', LiveSet(bs));
    assert Apart(bs, i);
    TakeSettled(bs, i, n, spare);
  }

  lemma CutLive(bs: seq<Block>, b: Extent, i: nat, n: nat)
    requires Placed(bs, b.start, b.brk) && i < |bs| && bs[i].free && n + 20 <= bs[i].size
    ensures LiveSet(Cut(bs, i, n)) == LiveSet(bs)
  {
    SpliceLive(bs, i, i + 1, Halves(bs[i], n), b.start, b.brk);
    assert bs[i..i + 1] == [bs[i]];
    assert LiveSet(Halves(bs[i], n)) == {} && LiveSet(bs[i..i + 1]) == {};
  }

  // ---------- growing ----------

  /** A used block split for n bytes, as malloc does with a fresh chunk and realloc with a
      block it has extended. */
  method TrimUsed(m: Mem, head: nat, a: nat, n: nat, magic: nat, spare: nat, ghost bs: seq<Block>, ghost b: Extent, ghost i: nat) returns (m': Mem)
    requires Rep(m.hdr, head, bs, magic) && Placed(bs, b.start, b.brk) && i < |bs| && a == bs[i].addr && !bs[i].free
    requires (i + 1 < |bs| ==> !bs[i + 1].free) && Settled(bs) && spare >= 20
    ensures Rep(m'.hdr, head, Take(bs, i, n, spare), magic) && Good(Take(bs, i, n, spare), b)
    ensures KeepsLive(m, m', Take(bs, i, n, spare))
    ensures LiveSet(Take(bs, i, n, spare)) == LiveSet(bs) - {bs[i]} + {Taken(bs[i], n, spare)}
  {
    assert LinkedAt(m.hdr, bs, i, magic);
    m' := m;
    if m.hdr[a].size >= n + spare {
      m' := SplitBlock(m, a, n, magic, head, bs, i, b.start, b.brk);
      assert Halves(bs[i], n) == UsedHalves(bs[i], n);
    } else {
      FlagTiles(bs, b.start, b.brk, i, false);
      assert bs[i := bs[i].(free := false)] == bs;
      KeepsItself(m, bs);
    }
    TakeLive(bs, b, i, n, spare);
    forall k: nat | k != i && k + 1 != i ensures Apart(bs, k) {
    }
    TakeSettled(bs, i, n, spare);
  }

  lemma KeepsItself(m: Mem, bs: seq<Block>)
    ensures KeepsLive(m, m, bs)
  {
    forall i: nat | i < |bs| ensures LiveKept(m, m, bs, i) {
    }
  }

  lemma Inhabited(bs: seq<Block>, b: Extent)
    requires Placed(bs, b.start, b.brk)
    ensures b.brk > 0
  {
    TilesGrow(bs, b.start, b.brk);
  }

  lemma AppendedLive(bs: seq<Block>, b: Extent, addr: nat, size: nat)
    requires Placed(bs, b.start, addr)
    ensures LiveSet(Append(bs, addr, size, false)) == LiveSet(bs) + {Block(addr, size, false)}
    ensures forall x :: x in LiveSet(bs) ==> x.addr < addr
  {
    forall x | x in LiveSet(bs) ensures x.addr < addr {
      var i := LiveAt(bs, x);
      Inside(bs, b.start, addr, i);
    }
  }

  lemma AppendSettled(bs: seq<Block>, addr: nat, size: nat)
    requires Settled(bs)
    ensures Settled(Append(bs, addr, size, false))
  {
    forall k: nat ensures Apart(Append(bs, addr, size, false), k) {
      assert Apart(bs, k);
    }
  }

  // ---------- freeing ----------

  function MergeIf(bs: seq<Block>, i: nat): seq<Block>
  {
    if i + 1 < |bs| && bs[i].free && bs[i + 1].free then Merge(bs, i) else bs
  }

  /** The blocks after free: block i free, and one with its free neighbours. */
  function Released(bs: seq<Block>, i: nat): seq<Block>
    requires i < |bs|
  {
    var forward := MergeIf(Flag(bs, i, true), i);
    if i > 0 then MergeIf(forward, i - 1) else forward
  }

  lemma MergeLive(bs: seq<Block>, b: Extent, i: nat)
    requires Placed(bs, b.start, b.brk) && i + 1 < |bs| && bs[i].free && bs[i + 1].free
    ensures LiveSet(Merge(bs, i)) == LiveSet(bs)
  {
    SpliceLive(bs, i, i + 2, [Joined(bs[i], bs[i + 1])], b.start, b.brk);
    assert bs[i..i + 2] == [bs[i], bs[i + 1]];
    assert LiveSet(bs[i..i + 2]) == {} && LiveSet([Joined(bs[i], bs[i + 1])]) == {};
  }

  lemma FlagFreeLive(bs: seq<Block>, b: Extent, i: nat)
    requires Placed(bs, b.start, b.brk) && i < |bs| && !bs[i].free
    ensures LiveSet(Flag(bs, i, true)) == LiveSet(bs) - {bs[i]}
  {
    SpliceLive(bs, i, i + 1, [bs[i].(free := true)], b.start, b.brk);
    assert bs[i..i + 1] == [bs[i]];
    assert LiveSet([bs[i].(free := true)]) == {} && LiveSet([bs[i]]) == {bs[i]};
  }

  /** After setting the flag, only the pairs around block i can be free neighbours. */
  ghost predicate SettledBut(bs: seq<Block>, i: nat) {
    forall k: nat {:trigger Apart(bs, k)} :: k != i && k + 1 != i ==> Apart(bs, k)
  }

  lemma FlagBut(bs: seq<Block>, i: nat)
    requires Settled(bs) && i < |bs|
    ensures SettledBut(Flag(bs, i, true), i)
  {
    var now := Flag(bs, i, true);
    forall k: nat | k != i && k + 1 != i ensures Apart(now, k) {
      assert Apart(bs, k);
    }
  }

  /** The forward merge settles the pair behind block i ... */
  lemma ForwardSettles(bs: seq<Block>, b: Extent, i: nat)
    requires Placed(bs, b.start, b.brk) && SettledBut(bs, i) && i < |bs| && bs[i].free
    requires i + 2 < |bs| ==> !(bs[i + 1].free && bs[i + 2].free)
    ensures var now := MergeIf(bs, i);
            i < |now| && now[i].free && forall k: nat {:trigger Apart(now, k)} :: k + 1 != i ==> Apart(now, k)
  {
    var now := MergeIf(bs, i);
    if i + 1 < |bs| && bs[i + 1].free {
      MergeShape(bs, b.start, b.brk, i);
      forall k: nat | k + 1 != i ensures Apart(now, k) {
        if k < i {
          assert Apart(bs, k);
        } else {
          assert Apart(bs, k + 1);
        }
      }
    } else {
      forall k: nat | k + 1 != i ensures Apart(now, k) {
        assert k != i ==> Apart(bs, k);
      }
    }
  }

  /** ... and the backward merge the pair before it. */
  lemma BackwardSettles(bs: seq<Block>, b: Extent, i: nat)
    requires Placed(bs, b.start, b.brk) && i < |bs| && bs[i].free && i > 0
    requires forall k: nat {:trigger Apart(bs, k)} :: k + 1 != i ==> Apart(bs, k)
    ensures Settled(MergeIf(bs, i - 1))
  {
    var now := MergeIf(bs, i - 1);
    forall k: nat ensures Apart(now, k) {
      if bs[i - 1].free {
        MergeShape(bs, b.start, b.brk, i - 1);
        assert if k < i - 1 then Apart(bs, k) else Apart(bs, k + 1);
      } else {
        assert k + 1 != i ==> Apart(bs, k);
      }
    }
  }

  /** One coalescing step, taken or not. */
  method Coalesce(m: Mem, head: nat, a: nat, magic: nat, ghost bs: seq<Block>, ghost b: Extent, ghost i: nat) returns (m': Mem)
    requires Rep(m.hdr, head, bs, magic) && Placed(bs, b.start, b.brk) && i < |bs| && a == bs[i].addr && bs[i].free
    ensures Rep(m'.hdr, head, MergeIf(bs, i), magic) && Placed(MergeIf(bs, i), b.start, b.brk)
    ensures Spared(m, m', LiveSet(bs)) && LiveSet(MergeIf(bs, i)) == LiveSet(bs)
  {
    assert LinkedAt(m.hdr, bs, i, magic);
    m' := m;
    var next := m.hdr[a].next;
    if next == 0 {
      LastHasNoNext(bs, b.start, b.brk, i);
      KeepsItself(m, bs);
    } else {
      assert LinkedAt(m.hdr, bs, i + 1, magic);
      KeepsItself(m, bs);
      if m.hdr[next].free && m.hdr[next].magic == magic {
        m' := MergeNext(m, a, magic, head, bs, i, b.start, b.brk);
        MergeLive(bs, b, i);
      }
    }
    SparedLive(m, m', MergeIf(bs, i));
  }

  /** free, of the block at index i. */
  method Release(m: Mem, head: nat, a: nat, magic: nat, ghost bs: seq<Block>, ghost b: Extent, ghost i: nat) returns (m': Mem)
    requires Rep(m.hdr, head, bs, magic) && Good(bs, b) && i < |bs| && a == bs[i].addr && !bs[i].free
    ensures Rep(m'.hdr, head, Released(bs, i), magic) && Good(Released(bs, i), b) && Released(bs, i) != []
    ensures LiveSet(Released(bs, i)) == LiveSet(bs) - {bs[i]}
    ensures Spared(m, m', LiveSet(bs) - {bs[i]})
  {
    ghost var live := LiveSet(bs) - {bs[i]};
    ghost var flagged := Flag(bs, i, true);
    m' := SetFree(m, a, true, magic, head, bs, i, b.start, b.brk);
    FlagTiles(bs, b.start, b.brk, i, true);
    FlagFreeLive(bs, b, i);
    FlagBut(bs, i);
    SparedLive(m, m', flagged);
    ghost var m1 := m';
    assert Apart(bs, i + 1);
    m' := Coalesce(m', head, a, magic, flagged, b, i);
    SparedTwice(m, m1, m', live);
    ForwardSettles(flagged, b, i);
    m' := ReleaseBack(m, m', head, a, magic, MergeIf(flagged, i), b, i, live);
  }

  /** The backward half of free. */
  method ReleaseBack(ghost m0: Mem, m: Mem, head: nat, a: nat, magic: nat, ghost bs: seq<Block>, ghost b: Extent, ghost i: nat, ghost live: set<Block>)
    returns (m': Mem)
    requires Rep(m.hdr, head, bs, magic) && Placed(bs, b.start, b.brk) && i < |bs| && a == bs[i].addr && bs[i].free
    requires forall k: nat {:trigger Apart(bs, k)} :: k + 1 != i ==> Apart(bs, k)
    requires LiveSet(bs) == live && Spared(m0, m, live)
    ensures var now := if i > 0 then MergeIf(bs, i - 1) else bs;
            Rep(m'.hdr, head, now, magic) && Good(now, b) && LiveSet(now) == live && now != []
    ensures Spared(m0, m', live)
  {
    assert LinkedAt(m.hdr, bs, i, magic);
    m' := m;
    var prev := m.hdr[a].prev;
    if prev != 0 {
      assert LinkedAt(m.hdr, bs, i - 1, magic);
      BackwardSettles(bs, b, i);
      if m.hdr[prev].free && m.hdr[prev].magic == magic {
        m' := Coalesce(m, head, prev, magic, bs, b, i - 1);
        SparedTwice(m0, m, m', live);
      }
    } else {
      FirstHasNoPrev(bs, b, i);
    }
  }

  lemma FirstHasNoPrev(bs: seq<Block>, b: Extent, i: nat)
    requires Placed(bs, b.start, b.brk) && i < |bs| && PrevOf(bs, i) == 0
    ensures i == 0
  {
    if i > 0 {
      Nonzero(bs, b.start, b.brk, i - 1);
    }
  }
}
