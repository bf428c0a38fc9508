/**
 * The frame bitmap of src/kernel/mem/physical_memory_manager/pmm.c.  A word of the bitmap is a
 * run of 32 of the bits below.
 */
module Pmm {
  const PAGE_SIZE := 4096

  /** The frames whose bit is clear. */
  function FreeFrames(bits: seq<bool>, n: nat): set<nat>
    requires n <= |bits|
  {
    set b | 0 <= b < n && !bits[b]
  }

  /** The free frames but for `count` from b on. */
  function Without(free: set<nat>, b: nat, count: nat): set<nat> {
    set f | f in free && !(b <= f < b + count)
  }

  /** `count` clear bits in a row from `start`. */
  predicate ClearRun(bits: seq<bool>, start: nat, count: nat) {
    start + count <= |bits| && forall j :: start <= j < start + count ==> !bits[j]
  }

  /** No such run ends at or before n. */
  ghost predicate NoClearRun(bits: seq<bool>, n: nat, count: nat) {
    forall s: nat {:trigger ClearRun(bits, s, count)} :: s + count <= n ==> !ClearRun(bits, s, count)
  }

  class Bitmap {
    const bits: array<bool>
    const maxBlocks: nat

    /** Frame 0 is never free, so that 0 can stand for failure. */
    ghost predicate Valid()
      reads this, bits
    {
      0 < maxBlocks && bits.Length == (maxBlocks + 31) / 32 * 32 && bits[0]
    }

    ghost function Free(): set<nat>
      requires maxBlocks <= bits.Length
      reads bits
    {
      FreeFrames(bits[..], maxBlocks)
    }

    /** pmm_initialize: everything starts out used. */
    constructor (memSize: nat)
      requires memSize >= PAGE_SIZE
      ensures Valid() && maxBlocks == memSize / 4096 && Free() == {} && fresh(bits)
    {
      maxBlocks := memSize / 4096;
      bits := new bool[(memSize / 4096 + 31) / 32 * 32](i => true);
    }

    /** bitmap_test, which calls a block past the end clear. */
    method Test(block: nat) returns (isSet: bool)
      requires Valid()
      ensures isSet <==> block < maxBlocks && bits[block]
    {
      if block >= maxBlocks {
        return false;
      }
      isSet := bits[block];
    }

    /** bitmap_set and bitmap_unset, which ignore a block past the end. */
    method Put(block: nat, used: bool)
      requires Valid() && (block == 0 ==> used)
      modifies bits
      ensures Valid()
      ensures block < maxBlocks ==> bits[..] == old(bits[..])[block := used]
      ensures block >= maxBlocks ==> bits[..] == old(bits[..])
    {
      if block < maxBlocks {
        bits[block] := used;
      }
    }

    /**
     * pmm_alloc_block: the lowest free frame, but only of those in whole words of the bitmap;
     * the last maxBlocks % 32 frames are never given out here.
     */
    method AllocBlock() returns (addr: nat)
      requires Valid()
      modifies bits
      ensures Valid()
      ensures addr == 0 <==> forall b :: b in old(Free()) ==> b >= maxBlocks / 32 * 32
      ensures addr == 0 ==> bits[..] == old(bits[..])
      ensures addr != 0 ==> var b := addr / 4096;
                            && addr == b * 4096 && b in old(Free()) && Free() == old(Free()) - {b}
                            && bits[..] == old(bits[..])[b := true]
                            && forall c :: c in old(Free()) ==> b <= c
    {
      var i := 0;
      while i < maxBlocks / 32
        invariant 0 <= i <= maxBlocks / 32
        invariant forall b :: 0 <= b < i * 32 ==> bits[b]
      {
        var j := 0;
        while j < 32
          invariant 0 <= j <= 32
          invariant forall b :: 0 <= b < i * 32 + j ==> bits[b]
        {
          var block := i * 32 + j;
          if !bits[block] {
            assert block in Free() && block * 4096 / 4096 == block;
            Put(block, true);
            return block * 4096;
          }
          j := j + 1;
        }
        i := i + 1;
      }
      addr := 0;
    }

    /** pmm_free_block and pmm_mark_free; an address that is no frame's is ignored. */
    method FreeBlock(addr: nat)
      requires Valid()
      modifies bits
      ensures Valid()
      ensures addr != 0 && addr % 4096 == 0 && addr / 4096 < maxBlocks ==>
                Free() == old(Free()) + {addr / 4096} && bits[..] == old(bits[..])[addr / 4096 := false]
      ensures addr == 0 || addr % 4096 != 0 || addr / 4096 >= maxBlocks ==> bits[..] == old(bits[..])
    {
      if addr == 0 || addr % 4096 != 0 || addr / 4096 >= maxBlocks {
        return;
      }
      Put(addr / 4096, false);
    }

    /**
     * pmm_alloc_contiguous_blocks: the first run of free frames of that length, over all of
     * them.
     */
    method AllocContiguous(count: nat) returns (addr: nat)
      requires Valid()
      modifies bits
      ensures Valid()
      ensures addr == 0 ==> bits[..] == old(bits[..]) && (count > 0 ==> NoClearRun(old(bits[..]), maxBlocks, count))
      ensures addr != 0 ==> var b := addr / 4096;
                            && count > 0 && addr == b * 4096 && b + count <= maxBlocks
                            && ClearRun(old(bits[..]), b, count) && NoClearRun(old(bits[..]), b + count - 1, count)
                            && Free() == Without(old(Free()), b, count)
    {
      if count == 0 {
        return 0;
      }
      ghost var was := bits[..];
      var consecutive, start, i := 0, 0, 0;
      while i < maxBlocks
        invariant 0 <= i <= maxBlocks && 0 <= consecutive < count && consecutive <= i
        invariant consecutive > 0 ==> start == i - consecutive && ClearRun(was, start, consecutive)
        invariant i - consecutive > 0 ==> was[i - consecutive - 1]
        invariant NoClearRun(was, i, count)
        invariant bits[..] == was
      {
        var used := Test(i);
        if !used {
          if consecutive == 0 {
            start := i;
          }
          consecutive := consecutive + 1;
          if consecutive == count {
            MarkRun(start, count);
            return start * 4096;
          }
        } else {
          consecutive := 0;
        }
        RunsEndingAt(was, i, count, consecutive);
        i := i + 1;
      }
      addr := 0;
    }

    /** The loop that claims a run. */
    method MarkRun(start: nat, count: nat)
      requires Valid() && 0 < start && start + count <= maxBlocks
      modifies bits
      ensures Valid() && Free() == Without(old(Free()), start, count)
    {
      var j := 0;
      while j < count
        invariant 0 <= j <= count && Valid()
        invariant forall b :: 0 <= b < bits.Length ==> bits[b] == (old(bits[b]) || start <= b < start + j)
      {
        Put(start + j, true);
        j := j + 1;
      }
    }
  }

  /** A run of `count` that ends at i + 1 needs that many clear bits up to i. */
  lemma RunsEndingAt(bits: seq<bool>, i: nat, count: nat, consecutive: nat)
    requires i < |bits| && consecutive <= i + 1 && consecutive < count && NoClearRun(bits, i, count)
    requires i + 1 - consecutive > 0 ==> bits[i - consecutive]
    ensures NoClearRun(bits, i + 1, count)
  {
    forall s: nat | s + count <= i + 1 ensures !ClearRun(bits, s, count) {
      if s + count == i + 1 {
        assert s <= i - consecutive < s + count;
      }
    }
  }
}
