/**
 * The user-space allocator of src/usr/libs/stdlib.c: alignment, chunk size, and the break
 * that SYS_SBRK moves.
 */
module UserHeap {
  import opened Common
  import opened BlockHeap

  const MAGIC := 0xCAFEBABE
  /** sizeof(user_block_t) + BLOCK_ALIGN: what a remainder needs to become a block. */
  const SPARE := 28
  const TOP_OF_HEAP := 0xB000_0000

  function AlignUp(size: nat): nat { (size + 7) / 8 * 8 }

  /** The request malloc makes of sbrk. */
  function Chunk(n: nat): nat { if 20 + n < 4096 then 4096 else 20 + n }

  // ---------- SYS_SBRK ----------

  function RoundUp(a: nat): nat { (a + 4095) / 4096 * 4096 }

  function PagesBetween(from: nat, to: nat): nat {
    if RoundUp(to) <= RoundUp(from) then 0 else (RoundUp(to) - RoundUp(from)) / 4096
  }

  /** The extent a task's heap has: a break of 0 stands for a heap not yet begun. */
  function Begun(b: Extent): Extent {
    if b.brk != 0 then b else if b.start != 0 then Extent(b.start, b.start) else Extent(0x1000_0000, 0x1000_0000)
  }

  /** The 32-bit sum. */
  function Moved(brk: nat, increment: int): nat { (brk + increment) % 0x1_0000_0000 }

  /** What the call answers, and the break it leaves. */
  function SbrkSpec(b: Extent, increment: int, frames: nat): (Option<nat>, Extent)
  {
    var was := Begun(b);
    var to := Moved(was.brk, increment);
    if increment == 0 then (Some(was.brk), was)
    else if increment < 0 then
      if to < was.start then (None, was) else (Some(was.brk), was.(brk := to))
    else if to >= TOP_OF_HEAP || to < was.brk || frames < PagesBetween(was.brk, to) then (None, was)
    else (Some(was.brk), was.(brk := to))
  }

  /** SYS_SBRK: growing maps a frame for every page the break passes. */
  method Sbrk(b: Extent, increment: int, frames0: nat) returns (r: Option<nat>, b': Extent, frames: nat, mapped: seq<nat>)
    requires -0x8000_0000 <= increment < 0x8000_0000
    requires b.start <= b.brk < 0x1_0000_0000 || (b.brk == 0 && b.start < 0x1_0000_0000)
    ensures (r, b') == SbrkSpec(b, increment, frames0)
    ensures frames == frames0 - |mapped|
    ensures forall i :: 0 <= i < |mapped| ==> mapped[i] == RoundUp(b'.brk) - 4096 * (|mapped| - i) || r.None?
    ensures r.Some? && increment > 0 ==> |mapped| == PagesBetween(Begun(b).brk, b'.brk)
    ensures increment <= 0 ==> mapped == []
  {
    b', frames, mapped := Begun(b), frames0, [];
    if increment == 0 {
      return Some(b'.brk), b', frames, mapped;
    }
    var to := Moved(b'.brk, increment);
    if increment < 0 {
      if to < b'.start {
        return None, b', frames, mapped;
      }
    } else {
      if to >= TOP_OF_HEAP || to < b'.brk {
        return None, b', frames, mapped;
      }
      var page, last := RoundUp(b'.brk), RoundUp(to);
      RoundUpMono(b'.brk, to);
      while page < last
        invariant page + 4096 * (PagesBetween(b'.brk, to) - |mapped|) == last && page <= last
        invariant |mapped| <= PagesBetween(b'.brk, to) && frames == frames0 - |mapped|
        invariant forall i :: 0 <= i < |mapped| ==> mapped[i] == last - 4096 * (PagesBetween(b'.brk, to) - i)
        decreases last - page
      {
        if frames == 0 {
          return None, b', frames, mapped;
        }
        frames, mapped, page := frames - 1, mapped + [page], page + 4096;
      }
    }
    r, b' := Some(b'.brk), b'.(brk := to);
  }

  lemma RoundUpMono(a: nat, b: nat)
    requires a <= b
    ensures RoundUp(a) <= RoundUp(b) && RoundUp(a) + 4096 * PagesBetween(a, b) == RoundUp(b)
  {
    var x, y := (a + 4095) / 4096, (b + 4095) / 4096;
    assert x <= y;
  }

  /** A size above 2^31 reaches the system call as a negative increment. */
  function AsInt32(x: nat): int
    requires x < 0x1_0000_0000
  {
    if x < 0x8000_0000 then x else x - 0x1_0000_0000
  }

  /**
   * Why requests must stay small.  sbrk of n bytes, with the break between the heap's start and the
   * top, answers the old break and moves it n bytes up, unless that passes the top or there are fewer
   * frames than pages to map, when it refuses and the break stays: so it goes
   * if n is below 2^31.  From there on the call takes the branch for
   * shrinking: no page is mapped, however many lie below the new break, which
   * is n up or, round the end of memory, below the old one; or the call refuses.
   */
  lemma HugeRequestMapsNothing(n: nat, start: nat, brk: nat, frames: nat)
    requires n < 0x1_0000_0000 && 0 < start <= brk < TOP_OF_HEAP
    ensures AsInt32(n) < 0 <==> n >= 0x8000_0000
    ensures var (r, b) := SbrkSpec(Extent(start, brk), AsInt32(n), frames);
            if n < 0x8000_0000 then
              if brk + n >= TOP_OF_HEAP || frames < PagesBetween(brk, brk + n) then r.None? && b.brk == brk
              else r == Some(brk) && b.brk == brk + n
            else
              if brk + n < 0x1_0000_0000 then r.Some? && b.brk == brk + n && PagesBetween(brk, brk + n) > 0
              else if brk + n - 0x1_0000_0000 >= start then r.Some? && b.brk == brk + n - 0x1_0000_0000 < brk
              else r.None? && b.brk == brk
  {
    assert Moved(brk, AsInt32(n)) == if brk + n < 0x1_0000_0000 then brk + n else brk + n - 0x1_0000_0000;
  }
}
