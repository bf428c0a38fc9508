/**
 * What adding and deleting a directory entry does to every lookup.
 */
module FatDirUpdate {
  import opened FatConst
  import opened Bytes
  import opened FatNames
  import opened FatDir

  // ---------- the slots add_dir_entry writes ----------

  predicate IsEntry(attributes: nat, cluster: nat, size: nat) {
    attributes < 256 && attributes != ATTR_LFN && cluster < 0x1_0000 && size < 0x1_0000_0000
  }

  function EntrySlot(short: Short, attributes: nat, cluster: nat, size: nat): Slot
    requires IsEntry(attributes, cluster, size)
  {
    short + [attributes as byte, 0, 0, 0, 0, 0, 0, 0, 0, 0, 0, 0, 0, 0, 0] +
    [(cluster % 256) as byte, (cluster / 256) as byte,
     (size % 256) as byte, (size / 0x100 % 256) as byte, (size / 0x1_0000 % 256) as byte, (size / 0x100_0000) as byte]
  }

  /** The entry reads back as it was written. */
  lemma EntryReadsBack(short: Short, attributes: nat, cluster: nat, size: nat)
    requires IsEntry(attributes, cluster, size)
    ensures var s := EntrySlot(short, attributes, cluster, size);
            && s[..11] == short && s[11] == attributes && !IsLfn(s)
            && ClusterOf(s) == cluster && SizeOf(s) == size
  {
  }

  function Checksum(name: seq<byte>): byte { ChecksumOf(ShortName(name)) }

  /** Slot i of the run for a name: its long-name slots, last block first, then its entry. */
  function RunElement(name: seq<byte>, attributes: nat, cluster: nat, size: nat, i: nat): Slot
    requires IsName(name) && IsEntry(attributes, cluster, size) && i <= LfnCount(name)
  {
    LfnCountBound(name);
    var n := LfnCount(name);
    if i < n then LfnSlot(name, n - i, Checksum(name), i == 0)
    else EntrySlot(ShortName(name), attributes, cluster, size)
  }

  function NewRun(name: seq<byte>, attributes: nat, cluster: nat, size: nat): (run: Slots)
    requires IsName(name) && IsEntry(attributes, cluster, size)
    ensures |run| == LfnCount(name) + 1
  {
    seq(LfnCount(name) + 1, i requires 0 <= i <= LfnCount(name) => RunElement(name, attributes, cluster, size, i))
  }

  function Insert(slots: Slots, p: nat, run: Slots): Slots
    requires p + |run| <= |slots|
  {
    slots[..p] + run + slots[p + |run|..]
  }

  // ---------- where it writes them ----------

  predicate FreeRun(slots: Slots, p: nat, n: nat) {
    p + n <= |slots| && forall i :: p <= i < p + n ==> Free(slots[i])
  }

  ghost predicate IsFirstFit(slots: Slots, p: nat, n: nat) {
    FreeRun(slots, p, n) && forall q: nat :: q < p ==> !FreeRun(slots, q, n)
  }

  /** The first fit, with no orphaned long name right before it, which the new entry would be
      taken to belong to. */
  ghost predicate FitsAt(slots: Slots, p: nat, n: nat) {
    IsFirstFit(slots, p, n) && Boundary(slots, p)
  }

  /** No orphaned long name stands right before the room for n slots. */
  ghost predicate RoomApart(slots: Slots, n: nat) {
    forall p: nat :: IsFirstFit(slots, p, n) ==> FitsAt(slots, p, n)
  }

  lemma TidyRoom(slots: Slots, n: nat)
    requires Tidy(slots) && n > 0
    ensures RoomApart(slots, n)
  {
    forall p: nat | IsFirstFit(slots, p, n) ensures FitsAt(slots, p, n) {
      assert Free(slots[p]);
      assert p > 0 ==> NotOrphaned(slots, p - 1);
    }
  }

  lemma RunReachesBack(slots: Slots, p: nat, n: nat)
    requires FreeRun(slots, p, n) && p > 0 && Free(slots[p - 1])
    ensures FreeRun(slots, p - 1, n)
  {
  }

  lemma BehindLive(slots: Slots, p: nat, n: nat)
    requires WellFormed(slots) && IsFirstFit(slots, p, n) && n > 0
    ensures p > 0 ==> !Free(slots[p - 1])
    ensures forall i :: 0 <= i < p ==> slots[i][0] != 0
  {
    if p > 0 {
      if Free(slots[p - 1]) {
        RunReachesBack(slots, p, n);
      }
      forall i | 0 <= i < p ensures slots[i][0] != 0 {
        assert Unused(slots[i]) ==> Unused(slots[p - 1]);
      }
    }
  }

  // ---------- scanning the pieces ----------

  lemma {:induction false} FindReadsSuffix(a: Slots, b: Slots, k: nat, p: Pending, target: seq<byte>, kind: Kind)
    requires |a| == |b| && k <= |a| && a[k..] == b[k..]
    ensures Find(a, k, p, target, kind) == Find(b, k, p, target, kind)
    decreases |a| - k
  {
    if k < |a| {
      assert a[k] == a[k..][0] && b[k] == b[k..][0];
      assert a[k + 1..] == a[k..][1..] && b[k + 1..] == b[k..][1..];
      if a[k][0] != 0 {
        if a[k][0] == DELETED {
          FindReadsSuffix(a, b, k + 1, Clean, target, kind);
        } else if IsLfn(a[k]) {
          FindReadsSuffix(a, b, k + 1, After(a[k], k, p), target, kind);
        } else if !Matches(a[k], p, target, kind) {
          FindReadsSuffix(a, b, k + 1, Clean, target, kind);
        }
      }
    }
  }

  /** Free slots are scanned without effect, up to the first never-used one. */
  lemma {:induction false} AdvanceFree(slots: Slots, k: nat, to: nat, target: seq<byte>, kind: Kind)
    requires k <= to <= |slots| && forall i :: k <= i < to ==> Free(slots[i])
    ensures Advance(slots, k, to, Clean, target, kind) ==
            if exists i :: k <= i < to && slots[i][0] == 0 then Ended else At(Clean)
    decreases |slots| - k
  {
    if k < to && slots[k][0] != 0 {
      AdvanceFree(slots, k + 1, to, target, kind);
    }
  }

  lemma {:induction false} LfnCountBound(name: seq<byte>)
    requires IsName(name)
    ensures LfnCount(name) <= 20
    ensures NeedLfn(name) <==> LfnCount(name) > 0
  {
  }

  /** The pending state i slots into the run of a name placed at p. */
  function RunPending(name: seq<byte>, p: nat, i: nat): Pending
    requires IsName(name) && i <= LfnCount(name)
  {
    LfnCountBound(name);
    if i == 0 then Clean
    else Pending(Gather(name, LfnCount(name), LfnCount(name) - i + 1, Checksum(name), ZeroBuf), Checksum(name), p)
  }

  /** The long-name slots of the name stand at p. */
  ghost predicate NameAt(slots: Slots, p: nat, name: seq<byte>)
    requires IsName(name)
  {
    var n := LfnCount(name);
    && n <= 20 && p + n < |slots|
    && forall k :: p <= k < p + n ==> slots[k] == LfnSlot(name, n - (k - p), Checksum(name), k == p)
  }

  lemma LfnSlotLooks(name: seq<byte>, order: nat, checksum: byte, last: bool)
    requires IsName(name) && 1 <= order <= 20
    ensures var s := LfnSlot(name, order, checksum, last); !Free(s) && IsLfn(s) && s[13] == checksum
  {
  }

  lemma PendingStep(name: seq<byte>, p: nat, i: nat, s: Slot, k: nat)
    requires IsName(name) && i < LfnCount(name) <= 20 && k == p + i
    requires s == LfnSlot(name, LfnCount(name) - i, Checksum(name), i == 0) && s[13] == Checksum(name)
    ensures After(s, k, RunPending(name, p, i)) == RunPending(name, p, i + 1)
  {
    var n := LfnCount(name);
    var q := RunPending(name, p, i);
    assert q.buf == Gather(name, n, n - i + 1, Checksum(name), ZeroBuf);
    assert Gather(name, n, n - i, Checksum(name), ZeroBuf) == Extract(s, q.buf);
  }

  lemma RunLfn(slots: Slots, p: nat, name: seq<byte>, i: nat)
    requires IsName(name) && NameAt(slots, p, name) && i < LfnCount(name)
    ensures !Free(slots[p + i]) && IsLfn(slots[p + i])
    ensures After(slots[p + i], p + i, RunPending(name, p, i)) == RunPending(name, p, i + 1)
  {
    LfnSlotLooks(name, LfnCount(name) - i, Checksum(name), i == 0);
    PendingStep(name, p, i, slots[p + i], p + i);
  }

  /** A scan entering the run of a name with nothing pending leaves its long-name slots
      with exactly that name pending. */
  lemma {:induction false} AdvanceRun(slots: Slots, p: nat, name: seq<byte>, i: nat, to: nat, target: seq<byte>, kind: Kind)
    requires IsName(name) && NameAt(slots, p, name) && i <= LfnCount(name) && p + LfnCount(name) <= to <= |slots|
    ensures Advance(slots, p + i, to, RunPending(name, p, i), target, kind) ==
            Advance(slots, p + LfnCount(name), to, RunPending(name, p, LfnCount(name)), target, kind)
    decreases LfnCount(name) - i
  {
    if i < LfnCount(name) {
      RunLfn(slots, p, name, i);
      AdvanceRun(slots, p, name, i + 1, to, target, kind);
    }
  }

  // ---------- which lookups a new entry answers ----------

  predicate SameName(name: seq<byte>, target: seq<byte>) {
    if NeedLfn(name) then Lower(name) == Lower(target) else Format83(name) == Format83(target)
  }

  /** A scan sees the new entry at all: its short name must not begin with the deletion mark. */
  predicate Visible(name: seq<byte>) { ShortName(name)[0] != DELETED }

  predicate Answers(name: seq<byte>, attributes: nat, target: seq<byte>, kind: Kind) {
    && Visible(name)
    && SameName(name, target)
    && (kind.Any? || (kind.DirOnly? <==> (attributes / 16) % 2 == 1))
  }

  lemma RunPendingFull(name: seq<byte>, p: nat)
    requires IsName(name)
    ensures var q := RunPending(name, p, LfnCount(name));
            if NeedLfn(name) then q.buf[0] != 0 && CString(q.buf) == name && q.checksum == Checksum(name) && q.start == p
            else q == Clean
  {
    LfnCountBound(name);
    if NeedLfn(name) {
      LongNameRoundTrip(name, Checksum(name));
    }
  }

  lemma CleanIsEmpty()
    ensures Clean.buf[0] == 0 && Clean.start == -1
  {
  }

  lemma GeneratedNotZero(name: seq<byte>)
    requires IsName(name)
    ensures GenerateShort(name)[0] != 0
  {
    TrimKeeps(name);
    StemNotZero(TrimStart(name), 6);
    assert GenerateShort(name)[0] == ShortHead(name)[0];
  }

  lemma FormattedNotZero(name: seq<byte>)
    requires IsName(name)
    ensures Format83(name)[0] != 0
  {
  }

  lemma ShortNotZero(name: seq<byte>)
    requires IsName(name)
    ensures ShortName(name)[0] != 0
  {
    GeneratedNotZero(name);
    FormattedNotZero(name);
  }

  lemma {:induction false} TrimKeeps(s: seq<byte>)
    requires forall i :: 0 <= i < |s| ==> s[i] != 0
    ensures forall i :: 0 <= i < |TrimStart(s)| ==> TrimStart(s)[i] != 0
  {
    if s != [] && Skipped(s[0]) {
      TrimKeeps(s[1..]);
    }
  }

  lemma {:induction false} StemNotZero(s: seq<byte>, room: nat)
    requires forall i :: 0 <= i < |s| ==> s[i] != 0
    ensures forall i :: 0 <= i < |Stem(s, room)| ==> Stem(s, room)[i] != 0
    decreases |s|
  {
    if s != [] && s[0] != DOT && room != 0 {
      StemNotZero(s[1..], room);
      StemNotZero(s[1..], room - 1);
    }
  }

  /** slots holds the run of a new entry at p. */
  ghost predicate RunAt(slots: Slots, p: nat, name: seq<byte>, attributes: nat, cluster: nat, size: nat)
    requires IsName(name) && IsEntry(attributes, cluster, size)
  {
    && NameAt(slots, p, name)
    && slots[p + LfnCount(name)] == EntrySlot(ShortName(name), attributes, cluster, size)
  }

  /** The short entry decides. */
  lemma EntryDecides(s: Slot, q: Pending, p: nat, name: seq<byte>, attributes: nat, cluster: nat, size: nat,
                     target: seq<byte>, kind: Kind)
    requires IsName(name) && IsEntry(attributes, cluster, size)
    requires s == EntrySlot(ShortName(name), attributes, cluster, size)
    requires q == RunPending(name, p, LfnCount(name))
    ensures s[0] != 0 && (s[0] == DELETED <==> !Visible(name)) && !IsLfn(s)
    ensures Checked(s, q) == q && StartOf(q, p + LfnCount(name)) == p
    ensures Visible(name) ==> (Matches(s, q, target, kind) <==> Answers(name, attributes, target, kind))
  {
    EntryReadsBack(ShortName(name), attributes, cluster, size);
    RunPendingFull(name, p);
    CleanIsEmpty();
    ShortNotZero(name);
    LfnCountBound(name);
    assert s[0] == s[..11][0];
  }

  /** How a scan goes through the run of a new entry. */
  lemma AdvanceNew(slots: Slots, p: nat, name: seq<byte>, attributes: nat, cluster: nat, size: nat,
                   target: seq<byte>, kind: Kind)
    requires IsName(name) && IsEntry(attributes, cluster, size) && RunAt(slots, p, name, attributes, cluster, size)
    ensures Advance(slots, p, p + LfnCount(name) + 1, Clean, target, kind) ==
            if Answers(name, attributes, target, kind) then Found(Hit(p, p + LfnCount(name))) else At(Clean)
  {
    var k := p + LfnCount(name);
    AdvanceRun(slots, p, name, 0, k + 1, target, kind);
    EntryDecides(slots[k], RunPending(name, p, LfnCount(name)), p, name, attributes, cluster, size, target, kind);
    assert Advance(slots, k + 1, k + 1, Clean, target, kind) == At(Clean);
  }
}
