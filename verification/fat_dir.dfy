/**
 * Directories of fat16.c as sequences of 32-byte slots: the scan that looks a name up, the
 * first-fit insertion of add_dir_entry, and the deletion of an entry with its long name.
 */
module FatDir {
  import opened Common
  import opened FatConst
  import opened Bytes
  import opened FatNames

  type Slots = seq<Slot>

  /** Which entries an operation accepts: find_entry takes any, delete_file files only,
      delete_dir directories only. */
  datatype Kind = Any | FileOnly | DirOnly

  predicate IsDirSlot(s: Slot) { (s[11] / 16) % 2 == 1 }
  predicate IsLfn(s: Slot) { s[11] == ATTR_LFN }
  /** The slots add_dir_entry counts as free. */
  predicate Free(s: Slot) { s[0] == 0 || s[0] == DELETED }

  function ClusterOf(s: Slot): nat { (s[26] as int) + 256 * (s[27] as int) }
  function SizeOf(s: Slot): nat {
    (s[28] as int) + 0x100 * (s[29] as int) + 0x1_0000 * (s[30] as int) + 0x100_0000 * (s[31] as int)
  }

  /** What a scan carries from slot to slot: lfn_buf, lfn_chksum, and where the pending long
      name began (or -1). */
  datatype Pending = Pending(buf: NameBuf, checksum: byte, start: int)

  const Clean: Pending := Pending(ZeroBuf, 0, -1)

  datatype Hit = Hit(start: nat, slot: nat)

  /** The long name that counts for a short entry: none when its checksum disagrees. */
  function Checked(s: Slot, p: Pending): Pending {
    if p.buf[0] != 0 && p.checksum != ChecksumOf(s[..11]) then Clean else p
  }

  predicate NameMatches(s: Slot, buf: NameBuf, target: seq<byte>) {
    if buf[0] != 0 then Lower(CString(buf)) == Lower(target) else s[..11] == Format83(target)
  }

  predicate KindMatches(s: Slot, kind: Kind) {
    kind.Any? || (kind.DirOnly? <==> IsDirSlot(s))
  }

  predicate Matches(s: Slot, p: Pending, target: seq<byte>, kind: Kind) {
    NameMatches(s, Checked(s, p).buf, target) && KindMatches(s, kind)
  }

  /** Where the entry at slot k begins: at its long name, if it has one. */
  function StartOf(p: Pending, k: nat): nat { if p.start < 0 then k else p.start }

  /** The scan from slot k on. */
  function Find(slots: Slots, k: nat, p: Pending, target: seq<byte>, kind: Kind): (r: Option<Hit>)
    requires k <= |slots|
    decreases |slots| - k
  {
    if k == |slots| || slots[k][0] == 0 then None
    else if slots[k][0] == DELETED then Find(slots, k + 1, Clean, target, kind)
    else if IsLfn(slots[k]) then Find(slots, k + 1, After(slots[k], k, p), target, kind)
    else if Matches(slots[k], p, target, kind) then
      Some(Hit(StartOf(Checked(slots[k], p), k), k))
    else Find(slots, k + 1, Clean, target, kind)
  }

  /** The pending state after long-name slot k. */
  function After(s: Slot, k: nat, p: Pending): Pending {
    Pending(Extract(s, p.buf), s[13], StartOf(p, k))
  }

  /** The entry a name resolves to. */
  function Lookup(slots: Slots, target: seq<byte>, kind: Kind): Option<Hit> {
    Find(slots, 0, Clean, target, kind)
  }

  // ---------- well-formed directories ----------

  /** Long-name slots lead, with one checksum, to the short entry they belong to, or else to a
      free slot, at which a scan forgets them. */
  predicate Leads(s: Slot, next: Slot) {
    Free(next) || s[13] == (if IsLfn(next) then next[13] else ChecksumOf(next[..11]))
  }

  /** A slot never used: no entry follows it. */
  predicate Unused(s: Slot) { s[0] == 0 }

  ghost predicate WellFormed(slots: Slots) {
    && (forall i, j {:trigger Unused(slots[i]), Unused(slots[j])} :: 0 <= i < j < |slots| && Unused(slots[i]) ==> Unused(slots[j]))
    && (forall i {:trigger IsLfn(slots[i])} :: 0 <= i < |slots| && !Free(slots[i]) && IsLfn(slots[i]) ==>
          FitsBuf(slots[i]) && (i + 1 < |slots| ==> Leads(slots[i], slots[i + 1])))
  }

  /** A long-name slot at i has an entry to lead to. */
  predicate NotOrphaned(slots: Slots, i: nat) {
    i < |slots| && !Free(slots[i]) && IsLfn(slots[i]) ==> i + 1 < |slots| && !Free(slots[i + 1])
  }

  /** Every long name has its entry. */
  ghost predicate Tidy(slots: Slots) {
    forall i: nat {:trigger NotOrphaned(slots, i)} :: NotOrphaned(slots, i)
  }

  /** A position no pending long name reaches across. */
  predicate Boundary(slots: Slots, p: nat) {
    p == 0 || p > |slots| || Free(slots[p - 1]) || !IsLfn(slots[p - 1])
  }

  // ---------- scanning a prefix ----------

  datatype Progress = Found(hit: Hit) | Ended | At(pending: Pending)

  /** The scan from k, stopped at `to`. */
  function Advance(slots: Slots, k: nat, to: nat, p: Pending, target: seq<byte>, kind: Kind): Progress
    requires k <= to <= |slots|
    decreases |slots| - k
  {
    if k == to then At(p)
    else if slots[k][0] == 0 then Ended
    else if slots[k][0] == DELETED then Advance(slots, k + 1, to, Clean, target, kind)
    else if IsLfn(slots[k]) then Advance(slots, k + 1, to, After(slots[k], k, p), target, kind)
    else if Matches(slots[k], p, target, kind) then
      Found(Hit(StartOf(Checked(slots[k], p), k), k))
    else Advance(slots, k + 1, to, Clean, target, kind)
  }

  function Resume(slots: Slots, to: nat, r: Progress, target: seq<byte>, kind: Kind): Option<Hit>
    requires to <= |slots|
  {
    match r
    case Found(hit) => Some(hit)
    case Ended => None
    case At(p) => Find(slots, to, p, target, kind)
  }

  lemma {:induction false} FindSplits(slots: Slots, k: nat, to: nat, p: Pending, target: seq<byte>, kind: Kind)
    requires k <= to <= |slots|
    ensures Find(slots, k, p, target, kind) == Resume(slots, to, Advance(slots, k, to, p, target, kind), target, kind)
    decreases |slots| - k
  {
    if k < to && slots[k][0] != 0 {
      if slots[k][0] == DELETED {
        FindSplits(slots, k + 1, to, Clean, target, kind);
      } else if IsLfn(slots[k]) {
        FindSplits(slots, k + 1, to, After(slots[k], k, p), target, kind);
      } else if !Matches(slots[k], p, target, kind) {
        FindSplits(slots, k + 1, to, Clean, target, kind);
      }
    }
  }

  lemma {:induction false} AdvanceReadsPrefix(a: Slots, b: Slots, k: nat, to: nat, p: Pending, target: seq<byte>, kind: Kind)
    requires k <= to <= |a| && to <= |b| && (forall i :: k <= i < to ==> a[i] == b[i])
    ensures Advance(a, k, to, p, target, kind) == Advance(b, k, to, p, target, kind)
    decreases |a| - k
  {
    if k < to && a[k][0] != 0 {
      if a[k][0] == DELETED {
        AdvanceReadsPrefix(a, b, k + 1, to, Clean, target, kind);
      } else if IsLfn(a[k]) {
        AdvanceReadsPrefix(a, b, k + 1, to, After(a[k], k, p), target, kind);
      } else if !Matches(a[k], p, target, kind) {
        AdvanceReadsPrefix(a, b, k + 1, to, Clean, target, kind);
      }
    }
  }

  /** What a scan of a well-formed directory is carrying when it reaches slot k. */
  ghost predicate Paused(slots: Slots, k: nat, p: Pending) {
    if Boundary(slots, k) then p == Clean else Carrying(slots, k, p)
  }

  lemma LfnPauses(slots: Slots, k: nat, p: Pending)
    requires k < |slots| && !Free(slots[k]) && IsLfn(slots[k]) && Paused(slots, k, p)
    ensures Paused(slots, k + 1, After(slots[k], k, p))
  {
  }

  /** Where a scan pauses it is carrying nothing at a boundary, and in the middle of a long
      name the start of the long name is a boundary. */
  lemma {:induction false} AdvancePauses(slots: Slots, k: nat, to: nat, p: Pending, target: seq<byte>, kind: Kind)
    requires WellFormed(slots) && k <= to <= |slots|
    requires Paused(slots, k, p)
    ensures var r := Advance(slots, k, to, p, target, kind); r.At? ==> Paused(slots, to, r.pending)
    decreases |slots| - k
  {
    if k < to && slots[k][0] != 0 {
      if slots[k][0] == DELETED {
        AdvancePauses(slots, k + 1, to, Clean, target, kind);
      } else if IsLfn(slots[k]) {
        LfnPauses(slots, k, p);
        AdvancePauses(slots, k + 1, to, After(slots[k], k, p), target, kind);
      } else if !Matches(slots[k], p, target, kind) {
        AdvancePauses(slots, k + 1, to, Clean, target, kind);
      }
    }
  }

  /** Inside a long name: it began at a boundary, every slot since is part of it, and its
      checksum is the one the next slot expects. */
  ghost predicate Carrying(slots: Slots, k: nat, p: Pending) {
    && 0 <= p.start < k <= |slots|
    && Boundary(slots, p.start)
    && (forall i :: p.start <= i < k ==> !Free(slots[i]) && IsLfn(slots[i]))
    && p.checksum == slots[k - 1][13]
  }

  /** In a well-formed directory the checksum test never fails. */
  lemma CheckedPasses(slots: Slots, k: nat, p: Pending)
    requires WellFormed(slots) && k < |slots| && !Free(slots[k]) && !IsLfn(slots[k])
    requires Paused(slots, k, p)
    ensures Checked(slots[k], p) == p
  {
    if !Boundary(slots, k) {
      assert Leads(slots[k - 1], slots[k]);
    }
  }

  lemma HitHere(slots: Slots, k: nat, p: Pending)
    requires WellFormed(slots) && k < |slots| && !Free(slots[k]) && !IsLfn(slots[k]) && Paused(slots, k, p)
    ensures ValidHit(slots, Hit(StartOf(Checked(slots[k], p), k), k))
  {
    CheckedPasses(slots, k, p);
  }

  /** A hit is a live short entry of the right kind, and its long name reaches from a
      boundary right up to it. */
  lemma {:induction false} HitIsEntry(slots: Slots, k: nat, p: Pending, target: seq<byte>, kind: Kind)
    requires WellFormed(slots) && k <= |slots|
    requires Paused(slots, k, p)
    ensures var r := Find(slots, k, p, target, kind);
            r.Some? ==> ValidHit(slots, r.value) && k <= r.value.slot && KindMatches(slots[r.value.slot], kind)
    decreases |slots| - k
  {
    if k < |slots| && slots[k][0] != 0 {
      if slots[k][0] == DELETED {
        HitIsEntry(slots, k + 1, Clean, target, kind);
      } else if IsLfn(slots[k]) {
        LfnPauses(slots, k, p);
        HitIsEntry(slots, k + 1, After(slots[k], k, p), target, kind);
      } else {
        HitHere(slots, k, p);
        if !Matches(slots[k], p, target, kind) {
          HitIsEntry(slots, k + 1, Clean, target, kind);
        }
      }
    }
  }

  ghost predicate ValidHit(slots: Slots, h: Hit) {
    && h.start <= h.slot < |slots|
    && !Free(slots[h.slot]) && !IsLfn(slots[h.slot])
    && Boundary(slots, h.start)
    && (forall i {:trigger IsLfn(slots[i])} :: h.start <= i < h.slot ==> !Free(slots[i]) && IsLfn(slots[i]))
  }
}
