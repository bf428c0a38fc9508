/**
 * The directory theorems: what add_dir_entry and mark_entries_deleted do to every lookup,
 * and that they keep a directory well formed.
 */
module FatDirTheorems {
  import opened Common
  import opened FatConst
  import opened Bytes
  import opened FatNames
  import opened FatDir
  import opened FatDirUpdate

  function Added(slots: Slots, p: nat, name: seq<byte>, attributes: nat, cluster: nat, size: nat): Slots
    requires IsName(name) && IsEntry(attributes, cluster, size) && p + LfnCount(name) + 1 <= |slots|
  {
    Insert(slots, p, NewRun(name, attributes, cluster, size))
  }

  /** a differs from slots only by the run of the entry, which stands at p. */
  ghost predicate IsAdded(slots: Slots, a: Slots, p: nat, name: seq<byte>, attributes: nat, cluster: nat, size: nat)
    requires IsName(name) && IsEntry(attributes, cluster, size)
  {
    && |a| == |slots| && p + LfnCount(name) + 1 <= |a|
    && a[..p] == slots[..p]
    && a[p + LfnCount(name) + 1..] == slots[p + LfnCount(name) + 1..]
    && RunAt(a, p, name, attributes, cluster, size)
  }

  lemma AddedShape(slots: Slots, p: nat, name: seq<byte>, attributes: nat, cluster: nat, size: nat)
    requires IsName(name) && IsEntry(attributes, cluster, size) && p + LfnCount(name) + 1 <= |slots|
    ensures IsAdded(slots, Added(slots, p, name, attributes, cluster, size), p, name, attributes, cluster, size)
  {
    LfnCountBound(name);
    var a := Added(slots, p, name, attributes, cluster, size);
    var run := NewRun(name, attributes, cluster, size);
    var n := LfnCount(name);
    assert a[p..p + n + 1] == run;
    forall k | p <= k < p + n + 1 ensures a[k] == run[k - p] {
      assert a[k] == a[p..p + n + 1][k - p];
    }
  }

  /** An entry is added at a first fit. */
  ghost predicate Adds(slots: Slots, a: Slots, p: nat, name: seq<byte>, attributes: nat, cluster: nat, size: nat) {
    && IsName(name) && IsEntry(attributes, cluster, size) && WellFormed(slots) && FitsAt(slots, p, LfnCount(name) + 1)
    && a == Added(slots, p, name, attributes, cluster, size)
  }

  /** The rest of a directory whose never-used slots begin before k holds nothing. */
  lemma NothingAfterZero(slots: Slots, i: nat, k: nat, target: seq<byte>, kind: Kind)
    requires WellFormed(slots) && i < k <= |slots| && slots[i][0] == 0
    ensures Find(slots, k, Clean, target, kind) == None
  {
    assert k < |slots| ==> Unused(slots[i]) && Unused(slots[k]);
  }

  /** A first-fit run of free slots is skipped by every lookup. */
  lemma SkipsFreeRun(slots: Slots, p: nat, n: nat, target: seq<byte>, kind: Kind)
    requires WellFormed(slots) && FreeRun(slots, p, n)
    ensures Find(slots, p, Clean, target, kind) == Find(slots, p + n, Clean, target, kind)
  {
    AdvanceFree(slots, p, p + n, target, kind);
    FindSplits(slots, p, p + n, Clean, target, kind);
    if exists i :: p <= i < p + n && slots[i][0] == 0 {
      var i :| p <= i < p + n && slots[i][0] == 0;
      NothingAfterZero(slots, i, p + n, target, kind);
    }
  }

  /** Two directories that agree before the boundary p, and from which lookups standing at
      p continue alike, answer alike. */
  lemma SamePrefix(a: Slots, b: Slots, p: nat, target: seq<byte>, kind: Kind)
    requires WellFormed(a) && |a| == |b| && p <= |a| && a[..p] == b[..p] && Boundary(a, p)
    requires Find(a, p, Clean, target, kind) == Find(b, p, Clean, target, kind)
    ensures Lookup(a, target, kind) == Lookup(b, target, kind)
  {
    PrefixDecides(a, b, p, target, kind);
  }

  /** The scan of the common prefix: it hits the same entry in both, or reaches p with
      nothing pending in both. */
  lemma PrefixDecides(a: Slots, b: Slots, p: nat, target: seq<byte>, kind: Kind)
    requires WellFormed(a) && |a| == |b| && p <= |a| && a[..p] == b[..p] && Boundary(a, p)
    ensures || (Lookup(a, target, kind) == Lookup(b, target, kind) == None)
            || (Lookup(a, target, kind) == Lookup(b, target, kind) && Lookup(a, target, kind).Some?
                && Lookup(a, target, kind).value.slot < p)
            || (Lookup(a, target, kind) == Find(a, p, Clean, target, kind)
                && Lookup(b, target, kind) == Find(b, p, Clean, target, kind))
  {
    PrefixDecidesFrom(a, b, 0, p, target, kind);
  }

  lemma PrefixDecidesFrom(a: Slots, b: Slots, q: nat, p: nat, target: seq<byte>, kind: Kind)
    requires WellFormed(a) && |a| == |b| && q <= p <= |a| && a[..p] == b[..p] && Boundary(a, q) && Boundary(a, p)
    ensures || (Find(a, q, Clean, target, kind) == Find(b, q, Clean, target, kind) == None)
            || (Find(a, q, Clean, target, kind) == Find(b, q, Clean, target, kind) && Find(a, q, Clean, target, kind).Some?
                && Find(a, q, Clean, target, kind).value.slot < p)
            || (Find(a, q, Clean, target, kind) == Find(a, p, Clean, target, kind)
                && Find(b, q, Clean, target, kind) == Find(b, p, Clean, target, kind))
  {
    assert forall i :: 0 <= i < p ==> a[i] == a[..p][i] && b[i] == b[..p][i];
    FindSplits(a, q, p, Clean, target, kind);
    FindSplits(b, q, p, Clean, target, kind);
    AdvanceReadsPrefix(a, b, q, p, Clean, target, kind);
    AdvancePauses(a, q, p, Clean, target, kind);
    FoundBefore(a, q, p, Clean, target, kind);
  }

  lemma {:induction false} FoundBefore(slots: Slots, k: nat, to: nat, p: Pending, target: seq<byte>, kind: Kind)
    requires k <= to <= |slots|
    ensures var r := Advance(slots, k, to, p, target, kind); r.Found? ==> k <= r.hit.slot < to
    decreases |slots| - k
  {
    if k < to && slots[k][0] != 0 {
      if slots[k][0] == DELETED {
        FoundBefore(slots, k + 1, to, Clean, target, kind);
      } else if IsLfn(slots[k]) {
        FoundBefore(slots, k + 1, to, After(slots[k], k, p), target, kind);
      } else if !Matches(slots[k], p, target, kind) {
        FoundBefore(slots, k + 1, to, Clean, target, kind);
      }
    }
  }

  /**
   * Adding an entry at the first fit.  A lookup that the new entry does not answer is
   * unchanged; one that it answers, and that found nothing before, finds the new entry.
   */
  lemma LookupAfterAdd(slots: Slots, p: nat, name: seq<byte>, attributes: nat, cluster: nat, size: nat,
                       target: seq<byte>, kind: Kind)
    requires IsName(name) && IsEntry(attributes, cluster, size)
    requires WellFormed(slots) && FitsAt(slots, p, LfnCount(name) + 1)
    ensures var a := Added(slots, p, name, attributes, cluster, size);
            && (!Answers(name, attributes, target, kind) ==> Lookup(a, target, kind) == Lookup(slots, target, kind))
            && (Answers(name, attributes, target, kind) && Lookup(slots, target, kind).None? ==>
                  Lookup(a, target, kind) == Some(Hit(p, p + LfnCount(name))))
  {
    var a := Added(slots, p, name, attributes, cluster, size);
    AddedShape(slots, p, name, attributes, cluster, size);
    BehindLive(slots, p, LfnCount(name) + 1);
    FromTheRun(slots, a, p, name, attributes, cluster, size, target, kind);
    NoneBefore(slots, a, 0, p, target, kind);
  }

  /** Lookups that have come as far as the run. */
  lemma FromTheRun(slots: Slots, a: Slots, p: nat, name: seq<byte>, attributes: nat, cluster: nat, size: nat,
                   target: seq<byte>, kind: Kind)
    requires IsName(name) && IsEntry(attributes, cluster, size)
    requires WellFormed(slots) && FreeRun(slots, p, LfnCount(name) + 1)
    requires IsAdded(slots, a, p, name, attributes, cluster, size)
    ensures Find(a, p, Clean, target, kind) ==
            if Answers(name, attributes, target, kind) then Some(Hit(p, p + LfnCount(name)))
            else Find(slots, p, Clean, target, kind)
  {
    var to := p + LfnCount(name) + 1;
    SkipsFreeRun(slots, p, LfnCount(name) + 1, target, kind);
    FindReadsSuffix(a, slots, to, Clean, target, kind);
    FindNew(a, p, name, attributes, cluster, size, target, kind);
  }

  /** A second entry for a name that resolves already: the one that stands first is found. */
  lemma AddAgain(slots: Slots, p: nat, name: seq<byte>, attributes: nat, cluster: nat, size: nat, target: seq<byte>, kind: Kind, h: Hit)
    requires IsName(name) && IsEntry(attributes, cluster, size)
    requires WellFormed(slots) && FitsAt(slots, p, LfnCount(name) + 1)
    requires Answers(name, attributes, target, kind) && Lookup(slots, target, kind) == Some(h)
    ensures Lookup(Added(slots, p, name, attributes, cluster, size), target, kind) == Some(if h.slot < p then h else Hit(p, p + LfnCount(name)))
  {
    var a := Added(slots, p, name, attributes, cluster, size);
    AddedShape(slots, p, name, attributes, cluster, size);
    BehindLive(slots, p, LfnCount(name) + 1);
    FromTheRun(slots, a, p, name, attributes, cluster, size, target, kind);
    PrefixDecides(slots, a, p, target, kind);
    HitIsEntry(slots, p, Clean, target, kind);
  }

  lemma FindNew(a: Slots, p: nat, name: seq<byte>, attributes: nat, cluster: nat, size: nat,
                target: seq<byte>, kind: Kind)
    requires IsName(name) && IsEntry(attributes, cluster, size) && RunAt(a, p, name, attributes, cluster, size)
    ensures Find(a, p, Clean, target, kind) ==
            if Answers(name, attributes, target, kind) then Some(Hit(p, p + LfnCount(name)))
            else Find(a, p + LfnCount(name) + 1, Clean, target, kind)
  {
    AdvanceNew(a, p, name, attributes, cluster, size, target, kind);
    FindSplits(a, p, p + LfnCount(name) + 1, Clean, target, kind);
  }

  /** With no never-used slot before p, a scan from the boundary q that finds nothing has passed p. */
  lemma NoneBefore(slots: Slots, a: Slots, q: nat, p: nat, target: seq<byte>, kind: Kind)
    requires WellFormed(slots) && |a| == |slots| && q <= p <= |slots| && a[..p] == slots[..p]
    requires Boundary(slots, p) && Boundary(slots, q)
    requires forall i :: 0 <= i < p ==> slots[i][0] != 0
    ensures || (Find(slots, q, Clean, target, kind) == Find(a, q, Clean, target, kind) && Find(slots, q, Clean, target, kind).Some?)
            || (Find(slots, q, Clean, target, kind) == Find(slots, p, Clean, target, kind)
                && Find(a, q, Clean, target, kind) == Find(a, p, Clean, target, kind))
  {
    assert forall i :: 0 <= i < p ==> slots[i] == slots[..p][i] && a[i] == a[..p][i];
    FindSplits(slots, q, p, Clean, target, kind);
    FindSplits(a, q, p, Clean, target, kind);
    AdvanceReadsPrefix(slots, a, q, p, Clean, target, kind);
    AdvancePauses(slots, q, p, Clean, target, kind);
    NeverEnds(slots, q, p, Clean, target, kind);
  }

  lemma {:induction false} NeverEnds(slots: Slots, k: nat, to: nat, p: Pending, target: seq<byte>, kind: Kind)
    requires k <= to <= |slots| && forall i :: k <= i < to ==> slots[i][0] != 0
    ensures !Advance(slots, k, to, p, target, kind).Ended?
    decreases |slots| - k
  {
    if k < to {
      if slots[k][0] == DELETED {
        NeverEnds(slots, k + 1, to, Clean, target, kind);
      } else if IsLfn(slots[k]) {
        NeverEnds(slots, k + 1, to, After(slots[k], k, p), target, kind);
      } else if !Matches(slots[k], p, target, kind) {
        NeverEnds(slots, k + 1, to, Clean, target, kind);
      }
    }
  }

  /**
   * add_dir_entry followed by a scan for the same name.  The scan returns exactly the added
   * cluster, size and attributes if and only if the generated short name does not begin
   * with the byte 0xE5, which the directory format reserves for deleted entries; otherwise
   * it finds nothing.
   */
  lemma AddThenFind(slots: Slots, p: nat, name: seq<byte>, attributes: nat, cluster: nat, size: nat)
    requires IsName(name) && IsEntry(attributes, cluster, size)
    requires WellFormed(slots) && FitsAt(slots, p, LfnCount(name) + 1)
    requires Lookup(slots, name, Any).None?
    ensures var a := Added(slots, p, name, attributes, cluster, size);
            var r := Lookup(a, name, Any);
            && (r.Some? <==> ShortName(name)[0] != DELETED)
            && (r.Some? ==> r.value.slot < |a|
                            && var s := a[r.value.slot];
                            ClusterOf(s) == cluster && SizeOf(s) == size && s[11] == attributes)
  {
    AddedShape(slots, p, name, attributes, cluster, size);
    LookupAfterAdd(slots, p, name, attributes, cluster, size, name, Any);
    EntryReadsBack(ShortName(name), attributes, cluster, size);
  }

  /** The case exists: a one-byte name 0xE5 is written as a short entry every scan skips. */
  lemma InvisibleName()
    ensures IsName([DELETED]) && !Visible([DELETED])
  {
    var name: seq<byte> := [DELETED];
    assert Format83(name)[0] == FieldByte(name[..IndexOf(name, DOT)], 0);
  }

  /** An addition keeps the directory well formed, in particular the rule that nothing follows the
      first never-used slot. */
  lemma AddKeepsWellFormed(slots: Slots, p: nat, name: seq<byte>, attributes: nat, cluster: nat, size: nat)
    requires IsName(name) && IsEntry(attributes, cluster, size)
    requires WellFormed(slots) && FitsAt(slots, p, LfnCount(name) + 1)
    ensures WellFormed(Added(slots, p, name, attributes, cluster, size))
  {
    var a := Added(slots, p, name, attributes, cluster, size);
    AddedShape(slots, p, name, attributes, cluster, size);
    RunLeadsOn(a, p, name, attributes, cluster, size);
    StaysWellFormed(slots, a, p, LfnCount(name) + 1);
  }

  /**
   * It leaves every long name with its entry if and only if the new entry is visible or has no
   * long name.  An invisible short entry counts as free and so leaves its long name orphaned.
   */
  lemma AddKeepsTidy(slots: Slots, p: nat, name: seq<byte>, attributes: nat, cluster: nat, size: nat)
    requires IsName(name) && IsEntry(attributes, cluster, size)
    requires Tidy(slots) && IsFirstFit(slots, p, LfnCount(name) + 1)
    ensures Tidy(Added(slots, p, name, attributes, cluster, size)) <==> Visible(name) || LfnCount(name) == 0
  {
    var a := Added(slots, p, name, attributes, cluster, size);
    AddedShape(slots, p, name, attributes, cluster, size);
    SameOutside(slots, a, p, LfnCount(name) + 1);
    RunLooks(a, p, name, attributes, cluster, size);
    RunTidy(slots, a, p, p + LfnCount(name));
  }

  /** Long-name slots from p up to the short entry at q, in place of free ones. */
  lemma RunTidy(slots: Slots, a: Slots, p: nat, q: nat)
    requires Tidy(slots) && p <= q < |slots| == |a|
    requires forall i :: 0 <= i < p ==> a[i] == slots[i]
    requires forall i :: q < i < |a| ==> a[i] == slots[i]
    requires forall i :: p <= i <= q ==> Free(slots[i])
    requires forall i :: p <= i < q ==> !Free(a[i]) && IsLfn(a[i])
    requires !IsLfn(a[q])
    ensures Tidy(a) <==> !Free(a[q]) || p == q
  {
    forall i: nat | i + 1 != q ensures NotOrphaned(a, i) {
      assert NotOrphaned(slots, i);
    }
    assert p < q ==> (NotOrphaned(a, q - 1) <==> !Free(a[q]));
    if p == q && p > 0 {
      assert NotOrphaned(slots, p - 1);
    }
  }

  /** The slots of a new entry: long-name slots, then a short entry that is free when invisible. */
  lemma RunLooks(a: Slots, p: nat, name: seq<byte>, attributes: nat, cluster: nat, size: nat)
    requires IsName(name) && IsEntry(attributes, cluster, size) && RunAt(a, p, name, attributes, cluster, size)
    ensures forall i :: p <= i < p + LfnCount(name) ==> !Free(a[i]) && IsLfn(a[i])
    ensures !IsLfn(a[p + LfnCount(name)]) && (Free(a[p + LfnCount(name)]) <==> !Visible(name))
  {
    EntryReadsBack(ShortName(name), attributes, cluster, size);
    ShortNotZero(name);
    assert a[p + LfnCount(name)][0] == a[p + LfnCount(name)][..11][0];
    forall i | p <= i < p + LfnCount(name) ensures !Free(a[i]) && IsLfn(a[i]) {
      LfnSlotLooks(name, LfnCount(name) - (i - p), Checksum(name), i == p);
    }
  }

  /** Well-formed slots in place of a first-fit run of free ones. */
  lemma StaysWellFormed(slots: Slots, a: Slots, p: nat, n: nat)
    requires WellFormed(slots) && n > 0 && FitsAt(slots, p, n)
    requires |a| == |slots| && a[..p] == slots[..p] && a[p + n..] == slots[p + n..]
    requires forall i :: p <= i < p + n ==> a[i][0] != 0
    requires forall i :: p <= i < p + n - 1 ==> FitsBuf(a[i]) && Leads(a[i], a[i + 1])
    requires !IsLfn(a[p + n - 1])
    ensures WellFormed(a)
  {
    BehindLive(slots, p, n);
    SameOutside(slots, a, p, n);
    ZerosStay(slots, a, p, n);
    LeadsStay(slots, a, p, n);
  }

  lemma SameOutside(slots: Slots, a: Slots, p: nat, n: nat)
    requires |a| == |slots| && p + n <= |a| && a[..p] == slots[..p] && a[p + n..] == slots[p + n..]
    ensures forall i :: 0 <= i < p ==> a[i] == slots[i]
    ensures forall i :: p + n <= i < |a| ==> a[i] == slots[i]
  {
    forall i | 0 <= i < p ensures a[i] == slots[i] {
      assert a[i] == a[..p][i] && slots[i] == slots[..p][i];
    }
    forall i | p + n <= i < |a| ensures a[i] == slots[i] {
      assert a[i] == a[p + n..][i - (p + n)] && slots[i] == slots[p + n..][i - (p + n)];
    }
  }

  /** The long-name slots of a new entry lead to its short one. */
  lemma RunLeadsOn(a: Slots, p: nat, name: seq<byte>, attributes: nat, cluster: nat, size: nat)
    requires IsName(name) && IsEntry(attributes, cluster, size) && RunAt(a, p, name, attributes, cluster, size)
    ensures forall i :: p <= i <= p + LfnCount(name) ==> a[i][0] != 0
    ensures forall i :: p <= i < p + LfnCount(name) ==> FitsBuf(a[i]) && Leads(a[i], a[i + 1])
    ensures !IsLfn(a[p + LfnCount(name)])
  {
    RunLooks(a, p, name, attributes, cluster, size);
    ShortNotZero(name);
    EntryReadsBack(ShortName(name), attributes, cluster, size);
    assert a[p + LfnCount(name)][0] == a[p + LfnCount(name)][..11][0];
    forall i | p <= i < p + LfnCount(name) ensures FitsBuf(a[i]) && Leads(a[i], a[i + 1]) {
      RunLeads(a, p, name, attributes, cluster, size, i);
    }
  }

  lemma LeadsStay(slots: Slots, a: Slots, p: nat, n: nat)
    requires WellFormed(slots) && |a| == |slots| && 0 < n && p + n <= |a|
    requires p > 0 ==> !Free(slots[p - 1]) ==> !IsLfn(slots[p - 1])
    requires forall i :: 0 <= i < p ==> a[i] == slots[i]
    requires forall i :: p + n <= i < |a| ==> a[i] == slots[i]
    requires forall i :: p <= i < p + n - 1 ==> FitsBuf(a[i]) && Leads(a[i], a[i + 1])
    requires !IsLfn(a[p + n - 1])
    ensures forall i :: 0 <= i < |a| && !Free(a[i]) && IsLfn(a[i]) ==>
              FitsBuf(a[i]) && (i + 1 < |a| ==> Leads(a[i], a[i + 1]))
  {
    forall i | 0 <= i < |a| && !Free(a[i]) && IsLfn(a[i])
      ensures FitsBuf(a[i]) && (i + 1 < |a| ==> Leads(a[i], a[i + 1]))
    {
      assert i + 1 < p || i >= p + n ==> a[i] == slots[i];
    }
  }

  lemma RunLeads(a: Slots, p: nat, name: seq<byte>, attributes: nat, cluster: nat, size: nat, i: nat)
    requires IsName(name) && IsEntry(attributes, cluster, size)
    requires RunAt(a, p, name, attributes, cluster, size) && p <= i < p + LfnCount(name)
    ensures FitsBuf(a[i]) && Leads(a[i], a[i + 1])
  {
    var order := LfnCount(name) - (i - p);
    LfnSlotLooks(name, order, Checksum(name), i == p);
    WrittenFits(name, order, Checksum(name), i == p);
    if order > 1 {
      LfnSlotLooks(name, order - 1, Checksum(name), false);
    } else {
      EntryReadsBack(ShortName(name), attributes, cluster, size);
    }
  }

  lemma ZerosStay(slots: Slots, a: Slots, p: nat, n: nat)
    requires WellFormed(slots) && |a| == |slots| && p + n <= |a|
    requires forall i :: 0 <= i < p ==> a[i] == slots[i] && slots[i][0] != 0
    requires forall i :: p <= i < p + n ==> a[i][0] != 0
    requires forall i :: p + n <= i < |a| ==> a[i] == slots[i]
    ensures forall i, j {:trigger Unused(a[i]), Unused(a[j])} :: 0 <= i < j < |a| && Unused(a[i]) ==> Unused(a[j])
  {
    forall i, j | 0 <= i < j < |a| && Unused(a[i]) ensures Unused(a[j]) {
      assert Unused(slots[i]) && Unused(slots[j]);
    }
  }

  // ---------- deletion ----------

  function Erase(s: Slot): Slot { s[0 := DELETED] }

  /** mark_entries_deleted over slots start..end, inclusive. */
  function Marked(slots: Slots, start: nat, end: nat): Slots
    requires end < |slots|
  {
    seq(|slots|, i requires 0 <= i < |slots| => if start <= i <= end then Erase(slots[i]) else slots[i])
  }

  /** From the start of an entry, a scan either stops at the entry or goes past it with
      nothing pending. */
  lemma {:induction false} AdvanceEntry(slots: Slots, h: Hit, k: nat, p: Pending, target: seq<byte>, kind: Kind, to: nat)
    requires WellFormed(slots) && ValidHit(slots, h) && h.start <= k <= h.slot && to == h.slot + 1
    requires if k == h.start then p == Clean else p.start == h.start && Paused(slots, k, p)
    ensures Advance(slots, k, to, p, target, kind) == At(Clean) || Advance(slots, k, to, p, target, kind) == Found(h)
    decreases |slots| - k
  {
    CleanIsEmpty();
    if k < h.slot {
      assert IsLfn(slots[k]);
      LfnPauses(slots, k, p);
      AdvanceEntry(slots, h, k + 1, After(slots[k], k, p), target, kind, to);
    } else {
      AtTheEntry(slots, h, p, target, kind, to);
    }
  }

  lemma AtTheEntry(slots: Slots, h: Hit, p: Pending, target: seq<byte>, kind: Kind, to: nat)
    requires WellFormed(slots) && ValidHit(slots, h) && to == h.slot + 1 && Paused(slots, h.slot, p)
    requires if h.start == h.slot then p == Clean else p.start == h.start
    ensures var r := Advance(slots, h.slot, to, p, target, kind); r == At(Clean) || r == Found(h)
  {
    CheckedPasses(slots, h.slot, p);
    assert Advance(slots, to, to, Clean, target, kind) == At(Clean);
  }

  /**
   * Deleting the entry a lookup hit.  Every lookup that did not resolve to that entry is
   * unchanged; one that did goes on to what follows the entry.
   */
  lemma LookupAfterDelete(slots: Slots, h: Hit, target: seq<byte>, kind: Kind)
    requires WellFormed(slots) && ValidHit(slots, h)
    ensures Lookup(Marked(slots, h.start, h.slot), target, kind) ==
            if Lookup(slots, target, kind) == Some(h) then Find(slots, h.slot + 1, Clean, target, kind)
            else Lookup(slots, target, kind)
  {
    var m := Marked(slots, h.start, h.slot);
    assert m[..h.start] == slots[..h.start];
    PrefixDecides(slots, m, h.start, target, kind);
    PastTheEntry(slots, h, target, kind);
    HitIsEntry(slots, h.slot + 1, Clean, target, kind);
  }

  lemma PastTheEntry(slots: Slots, h: Hit, target: seq<byte>, kind: Kind)
    requires WellFormed(slots) && ValidHit(slots, h)
    ensures var rest := Find(slots, h.slot + 1, Clean, target, kind);
            && Find(Marked(slots, h.start, h.slot), h.start, Clean, target, kind) == rest
            && (Find(slots, h.start, Clean, target, kind) == rest || Find(slots, h.start, Clean, target, kind) == Some(h))
  {
    EntryOrRest(slots, h, target, kind, h.slot + 1);
    SkipsErased(slots, h.start, h.slot, h.slot + 1, target, kind);
  }

  lemma EntryOrRest(slots: Slots, h: Hit, target: seq<byte>, kind: Kind, to: nat)
    requires WellFormed(slots) && ValidHit(slots, h) && to == h.slot + 1
    ensures var r := Find(slots, h.start, Clean, target, kind); r == Find(slots, to, Clean, target, kind) || r == Some(h)
  {
    AdvanceEntry(slots, h, h.start, Clean, target, kind, to);
    FindSplits(slots, h.start, to, Clean, target, kind);
  }

  lemma SkipsErased(slots: Slots, p: nat, end: nat, to: nat, target: seq<byte>, kind: Kind)
    requires p <= end < |slots| && to == end + 1
    ensures Find(Marked(slots, p, end), p, Clean, target, kind) == Find(slots, to, Clean, target, kind)
  {
    var m := Marked(slots, p, end);
    assert m[to..] == slots[to..];
    AdvanceFree(m, p, to, target, kind);
    FindSplits(m, p, to, Clean, target, kind);
    FindReadsSuffix(m, slots, to, Clean, target, kind);
  }

  /** No other entry matches: what follows the entry answers nothing for the target. */
  ghost predicate Unique(slots: Slots, h: Hit, target: seq<byte>, kind: Kind)
    requires h.slot < |slots|
  {
    Find(slots, h.slot + 1, Clean, target, kind).None?
  }

  lemma DeleteKeepsWellFormed(slots: Slots, h: Hit)
    requires WellFormed(slots) && ValidHit(slots, h)
    ensures WellFormed(Marked(slots, h.start, h.slot))
  {
    var m := Marked(slots, h.start, h.slot);
    forall i | 0 <= i < |m| && !Free(m[i]) && IsLfn(m[i])
      ensures FitsBuf(m[i]) && (i + 1 < |m| ==> Leads(m[i], m[i + 1]))
    {
      assert m[i] == slots[i];
    }
    forall i, j | 0 <= i < j < |m| && Unused(m[i]) ensures Unused(m[j]) {
      assert Unused(slots[i]) && Unused(slots[j]);
      assert h.slot < i || Unused(slots[h.slot]);
    }
  }

  lemma DeleteKeepsTidy(slots: Slots, h: Hit)
    requires Tidy(slots) && ValidHit(slots, h)
    ensures Tidy(Marked(slots, h.start, h.slot))
  {
    var m := Marked(slots, h.start, h.slot);
    forall i: nat ensures NotOrphaned(m, i) {
      assert NotOrphaned(slots, i);
    }
  }

  /** The other way round: a hit's slots are live, so erasing them and looking a name up
      that an added entry answered gives back every lookup there was before the addition. */
  lemma AddThenDelete(slots: Slots, p: nat, name: seq<byte>, attributes: nat, cluster: nat, size: nat,
                      target: seq<byte>, kind: Kind)
    requires IsName(name) && IsEntry(attributes, cluster, size)
    requires WellFormed(slots) && FitsAt(slots, p, LfnCount(name) + 1)
    ensures var a := Added(slots, p, name, attributes, cluster, size);
            Lookup(Marked(a, p, p + LfnCount(name)), target, kind) == Lookup(slots, target, kind)
  {
    var a := Added(slots, p, name, attributes, cluster, size);
    AddedShape(slots, p, name, attributes, cluster, size);
    BehindLive(slots, p, LfnCount(name) + 1);
    MarkedSame(slots, a, p, LfnCount(name) + 1);
    MarkedRun(slots, Marked(a, p, p + LfnCount(name)), p, LfnCount(name) + 1, target, kind);
  }

  lemma MarkedSame(slots: Slots, a: Slots, p: nat, n: nat)
    requires |a| == |slots| && 0 < n && p + n <= |a| && a[..p] == slots[..p] && a[p + n..] == slots[p + n..]
    ensures var m := Marked(a, p, p + n - 1);
            && m[..p] == slots[..p] && m[p + n..] == slots[p + n..]
            && forall i :: p <= i < p + n ==> m[i][0] == DELETED
  {
    var m := Marked(a, p, p + n - 1);
    assert m[..p] == a[..p];
    assert m[p + n..] == a[p + n..];
  }

  /** Deleted slots in place of a first-fit run of free ones change no lookup. */
  lemma MarkedRun(slots: Slots, m: Slots, p: nat, n: nat, target: seq<byte>, kind: Kind)
    requires WellFormed(slots) && FreeRun(slots, p, n) && Boundary(slots, p)
    requires |m| == |slots| && m[..p] == slots[..p] && m[p + n..] == slots[p + n..]
    requires forall i :: p <= i < p + n ==> m[i][0] == DELETED
    ensures Lookup(m, target, kind) == Lookup(slots, target, kind)
  {
    SkipsFreeRun(slots, p, n, target, kind);
    FindReadsSuffix(m, slots, p + n, Clean, target, kind);
    AdvanceFree(m, p, p + n, target, kind);
    FindSplits(m, p, p + n, Clean, target, kind);
    SamePrefix(slots, m, p, target, kind);
  }

  // ---------- uniqueness ----------

  /** The slot behind an entry is a boundary. */
  lemma EntryEndsAtBoundary(slots: Slots, h: Hit)
    requires ValidHit(slots, h)
    ensures Boundary(slots, h.slot + 1)
  {
  }

  /** Directories that agree from k on answer alike from any later slot. */
  lemma SuffixAnswers(slots: Slots, a: Slots, k: nat, q: nat, target: seq<byte>, kind: Kind)
    requires |a| == |slots| && k <= q <= |a| && a[k..] == slots[k..]
    ensures Find(a, q, Clean, target, kind) == Find(slots, q, Clean, target, kind)
  {
    assert a[q..] == a[k..][q - k..];
    assert slots[q..] == slots[k..][q - k..];
    FindReadsSuffix(a, slots, q, Clean, target, kind);
  }

  /** What a scan that found nothing has found past a first-fit run. */
  lemma NothingPastRun(slots: Slots, p: nat, n: nat, target: seq<byte>, kind: Kind)
    requires WellFormed(slots) && FitsAt(slots, p, n) && n > 0 && Lookup(slots, target, kind).None?
    ensures Find(slots, p + n, Clean, target, kind).None?
  {
    BehindLive(slots, p, n);
    NoneBefore(slots, slots, 0, p, target, kind);
    SkipsFreeRun(slots, p, n, target, kind);
  }

  /** A fresh name is unique once added: behind the new run nothing answers to it ... */
  lemma NothingBehind(slots: Slots, a: Slots, p: nat, n: nat, q: nat, target: seq<byte>, kind: Kind)
    requires WellFormed(slots) && FitsAt(slots, p, n) && n > 0 && Lookup(slots, target, kind).None?
    requires |a| == |slots| && a[p + n..] == slots[p + n..] && q == p + n
    ensures Find(a, q, Clean, target, kind).None?
  {
    NothingPastRun(slots, p, n, target, kind);
    SuffixAnswers(slots, a, q, q, target, kind);
  }

  /** Around the run nothing changes. */
  lemma AddedOutside(slots: Slots, p: nat, name: seq<byte>, attributes: nat, cluster: nat, size: nat)
    requires IsName(name) && IsEntry(attributes, cluster, size) && p + LfnCount(name) + 1 <= |slots|
    ensures var a := Added(slots, p, name, attributes, cluster, size);
            && |a| == |slots| && a[..p] == slots[..p]
            && a[p + LfnCount(name) + 1..] == slots[p + LfnCount(name) + 1..]
  {
    AddedShape(slots, p, name, attributes, cluster, size);
  }

  /** ... and adding another name keeps every name unique that the new entry does not answer. */
  lemma AddKeepsUnique(slots: Slots, p: nat, name: seq<byte>, attributes: nat, cluster: nat, size: nat,
                       h: Hit, target: seq<byte>, kind: Kind)
    requires IsName(name) && IsEntry(attributes, cluster, size)
    requires WellFormed(slots) && FitsAt(slots, p, LfnCount(name) + 1)
    requires ValidHit(slots, h) && Unique(slots, h, target, kind) && !Answers(name, attributes, target, kind)
    ensures var a := Added(slots, p, name, attributes, cluster, size);
            h.slot < |a| && Unique(a, h, target, kind)
  {
    var a := Added(slots, p, name, attributes, cluster, size);
    var n := LfnCount(name) + 1;
    AddedOutside(slots, p, name, attributes, cluster, size);
    if h.slot < p {
      UniqueBeforeRun(slots, p, name, attributes, cluster, size, h, target, kind);
    } else {
      OutsideRun(slots, p, n, h);
      SuffixAnswers(slots, a, p + n, h.slot + 1, target, kind);
    }
  }

  lemma UniqueBeforeRun(slots: Slots, p: nat, name: seq<byte>, attributes: nat, cluster: nat, size: nat,
                        h: Hit, target: seq<byte>, kind: Kind)
    requires IsName(name) && IsEntry(attributes, cluster, size)
    requires WellFormed(slots) && FitsAt(slots, p, LfnCount(name) + 1)
    requires ValidHit(slots, h) && h.slot < p && Unique(slots, h, target, kind) && !Answers(name, attributes, target, kind)
    ensures var a := Added(slots, p, name, attributes, cluster, size);
            h.slot < |a| && Unique(a, h, target, kind)
  {
    var a := Added(slots, p, name, attributes, cluster, size);
    AddedShape(slots, p, name, attributes, cluster, size);
    EntryEndsAtBoundary(slots, h);
    FromTheRun(slots, a, p, name, attributes, cluster, size, target, kind);
    SameFromBefore(slots, a, h.slot + 1, p, LfnCount(name) + 1, target, kind);
  }

  lemma SameFromBefore(slots: Slots, a: Slots, q: nat, p: nat, n: nat, target: seq<byte>, kind: Kind)
    requires WellFormed(slots) && |a| == |slots| && FitsAt(slots, p, n) && n > 0 && a[..p] == slots[..p]
    requires q <= p && Boundary(slots, q) && Find(a, p, Clean, target, kind) == Find(slots, p, Clean, target, kind)
    ensures Find(a, q, Clean, target, kind) == Find(slots, q, Clean, target, kind)
  {
    BehindLive(slots, p, n);
    NoneBefore(slots, a, q, p, target, kind);
  }

  lemma OutsideRun(slots: Slots, p: nat, n: nat, h: Hit)
    requires FreeRun(slots, p, n) && ValidHit(slots, h) && p <= h.slot
    ensures p + n <= h.slot
  {
  }

  /** Deleting one entry keeps every other unique. */
  lemma DeleteKeepsUnique(slots: Slots, d: Hit, h: Hit, target: seq<byte>, kind: Kind)
    requires WellFormed(slots) && ValidHit(slots, d) && ValidHit(slots, h) && h.slot != d.slot
    requires Unique(slots, h, target, kind)
    ensures Unique(Marked(slots, d.start, d.slot), h, target, kind)
  {
    if h.slot < d.slot {
      UniqueBefore(slots, d, h, target, kind);
    } else {
      MarkedSuffix(slots, d, h.slot + 1);
      SuffixAnswers(slots, Marked(slots, d.start, d.slot), h.slot + 1, h.slot + 1, target, kind);
    }
  }

  lemma UniqueBefore(slots: Slots, d: Hit, h: Hit, target: seq<byte>, kind: Kind)
    requires WellFormed(slots) && ValidHit(slots, d) && ValidHit(slots, h) && h.slot < d.slot
    requires Unique(slots, h, target, kind)
    ensures Unique(Marked(slots, d.start, d.slot), h, target, kind)
  {
    MarkedPrefix(slots, d);
    PastTheEntry(slots, d, target, kind);
    BeforeEntry(slots, d, h);
    EntryEndsAtBoundary(slots, h);
    NoneAfterErasing(slots, Marked(slots, d.start, d.slot), h.slot + 1, d.start, Some(d), target, kind);
  }

  lemma MarkedPrefix(slots: Slots, d: Hit)
    requires d.start <= d.slot < |slots|
    ensures Marked(slots, d.start, d.slot)[..d.start] == slots[..d.start]
  {
  }

  lemma MarkedSuffix(slots: Slots, d: Hit, k: nat)
    requires d.slot < k <= |slots|
    ensures Marked(slots, d.start, d.slot)[k..] == slots[k..]
  {
  }

  lemma BeforeEntry(slots: Slots, d: Hit, h: Hit)
    requires ValidHit(slots, d) && ValidHit(slots, h) && h.slot < d.slot
    ensures h.slot < d.start
  {
  }

  /** Where a lookup from q finds nothing, it finds nothing after a change behind `at` that can
      only take the entry d out of its way. */
  lemma NoneAfterErasing(slots: Slots, m: Slots, q: nat, at: nat, d: Option<Hit>, target: seq<byte>, kind: Kind)
    requires WellFormed(slots) && |m| == |slots| && q <= at <= |slots| && Boundary(slots, q) && Boundary(slots, at)
    requires m[..at] == slots[..at] && Find(slots, q, Clean, target, kind).None? && d.Some?
    requires var was := Find(slots, at, Clean, target, kind); was == Find(m, at, Clean, target, kind) || was == d
    ensures Find(m, q, Clean, target, kind).None?
  {
    PrefixDecidesFrom(slots, m, q, at, target, kind);
  }
}
