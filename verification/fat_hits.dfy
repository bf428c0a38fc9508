/**
 * Every entry a name answers to, in the order of the directory: the list that lookups take the
 * first of, and that adding and deleting entries changes by exactly one.
 */
module FatHits {
  import opened Common
  import opened Bytes
  import opened FatNames
  import opened FatDir
  import opened FatDirUpdate
  import opened FatDirTheorems

  /** The entries from slot k on that answer to the name: the one a scan finds, and those that
      scans from behind it find. */
  function Hits(slots: Slots, k: nat, target: seq<byte>): seq<Hit>
    requires k <= |slots|
    decreases |slots| - k
  {
    var r := Find(slots, k, Clean, target, Any);
    if r.Some? && k <= r.value.slot < |slots| then [r.value] + Hits(slots, r.value.slot + 1, target) else []
  }

  /** The list with an entry more, at its place. */
  function WithHit(hs: seq<Hit>, h: Hit): seq<Hit> {
    if hs == [] || h.slot < hs[0].slot then [h] + hs else [hs[0]] + WithHit(hs[1..], h)
  }

  function Grown(hs: seq<Hit>, h: Hit, yes: bool): seq<Hit> { if yes then WithHit(hs, h) else hs }

  /** The list without the entry at slot s. */
  function WithoutSlot(hs: seq<Hit>, s: nat): seq<Hit> {
    if hs == [] then [] else (if hs[0].slot == s then [] else [hs[0]]) + WithoutSlot(hs[1..], s)
  }

  /** A lookup finds the first. */
  lemma FirstHit(slots: Slots, target: seq<byte>)
    requires WellFormed(slots)
    ensures var hs := Hits(slots, 0, target); Lookup(slots, target, Any) == if hs == [] then None else Some(hs[0])
  {
    HitIsEntry(slots, 0, Clean, target, Any);
  }

  lemma NoHits(slots: Slots, k: nat, target: seq<byte>)
    requires k <= |slots| && Find(slots, k, Clean, target, Any).None?
    ensures Hits(slots, k, target) == []
  {
  }

  lemma HitsThen(slots: Slots, k: nat, target: seq<byte>, h: Hit)
    requires k <= h.slot < |slots| && Find(slots, k, Clean, target, Any) == Some(h)
    ensures Hits(slots, k, target) == [h] + Hits(slots, h.slot + 1, target)
  {
  }

  /** What a scan from a boundary finds. */
  lemma FoundEntry(slots: Slots, k: nat, target: seq<byte>)
    requires WellFormed(slots) && k <= |slots| && Boundary(slots, k)
    ensures var r := Find(slots, k, Clean, target, Any);
            r.Some? ==> ValidHit(slots, r.value) && k <= r.value.slot < |slots| && Boundary(slots, r.value.slot + 1)
  {
    HitIsEntry(slots, k, Clean, target, Any);
    var r := Find(slots, k, Clean, target, Any);
    if r.Some? {
      EntryEndsAtBoundary(slots, r.value);
    }
  }

  /** A list of one entry is what makes that entry unique. */
  lemma OneHit(slots: Slots, target: seq<byte>, h: Hit)
    requires WellFormed(slots) && h.slot < |slots|
    ensures Hits(slots, 0, target) == [h] <==> Lookup(slots, target, Any) == Some(h) && Unique(slots, h, target, Any)
  {
    FoundEntry(slots, 0, target);
    var first := Lookup(slots, target, Any);
    if first.Some? {
      HitsThen(slots, 0, target, first.value);
      HitsOrNone(slots, first.value.slot + 1, target);
      var hs, rest := Hits(slots, 0, target), Hits(slots, first.value.slot + 1, target);
      assert hs[0] == first.value && |hs| == 1 + |rest|;
    } else {
      NoHits(slots, 0, target);
    }
  }

  lemma HitsOrNone(slots: Slots, k: nat, target: seq<byte>)
    requires WellFormed(slots) && k <= |slots| && Boundary(slots, k)
    ensures Hits(slots, k, target) == [] <==> Find(slots, k, Clean, target, Any).None?
  {
    FoundEntry(slots, k, target);
  }

  predicate Ascending(hs: seq<Hit>, k: nat) {
    hs == [] || (k <= hs[0].slot && Ascending(hs[1..], hs[0].slot + 1))
  }

  lemma {:induction false} HitsAscend(slots: Slots, k: nat, target: seq<byte>)
    requires k <= |slots|
    ensures Ascending(Hits(slots, k, target), k)
    decreases |slots| - k
  {
    var r := Find(slots, k, Clean, target, Any);
    if r.Some? && k <= r.value.slot < |slots| {
      HitsAscend(slots, r.value.slot + 1, target);
    }
  }

  // ---------- changes behind ----------

  /** Directories that agree from k on have the same lists from there. */
  lemma {:induction false} HitsSuffix(a: Slots, b: Slots, k: nat, q: nat, target: seq<byte>)
    requires |a| == |b| && k <= q <= |a| && a[k..] == b[k..]
    ensures Hits(a, q, target) == Hits(b, q, target)
    decreases |a| - q
  {
    SuffixAnswers(b, a, k, q, target, Any);
    var r := Find(a, q, Clean, target, Any);
    if r.Some? && q <= r.value.slot < |a| {
      HitsSuffix(a, b, k, r.value.slot + 1, target);
      SameThenSame(a, b, q, q, target, r.value);
    }
  }

  lemma SameThenSame(a: Slots, b: Slots, q: nat, r: nat, target: seq<byte>, first: Hit)
    requires q <= first.slot && r <= first.slot < |a| == |b|
    requires Find(a, q, Clean, target, Any) == Find(b, r, Clean, target, Any) == Some(first)
    requires Hits(a, first.slot + 1, target) == Hits(b, first.slot + 1, target)
    ensures Hits(a, q, target) == Hits(b, r, target)
  {
    HitsThen(a, q, target, first);
    HitsThen(b, r, target, first);
  }

  /** Scans that find the same have the same lists, when what they find lies where the directories agree. */
  lemma SameHits(a: Slots, b: Slots, k: nat, q: nat, r: nat, target: seq<byte>)
    requires |a| == |b| && k <= |a| && a[k..] == b[k..] && q <= |a| && r <= |a|
    requires Find(a, q, Clean, target, Any) == Find(b, r, Clean, target, Any)
    requires var f := Find(a, q, Clean, target, Any); f.Some? ==> f.value.slot < |a| && q <= f.value.slot && r <= f.value.slot && k <= f.value.slot + 1
    ensures Hits(a, q, target) == Hits(b, r, target)
  {
    var f := Find(a, q, Clean, target, Any);
    if f.Some? {
      HitsSuffix(a, b, k, f.value.slot + 1, target);
      SameThenSame(a, b, q, r, target, f.value);
    } else {
      NoHits(a, q, target);
      NoHits(b, r, target);
    }
  }

  // ---------- adding ----------

  /** The directories agree before p, which no scan ends at or carries a long name across. */
  ghost predicate SameBefore(slots: Slots, a: Slots, p: nat) {
    && WellFormed(slots) && |a| == |slots| && p <= |a| && Boundary(slots, p)
    && a[..p] == slots[..p] && forall i :: 0 <= i < p ==> slots[i][0] != 0
  }

  /** They agree from `to` on, and a scan that comes to p finds in one of them the entry h, which ends
      before `to`, if it is to, and otherwise in both what lies behind. */
  ghost predicate PutAt(slots: Slots, a: Slots, p: nat, h: Hit, to: nat, target: seq<byte>, yes: bool) {
    && |a| == |slots| && p < to == h.slot + 1 <= |a| && a[to..] == slots[to..]
    && Find(slots, p, Clean, target, Any) == Find(slots, to, Clean, target, Any)
    && FoundFrom(slots, to, target)
    && Find(a, p, Clean, target, Any) == if yes then Some(h) else Find(slots, to, Clean, target, Any)
  }

  predicate FoundFrom(slots: Slots, k: nat, target: seq<byte>)
    requires k <= |slots|
  {
    var r := Find(slots, k, Clean, target, Any);
    r.Some? ==> k <= r.value.slot < |slots|
  }

  lemma AddIsPut(slots: Slots, a: Slots, p: nat, name: seq<byte>, attributes: nat, cluster: nat, size: nat, target: seq<byte>, h: Hit, to: nat, yes: bool)
    requires Adds(slots, a, p, name, attributes, cluster, size) && yes == Answers(name, attributes, target, Any)
    requires to == p + LfnCount(name) + 1 && h == Hit(p, p + LfnCount(name))
    ensures SameBefore(slots, a, p) && PutAt(slots, a, p, h, to, target, yes)
  {
    AddedShape(slots, p, name, attributes, cluster, size);
    BehindLive(slots, p, LfnCount(name) + 1);
    FromTheRun(slots, a, p, name, attributes, cluster, size, target, Any);
    RunSkipped(slots, p, to - p, to, target);
  }

  lemma RunSkipped(slots: Slots, p: nat, n: nat, to: nat, target: seq<byte>)
    requires WellFormed(slots) && FreeRun(slots, p, n) && Boundary(slots, p) && to == p + n
    ensures Find(slots, p, Clean, target, Any) == Find(slots, to, Clean, target, Any) && FoundFrom(slots, to, target)
  {
    SkipsFreeRun(slots, p, n, target, Any);
    FoundEntry(slots, p, target);
    var r := Find(slots, p, Clean, target, Any);
    if r.Some? {
      OutsideRun(slots, p, n, r.value);
    }
  }

  /** From the run on: the new entry comes first, if it answers. */
  lemma HitsAtRun(slots: Slots, a: Slots, p: nat, q: nat, h: Hit, to: nat, target: seq<byte>, yes: bool)
    requires PutAt(slots, a, p, h, to, target, yes) && q <= p
    requires Find(slots, q, Clean, target, Any) == Find(slots, p, Clean, target, Any)
    requires Find(a, q, Clean, target, Any) == Find(a, p, Clean, target, Any)
    ensures Hits(a, q, target) == Grown(Hits(slots, q, target), h, yes)
  {
    SameHits(slots, slots, to, q, to, target);
    HitsSuffix(a, slots, to, to, target);
    if yes {
      FirstIsNew(slots, a, q, h, to, target);
    } else {
      SameHits(a, slots, to, q, q, target);
    }
  }

  lemma FirstIsNew(slots: Slots, a: Slots, q: nat, h: Hit, to: nat, target: seq<byte>)
    requires q <= h.slot && to == h.slot + 1 <= |a| == |slots| && Find(a, q, Clean, target, Any) == Some(h)
    requires Hits(a, to, target) == Hits(slots, to, target) == Hits(slots, q, target)
    ensures Hits(a, q, target) == WithHit(Hits(slots, q, target), h)
  {
    HitsThen(a, q, target, h);
    HitsAscend(slots, to, target);
  }

  /** Scans that start before the run find the same entry before it, or come to it. */
  lemma BeforeTheRun(slots: Slots, a: Slots, p: nat, q: nat, target: seq<byte>)
    requires SameBefore(slots, a, p) && q <= p && Boundary(slots, q)
    ensures var r := Find(slots, q, Clean, target, Any);
            if r.Some? && r.value.slot < p then Find(a, q, Clean, target, Any) == r && q <= r.value.slot && Boundary(slots, r.value.slot + 1)
            else r == Find(slots, p, Clean, target, Any) && Find(a, q, Clean, target, Any) == Find(a, p, Clean, target, Any)
  {
    NoneBefore(slots, a, q, p, target, Any);
    PrefixDecidesFrom(slots, a, q, p, target, Any);
    FoundEntry(slots, q, target);
    FoundEntry(slots, p, target);
  }

  /** Either the lists from q on are as they are to be, or both begin with the same entry before the run. */
  lemma HitsStep(slots: Slots, a: Slots, p: nat, q: nat, h: Hit, to: nat, target: seq<byte>, yes: bool) returns (first: Option<Hit>)
    requires SameBefore(slots, a, p) && PutAt(slots, a, p, h, to, target, yes) && q <= p && Boundary(slots, q)
    ensures first.None? ==> Hits(a, q, target) == Grown(Hits(slots, q, target), h, yes)
    ensures first.Some? ==> q <= first.value.slot < p && Boundary(slots, first.value.slot + 1)
    ensures first.Some? ==> Find(slots, q, Clean, target, Any) == Find(a, q, Clean, target, Any) == first
  {
    BeforeTheRun(slots, a, p, q, target);
    first := Find(slots, q, Clean, target, Any);
    if first.None? || first.value.slot >= p {
      HitsAtRun(slots, a, p, q, h, to, target, yes);
      first := None;
    }
  }

  lemma {:induction false} HitsAfterPut(slots: Slots, a: Slots, p: nat, q: nat, h: Hit, to: nat, target: seq<byte>, yes: bool)
    requires SameBefore(slots, a, p) && PutAt(slots, a, p, h, to, target, yes) && q <= p && Boundary(slots, q)
    ensures Hits(a, q, target) == Grown(Hits(slots, q, target), h, yes)
    decreases p - q
  {
    var first := HitsStep(slots, a, p, q, h, to, target, yes);
    if first.Some? {
      HitsAfterPut(slots, a, p, first.value.slot + 1, h, to, target, yes);
      SameThenMore(slots, a, q, target, first.value, h, yes);
    }
  }

  /** An entry written for `name` answers to the target. */
  predicate Shows(name: seq<byte>, target: seq<byte>) { Visible(name) && SameName(name, target) }

  /** An addition gives each name it answers to one entry more, and no other name any. */
  lemma HitsAfterAdd(slots: Slots, a: Slots, p: nat, name: seq<byte>, attributes: nat, cluster: nat, size: nat, target: seq<byte>, h: Hit, yes: bool)
    requires Adds(slots, a, p, name, attributes, cluster, size) && h == Hit(p, p + LfnCount(name))
    requires yes == Shows(name, target)
    ensures Hits(a, 0, target) == Grown(Hits(slots, 0, target), h, yes)
  {
    AnswersAny(name, attributes, target);
    AddIsPut(slots, a, p, name, attributes, cluster, size, target, h, h.slot + 1, yes);
    HitsAfterPut(slots, a, p, 0, h, h.slot + 1, target, yes);
  }

  lemma AnswersAny(name: seq<byte>, attributes: nat, target: seq<byte>)
    ensures Answers(name, attributes, target, Any) == Shows(name, target)
  {
  }

  lemma SameThenMore(slots: Slots, a: Slots, q: nat, target: seq<byte>, first: Hit, h: Hit, yes: bool)
    requires q <= first.slot < |slots| == |a| && first.slot <= h.slot
    requires Find(slots, q, Clean, target, Any) == Find(a, q, Clean, target, Any) == Some(first)
    requires Hits(a, first.slot + 1, target) == Grown(Hits(slots, first.slot + 1, target), h, yes)
    ensures Hits(a, q, target) == Grown(Hits(slots, q, target), h, yes)
  {
    HitsThen(slots, q, target, first);
    HitsThen(a, q, target, first);
    assert ([first] + Hits(slots, first.slot + 1, target))[1..] == Hits(slots, first.slot + 1, target);
  }

  // ---------- deleting ----------

  lemma {:induction false} NothingWithout(hs: seq<Hit>, s: nat, k: nat)
    requires Ascending(hs, k) && s < k
    ensures WithoutSlot(hs, s) == hs
  {
    if hs != [] {
      NothingWithout(hs[1..], s, hs[0].slot + 1);
    }
  }

  /** What scans that come to an entry find, with and without it. */
  lemma EntryScanned(slots: Slots, m: Slots, h: Hit, target: seq<byte>, to: nat)
    requires WellFormed(slots) && ValidHit(slots, h) && m == Marked(slots, h.start, h.slot) && to == h.slot + 1
    ensures |m| == |slots| && m[to..] == slots[to..]
    ensures var r := Find(slots, to, Clean, target, Any);
            && Find(m, h.start, Clean, target, Any) == r && (r.Some? ==> to <= r.value.slot < |slots|)
            && (Find(slots, h.start, Clean, target, Any) == r || Find(slots, h.start, Clean, target, Any) == Some(h))
  {
    PastTheEntry(slots, h, target, Any);
    MarkedSuffix(slots, h, to);
    EntryEndsAtBoundary(slots, h);
    FoundEntry(slots, to, target);
  }

  /** From the erased entry on. */
  lemma HitsAtEntry(slots: Slots, m: Slots, h: Hit, q: nat, target: seq<byte>, to: nat)
    requires WellFormed(slots) && ValidHit(slots, h) && m == Marked(slots, h.start, h.slot) && q <= h.start && to == h.slot + 1
    requires Find(slots, q, Clean, target, Any) == Find(slots, h.start, Clean, target, Any)
    requires Find(m, q, Clean, target, Any) == Find(m, h.start, Clean, target, Any)
    ensures Hits(m, q, target) == WithoutSlot(Hits(slots, q, target), h.slot)
  {
    EntryScanned(slots, m, h, target, to);
    SameHits(m, slots, to, q, to, target);
    HitsAscend(slots, to, target);
    NothingWithout(Hits(slots, to, target), h.slot, to);
    if Find(slots, h.start, Clean, target, Any) == Some(h) {
      HitsThen(slots, q, target, h);
      FirstGone(Hits(slots, q, target), h, Hits(slots, to, target));
    } else {
      SameHits(slots, slots, to, q, to, target);
    }
  }

  lemma FirstGone(hs: seq<Hit>, h: Hit, rest: seq<Hit>)
    requires hs == [h] + rest
    ensures WithoutSlot(hs, h.slot) == WithoutSlot(rest, h.slot)
  {
    assert hs[1..] == rest;
  }

  /** Scans that start before an entry find the same before it, or come to it. */
  lemma BeforeTheEntry(slots: Slots, m: Slots, h: Hit, q: nat, target: seq<byte>) returns (reaches: bool)
    requires WellFormed(slots) && ValidHit(slots, h) && m == Marked(slots, h.start, h.slot) && q <= h.start && Boundary(slots, q)
    ensures var r := Find(slots, q, Clean, target, Any);
            if reaches then r == Find(slots, h.start, Clean, target, Any) && Find(m, q, Clean, target, Any) == Find(m, h.start, Clean, target, Any)
            else Find(m, q, Clean, target, Any) == r && (r.Some? ==> q <= r.value.slot < h.start && Boundary(slots, r.value.slot + 1))
  {
    var r := Find(slots, q, Clean, target, Any);
    MarkedPrefix(slots, h);
    PrefixDecidesFrom(slots, m, q, h.start, target, Any);
    FoundEntry(slots, q, target);
    reaches := r == Find(slots, h.start, Clean, target, Any) && Find(m, q, Clean, target, Any) == Find(m, h.start, Clean, target, Any);
  }

  /** A deletion takes that entry out of every list. */
  lemma {:induction false} HitsAfterDelete(slots: Slots, m: Slots, h: Hit, q: nat, target: seq<byte>)
    requires WellFormed(slots) && ValidHit(slots, h) && m == Marked(slots, h.start, h.slot) && q <= h.start && Boundary(slots, q)
    ensures Hits(m, q, target) == WithoutSlot(Hits(slots, q, target), h.slot)
    decreases h.start - q
  {
    var reaches := BeforeTheEntry(slots, m, h, q, target);
    var r := Find(slots, q, Clean, target, Any);
    if reaches {
      HitsAtEntry(slots, m, h, q, target, h.slot + 1);
    } else if r.Some? {
      HitsAfterDelete(slots, m, h, r.value.slot + 1, target);
      SameThenLess(slots, m, q, target, r.value, h.slot);
    } else {
      NoHits(slots, q, target);
      NoHits(m, q, target);
    }
  }

  lemma SameThenLess(slots: Slots, m: Slots, q: nat, target: seq<byte>, first: Hit, s: nat)
    requires q <= first.slot < |slots| == |m| && first.slot != s
    requires Find(slots, q, Clean, target, Any) == Find(m, q, Clean, target, Any) == Some(first)
    requires Hits(m, first.slot + 1, target) == WithoutSlot(Hits(slots, first.slot + 1, target), s)
    ensures Hits(m, q, target) == WithoutSlot(Hits(slots, q, target), s)
  {
    HitsThen(slots, q, target, first);
    HitsThen(m, q, target, first);
    OthersKept(Hits(slots, q, target), first, Hits(slots, first.slot + 1, target), s);
  }

  lemma OthersKept(hs: seq<Hit>, h: Hit, rest: seq<Hit>, s: nat)
    requires hs == [h] + rest && h.slot != s
    ensures WithoutSlot(hs, s) == [h] + WithoutSlot(rest, s)
  {
    assert hs[1..] == rest;
  }

  // ---------- the entries themselves ----------

  lemma AddKeepsHit(slots: Slots, a: Slots, p: nat, name: seq<byte>, attributes: nat, cluster: nat, size: nat, h: Hit)
    requires Adds(slots, a, p, name, attributes, cluster, size) && ValidHit(slots, h)
    ensures ValidHit(a, h) && a[h.slot] == slots[h.slot]
  {
    AddedShape(slots, p, name, attributes, cluster, size);
    SameOutside(slots, a, p, LfnCount(name) + 1);
    RunLooks(a, p, name, attributes, cluster, size);
    RunKeepsHit(slots, a, p, p + LfnCount(name), h);
  }

  lemma RunKeepsHit(slots: Slots, a: Slots, p: nat, q: nat, h: Hit)
    requires p <= q < |slots| == |a| && ValidHit(slots, h) && !IsLfn(a[q])
    requires forall i :: p <= i <= q ==> Free(slots[i])
    requires forall i :: 0 <= i < p ==> a[i] == slots[i]
    requires forall i :: q < i < |a| ==> a[i] == slots[i]
    ensures ValidHit(a, h) && a[h.slot] == slots[h.slot]
  {
    forall i | h.start <= i < h.slot ensures a[i] == slots[i] && !Free(a[i]) && IsLfn(a[i]) {
      assert IsLfn(slots[i]) && !Free(slots[i]);
    }
  }

  lemma DeleteKeepsHit(slots: Slots, d: Hit, h: Hit)
    requires ValidHit(slots, d) && ValidHit(slots, h) && d.slot != h.slot
    ensures ValidHit(Marked(slots, d.start, d.slot), h) && Marked(slots, d.start, d.slot)[h.slot] == slots[h.slot]
  {
    var m := Marked(slots, d.start, d.slot);
    if h.slot < d.slot {
      BeforeEntry(slots, d, h);
    } else {
      BeforeEntry(slots, h, d);
    }
    forall i | h.start <= i < h.slot ensures !Free(m[i]) && IsLfn(m[i]) {
      assert IsLfn(slots[i]) && !Free(slots[i]);
    }
  }
}
