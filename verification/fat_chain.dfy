/**
 * Cluster chains in a FAT: what allocating and freeing them does, one operation at a time
 * and over whole runs of file-system operations.
 */
module FatChain {
  import opened FatConst


  predicate Distinct(cs: seq<nat>) {
    forall i, j :: 0 <= i < j < |cs| ==> cs[i] != cs[j]
  }

  predicate InRange(cs: seq<nat>, limit: nat) {
    forall i :: 0 <= i < |cs| ==> 2 <= cs[i] < limit
  }

  /** The FAT entry of cluster i of a chain. */
  function Link(cs: seq<nat>, i: nat): nat
    requires i < |cs|
  {
    if i + 1 < |cs| then cs[i + 1] else END
  }

  /** cs is a whole chain: distinct clusters, each linked to the next, the last marked as end. */
  ghost predicate IsChain(fat: seq<nat>, limit: nat, cs: seq<nat>) {
    && |cs| >= 1 && limit <= |fat| && limit <= EOC
    && InRange(cs, limit) && Distinct(cs)
    && (forall i {:trigger Link(cs, i)} :: 0 <= i < |cs| - 1 ==> fat[cs[i]] == Link(cs, i))
    && fat[cs[|cs| - 1]] >= EOC
  }

  ghost predicate AllFree(fat: seq<nat>, cs: seq<nat>) {
    forall i :: 0 <= i < |cs| && cs[i] < |fat| ==> fat[cs[i]] == FREE
  }

  /** fat' is fat with cs linked up as a chain and nothing else changed. */
  ghost predicate Linked(fat: seq<nat>, fat': seq<nat>, cs: seq<nat>) {
    && |fat'| == |fat| && |cs| >= 1 && Distinct(cs)
    && (forall i :: 0 <= i < |cs| ==> cs[i] < |fat|)
    && (forall i {:trigger Link(cs, i)} :: 0 <= i < |cs| ==> fat'[cs[i]] == Link(cs, i))
    && (forall c :: 0 <= c < |fat| && c !in cs ==> fat'[c] == fat[c])
  }

  /** fat' is fat with exactly the clusters of cs freed. */
  ghost predicate Freed(fat: seq<nat>, fat': seq<nat>, cs: seq<nat>) {
    && |fat'| == |fat|
    && (forall c :: 0 <= c < |fat| ==> fat'[c] == if c in cs then FREE else fat[c])
  }

  ghost predicate Disjoint(a: seq<nat>, b: seq<nat>) {
    forall c :: !(c in a && c in b)
  }

  lemma LinkedIsChain(fat: seq<nat>, fat': seq<nat>, limit: nat, cs: seq<nat>)
    requires Linked(fat, fat', cs) && InRange(cs, limit) && limit <= |fat| && limit <= EOC
    ensures IsChain(fat', limit, cs)
  {
    assert fat'[cs[|cs| - 1]] == Link(cs, |cs| - 1);
  }

  /** No entry of a chain reads as free. */
  lemma ChainNotFree(fat: seq<nat>, limit: nat, cs: seq<nat>, c: nat)
    requires IsChain(fat, limit, cs) && c in cs
    ensures c < |fat| && fat[c] != FREE
  {
    var i :| 0 <= i < |cs| && cs[i] == c;
    if i < |cs| - 1 {
      assert fat[cs[i]] == Link(cs, i);
    }
  }

  /** Allocating free clusters leaves every existing chain alone. */
  lemma AllocKeepsChain(fat: seq<nat>, fat': seq<nat>, limit: nat, cs: seq<nat>, other: seq<nat>)
    requires IsChain(fat, limit, other) && AllFree(fat, cs) && Linked(fat, fat', cs)
    ensures Disjoint(other, cs) && IsChain(fat', limit, other)
  {
    AllFreeMeans(fat, cs);
    forall c | c in other ensures c !in cs {
      ChainNotFree(fat, limit, other, c);
    }
    assert forall i :: 0 <= i < |other| ==> other[i] in other;
  }

  lemma AllFreeMeans(fat: seq<nat>, cs: seq<nat>)
    requires AllFree(fat, cs)
    ensures forall c :: c in cs && c < |fat| ==> fat[c] == FREE
  {
  }

  /** Freeing one chain leaves every chain disjoint from it alone. */
  lemma FreeKeepsChain(fat: seq<nat>, fat': seq<nat>, limit: nat, cs: seq<nat>, other: seq<nat>)
    requires IsChain(fat, limit, other) && Disjoint(other, cs) && Freed(fat, fat', cs)
    ensures IsChain(fat', limit, other)
  {
    assert forall i :: 0 <= i < |other| ==> other[i] in other;
  }

  /** Writing a file and deleting it again gives back the FAT as it was. */
  lemma WriteThenDelete(fat: seq<nat>, fat1: seq<nat>, fat2: seq<nat>, cs: seq<nat>)
    requires AllFree(fat, cs) && Linked(fat, fat1, cs) && Freed(fat1, fat2, cs)
    ensures fat2 == fat
  {
    forall c | 0 <= c < |fat| ensures fat2[c] == fat[c] {
      if c in cs {
        var i :| 0 <= i < |cs| && cs[i] == c;
        assert fat[cs[i]] == FREE;
      }
    }
  }

  /** One more cluster on the end of a chain under construction. */
  lemma LinkedGrows(fat: seq<nat>, fat1: seq<nat>, cs: seq<nat>, next: nat)
    requires Linked(fat, fat1, cs) && AllFree(fat, cs)
    requires 2 <= next < |fat| && fat1[next] == FREE && forall i :: 0 <= i < |cs| ==> cs[i] >= 2
    ensures var fat2 := fat1[cs[|cs| - 1] := next][next := END];
            Linked(fat, fat2, cs + [next]) && AllFree(fat, cs + [next])
  {
    var longer := cs + [next];
    var fat2 := fat1[cs[|cs| - 1] := next][next := END];
    forall i | 0 <= i < |cs| ensures cs[i] != next && fat2[cs[i]] == Link(longer, i) {
      assert fat1[cs[i]] == Link(cs, i);
    }
    assert forall i {:trigger Link(longer, i)} :: 0 <= i < |longer| ==> fat2[longer[i]] == Link(longer, i);
  }

  lemma LinkedStarts(fat: seq<nat>, c: nat)
    requires c < |fat| && fat[c] == FREE
    ensures Linked(fat, fat[c := END], [c]) && AllFree(fat, [c])
  {
  }

  // ---------- free space ----------

  ghost function FreeBelow(fat: seq<nat>, limit: nat): set<nat> {
    set c: nat | 2 <= c < limit && c < |fat| && fat[c] == FREE
  }

  /** The lowest free cluster is below limit when any is. */
  lemma LowestFits(fat: seq<nat>, limit: nat, c: nat)
    requires |FreeBelow(fat, limit)| > 0 && limit <= |fat|
    requires forall i :: 2 <= i < c && i < |fat| ==> fat[i] != FREE
    ensures c < limit
  {
    var f :| f in FreeBelow(fat, limit);
  }

  lemma TakeOne(fat: seq<nat>, fat': seq<nat>, limit: nat, c: nat)
    requires c in FreeBelow(fat, limit) && |fat'| == |fat| && fat'[c] != FREE
    requires forall i :: 0 <= i < |fat| && i != c ==> (fat'[i] == FREE <==> fat[i] == FREE)
    ensures FreeBelow(fat', limit) == FreeBelow(fat, limit) - {c}
    ensures |FreeBelow(fat', limit)| == |FreeBelow(fat, limit)| - 1
  {
    assert FreeBelow(fat', limit) == FreeBelow(fat, limit) - {c};
  }

  // ---------- runs ----------

  /** The FAT, and the chain of each directory entry by its first cluster. */
  datatype Table = Table(fat: seq<nat>, chains: map<nat, seq<nat>>)

  /** What an operation does to it: a new entry with a chain (a file written or copied, a
      directory made), an entry gone with its chain, or a chain allocated for which the
      directory had no room. */
  datatype Op = Add(clusters: nat) | Delete(first: nat) | Lost(clusters: nat)

  ghost predicate Allocates(t: Table, fat': seq<nat>, limit: nat, n: nat, cs: seq<nat>) {
    |cs| == n && InRange(cs, limit) && AllFree(t.fat, cs) && Linked(t.fat, fat', cs)
  }

  /** A new entry owning a chain of n clusters. */
  ghost predicate AddsEntry(limit: nat, t: Table, n: nat, t': Table) {
    n >= 1 && exists cs :: Allocates(t, t'.fat, limit, n, cs) && t'.chains == t.chains[cs[0] := cs]
  }

  ghost predicate Step(limit: nat, t: Table, op: Op, t': Table) {
    match op
    case Delete(first) =>
      first in t.chains && Freed(t.fat, t'.fat, t.chains[first]) && t'.chains == t.chains - {first}
    case Lost(n) => t'.chains == t.chains && exists cs :: Allocates(t, t'.fat, limit, n, cs)
    case Add(n) => AddsEntry(limit, t, n, t')
  }

  ghost predicate ChainsSound(limit: nat, t: Table) {
    && (forall k :: k in t.chains ==> IsChain(t.fat, limit, t.chains[k]) && t.chains[k][0] == k)
    && (forall j, k :: j in t.chains && k in t.chains && j != k ==> Disjoint(t.chains[j], t.chains[k]))
  }

  /** Every cluster in use belongs to the chain of some entry. */
  ghost predicate NothingLost(t: Table) {
    forall c :: 2 <= c < |t.fat| && t.fat[c] != FREE ==> exists k :: k in t.chains && c in t.chains[k]
  }

  lemma AllocKeepsSound(limit: nat, t: Table, fat': seq<nat>, n: nat, cs: seq<nat>, k: nat)
    requires ChainsSound(limit, t) && Allocates(t, fat', limit, n, cs) && k in t.chains
    ensures IsChain(fat', limit, t.chains[k]) && Disjoint(t.chains[k], cs)
  {
    AllocKeepsChain(t.fat, fat', limit, cs, t.chains[k]);
  }

  lemma AddKeepsSound(limit: nat, t: Table, n: nat, t': Table)
    requires ChainsSound(limit, t) && limit <= |t.fat| && limit <= EOC && AddsEntry(limit, t, n, t')
    ensures ChainsSound(limit, t') && |t'.fat| == |t.fat|
    ensures NothingLost(t) ==> NothingLost(t')
  {
    var cs :| Allocates(t, t'.fat, limit, n, cs) && t'.chains == t.chains[cs[0] := cs];
    LinkedIsChain(t.fat, t'.fat, limit, cs);
    OthersStay(limit, t, t'.fat, n, cs);
    forall k | k in t'.chains ensures IsChain(t'.fat, limit, t'.chains[k]) && t'.chains[k][0] == k {
      if k != cs[0] {
        assert t'.chains[k] == t.chains[k];
      }
    }
    forall j, k | j in t'.chains && k in t'.chains && j != k ensures Disjoint(t'.chains[j], t'.chains[k]) {
      StillDisjoint(t.chains, cs, j, k);
    }
    if NothingLost(t) {
      AddLosesNothing(limit, t, n, cs, t');
    }
  }

  lemma OthersStay(limit: nat, t: Table, fat': seq<nat>, n: nat, cs: seq<nat>)
    requires ChainsSound(limit, t) && n >= 1 && Allocates(t, fat', limit, n, cs)
    ensures cs[0] !in t.chains
    ensures forall k :: k in t.chains ==> IsChain(fat', limit, t.chains[k]) && Disjoint(t.chains[k], cs)
  {
    forall k | k in t.chains ensures IsChain(fat', limit, t.chains[k]) && Disjoint(t.chains[k], cs) && k != cs[0] {
      AllocKeepsSound(limit, t, fat', n, cs, k);
      assert t.chains[k][0] in t.chains[k] && cs[0] in cs;
    }
  }

  lemma StillDisjoint(chains: map<nat, seq<nat>>, cs: seq<nat>, j: nat, k: nat)
    requires forall a, b :: a in chains && b in chains && a != b ==> Disjoint(chains[a], chains[b])
    requires |cs| >= 1 && forall a :: a in chains ==> Disjoint(chains[a], cs)
    requires var all := chains[cs[0] := cs]; j in all && k in all && j != k
    ensures var all := chains[cs[0] := cs]; Disjoint(all[j], all[k])
  {
  }

  lemma AddLosesNothing(limit: nat, t: Table, n: nat, cs: seq<nat>, t': Table)
    requires NothingLost(t) && n >= 1 && Allocates(t, t'.fat, limit, n, cs) && t'.chains == t.chains[cs[0] := cs]
    requires cs[0] !in t.chains
    ensures NothingLost(t')
  {
    forall c | 2 <= c < |t'.fat| && t'.fat[c] != FREE ensures exists k :: k in t'.chains && c in t'.chains[k] {
      if c in cs {
        assert c in t'.chains[cs[0]];
      } else {
        var k :| k in t.chains && c in t.chains[k];
        assert c in t'.chains[k];
      }
    }
  }

  lemma DeleteKeepsSound(limit: nat, t: Table, t': Table, first: nat)
    requires ChainsSound(limit, t) && Step(limit, t, Delete(first), t')
    ensures ChainsSound(limit, t') && |t'.fat| == |t.fat|
    ensures NothingLost(t) ==> NothingLost(t')
  {
    forall k | k in t'.chains ensures IsChain(t'.fat, limit, t'.chains[k]) {
      FreeKeepsChain(t.fat, t'.fat, limit, t.chains[first], t.chains[k]);
    }
    if NothingLost(t) {
      DeleteLosesNothing(limit, t, t', first);
    }
  }

  lemma DeleteLosesNothing(limit: nat, t: Table, t': Table, first: nat)
    requires NothingLost(t) && Step(limit, t, Delete(first), t')
    ensures NothingLost(t')
  {
    forall c | 2 <= c < |t'.fat| && t'.fat[c] != FREE ensures exists k :: k in t'.chains && c in t'.chains[k] {
      var k :| k in t.chains && c in t.chains[k];
      assert k in t'.chains && c in t'.chains[k];
    }
  }

  lemma StepKeepsSound(limit: nat, t: Table, op: Op, t': Table)
    requires ChainsSound(limit, t) && limit <= |t.fat| && limit <= EOC && Step(limit, t, op, t')
    ensures ChainsSound(limit, t') && |t'.fat| == |t.fat|
    ensures NothingLost(t) && !op.Lost? ==> NothingLost(t')
  {
    match op
    case Delete(first) => DeleteKeepsSound(limit, t, t', first);
    case Lost(n) =>
      var cs :| Allocates(t, t'.fat, limit, n, cs);
      forall k | k in t.chains ensures IsChain(t'.fat, limit, t.chains[k]) {
        AllocKeepsSound(limit, t, t'.fat, n, cs, k);
      }
    case Add(n) => AddKeepsSound(limit, t, n, t');
  }

  /** Two whole chains from one cluster are the same chain. */
  lemma {:induction false} ChainFollowed(fat: seq<nat>, limit: nat, a: seq<nat>, b: seq<nat>, i: nat)
    requires IsChain(fat, limit, a) && IsChain(fat, limit, b) && a[0] == b[0] && i < |a|
    ensures i < |b| && a[i] == b[i]
  {
    if i > 0 {
      ChainFollowed(fat, limit, a, b, i - 1);
      assert fat[a[i - 1]] == Link(a, i - 1);
      if i < |b| {
        assert fat[b[i - 1]] == Link(b, i - 1);
      }
    }
  }

  lemma ChainUnique(fat: seq<nat>, limit: nat, a: seq<nat>, b: seq<nat>)
    requires IsChain(fat, limit, a) && IsChain(fat, limit, b) && a[0] == b[0]
    ensures a == b
  {
    ChainFollowed(fat, limit, a, b, |a| - 1);
    ChainFollowed(fat, limit, b, a, |b| - 1);
    forall i: nat | i < |a| ensures a[i] == b[i] {
      ChainFollowed(fat, limit, a, b, i);
    }
  }

  /** An empty FAT starts such a run. */
  lemma EmptySound(limit: nat, fat: seq<nat>)
    requires forall c :: 2 <= c < |fat| ==> fat[c] == FREE
    ensures ChainsSound(limit, Table(fat, map[])) && NothingLost(Table(fat, map[]))
  {
  }
}
