/**
 * fat16_format_drive with preserve_system: the clusters of /system keep their FAT entries and
 * their contents, every other cluster becomes free.
 */
module FatFormat {
  import opened FatConst
  import opened Bytes
  import opened FatNames
  import opened FatDir
  import opened FatDisk
  import opened FatDirIo
  import C = FatChain

  /** What lies under a directory entry.  A file may have no cluster at all. */
  datatype Tree = File(chain: seq<nat>) | Dir(cluster: nat, kids: Forest)
  datatype Forest = Nil | Cons(head: Tree, tail: Forest)

  ghost function SetOf(cs: seq<nat>): set<nat> { set c | c in cs }

  /** The clusters of a tree. */
  ghost function Claims(t: Tree): set<nat> {
    match t
    case File(chain) => SetOf(chain)
    case Dir(cluster, kids) => {cluster} + ClaimsAll(kids)
  }

  ghost function ClaimsAll(f: Forest): set<nat> {
    match f
    case Nil => {}
    case Cons(head, tail) => Claims(head) + ClaimsAll(tail)
  }

  /** Slots protect_directory_tree passes over: deleted, long-name, "." and "..". */
  predicate Passed(s: Slot) {
    s[0] == DELETED || IsLfn(s) || (s[0] == DOT && (s[1] == SPACE || s[1] == DOT))
  }

  /** An entry of the volume shows the tree: directories of one cluster, whole file chains. */
  ghost predicate Shows(g: Geometry, v: Vol, t: Tree, isDir: bool, start: nat)
    requires Shaped(g, v)
    decreases t, 0
  {
    match t
    case File(chain) =>
      !isDir && if chain == [] then start < 2 || start >= EOC else C.IsChain(v.fat, g.limit, chain) && start == chain[0]
    case Dir(c, kids) =>
      && isDir && start == c && 2 <= c < g.limit && c < |v.fat| && v.fat[c] >= EOC
      && ShowsAll(g, v, kids, DirSlots(v, c), 0)
  }

  /** The slots from k on show the trees of the forest, in order. */
  ghost predicate ShowsAll(g: Geometry, v: Vol, f: Forest, slots: Slots, k: nat)
    requires Shaped(g, v) && k <= |slots|
    decreases f, |slots| - k
  {
    if k == |slots| || slots[k][0] == 0 then f == Nil
    else if Passed(slots[k]) then ShowsAll(g, v, f, slots, k + 1)
    else f.Cons? && Shows(g, v, f.head, IsDirSlot(slots[k]), ClusterOf(slots[k])) && ShowsAll(g, v, f.tail, slots, k + 1)
  }

  // ---------- the flags ----------

  /** The flags with the clusters of s raised. */
  ghost function Mark(flags: seq<bool>, s: set<nat>): seq<bool> {
    seq(|flags|, i requires 0 <= i < |flags| => flags[i] || i in s)
  }

  lemma MarkTwice(flags: seq<bool>, a: set<nat>, b: set<nat>)
    ensures Mark(Mark(flags, a), b) == Mark(flags, a + b)
    ensures Mark(flags, {}) == flags
  {
  }

  lemma MarkOne(flags: seq<bool>, c: nat)
    requires c < |flags|
    ensures flags[c := true] == Mark(flags, {c})
  {
  }

  /** With a cluster flagged, the rest of its chain is. */
  ghost predicate Closed(fat: seq<nat>, flags: seq<bool>) {
    forall c {:trigger flags[c]} :: 2 <= c < |flags| && c < |fat| && flags[c] ==> LinkFlagged(fat, flags, c)
  }

  ghost predicate LinkFlagged(fat: seq<nat>, flags: seq<bool>, c: nat)
    requires c < |fat|
  {
    2 <= fat[c] < EOC ==> fat[c] < |flags| && flags[fat[c]]
  }

  lemma ChainStaysClosed(fat: seq<nat>, limit: nat, cs: seq<nat>, flags: seq<bool>)
    requires C.IsChain(fat, limit, cs) && Closed(fat, flags) && limit <= |flags|
    ensures Closed(fat, Mark(flags, SetOf(cs)))
  {
    var s := SetOf(cs);
    var now := Mark(flags, s);
    forall c | 2 <= c < |now| && c < |fat| && now[c] ensures LinkFlagged(fat, now, c) {
      if flags[c] {
        assert LinkFlagged(fat, flags, c);
      } else {
        var i :| 0 <= i < |cs| && cs[i] == c;
        if i + 1 < |cs| {
          assert fat[cs[i]] == C.Link(cs, i) && cs[i + 1] in s;
        }
      }
    }
  }

  lemma EndStaysClosed(fat: seq<nat>, c: nat, flags: seq<bool>)
    requires Closed(fat, flags) && c < |fat| && fat[c] >= EOC
    ensures Closed(fat, Mark(flags, {c}))
  {
    var now := Mark(flags, {c});
    forall d | 2 <= d < |now| && d < |fat| && now[d] ensures LinkFlagged(fat, now, d) {
      assert flags[d] ==> LinkFlagged(fat, flags, d);
    }
  }

  /** From a flagged cluster of a chain on, closed flags cover the chain. */
  lemma {:induction false} RestFlagged(fat: seq<nat>, limit: nat, cs: seq<nat>, flags: seq<bool>, j: nat, i: nat)
    requires C.IsChain(fat, limit, cs) && Closed(fat, flags) && limit <= |flags|
    requires j <= i < |cs| && flags[cs[j]]
    ensures flags[cs[i]]
  {
    if j < i {
      RestFlagged(fat, limit, cs, flags, j, i - 1);
      assert fat[cs[i - 1]] == C.Link(cs, i - 1);
      assert LinkFlagged(fat, flags, cs[i - 1]);
    }
  }

  // ---------- protect_fat_chain ----------

  method ProtectFatChain(start: nat, flags: array<bool>, fat: seq<nat>, ghost limit: nat, ghost cs: seq<nat>)
    requires limit <= flags.Length && limit <= |fat| && limit <= EOC && Closed(fat, flags[..])
    requires if cs == [] then start < 2 || start >= EOC else C.IsChain(fat, limit, cs) && start == cs[0]
    modifies flags
    ensures flags[..] == Mark(old(flags[..]), SetOf(cs))
    ensures Closed(fat, flags[..])
  {
    ghost var before := flags[..];
    var c := start;
    ghost var j: nat := 0;
    while 2 <= c < EOC
      invariant j <= |cs| && flags[..] == Mark(before, SetOf(cs[..j]))
      invariant if j < |cs| then c == cs[j] else !(2 <= c < EOC)
      decreases |cs| - j
    {
      assert 2 <= cs[j] < limit;
      if flags[c] {
        AlreadyFlagged(fat, limit, cs, before, j);
        break;
      }
      FlagNext(before, flags[..], cs, j);
      flags[c] := true;
      c := fat[c];
      NextLink(fat, limit, cs, j);
      j := j + 1;
    }
    if j == |cs| {
      assert cs[..j] == cs;
    }
    if cs == [] {
      MarkTwice(before, {}, {});
      assert SetOf(cs) == {};
    } else {
      ChainStaysClosed(fat, limit, cs, before);
    }
  }

  lemma NextLink(fat: seq<nat>, limit: nat, cs: seq<nat>, j: nat)
    requires C.IsChain(fat, limit, cs) && j < |cs|
    ensures if j + 1 < |cs| then fat[cs[j]] == cs[j + 1] else fat[cs[j]] >= EOC
  {
    if j + 1 < |cs| {
      assert fat[cs[j]] == C.Link(cs, j);
    }
  }

  lemma FlagNext(before: seq<bool>, flags: seq<bool>, cs: seq<nat>, j: nat)
    requires j < |cs| && cs[j] < |flags| && flags == Mark(before, SetOf(cs[..j]))
    ensures flags[cs[j] := true] == Mark(before, SetOf(cs[..j + 1]))
  {
    assert cs[..j + 1] == cs[..j] + [cs[j]];
  }

  /** A flagged cluster on the way: the rest of the chain is flagged already. */
  lemma AlreadyFlagged(fat: seq<nat>, limit: nat, cs: seq<nat>, before: seq<bool>, j: nat)
    requires C.IsChain(fat, limit, cs) && Closed(fat, before) && limit <= |before| && j < |cs|
    requires Mark(before, SetOf(cs[..j]))[cs[j]]
    ensures Mark(before, SetOf(cs[..j])) == Mark(before, SetOf(cs))
  {
    assert forall i :: 0 <= i < j ==> cs[..j][i] == cs[i] && cs[i] != cs[j];
    assert before[cs[j]];
    forall i | 0 <= i < |cs| ensures cs[i] in cs[..j] || before[cs[i]] {
      if i < j {
        assert cs[i] == cs[..j][i];
      } else {
        RestFlagged(fat, limit, cs, before, j, i);
      }
    }
  }

  // ---------- protect_directory_tree ----------

  /** The slots up to k have been dealt with: what they show is flagged, and the rest is `rest`. */
  ghost predicate Protecting(g: Geometry, v: Vol, was: seq<bool>, now: seq<bool>, all: set<nat>, slots: Slots, k: nat, rest: Forest)
    requires Shaped(g, v) && k <= |slots|
  {
    && ShowsAll(g, v, rest, slots, k)
    && Mark(now, ClaimsAll(rest)) == Mark(was, all)
    && Closed(v.fat, now)
  }

  method ProtectDirectoryTree(vol: Volume, dir: nat, flags: array<bool>, fat: seq<nat>, ghost t: Tree)
    requires vol.Valid() && fat == vol.V().fat && vol.g.limit <= flags.Length
    requires Shows(vol.g, vol.V(), t, true, dir) && Closed(fat, flags[..])
    modifies flags
    ensures flags[..] == Mark(old(flags[..]), Claims(t))
    ensures Closed(fat, flags[..])
    decreases t, 1
  {
    ghost var v := vol.V();
    ghost var sectors: seq<Sector> := DirOf(v, dir);
    ghost var rest := t.kids;
    ghost var was := flags[..];
    var c := dir;
    EndStaysClosed(fat, c, was);
    MarkOne(was, c);
    MarkTwice(was, {c}, ClaimsAll(rest));
    flags[c] := true;
    var s := 0;
    while s < vol.g.sectorsPerCluster
      invariant 0 <= s <= vol.g.sectorsPerCluster == |sectors|
      invariant rest == t.kids || rest < t.kids
      invariant Protecting(vol.g, v, was, flags[..], Claims(t), SlotsOf(sectors), s * 16, rest)
    {
      var sector := vol.ReadClusterSector(c, s);
      var done;
      done, rest := ProtectSector(vol, sector, s, flags, fat, t, rest, v, sectors, was);
      if done {
        return;
      }
      s := s + 1;
    }
    MarkTwice(flags[..], {}, {});
  }

  /** The slots of one sector; `done` when a never-used slot ends the directory. */
  method ProtectSector(vol: Volume, sector: Sector, s: nat, flags: array<bool>, fat: seq<nat>, ghost t: Tree, ghost rest0: Forest,
                       ghost v: Vol, ghost sectors: seq<Sector>, ghost was: seq<bool>)
    returns (done: bool, ghost rest: Forest)
    requires vol.Valid() && v == vol.V() && fat == v.fat && vol.g.limit <= flags.Length
    requires s < |sectors| && sector == sectors[s]
    requires t.Dir? && (rest0 == t.kids || rest0 < t.kids)
    requires Protecting(vol.g, v, was, flags[..], Claims(t), SlotsOf(sectors), s * 16, rest0)
    modifies flags
    ensures rest == t.kids || rest < t.kids
    ensures done ==> flags[..] == Mark(was, Claims(t)) && Closed(fat, flags[..])
    ensures !done ==> Protecting(vol.g, v, was, flags[..], Claims(t), SlotsOf(sectors), (s + 1) * 16, rest)
    decreases t, 0
  {
    ghost var slots := SlotsOf(sectors);
    rest := rest0;
    var i := 0;
    while i < 16
      invariant 0 <= i <= 16 && (rest == t.kids || rest < t.kids)
      invariant Protecting(vol.g, v, was, flags[..], Claims(t), slots, s * 16 + i, rest)
    {
      SlotsIndex(sectors, s, i);
      var e := SlotAt(sector, i);
      if e[0] == 0 {
        MarkTwice(flags[..], {}, {});
        return true, rest;
      }
      if !Passed(e) {
        ghost var head := rest.head;
        ghost var now := flags[..];
        assert Shows(vol.g, v, head, IsDirSlot(e), ClusterOf(e));
        if IsDirSlot(e) {
          ProtectDirectoryTree(vol, ClusterOf(e), flags, fat, head);
        } else {
          ProtectFatChain(ClusterOf(e), flags, fat, vol.g.limit, head.chain);
        }
        MarkTwice(now, Claims(head), ClaimsAll(rest.tail));
        rest := rest.tail;
      }
      i := i + 1;
    }
    done := false;
  }
}
