/**
 * fat16_create_dir: a new directory linked into the tree.
 *
 * Only the first sector of the new cluster is written.  What the other sectors held before
 * stays, and decides whether the new directory is well formed.
 */
module FatMkdir {
  import opened Common
  import opened FatConst
  import opened Bytes
  import opened FatNames
  import opened FatDir
  import opened FatDirUpdate
  import opened FatDirTheorems
  import opened FatDisk
  import opened FatDirIo
  import opened FatDirWrite
  import opened PathText
  import opened FatPaths
  import opened FatChdir
  import opened FatFileSystem
  import C = FatChain


  /** The slots create_dir writes: ".", "..", and fourteen never used. */
  function FirstSlot(c: nat, parent: nat, i: nat): Slot
    requires c < 0x1_0000 && parent < 0x1_0000
  {
    if i == 0 then EntrySlot(Format83(Here), ATTR_DIR, c, 0)
    else if i == 1 then EntrySlot(Format83(Up), ATTR_DIR, parent, 0)
    else Zeros(32)
  }

  /** A directory as create_dir leaves it: its first sector fresh, the rest as it was. */
  ghost predicate NewDir(slots: Slots, stale: Slots, c: nat, parent: nat) {
    && c < 0x1_0000 && parent < 0x1_0000 && |slots| == |stale| >= 16
    && (forall i :: 0 <= i < 16 ==> slots[i] == FirstSlot(c, parent, i))
    && (forall i :: 16 <= i < |slots| ==> slots[i] == stale[i])
  }

  /** The other sectors of the cluster never held an entry. */
  ghost predicate NeverUsed(stale: Slots) {
    forall i :: 16 <= i < |stale| ==> stale[i][0] == 0
  }

  lemma FirstSlots(c: nat, parent: nat)
    requires c < 0x1_0000 && parent < 0x1_0000
    ensures forall i {:trigger FirstSlot(c, parent, i)} :: 0 <= i < 2 ==>
              !Free(FirstSlot(c, parent, i)) && !IsLfn(FirstSlot(c, parent, i)) && IsDirSlot(FirstSlot(c, parent, i))
    ensures FirstSlot(c, parent, 0)[..11] == Format83(Here) && ClusterOf(FirstSlot(c, parent, 0)) == c
    ensures FirstSlot(c, parent, 1)[..11] == Format83(Up) && ClusterOf(FirstSlot(c, parent, 1)) == parent
    ensures forall i: nat {:trigger FirstSlot(c, parent, i)} :: 2 <= i ==> FirstSlot(c, parent, i)[0] == 0
  {
    EntryReadsBack(Format83(Here), ATTR_DIR, c, 0);
    EntryReadsBack(Format83(Up), ATTR_DIR, parent, 0);
    assert Format83(Here)[0] == DOT && Format83(Up)[0] == DOT;
  }

  /**
   * The new directory is well formed if and only if the rest of its cluster never held an
   * entry; otherwise old entries lie behind its first unused slot.
   */
  lemma NewDirWellFormed(slots: Slots, stale: Slots, c: nat, parent: nat)
    requires NewDir(slots, stale, c, parent)
    ensures WellFormed(slots) <==> NeverUsed(stale)
  {
    FirstSlots(c, parent);
    assert slots[2] == FirstSlot(c, parent, 2) && slots[0] == FirstSlot(c, parent, 0) && slots[1] == FirstSlot(c, parent, 1);
    if NeverUsed(stale) {
      forall i | 2 <= i < |slots| ensures slots[i][0] == 0 {
        if i < 16 {
          assert slots[i] == FirstSlot(c, parent, i);
        }
      }
      forall i, j | 0 <= i < j < |slots| && Unused(slots[i]) ensures Unused(slots[j]) {
      }
    } else {
      var j :| 16 <= j < |stale| && stale[j][0] != 0;
      assert !Unused(slots[j]) && Unused(slots[2]);
    }
  }

  lemma DotNames(t: Token)
    ensures Format83(Here) != Format83(Up)
    ensures IsPlain(t) ==> Format83(t)[0] != DOT
  {
    assert Format83(Here)[1] == SPACE && Format83(Up)[1] == DOT;
  }

  /** In it, ".." leads to the parent and no plain name leads anywhere. */
  lemma NewDirLooks(slots: Slots, stale: Slots, c: nat, parent: nat, t: Token)
    requires NewDir(slots, stale, c, parent)
    ensures NodeOf(slots, Up) == Some(Node(true, parent))
    ensures IsPlain(t) ==> Lookup(slots, t, Any).None?
  {
    FirstSlots(c, parent);
    DotNames(t);
    CleanIsEmpty();
    assert slots[2] == FirstSlot(c, parent, 2) && slots[0] == FirstSlot(c, parent, 0) && slots[1] == FirstSlot(c, parent, 1);
    NameScan(slots, Up, c, parent);
    NameScan(slots, t, c, parent);
  }

  lemma NameScan(slots: Slots, t: Token, c: nat, parent: nat)
    requires |slots| >= 3 && slots[2][0] == 0
    requires forall i :: 0 <= i < 2 ==> !Free(slots[i]) && !IsLfn(slots[i])
    ensures Lookup(slots, t, Any) ==
            if slots[0][..11] == Format83(t) then Some(Hit(0, 0))
            else if slots[1][..11] == Format83(t) then Some(Hit(1, 1)) else None
  {
    CleanIsEmpty();
    assert Find(slots, 2, Clean, t, Any) == None;
    assert Find(slots, 1, Clean, t, Any) == if slots[1][..11] == Format83(t) then Some(Hit(1, 1)) else None;
  }

  // ---------- the call ----------

  /** The first sector create_dir writes. */
  function FirstSector(c: nat, parent: nat): Sector
    requires c < 0x1_0000 && parent < 0x1_0000
  {
    PutSlot(PutSlot(Zeros(512), 0, FirstSlot(c, parent, 0)), 1, FirstSlot(c, parent, 1))
  }

  lemma FirstSectorSlots(c: nat, parent: nat, i: nat)
    requires c < 0x1_0000 && parent < 0x1_0000 && i < 16
    ensures SlotAt(FirstSector(c, parent), i) == FirstSlot(c, parent, i)
  {
    var once := PutSlot(Zeros(512), 0, FirstSlot(c, parent, 0));
    PutThenSlot(Zeros(512), 0, FirstSlot(c, parent, 0), i);
    PutThenSlot(once, 1, FirstSlot(c, parent, 1), i);
    assert SlotAt(Zeros(512), i) == Zeros(32);
  }

  lemma NewDirMade(stale: seq<Sector>, c: nat, parent: nat)
    requires c < 0x1_0000 && parent < 0x1_0000 && |stale| >= 1
    ensures NewDir(SlotsOf(SetSector(stale, 0, FirstSector(c, parent))), SlotsOf(stale), c, parent)
  {
    var made := SetSector(stale, 0, FirstSector(c, parent));
    forall i | 0 <= i < 16 ensures SlotsOf(made)[i] == FirstSlot(c, parent, i) {
      FirstSectorSlots(c, parent, i);
      SlotsIndex(made, 0, i);
    }
    forall i | 16 <= i < |SlotsOf(made)| ensures SlotsOf(made)[i] == SlotsOf(stale)[i] {
      SlotsIndex(made, i / 16, i % 16);
      SlotsIndex(stale, i / 16, i % 16);
    }
  }

  /** The volume with cluster c taken for a new directory under `parent`. */
  ghost predicate Claimed(g: Geometry, v: Vol, vm: Vol, c: nat, parent: nat) {
    && Shaped(g, v) && 2 <= c < g.limit <= g.Entries() && g.limit <= EOC && g.sectorsPerCluster >= 1 && parent < 0x1_0000
    && v.fat[c] == FREE
    && vm == v.(fat := v.fat[c := END], clusters := v.clusters[c := SetSector(v.clusters[c], 0, FirstSector(c, parent))])
  }

  ghost predicate MadeDir(g: Geometry, v: Vol, vm: Vol, v': Vol, dir: nat, name: seq<byte>, c: nat, p: nat)
  {
    && IsName(name) && DirUsable(g, v, dir) && Claimed(g, v, vm, c, dir)
    && FitsAt(DirSlots(v, dir), p, LfnCount(name) + 1)
    && OnlyDirChanged(vm, v', dir, Added(DirSlots(v, dir), p, name, ATTR_DIR, c, 0))
  }

  /** find_free_cluster finds none. */
  predicate DiskFull(v: Vol) { NoneFree(v.fat, END) }

  /** A data cluster is free, or no cluster at all is. */
  ghost predicate FullOrNot(g: Geometry, v: Vol) { |C.FreeBelow(v.fat, g.limit)| >= 1 || DiskFull(v) }

  /** create_dir from its lookup on.  When the directory is full the claimed cluster stays
      allocated with no entry for it. */
  method MakeDir(vol: Volume, dir: nat, name: seq<byte>) returns (ok: bool, ghost c: nat, ghost vm: Vol, ghost p: nat)
    requires vol.Valid() && DirUsable(vol.g, vol.V(), dir) && IsName(name)
    requires FullOrNot(vol.g, vol.V()) && RoomApart(DirSlots(vol.V(), dir), LfnCount(name) + 1)
    modifies vol`disk
    ensures vol.Valid()
    ensures ok ==> Lookup(DirSlots(old(vol.V()), dir), name, Any).None? && MadeDir(vol.g, old(vol.V()), vm, vol.V(), dir, name, c, p)
    ensures !ok ==> || (vol.V() == old(vol.V()) && (Lookup(DirSlots(vol.V(), dir), name, Any).Some? || DiskFull(vol.V())))
                    || (Claimed(vol.g, old(vol.V()), vol.V(), c, dir) && NoRoom(DirSlots(old(vol.V()), dir), LfnCount(name) + 1))
  {
    ghost var v := vol.V();
    c, vm, p := 0, v, 0;
    var hit := ScanDir(vol, dir, name, Any);
    if hit.Some? {
      return false, c, vm, p;
    }
    var cluster;
    ok, cluster := Claim(vol, dir);
    if !ok {
      return;
    }
    c, vm := cluster, vol.V();
    ClaimSparesDir(vol.g, v, vm, c, dir);
    ok, p := AddDirEntry(vol, dir, name, ATTR_DIR, cluster, 0);
  }

  /** Takes a cluster and writes the first sector of the new directory into it. */
  method Claim(vol: Volume, parent: nat) returns (ok: bool, c: nat)
    requires vol.Valid() && parent < 0x1_0000 && FullOrNot(vol.g, vol.V())
    modifies vol`disk
    ensures vol.Valid()
    ensures ok ==> Claimed(vol.g, old(vol.V()), vol.V(), c, parent)
    ensures !ok ==> vol.V() == old(vol.V()) && DiskFull(vol.V())
  {
    ghost var v := vol.V();
    c := vol.FindFreeCluster();
    ok := c != END;
    if ok {
      C.LowestFits(v.fat, vol.g.limit, c);
      vol.SetFatEntry(c, END);
      vol.PutClusterSector(c, 0, FirstSector(c, parent));
    }
  }

  lemma ClaimSparesDir(g: Geometry, v: Vol, vm: Vol, c: nat, d: nat)
    requires exists parent :: Claimed(g, v, vm, c, parent)
    requires DirUsable(g, v, d)
    ensures c != d && d < |vm.clusters| && DirOf(vm, d) == DirOf(v, d)
  {
  }

  // ---------- the tree with the new directory in it ----------

  lemma MadeParent(g: Geometry, v: Vol, vm: Vol, v': Vol, dir: nat, name: seq<byte>, c: nat, p: nat, t: Token)
    requires MadeDir(g, v, vm, v', dir, name, c, p)
    ensures DirUsable(g, v', dir)
    ensures LookIn(v', dir, t) == LookIn(v, dir, t) || (SameName(name, t) && LookIn(v', dir, t) == Some(Node(true, c)))
  {
    ClaimSparesDir(g, v, vm, c, dir);
    AddKeepsWellFormed(DirSlots(v, dir), p, name, ATTR_DIR, c, 0);
    AddedDir(DirSlots(v, dir), p, name, c, t);
    LookThrough(v', dir, Added(DirSlots(v, dir), p, name, ATTR_DIR, c, 0), t);
    LookThrough(v, dir, DirSlots(v, dir), t);
  }

  lemma AddedDir(slots: Slots, p: nat, name: seq<byte>, c: nat, target: seq<byte>)
    requires IsName(name) && c < 0x1_0000
    requires WellFormed(slots) && FitsAt(slots, p, LfnCount(name) + 1)
    ensures OldOrNew(slots, Added(slots, p, name, ATTR_DIR, c, 0), name, target, Node(true, c))
  {
    AddedNode(slots, p, name, ATTR_DIR, c, 0, target);
  }

  lemma MadeOther(g: Geometry, v: Vol, vm: Vol, v': Vol, dir: nat, name: seq<byte>, c: nat, p: nat, d: nat, t: Token)
    requires MadeDir(g, v, vm, v', dir, name, c, p) && DirUsable(g, v, d) && d != dir
    ensures DirUsable(g, v', d) && LookIn(v', d, t) == LookIn(v, d, t)
  {
    ClaimSparesDir(g, v, vm, c, d);
    ClaimSparesDir(g, v, vm, c, dir);
    OtherDirSame(vm, v', dir, Added(DirSlots(v, dir), p, name, ATTR_DIR, c, 0), d);
  }

  lemma MadeNew(g: Geometry, v: Vol, vm: Vol, v': Vol, dir: nat, name: seq<byte>, c: nat, p: nat, t: Token)
    requires MadeDir(g, v, vm, v', dir, name, c, p)
    ensures c < |v'.clusters| && (DirUsable(g, v', c) <==> NeverUsed(SlotsOf(v.clusters[c])))
    ensures LookIn(v', c, Up) == Some(Node(true, dir))
    ensures IsPlain(t) ==> LookIn(v', c, t).None?
  {
    ClaimSparesDir(g, v, vm, c, dir);
    OtherDirSame(vm, v', dir, Added(DirSlots(v, dir), p, name, ATTR_DIR, c, 0), c);
    NewDirMade(v.clusters[c], c, dir);
    NewDirWellFormed(DirSlots(v', c), SlotsOf(v.clusters[c]), c, dir);
    NewDirLooks(DirSlots(v', c), SlotsOf(v.clusters[c]), c, dir, t);
  }

  /** The name of a new directory leads to it, if its entry is visible. */
  lemma MadeFound(g: Geometry, v: Vol, vm: Vol, v': Vol, dir: nat, name: seq<byte>, c: nat, p: nat)
    requires MadeDir(g, v, vm, v', dir, name, c, p) && Lookup(DirSlots(v, dir), name, Any).None?
    ensures LookIn(v', dir, name) == if Visible(name) then Some(Node(true, c)) else None
  {
    ClaimSparesDir(g, v, vm, c, dir);
    NewDirFound(DirSlots(v, dir), p, name, c);
    LookThrough(v', dir, Added(DirSlots(v, dir), p, name, ATTR_DIR, c, 0), name);
  }

  lemma NewDirFound(slots: Slots, p: nat, name: seq<byte>, c: nat)
    requires IsName(name) && c < 0x1_0000
    requires WellFormed(slots) && FitsAt(slots, p, LfnCount(name) + 1) && Lookup(slots, name, Any).None?
    ensures NodeOf(Added(slots, p, name, ATTR_DIR, c, 0), name) == if Visible(name) then Some(Node(true, c)) else None
  {
    LookupAfterAdd(slots, p, name, ATTR_DIR, c, 0, name, Any);
    AddedShape(slots, p, name, ATTR_DIR, c, 0);
    NewSlotReads(Added(slots, p, name, ATTR_DIR, c, 0), p, name, ATTR_DIR, c, 0);
  }

  lemma MadeLook(g: Geometry, v: Vol, vm: Vol, v': Vol, dir: nat, name: seq<byte>, c: nat, p: nat, dirs: set<nat>, d: nat, t: Token)
    requires MadeDir(g, v, vm, v', dir, name, c, p) && Mounted(g, v, dirs) && d in dirs
    ensures DirUsable(g, v', d) && d != c
    ensures LookIn(v', d, t) == LookIn(v, d, t) || (d == dir && SameName(name, t) && LookIn(v', d, t) == Some(Node(true, c)))
  {
    assert DirUsable(g, v, d);
    ClaimSparesDir(g, v, vm, c, d);
    if d == dir {
      MadeParent(g, v, vm, v', dir, name, c, p, t);
    } else {
      MadeOther(g, v, vm, v', dir, name, c, p, d, t);
    }
  }

  /** look' differs from look, over the directories, at most in the name's leading to the new one. */
  ghost predicate GainsDir(look: Look, look': Look, dirs: set<nat>, name: seq<byte>, dir: nat, c: nat) {
    forall d: nat, t: Token {:trigger look'(d, t)} :: d in dirs ==>
      look'(d, t) == look(d, t) || (d == dir && SameName(name, t) && look'(d, t) == Some(Node(true, c)))
  }

  lemma Gained(g: Geometry, v: Vol, vm: Vol, v': Vol, dir: nat, name: seq<byte>, c: nat, p: nat, dirs: set<nat>)
    requires MadeDir(g, v, vm, v', dir, name, c, p) && Mounted(g, v, dirs)
    ensures GainsDir(LookOf(v), LookOf(v'), dirs, name, dir, c) && c !in dirs
  {
    forall d: nat, t: Token | d in dirs
      ensures LookIn(v', d, t) == LookIn(v, d, t) || (d == dir && SameName(name, t) && LookIn(v', d, t) == Some(Node(true, c)))
    {
      MadeLook(g, v, vm, v', dir, name, c, p, dirs, d, t);
    }
    if c in dirs {
      MadeLook(g, v, vm, v', dir, name, c, p, dirs, c, Up);
    }
  }

  /**
   * create_dir leaves every directory there was usable and the way to the working directory
   * open, whatever the new cluster held before.
   */
  lemma MadeTree(g: Geometry, v: Vol, vm: Vol, v': Vol, dir: nat, name: seq<byte>, c: nat, p: nat, dirs: set<nat>, comps: seq<Token>)
    requires MadeDir(g, v, vm, v', dir, name, c, p) && OffPath(LookOf(v), dir, name, comps)
    requires Mounted(g, v, dirs) && dir in dirs && Inside(LookOf(v), dirs, comps)
    ensures Mounted(g, v', dirs) && SameTree(LookOf(v), LookOf(v'), dirs, comps)
  {
    var look, look' := LookOf(v), LookOf(v');
    Gained(g, v, vm, v', dir, name, c, p, dirs);
    forall d | d in dirs ensures DirUsable(g, v', d) {
      MadeLook(g, v, vm, v', dir, name, c, p, dirs, d, Up);
    }
    assert OnlyNameChanged(look, look', dirs, dir, name);
    OffPathSteps(look, look', dirs, dir, name, comps);
    SameTreeOk(look, look', dirs, comps);
  }

  /**
   * The new directory joins a closed tree: the tree with it is closed and linked, and all of it
   * usable exactly when the rest of the new cluster was never used.
   */
  lemma NewDirJoins(g: Geometry, v: Vol, vm: Vol, v': Vol, dir: nat, name: seq<byte>, c: nat, p: nat, dirs: set<nat>)
    requires MadeDir(g, v, vm, v', dir, name, c, p) && !SameName(name, Up)
    requires Mounted(g, v, dirs) && TreeClosed(LookOf(v), dirs) && dir in dirs
    ensures Mounted(g, v', dirs + {c}) <==> NeverUsed(SlotsOf(v.clusters[c]))
    ensures TreeClosed(LookOf(v'), dirs + {c})
  {
    var look, look' := LookOf(v), LookOf(v');
    Gained(g, v, vm, v', dir, name, c, p, dirs);
    NewLooks(g, v, vm, v', dir, name, c, p);
    MadeNew(g, v, vm, v', dir, name, c, p, Up);
    GrownTreeOk(look, look', dirs, name, dir, c);
    forall d | d in dirs ensures DirUsable(g, v', d) {
      MadeLook(g, v, vm, v', dir, name, c, p, dirs, d, Up);
    }
    if Mounted(g, v', dirs + {c}) {
      assert DirUsable(g, v', c);
    }
  }

  lemma NewLooks(g: Geometry, v: Vol, vm: Vol, v': Vol, dir: nat, name: seq<byte>, c: nat, p: nat)
    requires MadeDir(g, v, vm, v', dir, name, c, p)
    ensures LookOf(v')(c, Up) == Some(Node(true, dir)) && c != 0
    ensures forall t {:trigger LookOf(v')(c, t)} :: IsPlain(t) ==> LookOf(v')(c, t).None?
  {
    MadeNew(g, v, vm, v', dir, name, c, p, Up);
    forall t | IsPlain(t) ensures LookOf(v')(c, t).None? {
      MadeNew(g, v, vm, v', dir, name, c, p, t);
    }
  }

  lemma GrownTreeOk(look: Look, look': Look, dirs: set<nat>, name: seq<byte>, dir: nat, c: nat)
    requires TreeOk(look, dirs) && TreeClosed(look, dirs)
    requires GainsDir(look, look', dirs, name, dir, c) && dir in dirs && c !in dirs && c != 0
    requires look'(c, Up) == Some(Node(true, dir)) && !SameName(name, Up)
    requires forall t {:trigger look'(c, t)} :: IsPlain(t) ==> look'(c, t).None?
    ensures TreeOk(look', dirs + {c}) && TreeClosed(look', dirs + {c})
  {
    forall d: nat, t: Token | d in dirs + {c} && IsPlain(t) && ChildDir(look', d, t).Some? && ChildDir(look', d, t).value in dirs + {c}
      ensures HasParent(look', ChildDir(look', d, t).value, d)
    {
      var e := ChildDir(look', d, t).value;
      if e in dirs {
        assert look'(d, t) == look(d, t);
        assert HasParent(look, e, d);
        assert look'(e, Up) == look(e, Up);
      } else {
        assert d in dirs && look'(d, t) != look(d, t);
      }
    }
  }

  /** A claimed cluster that found no room for its entry changes no directory. */
  lemma ClaimedTree(g: Geometry, v: Vol, vm: Vol, c: nat, parent: nat, dirs: set<nat>)
    requires Claimed(g, v, vm, c, parent) && Mounted(g, v, dirs)
    ensures SameDirs(g, v, vm, dirs)
  {
    forall d: nat | d in dirs ensures DirUsable(g, vm, d) && d < |v.clusters| && DirOf(vm, d) == DirOf(v, d) {
      assert DirUsable(g, v, d);
      ClaimSparesDir(g, v, vm, c, d);
    }
  }

  // ---------- fat16_create_dir ----------

  /** The argument made absolute. */
  function AbsolutePath(dirname: seq<byte>, cwd: seq<byte>): seq<byte> {
    if Absolute(dirname) then dirname
    else if cwd == [SLASH] then [SLASH] + dirname
    else cwd + [SLASH] + dirname
  }

  /** Made absolute, the argument names what it names from the current path on. */
  lemma AbsoluteFromHome(dirname: seq<byte>, comps: seq<Token>)
    requires GoodPath(comps)
    ensures Tokens(AbsolutePath(dirname, Render(comps))) == if dirname != [] && dirname[0] == SLASH then Tokens(dirname) else comps + Tokens(dirname)
  {
    if !Absolute(dirname) {
      TokensOfRender(comps);
      TokensApart(Render(comps), dirname);
      if Render(comps) == [SLASH] {
        assert ([SLASH] + dirname)[1..] == dirname;
        assert Tokens(Render(comps)) == Tokens([]) == [];
      }
    }
  }

  /** What create_dir did: a new directory with the name leading to it, unless its entry is
      invisible; nothing; or, in a full directory, only a cluster taken. */
  ghost predicate CreateResult(ok: bool, g: Geometry, v: Vol, vm: Vol, v': Vol, d: nat, name: seq<byte>, c: nat, p: nat) {
    if ok then MadeDir(g, v, vm, v', d, name, c, p) && LookIn(v', d, name) == if Visible(name) then Some(Node(true, c)) else None
    else v' == v || Claimed(g, v, v', c, d)
  }

  /** The tree after create_dir: the directories there were are usable.  A closed tree grows by
      the new one, all of it usable exactly if the new cluster's other sectors were never used. */
  ghost predicate TreeGrown(ok: bool, g: Geometry, v: Vol, v': Vol, dirs: set<nat>, comps: seq<Token>, c: nat) {
    && Mounted(g, v', dirs) && Inside(LookOf(v'), dirs, comps)
    && (ok && TreeClosed(LookOf(v), dirs) ==>
          && TreeClosed(LookOf(v'), dirs + {c})
          && c < |v.clusters| && (Mounted(g, v', dirs + {c}) <==> NeverUsed(SlotsOf(v.clusters[c]))))
    && (!ok && TreeClosed(LookOf(v), dirs) ==> TreeClosed(LookOf(v'), dirs))
  }

  /** The new directory made in directory d, with the way back to the working directory open. */
  method CreateIn(vol: Volume, d: nat, name: seq<byte>, ghost dirs: set<nat>, ghost comps: seq<Token>, ghost cwd: nat, ghost path: seq<byte>)
    returns (ok: bool, ghost c: nat, ghost vm: Vol, ghost p: nat)
    requires vol.Valid() && Mounted(vol.g, vol.V(), dirs) && Inside(LookOf(vol.V()), dirs, comps)
    requires d in dirs && DirUsable(vol.g, vol.V(), d) && Standing(LookOf(vol.V()), comps, cwd, path)
    requires CanAdd(vol.V(), d, name, comps) && FullOrNot(vol.g, vol.V())
    modifies vol`disk
    ensures vol.Valid() && TreeGrown(ok, vol.g, old(vol.V()), vol.V(), dirs, comps, c)
    ensures Standing(LookOf(vol.V()), comps, cwd, path)
    ensures CreateResult(ok, vol.g, old(vol.V()), vm, vol.V(), d, name, c, p)
  {
    ghost var v := vol.V();
    ok, c, vm, p := MakeDir(vol, d, name);
    if ok {
      MadeTree(vol.g, v, vm, vol.V(), d, name, c, p, dirs, comps);
      StillStanding(LookOf(v), LookOf(vol.V()), dirs, comps, cwd, path);
      if TreeClosed(LookOf(v), dirs) {
        NewDirJoins(vol.g, v, vm, vol.V(), d, name, c, p, dirs);
      }
      MadeFound(vol.g, v, vm, vol.V(), d, name, c, p);
    } else if vol.V() != v {
      ClaimedTree(vol.g, v, vol.V(), c, d, dirs);
      SameDirsTree(vol.g, v, vol.V(), dirs, comps);
      TreeIsKept(vol.g, v, vol.V(), dirs, comps, cwd, path);
    }
  }

  /** What create_dir asks of a name, in the directory it goes into. */
  ghost predicate CanName(v: Vol, path: seq<byte>, comps: seq<Token>) {
    var base := BasePart(path);
    base != [] ==> |base| < 64 && IsName(base) && forall d: nat :: ParentAt(LookOf(v), path, d) ==> CanAdd(v, d, base, comps)
  }

  /** Where the parent directory of a path lies. */
  ghost predicate ParentAt(look: Look, path: seq<byte>, d: nat) {
    var way := Go(look, [], Tokens(DirPart(path)));
    way.Some? && Walk(look, way.value) == Some(d)
  }

  lemma PathParts(path: seq<byte>)
    requires IsText(path) && |path| < MAX_PATH && Absolute(path)
    ensures IsText(DirPart(path)) && |DirPart(path)| < MAX_PATH && Absolute(DirPart(path)) && LastSlash(path) >= 0
  {
    assert path[0] == SLASH;
  }

  lemma AbsoluteIsText(dirname: seq<byte>, comps: seq<Token>)
    requires GoodPath(comps) && IsText(dirname)
    ensures IsText(AbsolutePath(dirname, Render(comps))) && Absolute(AbsolutePath(dirname, Render(comps)))
  {
    RenderFits(comps);
  }

  /** The change into the parent directory. */
  method ToParent(fs: FileSystem, dirname: seq<byte>, ghost dirs: set<nat>, ghost comps: seq<Token>)
    returns (ok: bool, base: seq<byte>, ghost target: seq<Token>)
    requires fs.Valid(dirs, comps) && IsText(dirname) && |AbsolutePath(dirname, fs.path)| < MAX_PATH
    requires GoInside(LookOf(fs.vol.V()), dirs, [], Tokens(DirPart(AbsolutePath(dirname, fs.path))))
    modifies fs
    ensures base == BasePart(AbsolutePath(dirname, old(fs.path)))
    ensures ok ==> base != [] && fs.Valid(dirs, target) && fs.dir in dirs
                   && ParentAt(LookOf(fs.vol.V()), AbsolutePath(dirname, old(fs.path)), fs.dir)
  {
    AbsoluteIsText(dirname, comps);
    var path := AbsolutePath(dirname, fs.path);
    PathParts(path);
    var slash := FindLastSlash(path);
    base := path[slash + 1..];
    ok, target := false, [];
    if base != [] {
      ok, target := fs.Chdir(DirPart(path), dirs, comps);
      if ok {
        InsideHere(LookOf(fs.vol.V()), dirs, target);
      }
    }
  }

  /** fat16_create_dir: whatever happens, the working directory is back where it was. */
  method CreateDir(fs: FileSystem, dirname: seq<byte>, ghost dirs: set<nat>, ghost comps: seq<Token>)
    returns (ok: bool, ghost d: nat, ghost c: nat, ghost vm: Vol, ghost p: nat)
    requires fs.Valid(dirs, comps)
    requires IsText(dirname) && |AbsolutePath(dirname, fs.path)| < MAX_PATH
    requires GoInside(LookOf(fs.vol.V()), dirs, [], Tokens(DirPart(AbsolutePath(dirname, fs.path))))
    requires CanName(fs.vol.V(), AbsolutePath(dirname, fs.path), comps)
    requires FullOrNot(fs.vol.g, fs.vol.V())
    modifies fs, fs.vol`disk
    ensures fs.Valid(dirs, comps) && fs.dir == old(fs.dir) && fs.path == old(fs.path)
    ensures TreeGrown(ok, fs.vol.g, old(fs.vol.V()), fs.vol.V(), dirs, comps, c)
    ensures CreateResult(ok, fs.vol.g, old(fs.vol.V()), vm, fs.vol.V(), d, BasePart(AbsolutePath(dirname, old(fs.path))), c, p)
    ensures ok ==> dirname != [] && ParentAt(LookOf(old(fs.vol.V())), AbsolutePath(dirname, old(fs.path)), d)
  {
    d, c, vm, p := 0, 0, fs.vol.V(), 0;
    ok := false;
    if dirname == [] {
      return;
    }
    var saved := fs.path;
    ghost var cwd := fs.dir;
    var base: seq<byte>;
    ghost var target;
    ok, base, target := ToParent(fs, dirname, dirs, comps);
    if ok {
      d := fs.dir;
      assert DirUsable(fs.vol.g, fs.vol.V(), d);
      ok, c, vm, p := CreateIn(fs.vol, fs.dir, base, dirs, comps, cwd, saved);
    }
    fs.Leave(saved, true, dirs, comps);
  }
}
