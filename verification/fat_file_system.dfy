/**
 * The path-taking operations of fat16.c.  Each changes into the directory part of its
 * argument, works there, and changes back; here the change back is proved to arrive.
 */
module FatFileSystem {
  import opened Common
  import opened FatConst
  import opened Bytes
  import opened FatNames
  import opened FatDir
  import opened FatDirUpdate
  import opened FatDirTheorems
  import opened FatDisk
  import opened FatDirIo
  import opened FatDirWrite
  import opened FatFiles
  import opened FatVolume
  import opened FatVolumeIo
  import opened PathText
  import opened FatPaths
  import opened FatChdir
  import C = FatChain

  // ---------- which names a change can touch ----------

  /** After adding an entry, a lookup answers as before or hits the new entry. */
  lemma AddedOrSame(slots: Slots, p: nat, name: seq<byte>, attributes: nat, cluster: nat, size: nat, target: seq<byte>)
    requires IsName(name) && IsEntry(attributes, cluster, size)
    requires WellFormed(slots) && FitsAt(slots, p, LfnCount(name) + 1)
    ensures var a := Added(slots, p, name, attributes, cluster, size);
            || Lookup(a, target, Any) == Lookup(slots, target, Any)
            || (SameName(name, target) && Lookup(a, target, Any) == Some(Hit(p, p + LfnCount(name))))
  {
    var a := Added(slots, p, name, attributes, cluster, size);
    AddedShape(slots, p, name, attributes, cluster, size);
    BehindLive(slots, p, LfnCount(name) + 1);
    FromTheRun(slots, a, p, name, attributes, cluster, size, target, Any);
    NoneBefore(slots, a, 0, p, target, Any);
  }

  /** What a name then stands for: the same as before, or, if it is the new one, the new entry. */
  lemma AddedNode(slots: Slots, p: nat, name: seq<byte>, attributes: nat, cluster: nat, size: nat, target: seq<byte>)
    requires IsName(name) && IsEntry(attributes, cluster, size)
    requires WellFormed(slots) && FitsAt(slots, p, LfnCount(name) + 1)
    ensures var a := Added(slots, p, name, attributes, cluster, size);
            || NodeOf(a, target) == NodeOf(slots, target)
            || (SameName(name, target) && NodeOf(a, target) == Some(Node((attributes / 16) % 2 == 1, cluster)))
  {
    var a := Added(slots, p, name, attributes, cluster, size);
    AddedOrSame(slots, p, name, attributes, cluster, size, target);
    AddedShape(slots, p, name, attributes, cluster, size);
    SameOutside(slots, a, p, LfnCount(name) + 1);
    HitIsEntry(slots, 0, Clean, target, Any);
    NewSlotReads(a, p, name, attributes, cluster, size);
  }

  lemma NewSlotReads(a: Slots, p: nat, name: seq<byte>, attributes: nat, cluster: nat, size: nat)
    requires IsName(name) && IsEntry(attributes, cluster, size) && RunAt(a, p, name, attributes, cluster, size)
    ensures p + LfnCount(name) < |a|
    ensures var s := a[p + LfnCount(name)]; (IsDirSlot(s) <==> (attributes / 16) % 2 == 1) && ClusterOf(s) == cluster
  {
    EntryReadsBack(ShortName(name), attributes, cluster, size);
  }

  /** The files of an entry: names that resolve to it resolve to nothing once it is gone. */
  ghost predicate SoleEntry(slots: Slots, h: Hit) {
    h.slot < |slots| && forall t {:trigger Lookup(slots, t, Any)} :: Lookup(slots, t, Any) == Some(h) ==> Unique(slots, h, t, Any)
  }

  lemma ErasedNode(slots: Slots, h: Hit, target: seq<byte>)
    requires WellFormed(slots) && ValidHit(slots, h) && SoleEntry(slots, h)
    ensures var m := Marked(slots, h.start, h.slot);
            NodeOf(m, target) == if Lookup(slots, target, Any) == Some(h) then None else NodeOf(slots, target)
  {
    LookupAfterDelete(slots, h, target, Any);
    HitIsEntry(slots, 0, Clean, target, Any);
    var r := Lookup(slots, target, Any);
    if r.Some? && r.value != h {
      SameSlotSameEntry(slots, h, r.value);
    }
  }

  // ---------- what that means for the tree ----------

  /** Step i of the path still leads where it led. */
  ghost predicate StepSame(look: Look, look': Look, comps: seq<Token>, i: nat)
    requires i < |comps|
  {
    Walk(look, comps[..i + 1]).Some? && Walk(look, comps[..i]).Some? ==>
      look'(Walk(look, comps[..i]).value, comps[i]) == look(Walk(look, comps[..i]).value, comps[i])
  }

  /** look' shows the same tree as look, except that a name may have become a file, or nothing,
      or a directory not among `dirs`; and the path leads where it led. */
  ghost predicate SameTree(look: Look, look': Look, dirs: set<nat>, comps: seq<Token>) {
    && (forall d: nat, t: Token {:trigger look'(d, t)} :: d in dirs ==>
          look'(d, t) == look(d, t) || ChildDir(look', d, t).None? || ChildDir(look', d, t).value !in dirs)
    && (forall d: nat {:trigger look'(d, Up)} :: d in dirs ==> look'(d, Up) == look(d, Up))
    && (forall i: nat {:trigger StepSame(look, look', comps, i)} :: i < |comps| ==> StepSame(look, look', comps, i))
  }

  /** No name has become a directory. */
  ghost predicate NoNewDirs(look: Look, look': Look, dirs: set<nat>) {
    forall d: nat, t: Token {:trigger look'(d, t)} :: d in dirs ==> look'(d, t) == look(d, t) || ChildDir(look', d, t).None?
  }

  lemma SameTreeOk(look: Look, look': Look, dirs: set<nat>, comps: seq<Token>)
    requires TreeOk(look, dirs) && SameTree(look, look', dirs, comps)
    ensures TreeOk(look', dirs)
  {
    forall d: nat, t: Token | d in dirs && IsPlain(t) && ChildDir(look', d, t).Some? && ChildDir(look', d, t).value in dirs
      ensures HasParent(look', ChildDir(look', d, t).value, d)
    {
      assert look'(d, t) == look(d, t);
      assert HasParent(look, ChildDir(look, d, t).value, d);
      assert look'(ChildDir(look, d, t).value, Up) == look(ChildDir(look, d, t).value, Up);
    }
  }

  lemma StaysClosed(look: Look, look': Look, dirs: set<nat>)
    requires TreeClosed(look, dirs) && NoNewDirs(look, look', dirs)
    ensures TreeClosed(look', dirs)
  {
    forall d: nat, t: Token | d in dirs && IsPlain(t) && ChildDir(look', d, t).Some? ensures ChildDir(look', d, t).value in dirs {
      assert look'(d, t) == look(d, t);
    }
  }

  lemma {:induction false} SameWalk(look: Look, look': Look, dirs: set<nat>, comps: seq<Token>, n: nat)
    requires SameTree(look, look', dirs, comps) && n <= |comps| && Inside(look, dirs, comps)
    ensures Walk(look', comps[..n]) == Walk(look, comps[..n])
    decreases n
  {
    if n > 0 {
      SameWalk(look, look', dirs, comps, n - 1);
      WalkOne(look, comps, n - 1);
      WalkOne(look', comps, n - 1);
      assert StepSame(look, look', comps, n - 1);
      assert Walk(look, comps[..n]).Some? && Walk(look, comps[..n - 1]).Some?;
    }
  }

  /** A working directory outlives such a change. */
  lemma StillStanding(look: Look, look': Look, dirs: set<nat>, comps: seq<Token>, dir: nat, path: seq<byte>)
    requires TreeOk(look, dirs) && SameTree(look, look', dirs, comps)
    requires Standing(look, comps, dir, path) && Inside(look, dirs, comps)
    ensures TreeOk(look', dirs) && Standing(look', comps, dir, path) && Inside(look', dirs, comps)
  {
    SameTreeOk(look, look', dirs, comps);
    SameWalk(look, look', dirs, comps, |comps|);
    assert comps[..|comps|] == comps;
    forall i: nat | i <= |comps| ensures Walk(look', comps[..i]).Some? && Walk(look', comps[..i]).value in dirs {
      SameWalk(look, look', dirs, comps, i);
    }
  }

  // ---------- writing ----------

  lemma WritingSparesDirs(g: Geometry, v: Vol, vm: Vol, dirs: set<nat>, cs: seq<nat>, data: seq<byte>, d: nat)
    requires Mounted(g, v, dirs) && d in dirs
    requires Filling(g, v, vm, cs, data, Filled(cs, data), 0)
    ensures d < |vm.clusters| && DirOf(vm, d) == DirOf(v, d) && d !in cs
  {
    assert DirUsable(g, v, d);
    C.AllFreeMeans(v.fat, cs);
  }

  lemma OtherDirSame(v: Vol, v': Vol, dir: nat, slots: Slots, d: nat)
    requires dir < |v.clusters| && OnlyDirChanged(v, v', dir, slots) && d < |v.clusters|
    requires dir != d && (dir == 0 || dir >= 2)
    ensures d < |v'.clusters| && DirOf(v', d) == DirOf(v, d)
  {
  }

  /** The name is not "..", nor, in the directory d, the name the path goes on by. */
  ghost predicate OffPath(look: Look, d: nat, name: seq<byte>, comps: seq<Token>) {
    && !SameName(name, Up)
    && forall i: nat {:trigger comps[..i]} :: i < |comps| && Walk(look, comps[..i]) == Some(d) ==> !SameName(name, comps[i])
  }

  /** A name that can be added to directory d: off the path, and with no orphaned long name right
      before the room for it. */
  ghost predicate CanAdd(v: Vol, d: nat, name: seq<byte>, comps: seq<Token>) {
    && IsName(name) && OffPath(LookOf(v), d, name, comps)
    && d < |v.clusters| && RoomApart(DirSlots(v, d), LfnCount(name) + 1)
  }

  /** A new file among the names. */
  lemma AddedFile(slots: Slots, p: nat, name: seq<byte>, cluster: nat, size: nat, target: seq<byte>)
    requires IsName(name) && IsEntry(ATTR_FILE, cluster, size)
    requires WellFormed(slots) && FitsAt(slots, p, LfnCount(name) + 1)
    ensures OldOrNew(slots, Added(slots, p, name, ATTR_FILE, cluster, size), name, target, Node(false, cluster))
  {
    AddedNode(slots, p, name, ATTR_FILE, cluster, size, target);
  }

  ghost predicate OldOrNew(slots: Slots, a: Slots, name: seq<byte>, target: seq<byte>, made: Node) {
    NodeOf(a, target) == NodeOf(slots, target) || (SameName(name, target) && NodeOf(a, target) == Some(made))
  }

  lemma LookThrough(v: Vol, d: nat, slots: Slots, t: Token)
    requires d < |v.clusters| && DirSlots(v, d) == slots
    ensures LookIn(v, d, t) == NodeOf(slots, t)
  {
  }

  lemma WroteHere(g: Geometry, v: Vol, vm: Vol, v': Vol, dir: nat, name: seq<byte>, cs: seq<nat>, data: seq<byte>, p: nat, t: Token)
    requires IsName(name) && Wrote(g, v, vm, v', dir, name, cs, data, p)
    ensures DirUsable(g, v', dir)
    ensures LookIn(v', dir, t) == LookIn(v, dir, t) || (SameName(name, t) && LookIn(v', dir, t) == Some(Node(false, cs[0])))
  {
    var slots := DirSlots(v, dir);
    var added := Added(slots, p, name, ATTR_FILE, cs[0], |data|);
    WroteDir(g, v, vm, v', dir, name, cs, data, p);
    AddedFile(slots, p, name, cs[0], |data|, t);
    LookThrough(v', dir, added, t);
    LookThrough(v, dir, slots, t);
  }

  lemma WroteNode(g: Geometry, v: Vol, vm: Vol, v': Vol, dir: nat, name: seq<byte>, cs: seq<nat>, data: seq<byte>, p: nat,
                  dirs: set<nat>, d: nat, t: Token)
    requires IsName(name) && Wrote(g, v, vm, v', dir, name, cs, data, p)
    requires Mounted(g, v, dirs) && dir in dirs && d in dirs
    ensures DirUsable(g, v', d)
    ensures || LookIn(v', d, t) == LookIn(v, d, t)
            || (d == dir && SameName(name, t) && LookIn(v', d, t).Some? && !LookIn(v', d, t).value.isDir)
  {
    if d == dir {
      WroteHere(g, v, vm, v', dir, name, cs, data, p, t);
    } else {
      assert DirUsable(g, v, d) && DirUsable(g, v, dir);
      WritingSparesDirs(g, v, vm, dirs, cs, data, d);
      WritingSparesDirs(g, v, vm, dirs, cs, data, dir);
      OtherDirSame(vm, v', dir, Added(DirSlots(v, dir), p, name, ATTR_FILE, cs[0], |data|), d);
    }
  }

  /** Every name shows what it did, except, in `dir`, names the new file answers to. */
  ghost predicate OnlyNameChanged(look: Look, look': Look, dirs: set<nat>, dir: nat, name: seq<byte>) {
    forall d: nat, t: Token {:trigger look'(d, t)} :: d in dirs ==> look'(d, t) == look(d, t) || (d == dir && SameName(name, t))
  }

  lemma OffPathSteps(look: Look, look': Look, dirs: set<nat>, dir: nat, name: seq<byte>, comps: seq<Token>)
    requires OnlyNameChanged(look, look', dirs, dir, name) && OffPath(look, dir, name, comps) && Inside(look, dirs, comps)
    ensures forall d: nat {:trigger look'(d, Up)} :: d in dirs ==> look'(d, Up) == look(d, Up)
    ensures forall i: nat {:trigger StepSame(look, look', comps, i)} :: i < |comps| ==> StepSame(look, look', comps, i)
  {
    forall i: nat | i < |comps| ensures StepSame(look, look', comps, i) {
      assert Walk(look, comps[..i]).Some?;
      var d := Walk(look, comps[..i]).value;
      assert look'(d, comps[i]) == look(d, comps[i]);
    }
  }

  lemma WroteTree(g: Geometry, v: Vol, vm: Vol, v': Vol, dir: nat, name: seq<byte>, cs: seq<nat>, data: seq<byte>, p: nat,
                  dirs: set<nat>, comps: seq<Token>)
    requires IsName(name) && Wrote(g, v, vm, v', dir, name, cs, data, p)
    requires Mounted(g, v, dirs) && dir in dirs && OffPath(LookOf(v), dir, name, comps) && Inside(LookOf(v), dirs, comps)
    ensures Mounted(g, v', dirs) && SameTree(LookOf(v), LookOf(v'), dirs, comps) && NoNewDirs(LookOf(v), LookOf(v'), dirs)
  {
    var look, look' := LookOf(v), LookOf(v');
    forall d: nat | d in dirs ensures DirUsable(g, v', d) {
      WroteNode(g, v, vm, v', dir, name, cs, data, p, dirs, d, Up);
    }
    WroteLooks(g, v, vm, v', dir, name, cs, data, p, dirs);
    OffPathSteps(look, look', dirs, dir, name, comps);
    SameTreeOk(look, look', dirs, comps);
  }

  lemma WroteLooks(g: Geometry, v: Vol, vm: Vol, v': Vol, dir: nat, name: seq<byte>, cs: seq<nat>, data: seq<byte>, p: nat, dirs: set<nat>)
    requires IsName(name) && Wrote(g, v, vm, v', dir, name, cs, data, p)
    requires Mounted(g, v, dirs) && dir in dirs
    ensures NoNewDirs(LookOf(v), LookOf(v'), dirs) && OnlyNameChanged(LookOf(v), LookOf(v'), dirs, dir, name)
  {
    var look, look' := LookOf(v), LookOf(v');
    forall d: nat, t: Token | d in dirs
      ensures look'(d, t) == look(d, t) || (ChildDir(look', d, t).None? && d == dir && SameName(name, t))
    {
      WroteNode(g, v, vm, v', dir, name, cs, data, p, dirs, d, t);
    }
  }

  /** A volume in which every directory looks as it did. */
  ghost predicate SameDirs(g: Geometry, v: Vol, v': Vol, dirs: set<nat>) {
    forall d: nat {:trigger DirUsable(g, v', d)} :: d in dirs ==>
      DirUsable(g, v', d) && d < |v.clusters| && DirOf(v', d) == DirOf(v, d)
  }

  lemma SameDirsTree(g: Geometry, v: Vol, v': Vol, dirs: set<nat>, comps: seq<Token>)
    requires Mounted(g, v, dirs) && SameDirs(g, v, v', dirs) && Inside(LookOf(v), dirs, comps)
    ensures Mounted(g, v', dirs) && SameTree(LookOf(v), LookOf(v'), dirs, comps) && NoNewDirs(LookOf(v), LookOf(v'), dirs)
  {
    var look, look' := LookOf(v), LookOf(v');
    forall d: nat, t: Token | d in dirs ensures look'(d, t) == look(d, t) {
      assert DirUsable(g, v', d);
      LookThrough(v', d, DirSlots(v, d), t);
    }
    forall i: nat | i < |comps| ensures StepSame(look, look', comps, i) {
      assert Walk(look, comps[..i]).Some?;
    }
    SameTreeOk(look, look', dirs, comps);
  }

  /** A write into a full directory changes no directory at all. */
  lemma LostTree(g: Geometry, v: Vol, vm: Vol, cs: seq<nat>, data: seq<byte>, dirs: set<nat>)
    requires Mounted(g, v, dirs) && Filling(g, v, vm, cs, data, Filled(cs, data), 0)
    ensures SameDirs(g, v, vm, dirs)
  {
    forall d: nat | d in dirs ensures DirUsable(g, vm, d) && d < |v.clusters| && DirOf(vm, d) == DirOf(v, d) {
      assert DirUsable(g, v, d);
      WritingSparesDirs(g, v, vm, dirs, cs, data, d);
    }
  }

  // ---------- deleting ----------

  /** What deleting a file asks of the tree: the names that lead to it lead nowhere else, ".."
      is not among them, and no directory lies in its chain. */
  ghost predicate FileApart(v: Vol, dir: nat, h: Hit, cs: seq<nat>, dirs: set<nat>)
    requires dir < |v.clusters|
  {
    var slots := DirSlots(v, dir);
    && SoleEntry(slots, h) && !IsDirSlot(slots[h.slot])
    && Lookup(slots, Up, Any) != Some(h)
    && forall d :: d in dirs ==> d !in cs
  }

  lemma DeletedNode(g: Geometry, v: Vol, vm: Vol, v': Vol, dir: nat, h: Hit, cs: seq<nat>, dirs: set<nat>, d: nat, t: Token)
    requires Deleted(g, v, vm, v', dir, h, cs) && FileApart(v, dir, h, cs, dirs)
    requires Mounted(g, v, dirs) && dir in dirs && d in dirs
    ensures DirUsable(g, v', d)
    ensures || LookIn(v', d, t) == LookIn(v, d, t)
            || (t != Up && LookIn(v', d, t).None? && LookIn(v, d, t).Some? && !LookIn(v, d, t).value.isDir)
  {
    if d == dir {
      DeletedHere(g, v, vm, v', dir, h, cs, dirs, t);
    } else {
      DeletedElsewhere(g, v, vm, v', dir, h, cs, dirs, d, t);
    }
  }

  lemma DeletedHere(g: Geometry, v: Vol, vm: Vol, v': Vol, dir: nat, h: Hit, cs: seq<nat>, dirs: set<nat>, t: Token)
    requires Deleted(g, v, vm, v', dir, h, cs) && FileApart(v, dir, h, cs, dirs) && dir in dirs
    ensures DirUsable(g, v', dir)
    ensures || LookIn(v', dir, t) == LookIn(v, dir, t)
            || (t != Up && LookIn(v', dir, t).None? && LookIn(v, dir, t).Some? && !LookIn(v, dir, t).value.isDir)
  {
    DeletedDir(g, v, vm, v', dir, h, cs);
    DeletedSlots(g, v, vm, v', dir, h, cs);
    ErasedNode(DirSlots(v, dir), h, t);
    LookThrough(v', dir, Marked(DirSlots(v, dir), h.start, h.slot), t);
    LookThrough(v, dir, DirSlots(v, dir), t);
  }

  lemma DeletedElsewhere(g: Geometry, v: Vol, vm: Vol, v': Vol, dir: nat, h: Hit, cs: seq<nat>, dirs: set<nat>, d: nat, t: Token)
    requires Deleted(g, v, vm, v', dir, h, cs) && FileApart(v, dir, h, cs, dirs)
    requires Mounted(g, v, dirs) && dir in dirs && d in dirs && d != dir
    ensures DirUsable(g, v', d) && LookIn(v', d, t) == LookIn(v, d, t)
  {
    assert DirUsable(g, v, d);
    OtherDirSame(v, vm, dir, Marked(DirSlots(v, dir), h.start, h.slot), d);
    assert DirOf(v', d) == DirOf(vm, d);
    DeletedSlots(g, v, vm, v', dir, h, cs);
    LookThrough(v', d, DirSlots(v, d), t);
  }

  lemma DeletedTree(g: Geometry, v: Vol, vm: Vol, v': Vol, dir: nat, h: Hit, cs: seq<nat>, dirs: set<nat>, comps: seq<Token>)
    requires Deleted(g, v, vm, v', dir, h, cs) && FileApart(v, dir, h, cs, dirs)
    requires Mounted(g, v, dirs) && dir in dirs && Inside(LookOf(v), dirs, comps)
    ensures Mounted(g, v', dirs) && SameTree(LookOf(v), LookOf(v'), dirs, comps) && NoNewDirs(LookOf(v), LookOf(v'), dirs)
  {
    var look, look' := LookOf(v), LookOf(v');
    forall d: nat, t: Token | d in dirs
      ensures look'(d, t) == look(d, t) || (t != Up && ChildDir(look', d, t).None? && ChildDir(look, d, t).None?)
    {
      DeletedNode(g, v, vm, v', dir, h, cs, dirs, d, t);
    }
    forall d: nat | d in dirs ensures DirUsable(g, v', d) {
      DeletedNode(g, v, vm, v', dir, h, cs, dirs, d, Up);
    }
    DirsStay(look, look', dirs, comps);
    SameTreeOk(look, look', dirs, comps);
  }

  /** When only names of files have changed, the path is as it was. */
  lemma DirsStay(look: Look, look': Look, dirs: set<nat>, comps: seq<Token>)
    requires Inside(look, dirs, comps)
    requires forall d: nat, t: Token {:trigger look'(d, t)} :: d in dirs ==> look'(d, t) == look(d, t) || ChildDir(look, d, t).None?
    ensures forall i: nat {:trigger StepSame(look, look', comps, i)} :: i < |comps| ==> StepSame(look, look', comps, i)
  {
    forall i: nat | i < |comps| ensures StepSame(look, look', comps, i) {
      assert Walk(look, comps[..i]).Some? && Walk(look, comps[..i + 1]).Some?;
      WalkOne(look, comps, i);
      var d := Walk(look, comps[..i]).value;
      assert look'(d, comps[i]) == look(d, comps[i]);
    }
  }

  // ---------- the operations ----------

  function DirPart(filename: seq<byte>): seq<byte>
  {
    var i := LastSlash(filename);
    if i <= 0 then [SLASH] else filename[..i]
  }

  function BasePart(filename: seq<byte>): seq<byte> { filename[LastSlash(filename) + 1..] }

  /** The directory an operation works in: the one its argument names, or, when that cannot be
      entered, the working directory, because the result of the change is ignored. */
  function Target(look: Look, comps: seq<Token>, filename: seq<byte>): seq<Token> {
    if LastSlash(filename) < 0 then comps
    else
      match Go(look, Start(DirPart(filename), comps), Tokens(DirPart(filename)))
      case Some(target) => target
      case None => comps
  }

  /** The two parts of an argument: the last name, and the way to it. */
  lemma PartsOf(filename: seq<byte>)
    ensures NoSlash(BasePart(filename))
    ensures LastSlash(filename) < 0 ==> BasePart(filename) == filename
    ensures LastSlash(filename) >= 0 ==> Absolute(DirPart(filename)) == Absolute(filename)
    ensures LastSlash(filename) >= 0 ==>
              Tokens(filename) == Tokens(DirPart(filename)) + (if BasePart(filename) == [] then [] else [BasePart(filename)])
  {
    var i := LastSlash(filename);
    BaseIsLast(filename, i, filename[i + 1..]);
    if i >= 0 {
      CutAtSlash(filename, i, filename[..i], BasePart(filename));
    }
  }

  lemma BaseIsLast(s: seq<byte>, i: int, base: seq<byte>)
    requires -1 <= i < |s| && base == s[i + 1..] && forall k :: i < k < |s| ==> s[k] != SLASH
    ensures NoSlash(base) && (i < 0 ==> base == s)
  {
  }

  lemma CutAtSlash(s: seq<byte>, i: nat, a: seq<byte>, b: seq<byte>)
    requires i < |s| && s[i] == SLASH && a == s[..i] && b == s[i + 1..] && NoSlash(b)
    ensures Tokens(s) == Tokens(if i == 0 then [SLASH] else a) + (if b == [] then [] else [b])
    ensures i > 0 ==> a[0] == s[0]
  {
    assert s == a + [SLASH] + b;
    TokensApart(a, b);
    if i == 0 {
      var root: seq<byte> := [SLASH];
      assert root[1..] == [];
      assert Tokens(root) == Tokens(a) == [];
    }
    if b != [] {
      OneToken(b);
    }
  }

  /**
   * The directory an operation works in, by its argument alone: for a relative one the walk along the
   * current path and then the directory part; the working directory itself for a bare name, and when
   * the walk fails.
   */
  lemma TargetFromHome(look: Look, comps: seq<Token>, filename: seq<byte>)
    requires GoodPath(comps) && Walk(look, comps).Some?
    ensures LastSlash(filename) < 0 ==> Target(look, comps, filename) == comps
    ensures LastSlash(filename) >= 0 ==>
              var part := filename[..LastSlash(filename)];
              var way := Go(look, [], Tokens(if filename[0] == SLASH then part else Render(comps) + [SLASH] + part));
              Target(look, comps, filename) == if way.Some? then way.value else comps
  {
    var i := LastSlash(filename);
    if i > 0 {
      FromHome(look, comps, filename[..i]);
    } else if i == 0 {
      assert Tokens(filename[..i]) == [] && Tokens([SLASH]) == [];
    }
  }

  lemma DirReady(g: Geometry, v: Vol, dirs: set<nat>, look: Look, comps: seq<Token>, dir: nat, path: seq<byte>)
    requires Shaped(g, v) && 2 <= g.limit <= g.Entries() && g.limit <= EOC && g.sectorsPerCluster >= 1
    requires Mounted(g, v, dirs) && Closed(v.fat) && look == LookOf(v) && Standing(look, comps, dir, path) && Inside(look, dirs, comps)
    ensures dir in dirs && DirOk(g, v, dir)
  {
    InsideHere(look, dirs, comps);
    assert DirUsable(g, v, dir);
  }

  /** What a write did: the file, or, in a full directory, only its chain. */
  ghost predicate WriteResult(ok: bool, g: Geometry, v: Vol, vm: Vol, v': Vol, d: nat, name: seq<byte>, cs: seq<nat>, data: seq<byte>, p: nat)
  {
    && d < |v.clusters| && IsName(name)
    && Filling(g, v, vm, cs, data, Filled(cs, data), 0)
    && if ok then Wrote(g, v, vm, v', d, name, cs, data, p) else v' == vm && NoRoom(DirSlots(v, d), LfnCount(name) + 1)
  }

  /** The tree after an operation: still usable, the working directory still at the end of its
      path, and closed if it was. */
  ghost predicate TreeKept(g: Geometry, v: Vol, v': Vol, dirs: set<nat>, comps: seq<Token>, dir0: nat, cwd: seq<byte>) {
    && Mounted(g, v', dirs) && Standing(LookOf(v'), comps, dir0, cwd) && Inside(LookOf(v'), dirs, comps)
    && (TreeClosed(LookOf(v), dirs) ==> TreeClosed(LookOf(v'), dirs))
  }

  lemma TreeIsKept(g: Geometry, v: Vol, v': Vol, dirs: set<nat>, comps: seq<Token>, dir0: nat, cwd: seq<byte>)
    requires Mounted(g, v, dirs) && Mounted(g, v', dirs)
    requires SameTree(LookOf(v), LookOf(v'), dirs, comps) && NoNewDirs(LookOf(v), LookOf(v'), dirs)
    requires Standing(LookOf(v), comps, dir0, cwd) && Inside(LookOf(v), dirs, comps)
    ensures TreeKept(g, v, v', dirs, comps, dir0, cwd)
  {
    StillStanding(LookOf(v), LookOf(v'), dirs, comps, dir0, cwd);
    if TreeClosed(LookOf(v), dirs) {
      StaysClosed(LookOf(v), LookOf(v'), dirs);
    }
  }

  /** The write itself leaves every directory usable and the way to the working directory open. */
  method WriteIn(vol: Volume, d: nat, name: seq<byte>, data: seq<byte>, behind: Sector,
                 ghost dirs: set<nat>, ghost comps: seq<Token>, ghost dir0: nat, ghost cwd: seq<byte>)
    returns (ok: bool, ghost vm: Vol, ghost cs: seq<nat>, ghost p: nat)
    requires vol.Valid() && Mounted(vol.g, vol.V(), dirs) && Inside(LookOf(vol.V()), dirs, comps)
    requires Standing(LookOf(vol.V()), comps, dir0, cwd) && d in dirs && DirOk(vol.g, vol.V(), d)
    requires CanAdd(vol.V(), d, name, comps) && |data| < 0x1_0000_0000
    requires |C.FreeBelow(vol.V().fat, vol.g.limit)| >= ClustersNeeded(|data|, vol.g.sectorsPerCluster)
    modifies vol`disk
    ensures vol.Valid() && TreeKept(vol.g, old(vol.V()), vol.V(), dirs, comps, dir0, cwd)
    ensures WriteResult(ok, vol.g, old(vol.V()), vm, vol.V(), d, name, cs, data, p)
  {
    ghost var v := vol.V();
    ok, vm, cs, p := FatVolumeIo.WriteFile(vol, d, name, data, behind);
    if ok {
      WroteTree(vol.g, v, vm, vol.V(), d, name, cs, data, p, dirs, comps);
    } else {
      LostTree(vol.g, v, vm, cs, data, dirs);
      SameDirsTree(vol.g, v, vm, dirs, comps);
    }
    TreeIsKept(vol.g, v, vol.V(), dirs, comps, dir0, cwd);
  }

  /** What a deletion did: the file the name leads to is gone, or there was none. */
  ghost predicate DeleteResult(g: Geometry, v: Vol, vm: Vol, v': Vol, d: nat, name: seq<byte>, h: Hit, cs: seq<nat>) {
    && d < |v.clusters|
    && if Lookup(DirSlots(v, d), name, FileOnly).None? then v' == v else Deleted(g, v, vm, v', d, h, cs)
  }

  /** When a name may be deleted: it leads to no file, or to one that is apart from the tree. */
  ghost predicate MayDelete(g: Geometry, v: Vol, d: nat, name: seq<byte>, h: Hit, cs: seq<nat>, dirs: set<nat>) {
    && d < |v.clusters| && LeadsTo(g, v, d, name, h, cs)
    && (Lookup(DirSlots(v, d), name, FileOnly).Some? ==> FileApart(v, d, h, cs, dirs))
  }

  method DeleteIn(vol: Volume, d: nat, name: seq<byte>, ghost h: Hit, ghost cs: seq<nat>,
                  ghost dirs: set<nat>, ghost comps: seq<Token>, ghost dir0: nat, ghost cwd: seq<byte>)
    returns (ghost vm: Vol)
    requires vol.Valid() && Mounted(vol.g, vol.V(), dirs) && Inside(LookOf(vol.V()), dirs, comps)
    requires Standing(LookOf(vol.V()), comps, dir0, cwd) && d in dirs && DirOk(vol.g, vol.V(), d)
    requires IsText(name) && MayDelete(vol.g, vol.V(), d, name, h, cs, dirs)
    modifies vol`disk
    ensures vol.Valid() && TreeKept(vol.g, old(vol.V()), vol.V(), dirs, comps, dir0, cwd)
    ensures DeleteResult(vol.g, old(vol.V()), vm, vol.V(), d, name, h, cs)
  {
    ghost var v := vol.V();
    vm := FatVolumeIo.DeleteFile(vol, d, name, h, cs);
    if Lookup(DirSlots(v, d), name, FileOnly).Some? {
      DeletedTree(vol.g, v, vm, vol.V(), d, h, cs, dirs, comps);
      TreeIsKept(vol.g, v, vol.V(), dirs, comps, dir0, cwd);
    }
  }

  /** What a name can lead to: nothing, a directory, or a stored file. */
  ghost predicate Readable(g: Geometry, v: Vol, d: nat, name: seq<byte>, h: Hit, cs: seq<nat>, data: seq<byte>) {
    && d < |v.clusters|
    && (Lookup(DirSlots(v, d), name, Any).None? || SizeZero(v, d, name) || Stores(g, v, d, name, h, cs, data))
  }

  /** What a read returned: the bytes asked for, or nothing where there is no file. */
  ghost predicate ReadResult(g: Geometry, v: Vol, d: nat, name: seq<byte>, h: Hit, cs: seq<nat>, data: seq<byte>, offset: nat, n: nat, out: seq<byte>) {
    && d < |v.clusters|
    && (Lookup(DirSlots(v, d), name, Any).None? || SizeZero(v, d, name) ==> out == [])
    && (Stores(g, v, d, name, h, cs, data) ==> out == if offset >= |data| then [] else data[offset..Min(offset + n, |data|)])
  }

  method ReadIn(vol: Volume, d: nat, name: seq<byte>, offset: nat, n: nat, ghost h: Hit, ghost cs: seq<nat>, ghost data: seq<byte>)
    returns (out: seq<byte>)
    requires vol.Valid() && DirOk(vol.g, vol.V(), d) && IsText(name) && offset + n < 0x1_0000_0000
    requires Readable(vol.g, vol.V(), d, name, h, cs, data)
    ensures ReadResult(vol.g, vol.V(), d, name, h, cs, data, offset, n, out)
  {
    out := FatVolumeIo.ReadFile(vol, d, name, offset, n, h, cs, data);
  }

  /** The walk an argument asks for stays among the directories known to be usable; in a closed
      tree every walk does. */
  ghost predicate WalkKnown(look: Look, dirs: set<nat>, comps: seq<Token>, filename: seq<byte>) {
    LastSlash(filename) >= 0 ==> GoInside(look, dirs, Start(DirPart(filename), comps), Tokens(DirPart(filename)))
  }

  lemma ClosedWalkKnown(look: Look, dirs: set<nat>, comps: seq<Token>, filename: seq<byte>)
    requires TreeOk(look, dirs) && TreeClosed(look, dirs) && Inside(look, dirs, comps) && IsText(filename)
    ensures WalkKnown(look, dirs, comps, filename)
  {
    if LastSlash(filename) >= 0 {
      InsideRoot(look, dirs);
      TokensPlain(DirPart(filename));
      ClosedGoInside(look, dirs, Start(DirPart(filename), comps), Tokens(DirPart(filename)));
    }
  }

  class FileSystem {
    const vol: Volume
    var dir: nat
    var path: seq<byte>

    /** Mounted, with the working directory at the end of the path `comps`. */
    ghost predicate Valid(dirs: set<nat>, comps: seq<Token>)
      reads this, vol
    {
      && vol.Valid() && Mounted(vol.g, vol.V(), dirs)
      && Standing(LookOf(vol.V()), comps, dir, path) && Inside(LookOf(vol.V()), dirs, comps)
    }

    constructor (vol: Volume, ghost dirs: set<nat>)
      requires vol.Valid() && Mounted(vol.g, vol.V(), dirs)
      ensures this.vol == vol && Valid(dirs, [])
    {
      this.vol := vol;
      dir, path := 0, [SLASH];
      new;
      InsideRoot(LookOf(vol.V()), dirs);
    }

    /** fat16_chdir. */
    method Chdir(arg: seq<byte>, ghost dirs: set<nat>, ghost comps: seq<Token>) returns (ok: bool, ghost now: seq<Token>)
      requires vol.Valid() && Mounted(vol.g, vol.V(), dirs) && IsText(arg) && |arg| < MAX_PATH
      requires Absolute(arg) || Valid(dirs, comps)
      requires GoInside(LookOf(vol.V()), dirs, Start(arg, comps), Tokens(arg))
      modifies this
      ensures ok <==> Go(LookOf(vol.V()), Start(arg, comps), Tokens(arg)).Some?
      ensures ok ==> Valid(dirs, now) && Some(now) == Go(LookOf(vol.V()), Start(arg, comps), Tokens(arg))
      ensures !ok ==> dir == old(dir) && path == old(path)
      ensures Arrives(LookOf(vol.V()), old(path), arg, ok, now)
      ensures arg == Here || arg == Up || IsPlain(arg) ==> OneStep(LookOf(vol.V()), old(dir), old(path), arg, ok, dir, path)
    {
      ok, dir, path, now := FatChdir.Chdir(vol, dir, path, arg, LookOf(vol.V()), dirs, comps);
    }

    /** The change into the directory part of an argument; its failure goes unnoticed. */
    method Enter(filename: seq<byte>, ghost dirs: set<nat>, ghost comps: seq<Token>)
      returns (base: seq<byte>, moved: bool)
      requires Valid(dirs, comps) && IsText(filename) && |filename| < MAX_PATH
      requires WalkKnown(LookOf(vol.V()), dirs, comps, filename)
      modifies this
      ensures Valid(dirs, Target(LookOf(vol.V()), comps, filename))
      ensures base == BasePart(filename) && IsText(base)
      ensures moved <==> LastSlash(filename) >= 0
      ensures !moved ==> dir == old(dir) && path == old(path)
    {
      base, moved := filename, false;
      var slash := FindLastSlash(filename);
      if slash >= 0 {
        base, moved := filename[slash + 1..], true;
        var ok;
        ghost var now;
        ok, now := Chdir(if slash == 0 then [SLASH] else filename[..slash], dirs, comps);
      }
    }

    /** The change back. */
    method Leave(cwd: seq<byte>, moved: bool, ghost dirs: set<nat>, ghost comps: seq<Token>)
      requires vol.Valid() && Mounted(vol.g, vol.V(), dirs)
      requires GoodPath(comps) && Inside(LookOf(vol.V()), dirs, comps) && cwd == Render(comps)
      requires !moved ==> Standing(LookOf(vol.V()), comps, dir, path)
      modifies this
      ensures Valid(dirs, comps)
    {
      if moved {
        InsideHere(LookOf(vol.V()), dirs, comps);
        ReturnHome(LookOf(vol.V()), comps);
        RenderFits(comps);
        WayHome(LookOf(vol.V()), dirs, comps);
        var ok;
        ghost var now;
        ok, now := Chdir(cwd, dirs, comps);
      }
    }

    /** fat16_read_file. */
    method ReadFile(filename: seq<byte>, offset: nat, n: nat, ghost dirs: set<nat>, ghost comps: seq<Token>,
                    ghost d: nat, ghost h: Hit, ghost cs: seq<nat>, ghost data: seq<byte>)
      returns (out: seq<byte>)
      requires Valid(dirs, comps) && Closed(vol.V().fat) && IsText(filename) && |filename| < MAX_PATH && offset + n < 0x1_0000_0000
      requires WalkKnown(LookOf(vol.V()), dirs, comps, filename)
      requires Walk(LookOf(vol.V()), Target(LookOf(vol.V()), comps, filename)) == Some(d)
      requires Readable(vol.g, vol.V(), d, BasePart(filename), h, cs, data)
      modifies this
      ensures Valid(dirs, comps) && dir == old(dir) && path == old(path)
      ensures ReadResult(vol.g, vol.V(), d, BasePart(filename), h, cs, data, offset, n, out)
    {
      var cwd := path;
      ghost var look := LookOf(vol.V());
      var base, moved := Enter(filename, dirs, comps);
      DirReady(vol.g, vol.V(), dirs, look, Target(look, comps, filename), dir, path);
      out := ReadIn(vol, dir, base, offset, n, h, cs, data);
      Leave(cwd, moved, dirs, comps);
    }

    /** fat16_write_file of a name that is not on the path to the working directory. */
    method WriteFile(filename: seq<byte>, data: seq<byte>, behind: Sector, ghost dirs: set<nat>, ghost comps: seq<Token>, ghost d: nat)
      returns (ok: bool, ghost vm: Vol, ghost cs: seq<nat>, ghost p: nat)
      requires Valid(dirs, comps) && Closed(vol.V().fat) && IsText(filename) && |filename| < MAX_PATH && |data| < 0x1_0000_0000
      requires WalkKnown(LookOf(vol.V()), dirs, comps, filename)
      requires Walk(LookOf(vol.V()), Target(LookOf(vol.V()), comps, filename)) == Some(d)
      requires CanAdd(vol.V(), d, BasePart(filename), comps)
      requires |C.FreeBelow(vol.V().fat, vol.g.limit)| >= ClustersNeeded(|data|, vol.g.sectorsPerCluster)
      modifies this, vol`disk
      ensures Valid(dirs, comps) && dir == old(dir) && path == old(path)
      ensures TreeKept(vol.g, old(vol.V()), vol.V(), dirs, comps, dir, path)
      ensures WriteResult(ok, vol.g, old(vol.V()), vm, vol.V(), d, BasePart(filename), cs, data, p)
    {
      var cwd := path;
      ghost var v := vol.V();
      ghost var look := LookOf(v);
      ghost var dir0 := dir;
      var base, moved := Enter(filename, dirs, comps);
      DirReady(vol.g, v, dirs, look, Target(look, comps, filename), dir, path);
      ok, vm, cs, p := WriteIn(vol, dir, base, data, behind, dirs, comps, dir0, cwd);
      Leave(cwd, moved, dirs, comps);
    }

    /** fat16_delete_file, whether the name leads to a file, to a directory or nowhere. */
    method DeleteFile(filename: seq<byte>, ghost dirs: set<nat>, ghost comps: seq<Token>, ghost d: nat, ghost h: Hit, ghost cs: seq<nat>)
      returns (ghost vm: Vol)
      requires Valid(dirs, comps) && Closed(vol.V().fat) && IsText(filename) && |filename| < MAX_PATH
      requires WalkKnown(LookOf(vol.V()), dirs, comps, filename)
      requires Walk(LookOf(vol.V()), Target(LookOf(vol.V()), comps, filename)) == Some(d)
      requires MayDelete(vol.g, vol.V(), d, BasePart(filename), h, cs, dirs)
      modifies this, vol`disk
      ensures Valid(dirs, comps) && dir == old(dir) && path == old(path)
      ensures filename == [] ==> vol.V() == old(vol.V())
      ensures filename != [] ==> TreeKept(vol.g, old(vol.V()), vol.V(), dirs, comps, dir, path)
      ensures filename != [] ==> DeleteResult(vol.g, old(vol.V()), vm, vol.V(), d, BasePart(filename), h, cs)
    {
      if filename == [] {
        return vol.V();
      }
      vm := DeleteNamed(filename, dirs, comps, d, h, cs);
    }

    method DeleteNamed(filename: seq<byte>, ghost dirs: set<nat>, ghost comps: seq<Token>, ghost d: nat, ghost h: Hit, ghost cs: seq<nat>)
      returns (ghost vm: Vol)
      requires Valid(dirs, comps) && Closed(vol.V().fat) && IsText(filename) && |filename| < MAX_PATH
      requires WalkKnown(LookOf(vol.V()), dirs, comps, filename)
      requires Walk(LookOf(vol.V()), Target(LookOf(vol.V()), comps, filename)) == Some(d)
      requires MayDelete(vol.g, vol.V(), d, BasePart(filename), h, cs, dirs)
      modifies this, vol`disk
      ensures Valid(dirs, comps) && dir == old(dir) && path == old(path)
      ensures TreeKept(vol.g, old(vol.V()), vol.V(), dirs, comps, dir, path)
      ensures DeleteResult(vol.g, old(vol.V()), vm, vol.V(), d, BasePart(filename), h, cs)
    {
      var cwd := path;
      ghost var look := LookOf(vol.V());
      ghost var dir0 := dir;
      var base, moved := Enter(filename, dirs, comps);
      DirReady(vol.g, vol.V(), dirs, look, Target(look, comps, filename), dir, path);
      vm := DeleteIn(vol, dir, base, h, cs, dirs, comps, dir0, cwd);
      Leave(cwd, moved, dirs, comps);
    }
  }

  lemma WayHome(look: Look, dirs: set<nat>, comps: seq<Token>)
    requires GoodPath(comps) && Inside(look, dirs, comps)
    ensures GoInside(look, dirs, [], Tokens(Render(comps)))
  {
    TokensOfRender(comps);
    HomeInside(look, dirs, comps, 0);
    assert comps[..0] == [] && comps[0..] == comps;
  }
}
