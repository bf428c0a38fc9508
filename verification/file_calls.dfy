/**
 * The descriptor system calls of src/kernel/syscall/syscall.c, the exit path of task.c and the
 * hand-over of elf.c, built from the steps of Descriptors.
 */
module FileCalls {
  import opened Common
  import opened Descriptors

  /** What opening a name yields: nothing, a fresh node, or one registered at start-up. */
  datatype Opened = NotFound | FreshFile | Registered(n: nat)

  /** The slots of s are those of `was`, except that k names n. */
  predicate OnlyInstalled(was: State, s: State, k: Slot, n: nat) {
    s.slots == was.slots[k := Some(n)] && s.handles == was.handles
  }

  predicate IsLowestFree(s: State, pid: nat, fd: int) {
    0 <= fd < MAX_OPEN_FILES && Slot(pid, fd) !in s.slots && forall j: nat :: j < fd ==> Slot(pid, j) in s.slots
  }

  predicate AllInUse(s: State, pid: nat) {
    forall j: nat :: j < MAX_OPEN_FILES ==> Slot(pid, j) in s.slots
  }

  predicate OneFreeAtMost(s: State, pid: nat) {
    forall i: nat, j: nat :: i < j < MAX_OPEN_FILES ==> Slot(pid, i) in s.slots || Slot(pid, j) in s.slots
  }

  /** The two lowest slots not in use. */
  predicate LowestTwo(s: State, pid: nat, r: int, w: int) {
    && 0 <= r < w < MAX_OPEN_FILES && Slot(pid, r) !in s.slots && Slot(pid, w) !in s.slots
    && forall j: nat :: j < w && j != r ==> Slot(pid, j) in s.slots
  }

  /** Slots r and w name the two ends of a new, empty ring, and nothing else has changed hands. */
  predicate PipeMade(was: State, s: State, pid: nat, r: int, w: int) {
    var ring := was.next;
    && 0 <= r < w < MAX_OPEN_FILES && Slot(pid, r) !in was.slots && Slot(pid, w) !in was.slots
    && s.slots == was.slots[Slot(pid, r) := Some(ring + 1)][Slot(pid, w) := Some(ring + 2)]
    && s.handles == was.handles
    && s.rings == was.rings[ring := Ring(false, false)]
    && s.nodes == was.nodes[ring + 1 := Node(1, false, ReadEnd(ring))][ring + 2 := Node(1, false, WriteEnd(ring))]
  }

  lemma OneOut(handles: multiset<nat>, a: nat, b: nat)
    ensures handles + multiset{a, b} - multiset{a} == handles + multiset{b}
    ensures a in handles + multiset{a, b}
  {
  }

  lemma EntryOut(nodes: map<nat, Node>, a: nat, x: Node, b: nat, y: Node)
    requires a !in nodes && a != b
    ensures nodes[a := x][b := y] - {a} == nodes[b := y]
  {
  }

  lemma PipePlaced(was: State, pid: nat, r: int, w: int)
    requires 0 <= r < w < MAX_OPEN_FILES && Slot(pid, r) !in was.slots && Slot(pid, w) !in was.slots
    ensures PipeMade(was, Install(Install(NewPipe(was), Slot(pid, r), was.next + 1), Slot(pid, w), was.next + 2), pid, r, w)
  {
    OneOut(was.handles, was.next + 1, was.next + 2);
    HoldThenDrop(was.handles, was.next + 2);
    var t := NewPipe(was);
    var u := Install(t, Slot(pid, r), was.next + 1);
    var v := Install(u, Slot(pid, w), was.next + 2);
    assert u.handles == was.handles + multiset{was.next + 2};
    assert v.handles == was.handles;
    assert v.nodes == t.nodes && v.rings == t.rings;
  }

  /** A hold taken and let go again leaves no holder behind. */
  lemma HoldThenDrop(handles: multiset<nat>, n: nat)
    ensures handles + multiset{n} - multiset{n} == handles
  {
  }

  class Files {
    var s: State

    constructor ()
      ensures Inv(s) && s == Start
    {
      s := Start;
      new;
      assert Inv(Start);
    }

    /** The loop that looks for an unused slot. */
    method FindFree(pid: nat) returns (fd: int)
      ensures fd == -1 ==> AllInUse(s, pid)
      ensures fd != -1 ==> IsLowestFree(s, pid, fd)
    {
      var i := 0;
      while i < MAX_OPEN_FILES
        invariant 0 <= i <= MAX_OPEN_FILES && forall j: nat :: j < i ==> Slot(pid, j) in s.slots
      {
        if Slot(pid, i) !in s.slots {
          return i;
        }
        i := i + 1;
      }
      fd := -1;
    }

    /** vfs_open and fat16_vfs_open, as far as holders are concerned. */
    method OpenNode(found: Opened) returns (node: Option<nat>)
      requires Inv(s) && (found.Registered? ==> found.n in s.nodes)
      modifies this
      ensures Inv(s) && s.slots == old(s).slots
      ensures node.None? <==> found.NotFound?
      ensures node.None? ==> s == old(s)
      ensures node.Some? ==> s.handles == old(s).handles + multiset{node.value}
      ensures found.Registered? ==> node == Some(found.n)
    {
      match found
      case NotFound =>
        node := None;
      case FreshFile =>
        node := Some(s.next);
        NewNodeKeeps(s, false);
        s := NewNode(s, false);
      case Registered(n) =>
        node := Some(n);
        HoldKeeps(s, n);
        s := Hold(s, n);
    }

    /** vfs_close of a node the kernel holds. */
    method CloseHeld(n: nat)
      requires Inv(s) && n in s.handles
      modifies this
      ensures Inv(s) && s.slots == old(s).slots && s.handles == old(s).handles - multiset{n} && n in old(s).nodes && s == Drop(old(s), n)
    {
      DropKeeps(s, n);
      ReleaseSlots(s.(handles := s.handles - multiset{n}), n);
      s := Drop(s, n);
    }

    method Put(pid: nat, fd: nat, n: nat)
      requires Inv(s) && n in s.handles && Slot(pid, fd) !in s.slots
      modifies this
      ensures Inv(s) && s == Install(old(s), Slot(pid, fd), n)
    {
      InstallKeeps(s, Slot(pid, fd), n);
      s := Install(s, Slot(pid, fd), n);
    }

    /**
     * SYS_OPEN: the lowest free slot names the node, or nothing is held any more: a refused or
     * unplaceable open leaves no reference behind.
     */
    method SysOpen(pid: nat, found: Opened, access: bool, device: bool, mayOpenDevices: bool) returns (fd: int)
      requires Inv(s) && (found.Registered? ==> found.n in s.nodes)
      modifies this
      ensures Inv(s) && s.handles == old(s).handles
      ensures fd == -1 ==> s.slots == old(s).slots
      ensures fd == -1 <==> found.NotFound? || !access || (device && !mayOpenDevices) || AllInUse(old(s), pid)
      ensures fd != -1 ==> IsLowestFree(old(s), pid, fd)
      ensures fd != -1 ==> exists n :: n in s.nodes && (found.Registered? ==> n == found.n) && OnlyInstalled(old(s), s, Slot(pid, fd), n)
    {
      ghost var was := s;
      var node := OpenNode(found);
      if node.None? {
        return -1;
      }
      HoldThenDrop(was.handles, node.value);
      if !access {
        CloseHeld(node.value);
        return -1;
      }
      if device && !mayOpenDevices {
        CloseHeld(node.value);
        return -1;
      }
      fd := FindFree(pid);
      if fd == -1 {
        CloseHeld(node.value);
        return;
      }
      Put(pid, fd, node.value);
      assert OnlyInstalled(was, s, Slot(pid, fd), node.value);
    }

    /** SYS_CREATE, once the file has been written: a slot names its node, or nothing is held. */
    method SysCreate(pid: nat, found: bool) returns (fd: int)
      requires Inv(s)
      modifies this
      ensures Inv(s) && s.handles == old(s).handles
      ensures fd == -1 ==> s.slots == old(s).slots
      ensures fd == -1 <==> !found || AllInUse(old(s), pid)
      ensures fd != -1 ==> IsLowestFree(old(s), pid, fd) && exists n :: n in s.nodes && OnlyInstalled(old(s), s, Slot(pid, fd), n)
    {
      ghost var was := s;
      var node := OpenNode(if found then FreshFile else NotFound);
      if node.None? {
        return -1;
      }
      HoldThenDrop(was.handles, node.value);
      fd := FindFree(pid);
      if fd == -1 {
        CloseHeld(node.value);
        return;
      }
      Put(pid, fd, node.value);
      assert OnlyInstalled(was, s, Slot(pid, fd), node.value);
    }

    /** SYS_CLOSE. */
    method SysClose(pid: nat, fd: int) returns (r: int)
      requires Inv(s)
      modifies this
      ensures Inv(s) && s.handles == old(s).handles
      ensures r == 0 <==> 0 <= fd < MAX_OPEN_FILES && Slot(pid, fd) in old(s).slots
      ensures r == 0 ==> s.slots == old(s).slots - {Slot(pid, fd)}
      ensures r != 0 ==> r == -1 && s == old(s)
    {
      if fd < 0 || fd >= MAX_OPEN_FILES || Slot(pid, fd) !in s.slots {
        return -1;
      }
      VacateSlot(Slot(pid, fd));
      r := 0;
    }

    method VacateSlot(k: Slot)
      requires Inv(s) && k in s.slots
      modifies this
      ensures Inv(s) && s.slots == old(s).slots - {k} && s.handles == old(s).handles
      ensures forall n :: n in old(s).nodes && Holders(old(s), n) > 1 ==> n in s.nodes
      ensures forall n :: n in old(s).nodes && old(s).slots[k] != Some(n) ==> n in s.nodes
    {
      VacateKeeps(s, k);
      VacateSpares(s, k);
      s := Vacate(s, k);
    }

    /** SYS_DUP. */
    method SysDup(pid: nat, from: int) returns (fd: int)
      requires Inv(s)
      modifies this
      ensures Inv(s) && s.handles == old(s).handles
      ensures fd == -1 <==> !(0 <= from < MAX_OPEN_FILES) || Slot(pid, from) !in old(s).slots || AllInUse(old(s), pid)
      ensures fd == -1 ==> s == old(s)
      ensures fd != -1 ==> IsLowestFree(old(s), pid, fd) && s.slots == old(s).slots[Slot(pid, fd) := old(s).slots[Slot(pid, from)]]
    {
      if from < 0 || from >= MAX_OPEN_FILES || Slot(pid, from) !in s.slots {
        return -1;
      }
      fd := FindFree(pid);
      if fd == -1 {
        return;
      }
      CopySlot(Slot(pid, from), Slot(pid, fd));
    }

    /** dst->node = vfs_retain(src->node), into an unused slot. */
    method CopySlot(from: Slot, to: Slot)
      requires Inv(s) && from in s.slots && to !in s.slots
      modifies this
      ensures Inv(s) && s.handles == old(s).handles && s.slots == old(s).slots[to := old(s).slots[from]]
    {
      match s.slots[from]
      case None =>
        InstallNoneKeeps(s, to);
        s := InstallNone(s, to);
      case Some(n) =>
        HoldInto(to, n);
    }

    /** SYS_DUP2: whatever the new descriptor named before is released first. */
    method SysDup2(pid: nat, from: int, to: int) returns (fd: int)
      requires Inv(s)
      modifies this
      ensures Inv(s) && s.handles == old(s).handles
      ensures fd == (if 0 <= from < MAX_OPEN_FILES && Slot(pid, from) in old(s).slots && 0 <= to < MAX_OPEN_FILES then to else -1)
      ensures fd == -1 || from == to ==> s == old(s)
      ensures fd != -1 ==> s.slots == old(s).slots[Slot(pid, to) := old(s).slots[Slot(pid, from)]]
    {
      if from < 0 || from >= MAX_OPEN_FILES || Slot(pid, from) !in s.slots || to < 0 || to >= MAX_OPEN_FILES {
        return -1;
      }
      if from == to {
        return to;
      }
      ghost var was := s;
      if Slot(pid, to) in s.slots {
        VacateSlot(Slot(pid, to));
      }
      CopySlot(Slot(pid, from), Slot(pid, to));
      assert s.slots == was.slots[Slot(pid, to) := was.slots[Slot(pid, from)]];
      fd := to;
    }

    /** The loop of SYS_PIPE that looks for two unused slots. */
    method FindTwo(pid: nat) returns (r: int, w: int)
      ensures r == -1 ==> AllInUse(s, pid) && w == -1
      ensures w != -1 ==> LowestTwo(s, pid, r, w)
      ensures w == -1 && r != -1 ==> forall j: nat :: j < MAX_OPEN_FILES && j != r ==> Slot(pid, j) in s.slots
    {
      r, w := -1, -1;
      var i := 0;
      while i < MAX_OPEN_FILES
        invariant 0 <= i <= MAX_OPEN_FILES && w == -1
        invariant r == -1 ==> forall j: nat :: j < i ==> Slot(pid, j) in s.slots
        invariant r != -1 ==> 0 <= r < i && IsLowestFree(s, pid, r) && forall j: nat :: j < i && j != r ==> Slot(pid, j) in s.slots
      {
        if Slot(pid, i) !in s.slots {
          if r == -1 {
            r := i;
          } else {
            w := i;
            return;
          }
        }
        i := i + 1;
      }
    }

    /** SYS_PIPE: two slots name the two ends of a new ring, or the pipe is gone again. */
    method SysPipe(pid: nat, memory: bool) returns (r: int, w: int)
      requires Inv(s)
      modifies this
      ensures Inv(s) && s.handles == old(s).handles
      ensures r == -1 <==> w == -1
      ensures r == -1 <==> !memory || OneFreeAtMost(old(s), pid)
      ensures r == -1 ==> s.slots == old(s).slots && s.rings == old(s).rings
      ensures r != -1 ==> PipeMade(old(s), s, pid, r, w) && LowestTwo(old(s), pid, r, w)
    {
      if !memory {
        return -1, -1;
      }
      ghost var was := s;
      var readNode, writeNode := s.next + 1, s.next + 2;
      NewPipeKeeps(s);
      s := NewPipe(s);
      r, w := FindTwo(pid);
      if r == -1 || w == -1 {
        DropPipe(was, readNode, writeNode);
        return -1, -1;
      }
      assert LowestTwo(was, pid, r, w);
      PutPipe(was, pid, r, w, readNode, writeNode);
    }

    method PutPipe(ghost was: State, pid: nat, r: nat, w: nat, readNode: nat, writeNode: nat)
      requires Inv(was) && Inv(s) && s == NewPipe(was) && readNode == was.next + 1 && writeNode == was.next + 2
      requires r < w < MAX_OPEN_FILES && Slot(pid, r) !in s.slots && Slot(pid, w) !in s.slots
      modifies this
      ensures Inv(s) && PipeMade(was, s, pid, r, w)
    {
      OneOut(was.handles, readNode, writeNode);
      Put(pid, r, readNode);
      Put(pid, w, writeNode);
      PipePlaced(was, pid, r, w);
    }

    /** The two vfs_close calls for a pipe that found no slots. */
    method DropPipe(ghost was: State, readNode: nat, writeNode: nat)
      requires Inv(was) && Inv(s) && s == NewPipe(was) && readNode == was.next + 1 && writeNode == was.next + 2
      modifies this
      ensures Inv(s) && s.slots == was.slots && s.handles == was.handles && s.rings == was.rings
    {
      FirstDropped(was);
      SecondDropped(was);
      CloseHeld(readNode);
      CloseHeld(writeNode);
    }

    /** The descriptor loop of task_exit_with_status. */
    method TaskExit(pid: nat)
      requires Inv(s)
      modifies this
      ensures Inv(s) && s.handles == old(s).handles
      ensures forall k :: k in s.slots <==> k in old(s).slots && !(k.pid == pid && k.fd < MAX_OPEN_FILES)
      ensures forall k :: k in s.slots ==> s.slots[k] == old(s).slots[k]
    {
      var i := 0;
      while i < MAX_OPEN_FILES
        invariant 0 <= i <= MAX_OPEN_FILES && Inv(s) && s.handles == old(s).handles
        invariant forall k :: k in s.slots <==> k in old(s).slots && !(k.pid == pid && k.fd < i)
        invariant forall k :: k in s.slots ==> s.slots[k] == old(s).slots[k]
      {
        if Slot(pid, i) in s.slots {
          VacateSlot(Slot(pid, i));
        }
        i := i + 1;
      }
    }

    /** The hand-over of elf_load_and_spawn: a stream the shell holds replaces what the new
        task's slot named. */
    method HandOver(pid: nat, fd: nat, node: Option<nat>)
      requires Inv(s) && (node.Some? ==> node.value in s.handles)
      modifies this
      ensures Inv(s) && s.handles == old(s).handles
      ensures node.None? ==> s == old(s)
      ensures node.Some? ==> s.slots == old(s).slots[Slot(pid, fd) := node]
    {
      if node.None? {
        return;
      }
      if Slot(pid, fd) in s.slots {
        VacateSlot(Slot(pid, fd));
      }
      HoldInto(Slot(pid, fd), node.value);
    }

    /** vfs_retain into an unused slot. */
    method HoldInto(k: Slot, n: nat)
      requires Inv(s) && n in s.nodes && k !in s.slots
      modifies this
      ensures Inv(s) && s.handles == old(s).handles && s.slots == old(s).slots[k := Some(n)]
    {
      HoldKeeps(s, n);
      HoldThenDrop(s.handles, n);
      s := Hold(s, n);
      Put(k.pid, k.fd, n);
    }
  }

  /** Vacating a slot takes no node but the one it named, and that only with its last holder. */
  lemma VacateSpares(s: State, k: Slot)
    requires Inv(s) && k in s.slots && (s.slots[k].Some? ==> s.slots[k].value in s.nodes)
    ensures Vacate(s, k).slots == s.slots - {k} && Vacate(s, k).handles == s.handles
    ensures forall n :: n in s.nodes && Holders(s, n) > 1 ==> n in Vacate(s, k).nodes
    ensures forall n :: n in s.nodes && s.slots[k] != Some(n) ==> n in Vacate(s, k).nodes
  {
    if s.slots[k].Some? {
      var n := s.slots[k].value;
      ReleaseSlots(s.(slots := s.slots - {k}), n);
      assert !s.nodes[n].persistent ==> s.nodes[n].refs == Holders(s, n);
    }
  }

  /** A new pipe with its read end dropped again ... */
  function ReadDropped(s: State): State {
    var r := s.next;
    s.(nodes := s.nodes[r + 2 := Node(1, false, WriteEnd(r))], handles := s.handles + multiset{r + 2},
       rings := s.rings[r := Ring(true, false)], closes := s.closes + [r + 1], next := r + 3)
  }

  lemma FirstDropped(s: State)
    requires s.next + 1 !in s.nodes
    ensures s.next + 1 in NewPipe(s).handles && Drop(NewPipe(s), s.next + 1) == ReadDropped(s)
  {
    var r := s.next;
    var t := NewPipe(s);
    var mid := t.(handles := t.handles - multiset{r + 1});
    OneOut(s.handles, r + 1, r + 2);
    EntryOut(s.nodes, r + 1, Node(1, false, ReadEnd(r)), r + 2, Node(1, false, WriteEnd(r)));
    RingTwice(s.rings, r, Ring(false, false), Ring(true, false));
    ReadEndGoes(mid, r + 1, r);
  }

  /** The last release of a read end whose writer is still there. */
  lemma ReadEndGoes(s: State, n: nat, r: nat)
    requires n in s.nodes && s.nodes[n] == Node(1, false, ReadEnd(r)) && r in s.rings && !s.rings[r].writeClosed
    ensures Release(s, n) == s.(nodes := s.nodes - {n}, closes := s.closes + [n], rings := s.rings[r := s.rings[r].(readClosed := true)])
  {
  }

  lemma RingTwice(rings: map<nat, Ring>, r: nat, a: Ring, b: Ring)
    ensures rings[r := a][r := b] == rings[r := b]
  {
  }

  /** ... and with its write end dropped too: the ring is gone. */
  lemma SecondDropped(s: State)
    requires Inv(s)
    ensures var u := ReadDropped(s);
            var t := Drop(u, s.next + 2);
            && s.next + 2 in u.handles && t.rings == s.rings && t.slots == s.slots && t.handles == s.handles
            && t.frees == s.frees + [s.next]
  {
    var r := s.next;
    FreshUnheld(s, r + 2);
    HoldThenDrop(s.handles, r + 2);
    assert r !in s.rings;
    assert s.rings[r := Ring(true, false)] - {r} == s.rings;
  }
}
