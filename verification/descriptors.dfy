/**
 * Open-file bookkeeping: descriptor slots of all tasks, VFS nodes with their reference
 * counts, and pipes, as a state machine.
 *
 * Every system call that touches descriptors is built from the steps below.  Between the
 * steps of a call the kernel itself holds nodes; those are the `handles`.
 */
module Descriptors {
  import opened Common

  const MAX_OPEN_FILES: nat := 16

  datatype Kind = Plain | ReadEnd(ring: nat) | WriteEnd(ring: nat)

  /** vfs_node_t, as far as its life is concerned. */
  datatype Node = Node(refs: nat, persistent: bool, kind: Kind)

  /** The flags of a pipe_ring_t; Pipes adds its bytes. */
  datatype Ring = Ring(readClosed: bool, writeClosed: bool)

  /** A descriptor slot: a task's pid and an index into its fd_table. */
  datatype Slot = Slot(pid: nat, fd: nat)

  /** `slots` holds the slots in use; one may name no node at all.  `closes` and `frees` record
      every node whose close action has run and every ring given back to the heap. */
  datatype State = State(nodes: map<nat, Node>, slots: map<Slot, Option<nat>>, handles: multiset<nat>,
                         rings: map<nat, Ring>, closes: seq<nat>, frees: seq<nat>, next: nat)

  const Start := State(map[], map[], multiset{}, map[], [], [], 0)

  // ---------- vfs_retain and vfs_release ----------

  function RetainNode(n: Node): Node { if n.persistent then n else n.(refs := n.refs + 1) }

  /** The close action of a node: a pipe end marks its side closed, and the second end to go
      frees the ring. */
  function CloseEnd(s: State, kind: Kind): State {
    match kind
    case Plain => s
    case ReadEnd(r) =>
      if r !in s.rings then s
      else if s.rings[r].writeClosed then s.(rings := s.rings - {r}, frees := s.frees + [r])
      else s.(rings := s.rings[r := s.rings[r].(readClosed := true)])
    case WriteEnd(r) =>
      if r !in s.rings then s
      else if s.rings[r].readClosed then s.(rings := s.rings - {r}, frees := s.frees + [r])
      else s.(rings := s.rings[r := s.rings[r].(writeClosed := true)])
  }

  /** vfs_release of a node some slot or handle has just let go. */
  function Release(s: State, n: nat): State
    requires n in s.nodes
  {
    var node := s.nodes[n];
    var refs := if node.refs > 0 then node.refs - 1 else 0;
    if refs == 0 && !node.persistent then
      CloseEnd(s.(nodes := s.nodes - {n}, closes := s.closes + [n]), node.kind)
    else s.(nodes := s.nodes[n := node.(refs := refs)])
  }

  // ---------- the steps ----------

  /** A node of a file, fresh from fat16_vfs_open, or a device registered at start-up. */
  function NewNode(s: State, persistent: bool): State {
    s.(nodes := s.nodes[s.next := Node(1, persistent, Plain)], next := s.next + 1,
       handles := s.handles + multiset{s.next})
  }

  /** pipe_create. */
  function NewPipe(s: State): State {
    var r := s.next;
    s.(nodes := s.nodes[r + 1 := Node(1, false, ReadEnd(r))][r + 2 := Node(1, false, WriteEnd(r))],
       rings := s.rings[r := Ring(false, false)], next := r + 3,
       handles := s.handles + multiset{r + 1, r + 2})
  }

  /** vfs_retain: the kernel takes a hold on a node it can reach. */
  function Hold(s: State, n: nat): State
    requires n in s.nodes
  {
    s.(nodes := s.nodes[n := RetainNode(s.nodes[n])], handles := s.handles + multiset{n})
  }

  /** vfs_close of a node the kernel holds. */
  function Drop(s: State, n: nat): State
    requires n in s.nodes
  {
    Release(s.(handles := s.handles - multiset{n}), n)
  }

  /** A held node is put into an unused slot. */
  function Install(s: State, k: Slot, n: nat): State {
    s.(slots := s.slots[k := Some(n)], handles := s.handles - multiset{n})
  }

  /** A slot in use that names no node: what a task gets when a device cannot be opened. */
  function InstallNone(s: State, k: Slot): State {
    s.(slots := s.slots[k := None])
  }

  /** A slot is vacated and the node it named released. */
  function Vacate(s: State, k: Slot): State
    requires k in s.slots && (s.slots[k].Some? ==> s.slots[k].value in s.nodes)
  {
    var t := s.(slots := s.slots - {k});
    if s.slots[k].Some? then Release(t, s.slots[k].value) else t
  }

  // ---------- the invariant ----------

  /** The slots that name node n. */
  function Naming(s: State, n: nat): set<Slot> {
    set k | k in s.slots && s.slots[k] == Some(n)
  }

  /** Everyone who holds node n. */
  function Holders(s: State, n: nat): nat { |Naming(s, n)| + s.handles[n] }

  /** No slot and no handle names a node that is gone. */
  ghost predicate NoDangling(s: State) {
    && (forall k :: k in s.slots && s.slots[k].Some? ==> s.slots[k].value in s.nodes)
    && (forall n :: n in s.handles ==> n in s.nodes)
  }

  /** The reference count of a node that can go is the number of its holders. */
  ghost predicate Counted(s: State) {
    forall n {:trigger Holders(s, n)} {:trigger s.nodes[n]} ::
      n in s.nodes && !s.nodes[n].persistent ==> s.nodes[n].refs == Holders(s, n) >= 1
  }

  /** A live pipe end belongs to a ring in memory that does not count it as closed.  The ends
      of ring r are nodes r + 1 and r + 2. */
  predicate NodeFits(s: State, n: nat)
    requires n in s.nodes
  {
    match s.nodes[n].kind
    case Plain => true
    case ReadEnd(r) => n == r + 1 && !s.nodes[n].persistent && r in s.rings && !s.rings[r].readClosed
    case WriteEnd(r) => n == r + 2 && !s.nodes[n].persistent && r in s.rings && !s.rings[r].writeClosed
  }

  ghost predicate EndsMatch(s: State) {
    forall n {:trigger NodeFits(s, n)} :: n in s.nodes ==> NodeFits(s, n)
  }

  /** A ring in memory has an open end, and exactly the nodes of its open ends live. */
  predicate RingFits(s: State, r: nat)
    requires r in s.rings
  {
    && !(s.rings[r].readClosed && s.rings[r].writeClosed)
    && (!s.rings[r].readClosed <==> r + 1 in s.nodes) && (r + 1 in s.nodes ==> s.nodes[r + 1].kind == ReadEnd(r))
    && (!s.rings[r].writeClosed <==> r + 2 in s.nodes) && (r + 2 in s.nodes ==> s.nodes[r + 2].kind == WriteEnd(r))
  }

  ghost predicate RingsOpen(s: State) {
    forall r {:trigger RingFits(s, r)} :: r in s.rings ==> RingFits(s, r)
  }

  ghost predicate Distinct(xs: seq<nat>) {
    forall i, j :: 0 <= i < j < |xs| ==> xs[i] != xs[j]
  }

  /** No close action runs twice, nor for a node still in use; and no ring is freed twice. */
  ghost predicate Once(s: State) {
    && Distinct(s.closes) && Distinct(s.frees)
    && (forall n :: n in s.closes ==> n !in s.nodes && n < s.next)
    && (forall r :: r in s.frees ==> r !in s.rings && r < s.next)
    && (forall n :: n in s.nodes ==> n < s.next)
    && (forall r :: r in s.rings ==> r + 2 < s.next)
  }

  ghost predicate Inv(s: State) {
    NoDangling(s) && Counted(s) && EndsMatch(s) && RingsOpen(s) && Once(s)
  }

  // ---------- releasing ----------

  /** The state with one holder of n already gone: n's count is one too high. */
  ghost predicate OneOver(s: State, n: nat) {
    && NoDangling(s) && EndsMatch(s) && RingsOpen(s) && Once(s) && n in s.nodes
    && (!s.nodes[n].persistent ==> s.nodes[n].refs == Holders(s, n) + 1)
    && forall m {:trigger Holders(s, m)} {:trigger s.nodes[m]} ::
         m in s.nodes && m != n && !s.nodes[m].persistent ==> s.nodes[m].refs == Holders(s, m) >= 1
  }

  lemma HoldersAlike(s: State, t: State, n: nat)
    requires t.slots == s.slots && t.handles == s.handles
    ensures Holders(t, n) == Holders(s, n)
  {
    assert Naming(t, n) == Naming(s, n);
  }

  lemma NobodyHolds(s: State, n: nat)
    requires Holders(s, n) == 0
    ensures forall k :: k in s.slots ==> s.slots[k] != Some(n)
    ensures n !in s.handles
  {
    assert forall k :: k in s.slots && s.slots[k] == Some(n) ==> k in Naming(s, n);
  }

  lemma ReleaseSlots(s: State, n: nat)
    requires n in s.nodes
    ensures Release(s, n).slots == s.slots && Release(s, n).handles == s.handles && Release(s, n).next == s.next
  {
  }

  /** Releasing settles the count, and closes the node with its last holder. */
  lemma ReleaseKeeps(s: State, n: nat)
    requires OneOver(s, n)
    ensures Inv(Release(s, n))
  {
    ReleaseSlots(s, n);
    var t := Release(s, n);
    HoldersAlike(s, t, n);
    if !s.nodes[n].persistent && s.nodes[n].refs == 1 {
      NobodyHolds(s, n);
      LastRelease(s, n);
    } else {
      CountDown(s, n);
    }
    forall m | m in t.nodes && !t.nodes[m].persistent ensures t.nodes[m].refs == Holders(t, m) >= 1 {
      HoldersAlike(s, t, m);
      assert m in s.nodes;
    }
  }

  /** Only the count changes. */
  lemma CountDown(s: State, n: nat)
    requires OneOver(s, n) && (s.nodes[n].persistent || s.nodes[n].refs > 1)
    ensures var t := Release(s, n); NoDangling(t) && EndsMatch(t) && RingsOpen(t) && Once(t)
  {
    var t := Release(s, n);
    forall m | m in t.nodes ensures NodeFits(t, m) {
      assert NodeFits(s, m);
    }
    forall r | r in t.rings ensures RingFits(t, r) {
      assert RingFits(s, r);
    }
  }

  lemma LastRelease(s: State, n: nat)
    requires OneOver(s, n) && !s.nodes[n].persistent && s.nodes[n].refs == 1
    requires forall k :: k in s.slots ==> s.slots[k] != Some(n)
    requires n !in s.handles
    ensures var t := Release(s, n);
            NoDangling(t) && EndsMatch(t) && RingsOpen(t) && Once(t) && t.nodes == s.nodes - {n}
  {
    var t := Release(s, n);
    assert t == CloseEnd(s.(nodes := s.nodes - {n}, closes := s.closes + [n]), s.nodes[n].kind);
    assert NodeFits(s, n);
    forall m | m in t.nodes ensures NodeFits(t, m) {
      assert NodeFits(s, m);
      EndsApart(s, m, n);
    }
    forall r | r in t.rings ensures RingFits(t, r) {
      assert RingFits(s, r);
    }
    ClosedOnce(s, n);
  }

  /** The end that goes takes no other live end's ring with it. */
  lemma EndsApart(s: State, m: nat, n: nat)
    requires EndsMatch(s) && m in s.nodes && n in s.nodes && m != n
    ensures s.nodes[m].kind != Plain ==> s.nodes[m].kind != s.nodes[n].kind
  {
    assert NodeFits(s, m) && NodeFits(s, n);
  }

  lemma ClosedOnce(s: State, n: nat)
    requires Once(s) && n in s.nodes && NodeFits(s, n)
    ensures Once(CloseEnd(s.(nodes := s.nodes - {n}, closes := s.closes + [n]), s.nodes[n].kind))
  {
  }

  // ---------- every step keeps the invariant ----------

  lemma FreshUnheld(s: State, n: nat)
    requires NoDangling(s) && n !in s.nodes
    ensures Naming(s, n) == {} && n !in s.handles
  {
  }

  lemma NewNodeKeeps(s: State, persistent: bool)
    requires Inv(s)
    ensures Inv(NewNode(s, persistent))
  {
    var t := NewNode(s, persistent);
    FreshUnheld(s, s.next);
    forall m ensures Naming(t, m) == Naming(s, m) {
    }
    forall m | m in t.nodes && !t.nodes[m].persistent ensures t.nodes[m].refs == Holders(t, m) >= 1 {
      if m != s.next {
        assert Holders(t, m) == Holders(s, m);
      }
    }
    forall m | m in t.nodes ensures NodeFits(t, m) {
      assert m != s.next ==> NodeFits(s, m);
    }
    forall r | r in t.rings ensures RingFits(t, r) {
      assert RingFits(s, r);
    }
  }

  lemma NewPipeKeeps(s: State)
    requires Inv(s)
    ensures Inv(NewPipe(s))
  {
    NewPipeCounted(s);
    NewPipeFits(s);
  }

  lemma NewPipeCounted(s: State)
    requires Inv(s)
    ensures Counted(NewPipe(s))
  {
    var t := NewPipe(s);
    forall m | m in t.nodes && !t.nodes[m].persistent ensures t.nodes[m].refs == Holders(t, m) >= 1 {
      NewPipeHolders(s, m);
      if m < s.next {
        assert t.nodes[m] == s.nodes[m];
      }
    }
  }

  lemma NewPipeFits(s: State)
    requires Inv(s)
    ensures EndsMatch(NewPipe(s)) && RingsOpen(NewPipe(s))
  {
    var t := NewPipe(s);
    forall m | m in t.nodes ensures NodeFits(t, m) {
      if m < s.next {
        assert NodeFits(s, m);
        assert t.nodes[m] == s.nodes[m];
      }
    }
    forall r | r in t.rings ensures RingFits(t, r) {
      if r != s.next {
        assert RingFits(s, r);
      }
    }
  }

  lemma NewPipeHolders(s: State, m: nat)
    requires Inv(s) && m in NewPipe(s).nodes
    ensures Holders(NewPipe(s), m) == if m < s.next then Holders(s, m) else 1
  {
    assert Naming(NewPipe(s), m) == Naming(s, m);
    if m >= s.next {
      FreshUnheld(s, m);
    }
  }

  lemma HoldKeeps(s: State, n: nat)
    requires Inv(s) && n in s.nodes
    ensures Inv(Hold(s, n))
  {
    var t := Hold(s, n);
    forall m ensures Naming(t, m) == Naming(s, m) {
    }
    forall m | m in t.nodes && !t.nodes[m].persistent ensures t.nodes[m].refs == Holders(t, m) >= 1 {
      assert Holders(t, m) == Holders(s, m) + (if m == n then 1 else 0);
    }
    FitsAlike(s, t);
  }

  /** Counts apart, the nodes and the rings are as they were. */
  lemma FitsAlike(s: State, t: State)
    requires EndsMatch(s) && RingsOpen(s) && t.rings == s.rings && t.nodes.Keys == s.nodes.Keys
    requires forall n :: n in s.nodes ==> t.nodes[n].kind == s.nodes[n].kind && t.nodes[n].persistent == s.nodes[n].persistent
    ensures EndsMatch(t) && RingsOpen(t)
  {
    forall m | m in t.nodes ensures NodeFits(t, m) {
      assert NodeFits(s, m);
    }
    forall r | r in t.rings ensures RingFits(t, r) {
      assert RingFits(s, r);
    }
  }

  lemma DropKeeps(s: State, n: nat)
    requires Inv(s) && n in s.handles
    ensures n in s.nodes && Inv(Drop(s, n))
  {
    var t := s.(handles := s.handles - multiset{n});
    forall m ensures Naming(t, m) == Naming(s, m) {
    }
    forall m ensures Holders(t, m) == Holders(s, m) - (if m == n then 1 else 0) {
    }
    FitsAlike(s, t);
    ReleaseKeeps(t, n);
  }

  lemma InstallHolders(s: State, k: Slot, n: nat, m: nat)
    requires n in s.handles && k !in s.slots
    ensures Holders(Install(s, k, n), m) == Holders(s, m)
  {
    var t := Install(s, k, n);
    if m == n {
      assert Naming(t, m) == Naming(s, m) + {k};
    } else {
      assert Naming(t, m) == Naming(s, m);
    }
  }

  lemma InstallKeeps(s: State, k: Slot, n: nat)
    requires Inv(s) && n in s.handles && k !in s.slots
    ensures Inv(Install(s, k, n))
  {
    var t := Install(s, k, n);
    forall m | m in t.nodes && !t.nodes[m].persistent ensures t.nodes[m].refs == Holders(t, m) >= 1 {
      InstallHolders(s, k, n, m);
    }
    FitsAlike(s, t);
  }

  lemma InstallNoneKeeps(s: State, k: Slot)
    requires Inv(s) && k !in s.slots
    ensures Inv(InstallNone(s, k))
  {
    var t := InstallNone(s, k);
    forall m ensures Naming(t, m) == Naming(s, m) {
    }
    forall m ensures Holders(t, m) == Holders(s, m) {
    }
    FitsAlike(s, t);
  }

  lemma VacateKeeps(s: State, k: Slot)
    requires Inv(s) && k in s.slots
    ensures s.slots[k].Some? ==> s.slots[k].value in s.nodes
    ensures Inv(Vacate(s, k))
  {
    var t := s.(slots := s.slots - {k});
    FitsAlike(s, t);
    match s.slots[k]
    case None =>
      forall m ensures Holders(t, m) == Holders(s, m) {
        assert Naming(t, m) == Naming(s, m);
      }
    case Some(n) =>
      forall m ensures Holders(t, m) == Holders(s, m) - (if m == n then 1 else 0) {
        assert Naming(t, m) == Naming(s, m) - {k};
        assert m == n ==> k in Naming(s, m);
      }
      ReleaseKeeps(t, n);
  }

  // ---------- runs ----------

  datatype Step = DoNewNode(persistent: bool) | DoNewPipe | DoHold(n: nat) | DoDrop(n: nat)
                | DoInstall(k: Slot, n: nat) | DoInstallNone(k: Slot) | DoVacate(k: Slot)

  predicate Enabled(s: State, step: Step) {
    match step
    case DoNewNode(_) => true
    case DoNewPipe => true
    case DoHold(n) => n in s.nodes
    case DoDrop(n) => n in s.handles
    case DoInstall(k, n) => n in s.handles && k !in s.slots
    case DoInstallNone(k) => k !in s.slots
    case DoVacate(k) => k in s.slots
  }

  /** A step, where it is enabled and safe to take; see EnabledIsSafe. */
  function Do(s: State, step: Step): State {
    match step
    case DoNewNode(persistent) => NewNode(s, persistent)
    case DoNewPipe => NewPipe(s)
    case DoHold(n) => if n in s.nodes then Hold(s, n) else s
    case DoDrop(n) => if n in s.nodes then Drop(s, n) else s
    case DoInstall(k, n) => Install(s, k, n)
    case DoInstallNone(k) => InstallNone(s, k)
    case DoVacate(k) => if k in s.slots && (s.slots[k].Some? ==> s.slots[k].value in s.nodes) then Vacate(s, k) else s
  }

  lemma StepKeeps(s: State, step: Step)
    requires Inv(s) && Enabled(s, step)
    ensures Inv(Do(s, step))
  {
    match step
    case DoNewNode(persistent) => NewNodeKeeps(s, persistent);
    case DoNewPipe => NewPipeKeeps(s);
    case DoHold(n) => HoldKeeps(s, n);
    case DoDrop(n) => DropKeeps(s, n);
    case DoInstall(k, n) => InstallKeeps(s, k, n);
    case DoInstallNone(k) => InstallNoneKeeps(s, k);
    case DoVacate(k) => VacateKeeps(s, k);
  }

  ghost predicate IsRun(states: seq<State>, steps: seq<Step>) {
    && |states| == |steps| + 1 && states[0] == Start
    && forall i :: 0 <= i < |steps| ==> Enabled(states[i], steps[i]) && states[i + 1] == Do(states[i], steps[i])
  }

  lemma StartInv()
    ensures Inv(Start)
  {
  }

  /**
   * In every reachable state a node that can go has exactly as many references as slots and
   * handles naming it, no slot or handle names a node that is gone, close actions run once
   * per node, and rings are freed once.
   */
  lemma {:induction false} ReachableInv(states: seq<State>, steps: seq<Step>, i: nat)
    requires IsRun(states, steps) && i < |states|
    ensures Inv(states[i])
  {
    if i == 0 {
      StartInv();
    } else {
      ReachableInv(states, steps, i - 1);
      StepKeeps(states[i - 1], steps[i - 1]);
    }
  }

  /** A node is closed by the very step in which its last holder lets go, and by no other. */
  lemma ClosedByLastHolder(s: State, n: nat)
    requires OneOver(s, n)
    ensures n !in Release(s, n).nodes <==> !s.nodes[n].persistent && Holders(s, n) == 0
    ensures n in Release(s, n).closes <==> n !in Release(s, n).nodes
  {
    assert n !in s.closes;
  }

  /** A side of a ring in memory counts as closed exactly when no slot and no handle names its
      end any more. */
  lemma RingLives(s: State, r: nat)
    requires Inv(s) && r in s.rings
    ensures s.rings[r].readClosed <==> Holders(s, r + 1) == 0
    ensures s.rings[r].writeClosed <==> Holders(s, r + 2) == 0
    ensures !s.rings[r].readClosed || !s.rings[r].writeClosed
  {
    assert RingFits(s, r);
    if r + 1 in s.nodes {
      assert NodeFits(s, r + 1);
    }
    if r + 2 in s.nodes {
      assert NodeFits(s, r + 2);
    }
    EndHeld(s, r + 1);
    EndHeld(s, r + 2);
  }

  lemma EndHeld(s: State, n: nat)
    requires Inv(s) && (n in s.nodes ==> !s.nodes[n].persistent)
    ensures n in s.nodes <==> Holders(s, n) >= 1
  {
    if n !in s.nodes {
      FreshUnheld(s, n);
    }
  }
}
