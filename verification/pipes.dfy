/**
 * Pipes shared by interleaved readers, writers and closers: the descriptor machine with the
 * bytes of every ring and the reads and writes in progress.
 *
 * Each locked section is one step, and so is each descriptor step of another task between
 * them.  A task that reads or writes makes no other call until it returns; it can only
 * disappear, by exiting.
 */
module Pipes {
  import opened Common
  import opened Bytes
  import D = Descriptors
  import P = PipeRing

  /** A call in progress: the descriptor it was made on, its ring, and how far it has come. */
  datatype Call = Reading(fd: nat, ring: nat, size: nat, got: seq<byte>) | Writing(fd: nat, ring: nat, data: seq<byte>, sent: nat)

  /** The tasks' slots and nodes, the rings' bytes, and the call each task is in. */
  datatype World = World(s: D.State, rings: map<nat, P.Buffer>, calls: map<nat, Call>)

  const Boot := World(D.Start, map[], map[])

  // ---------- steps ----------

  datatype Step =
    | Descriptor(step: D.Step)
    | BeginRead(pid: nat, fd: nat, size: nat)
    | BeginWrite(pid: nat, fd: nat, data: seq<byte>)
    | Section(pid: nat)
    | Abandon(pid: nat)

  /** The task whose slots a descriptor step changes, if it changes any. */
  function Owner(step: D.Step): Option<nat> {
    match step
    case DoInstall(k, _) => Some(k.pid)
    case DoInstallNone(k) => Some(k.pid)
    case DoVacate(k) => Some(k.pid)
    case _ => None
  }

  /** The node the slot names is this end of this ring. */
  predicate Names(s: D.State, k: D.Slot, kind: D.Kind) {
    && k in s.slots && s.slots[k].Some? && s.slots[k].value in s.nodes
    && s.nodes[s.slots[k].value].kind == kind
  }

  predicate NamesReadEnd(s: D.State, k: D.Slot) {
    k in s.slots && s.slots[k].Some? && s.slots[k].value in s.nodes && s.nodes[s.slots[k].value].kind.ReadEnd?
  }

  predicate NamesWriteEnd(s: D.State, k: D.Slot) {
    k in s.slots && s.slots[k].Some? && s.slots[k].value in s.nodes && s.nodes[s.slots[k].value].kind.WriteEnd?
  }

  function RingOf(s: D.State, k: D.Slot): nat
    requires NamesReadEnd(s, k) || NamesWriteEnd(s, k)
  {
    s.nodes[s.slots[k].value].kind.ring
  }

  predicate Enabled(w: World, step: Step) {
    match step
    case Descriptor(d) => D.Enabled(w.s, d) && (Owner(d).Some? ==> Owner(d).value !in w.calls)
    case BeginRead(pid, fd, _) => pid !in w.calls && NamesReadEnd(w.s, D.Slot(pid, fd))
    case BeginWrite(pid, fd, _) => pid !in w.calls && NamesWriteEnd(w.s, D.Slot(pid, fd))
    case Section(pid) => pid in w.calls
    case Abandon(pid) => pid in w.calls
  }

  /** The buffers that go with the rings of s: those there were, and empty ones. */
  function Buffers(rings: map<nat, P.Buffer>, s: D.State): map<nat, P.Buffer> {
    map r | r in s.rings :: if r in rings then rings[r] else P.Empty
  }

  /** A locked section of the call task pid is in; returning ends the call. */
  function RunSection(w: World, pid: nat): World
    requires pid in w.calls
  {
    var call := w.calls[pid];
    if call.ring !in w.rings || call.ring !in w.s.rings || !P.Shaped(w.rings[call.ring]) then w
    else
      match call
      case Reading(fd, r, size, got) =>
        var (b, more, turn) := P.ReadTurn(w.rings[r], w.s.rings[r].writeClosed, size, got);
        w.(rings := w.rings[r := b], calls := if turn.Return? then w.calls - {pid} else w.calls[pid := call.(got := more)])
      case Writing(fd, r, data, sent) =>
        var (b, more, turn) := P.WriteTurn(w.rings[r], w.s.rings[r].readClosed, data, sent);
        w.(rings := w.rings[r := b], calls := if turn.Return? then w.calls - {pid} else w.calls[pid := call.(sent := more)])
  }

  function Do(w: World, step: Step): World {
    match step
    case Descriptor(d) => var s := D.Do(w.s, d); w.(s := s, rings := Buffers(w.rings, s))
    case BeginRead(pid, fd, size) =>
      if NamesReadEnd(w.s, D.Slot(pid, fd)) then w.(calls := w.calls[pid := Reading(fd, RingOf(w.s, D.Slot(pid, fd)), size, [])]) else w
    case BeginWrite(pid, fd, data) =>
      if NamesWriteEnd(w.s, D.Slot(pid, fd)) then w.(calls := w.calls[pid := Writing(fd, RingOf(w.s, D.Slot(pid, fd)), data, 0)]) else w
    case Section(pid) => if pid in w.calls then RunSection(w, pid) else w
    case Abandon(pid) => w.(calls := w.calls - {pid})
  }

  // ---------- the invariant ----------

  /** A call in progress is on a slot that still names the end it is about. */
  predicate CallFits(w: World, pid: nat)
    requires pid in w.calls
  {
    match w.calls[pid]
    case Reading(fd, r, size, got) => Names(w.s, D.Slot(pid, fd), D.ReadEnd(r)) && |got| <= size
    case Writing(fd, r, data, sent) => Names(w.s, D.Slot(pid, fd), D.WriteEnd(r)) && sent <= |data|
  }

  ghost predicate RingSound(w: World, r: nat)
    requires r in w.rings
  {
    P.Sound(w.rings[r])
  }

  ghost predicate Inv(w: World) {
    && D.Inv(w.s)
    && w.rings.Keys == w.s.rings.Keys
    && (forall r {:trigger RingSound(w, r)} :: r in w.rings ==> RingSound(w, r))
    && (forall pid {:trigger CallFits(w, pid)} :: pid in w.calls ==> CallFits(w, pid))
  }

  /** A call in progress has its ring in memory, with its own side open. */
  lemma CallHasRing(w: World, pid: nat)
    requires Inv(w) && pid in w.calls
    ensures w.calls[pid].ring in w.rings && w.calls[pid].ring in w.s.rings && P.Sound(w.rings[w.calls[pid].ring])
    ensures w.calls[pid].Reading? ==> !w.s.rings[w.calls[pid].ring].readClosed
    ensures w.calls[pid].Writing? ==> !w.s.rings[w.calls[pid].ring].writeClosed
  {
    assert CallFits(w, pid);
    var n := w.s.slots[D.Slot(pid, w.calls[pid].fd)].value;
    assert D.NodeFits(w.s, n);
    assert RingSound(w, w.calls[pid].ring);
  }

  /** Descriptor steps leave the slots of other tasks, and what those name, alone. */
  lemma SlotStays(s: D.State, step: D.Step, k: D.Slot, kind: D.Kind)
    requires D.Inv(s) && D.Enabled(s, step) && Names(s, k, kind) && Owner(step) != Some(k.pid)
    ensures Names(D.Do(s, step), k, kind)
  {
    var n := s.slots[k].value;
    match step
    case DoDrop(m) => LetGoSpares(s, step, k, n);
    case DoVacate(x) => LetGoSpares(s, step, k, n);
    case _ => AddedSpares(s, step, k, n);
  }

  /** Steps that let go of a node spare those some slot still names ... */
  lemma LetGoSpares(s: D.State, step: D.Step, k: D.Slot, n: nat)
    requires D.Inv(s) && D.Enabled(s, step) && (step.DoDrop? || step.DoVacate?) && Owner(step) != Some(k.pid)
    requires k in s.slots && s.slots[k] == Some(n) && n in s.nodes
    ensures var t := D.Do(s, step); k in t.slots && t.slots[k] == Some(n) && n in t.nodes && t.nodes[n].kind == s.nodes[n].kind
  {
    D.StepKeeps(s, step);
    SameNodes(s, step, n);
  }

  /** ... and the others take nothing away. */
  lemma AddedSpares(s: D.State, step: D.Step, k: D.Slot, n: nat)
    requires D.Inv(s) && D.Enabled(s, step) && !step.DoDrop? && !step.DoVacate? && Owner(step) != Some(k.pid)
    requires k in s.slots && s.slots[k] == Some(n) && n in s.nodes
    ensures var t := D.Do(s, step); k in t.slots && t.slots[k] == Some(n) && n in t.nodes && t.nodes[n].kind == s.nodes[n].kind
  {
    assert n < s.next;
  }

  /** A node some slot still names keeps its kind. */
  lemma SameNodes(s: D.State, step: D.Step, n: nat)
    requires D.Inv(s) && D.Enabled(s, step) && (step.DoDrop? || step.DoVacate?) && D.Inv(D.Do(s, step)) && n in s.nodes
    ensures D.Do(s, step).slots == (if step.DoVacate? then s.slots - {step.k} else s.slots)
    ensures (exists k :: k in D.Do(s, step).slots && D.Do(s, step).slots[k] == Some(n)) ==>
              n in D.Do(s, step).nodes && D.Do(s, step).nodes[n].kind == s.nodes[n].kind
  {
    match step
    case DoDrop(m) =>
      D.DropKeeps(s, m);
      ReleaseKinds(s.(handles := s.handles - multiset{m}), m, n);
    case DoVacate(x) =>
      D.VacateKeeps(s, x);
      if s.slots[x].Some? {
        ReleaseKinds(s.(slots := s.slots - {x}), s.slots[x].value, n);
      }
    case _ =>
  }

  lemma ReleaseKinds(s: D.State, m: nat, n: nat)
    requires m in s.nodes && n in s.nodes
    ensures D.Release(s, m).slots == s.slots
    ensures n in D.Release(s, m).nodes ==> D.Release(s, m).nodes[n].kind == s.nodes[n].kind
  {
  }

  lemma DescriptorKeeps(w: World, d: D.Step)
    requires Inv(w) && Enabled(w, Descriptor(d))
    ensures Inv(Do(w, Descriptor(d)))
  {
    var v := Do(w, Descriptor(d));
    D.StepKeeps(w.s, d);
    P.EmptySound();
    forall r | r in v.rings ensures RingSound(v, r) {
      assert r in w.rings ==> RingSound(w, r);
    }
    forall pid | pid in v.calls ensures CallFits(v, pid) {
      assert CallFits(w, pid);
      match w.calls[pid]
      case Reading(fd, r, _, _) => SlotStays(w.s, d, D.Slot(pid, fd), D.ReadEnd(r));
      case Writing(fd, r, _, _) => SlotStays(w.s, d, D.Slot(pid, fd), D.WriteEnd(r));
    }
  }

  /** The turn itself. */
  lemma TurnKeeps(w: World, pid: nat)
    requires Inv(w) && pid in w.calls
    ensures var v := RunSection(w, pid);
            var r := w.calls[pid].ring;
            && r in w.rings && v.rings.Keys == w.rings.Keys && v.s == w.s && P.Sound(v.rings[r])
            && (forall q :: q in w.rings && q != r ==> v.rings[q] == w.rings[q])
            && w.rings[r].accepted <= v.rings[r].accepted && w.rings[r].delivered <= v.rings[r].delivered
            && (w.calls[pid].Reading? ==> v.rings[r].accepted == w.rings[r].accepted)
    ensures var v := RunSection(w, pid);
            && v.calls.Keys <= w.calls.Keys && (pid in v.calls ==> CallFits(v, pid))
            && forall q :: q in v.calls && q != pid ==> v.calls[q] == w.calls[q]
  {
    CallHasRing(w, pid);
    assert CallFits(w, pid);
    match w.calls[pid]
    case Reading(fd, r, size, got) => P.ReadTurnKeeps(w.rings[r], w.s.rings[r].writeClosed, size, got);
    case Writing(fd, r, data, sent) => P.WriteTurnKeeps(w.rings[r], w.s.rings[r].readClosed, data, sent);
  }

  lemma SectionKeeps(w: World, pid: nat)
    requires Inv(w) && pid in w.calls
    ensures Inv(RunSection(w, pid))
  {
    var v := RunSection(w, pid);
    TurnKeeps(w, pid);
    forall r | r in v.rings ensures RingSound(v, r) {
      assert RingSound(w, r);
    }
    forall q | q in v.calls ensures CallFits(v, q) {
      assert CallFits(w, q);
    }
  }

  lemma StepKeeps(w: World, step: Step)
    requires Inv(w) && Enabled(w, step)
    ensures Inv(Do(w, step))
  {
    match step
    case Descriptor(d) => DescriptorKeeps(w, d);
    case Section(pid) => SectionKeeps(w, pid);
    case _ => CallsOnly(w, step);
  }

  lemma CallsOnly(w: World, step: Step)
    requires Inv(w) && Enabled(w, step) && !step.Descriptor? && !step.Section?
    ensures Inv(Do(w, step))
  {
    var v := Do(w, step);
    forall r | r in v.rings ensures RingSound(v, r) {
      assert RingSound(w, r);
    }
    forall q | q in v.calls ensures CallFits(v, q) {
      if q in w.calls {
        assert CallFits(w, q);
      }
    }
  }

  // ---------- every interleaving ----------

  ghost predicate RunAt(ws: seq<World>, steps: seq<Step>, i: nat)
    requires |ws| == |steps| + 1 && i < |steps|
  {
    Enabled(ws[i], steps[i]) && ws[i + 1] == Do(ws[i], steps[i])
  }

  ghost predicate IsRun(ws: seq<World>, steps: seq<Step>) {
    |ws| == |steps| + 1 && ws[0] == Boot && forall i: nat {:trigger RunAt(ws, steps, i)} :: i < |steps| ==> RunAt(ws, steps, i)
  }

  /**
   * For every interleaving of readers, writers and closers: each ring is a sound circular
   * buffer, so bytes delivered followed by bytes in it are the bytes accepted, and every
   * call in progress is on a descriptor that names its end of a ring in memory.
   */
  lemma {:induction false} ReachableInv(ws: seq<World>, steps: seq<Step>, i: nat)
    requires IsRun(ws, steps) && i < |ws|
    ensures Inv(ws[i])
  {
    if i == 0 {
      D.StartInv();
    } else {
      ReachableInv(ws, steps, i - 1);
      assert RunAt(ws, steps, i - 1);
      StepKeeps(ws[i - 1], steps[i - 1]);
    }
  }

  lemma {:induction false} RunExtends(ws: seq<World>, steps: seq<Step>, i: nat, r: nat, j: nat)
    requires IsRun(ws, steps) && i <= j < |ws| && r in ws[i].rings && r in ws[j].rings
    ensures ws[i].rings[r].accepted <= ws[j].rings[r].accepted && ws[i].rings[r].delivered <= ws[j].rings[r].delivered
    ensures r in ws[i].s.rings && r in ws[j].s.rings
    ensures ws[i].s.rings[r].writeClosed ==> ws[j].s.rings[r].writeClosed && ws[j].rings[r].accepted == ws[i].rings[r].accepted
    decreases j
  {
    ReachableInv(ws, steps, i);
    ReachableInv(ws, steps, j);
    if i < j {
      ReachableInv(ws, steps, j - 1);
      assert RunAt(ws, steps, j - 1);
      StillThere(ws, steps, i, r, j);
      RunExtends(ws, steps, i, r, j - 1);
      StepExtends(ws[j - 1], steps[j - 1], r);
    }
  }

  /** A ring never comes back: one there now, and there before, was there in between. */
  lemma StillThere(ws: seq<World>, steps: seq<Step>, i: nat, r: nat, j: nat)
    requires IsRun(ws, steps) && i < j < |ws| && Inv(ws[i]) && Inv(ws[j - 1]) && r in ws[i].rings && r in ws[j].rings
    ensures r in ws[j - 1].rings
  {
    NextGrows(ws, steps, i, j - 1);
    OldRing(ws[i], r);
    assert RunAt(ws, steps, j - 1);
    NewRingIsNext(ws[j - 1], steps[j - 1], r);
  }

  lemma OldRing(w: World, r: nat)
    requires Inv(w) && r in w.rings
    ensures r < w.s.next
  {
  }

  lemma {:induction false} NextGrows(ws: seq<World>, steps: seq<Step>, i: nat, j: nat)
    requires IsRun(ws, steps) && i <= j < |ws|
    ensures ws[i].s.next <= ws[j].s.next
    decreases j
  {
    if i < j {
      NextGrows(ws, steps, i, j - 1);
      assert RunAt(ws, steps, j - 1);
      StepNext(ws[j - 1], steps[j - 1]);
    }
  }

  lemma StepNext(w: World, step: Step)
    ensures w.s.next <= Do(w, step).s.next
  {
    match step
    case Descriptor(d) => NextOf(w.s, d);
    case _ =>
  }

  lemma NextOf(s: D.State, d: D.Step)
    ensures s.next <= D.Do(s, d).next
    ensures forall r :: r in D.Do(s, d).rings && r !in s.rings ==> r == s.next
  {
  }

  lemma NewRingIsNext(w: World, step: Step, r: nat)
    requires Inv(w) && Enabled(w, step) && r in Do(w, step).rings && r < w.s.next
    ensures r in w.rings
  {
    match step
    case Descriptor(d) => NextOf(w.s, d);
    case _ =>
  }

  /** One step: what a ring accepted and delivered only grows, and once its write side is closed
      nothing more is accepted. */
  lemma StepExtends(w: World, step: Step, r: nat)
    requires Inv(w) && Enabled(w, step) && r in w.rings && r in Do(w, step).rings
    ensures r in w.s.rings && r in Do(w, step).s.rings
    ensures w.rings[r].accepted <= Do(w, step).rings[r].accepted && w.rings[r].delivered <= Do(w, step).rings[r].delivered
    ensures w.s.rings[r].writeClosed ==> Do(w, step).s.rings[r].writeClosed && Do(w, step).rings[r].accepted == w.rings[r].accepted
  {
    StepKeeps(w, step);
    match step
    case Descriptor(d) => FlagsStay(w.s, d, r);
    case Section(pid) =>
      TurnKeeps(w, pid);
      CallHasRing(w, pid);
    case _ =>
  }

  lemma FlagsStay(s: D.State, d: D.Step, r: nat)
    requires D.Inv(s) && D.Enabled(s, d) && r in s.rings && r in D.Do(s, d).rings
    ensures s.rings[r].writeClosed ==> D.Do(s, d).rings[r].writeClosed
    ensures s.rings[r].readClosed ==> D.Do(s, d).rings[r].readClosed
  {
    match d
    case DoDrop(n) =>
      D.DropKeeps(s, n);
      ReleaseFlags(s.(handles := s.handles - multiset{n}), n, r);
    case DoVacate(k) =>
      D.VacateKeeps(s, k);
      if s.slots[k].Some? {
        ReleaseFlags(s.(slots := s.slots - {k}), s.slots[k].value, r);
      }
    case _ =>
      OldRingId(s, r);
  }

  lemma OldRingId(s: D.State, r: nat)
    requires D.Inv(s) && r in s.rings
    ensures r < s.next
  {
  }

  lemma ReleaseFlags(s: D.State, n: nat, r: nat)
    requires n in s.nodes && r in s.rings && r in D.Release(s, n).rings
    ensures s.rings[r].writeClosed ==> D.Release(s, n).rings[r].writeClosed
    ensures s.rings[r].readClosed ==> D.Release(s, n).rings[r].readClosed
  {
  }

  /**
   * A read of positive size that returns nothing has seen the end of the stream: no slot or
   * handle names the write end any more, every byte that was ever accepted has been
   * delivered, and in whatever follows no byte is accepted again.
   */
  lemma EmptyReadIsEnd(ws: seq<World>, steps: seq<Step>, i: nat, pid: nat, j: nat)
    requires IsRun(ws, steps) && i < |steps| && steps[i] == Section(pid)
    requires pid in ws[i].calls && ws[i].calls[pid].Reading? && ws[i].calls[pid].size > 0 && ws[i].calls[pid].got == []
    requires pid !in ws[i + 1].calls
    requires i <= j < |ws| && ws[i].calls[pid].ring in ws[j].rings
    ensures var r := ws[i].calls[pid].ring;
            && r in ws[i].rings && ws[i].rings[r].delivered == ws[i].rings[r].accepted
            && D.Holders(ws[i].s, r + 2) == 0
            && ws[j].rings[r].accepted == ws[i].rings[r].accepted
  {
    var r := ws[i].calls[pid].ring;
    ReachableInv(ws, steps, i);
    assert RunAt(ws, steps, i);
    CallHasRing(ws[i], pid);
    P.NothingMeansEnd(ws[i].rings[r], ws[i].s.rings[r].writeClosed, ws[i].calls[pid].size);
    D.RingLives(ws[i].s, r);
    RunExtends(ws, steps, i, r, j);
  }

  // ---------- one writer, one reader ----------

  /** Task pid is writing these bytes to ring r, and nobody else writes to it. */
  ghost predicate Writes(w: World, pid: nat, r: nat, data: seq<byte>) {
    && pid in w.calls && w.calls[pid].Writing? && w.calls[pid].ring == r && w.calls[pid].data == data
    && forall q :: q in w.calls && q != pid && w.calls[q].Writing? ==> w.calls[q].ring != r
  }

  ghost predicate Reads(w: World, pid: nat, r: nat) {
    && pid in w.calls && w.calls[pid].Reading? && w.calls[pid].ring == r
    && forall q :: q in w.calls && q != pid && w.calls[q].Reading? ==> w.calls[q].ring != r
  }

  lemma OwnWrite(w: World, pid: nat, r: nat, data: seq<byte>)
    requires Inv(w) && Writes(w, pid, r, data) && pid in RunSection(w, pid).calls
    ensures var v := RunSection(w, pid);
            && r in w.rings && r in v.rings && v.calls[pid].Writing? && w.calls[pid].sent <= v.calls[pid].sent <= |data|
            && v.rings[r].accepted == w.rings[r].accepted + data[w.calls[pid].sent..v.calls[pid].sent]
  {
    CallHasRing(w, pid);
    assert CallFits(w, pid);
    P.WriteTurnKeeps(w.rings[r], w.s.rings[r].readClosed, data, w.calls[pid].sent);
  }

  lemma OwnRead(w: World, pid: nat, r: nat)
    requires Inv(w) && Reads(w, pid, r) && pid in RunSection(w, pid).calls
    ensures var v := RunSection(w, pid);
            && r in w.rings && r in v.rings && v.calls[pid].Reading? && w.calls[pid].got <= v.calls[pid].got
            && v.rings[r].delivered == w.rings[r].delivered + v.calls[pid].got[|w.calls[pid].got|..]
  {
    CallHasRing(w, pid);
    assert CallFits(w, pid);
    P.ReadTurnKeeps(w.rings[r], w.s.rings[r].writeClosed, w.calls[pid].size, w.calls[pid].got);
  }

  /** Any step but the writer's own leaves what the ring has accepted, and any but the reader's own what it
      has delivered. */
  lemma OthersLeave(w: World, step: Step, r: nat)
    requires Inv(w) && Enabled(w, step) && r in w.rings && r in Do(w, step).rings
    ensures !(step.Section? && w.calls[step.pid].Writing? && w.calls[step.pid].ring == r) ==> Do(w, step).rings[r].accepted == w.rings[r].accepted
    ensures !(step.Section? && w.calls[step.pid].Reading? && w.calls[step.pid].ring == r) ==> Do(w, step).rings[r].delivered == w.rings[r].delivered
  {
    match step
    case Section(pid) => SectionLeaves(w, pid, r);
    case _ =>
  }

  lemma SectionLeaves(w: World, pid: nat, r: nat)
    requires Inv(w) && pid in w.calls && r in w.rings && r in RunSection(w, pid).rings
    ensures !(w.calls[pid].Writing? && w.calls[pid].ring == r) ==> RunSection(w, pid).rings[r].accepted == w.rings[r].accepted
    ensures !(w.calls[pid].Reading? && w.calls[pid].ring == r) ==> RunSection(w, pid).rings[r].delivered == w.rings[r].delivered
  {
    TurnKeeps(w, pid);
    CallHasRing(w, pid);
    assert CallFits(w, pid);
    match w.calls[pid]
    case Reading(_, q, size, got) => P.ReadTurnKeeps(w.rings[q], w.s.rings[q].writeClosed, size, got);
    case Writing(_, q, data, sent) => P.WriteTurnKeeps(w.rings[q], w.s.rings[q].readClosed, data, sent);
  }

  /** How far the call of the task has come. */
  function SentBy(w: World, pid: nat): nat { if pid in w.calls && w.calls[pid].Writing? then w.calls[pid].sent else 0 }
  function GotBy(w: World, pid: nat): seq<byte> { if pid in w.calls && w.calls[pid].Reading? then w.calls[pid].got else [] }

  /** From w to v the ring has accepted exactly what the task has sent of its data. */
  ghost predicate Handed(w: World, v: World, pid: nat, r: nat, data: seq<byte>) {
    && r in w.rings && r in v.rings && SentBy(w, pid) <= SentBy(v, pid) <= |data|
    && v.rings[r].accepted == w.rings[r].accepted + data[SentBy(w, pid)..SentBy(v, pid)]
  }

  /** And delivered exactly what the task has got. */
  ghost predicate Received(w: World, v: World, pid: nat, r: nat) {
    && r in w.rings && r in v.rings && GotBy(w, pid) <= GotBy(v, pid)
    && v.rings[r].delivered == w.rings[r].delivered + GotBy(v, pid)[|GotBy(w, pid)|..]
  }

  lemma StepOfWriter(w: World, step: Step, pid: nat, r: nat, data: seq<byte>)
    requires Inv(w) && Enabled(w, step) && Writes(w, pid, r, data) && Writes(Do(w, step), pid, r, data)
    ensures Handed(w, Do(w, step), pid, r, data)
  {
    StepKeeps(w, step);
    CallHasRing(w, pid);
    CallHasRing(Do(w, step), pid);
    assert CallFits(w, pid);
    if step == Section(pid) {
      OwnWrite(w, pid, r, data);
    } else {
      OthersLeave(w, step, r);
      CallAlone(w, step, pid);
      assert data[w.calls[pid].sent..w.calls[pid].sent] == [];
    }
  }

  lemma StepOfReader(w: World, step: Step, pid: nat, r: nat)
    requires Inv(w) && Enabled(w, step) && Reads(w, pid, r) && Reads(Do(w, step), pid, r)
    ensures Received(w, Do(w, step), pid, r)
  {
    StepKeeps(w, step);
    CallHasRing(w, pid);
    CallHasRing(Do(w, step), pid);
    if step == Section(pid) {
      OwnRead(w, pid, r);
    } else {
      OthersLeave(w, step, r);
      CallAlone(w, step, pid);
    }
  }

  /** A step that is no section of a task leaves the call it is in. */
  lemma CallAlone(w: World, step: Step, pid: nat)
    requires Inv(w) && Enabled(w, step) && step != Section(pid) && pid in w.calls && pid in Do(w, step).calls
    ensures Do(w, step).calls[pid] == w.calls[pid]
  {
    if step.Section? {
      TurnKeeps(w, step.pid);
    }
  }

  ghost predicate WritesOn(ws: seq<World>, k: nat, pid: nat, r: nat, data: seq<byte>) {
    k < |ws| && Writes(ws[k], pid, r, data)
  }

  ghost predicate ReadsOn(ws: seq<World>, k: nat, pid: nat, r: nat) {
    k < |ws| && Reads(ws[k], pid, r)
  }

  lemma HandedStart(w: World, pid: nat, r: nat, data: seq<byte>)
    requires Inv(w) && Writes(w, pid, r, data)
    ensures Handed(w, w, pid, r, data)
  {
    CallHasRing(w, pid);
    assert CallFits(w, pid);
    assert data[SentBy(w, pid)..SentBy(w, pid)] == [];
  }

  lemma HandedOn(u: World, v: World, w: World, pid: nat, r: nat, data: seq<byte>)
    requires Handed(u, v, pid, r, data) && Handed(v, w, pid, r, data)
    ensures Handed(u, w, pid, r, data)
  {
    PieceGrows(u.rings[r].accepted, data, SentBy(u, pid), SentBy(v, pid), SentBy(w, pid));
  }

  lemma PieceGrows(was: seq<byte>, data: seq<byte>, a: nat, b: nat, c: nat)
    requires a <= b <= c <= |data|
    ensures (was + data[a..b]) + data[b..c] == was + data[a..c]
  {
  }

  lemma ReceivedStart(w: World, pid: nat, r: nat)
    requires Inv(w) && Reads(w, pid, r)
    ensures Received(w, w, pid, r)
  {
    CallHasRing(w, pid);
  }

  lemma ReceivedOn(u: World, v: World, w: World, pid: nat, r: nat)
    requires Received(u, v, pid, r) && Received(v, w, pid, r)
    ensures Received(u, w, pid, r)
  {
    TailGrows(u.rings[r].delivered, GotBy(u, pid), GotBy(v, pid), GotBy(w, pid));
  }

  lemma TailGrows(was: seq<byte>, a: seq<byte>, b: seq<byte>, c: seq<byte>)
    requires a <= b <= c
    ensures (was + b[|a|..]) + c[|b|..] == was + c[|a|..]
  {
  }

  /**
   * While one task alone writes to a ring, whatever else happens: what the ring accepts are the bytes
   * of its call, in order, none left out and none twice.
   */
  lemma {:induction false} LoneWriter(ws: seq<World>, steps: seq<Step>, i: nat, j: nat, pid: nat, r: nat, data: seq<byte>)
    requires IsRun(ws, steps) && i <= j < |ws| && forall k: nat {:trigger WritesOn(ws, k, pid, r, data)} :: i <= k <= j ==> WritesOn(ws, k, pid, r, data)
    ensures Handed(ws[i], ws[j], pid, r, data)
    decreases j
  {
    assert WritesOn(ws, j, pid, r, data);
    if i < j {
      assert WritesOn(ws, j - 1, pid, r, data);
      LoneWriter(ws, steps, i, j - 1, pid, r, data);
      ReachableInv(ws, steps, j - 1);
      assert RunAt(ws, steps, j - 1);
      StepOfWriter(ws[j - 1], steps[j - 1], pid, r, data);
      HandedOn(ws[i], ws[j - 1], ws[j], pid, r, data);
    } else {
      ReachableInv(ws, steps, j);
      HandedStart(ws[j], pid, r, data);
    }
  }

  /** While one task alone reads from a ring, it gets exactly what the ring delivers. */
  lemma {:induction false} LoneReader(ws: seq<World>, steps: seq<Step>, i: nat, j: nat, pid: nat, r: nat)
    requires IsRun(ws, steps) && i <= j < |ws| && forall k: nat {:trigger ReadsOn(ws, k, pid, r)} :: i <= k <= j ==> ReadsOn(ws, k, pid, r)
    ensures Received(ws[i], ws[j], pid, r)
    decreases j
  {
    assert ReadsOn(ws, j, pid, r);
    if i < j {
      assert ReadsOn(ws, j - 1, pid, r);
      LoneReader(ws, steps, i, j - 1, pid, r);
      ReachableInv(ws, steps, j - 1);
      assert RunAt(ws, steps, j - 1);
      StepOfReader(ws[j - 1], steps[j - 1], pid, r);
      ReceivedOn(ws[i], ws[j - 1], ws[j], pid, r);
    } else {
      ReachableInv(ws, steps, j);
      ReceivedStart(ws[j], pid, r);
    }
  }

  /** A write ends short only when nobody reads any more; while somebody does, it waits for room. */
  lemma ShortWriteMeansClosed(ws: seq<World>, steps: seq<Step>, i: nat, pid: nat)
    requires IsRun(ws, steps) && i < |steps| && steps[i] == Section(pid) && pid in ws[i].calls && ws[i].calls[pid].Writing?
    ensures var c := ws[i].calls[pid];
            && c.ring in ws[i].s.rings
            && (pid !in ws[i + 1].calls <==> c.sent == |c.data| || ws[i].s.rings[c.ring].readClosed)
            && (ws[i].s.rings[c.ring].readClosed ==> D.Holders(ws[i].s, c.ring + 1) == 0)
  {
    ReachableInv(ws, steps, i);
    assert RunAt(ws, steps, i);
    CallHasRing(ws[i], pid);
    assert CallFits(ws[i], pid);
    var c := ws[i].calls[pid];
    P.WriterGoesOn(ws[i].rings[c.ring], ws[i].s.rings[c.ring].readClosed, c.data, c.sent);
    D.RingLives(ws[i].s, c.ring);
  }
}
