/**
 * The scheduler of src/kernel/arch/x86/task/task.c as a state machine.
 *
 * `list` is the linked list headed by `task_list` (head first) and `tab` holds the task
 * structures it links, by pid.  Every function below is the effect of one section that
 * the source runs under `task_lock`; a step of the machine is one such section.
 */
module TaskModel {
  datatype TaskState = Ready | Running | Waiting | Blocked | Sleeping | Dead

  const PRIORITY_NORMAL := 2
  const PRIORITY_MAX := 4
  const STARVATION_THRESHOLD := 50
  const NSIG := 32
  const SIGKILL := 9
  const SIG_DFL: nat := 0
  const SIG_IGN: nat := 1
  /** The pointer -1. */
  const SIG_ERR: nat := 0xFFFF_FFFF
  /** The pid of the idle task, the second that task_initialize makes. */
  const IDLE: nat := 2

  datatype Task = Task(
    state: TaskState,
    basePriority: nat,
    dynamicPriority: nat,
    waitTicks: nat,
    sliceRemaining: nat,
    cpuTicks: nat,
    waitingOn: nat,
    wakeTick: nat,
    parent: nat,
    exitStatus: int,
    isZombie: bool,
    isUser: bool,
    yieldRequested: bool,
    pending: set<nat>,
    masked: set<nat>,
    handlers: map<nat, nat>)

  /** pid 0 stands for the null task pointer; real pids start at 1. */
  datatype Sched = Sched(
    list: seq<nat>,
    tab: map<nat, Task>,
    current: nat,
    nextPid: nat,
    needsCleanup: bool)

  datatype Event =
    | Yield
    | Tick(now: nat)
    | Block
    | Unblock(pid: nat)
    | SetPriority(pid: nat, priority: nat)
    | Sleep(now: nat, ticks: nat)
    | Wake(pid: nat)
    | RequestYield
    | Exit(status: int)
    | Wait(pid: nat)
    | Signal(pid: nat, sig: int)
    | CheckSignals
    | SetHandler(sig: int, handler: nat)
    | Create(user: bool)
    | Reap

  function Quantum(priority: nat): nat {
    match priority
    case 0 => 2
    case 1 => 5
    case 2 => 10
    case 3 => 20
    case 4 => 30
    case _ => 10
  }

  // ---------- task_find_next_ready ----------

  function AgeTask(t: Task): Task {
    if t.waitTicks + 1 >= STARVATION_THRESHOLD && t.dynamicPriority < PRIORITY_MAX
    then t.(waitTicks := 0, dynamicPriority := t.dynamicPriority + 1)
    else t.(waitTicks := t.waitTicks + 1)
  }

  function AgeIn(t: Task, isCurrent: bool): Task {
    if !isCurrent && t.state.Ready? then AgeTask(t) else t
  }

  /** Every task waiting in the ready queue ages by one pass. */
  ghost function Aged(tab: map<nat, Task>, current: nat): map<nat, Task> {
    map p | p in tab :: AgeIn(tab[p], p == current)
  }

  predicate Candidate(t: Task, isCurrent: bool) {
    t.state.Ready? || (isCurrent && t.state.Running?)
  }

  predicate Beats(a: Task, b: Task) {
    a.dynamicPriority > b.dynamicPriority ||
    (a.dynamicPriority == b.dynamicPriority && a.waitTicks > b.waitTicks)
  }

  ghost predicate Listed(list: seq<nat>, tab: map<nat, Task>) {
    && (forall i :: 0 <= i < |list| ==> list[i] in tab)
    && (forall i, j :: 0 <= i < j < |list| ==> list[i] != list[j])
    && (forall p :: p in tab ==> p in list)
  }

  /** list[k] is a candidate no other candidate beats, and the first such in list order. */
  ghost predicate IsBest(list: seq<nat>, tab: map<nat, Task>, current: nat, k: nat)
    requires Listed(list, tab)
  {
    && k < |list|
    && Candidate(tab[list[k]], list[k] == current)
    && (forall j :: 0 <= j < |list| && Candidate(tab[list[j]], list[j] == current) ==>
          !Beats(tab[list[j]], tab[list[k]]))
    && (forall j :: 0 <= j < k && Candidate(tab[list[j]], list[j] == current) ==>
          Beats(tab[list[k]], tab[list[j]]))
  }

  /** The pid the pass selects, or 0. */
  ghost function Next(list: seq<nat>, tab: map<nat, Task>, current: nat): nat
    requires Listed(list, tab)
  {
    if k: nat :| IsBest(list, tab, current, k) then list[k] else 0
  }

  // ---------- task_yield ----------

  function Dispatched(t: Task): Task {
    t.(state := Running, dynamicPriority := t.basePriority, waitTicks := 0,
       sliceRemaining := Quantum(t.basePriority))
  }

  function Preempted(t: Task): Task {
    if t.state.Running? then t.(state := Ready) else t
  }

  function Renewed(t: Task): Task {
    if t.state.Running? then t.(sliceRemaining := Quantum(t.basePriority)) else t
  }

  ghost predicate Shape(s: Sched) {
    Listed(s.list, s.tab) && s.current in s.tab
  }

  /** The pid that is current after the pass. */
  ghost function Elected(s: Sched): nat
    requires Shape(s)
  {
    var next := Next(s.list, Aged(s.tab, s.current), s.current);
    if next == 0 then s.current else next
  }

  function YieldTask(t: Task, p: nat, current: nat, elected: nat): Task {
    var a := AgeIn(t, p == current);
    if elected == current then (if p == current then Renewed(a) else a)
    else if p == elected then Dispatched(a)
    else if p == current then Preempted(a)
    else a
  }

  ghost function AfterYield(s: Sched): Sched
    requires Shape(s)
  {
    var next := Elected(s);
    s.(tab := map p | p in s.tab :: YieldTask(s.tab[p], p, s.current, next), current := next)
  }

  // ---------- task_schedule_tick, up to its call of task_yield ----------

  function WakeIfExpired(t: Task, now: nat): Task {
    if t.state.Sleeping? && t.wakeTick != 0 && now >= t.wakeTick
    then t.(state := Ready, wakeTick := 0, waitTicks := 0)
    else t
  }

  ghost function Woken(tab: map<nat, Task>, now: nat): map<nat, Task> {
    map p | p in tab :: WakeIfExpired(tab[p], now)
  }

  predicate OffCpu(t: Task) {
    t.state.Dead? || t.state.Blocked? || t.state.Sleeping? || t.state.Waiting?
  }

  function Charge(t: Task): Task {
    var t1 := t.(cpuTicks := t.cpuTicks + 1);
    if t1.yieldRequested then t1.(yieldRequested := false)
    else
      var t2 := if t1.sliceRemaining > 0 then t1.(sliceRemaining := t1.sliceRemaining - 1) else t1;
      if t2.sliceRemaining == 0 && t2.state.Running? then t2.(state := Ready) else t2
  }

  ghost function AfterTick(s: Sched, now: nat): Sched
    requires Shape(s)
  {
    var tab := Woken(s.tab, now);
    if OffCpu(tab[s.current]) then s.(tab := tab)
    else s.(tab := tab[s.current := Charge(tab[s.current])])
  }

  /** Whether the tick goes on to call task_yield. */
  ghost predicate TickYields(s: Sched, now: nat)
    requires Shape(s)
  {
    var t := Woken(s.tab, now)[s.current];
    t.state.Dead? || (!OffCpu(t) && (t.yieldRequested || t.sliceRemaining <= 1))
  }

  // ---------- exit, wait, signals ----------

  function Notified(t: Task, pid: nat, status: int): Task {
    if t.state.Waiting? && t.waitingOn == pid
    then t.(state := Ready, waitingOn := 0, exitStatus := status)
    else t
  }

  ghost predicate Awaited(tab: map<nat, Task>, pid: nat) {
    exists p :: p in tab && p != pid && tab[p].state.Waiting? && tab[p].waitingOn == pid
  }

  ghost function AfterExit(s: Sched, status: int): Sched
    requires Shape(s)
  {
    var me := s.tab[s.current].(state := Dead, exitStatus := status, isZombie := !Awaited(s.tab, s.current));
    s.(tab := map p | p in s.tab :: if p == s.current then me else Notified(s.tab[p], s.current, status),
       needsCleanup := true)
  }

  function AfterWait(s: Sched, pid: nat): Sched
    requires s.current in s.tab
  {
    if pid !in s.tab then s
    else if s.tab[pid].state.Dead? then
      var tab := s.tab[s.current := s.tab[s.current].(exitStatus := s.tab[pid].exitStatus, waitingOn := 0)];
      s.(tab := tab[pid := tab[pid].(isZombie := false)], needsCleanup := true)
    else
      s.(tab := s.tab[s.current := s.tab[s.current].(state := Waiting, waitingOn := pid, wakeTick := 0)])
  }

  predicate Interruptible(t: Task) { t.state.Blocked? || t.state.Sleeping? || t.state.Waiting? }

  function Signalled(t: Task, sig: nat): Task {
    var t1 := t.(pending := t.pending + {sig});
    if Interruptible(t1)
    then t1.(state := Ready, wakeTick := 0, sliceRemaining := Quantum(t1.basePriority))
    else t1
  }

  function AfterSignal(s: Sched, pid: nat, sig: int): Sched {
    if sig <= 0 || sig >= NSIG || pid !in s.tab || s.tab[pid].state.Dead? then s
    else s.(tab := s.tab[pid := Signalled(s.tab[pid], sig)])
  }

  /** SIGINT, SIGILL, SIGABRT, SIGFPE, SIGKILL, SIGSEGV and SIGTERM. */
  predicate Fatal(sig: nat) { sig == 2 || sig == 4 || sig == 6 || sig == 8 || sig == 9 || sig == 11 || sig == 15 }

  /** The handler of a signal; those never set are SIG_DFL. */
  function Handler(t: Task, sig: nat): nat { if sig in t.handlers then t.handlers[sig] else SIG_DFL }

  predicate Kills(t: Task, sig: nat) {
    1 <= sig < NSIG && sig in t.pending && sig !in t.masked && Handler(t, sig) != SIG_IGN && Fatal(sig)
  }

  ghost predicate KillsFirst(t: Task, sig: nat) {
    Kills(t, sig) && forall g: nat :: g < sig ==> !Kills(t, g)
  }

  /** The least deliverable signal that kills, or NSIG. */
  ghost function FirstKill(t: Task): (r: nat)
    ensures r <= NSIG
  {
    if g: nat :| KillsFirst(t, g) then g else NSIG
  }

  /** What is still pending once the deliverable signals up to `limit` are consumed. */
  function Left(t: Task, limit: nat): set<nat> {
    set g | g in t.pending && !(1 <= g < NSIG && g <= limit && g !in t.masked)
  }

  function Consumed(t: Task, limit: nat): Task {
    t.(pending := Left(t, limit))
  }

  ghost function AfterCheckSignals(s: Sched): Sched
    requires Shape(s)
  {
    var t := s.tab[s.current];
    if !t.isUser || t.state.Dead? then s
    else
      var k := FirstKill(t);
      var s1 := s.(tab := s.tab[s.current := Consumed(t, k)]);
      if k == NSIG then s1 else AfterExit(s1, 128 + k)
  }

  // ---------- small transitions on one task ----------

  function AfterBlock(s: Sched): Sched
    requires s.current in s.tab
  {
    s.(tab := s.tab[s.current := s.tab[s.current].(state := Blocked, sliceRemaining := 0)])
  }

  function AfterUnblock(s: Sched, pid: nat): Sched {
    if pid in s.tab && s.tab[pid].state.Blocked? then
      s.(tab := s.tab[pid := s.tab[pid].(state := Ready, waitTicks := 0,
                                         sliceRemaining := Quantum(s.tab[pid].basePriority))])
    else s
  }

  function AfterSetPriority(s: Sched, pid: nat, priority: nat): Sched {
    var p := if priority > PRIORITY_MAX then PRIORITY_MAX else priority;
    if pid in s.tab then s.(tab := s.tab[pid := s.tab[pid].(basePriority := p, dynamicPriority := p)])
    else s
  }

  function AfterSleep(s: Sched, now: nat, ticks: nat): Sched
    requires s.current in s.tab
  {
    if ticks == 0 then s
    else s.(tab := s.tab[s.current := s.tab[s.current].(state := Sleeping, wakeTick := now + ticks, sliceRemaining := 0)])
  }

  function AfterWake(s: Sched, pid: nat): Sched {
    if pid in s.tab && s.tab[pid].state.Sleeping? then
      s.(tab := s.tab[pid := s.tab[pid].(state := Ready, wakeTick := 0, waitTicks := 0,
                                         sliceRemaining := Quantum(s.tab[pid].basePriority))])
    else s
  }

  function AfterRequestYield(s: Sched): Sched
    requires s.current in s.tab
  {
    s.(tab := s.tab[s.current := s.tab[s.current].(yieldRequested := true)])
  }

  function FreshTask(parent: nat, user: bool): Task {
    Task(Ready, PRIORITY_NORMAL, PRIORITY_NORMAL, 0, Quantum(PRIORITY_NORMAL), 0, 0, 0, parent, 0,
         false, user, false, {}, {}, map[])
  }

  /** task_set_signal_handler; SIGKILL is refused. */
  function AfterSetHandler(s: Sched, sig: int, handler: nat): Sched
    requires s.current in s.tab
  {
    if sig <= 0 || sig >= NSIG || sig == SIGKILL then s
    else
      var t := s.tab[s.current];
      s.(tab := s.tab[s.current := t.(handlers := t.handlers[sig as nat := handler])])
  }

  /** New tasks are linked in at the head of the list. */
  function AfterCreate(s: Sched, user: bool): Sched {
    s.(list := [s.nextPid] + s.list,
       tab := s.tab[s.nextPid := FreshTask(s.current, user)],
       nextPid := s.nextPid + 1)
  }

  // ---------- task_can_reap and the idle task's sweep ----------

  predicate CanReap(tab: map<nat, Task>, pid: nat)
    requires pid in tab
  {
    var t := tab[pid];
    && t.state.Dead?
    && (|| !t.isZombie
        || t.parent == 0
        || t.parent !in tab
        || tab[t.parent].state.Dead?
        || (tab[t.parent].state.Waiting? && tab[t.parent].waitingOn == pid))
  }

  ghost function Survivors(tab: map<nat, Task>): set<nat> {
    set p | p in tab && !CanReap(tab, p)
  }

  /** The list with every pid outside `keep` unlinked. */
  function Keep(list: seq<nat>, keep: set<nat>): seq<nat>
  {
    if list == [] then []
    else if list[0] in keep then [list[0]] + Keep(list[1..], keep)
    else Keep(list[1..], keep)
  }

  ghost function AfterReap(s: Sched): Sched {
    s.(list := Keep(s.list, Survivors(s.tab)),
       tab := map p | p in Survivors(s.tab) :: s.tab[p],
       needsCleanup := false)
  }

  // ---------- the machine ----------

  /** A task takes steps of its own only while it is current and neither ended nor parked
      (YieldLeavesParked shows that a parked task does not go on executing).  The idle task
      sweeps and halts; it never ends or parks itself. */
  ghost predicate Enabled(s: Sched, e: Event) {
    && Shape(s)
    && (e.Block? || e.Sleep? || e.Exit? || e.Wait? || e.RequestYield? || e.Create? || e.Reap? || e.CheckSignals? || e.SetHandler? ==>
          !OffCpu(s.tab[s.current]))
    && (e.Block? || e.Sleep? || e.Exit? || e.Wait? ==> s.current != IDLE)
  }

  ghost function Step(s: Sched, e: Event): Sched
    requires Enabled(s, e)
  {
    match e
    case Yield => AfterYield(s)
    case Tick(now) => AfterTick(s, now)
    case Block => AfterBlock(s)
    case Unblock(pid) => AfterUnblock(s, pid)
    case SetPriority(pid, priority) => AfterSetPriority(s, pid, priority)
    case Sleep(now, ticks) => AfterSleep(s, now, ticks)
    case Wake(pid) => AfterWake(s, pid)
    case RequestYield => AfterRequestYield(s)
    case Exit(status) => AfterExit(s, status)
    case Wait(pid) => AfterWait(s, pid)
    case Signal(pid, sig) => AfterSignal(s, pid, sig)
    case CheckSignals => AfterCheckSignals(s)
    case SetHandler(sig, handler) => AfterSetHandler(s, sig, handler)
    case Create(user) => AfterCreate(s, user)
    case Reap => AfterReap(s)
  }

  /** The state task_initialize leaves: the shell task running, the idle task behind it. */
  function Boot(): Sched {
    var root := FreshTask(0, false).(state := Running);
    var idle := FreshTask(1, false).(basePriority := 0, dynamicPriority := 0);
    Sched([2, 1], map[1 := root, 2 := idle], 1, 3, false)
  }
}
