/**
 * What every step of the scheduler keeps, over every run from boot.
 */
module TaskInvariant {
  import opened TaskModel

  /** A task that is not queued, or is current, carries no ageing. */
  predicate Rested(t: Task) { t.waitTicks == 0 && t.dynamicPriority == t.basePriority }

  ghost predicate PidsFresh(s: Sched) {
    && 0 !in s.tab
    && (forall p :: p in s.tab ==> p < s.nextPid && s.tab[p].parent < s.nextPid)
  }

  ghost predicate OnlyCurrentRuns(s: Sched) {
    forall p :: p in s.tab && s.tab[p].state.Running? ==> p == s.current
  }

  /** No lost wake-up: whoever waits, waits for a listed task that has not exited. */
  ghost predicate WaitersHaveLiveTargets(s: Sched) {
    forall p :: p in s.tab && s.tab[p].state.Waiting? ==>
      s.tab[p].waitingOn in s.tab && !s.tab[s.tab[p].waitingOn].state.Dead?
  }

  ghost predicate AgeingOnlyInQueue(s: Sched) {
    && (forall p :: p in s.tab ==> s.tab[p].dynamicPriority <= PRIORITY_MAX && s.tab[p].basePriority <= PRIORITY_MAX)
    && (forall p :: p in s.tab && (!s.tab[p].state.Ready? || p == s.current) ==> Rested(s.tab[p]))
  }

  ghost predicate NothingToReap(s: Sched) {
    forall p :: p in s.tab ==> !CanReap(s.tab, p)
  }

  ghost predicate Inv(s: Sched) {
    && Shape(s)
    && PidsFresh(s)
    && OnlyCurrentRuns(s)
    && WaitersHaveLiveTargets(s)
    && AgeingOnlyInQueue(s)
    && (!s.needsCleanup ==> NothingToReap(s))
  }

  lemma BootInv()
    ensures Inv(Boot())
  {
    var s := Boot();
    assert s.list[0] == 2 && s.list[1] == 1;
  }

  lemma {:induction false} KeepMembers(list: seq<nat>, keep: set<nat>)
    ensures forall p :: p in Keep(list, keep) <==> p in list && p in keep
  {
    if list != [] {
      KeepMembers(list[1..], keep);
      assert list == [list[0]] + list[1..];
    }
  }

  lemma {:induction false} KeepDistinct(list: seq<nat>, keep: set<nat>)
    requires forall i, j :: 0 <= i < j < |list| ==> list[i] != list[j]
    ensures forall i, j :: 0 <= i < j < |Keep(list, keep)| ==> Keep(list, keep)[i] != Keep(list, keep)[j]
  {
    if list != [] {
      KeepDistinct(list[1..], keep);
      KeepMembers(list[1..], keep);
      assert list[0] !in list[1..];
    }
  }

  /** Removing tasks that can be reaped makes no other task reapable. */
  lemma ReapLeavesNothing(s: Sched)
    ensures NothingToReap(AfterReap(s))
  {
    var s' := AfterReap(s);
    forall p | p in s'.tab ensures !CanReap(s'.tab, p) {
      assert !CanReap(s.tab, p);
      var q := s.tab[p].parent;
      if q in s.tab && !s.tab[q].state.Dead? {
        assert q in Survivors(s.tab);
      }
    }
  }

  lemma ExitKeepsInv(s: Sched, status: int)
    requires Inv(s) && !s.tab[s.current].state.Dead?
    ensures Inv(AfterExit(s, status))
  {
    var s' := AfterExit(s, status);
    assert s'.tab.Keys == s.tab.Keys;
    forall p | p in s'.tab && s'.tab[p].state.Waiting?
      ensures s'.tab[p].waitingOn in s'.tab && !s'.tab[s'.tab[p].waitingOn].state.Dead?
    {
      assert s.tab[p].state.Waiting? && s.tab[p].waitingOn != s.current;
    }
  }

  lemma ReapKeepsInv(s: Sched)
    requires Inv(s) && !s.tab[s.current].state.Dead?
    ensures Inv(AfterReap(s))
  {
    var s' := AfterReap(s);
    KeepDistinct(s.list, Survivors(s.tab));
    KeepMembers(s.list, Survivors(s.tab));
    ReapLeavesNothing(s);
    assert forall i :: 0 <= i < |s'.list| ==> s'.list[i] in s'.list;
    assert s.current in Survivors(s.tab);
  }

  lemma CreateKeepsList(s: Sched, user: bool)
    requires Shape(s) && s.nextPid !in s.tab
    ensures Shape(AfterCreate(s, user))
  {
    var s' := AfterCreate(s, user);
    assert s'.list[0] == s.nextPid && s'.list[1..] == s.list;
    forall p | p in s'.tab ensures p in s'.list {
      if p != s.nextPid {
        assert p in s.list;
      }
    }
  }

  lemma CreateKeepsReaped(s: Sched, user: bool)
    requires PidsFresh(s) && NothingToReap(s)
    ensures NothingToReap(AfterCreate(s, user))
  {
    var s' := AfterCreate(s, user);
    forall p | p in s'.tab ensures !CanReap(s'.tab, p) {
      if p != s.nextPid {
        assert !CanReap(s.tab, p);
      }
    }
  }

  lemma CreateKeepsInv(s: Sched, user: bool)
    requires Inv(s)
    ensures Inv(AfterCreate(s, user))
  {
    var s' := AfterCreate(s, user);
    CreateKeepsList(s, user);
    if !s.needsCleanup {
      CreateKeepsReaped(s, user);
    }
    forall p | p in s'.tab && s'.tab[p].state.Waiting?
      ensures s'.tab[p].waitingOn in s'.tab && !s'.tab[s'.tab[p].waitingOn].state.Dead?
    {
      assert s.tab[p] == s'.tab[p];
    }
  }

  /** What a rewritten task may look like, with `cur` current, when no task ends. */
  ghost predicate Fits(s: Sched, cur: nat, p: nat, t: Task)
    requires p in s.tab
  {
    && t.parent == s.tab[p].parent
    && t.isZombie == s.tab[p].isZombie
    && (t.state.Dead? <==> s.tab[p].state.Dead?)
    && (t.state.Running? ==> p == cur)
    && (t.state.Waiting? ==> t.waitingOn in s.tab && !s.tab[t.waitingOn].state.Dead?)
    && t.dynamicPriority <= PRIORITY_MAX && t.basePriority <= PRIORITY_MAX
    && (!t.state.Ready? || p == cur ==> Rested(t))
  }

  lemma RewriteKeepsInv(s: Sched, s': Sched)
    requires Inv(s)
    requires s'.list == s.list && s'.nextPid == s.nextPid && s'.needsCleanup == s.needsCleanup
    requires s'.tab.Keys == s.tab.Keys && s'.current in s.tab
    requires forall p :: p in s.tab ==> Fits(s, s'.current, p, s'.tab[p])
    ensures Inv(s')
  {
    assert Listed(s'.list, s'.tab);
    if !s'.needsCleanup {
      forall p | p in s'.tab ensures !CanReap(s'.tab, p) {
        assert !CanReap(s.tab, p) && Fits(s, s'.current, p, s'.tab[p]);
        var q := s.tab[p].parent;
        if q in s.tab {
          assert Fits(s, s'.current, q, s'.tab[q]);
        }
      }
    }
  }

  /** The same for a step that rewrites one task. */
  lemma UpdateKeepsInv(s: Sched, p: nat, t: Task)
    requires Inv(s) && p in s.tab && Fits(s, s.current, p, t)
    ensures Inv(s.(tab := s.tab[p := t]))
  {
    var s' := s.(tab := s.tab[p := t]);
    forall q | q in s.tab ensures Fits(s, s'.current, q, s'.tab[q]) {
    }
    RewriteKeepsInv(s, s');
  }

  /** IsBest among the first n tasks of the list. */
  ghost predicate BestUpTo(list: seq<nat>, tab: map<nat, Task>, current: nat, n: nat, k: nat)
    requires Listed(list, tab)
  {
    && k < n <= |list|
    && Candidate(tab[list[k]], list[k] == current)
    && (forall j :: 0 <= j < n && Candidate(tab[list[j]], list[j] == current) ==>
          !Beats(tab[list[j]], tab[list[k]]))
    && (forall j :: 0 <= j < k && Candidate(tab[list[j]], list[j] == current) ==>
          Beats(tab[list[k]], tab[list[j]]))
  }

  /** The best so far, or -1 when no candidate has been seen. */
  ghost predicate BestSoFar(list: seq<nat>, tab: map<nat, Task>, current: nat, n: nat, k: int)
    requires Listed(list, tab) && n <= |list|
  {
    if k < 0 then forall j :: 0 <= j < n ==> !Candidate(tab[list[j]], list[j] == current)
    else BestUpTo(list, tab, current, n, k)
  }

  lemma BestAdvances(list: seq<nat>, tab: map<nat, Task>, current: nat, n: nat, k: int)
    requires Listed(list, tab) && n < |list| && k < n && BestSoFar(list, tab, current, n, k)
    ensures var t := tab[list[n]];
            BestSoFar(list, tab, current, n + 1,
                      if Candidate(t, list[n] == current) && (k < 0 || Beats(t, tab[list[k]])) then n else k)
  {
  }

  /** A pass over a list with a candidate selects one. */
  lemma BestExists(list: seq<nat>, tab: map<nat, Task>, current: nat, q: nat)
    requires Listed(list, tab) && q in tab && Candidate(tab[q], q == current)
    ensures exists k: nat :: IsBest(list, tab, current, k)
  {
    var n, best := 0, -1;
    while n < |list|
      invariant 0 <= n <= |list| && -1 <= best < n
      invariant BestSoFar(list, tab, current, n, best)
    {
      BestAdvances(list, tab, current, n, best);
      var t := tab[list[n]];
      if Candidate(t, list[n] == current) && (best < 0 || Beats(t, tab[list[best]])) {
        best := n;
      }
      n := n + 1;
    }
    var i :| 0 <= i < |list| && list[i] == q;
    assert best >= 0 && IsBest(list, tab, current, best);
  }

  /** A pass dispatches a task only from the ready queue. */
  lemma NextIsReady(s: Sched)
    requires Inv(s)
    ensures AfterYield(s).current in s.tab
    ensures AfterYield(s).current != s.current ==> s.tab[AfterYield(s).current].state.Ready?
  {
    var aged := Aged(s.tab, s.current);
    if AfterYield(s).current != s.current {
      var k: nat :| IsBest(s.list, aged, s.current, k) && s.list[k] == AfterYield(s).current;
    }
  }

  lemma YieldFits(s: Sched, p: nat, next: nat)
    requires p in s.tab && Fits(s, s.current, p, s.tab[p])
    requires next != s.current && p == next ==> s.tab[p].state.Ready?
    ensures Fits(s, next, p, YieldTask(s.tab[p], p, s.current, next))
  {
  }

  lemma YieldKeepsInv(s: Sched)
    requires Inv(s)
    ensures Inv(AfterYield(s))
  {
    var s' := AfterYield(s);
    NextIsReady(s);
    forall p | p in s.tab ensures Fits(s, s'.current, p, s'.tab[p]) {
      YieldFits(s, p, s'.current);
    }
    RewriteKeepsInv(s, s');
  }

  lemma WokenFits(s: Sched, current: nat, p: nat, t: Task, now: nat)
    requires p in s.tab && Fits(s, current, p, t)
    ensures Fits(s, current, p, WakeIfExpired(t, now))
  {
  }

  lemma ChargedFits(s: Sched, p: nat, t: Task)
    requires p in s.tab && Fits(s, s.current, p, t) && p == s.current && !OffCpu(t)
    ensures Fits(s, s.current, p, Charge(t))
  {
  }

  lemma TickFits(s: Sched, now: nat, p: nat)
    requires Shape(s) && p in s.tab && Fits(s, s.current, p, s.tab[p])
    ensures Fits(s, s.current, p, AfterTick(s, now).tab[p])
  {
    WokenFits(s, s.current, p, s.tab[p], now);
    var t := Woken(s.tab, now)[p];
    if p == s.current && !OffCpu(t) {
      ChargedFits(s, p, t);
    }
  }

  lemma TickKeepsInv(s: Sched, now: nat)
    requires Inv(s)
    ensures Inv(AfterTick(s, now))
  {
    var s' := AfterTick(s, now);
    forall p | p in s.tab ensures Fits(s, s'.current, p, s'.tab[p]) {
      TickFits(s, now, p);
    }
    RewriteKeepsInv(s, s');
  }

  lemma WaitKeepsInv(s: Sched, pid: nat)
    requires Inv(s) && !OffCpu(s.tab[s.current])
    ensures Inv(AfterWait(s, pid))
  {
    if pid in s.tab {
      var t := s.tab[s.current];
      if s.tab[pid].state.Dead? {
        var t' := t.(exitStatus := s.tab[pid].exitStatus, waitingOn := 0);
        UpdateKeepsInv(s, s.current, t');
        AcknowledgeKeepsInv(s.(tab := s.tab[s.current := t']), pid);
      } else {
        UpdateKeepsInv(s, s.current, t.(state := Waiting, waitingOn := pid, wakeTick := 0));
      }
    }
  }

  lemma AcknowledgeKeepsInv(s: Sched, pid: nat)
    requires Inv(s) && pid in s.tab && s.tab[pid].state.Dead?
    ensures Inv(s.(tab := s.tab[pid := s.tab[pid].(isZombie := false)], needsCleanup := true))
  {
    var s' := s.(tab := s.tab[pid := s.tab[pid].(isZombie := false)], needsCleanup := true);
    SameListed(s, s');
    forall p | p in s'.tab ensures s'.tab[p].(isZombie := s.tab[p].isZombie) == s.tab[p] {
    }
  }

  lemma SameListed(s: Sched, s': Sched)
    requires Shape(s) && s'.list == s.list && s'.tab.Keys == s.tab.Keys && s'.current == s.current
    ensures Shape(s')
  {
  }

  lemma ConsumeKeepsInv(s: Sched, k: nat)
    requires Inv(s)
    ensures Inv(s.(tab := s.tab[s.current := Consumed(s.tab[s.current], k)]))
  {
    UpdateKeepsInv(s, s.current, Consumed(s.tab[s.current], k));
  }

  lemma CheckSignalsKeepsInv(s: Sched)
    requires Inv(s)
    ensures Inv(AfterCheckSignals(s))
  {
    var s', k := SignalsConsumed(s);
    ConsumeKeepsInv(s, k);
    if k != NSIG {
      ExitKeepsInv(s', 128 + k);
    }
  }

  /** The state before a signal that kills takes effect. */
  lemma SignalsConsumed(s: Sched) returns (s': Sched, k: nat)
    requires Shape(s)
    ensures s' == s || s' == s.(tab := s.tab[s.current := Consumed(s.tab[s.current], k)])
    ensures AfterCheckSignals(s) == if k == NSIG then s' else AfterExit(s', 128 + k)
    ensures k != NSIG ==> s'.current in s'.tab && !s'.tab[s'.current].state.Dead?
  {
    var t := s.tab[s.current];
    s', k := s, NSIG;
    if t.isUser && !t.state.Dead? {
      k := FirstKill(t);
      s' := s.(tab := s.tab[s.current := Consumed(t, k)]);
    }
  }

  /** Every locked section of task.c keeps the invariant. */
  lemma StepKeepsInv(s: Sched, e: Event)
    requires Inv(s) && Enabled(s, e)
    ensures Inv(Step(s, e))
  {
    match e
    case Yield => YieldKeepsInv(s);
    case Tick(now) => TickKeepsInv(s, now);
    case Exit(status) => ExitKeepsInv(s, status);
    case Wait(pid) => WaitKeepsInv(s, pid);
    case CheckSignals => CheckSignalsKeepsInv(s);
    case Create(user) => CreateKeepsInv(s, user);
    case Reap => ReapKeepsInv(s);
    case Block => BlockKeepsInv(s);
    case Sleep(now, ticks) => SleepKeepsInv(s, now, ticks);
    case RequestYield => RequestKeepsInv(s);
    case Unblock(p) => UnblockKeepsInv(s, p);
    case Wake(p) => WakeKeepsInv(s, p);
    case SetPriority(p, priority) => SetPriorityKeepsInv(s, p, priority);
    case Signal(p, sig) => SignalKeepsInv(s, p, sig);
    case SetHandler(sig, handler) => SetHandlerKeepsInv(s, sig, handler);
  }

  lemma BlockKeepsInv(s: Sched)
    requires Inv(s) && !OffCpu(s.tab[s.current])
    ensures Inv(AfterBlock(s))
  {
    UpdateKeepsInv(s, s.current, AfterBlock(s).tab[s.current]);
  }

  lemma SleepKeepsInv(s: Sched, now: nat, ticks: nat)
    requires Inv(s) && !OffCpu(s.tab[s.current])
    ensures Inv(AfterSleep(s, now, ticks))
  {
    if ticks != 0 {
      UpdateKeepsInv(s, s.current, AfterSleep(s, now, ticks).tab[s.current]);
    }
  }

  lemma RequestKeepsInv(s: Sched)
    requires Inv(s)
    ensures Inv(AfterRequestYield(s))
  {
    UpdateKeepsInv(s, s.current, AfterRequestYield(s).tab[s.current]);
  }

  lemma UnblockKeepsInv(s: Sched, p: nat)
    requires Inv(s)
    ensures Inv(AfterUnblock(s, p))
  {
    if p in s.tab && s.tab[p].state.Blocked? {
      UpdateKeepsInv(s, p, AfterUnblock(s, p).tab[p]);
    }
  }

  lemma WakeKeepsInv(s: Sched, p: nat)
    requires Inv(s)
    ensures Inv(AfterWake(s, p))
  {
    if p in s.tab && s.tab[p].state.Sleeping? {
      UpdateKeepsInv(s, p, AfterWake(s, p).tab[p]);
    }
  }

  lemma SetPriorityKeepsInv(s: Sched, p: nat, priority: nat)
    requires Inv(s)
    ensures Inv(AfterSetPriority(s, p, priority))
  {
    if p in s.tab {
      PriorityKeepsInv(s, p, if priority > PRIORITY_MAX then PRIORITY_MAX else priority);
    }
  }

  lemma SignalKeepsInv(s: Sched, p: nat, sig: int)
    requires Inv(s)
    ensures Inv(AfterSignal(s, p, sig))
  {
    if AfterSignal(s, p, sig) != s {
      UpdateKeepsInv(s, p, Signalled(s.tab[p], sig));
    }
  }

  lemma SetHandlerKeepsInv(s: Sched, sig: int, handler: nat)
    requires Inv(s)
    ensures Inv(AfterSetHandler(s, sig, handler))
  {
    UpdateKeepsInv(s, s.current, AfterSetHandler(s, sig, handler).tab[s.current]);
    assert s.tab[s.current := s.tab[s.current]] == s.tab;
  }

  lemma PriorityKeepsInv(s: Sched, p: nat, priority: nat)
    requires Inv(s) && p in s.tab && priority <= PRIORITY_MAX
    ensures Inv(s.(tab := s.tab[p := s.tab[p].(basePriority := priority, dynamicPriority := priority)]))
  {
    UpdateKeepsInv(s, p, s.tab[p].(basePriority := priority, dynamicPriority := priority));
  }

  // ---------- runs ----------

  ghost predicate IsRun(states: seq<Sched>, events: seq<Event>) {
    && |states| == |events| + 1
    && (forall i :: 0 <= i < |events| ==> Enabled(states[i], events[i]) && states[i + 1] == Step(states[i], events[i]))
  }

  lemma {:induction false} RunKeepsInv(states: seq<Sched>, events: seq<Event>, n: nat)
    requires IsRun(states, events) && Inv(states[0]) && n <= |events|
    ensures Inv(states[n])
    decreases n
  {
    if n > 0 {
      RunKeepsInv(states, events, n - 1);
      StepKeepsInv(states[n - 1], events[n - 1]);
    }
  }

  // ---------- the idle task ----------

  predicate Awake(t: Task) { !t.isUser && (t.state.Ready? || t.state.Running?) }

  /** The idle task is listed and can always be dispatched. */
  ghost predicate IdleAwake(s: Sched) { IDLE in s.tab && Awake(s.tab[IDLE]) }

  lemma YieldKeepsIdle(s: Sched)
    requires Inv(s) && IdleAwake(s)
    ensures IdleAwake(AfterYield(s))
  {
    NextIsReady(s);
  }

  lemma StepKeepsIdle(s: Sched, e: Event)
    requires Inv(s) && IdleAwake(s) && Enabled(s, e)
    ensures IdleAwake(Step(s, e))
  {
    if e.Yield? {
      YieldKeepsIdle(s);
    } else {
      OtherStepsKeepIdle(s, e);
    }
  }

  lemma OtherStepsKeepIdle(s: Sched, e: Event)
    requires Enabled(s, e) && !e.Yield? && IdleAwake(s) && s.nextPid !in s.tab
    ensures IdleAwake(Step(s, e))
  {
    if e.Reap? {
      assert IDLE in Survivors(s.tab);
    }
  }

  lemma {:induction false} RunKeepsIdle(states: seq<Sched>, events: seq<Event>, n: nat)
    requires IsRun(states, events) && Inv(states[0]) && IdleAwake(states[0]) && n <= |events|
    ensures IdleAwake(states[n])
    decreases n
  {
    if n > 0 {
      RunKeepsIdle(states, events, n - 1);
      RunKeepsInv(states, events, n - 1);
      StepKeepsIdle(states[n - 1], events[n - 1]);
    }
  }

  /**
   * In every reachable state each waiter names a listed task that has not exited, at most
   * one task is running and it is the current one, nothing is left to reap while
   * needs_cleanup is clear, and the idle task can be dispatched.
   */
  lemma ReachableStates(states: seq<Sched>, events: seq<Event>, n: nat)
    requires IsRun(states, events) && states[0] == Boot() && n <= |events|
    ensures WaitersHaveLiveTargets(states[n])
    ensures OnlyCurrentRuns(states[n])
    ensures !states[n].needsCleanup ==> NothingToReap(states[n])
    ensures IdleAwake(states[n])
  {
    BootInv();
    RunKeepsInv(states, events, n);
    RunKeepsIdle(states, events, n);
  }

  /** The exit of a task wakes exactly its waiters, hands each the status, and is
      recorded as acknowledged exactly when there was one. */
  lemma ExitWakesItsWaiters(s: Sched, status: int, p: nat)
    requires Inv(s) && Enabled(s, Exit(status)) && p in s.tab
    ensures p in Step(s, Exit(status)).tab
    ensures p != s.current && s.tab[p].state.Waiting? && s.tab[p].waitingOn == s.current ==>
              Step(s, Exit(status)).tab[p] == s.tab[p].(state := Ready, waitingOn := 0, exitStatus := status)
    ensures p != s.current && !(s.tab[p].state.Waiting? && s.tab[p].waitingOn == s.current) ==>
              Step(s, Exit(status)).tab[p] == s.tab[p]
    ensures Step(s, Exit(status)).tab[s.current].state.Dead?
    ensures !Step(s, Exit(status)).tab[s.current].isZombie <==>
              exists q :: q in s.tab && q != s.current && s.tab[q].state.Waiting? && s.tab[q].waitingOn == s.current
  {
  }

  /** p waits on q, which is listed and has not exited. */
  predicate WaitsOn(s: Sched, p: nat, q: nat) {
    && p in s.tab && s.tab[p].state.Waiting? && s.tab[p].waitingOn == q
    && q in s.tab && !s.tab[q].state.Dead?
  }

  /** The wait of p ends with this event: q has exited, or a signal has killed it, and p has its status;
      or p itself has got a signal. */
  ghost predicate WaitEnds(s: Sched, e: Event, s': Sched, p: nat, q: nat) {
    && WaitsOn(s, p, q) && p in s'.tab && s'.tab[p].state.Ready?
    && (|| (e.Signal? && e.pid == p)
        || (&& (e.Exit? || e.CheckSignals?) && s.current == q && q in s'.tab && s'.tab[q].state.Dead?
            && s'.tab[p] == s.tab[p].(state := Ready, waitingOn := 0, exitStatus := s'.tab[q].exitStatus)))
  }

  lemma ExitEndsWait(s: Sched, status: int, p: nat, q: nat)
    requires Inv(s) && Enabled(s, Exit(status)) && WaitsOn(s, p, q)
    ensures WaitsOn(Step(s, Exit(status)), p, q) || WaitEnds(s, Exit(status), Step(s, Exit(status)), p, q)
  {
    ExitWakesItsWaiters(s, status, p);
    ExitWakesItsWaiters(s, status, q);
  }

  lemma KillEndsWait(s: Sched, p: nat, q: nat)
    requires Enabled(s, CheckSignals) && WaitsOn(s, p, q)
    ensures WaitsOn(Step(s, CheckSignals), p, q) || WaitEnds(s, CheckSignals, Step(s, CheckSignals), p, q)
  {
  }

  lemma YieldKeepsWait(s: Sched, p: nat, q: nat)
    requires Inv(s) && WaitsOn(s, p, q)
    ensures WaitsOn(AfterYield(s), p, q)
  {
    NextIsReady(s);
  }

  lemma OtherStepsKeepWait(s: Sched, e: Event, p: nat, q: nat)
    requires Enabled(s, e) && !e.Yield? && !e.Exit? && !e.CheckSignals? && WaitsOn(s, p, q) && s.nextPid !in s.tab
    ensures WaitsOn(Step(s, e), p, q) || WaitEnds(s, e, Step(s, e), p, q)
  {
    match e
    case Reap => ReapKeepsWait(s, p, q);
    case Wait(pid) => WaitKeepsWait(s, pid, p, q);
    case Tick(now) => TickKeepsWait(s, now, p, q);
    case _ =>
  }

  lemma ReapKeepsWait(s: Sched, p: nat, q: nat)
    requires WaitsOn(s, p, q)
    ensures WaitsOn(AfterReap(s), p, q)
  {
    assert p in Survivors(s.tab) && q in Survivors(s.tab);
  }

  lemma WaitKeepsWait(s: Sched, pid: nat, p: nat, q: nat)
    requires s.current in s.tab && !OffCpu(s.tab[s.current]) && WaitsOn(s, p, q)
    ensures WaitsOn(AfterWait(s, pid), p, q)
  {
  }

  lemma TickKeepsWait(s: Sched, now: nat, p: nat, q: nat)
    requires Shape(s) && WaitsOn(s, p, q)
    ensures WaitsOn(AfterTick(s, now), p, q)
  {
  }

  lemma StepKeepsWait(s: Sched, e: Event, p: nat, q: nat)
    requires Inv(s) && Enabled(s, e) && WaitsOn(s, p, q)
    ensures WaitsOn(Step(s, e), p, q) || WaitEnds(s, e, Step(s, e), p, q)
  {
    match e
    case Yield => YieldKeepsWait(s, p, q);
    case Exit(status) => ExitEndsWait(s, status, p, q);
    case CheckSignals => KillEndsWait(s, p, q);
    case _ => OtherStepsKeepWait(s, e, p, q);
  }

  /** Event j ended the wait. */
  ghost predicate WaitEndsAt(states: seq<Sched>, events: seq<Event>, j: nat, p: nat, q: nat)
    requires |states| == |events| + 1
  {
    j < |events| && WaitEnds(states[j], events[j], states[j + 1], p, q)
  }

  /**
   * No wake-up is lost: over every run, a task that waits on another goes on waiting, on a task that is
   * listed and has not exited, until that task ends, which hands it the status, or until it gets a
   * signal.  So once the other has ended, it waits no longer.
   */
  lemma {:induction false} WaitsUntilExit(states: seq<Sched>, events: seq<Event>, p: nat, q: nat, n: nat)
    requires IsRun(states, events) && Inv(states[0]) && n <= |events| && WaitsOn(states[0], p, q)
    ensures WaitsOn(states[n], p, q) || exists j: nat :: j < n && WaitEndsAt(states, events, j, p, q)
    decreases n
  {
    if n > 0 {
      WaitsUntilExit(states, events, p, q, n - 1);
      if WaitsOn(states[n - 1], p, q) {
        RunKeepsInv(states, events, n - 1);
        StepKeepsWait(states[n - 1], events[n - 1], p, q);
        assert WaitsOn(states[n], p, q) || WaitEndsAt(states, events, n - 1, p, q);
      }
    }
  }

  /** What a pid that has died can still become. */
  ghost predicate Gone(s: Sched, p: nat) {
    p < s.nextPid && (p in s.tab ==> s.tab[p].state.Dead?)
  }

  lemma YieldKeepsDead(s: Sched, p: nat)
    requires Inv(s) && p in s.tab && s.tab[p].state.Dead?
    ensures AfterYield(s).tab[p].state.Dead? && AfterYield(s).tab[p].exitStatus == s.tab[p].exitStatus
  {
    NextIsReady(s);
  }

  lemma StepKeepsDead(s: Sched, e: Event, p: nat)
    requires Inv(s) && Enabled(s, e) && p in s.tab && s.tab[p].state.Dead?
    ensures p in Step(s, e).tab ==>
              Step(s, e).tab[p].state.Dead? && Step(s, e).tab[p].exitStatus == s.tab[p].exitStatus
  {
    if e.Yield? {
      YieldKeepsDead(s, p);
    } else {
      OtherStepsKeepDead(s, e, p);
    }
  }

  lemma OtherStepsKeepDead(s: Sched, e: Event, p: nat)
    requires Enabled(s, e) && !e.Yield? && p in s.tab && s.tab[p].state.Dead? && p < s.nextPid
    ensures p in Step(s, e).tab ==>
              Step(s, e).tab[p].state.Dead? && Step(s, e).tab[p].exitStatus == s.tab[p].exitStatus
  {
  }

  lemma StepKeepsUnlinked(s: Sched, e: Event, p: nat)
    requires Enabled(s, e) && p < s.nextPid && p !in s.tab
    ensures p !in Step(s, e).tab && p < Step(s, e).nextPid
  {
  }

  /** DEAD is final: over every run, a dead task is dead until it is unlinked, its exit
      status stands, and its pid is never listed again. */
  lemma {:induction false} DeadIsFinal(states: seq<Sched>, events: seq<Event>, p: nat, n: nat)
    requires IsRun(states, events) && Inv(states[0]) && n <= |events|
    requires p in states[0].tab && states[0].tab[p].state.Dead?
    ensures Gone(states[n], p)
    ensures p in states[n].tab ==> states[n].tab[p].exitStatus == states[0].tab[p].exitStatus
    decreases n
  {
    if n > 0 {
      DeadIsFinal(states, events, p, n - 1);
      RunKeepsInv(states, events, n - 1);
      var s, e := states[n - 1], events[n - 1];
      if p in s.tab {
        StepKeepsDead(s, e, p);
        StepKeepsNextPid(s, e);
      } else {
        StepKeepsUnlinked(s, e, p);
      }
    }
  }

  lemma StepKeepsNextPid(s: Sched, e: Event)
    requires Enabled(s, e)
    ensures s.nextPid <= Step(s, e).nextPid
  {
  }

  /** A parked task does not go on executing: the pass after it parks itself dispatches somebody
      else, if only the idle task. */
  lemma YieldLeavesParked(s: Sched)
    requires Inv(s) && IdleAwake(s) && OffCpu(s.tab[s.current])
    ensures AfterYield(s).current != s.current
    ensures AfterYield(s).tab[AfterYield(s).current].state.Running?
  {
    var aged := Aged(s.tab, s.current);
    BestExists(s.list, aged, s.current, IDLE);
    NextIsReady(s);
  }

  /**
   * One sweep unlinks exactly the tasks that were reapable when it began, keeps the order
   * and contents of the rest, never unlinks the current task, and leaves nothing to reap.
   */
  lemma SweepIsExact(s: Sched)
    requires Inv(s) && Enabled(s, Reap)
    ensures forall p :: p in s.tab ==> (p in Step(s, Reap).tab <==> !CanReap(s.tab, p))
    ensures forall p :: p in Step(s, Reap).tab ==> p in s.tab && Step(s, Reap).tab[p] == s.tab[p]
    ensures s.current in Step(s, Reap).tab
    ensures NothingToReap(Step(s, Reap))
    ensures forall p :: p in s.tab && CanReap(s.tab, p) ==>
              !s.tab[p].isZombie || s.tab[p].parent !in s.tab || s.tab[s.tab[p].parent].state.Dead?
  {
    ReapLeavesNothing(s);
  }
}
