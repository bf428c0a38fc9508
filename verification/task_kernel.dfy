/**
 * task.c as it runs: the global list, table and flags updated in place.  Each method is
 * proved to perform the steps of TaskModel, so everything proved about runs of the model
 * holds of it.
 */
module TaskKernel {
  import opened TaskModel
  import opened TaskInvariant

  /** task_wake_expired_sleepers. */
  method WakeExpiredSleepers(list: seq<nat>, tab0: map<nat, Task>, now: nat) returns (tab: map<nat, Task>)
    requires Listed(list, tab0)
    ensures tab == Woken(tab0, now)
  {
    tab := tab0;
    var i := 0;
    while i < |list|
      invariant 0 <= i <= |list|
      invariant Halfway(list, tab0, Woken(tab0, now), tab, i)
    {
      var t := tab[list[i]];
      HalfwayStep(list, tab0, Woken(tab0, now), tab, i);
      if t.state.Sleeping? && t.wakeTick != 0 && now >= t.wakeTick {
        tab := tab[list[i] := t.(state := Ready, wakeTick := 0, waitTicks := 0)];
      }
      i := i + 1;
    }
    AllTheWay(list, tab0, Woken(tab0, now), tab);
  }

  lemma AgedListed(list: seq<nat>, tab: map<nat, Task>, current: nat)
    requires Listed(list, tab)
    ensures Listed(list, Aged(tab, current))
  {
  }

  /** A loop over the list has rewritten the first i tasks from `from` to `to`. */
  ghost predicate Halfway(list: seq<nat>, from: map<nat, Task>, to: map<nat, Task>, tab: map<nat, Task>, i: nat)
  {
    && tab.Keys == from.Keys == to.Keys
    && (forall j :: 0 <= j < |list| ==> list[j] in tab)
    && (forall j :: 0 <= j < i && j < |list| ==> tab[list[j]] == to[list[j]])
    && (forall j :: i <= j < |list| ==> tab[list[j]] == from[list[j]])
  }

  lemma HalfwayStep(list: seq<nat>, from: map<nat, Task>, to: map<nat, Task>, tab: map<nat, Task>, i: nat)
    requires Listed(list, from) && i < |list| && Halfway(list, from, to, tab, i)
    ensures Halfway(list, from, to, tab[list[i] := to[list[i]]], i + 1)
    ensures to[list[i]] == tab[list[i]] ==> Halfway(list, from, to, tab, i + 1)
    ensures tab[list[i]] == from[list[i]]
  {
  }

  lemma AllTheWay(list: seq<nat>, from: map<nat, Task>, to: map<nat, Task>, tab: map<nat, Task>)
    requires Listed(list, from) && Halfway(list, from, to, tab, |list|)
    ensures tab == to
  {
    forall p | p in to ensures tab[p] == to[p] {
      var j :| 0 <= j < |list| && list[j] == p;
    }
  }

  /** The ageing of one queued task. */
  method AgeOne(t0: Task) returns (t: Task)
    ensures t == AgeTask(t0)
  {
    t := t0.(waitTicks := t0.waitTicks + 1);
    if t.waitTicks >= STARVATION_THRESHOLD && t.dynamicPriority < PRIORITY_MAX {
      t := t.(dynamicPriority := t.dynamicPriority + 1, waitTicks := 0);
    }
  }

  /** The task is to be picked, with the one at k, if any, the best so far. */
  predicate Preferred(t: Task, k: int, highest: nat, longest: nat) {
    k == -1 || t.dynamicPriority > highest || (t.dynamicPriority == highest && t.waitTicks > longest)
  }

  /**
   * task_find_next_ready: one pass that ages the ready queue and picks the best
   * candidate on the way (its pid, or 0).
   */
  method FindNextReady(list: seq<nat>, tab0: map<nat, Task>, current: nat)
    returns (tab: map<nat, Task>, best: nat)
    requires Listed(list, tab0)
    ensures tab == Aged(tab0, current)
    ensures Listed(list, tab) && best == Next(list, tab, current)
  {
    ghost var aged := Aged(tab0, current);
    AgedListed(list, tab0, current);
    tab := tab0;
    var k, i := -1, 0;
    var highest, longest := 0, 0;
    while i < |list|
      invariant 0 <= i <= |list| && -1 <= k < i
      invariant Halfway(list, tab0, aged, tab, i)
      invariant BestSoFar(list, aged, current, i, k)
      invariant k >= 0 ==> highest == aged[list[k]].dynamicPriority && longest == aged[list[k]].waitTicks
    {
      var pid := list[i];
      var t := tab[pid];
      HalfwayStep(list, tab0, aged, tab, i);
      BestAdvances(list, aged, current, i, k);
      if t.state.Ready? || (pid == current && t.state.Running?) {
        if pid != current && t.state.Ready? {
          t := AgeOne(t);
          tab := tab[pid := t];
        }
        if Preferred(t, k, highest, longest) {
          k, highest, longest := i, t.dynamicPriority, t.waitTicks;
        }
      }
      i := i + 1;
    }
    AllTheWay(list, tab0, aged, tab);
    BestFound(list, aged, current, k);
    best := if k == -1 then 0 else list[k];
  }

  lemma BestFound(list: seq<nat>, tab: map<nat, Task>, current: nat, k: int)
    requires Listed(list, tab) && -1 <= k < |list| && BestSoFar(list, tab, current, |list|, k)
    ensures Next(list, tab, current) == if k == -1 then 0 else list[k]
  {
    if k >= 0 {
      assert IsBest(list, tab, current, k);
      UniqueBest(list, tab, current, k);
    }
  }

  lemma YieldStays(s: Sched, tab: map<nat, Task>)
    requires Shape(s)
    requires Elected(s) == s.current
    requires var aged := Aged(s.tab, s.current); tab == aged[s.current := Renewed(aged[s.current])]
    ensures tab == AfterYield(s).tab
  {
  }

  lemma YieldSwitches(s: Sched, tab: map<nat, Task>, next: nat)
    requires Shape(s)
    requires Elected(s) == next && next != s.current && next in s.tab
    requires var aged := Aged(s.tab, s.current);
             tab == aged[s.current := Preempted(aged[s.current])][next := Dispatched(aged[next])]
    ensures tab == AfterYield(s).tab
  {
  }

  lemma WokenListed(list: seq<nat>, tab: map<nat, Task>, now: nat)
    requires Listed(list, tab)
    ensures Listed(list, Woken(tab, now))
  {
  }

  /** The loop of task_exit_with_status over the list: `me` has just died. */
  method NotifyWaiters(list: seq<nat>, tab0: map<nat, Task>, me: nat)
    returns (tab: map<nat, Task>, acknowledged: bool)
    requires Listed(list, tab0) && me in tab0 && tab0[me].state.Dead?
    ensures tab == map p | p in tab0 :: Notified(tab0[p], me, tab0[me].exitStatus)
    ensures acknowledged <==> exists p :: p in tab0 && tab0[p].state.Waiting? && tab0[p].waitingOn == me
  {
    ghost var target := map p | p in tab0 :: Notified(tab0[p], me, tab0[me].exitStatus);
    tab, acknowledged := tab0, false;
    var i := 0;
    while i < |list|
      invariant 0 <= i <= |list|
      invariant Halfway(list, tab0, target, tab, i) && tab[me] == tab0[me]
      invariant acknowledged <==>
                  exists j :: 0 <= j < i && tab0[list[j]].state.Waiting? && tab0[list[j]].waitingOn == me
    {
      var t := tab[list[i]];
      HalfwayStep(list, tab0, target, tab, i);
      if t.state.Waiting? && t.waitingOn == me {
        tab := tab[list[i] := t.(state := Ready, waitingOn := 0, exitStatus := tab[me].exitStatus)];
        acknowledged := true;
      }
      i := i + 1;
    }
    AllTheWay(list, tab0, target, tab);
  }

  lemma ExitTable(s: Sched, status: int, notified: map<nat, Task>, acknowledged: bool)
    requires Shape(s)
    requires var me := s.tab[s.current].(exitStatus := status, state := Dead, isZombie := true);
             var tab0 := s.tab[s.current := me];
             && notified == (map p | p in tab0 :: Notified(tab0[p], s.current, status))
             && (acknowledged <==> exists p :: p in tab0 && tab0[p].state.Waiting? && tab0[p].waitingOn == s.current)
    ensures acknowledged <==> Awaited(s.tab, s.current)
    ensures s.current in notified
    ensures AfterExit(s, status).tab ==
            notified[s.current := notified[s.current].(isZombie := !acknowledged)]
  {
    var me := s.tab[s.current].(exitStatus := status, state := Dead, isZombie := true);
    var tab0 := s.tab[s.current := me];
    assert forall p :: p in tab0 && p != s.current ==> tab0[p] == s.tab[p];
  }

  /** The sweep of idle_task_function: unlink while walking, asking task_can_reap of the
      list as it stands at that moment. */
  method UnlinkReapable(list0: seq<nat>, tab0: map<nat, Task>) returns (list: seq<nat>, tab: map<nat, Task>)
    requires Listed(list0, tab0)
    ensures list == Keep(list0, Survivors(tab0))
    ensures tab == map p | p in Survivors(tab0) :: tab0[p]
  {
    list, tab := list0, tab0;
    ghost var k := 0;
    var i := 0;
    while i < |list|
      invariant InSweep(list0, tab0, k, list, tab, i)
      decreases |list| - i
    {
      SweepStep(list0, tab0, k, list, tab, i);
      if CanReap(tab, list[i]) {
        list, tab := list[..i] + list[i + 1..], tab - {list[i]};
      } else {
        i := i + 1;
      }
      k := k + 1;
    }
    SweepEnds(list0, tab0, k, list, tab, i);
  }

  /** The first k tasks of the original list have been visited: the survivors among them
      head the list, up to position i, and the others are gone from the table. */
  ghost predicate InSweep(list0: seq<nat>, tab0: map<nat, Task>, k: nat, list: seq<nat>, tab: map<nat, Task>, i: nat)
  {
    && k <= |list0|
    && i == |Keep(list0[..k], Survivors(tab0))|
    && list == Keep(list0[..k], Survivors(tab0)) + list0[k..]
    && Swept(list0, tab0, k, tab)
  }

  lemma SweepStep(list0: seq<nat>, tab0: map<nat, Task>, k: nat, list: seq<nat>, tab: map<nat, Task>, i: nat)
    requires Listed(list0, tab0) && InSweep(list0, tab0, k, list, tab, i) && i < |list|
    ensures list[i] in tab
    ensures CanReap(tab, list[i]) ==>
              InSweep(list0, tab0, k + 1, list[..i] + list[i + 1..], tab - {list[i]}, i)
    ensures !CanReap(tab, list[i]) ==> InSweep(list0, tab0, k + 1, list, tab, i + 1)
  {
    assert k < |list0|;
    SweepList(list0, Survivors(tab0), k, list, i);
    SweepOne(list0, tab0, k, tab);
  }

  /** The list, when the task at position i goes or stays. */
  lemma SweepList(list0: seq<nat>, keep: set<nat>, k: nat, list: seq<nat>, i: nat)
    requires k < |list0| && i == |Keep(list0[..k], keep)| && list == Keep(list0[..k], keep) + list0[k..]
    ensures i < |list| && list[i] == list0[k]
    ensures list0[k] !in keep ==> list[..i] + list[i + 1..] == Keep(list0[..k + 1], keep) + list0[k + 1..] && i == |Keep(list0[..k + 1], keep)|
    ensures list0[k] in keep ==> list == Keep(list0[..k + 1], keep) + list0[k + 1..] && i + 1 == |Keep(list0[..k + 1], keep)|
  {
    KeepNext(list0, k, keep);
    Unlinked(list, Keep(list0[..k], keep), list0[k], list0[k + 1..]);
  }

  lemma SweepEnds(list0: seq<nat>, tab0: map<nat, Task>, k: nat, list: seq<nat>, tab: map<nat, Task>, i: nat)
    requires Listed(list0, tab0) && InSweep(list0, tab0, k, list, tab, i) && i >= |list|
    ensures list == Keep(list0, Survivors(tab0))
    ensures tab == map p | p in Survivors(tab0) :: tab0[p]
  {
    assert k == |list0| && list0[..k] == list0;
    SweptAll(list0, tab0, tab);
  }

  lemma Unlinked(list: seq<nat>, kept: seq<nat>, p: nat, rest: seq<nat>)
    requires list == kept + ([p] + rest)
    ensures list[|kept|] == p
    ensures list[..|kept|] + list[|kept| + 1..] == kept + rest
    ensures list == (kept + [p]) + rest
  {
  }

  lemma KeepNext(list: seq<nat>, k: nat, keep: set<nat>)
    requires k < |list|
    ensures Keep(list[..k + 1], keep) == Keep(list[..k], keep) + (if list[k] in keep then [list[k]] else [])
    ensures list[k..] == [list[k]] + list[k + 1..]
  {
    KeepAppend(list[..k], list[k], keep);
    assert list[..k + 1] == list[..k] + [list[k]];
  }

  /** After the first k tasks of the original list have been visited. */
  ghost predicate Swept(list0: seq<nat>, tab0: map<nat, Task>, k: nat, tab: map<nat, Task>)
    requires k <= |list0|
  {
    && (forall p :: p in tab ==> p in tab0 && tab[p] == tab0[p])
    && (forall p :: p in tab0 && p !in tab ==> CanReap(tab0, p))
    && (forall j :: 0 <= j < k ==> list0[j] in tab0 && (list0[j] in tab <==> !CanReap(tab0, list0[j])))
    && (forall j :: k <= j < |list0| ==> list0[j] in tab)
  }

  lemma SweepOne(list0: seq<nat>, tab0: map<nat, Task>, k: nat, tab: map<nat, Task>)
    requires Listed(list0, tab0) && k < |list0| && Swept(list0, tab0, k, tab)
    ensures list0[k] in tab && (CanReap(tab, list0[k]) <==> CanReap(tab0, list0[k]))
    ensures list0[k] in Survivors(tab0) <==> !CanReap(tab, list0[k])
    ensures Swept(list0, tab0, k + 1, if CanReap(tab, list0[k]) then tab - {list0[k]} else tab)
  {
    SweepSeesTheSame(tab0, tab, list0[k]);
  }

  lemma SweptAll(list0: seq<nat>, tab0: map<nat, Task>, tab: map<nat, Task>)
    requires Listed(list0, tab0) && Swept(list0, tab0, |list0|, tab)
    ensures tab == map p | p in Survivors(tab0) :: tab0[p]
  {
    forall p | p in tab0 ensures p in tab <==> !CanReap(tab0, p) {
      var j :| 0 <= j < |list0| && list0[j] == p;
    }
  }

  /** task_yield up to the context switch. */
  method Pass(list: seq<nat>, tab0: map<nat, Task>, current0: nat, ghost s: Sched)
    returns (tab: map<nat, Task>, current: nat)
    requires Shape(s) && s.list == list && s.tab == tab0 && s.current == current0
    ensures tab == AfterYield(s).tab && current == AfterYield(s).current
  {
    var next;
    tab, next := FindNextReady(list, tab0, current0);
    var me := tab[current0];
    if next == 0 || next == current0 {
      if me.state.Running? {
        me := me.(sliceRemaining := Quantum(me.basePriority));
      }
      tab, current := tab[current0 := me], current0;
      YieldStays(s, tab);
    } else {
      if me.state.Running? {
        me := me.(state := Ready);
      }
      var t := tab[next].(state := Running);
      t := t.(dynamicPriority := t.basePriority, waitTicks := 0);
      t := t.(sliceRemaining := Quantum(t.basePriority));
      tab, current := tab[current0 := me][next := t], next;
      YieldSwitches(s, tab, next);
    }
  }

  /** task_schedule_tick up to its call of task_yield, and whether it makes one. */
  method Charged(list: seq<nat>, tab0: map<nat, Task>, current: nat, now: nat, ghost s: Sched)
    returns (tab: map<nat, Task>, preempt: bool)
    requires Shape(s) && s.list == list && s.tab == tab0 && s.current == current
    ensures tab == AfterTick(s, now).tab && (preempt <==> TickYields(s, now))
    ensures Listed(list, tab) && current in tab
  {
    WokenListed(list, tab0, now);
    tab := WakeExpiredSleepers(list, tab0, now);
    var me := tab[current];
    if me.state.Dead? {
      return tab, true;
    }
    if me.state.Blocked? || me.state.Sleeping? || me.state.Waiting? {
      return tab, false;
    }
    me := me.(cpuTicks := me.cpuTicks + 1);
    if me.yieldRequested {
      return tab[current := me.(yieldRequested := false)], true;
    }
    if me.sliceRemaining > 0 {
      me := me.(sliceRemaining := me.sliceRemaining - 1);
    }
    preempt := me.sliceRemaining == 0;
    if preempt && me.state.Running? {
      me := me.(state := Ready);
    }
    tab := tab[current := me];
  }

  /** The loop of task_check_signals: what is left pending, and the signal that kills (or NSIG). */
  method Deliver(t: Task) returns (pending: set<nat>, killer: nat)
    ensures killer == FirstKill(t)
    ensures pending == Left(t, killer)
  {
    var deliverable := t.pending - t.masked;
    pending := t.pending;
    killer := 1;
    while killer < NSIG
      invariant 1 <= killer <= NSIG
      invariant pending == Left(t, killer - 1)
      invariant forall g: nat :: g < killer ==> !Kills(t, g)
    {
      if killer in deliverable {
        pending := pending - {killer};
        if Handler(t, killer) != SIG_IGN && Fatal(killer) {
          assert KillsFirst(t, killer);
          return;
        }
      }
      killer := killer + 1;
    }
  }

  class Kernel {
    var list: seq<nat>
    var tab: map<nat, Task>
    var current: nat
    var nextPid: nat
    var needsCleanup: bool

    ghost function Abs(): Sched
      reads this
    {
      Sched(list, tab, current, nextPid, needsCleanup)
    }

    /** Implied by the invariant of TaskInvariant, which every step keeps. */
    ghost predicate Valid()
      reads this
    {
      Shape(Abs())
    }

    /** The state task_initialize builds. */
    constructor ()
      ensures Inv(Abs()) && Abs() == Boot()
    {
      list, tab := Boot().list, Boot().tab;
      current, nextPid, needsCleanup := 1, 3, false;
      new;
      BootInv();
    }

    /** task_get_by_pid: walk the list. */
    method GetByPid(pid: nat) returns (found: bool)
      requires Valid()
      ensures found <==> pid in tab
    {
      var i := 0;
      while i < |list|
        invariant 0 <= i <= |list|
        invariant forall j :: 0 <= j < i ==> list[j] != pid
      {
        if list[i] == pid {
          return true;
        }
        i := i + 1;
      }
      found := false;
    }

    /** task_yield up to the context switch. */
    method Yield()
      requires Valid()
      modifies this`tab, this`current
      ensures Abs() == AfterYield(old(Abs()))
    {
      tab, current := Pass(list, tab, current, Abs());
    }

    /** task_schedule_tick. */
    method ScheduleTick(now: nat)
      requires Valid()
      modifies this`tab, this`current
      ensures var s := AfterTick(old(Abs()), now);
              Shape(s) && Abs() == if TickYields(old(Abs()), now) then AfterYield(s) else s
    {
      var preempt;
      tab, preempt := Charged(list, tab, current, now, Abs());
      if preempt {
        Yield();
      }
    }

    /** The locked section of task_exit_with_status; the task then only preempt. */
    method ExitWithStatus(status: int)
      requires Valid() && !OffCpu(tab[current])
      modifies this`tab, this`needsCleanup
      ensures Abs() == AfterExit(old(Abs()), status)
    {
      var me := tab[current].(exitStatus := status, state := Dead, isZombie := true);
      var notified, acknowledged := NotifyWaiters(list, tab[current := me], current);
      ExitTable(Abs(), status, notified, acknowledged);
      if acknowledged {
        notified := notified[current := me.(isZombie := false)];
      }
      tab, needsCleanup := notified, true;
    }

    /** task_wait up to its yield: the caller parks only on a listed, live target. */
    method Wait(pid: nat) returns (parked: bool)
      requires Valid() && !OffCpu(tab[current])
      modifies this`tab, this`needsCleanup
      ensures Abs() == AfterWait(old(Abs()), pid)
      ensures parked <==> tab[current].state.Waiting?
    {
      var found := GetByPid(pid);
      if !found {
        return false;
      }
      if tab[pid].state.Dead? {
        tab := tab[current := tab[current].(exitStatus := tab[pid].exitStatus, waitingOn := 0)];
        tab := tab[pid := tab[pid].(isZombie := false)];
        needsCleanup := true;
        return false;
      }
      tab := tab[current := tab[current].(state := Waiting, waitingOn := pid, wakeTick := 0)];
      parked := true;
    }

    /** task_check_signals: deliver in signal order until one kills the task. */
    method CheckSignals()
      requires Valid() && !OffCpu(tab[current])
      modifies this`tab, this`needsCleanup
      ensures Abs() == AfterCheckSignals(old(Abs()))
    {
      ghost var s := Abs();
      var t := tab[current];
      if !t.isUser {
        return;
      }
      var pending, killer := Deliver(t);
      tab := tab[current := t.(pending := pending)];
      if killer < NSIG {
        ExitWithStatus(128 + killer);
      }
    }

    /** task_set_signal_handler: the new handler is recorded and the old one returned. */
    method SetSignalHandler(sig: int, handler: nat) returns (was: nat)
      requires Valid() && !OffCpu(tab[current])
      modifies this`tab
      ensures Abs() == AfterSetHandler(old(Abs()), sig, handler)
      ensures was == if 0 < sig < NSIG && sig != SIGKILL then Handler(old(tab)[old(current)], sig) else SIG_ERR
      ensures forall g: nat {:trigger Handler(tab[current], g)} ::
                Handler(tab[current], g) == if g == sig && 0 < sig < NSIG && sig != SIGKILL then handler else Handler(old(tab)[old(current)], g)
    {
      was := SIG_ERR;
      if sig <= 0 || sig >= NSIG || sig == SIGKILL {
        return;
      }
      var t := tab[current];
      was := Handler(t, sig);
      tab := tab[current := t.(handlers := t.handlers[sig := handler])];
    }

    /** One run of the idle task's sweep. */
    method Sweep()
      requires Valid() && !OffCpu(tab[current])
      modifies this`list, this`tab, this`needsCleanup
      ensures Abs() == AfterReap(old(Abs()))
    {
      list, tab := UnlinkReapable(list, tab);
      needsCleanup := false;
    }

    method Block()
      requires Valid() && !OffCpu(tab[current])
      modifies this`tab, this`current
      ensures Shape(AfterBlock(old(Abs()))) && Abs() == AfterYield(AfterBlock(old(Abs())))
    {
      tab := tab[current := tab[current].(state := Blocked, sliceRemaining := 0)];
      Yield();
    }

    method Sleep(now: nat, ticks: nat)
      requires Valid() && !OffCpu(tab[current])
      modifies this`tab, this`current
      ensures ticks == 0 ==> Abs() == old(Abs())
      ensures ticks != 0 ==>
                var s := AfterSleep(old(Abs()), now, ticks); Shape(s) && Abs() == AfterYield(s)
    {
      if ticks == 0 {
        return;
      }
      tab := tab[current := tab[current].(state := Sleeping, wakeTick := now + ticks, sliceRemaining := 0)];
      Yield();
    }

    method Unblock(pid: nat)
      requires Valid()
      modifies this`tab
      ensures Abs() == AfterUnblock(old(Abs()), pid)
    {
      var found := GetByPid(pid);
      if found && tab[pid].state.Blocked? {
        tab := tab[pid := tab[pid].(state := Ready, waitTicks := 0, sliceRemaining := Quantum(tab[pid].basePriority))];
      }
    }

    method Wake(pid: nat)
      requires Valid()
      modifies this`tab
      ensures Abs() == AfterWake(old(Abs()), pid)
    {
      var found := GetByPid(pid);
      if found && tab[pid].state.Sleeping? {
        tab := tab[pid := tab[pid].(state := Ready, wakeTick := 0, waitTicks := 0,
                                    sliceRemaining := Quantum(tab[pid].basePriority))];
      }
    }

    method SendSignal(pid: nat, sig: int) returns (result: int)
      requires Valid()
      modifies this`tab
      ensures Abs() == AfterSignal(old(Abs()), pid, sig)
      ensures result == 0 <==> 0 < sig < NSIG && pid in old(tab) && !old(tab)[pid].state.Dead?
    {
      if sig <= 0 || sig >= NSIG {
        return -1;
      }
      var found := GetByPid(pid);
      if !found || tab[pid].state.Dead? {
        return -1;
      }
      var t := tab[pid].(pending := tab[pid].pending + {sig});
      if t.state.Blocked? || t.state.Sleeping? || t.state.Waiting? {
        t := t.(state := Ready, wakeTick := 0, sliceRemaining := Quantum(t.basePriority));
      }
      tab := tab[pid := t];
      result := 0;
    }

    method SetPriority(pid: nat, priority: nat)
      requires Valid()
      modifies this`tab
      ensures Abs() == AfterSetPriority(old(Abs()), pid, priority)
    {
      var p := if priority > PRIORITY_MAX then PRIORITY_MAX else priority;
      var found := GetByPid(pid);
      if found {
        tab := tab[pid := tab[pid].(basePriority := p, dynamicPriority := p)];
      }
    }

    /** task_create and task_create_user. */
    method Create(user: bool) returns (pid: nat)
      requires Valid() && !OffCpu(tab[current])
      modifies this`list, this`tab, this`nextPid
      ensures Abs() == AfterCreate(old(Abs()), user)
      ensures pid == old(nextPid) && pid in tab && tab[pid].state.Ready?
    {
      pid := nextPid;
      nextPid := nextPid + 1;
      tab := tab[pid := FreshTask(current, user)];
      list := [pid] + list;
    }
  }

  lemma UniqueBest(list: seq<nat>, tab: map<nat, Task>, current: nat, k: nat)
    requires Listed(list, tab) && IsBest(list, tab, current, k)
    ensures Next(list, tab, current) == list[k]
  {
    var j: nat :| IsBest(list, tab, current, j) && list[j] == Next(list, tab, current);
    assert IsBest(list, tab, current, j);
    assert j < |list|;
    assert IsBest(list, tab, current, k);
  }

  /** Half-way through a sweep, task_can_reap answers as it would have at the start: only
      dead tasks have gone, and a dead parent already made its children reapable. */
  lemma SweepSeesTheSame(before: map<nat, Task>, now: map<nat, Task>, p: nat)
    requires forall q :: q in now ==> q in before && now[q] == before[q]
    requires forall q :: q in before && q !in now ==> CanReap(before, q)
    requires p in now
    ensures CanReap(now, p) <==> CanReap(before, p)
  {
    var q := before[p].parent;
    if q in before && q !in now {
      assert CanReap(before, q);
    }
  }

  lemma {:induction false} KeepAppend(list: seq<nat>, p: nat, keep: set<nat>)
    ensures Keep(list + [p], keep) == Keep(list, keep) + (if p in keep then [p] else [])
  {
    if list == [] {
      assert [p][1..] == [];
    } else {
      KeepAppend(list[1..], p, keep);
      assert (list + [p])[1..] == list[1..] + [p];
    }
  }
}
