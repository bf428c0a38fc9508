/**
 * Time: what timer ticks do to the running task, to sleepers and to those who wait their turn.
 */
module TaskTicks {
  import opened TaskModel
  import opened TaskInvariant
  import opened TaskFairness

  /** Timer ticks among the events. */
  function Ticks(events: seq<Event>): nat {
    if events == [] then 0 else Ticks(events[..|events| - 1]) + (if events[|events| - 1].Tick? then 1 else 0)
  }

  lemma TicksNext(events: seq<Event>, n: nat)
    requires n < |events|
    ensures Ticks(events[..n + 1]) == Ticks(events[..n]) + (if events[n].Tick? then 1 else 0)
  {
    assert events[..n + 1][..n] == events[..n];
  }

  // ---------- the slice of a running task ----------

  /** p executes and has not asked to yield. */
  predicate Executes(s: Sched, p: nat) {
    s.current == p && p in s.tab && s.tab[p].state.Running? && !s.tab[p].yieldRequested
  }

  /** The task makes no pass, does not park or end, and does not ask to yield. */
  ghost predicate GoesOn(s: Sched, e: Event)
    requires Enabled(s, e)
  {
    && !e.Yield? && !e.RequestYield? && !e.Block? && !e.Sleep? && !e.Wait? && !e.Exit?
    && (e.CheckSignals? ==> !Step(s, e).tab[s.current].state.Dead?)
  }

  lemma StepSpends(s: Sched, e: Event, p: nat)
    requires Inv(s) && Enabled(s, e) && Executes(s, p) && GoesOn(s, e) && (e.Tick? ==> s.tab[p].sliceRemaining >= 2)
    ensures Executes(Step(s, e), p)
    ensures Step(s, e).tab[p].sliceRemaining == s.tab[p].sliceRemaining - (if e.Tick? then 1 else 0)
    ensures e.Tick? ==> !TickYields(s, e.now)
  {
    match e
    case CheckSignals => SurvivesSignals(s, p);
    case Tick(now) => TickSpends(s, now, p);
    case Reap => assert p in Survivors(s.tab);
    case Create(_) => assert s.nextPid !in s.tab;
    case _ => OtherStepSpends(s, e, p);
  }

  lemma TickSpends(s: Sched, now: nat, p: nat)
    requires Shape(s) && Executes(s, p) && s.tab[p].sliceRemaining >= 2
    ensures Executes(AfterTick(s, now), p) && AfterTick(s, now).tab[p].sliceRemaining == s.tab[p].sliceRemaining - 1
    ensures !TickYields(s, now)
  {
  }

  lemma OtherStepSpends(s: Sched, e: Event, p: nat)
    requires Enabled(s, e) && Executes(s, p) && (e.Unblock? || e.SetPriority? || e.Wake? || e.Signal? || e.SetHandler?)
    ensures Executes(Step(s, e), p) && Step(s, e).tab[p].sliceRemaining == s.tab[p].sliceRemaining
  {
  }

  lemma SurvivesSignals(s: Sched, p: nat)
    requires Shape(s) && Executes(s, p) && p in AfterCheckSignals(s).tab && !AfterCheckSignals(s).tab[p].state.Dead?
    ensures Executes(AfterCheckSignals(s), p) && AfterCheckSignals(s).tab[p].sliceRemaining == s.tab[p].sliceRemaining
  {
    var s', k := SignalsConsumed(s);
  }

  /**
   * While a task goes on executing, each tick takes one from its slice, and no tick before the one
   * that takes the last preempts it.
   */
  lemma {:induction false} SliceSpent(states: seq<Sched>, events: seq<Event>, p: nat, n: nat)
    requires IsRun(states, events) && Inv(states[0]) && n <= |events| && Executes(states[0], p)
    requires forall i :: 0 <= i < n ==> GoesOn(states[i], events[i])
    requires Ticks(events[..n]) < states[0].tab[p].sliceRemaining
    ensures Executes(states[n], p) && states[n].tab[p].sliceRemaining == states[0].tab[p].sliceRemaining - Ticks(events[..n])
    ensures forall i :: 0 <= i < n && events[i].Tick? ==> !TickYields(states[i], events[i].now)
    decreases n
  {
    if n > 0 {
      TicksNext(events, n - 1);
      SliceSpent(states, events, p, n - 1);
      RunKeepsInv(states, events, n - 1);
      StepSpends(states[n - 1], events[n - 1], p);
    }
  }

  /** The tick that takes the last of it does preempt the task. */
  lemma QuantumEnds(states: seq<Sched>, events: seq<Event>, p: nat, n: nat)
    requires IsRun(states, events) && Inv(states[0]) && n < |events| && Executes(states[0], p)
    requires forall i :: 0 <= i < n ==> GoesOn(states[i], events[i])
    requires events[n].Tick? && Ticks(events[..n]) + 1 == states[0].tab[p].sliceRemaining
    ensures TickYields(states[n], events[n].now) && p in states[n + 1].tab && states[n + 1].tab[p].state.Ready?
  {
    SliceSpent(states, events, p, n);
  }

  /** The ticks a task dispatched at each priority may run. */
  function SliceOf(base: nat): nat
    requires base <= PRIORITY_MAX
  {
    [2, 5, 10, 20, 30][base]
  }

  /**
   * The pass that follows: if a task in the queue beats the current one, somebody else is dispatched,
   * whom that task does not beat; he runs, at his own priority again and with a full slice, and the
   * task that ran before is queued.
   */
  lemma PassDispatches(s: Sched, w: nat)
    requires Inv(s) && Queued(s, w)
    requires Candidate(s.tab[s.current], true) ==> Beats(AgeTask(s.tab[w]), s.tab[s.current])
    ensures var s' := AfterYield(s); var c := s'.current;
            && c != s.current && c in s.tab && c in s'.tab && s.tab[c].state.Ready?
            && !Beats(AgeTask(s.tab[w]), AgeTask(s.tab[c]))
            && s'.tab[c] == s.tab[c].(state := Running, waitTicks := 0, dynamicPriority := s.tab[c].basePriority,
                                      sliceRemaining := SliceOf(s.tab[c].basePriority))
            && (s.tab[s.current].state.Running? ==> s'.tab[s.current].state.Ready?)
  {
    PassElects(s, w);
    SwitchEffect(s, AfterYield(s).current);
  }

  lemma PassElects(s: Sched, w: nat)
    requires Inv(s) && Queued(s, w)
    requires Candidate(s.tab[s.current], true) ==> Beats(AgeTask(s.tab[w]), s.tab[s.current])
    ensures var c := AfterYield(s).current;
            c != s.current && c in s.tab && s.tab[c].state.Ready? && !Beats(AgeTask(s.tab[w]), AgeTask(s.tab[c]))
  {
    var aged := Aged(s.tab, s.current);
    BestExists(s.list, aged, s.current, w);
    NextIsReady(s);
    var k: nat :| IsBest(s.list, aged, s.current, k) && s.list[k] == Elected(s);
    var i :| 0 <= i < |s.list| && s.list[i] == w;
    assert !Beats(aged[s.list[i]], aged[s.list[k]]);
    AgedFields(s.tab[s.current]);
  }

  /** What a dispatch does to the two tasks. */
  lemma SwitchEffect(s: Sched, c: nat)
    requires Shape(s) && c == AfterYield(s).current != s.current && c in s.tab && s.tab[c].state.Ready?
    requires s.tab[c].basePriority <= PRIORITY_MAX
    ensures var s' := AfterYield(s);
            && c in s'.tab && s.current in s'.tab
            && s'.tab[c] == s.tab[c].(state := Running, waitTicks := 0, dynamicPriority := s.tab[c].basePriority,
                                      sliceRemaining := SliceOf(s.tab[c].basePriority))
            && (s.tab[s.current].state.Running? ==> s'.tab[s.current].state.Ready?)
  {
    assert AfterYield(s).tab[c] == YieldTask(s.tab[c], c, s.current, c);
    assert AfterYield(s).tab[s.current] == YieldTask(s.tab[s.current], s.current, s.current, c);
    ComesOn(s.tab[c], c, s.current);
    GoesOff(s.tab[s.current], s.current, c);
  }

  lemma ComesOn(t: Task, c: nat, current: nat)
    requires c != current && t.state.Ready? && t.basePriority <= PRIORITY_MAX
    ensures YieldTask(t, c, current, c)
         == t.(state := Running, waitTicks := 0, dynamicPriority := t.basePriority, sliceRemaining := SliceOf(t.basePriority))
  {
  }

  lemma GoesOff(t: Task, current: nat, c: nat)
    requires c != current
    ensures YieldTask(t, current, current, c) == if t.state.Running? then t.(state := Ready) else t
  {
  }

  lemma AgedFields(t: Task)
    ensures AgeIn(t, true) == t
  {
  }

  // ---------- passes happen ----------

  /** The step is one after which the source calls task_yield: a tick that preempts, and a task's
      parking itself. */
  ghost predicate CallsYield(s: Sched, e: Event)
    requires Enabled(s, e)
  {
    match e
    case Tick(now) => TickYields(s, now)
    case Block => true
    case Sleep(_, ticks) => ticks != 0
    case Wait(_) => OffCpu(Step(s, e).tab[s.current])
    case _ => false
  }

  /** A run in which the call follows at once. */
  ghost predicate Prompt(states: seq<Sched>, events: seq<Event>)
    requires IsRun(states, events)
  {
    forall i: nat :: i < |events| && CallsYield(states[i], events[i]) ==> i + 1 < |events| && events[i + 1].Yield?
  }

  predicate Parked(t: Task) { t.state.Blocked? || t.state.Sleeping? || t.state.Waiting? }

  /** How many ticks the current task has left, the last of which preempts it. */
  function TicksLeft(t: Task): (n: nat)
    ensures n >= 1
  {
    if t.state.Dead? || t.yieldRequested || t.sliceRemaining <= 1 then 1 else t.sliceRemaining
  }

  /** Before a pass there are none. */
  ghost function LeftAt(states: seq<Sched>, events: seq<Event>, n: nat): nat
    requires IsRun(states, events) && n <= |events| && states[n].current in states[n].tab
  {
    if n < |events| && events[n].Yield? then 0 else TicksLeft(states[n].tab[states[n].current])
  }

  const LONGEST: nat := 30

  lemma QuantumIsShort(p: nat)
    ensures 1 <= Quantum(p) <= LONGEST
  {
  }

  /** The current task has at most the longest slice, and is not parked, except right before a pass. */
  ghost predicate Steady(states: seq<Sched>, events: seq<Event>, n: nat)
    requires IsRun(states, events) && n <= |events|
  {
    var s := states[n];
    && Inv(s) && IdleAwake(s) && s.tab[s.current].sliceRemaining <= LONGEST
    && (!(n < |events| && events[n].Yield?) ==> !Parked(s.tab[s.current]))
  }

  lemma YieldLeft(s: Sched)
    requires Inv(s) && IdleAwake(s) && s.tab[s.current].sliceRemaining <= LONGEST
    ensures var s' := AfterYield(s);
            s'.current in s'.tab && !Parked(s'.tab[s'.current]) && s'.tab[s'.current].sliceRemaining <= LONGEST
  {
    var c := AfterYield(s).current;
    NextIsReady(s);
    if OffCpu(s.tab[s.current]) {
      YieldLeavesParked(s);
    }
    assert AfterYield(s).tab[c] == YieldTask(s.tab[c], c, s.current, c);
    QuantumIsShort(s.tab[c].basePriority);
    ElectedLeft(s.tab[c], c, s.current);
  }

  lemma ElectedLeft(t: Task, c: nat, current: nat)
    requires if c == current then !Parked(t) && t.sliceRemaining <= LONGEST else t.state.Ready?
    requires 1 <= Quantum(t.basePriority) <= LONGEST
    ensures var t' := YieldTask(t, c, current, c); !Parked(t') && t'.sliceRemaining <= LONGEST
  {
  }

  /** A step of another kind: it calls the pass, or takes from the ticks left if it is a tick. */
  ghost predicate Wears(s: Sched, e: Event)
    requires Enabled(s, e)
  {
    var s' := Step(s, e);
    && s'.current == s.current && s.current in s'.tab && s'.tab[s.current].sliceRemaining <= s.tab[s.current].sliceRemaining
    && (CallsYield(s, e) || (!Parked(s'.tab[s.current])
                             && TicksLeft(s'.tab[s.current]) + (if e.Tick? then 1 else 0) <= TicksLeft(s.tab[s.current])))
  }

  lemma TickWears(s: Sched, now: nat)
    requires Shape(s) && !Parked(s.tab[s.current])
    ensures Wears(s, Tick(now))
  {
  }

  lemma SignalsWear(s: Sched)
    requires Enabled(s, CheckSignals) && !Parked(s.tab[s.current])
    ensures Wears(s, CheckSignals)
  {
  }

  lemma OwnStepWears(s: Sched, e: Event)
    requires Enabled(s, e) && !Parked(s.tab[s.current])
    requires e.Block? || e.Sleep? || e.Wait? || e.RequestYield? || e.SetHandler? || e.Exit?
    ensures Wears(s, e)
  {
  }

  lemma OtherStepWears(s: Sched, e: Event)
    requires Enabled(s, e) && !Parked(s.tab[s.current]) && s.nextPid !in s.tab
    requires e.Unblock? || e.SetPriority? || e.Wake? || e.Signal? || e.Create?
    ensures Wears(s, e)
  {
  }

  lemma ReapWears(s: Sched)
    requires Enabled(s, Reap)
    ensures !Parked(s.tab[s.current]) ==> Wears(s, Reap)
  {
    assert s.current in Survivors(s.tab);
  }

  lemma StepWears(s: Sched, e: Event)
    requires Inv(s) && Enabled(s, e) && !e.Yield? && !Parked(s.tab[s.current])
    ensures Wears(s, e)
  {
    match e
    case Tick(now) => TickWears(s, now);
    case CheckSignals => SignalsWear(s);
    case Reap => ReapWears(s);
    case Block => OwnStepWears(s, e);
    case Sleep(_, _) => OwnStepWears(s, e);
    case Wait(_) => OwnStepWears(s, e);
    case RequestYield => OwnStepWears(s, e);
    case SetHandler(_, _) => OwnStepWears(s, e);
    case Exit(_) => OwnStepWears(s, e);
    case _ => OtherStepWears(s, e);
  }

  lemma StaysSteady(states: seq<Sched>, events: seq<Event>, n: nat)
    requires IsRun(states, events) && Prompt(states, events) && n < |events| && Steady(states, events, n)
    ensures Steady(states, events, n + 1)
    ensures !events[n].Yield? ==> Wears(states[n], events[n])
  {
    StepKeepsInv(states[n], events[n]);
    StepKeepsIdle(states[n], events[n]);
    if events[n].Yield? {
      YieldLeft(states[n]);
    } else {
      StepWears(states[n], events[n]);
    }
  }

  /** Every tick is one of the at most thirty between two passes. */
  ghost predicate KeepsUp(states: seq<Sched>, events: seq<Event>, n: nat)
    requires IsRun(states, events) && n <= |events| && states[n].current in states[n].tab
  {
    Ticks(events[..n]) + LeftAt(states, events, n) <= LONGEST * (Passes(events[..n]) + 1)
  }

  lemma StepKeepsUp(states: seq<Sched>, events: seq<Event>, n: nat)
    requires IsRun(states, events) && Prompt(states, events) && n < |events|
    requires Steady(states, events, n) && Steady(states, events, n + 1) && (!events[n].Yield? ==> Wears(states[n], events[n]))
    requires KeepsUp(states, events, n)
    ensures KeepsUp(states, events, n + 1)
  {
    TicksNext(events, n);
    PassesNext(events, n + 1);
    if !events[n].Yield? && CallsYield(states[n], events[n]) {
      assert n + 1 < |events| && events[n + 1].Yield?;
    }
  }

  ghost predicate OnTime(states: seq<Sched>, events: seq<Event>, n: nat)
    requires IsRun(states, events) && n <= |events|
  {
    Steady(states, events, n) && KeepsUp(states, events, n)
  }

  lemma NextOnTime(states: seq<Sched>, events: seq<Event>, n: nat, next: nat)
    requires IsRun(states, events) && Prompt(states, events) && n < |events| && next == n + 1 && OnTime(states, events, n)
    ensures OnTime(states, events, next)
  {
    StaysSteady(states, events, n);
    StepKeepsUp(states, events, n);
  }

  lemma {:induction false} PassesKeepUp(states: seq<Sched>, events: seq<Event>, n: nat)
    requires IsRun(states, events) && Prompt(states, events) && n <= |events| && Steady(states, events, 0)
    ensures OnTime(states, events, n)
    decreases n
  {
    if n > 0 {
      PassesKeepUp(states, events, n - 1);
      NextOnTime(states, events, n - 1, n);
    } else {
      NothingYet(states, events);
    }
  }

  lemma NothingYet(states: seq<Sched>, events: seq<Event>)
    requires IsRun(states, events) && Steady(states, events, 0)
    ensures KeepsUp(states, events, 0)
  {
    var none: seq<Event> := events[..0];
    assert none == [] && Ticks(none) == 0 && Passes(none) == 0;
  }

  /** From boot on it is so. */
  lemma BootIsSteady(states: seq<Sched>, events: seq<Event>)
    requires IsRun(states, events) && states[0] == Boot()
    ensures Steady(states, events, 0)
  {
    BootInv();
  }

  /** Passes come one at a time. */
  lemma {:induction false} PassesReach(events: seq<Event>, k: nat) returns (m: nat)
    requires k <= Passes(events)
    ensures m <= |events| && Passes(events[..m]) == k
    decreases |events|
  {
    if k == Passes(events) {
      m := |events|;
      assert events[..m] == events;
    } else {
      var init := events[..|events| - 1];
      m := PassesReach(init, k);
      assert init[..m] == events[..m];
    }
  }

  /**
   * Bounded waiting by the clock.  In a run without task_set_priority in which task_yield follows
   * where the source calls it, with never more than N tasks listed, a task queued at dynamic priority d
   * is dispatched before 30 * (50 * (4 - d) + N) ticks are over.
   */
  lemma BoundedWaitingInTicks(states: seq<Sched>, events: seq<Event>, w: nat, most: nat)
    requires IsRun(states, events) && Prompt(states, events) && NoPriorityChange(events) && Steady(states, events, 0)
    requires Queued(states[0], w) && forall i :: 0 <= i < |states| ==> |states[i].list| <= most
    requires Ticks(events) > 30 * (50 * (4 - states[0].tab[w].dynamicPriority) + most)
    ensures exists i :: 0 <= i < |states| && states[i].current == w
  {
    var n := |events|;
    assert events[..n] == events;
    PassesKeepUp(states, events, n);
    var k: int := 50 * (4 - states[0].tab[w].dynamicPriority);
    assert k >= 0 && Passes(events) >= k + most;
    var m := PassesReach(events, k);
    BoundedWaiting(states, events, w, m);
  }

  // ---------- sleepers ----------

  predicate SleepsTill(s: Sched, p: nat, at: nat) {
    p in s.tab && s.tab[p].state.Sleeping? && s.tab[p].wakeTick == at
  }

  /** Nobody wakes p or sends it a signal. */
  predicate Undisturbed(e: Event, p: nat) { !(e.Wake? && e.pid == p) && !(e.Signal? && e.pid == p) }

  lemma YieldLetsSleep(s: Sched, p: nat, at: nat)
    requires Inv(s) && SleepsTill(s, p, at)
    ensures SleepsTill(AfterYield(s), p, at)
  {
    NextIsReady(s);
  }

  lemma ReapLetsSleep(s: Sched, p: nat, at: nat)
    requires SleepsTill(s, p, at)
    ensures SleepsTill(AfterReap(s), p, at)
  {
    assert p in Survivors(s.tab);
  }

  lemma OtherLetsSleep(s: Sched, e: Event, p: nat, at: nat)
    requires Enabled(s, e) && SleepsTill(s, p, at) && Undisturbed(e, p) && s.nextPid !in s.tab
    requires e.Block? || e.Sleep? || e.Wait? || e.RequestYield? || e.SetHandler? || e.Unblock? || e.SetPriority? || e.Wake? || e.Signal? || e.Create?
    ensures SleepsTill(Step(s, e), p, at)
  {
  }

  lemma EndLetsSleep(s: Sched, e: Event, p: nat, at: nat)
    requires Enabled(s, e) && SleepsTill(s, p, at) && (e.Exit? || e.CheckSignals?)
    ensures SleepsTill(Step(s, e), p, at)
  {
  }

  lemma StepLetsSleep(s: Sched, e: Event, p: nat, at: nat)
    requires Inv(s) && Enabled(s, e) && SleepsTill(s, p, at) && Undisturbed(e, p)
    ensures !(e.Tick? && e.now >= at && at != 0) ==> SleepsTill(Step(s, e), p, at)
  {
    match e
    case Yield => YieldLetsSleep(s, p, at);
    case Reap => ReapLetsSleep(s, p, at);
    case Exit(_) => EndLetsSleep(s, e, p, at);
    case CheckSignals => EndLetsSleep(s, e, p, at);
    case Tick(_) =>
    case _ => OtherLetsSleep(s, e, p, at);
  }

  lemma {:induction false} SleepsOn(states: seq<Sched>, events: seq<Event>, p: nat, at: nat, m: nat, n: nat)
    requires IsRun(states, events) && Inv(states[0]) && m <= n <= |events| && SleepsTill(states[m], p, at)
    requires forall i :: m <= i < n ==> Undisturbed(events[i], p) && (events[i].Tick? ==> events[i].now < at)
    ensures SleepsTill(states[n], p, at)
    decreases n - m
  {
    if m < n {
      SleepsOn(states, events, p, at, m, n - 1);
      RunKeepsInv(states, events, n - 1);
      StepLetsSleep(states[n - 1], events[n - 1], p, at);
    }
  }

  lemma TickWakes(s: Sched, now: nat, p: nat, at: nat)
    requires Shape(s) && SleepsTill(s, p, at) && 0 < at <= now
    ensures p in AfterTick(s, now).tab && AfterTick(s, now).tab[p].state.Ready?
    ensures p != s.current ==> AfterTick(s, now).tab[p] == s.tab[p].(state := Ready, wakeTick := 0, waitTicks := 0)
  {
  }

  /**
   * A task that goes to sleep for some ticks sleeps, unless it is woken or gets a signal, as long as
   * no tick comes at that time or after, and is ready after the first that does.
   */
  lemma SleeperWakes(states: seq<Sched>, events: seq<Event>, p: nat, now: nat, ticks: nat, n: nat)
    requires IsRun(states, events) && Inv(states[0]) && 0 < n <= |events|
    requires states[0].current == p && events[0] == Sleep(now, ticks) && ticks > 0
    requires forall i :: 0 < i < n ==> Undisturbed(events[i], p) && (events[i].Tick? ==> events[i].now < now + ticks)
    ensures SleepsTill(states[n], p, now + ticks)
    ensures n < |events| && events[n].Tick? && events[n].now >= now + ticks ==>
              p in states[n + 1].tab && states[n + 1].tab[p].state.Ready?
  {
    SleepsOn(states, events, p, now + ticks, 1, n);
    if n < |events| && events[n].Tick? && events[n].now >= now + ticks {
      TickWakes(states[n], events[n].now, p, now + ticks);
    }
  }

  /** Each way of waking a parked task queues it, so that its wait is bounded. */
  lemma WokenIsQueued(s: Sched, e: Event, p: nat)
    requires Inv(s) && Enabled(s, e) && p in s.tab && p != s.current && Parked(s.tab[p])
    requires || (e == Unblock(p) && s.tab[p].state.Blocked?) || (e == Wake(p) && s.tab[p].state.Sleeping?)
             || (e.Signal? && e.pid == p && 0 < e.sig < NSIG)
             || (e.Tick? && s.tab[p].state.Sleeping? && 0 < s.tab[p].wakeTick <= e.now)
             || (e.Exit? && s.tab[p].state.Waiting? && s.tab[p].waitingOn == s.current)
    ensures Queued(Step(s, e), p)
  {
    match e
    case Tick(now) => TickWakes(s, now, p, s.tab[p].wakeTick);
    case Exit(status) => ExitWakesItsWaiters(s, status, p);
    case _ =>
  }

  /** A new task is queued at the middle priority, and with a slice of ten ticks. */
  lemma CreatedIsQueued(s: Sched, user: bool)
    requires Inv(s) && Enabled(s, Create(user))
    ensures var s' := Step(s, Create(user)); var p := s.nextPid;
            && Queued(s', p) && s'.tab[p].basePriority == 2 && s'.tab[p].dynamicPriority == 2 && s'.tab[p].sliceRemaining == 10
            && p !in s.tab && s'.tab[p].parent == s.current && forall q :: q in s.tab ==> q in s'.tab && s'.tab[q] == s.tab[q]
  {
    assert s.nextPid !in s.tab;
  }

  // ---------- signals ----------

  /** No handler keeps SIGKILL away, and nothing is masked. */
  predicate Mortal(t: Task) { t.masked == {} && SIGKILL !in t.handlers }

  ghost predicate AllMortal(s: Sched) { forall p :: p in s.tab ==> Mortal(s.tab[p]) }

  lemma StepKeepsMortal(s: Sched, e: Event)
    requires Enabled(s, e) && AllMortal(s)
    ensures AllMortal(Step(s, e))
  {
    forall p | p in Step(s, e).tab ensures Mortal(Step(s, e).tab[p]) {
      OneStaysMortal(s, e, p);
    }
  }

  lemma OneStaysMortal(s: Sched, e: Event, p: nat)
    requires Enabled(s, e) && AllMortal(s) && p in Step(s, e).tab
    ensures Mortal(Step(s, e).tab[p])
  {
    if p in s.tab {
      assert Mortal(s.tab[p]);
    }
    match e
    case Yield => YieldKeepsMortal(s, p);
    case Tick(now) => TickKeepsMortal(s, now, p);
    case Exit(status) => ExitKeepsMortal(s, status, p);
    case CheckSignals => CheckKeepsMortal(s, p);
    case Reap => assert p in Survivors(s.tab);
    case _ => OtherKeepsMortal(s, e, p);
  }

  lemma YieldKeepsMortal(s: Sched, p: nat)
    requires Shape(s) && p in s.tab && Mortal(s.tab[p])
    ensures p in AfterYield(s).tab && Mortal(AfterYield(s).tab[p])
  {
    YieldedMortal(s.tab[p], p, s.current, AfterYield(s).current);
  }

  lemma YieldedMortal(t: Task, p: nat, current: nat, elected: nat)
    requires Mortal(t)
    ensures Mortal(YieldTask(t, p, current, elected))
  {
    AgedMortal(t, p == current);
  }

  lemma AgedMortal(t: Task, isCurrent: bool)
    requires Mortal(t)
    ensures Mortal(AgeIn(t, isCurrent))
  {
  }

  lemma TickKeepsMortal(s: Sched, now: nat, p: nat)
    requires Shape(s) && p in s.tab && Mortal(s.tab[p])
    ensures p in AfterTick(s, now).tab && Mortal(AfterTick(s, now).tab[p])
  {
    var t := WakeIfExpired(s.tab[p], now);
    assert Woken(s.tab, now)[p] == t;
    ChargedMortal(t);
    assert AfterTick(s, now).tab[p] == t || AfterTick(s, now).tab[p] == Charge(t);
  }

  lemma ChargedMortal(t: Task)
    requires Mortal(t)
    ensures Mortal(Charge(t))
  {
  }

  lemma ExitKeepsMortal(s: Sched, status: int, p: nat)
    requires Shape(s) && p in s.tab && Mortal(s.tab[p])
    ensures p in AfterExit(s, status).tab && Mortal(AfterExit(s, status).tab[p])
  {
  }

  lemma CheckKeepsMortal(s: Sched, p: nat)
    requires Shape(s) && p in s.tab && Mortal(s.tab[p])
    ensures p in AfterCheckSignals(s).tab && Mortal(AfterCheckSignals(s).tab[p])
  {
    var s', k := SignalsConsumed(s);
    assert p in s'.tab && Mortal(s'.tab[p]);
    if k != NSIG {
      ExitKeepsMortal(s', 128 + k, p);
    }
  }

  lemma OtherKeepsMortal(s: Sched, e: Event, p: nat)
    requires Enabled(s, e) && p in Step(s, e).tab && (p in s.tab ==> Mortal(s.tab[p]))
    requires e.Block? || e.Sleep? || e.Wait? || e.RequestYield? || e.SetHandler? || e.Unblock? || e.SetPriority? || e.Wake? || e.Signal? || e.Create?
    ensures Mortal(Step(s, e).tab[p])
  {
  }

  lemma {:induction false} RunKeepsMortal(states: seq<Sched>, events: seq<Event>, n: nat)
    requires IsRun(states, events) && AllMortal(states[0]) && n <= |events|
    ensures AllMortal(states[n])
    decreases n
  {
    if n > 0 {
      RunKeepsMortal(states, events, n - 1);
      StepKeepsMortal(states[n - 1], events[n - 1]);
    }
  }

  /** A signal that is pending for a live task. */
  predicate Due(s: Sched, p: nat, sig: nat) {
    p in s.tab && !s.tab[p].state.Dead? && s.tab[p].isUser && sig in s.tab[p].pending
  }

  lemma SignalBecomesDue(s: Sched, p: nat, sig: nat)
    requires Shape(s) && p in s.tab && !s.tab[p].state.Dead? && s.tab[p].isUser && 0 < sig < NSIG
    ensures Due(AfterSignal(s, p, sig), p, sig)
    ensures Parked(s.tab[p]) ==> AfterSignal(s, p, sig).tab[p].state.Ready?
  {
  }

  /** The check of a task with SIGKILL due ends it: by SIGKILL, or by a lower signal that kills. */
  lemma CheckKills(s: Sched)
    requires Enabled(s, CheckSignals) && AllMortal(s) && Due(s, s.current, 9)
    ensures var t := Step(s, CheckSignals).tab[s.current];
            t.state.Dead? && t.exitStatus - 128 in {2, 4, 6, 8, 9} && (t.exitStatus - 128) as nat in s.tab[s.current].pending
    ensures s.tab[s.current].pending == {9} ==> Step(s, CheckSignals).tab[s.current].exitStatus == 137
  {
    var t := s.tab[s.current];
    assert Mortal(t) && Kills(t, 9);
    var k := LeastKill(t, 9);
    assert KillsFirst(t, k);
    KillIsFirst(t, k);
    var s', r := SignalsConsumed(s);
  }

  lemma {:induction false} LeastKill(t: Task, bound: nat) returns (k: nat)
    requires Kills(t, bound)
    ensures k <= bound && KillsFirst(t, k)
    decreases bound
  {
    if g: nat :| g < bound && Kills(t, g) {
      k := LeastKill(t, g);
    } else {
      k := bound;
    }
  }

  lemma KillIsFirst(t: Task, k: nat)
    requires KillsFirst(t, k)
    ensures FirstKill(t) == k
  {
    var g: nat :| KillsFirst(t, g) && FirstKill(t) == g;
    assert KillsFirst(t, g);
    assert KillsFirst(t, k);
  }

  /**
   * What one signal does to the running user task that is sent it with nothing else pending, after it
   * has set a handler: SIGKILL and, unless they are ignored, six others end it with status 128 + sig; a
   * handler of its own does not help.  Every other signal is consumed without effect.
   */
  lemma Verdict(s: Sched, sig: nat, handler: nat)
    requires Enabled(s, SetHandler(sig, handler)) && 0 < sig < NSIG && Mortal(s.tab[s.current])
    requires s.tab[s.current].isUser && s.tab[s.current].pending == {}
    ensures var t := AfterSetHandler(s, sig, handler).tab[s.current];
            var s' := AfterCheckSignals(AfterSignal(AfterSetHandler(s, sig, handler), s.current, sig));
            if sig == 9 || (handler != SIG_IGN && sig in {2, 4, 6, 8, 11, 15}) then
              s'.tab[s.current].state.Dead? && s'.tab[s.current].exitStatus == 128 + sig
            else s'.tab[s.current] == t
  {
    var s1 := AfterSetHandler(s, sig, handler);
    var s2 := AfterSignal(s1, s.current, sig);
    var t1, t2 := s1.tab[s.current], s2.tab[s.current];
    assert t2 == t1.(pending := {sig});
    assert Kills(t2, sig) <==> sig == 9 || (handler != SIG_IGN && sig in {2, 4, 6, 8, 11, 15});
    if Kills(t2, sig) {
      OnlyKill(t2, sig);
    } else {
      NoKill(t2, sig);
      assert Left(t2, NSIG) == {};
    }
  }

  lemma OnlyKill(t: Task, sig: nat)
    requires t.pending == {sig} && Kills(t, sig)
    ensures FirstKill(t) == sig && sig < NSIG
  {
    assert KillsFirst(t, sig);
    KillIsFirst(t, sig);
  }

  lemma NoKill(t: Task, sig: nat)
    requires t.pending == {sig} && !Kills(t, sig)
    ensures FirstKill(t) == NSIG
  {
    forall g: nat ensures !KillsFirst(t, g) {
      assert KillsFirst(t, g) ==> Kills(t, g) && g in t.pending;
    }
  }

  /** The signal stays due until the task checks, ends, or is gone. */
  lemma StepKeepsDue(s: Sched, e: Event, p: nat)
    requires Inv(s) && Enabled(s, e) && AllMortal(s) && Due(s, p, 9)
    ensures Due(Step(s, e), p, 9) || Gone(Step(s, e), p)
  {
    match e
    case Yield => YieldKeepsDue(s, p);
    case Tick(now) => TickKeepsDue(s, now, p);
    case Reap => assert p in Survivors(s.tab);
    case Exit(status) =>
    case CheckSignals => CheckKeepsDue(s, p);
    case _ => OtherKeepsDue(s, e, p);
  }

  lemma YieldKeepsDue(s: Sched, p: nat)
    requires Inv(s) && Due(s, p, 9)
    ensures Due(AfterYield(s), p, 9)
  {
    NextIsReady(s);
    YieldedDue(s.tab[p], p, s.current, AfterYield(s).current);
  }

  lemma YieldedDue(t: Task, p: nat, current: nat, elected: nat)
    requires !t.state.Dead? && t.isUser && 9 in t.pending
    ensures var t' := YieldTask(t, p, current, elected); !t'.state.Dead? && t'.isUser && 9 in t'.pending
  {
    var a := AgeIn(t, p == current);
    assert !a.state.Dead? && a.isUser && a.pending == t.pending;
  }

  lemma TickKeepsDue(s: Sched, now: nat, p: nat)
    requires Shape(s) && Due(s, p, 9)
    ensures Due(AfterTick(s, now), p, 9)
  {
    var t := WakeIfExpired(s.tab[p], now);
    assert Woken(s.tab, now)[p] == t;
    ChargedDue(t);
    assert AfterTick(s, now).tab[p] == t || AfterTick(s, now).tab[p] == Charge(t);
  }

  lemma ChargedDue(t: Task)
    requires !t.state.Dead? && t.isUser && 9 in t.pending
    ensures !Charge(t).state.Dead? && Charge(t).isUser && 9 in Charge(t).pending
  {
  }

  lemma CheckKeepsDue(s: Sched, p: nat)
    requires Inv(s) && Enabled(s, CheckSignals) && AllMortal(s) && Due(s, p, 9)
    ensures Due(AfterCheckSignals(s), p, 9) || Gone(AfterCheckSignals(s), p)
  {
    if p == s.current {
      CheckKills(s);
    } else {
      ElsewhereKeepsDue(s, p);
    }
  }

  lemma ElsewhereKeepsDue(s: Sched, p: nat)
    requires Shape(s) && p != s.current && Due(s, p, 9)
    ensures Due(AfterCheckSignals(s), p, 9)
  {
    var s', k := SignalsConsumed(s);
  }

  lemma OtherKeepsDue(s: Sched, e: Event, p: nat)
    requires Enabled(s, e) && Due(s, p, 9) && s.nextPid !in s.tab
    requires e.Block? || e.Sleep? || e.Wait? || e.RequestYield? || e.SetHandler? || e.Unblock? || e.SetPriority? || e.Wake? || e.Signal? || e.Create?
    ensures Due(Step(s, e), p, 9)
  {
  }

  lemma StepKeepsGone(s: Sched, e: Event, p: nat)
    requires Inv(s) && Enabled(s, e) && Gone(s, p)
    ensures Gone(Step(s, e), p)
  {
    StepKeepsNextPid(s, e);
    if p in s.tab {
      StepKeepsDead(s, e, p);
    } else {
      StepKeepsUnlinked(s, e, p);
    }
  }

  /** p has SIGKILL due, or has ended. */
  ghost predicate Doomed(s: Sched, p: nat) { Due(s, p, 9) || Gone(s, p) }

  ghost predicate Sentenced(s: Sched, p: nat) { Inv(s) && AllMortal(s) && Doomed(s, p) }

  lemma StepKeepsSentenced(s: Sched, e: Event, p: nat, s': Sched)
    requires Enabled(s, e) && s' == Step(s, e) && Sentenced(s, p)
    ensures Sentenced(s', p)
  {
    StepKeepsInv(s, e);
    StepKeepsMortal(s, e);
    if Due(s, p, 9) {
      StepKeepsDue(s, e, p);
    } else {
      StepKeepsGone(s, e, p);
    }
  }

  lemma {:induction false} RunKeepsSentenced(states: seq<Sched>, events: seq<Event>, p: nat, n: nat)
    requires IsRun(states, events) && n <= |events| && Sentenced(states[0], p)
    ensures Sentenced(states[n], p)
    decreases n
  {
    if n > 0 {
      RunKeepsSentenced(states, events, p, n - 1);
      StepKeepsSentenced(states[n - 1], events[n - 1], p, states[n]);
    }
  }

  /**
   * SIGKILL kills.  In every run from boot, whatever handlers were set: a user task that is sent it while it
   * lives is ended the next time it checks its signals, with status 128 + 9, or 128 and the number of a lower
   * signal that ends it.
   */
  lemma KillIsSure(states: seq<Sched>, events: seq<Event>, p: nat, m: nat, n: nat)
    requires IsRun(states, events) && states[0] == Boot() && m < n < |events|
    requires p in states[m].tab && states[m].tab[p].isUser && !states[m].tab[p].state.Dead? && events[m] == Signal(p, 9)
    requires states[n].current == p && events[n].CheckSignals?
    ensures p in states[n + 1].tab && states[n + 1].tab[p].state.Dead?
    ensures states[n + 1].tab[p].exitStatus - 128 in {2, 4, 6, 8, 9}
    ensures states[n].tab[p].pending == {9} ==> states[n + 1].tab[p].exitStatus == 137
  {
    BootInv();
    StillDue(states, events, p, m, n);
    RunKeepsMortal(states, events, n);
    CheckKills(states[n]);
  }

  lemma StillDue(states: seq<Sched>, events: seq<Event>, p: nat, m: nat, n: nat)
    requires IsRun(states, events) && Inv(states[0]) && AllMortal(states[0]) && m < n < |events|
    requires p in states[m].tab && states[m].tab[p].isUser && !states[m].tab[p].state.Dead? && events[m] == Signal(p, 9)
    requires states[n].current == p && events[n].CheckSignals?
    ensures Due(states[n], p, 9)
  {
    SignalBecomesDue(states[m], p, 9);
    RunKeepsInv(states, events, m + 1);
    RunKeepsMortal(states, events, m + 1);
    RunSuffix(states, events, m + 1);
    RunKeepsSentenced(states[m + 1..], events[m + 1..], p, n - m - 1);
    assert states[m + 1..][n - m - 1] == states[n];
    assert Enabled(states[n], events[n]);
  }

  // ---------- the status of a task that has ended ----------

  /** p has ended and its parent, q, lives and has not waited for it yet. */
  predicate Uncollected(s: Sched, p: nat, q: nat, status: int) {
    && p in s.tab && s.tab[p].state.Dead? && s.tab[p].isZombie && s.tab[p].parent == q && s.tab[p].exitStatus == status
    && q in s.tab && q != 0 && !s.tab[q].state.Dead?
  }

  /** A wait for it takes the status, parks nobody and lets the sweep have it. */
  lemma WaitCollects(s: Sched, p: nat, q: nat, status: int)
    requires Inv(s) && Enabled(s, Wait(p)) && Uncollected(s, p, q, status)
    ensures var s' := Step(s, Wait(p));
            && s'.current == s.current && s'.tab[s.current].exitStatus == status && s'.tab[s.current].state == s.tab[s.current].state
            && CanReap(s'.tab, p) && s'.needsCleanup
  {
  }

  lemma StepLeavesUncollected(s: Sched, e: Event, p: nat, q: nat, status: int)
    requires Inv(s) && Enabled(s, e) && Uncollected(s, p, q, status) && e != Wait(p)
    ensures var s' := Step(s, e); q in s'.tab && (s'.tab[q].state.Dead? || Uncollected(s', p, q, status))
  {
    match e
    case Yield => YieldLeavesBoth(s, p, q);
    case Reap => NotReaped(s, p, q);
    case Exit(_) => EndLeaves(s, e, p, q, status);
    case CheckSignals => EndLeaves(s, e, p, q, status);
    case Tick(now) => TickLeaves(s, now, p, q, status);
    case Wait(pid) => WaitLeaves(s, pid, p, q, status);
    case _ => OtherLeaves(s, e, p, q, status);
  }

  lemma TickLeaves(s: Sched, now: nat, p: nat, q: nat, status: int)
    requires Shape(s) && Uncollected(s, p, q, status)
    ensures Uncollected(AfterTick(s, now), p, q, status)
  {
    assert Woken(s.tab, now)[p] == WakeIfExpired(s.tab[p], now) == s.tab[p];
    assert Woken(s.tab, now)[q] == WakeIfExpired(s.tab[q], now);
    ChargedLives(WakeIfExpired(s.tab[q], now));
  }

  lemma ChargedLives(t: Task)
    requires !t.state.Dead?
    ensures !Charge(t).state.Dead?
  {
  }

  lemma WaitLeaves(s: Sched, pid: nat, p: nat, q: nat, status: int)
    requires Enabled(s, Wait(pid)) && Uncollected(s, p, q, status) && pid != p
    ensures Uncollected(Step(s, Wait(pid)), p, q, status)
  {
  }

  lemma YieldLeavesBoth(s: Sched, p: nat, q: nat)
    requires Inv(s) && p in s.tab && q in s.tab && s.tab[p].state.Dead? && !s.tab[q].state.Dead?
    ensures AfterYield(s).tab[p] == s.tab[p] && !AfterYield(s).tab[q].state.Dead?
  {
    NextIsReady(s);
    YieldedDead(s.tab[p], p, s.current, AfterYield(s).current);
    YieldedLive(s.tab[q], q, s.current, AfterYield(s).current);
  }

  lemma YieldedDead(t: Task, p: nat, current: nat, elected: nat)
    requires t.state.Dead? && (p == elected ==> p == current)
    ensures YieldTask(t, p, current, elected) == t
  {
  }

  lemma YieldedLive(t: Task, p: nat, current: nat, elected: nat)
    requires !t.state.Dead?
    ensures !YieldTask(t, p, current, elected).state.Dead?
  {
    var a := AgeIn(t, p == current);
    assert !a.state.Dead?;
  }

  lemma NotReaped(s: Sched, p: nat, q: nat)
    requires Inv(s) && p in s.tab && s.tab[p].state.Dead? && s.tab[p].isZombie && s.tab[p].parent == q
    requires q in s.tab && q != 0 && !s.tab[q].state.Dead?
    ensures p in Survivors(s.tab) && q in Survivors(s.tab)
  {
    assert s.tab[q].state.Waiting? ==> s.tab[q].waitingOn != p;
  }

  lemma EndLeaves(s: Sched, e: Event, p: nat, q: nat, status: int)
    requires Enabled(s, e) && Uncollected(s, p, q, status) && (e.Exit? || e.CheckSignals?)
    ensures var s' := Step(s, e); q in s'.tab && (s'.tab[q].state.Dead? || Uncollected(s', p, q, status))
  {
  }

  lemma OtherLeaves(s: Sched, e: Event, p: nat, q: nat, status: int)
    requires Enabled(s, e) && Uncollected(s, p, q, status) && s.nextPid !in s.tab
    requires e.Block? || e.Sleep? || e.RequestYield? || e.SetHandler? || e.Unblock? || e.SetPriority? || e.Wake? || e.Signal? || e.Create?
    ensures Uncollected(Step(s, e), p, q, status)
  {
  }

  /** So the status waits for the parent: over every run it stays until somebody waits for it or the
      parent ends. */
  lemma {:induction false} StatusWaits(states: seq<Sched>, events: seq<Event>, p: nat, q: nat, status: int, n: nat)
    requires IsRun(states, events) && Inv(states[0]) && n <= |events| && Uncollected(states[0], p, q, status)
    requires forall i :: 0 <= i < n ==> events[i] != Wait(p)
    ensures Uncollected(states[n], p, q, status) || Gone(states[n], q)
    decreases n
  {
    if n > 0 {
      StatusWaits(states, events, p, q, status, n - 1);
      RunKeepsInv(states, events, n - 1);
      if Uncollected(states[n - 1], p, q, status) {
        StepLeavesUncollected(states[n - 1], events[n - 1], p, q, status);
        StepKeepsNextPid(states[n - 1], events[n - 1]);
      } else {
        StepKeepsGone(states[n - 1], events[n - 1], q);
      }
    }
  }
}
