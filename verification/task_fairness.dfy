/**
 * Bounded waiting: how many passes a ready task can be passed over.
 */
module TaskFairness {
  import opened TaskModel
  import opened TaskInvariant

  /** Scheduling passes among the events. */
  function Passes(events: seq<Event>): nat {
    if events == [] then 0 else Passes(events[..|events| - 1]) + (if events[|events| - 1].Yield? then 1 else 0)
  }

  ghost predicate NoPriorityChange(events: seq<Event>) {
    forall i :: 0 <= i < |events| ==> !events[i].SetPriority?
  }

  /** w waits in the ready queue. */
  ghost predicate Queued(s: Sched, w: nat) {
    w in s.tab && s.tab[w].state.Ready? && s.current != w
  }

  /** Tasks that could be chosen before w once w has the top priority: a superset of those
      that are ready, so that wake-ups cannot enlarge it. */
  ghost function Ahead(s: Sched, w: nat): set<nat>
    requires w in s.tab
  {
    set p | p in s.tab && p != w && s.tab[p].dynamicPriority == PRIORITY_MAX
            && s.tab[p].waitTicks >= s.tab[w].waitTicks
  }

  /** How far w has aged, in passes. */
  function Age(t: Task): nat {
    STARVATION_THRESHOLD * t.dynamicPriority +
    (if t.waitTicks < STARVATION_THRESHOLD then t.waitTicks else STARVATION_THRESHOLD - 1)
  }

  /** What a step other than a pass may do to the standing of w and its rivals. */
  ghost predicate Quiet(s: Sched, s': Sched, w: nat)
    requires w in s.tab
  {
    && w in s'.tab && s'.tab[w].state == s.tab[w].state
    && s'.tab[w].dynamicPriority == s.tab[w].dynamicPriority && s'.tab[w].waitTicks == s.tab[w].waitTicks
    && (forall p :: p in s'.tab && p != w ==>
          if p in s.tab then s'.tab[p].dynamicPriority == s.tab[p].dynamicPriority
                             && s'.tab[p].waitTicks <= s.tab[p].waitTicks
          else s'.tab[p].dynamicPriority < PRIORITY_MAX)
  }

  lemma TickIsQuiet(s: Sched, now: nat, w: nat)
    requires Shape(s) && Queued(s, w)
    ensures Quiet(s, AfterTick(s, now), w)
  {
    TickOne(s, now, w);
    forall p | p in s.tab ensures TickedQuietly(s.tab[p], AfterTick(s, now).tab[p]) {
      TickOne(s, now, p);
    }
  }

  lemma TickOne(s: Sched, now: nat, p: nat)
    requires Shape(s) && p in s.tab
    ensures TickedQuietly(s.tab[p], AfterTick(s, now).tab[p])
    ensures p != s.current && s.tab[p].state.Ready? ==> AfterTick(s, now).tab[p] == s.tab[p]
  {
  }

  predicate TickedQuietly(t: Task, t': Task) {
    t'.dynamicPriority == t.dynamicPriority && t'.waitTicks <= t.waitTicks
  }

  lemma ExitIsQuiet(s: Sched, status: int, w: nat)
    requires Shape(s) && Queued(s, w)
    ensures Quiet(s, AfterExit(s, status), w)
  {
  }

  lemma CheckSignalsIsQuiet(s: Sched, w: nat)
    requires Shape(s) && Queued(s, w)
    ensures Quiet(s, AfterCheckSignals(s), w)
  {
    var t := s.tab[s.current];
    var k := FirstKill(t);
    var s1 := s.(tab := s.tab[s.current := Consumed(t, k)]);
    assert Quiet(s, s1, w);
    ExitIsQuiet(s1, 128 + k, w);
  }

  lemma ReapIsQuiet(s: Sched, w: nat)
    requires Shape(s) && Queued(s, w)
    ensures Quiet(s, AfterReap(s), w)
  {
    assert w in Survivors(s.tab);
  }

  lemma OtherStepsAreQuiet(s: Sched, e: Event, w: nat)
    requires Enabled(s, e) && !e.Yield? && !e.SetPriority? && Queued(s, w) && s.nextPid !in s.tab
    ensures Quiet(s, Step(s, e), w)
  {
    match e
    case Tick(now) => TickIsQuiet(s, now, w);
    case Exit(status) => ExitIsQuiet(s, status, w);
    case CheckSignals => CheckSignalsIsQuiet(s, w);
    case Reap => ReapIsQuiet(s, w);
    case _ => OneTaskIsQuiet(s, e, w);
  }

  lemma OneTaskIsQuiet(s: Sched, e: Event, w: nat)
    requires Enabled(s, e) && Queued(s, w) && s.nextPid !in s.tab
    requires !e.Yield? && !e.SetPriority? && !e.Tick? && !e.Exit? && !e.CheckSignals? && !e.Reap?
    ensures Quiet(s, Step(s, e), w)
  {
    if e.Create? {
      assert FreshTask(s.current, e.user).dynamicPriority < PRIORITY_MAX;
    } else {
      OneTaskMoves(s, e, w);
    }
  }

  /** The steps that rewrite at most one task, or two that wait for each other. */
  lemma OneTaskMoves(s: Sched, e: Event, w: nat)
    requires Enabled(s, e) && Queued(s, w)
    requires e.Block? || e.Sleep? || e.RequestYield? || e.Unblock? || e.Wake? || e.Signal? || e.SetHandler? || e.Wait?
    ensures Quiet(s, Step(s, e), w)
  {
    if e.Wait? {
      WaitIsQuiet(s, e.pid, w);
    } else if e.Unblock? || e.Wake? || e.Signal? {
      OtherTaskMoves(s, e, w);
    } else {
      RewriteIsQuiet(s, s.current, Step(s, e), w);
    }
  }

  /** Those that name the task they rewrite. */
  lemma OtherTaskMoves(s: Sched, e: Event, w: nat)
    requires Enabled(s, e) && Queued(s, w) && (e.Unblock? || e.Wake? || e.Signal?)
    ensures Quiet(s, Step(s, e), w)
  {
    RewriteIsQuiet(s, e.pid, Step(s, e), w);
  }

  /** Rewriting a task other than a queued one, without raising its standing, is quiet. */
  lemma RewriteIsQuiet(s: Sched, p: nat, s': Sched, w: nat)
    requires w in s.tab && s'.tab.Keys == s.tab.Keys && forall q :: q in s.tab && q != p ==> s'.tab[q] == s.tab[q]
    requires p in s.tab ==> TickedQuietly(s.tab[p], s'.tab[p])
    requires s'.tab[w].state == s.tab[w].state && s'.tab[w].waitTicks == s.tab[w].waitTicks
    ensures Quiet(s, s', w)
  {
  }

  lemma WaitIsQuiet(s: Sched, pid: nat, w: nat)
    requires Shape(s) && Queued(s, w)
    ensures Quiet(s, AfterWait(s, pid), w)
  {
    var s' := AfterWait(s, pid);
    forall p | p in s.tab ensures p in s'.tab && TickedQuietly(s.tab[p], s'.tab[p]) {
    }
  }

  lemma QuietShrinks(s: Sched, s': Sched, w: nat)
    requires w in s.tab && Quiet(s, s', w)
    ensures Ahead(s', w) <= Ahead(s, w)
  {
  }

  /** A pass that does not choose w ages it. */
  lemma PassAges(s: Sched, w: nat)
    requires Inv(s) && Queued(s, w) && AfterYield(s).current != w
    ensures Queued(AfterYield(s), w)
    ensures AfterYield(s).tab[w] == AgeTask(s.tab[w])
  {
  }

  /** What the pass knows about a task b it prefers to a top-priority w. */
  lemma PreferredIsAhead(w: Task, b: Task, isCurrent: bool)
    requires w.dynamicPriority == PRIORITY_MAX && b.dynamicPriority <= PRIORITY_MAX
    requires Candidate(b, isCurrent) && (isCurrent ==> Rested(b))
    requires !Beats(AgeTask(w), AgeIn(b, isCurrent))
    ensures !isCurrent && b.dynamicPriority == PRIORITY_MAX && b.waitTicks >= w.waitTicks
  {
  }

  /** A pass over a queue where w already has the top priority, and does not choose w,
      chooses one of the tasks ahead of w. */
  lemma PassTakesFromAhead(s: Sched, w: nat)
    requires Inv(s) && Queued(s, w) && AfterYield(s).current != w
    requires s.tab[w].dynamicPriority == PRIORITY_MAX
    ensures AfterYield(s).current in Ahead(s, w)
    ensures AfterYield(s).current != s.current
  {
    var aged := Aged(s.tab, s.current);
    BestExists(s.list, aged, s.current, w);
    var k: nat :| IsBest(s.list, aged, s.current, k) && s.list[k] == Elected(s);
    var b := Elected(s);
    var i :| 0 <= i < |s.list| && s.list[i] == w;
    assert !Beats(aged[s.list[i]], aged[b]);
    PreferredIsAhead(s.tab[w], s.tab[b], b == s.current);
  }

  /** ... and from then on that task is never ahead of w again: the set only shrinks. */
  lemma PassShrinks(s: Sched, w: nat)
    requires Inv(s) && Queued(s, w) && AfterYield(s).current != w
    requires s.tab[w].dynamicPriority == PRIORITY_MAX
    ensures AfterYield(s).tab[w].dynamicPriority == PRIORITY_MAX
    ensures Ahead(AfterYield(s), w) < Ahead(s, w)
  {
    PassTakesFromAhead(s, w);
    var s' := AfterYield(s);
    var b := s'.current;
    forall p | p in Ahead(s', w) ensures p in Ahead(s, w) && p != b {
      assert s'.tab[p] == YieldTask(s.tab[p], p, s.current, b);
    }
  }

  /** A step that does not dispatch w leaves it queued, and a pass ages it. */
  lemma StepAges(s: Sched, e: Event, w: nat)
    requires Inv(s) && Enabled(s, e) && !e.SetPriority? && Queued(s, w) && Step(s, e).current != w
    ensures Queued(Step(s, e), w)
    ensures s.tab[w].dynamicPriority == PRIORITY_MAX ==> Step(s, e).tab[w].dynamicPriority == PRIORITY_MAX
    ensures Step(s, e).tab[w].dynamicPriority == PRIORITY_MAX || Age(Step(s, e).tab[w]) >= Age(s.tab[w]) + (if e.Yield? then 1 else 0)
  {
    if e.Yield? {
      PassAges(s, w);
    } else {
      OtherStepsAreQuiet(s, e, w);
    }
  }

  lemma PassesNext(events: seq<Event>, n: nat)
    requires 0 < n <= |events|
    ensures Passes(events[..n]) == Passes(events[..n - 1]) + (if events[n - 1].Yield? then 1 else 0)
  {
    assert events[..n][..n - 1] == events[..n - 1];
  }

  /** Over a run that never dispatches w, w stays queued and gains at least one unit of age
      per pass until it has the top priority. */
  lemma {:induction false} AgeGrows(states: seq<Sched>, events: seq<Event>, w: nat, n: nat)
    requires IsRun(states, events) && Inv(states[0]) && NoPriorityChange(events) && n <= |events|
    requires Queued(states[0], w) && forall i :: 0 <= i < |states| ==> states[i].current != w
    ensures Inv(states[n]) && Queued(states[n], w)
    ensures states[n].tab[w].dynamicPriority == PRIORITY_MAX ||
            Age(states[n].tab[w]) >= Age(states[0].tab[w]) + Passes(events[..n])
    decreases n
  {
    RunKeepsInv(states, events, n);
    if n > 0 {
      AgeGrows(states, events, w, n - 1);
      PassesNext(events, n);
      StepAges(states[n - 1], events[n - 1], w);
    }
  }

  /** With w at the top priority, a pass that does not dispatch it spends one of the tasks
      ahead of it, and no other step adds one. */
  lemma StepShrinks(s: Sched, e: Event, w: nat)
    requires Inv(s) && Enabled(s, e) && !e.SetPriority? && Queued(s, w) && Step(s, e).current != w
    requires s.tab[w].dynamicPriority == PRIORITY_MAX
    ensures w in Step(s, e).tab && |Ahead(Step(s, e), w)| + (if e.Yield? then 1 else 0) <= |Ahead(s, w)|
  {
    if e.Yield? {
      PassAges(s, w);
      PassShrinks(s, w);
      SmallerSet(Ahead(AfterYield(s), w), Ahead(s, w));
    } else {
      OtherStepsAreQuiet(s, e, w);
      QuietShrinks(s, Step(s, e), w);
      SubsetSize(Ahead(Step(s, e), w), Ahead(s, w));
    }
  }

  /** Once w has the top priority, each further pass spends one of the tasks ahead of it. */
  lemma {:induction false} AheadShrinks(states: seq<Sched>, events: seq<Event>, w: nat, n: nat)
    requires IsRun(states, events) && Inv(states[0]) && NoPriorityChange(events) && n <= |events|
    requires Queued(states[0], w) && forall i :: 0 <= i < |states| ==> states[i].current != w
    requires states[0].tab[w].dynamicPriority == PRIORITY_MAX
    ensures Inv(states[n]) && Queued(states[n], w) && states[n].tab[w].dynamicPriority == PRIORITY_MAX
    ensures |Ahead(states[n], w)| + Passes(events[..n]) <= |Ahead(states[0], w)|
    decreases n
  {
    RunKeepsInv(states, events, n);
    if n > 0 {
      AheadShrinks(states, events, w, n - 1);
      PassesNext(events, n);
      StepAges(states[n - 1], events[n - 1], w);
      StepShrinks(states[n - 1], events[n - 1], w);
    }
  }

  lemma {:induction false} SubsetSize(a: set<nat>, b: set<nat>)
    requires a <= b
    ensures |a| <= |b|
  {
    assert b == a + (b - a);
  }

  lemma SmallerSet(a: set<nat>, b: set<nat>)
    requires a < b
    ensures |a| < |b|
  {
    var x :| x in b && x !in a;
    SubsetSize(a + {x}, b);
  }

  /** A list links at least as many tasks as it has distinct pids. */
  lemma {:induction false} ListedSize(list: seq<nat>, pids: set<nat>)
    requires forall p :: p in pids ==> p in list
    ensures |pids| <= |list|
  {
    if list == [] {
      assert pids == {};
    } else {
      ListedSize(list[1..], pids - {list[0]});
      SubsetSize(pids, pids - {list[0]} + {list[0]});
    }
  }

  lemma AheadBelowListed(s: Sched, w: nat)
    requires Inv(s) && w in s.tab
    ensures |Ahead(s, w)| < |s.list|
  {
    assert forall p :: p in Ahead(s, w) + {w} ==> p in s.list;
    ListedSize(s.list, Ahead(s, w) + {w});
  }

  lemma {:induction false} PassesSplit(events: seq<Event>, m: nat)
    requires m <= |events|
    ensures Passes(events) == Passes(events[..m]) + Passes(events[m..])
    decreases |events|
  {
    if m == |events| {
      assert events[..m] == events;
    } else {
      var init := events[..|events| - 1];
      PassesSplit(init, m);
      assert init[..m] == events[..m];
      assert events[m..][..|events| - m - 1] == init[m..];
    }
  }

  lemma RunSuffix(states: seq<Sched>, events: seq<Event>, m: nat)
    requires IsRun(states, events) && m <= |events|
    ensures IsRun(states[m..], events[m..])
  {
    forall i | 0 <= i < |events[m..]|
      ensures Enabled(states[m..][i], events[m..][i]) && states[m..][i + 1] == Step(states[m..][i], events[m..][i])
    {
      assert states[m..][i] == states[m + i] && events[m..][i] == events[m + i];
    }
  }

  lemma AgedToTop(t: Task, t': Task, passes: nat)
    requires t.dynamicPriority <= PRIORITY_MAX && t'.dynamicPriority <= PRIORITY_MAX
    requires passes == STARVATION_THRESHOLD * (PRIORITY_MAX - t.dynamicPriority)
    requires t'.dynamicPriority == PRIORITY_MAX || Age(t') >= Age(t) + passes
    ensures t'.dynamicPriority == PRIORITY_MAX
  {
  }

  /** At the top priority w outlasts fewer passes than there are tasks listed. */
  lemma TopIsServed(states: seq<Sched>, events: seq<Event>, w: nat)
    requires IsRun(states, events) && Inv(states[0]) && NoPriorityChange(events)
    requires Queued(states[0], w) && states[0].tab[w].dynamicPriority == PRIORITY_MAX
    requires forall i :: 0 <= i < |states| ==> states[i].current != w
    ensures Passes(events) < |states[0].list|
  {
    AheadShrinks(states, events, w, |events|);
    assert events[..|events|] == events;
    AheadBelowListed(states[0], w);
  }

  /**
   * Bounded waiting.  Take any run without task_set_priority from a state where w is queued
   * at dynamic priority d, and any point m by which 50*(4-d) passes have been made, with N
   * tasks listed there.  If the whole run makes 50*(4-d)+N passes or more, whatever tasks
   * wake, exit, are created or reaped on the way, then w is dispatched in it.
   */
  lemma BoundedWaiting(states: seq<Sched>, events: seq<Event>, w: nat, m: nat)
    requires IsRun(states, events) && Inv(states[0]) && NoPriorityChange(events)
    requires Queued(states[0], w) && m <= |events|
    requires Passes(events[..m]) == STARVATION_THRESHOLD * (PRIORITY_MAX - states[0].tab[w].dynamicPriority)
    requires Passes(events) >= Passes(events[..m]) + |states[m].list|
    ensures exists i :: 0 <= i < |states| && states[i].current == w
  {
    if forall i :: 0 <= i < |states| ==> states[i].current != w {
      AgeGrows(states, events, w, m);
      AgedToTop(states[0].tab[w], states[m].tab[w], Passes(events[..m]));
      RunSuffix(states, events, m);
      TopIsServed(states[m..], events[m..], w);
      PassesSplit(events, m);
      assert false;
    }
  }
}
