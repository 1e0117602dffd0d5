/** Timed waits (kernel/sched.c:460-465 and 502-579). */
module SchedTimeout {
  import opened Lists
  import opened Sched
  import opened SchedInvariant
  import opened SchedWaiting

  function Ticks(ops: seq<Op>): nat {
    if ops == [] then 0 else (if ops[0] == Tick then 1 else 0) + Ticks(ops[1..])
  }

  /** No step suspends, wakes or stops t. */
  ghost predicate LeftAlone(ops: seq<Op>, t: Tid) {
    forall i :: 0 <= i < |ops| ==> Spares(ops[i], t) && ops[i] != Op.Ready(t)
  }

  /** t waits: its state, what is left of its wait, and its verdict so far. */
  ghost predicate Waits(s: Sys, t: Tid, st: State, wait: int, verdict: int) {
    && InState(s, t, st) && s.task[t].waitTime == wait && s.task[t].timeOut == verdict
  }

  // ---- while asleep -------------------------------------------------------

  lemma Sleeper(s: Sys, t: Tid)
    requires Inv(s) && InState(s, t, Sleep)
    ensures t in s.sleep.items && s.task[t].waitTime != 0 && t != s.idle
  {
  }

  /** A sleeping task is never chosen. */
  lemma PickAwake(s: Sys, t: Tid)
    requires Inv(s) && InState(s, t, Sleep)
    ensures FindNext(s).next != t
  {
    PickIsMostUrgent(s);
    if s.current != s.idle { assert InState(s, s.idle, Prepare); }
  }

  lemma TickRunSleeps(s: Sys, t: Tid, n: int, v: int)
    requires Inv(s) && Known(s) && Waits(s, t, Sleep, n, v)
    ensures Waits(TickRun(s), t, Sleep, n, v)
  {
    hide Inv, PrepareToSwitch, FindNext;
    ChargeKeeps(s);
    var s1 := Charge(s);
    if s1.task[s1.current].runTime == 0 {
      PickAwake(s1, t);
      SwitchDoes(s1, true);
    }
  }

  /** What one step makes of a sleeping task that is not woken. */
  lemma StepSleeps(s: Sys, op: Op, t: Tid, n: int, v: int)
    requires Inv(s) && Enabled(s, op) && Waits(s, t, Sleep, n, v)
    requires Spares(op, t) && op != Op.Ready(t) && (op == Tick ==> n != 1)
    ensures Waits(Step(s, op), t, Sleep, if op == Tick && n > 0 then n - 1 else n, v)
  {
    hide Inv, SleepScan, PrepareToSwitch, FindNext, SetTaskState, TickRun;
    InvShape(s);
    match op
    case Yield => PickAwake(s, t); SwitchDoes(s, false);
    case Tick =>
      Sleeper(s, t);
      ScanKeeps(s, s.sleep.items);
      TickRunSleeps(SleepScan(s, s.sleep.items), t, if n > 0 then n - 1 else n, v);
    case _ =>
  }

  /** A wait of n ticks lasts through n-1 ticks, and a wait without a limit
      through any number of them. */
  lemma {:induction false} SleepsThrough(s: Sys, ops: seq<Op>, t: Tid, n: int, v: int)
    requires Inv(s) && Legal(s, ops) && Waits(s, t, Sleep, n, v) && LeftAlone(ops, t)
    requires n > 0 ==> Ticks(ops) < n
    ensures Waits(Final(s, ops), t, Sleep, if n > 0 then n - Ticks(ops) else n, v)
    decreases |ops|
  {
    hide Inv, Step;
    if ops != [] {
      assert Spares(ops[0], t) && ops[0] != Op.Ready(t);
      StepKeeps(s, ops[0]);
      StepSleeps(s, ops[0], t, n, v);
      SleepsThrough(Step(s, ops[0]), ops[1..], t, if ops[0] == Tick && n > 0 then n - 1 else n, v);
    }
  }

  // ---- the tick that ends a wait -------------------------------------------

  /** Being switched in is the only thing that can happen to a ready task
      that the step is not aimed at, and it leaves the verdict. */
  lemma StepReadied(s: Sys, op: Op, t: Tid)
    requires Inv(s) && Enabled(s, op) && Waiting(s, t) && s.current != t && Spares(op, t)
    ensures t in Step(s, op).task
    ensures Step(s, op).task[t] == (if Step(s, op).current == t
              then Resumed(s.task[t]).(state := Running) else s.task[t])
  {
    hide Inv, Pending, SleepScan, PrepareToSwitch, FindNext, SetTaskState, TickRun;
    InvShape(s);
    StepWaits(s, op, t);
    match op
    case Yield => SwitchDoes(s, false);
    case Tick =>
      ScanKeeps(s, s.sleep.items);
      assert t !in s.sleep.items;
      TickRunReadied(SleepScan(s, s.sleep.items), t);
    case _ =>
  }

  lemma TickRunReadied(s: Sys, t: Tid)
    requires Inv(s) && Waiting(s, t) && s.current != t
    ensures Known(s) && t in TickRun(s).task
    ensures TickRun(s).task[t] == (if TickRun(s).current == t
              then Resumed(s.task[t]).(state := Running) else s.task[t])
  {
    hide Inv, PrepareToSwitch, FindNext;
    InvShape(s);
    ChargeKeeps(s);
    CurrentIsNext(Charge(s));
    if Charge(s).task[s.current].runTime == 0 { SwitchDoes(Charge(s), true); }
  }

  /** Readied by the last tick of its wait: in its queue with the wait used
      up, or already switched in by the same tick and told of the timeout. */
  ghost predicate TimedOut(s: Sys, t: Tid) {
    if s.current == t then Waits(s, t, Running, -1, 1) else Waits(s, t, Prepare, 0, 0)
  }

  lemma LastTick(s: Sys, t: Tid)
    requires Inv(s) && Waits(s, t, Sleep, 1, 0) && s.current != t
    ensures TimedOut(Step(s, Tick), t)
  {
    hide Inv, SleepScan, TickRun;
    InvShape(s);
    Sleeper(s, t);
    ScanKeeps(s, s.sleep.items);
    TickRunReadied(SleepScan(s, s.sleep.items), t);
  }

  /** Only ready tasks are switched in. */
  lemma SleeperNotSwitchedIn(s: Sys, op: Op, t: Tid, n: int, v: int)
    requires Inv(s) && Enabled(s, op) && Waits(s, t, Sleep, n, v) && s.current != t
    requires op == Tick ==> n != 1
    ensures Step(s, op).current != t
  {
    hide Inv, SetTaskState, SleepScan, PrepareToSwitch, FindNext;
    InvShape(s);
    match op
    case Yield => PickAwake(s, t); SwitchDoes(s, false);
    case Tick =>
      Sleeper(s, t);
      ScanKeeps(s, s.sleep.items);
      var s1 := SleepScan(s, s.sleep.items);
      ChargeKeeps(s1);
      CurrentIsNext(s1);
      PickAwake(Charge(s1), t);
      SwitchDoes(Charge(s1), true);
    case _ =>
  }

  /** A task that sleeps throughout a run is not current at its end. */
  lemma {:induction false} SleepsElsewhere(s: Sys, ops: seq<Op>, t: Tid, n: int, v: int)
    requires Inv(s) && Legal(s, ops) && Waits(s, t, Sleep, n, v) && LeftAlone(ops, t) && s.current != t
    requires n > 0 ==> Ticks(ops) < n
    ensures Final(s, ops).current != t
    decreases |ops|
  {
    hide Inv, Step;
    if ops != [] {
      assert Spares(ops[0], t) && ops[0] != Op.Ready(t);
      StepKeeps(s, ops[0]);
      StepSleeps(s, ops[0], t, n, v);
      SleeperNotSwitchedIn(s, ops[0], t, n, v);
      SleepsElsewhere(Step(s, ops[0]), ops[1..], t, if ops[0] == Tick && n > 0 then n - 1 else n, v);
    }
  }

  /** Exact timeout.  A task that was switched out with a wait of n > 0 and is
      not woken sleeps until the n-th tick and is ready right after it. */
  lemma ExactTimeout(s: Sys, ops: seq<Op>, t: Tid, n: int)
    requires n > 0 && Inv(s) && Legal(s, ops) && Waits(s, t, Sleep, n, 0) && LeftAlone(ops, t)
    requires Ticks(ops) == n - 1 && s.current != t
    ensures Waits(Final(s, ops), t, Sleep, 1, 0)
    ensures TimedOut(Step(Final(s, ops), Tick), t)
  {
    hide Inv, Step, Legal, Final, Ticks, LeftAlone;
    SleepsThrough(s, ops, t, n, 0);
    SleepsElsewhere(s, ops, t, n, 0);
    LastTick(Final(s, ops), t);
  }

  // ---- what suspend_task_timeout returns -------------------------------------

  /** Some step wakes t while it sleeps. */
  ghost predicate Woken(s: Sys, ops: seq<Op>, t: Tid)
    requires Inv(s) && Legal(s, ops)
    decreases |ops|
  {
    ops != [] &&
    (StepKeeps(s, ops[0]);
     (ops[0] == Op.Ready(t) && InState(s, t, Sleep)) || Woken(Step(s, ops[0]), ops[1..], t))
  }

  /** t is not current before the last state of the run, where it is. */
  ghost predicate Returns(s: Sys, ops: seq<Op>, t: Tid)
    requires Inv(s) && Legal(s, ops)
    decreases |ops|
  {
    if ops == [] then s.current == t
    else s.current != t && Spares(ops[0], t) &&
         (StepKeeps(s, ops[0]); Returns(Step(s, ops[0]), ops[1..], t))
  }

  lemma UnfoldReturn(s: Sys, ops: seq<Op>, t: Tid)
    requires Inv(s) && Legal(s, ops) && Returns(s, ops, t) && ops != []
    ensures Enabled(s, ops[0]) && Inv(Step(s, ops[0])) && Legal(Step(s, ops[0]), ops[1..])
    ensures s.current != t && Spares(ops[0], t) && Returns(Step(s, ops[0]), ops[1..], t)
    ensures Final(s, ops) == Final(Step(s, ops[0]), ops[1..])
    ensures Woken(s, ops, t) ==
      ((ops[0] == Op.Ready(t) && InState(s, t, Sleep)) || Woken(Step(s, ops[0]), ops[1..], t))
  {
    hide Inv, Step;
    StepKeeps(s, ops[0]);
  }

  /** A task that is ready reports a timeout iff its wait was used up. */
  lemma {:induction false} ReadyReports(s: Sys, ops: seq<Op>, t: Tid)
    requires Inv(s) && Legal(s, ops) && Returns(s, ops, t)
    requires Waiting(s, t) && s.current != t && s.task[t].timeOut == 0
    ensures t in Final(s, ops).task
    ensures Final(s, ops).task[t].timeOut == if s.task[t].waitTime == 0 then 1 else 0
    ensures !Woken(s, ops, t)
    decreases |ops|
  {
    hide Inv, Step;
    UnfoldReturn(s, ops, t);
    StepReadied(s, ops[0], t);
    StepWaits(s, ops[0], t);
    var r := Step(s, ops[0]);
    if r.current == t {
      assert ops[1..] == [];
    } else {
      hide Legal, Returns, Final, Woken;
      ReadyReports(r, ops[1..], t);
    }
  }

  lemma WakeReadies(s: Sys, t: Tid)
    requires Inv(s) && InState(s, t, Sleep)
    ensures Step(s, Op.Ready(t)).task[t] ==
      s.task[t].(state := Prepare, runTime := RunTimeOf(s.task[t].prio))
    ensures Waiting(Step(s, Op.Ready(t)), t) && Step(s, Op.Ready(t)).current == s.current
    ensures s.task[t].waitTime != 0
  {
    hide Inv, SetTaskState;
    InvShape(s);
    Sleeper(s, t);
  }

  /** The value suspend_task_timeout returns to a task that was switched out:
      a timeout iff nothing woke it while it slept. */
  lemma {:induction false} SuspendReports(s: Sys, ops: seq<Op>, t: Tid, n: int)
    requires Inv(s) && Legal(s, ops) && Returns(s, ops, t)
    requires Waits(s, t, Sleep, n, 0) && s.current != t
    ensures t in Final(s, ops).task
    ensures Final(s, ops).task[t].timeOut == if Woken(s, ops, t) then 0 else 1
    decreases |ops|
  {
    hide Inv, Step;
    UnfoldReturn(s, ops, t);
    Sleeper(s, t);
    var r := Step(s, ops[0]);
    StepKeepsIdle(s, ops[0]);
    if ops[0] == Op.Ready(t) {
      WakeReadies(s, t);
      ReadyReports(r, ops[1..], t);
    } else if ops[0] == Tick && n == 1 {
      LastTick(s, t);
      if r.current == t {
        assert ops[1..] == [] && Final(r, ops[1..]) == r && !Woken(r, ops[1..], t);
      } else {
        ReadyReports(r, ops[1..], t);
      }
    } else {
      StepSleeps(s, ops[0], t, n, 0);
      if r.current == t {
        assert ops[1..] == [];
        assert Final(s, ops) == r;
        SleeperNotSwitchedIn(s, ops[0], t, n, 0);
      } else {
        hide Legal, Returns, Final, Woken;
        SuspendReports(r, ops[1..], t, if ops[0] == Tick && n > 0 then n - 1 else n);
      }
    }
  }

  lemma StepKeepsIdle(s: Sys, op: Op)
    requires Inv(s) && Enabled(s, op)
    ensures Step(s, op).idle == s.idle
  {
    hide Inv, SetTaskState, FindNext, SleepScan;
    InvShape(s);
    if op == Tick { ScanKeeps(s, s.sleep.items); }
  }

  // ---- a wait that ends before the switch --------------------------------------

  /** sched() leaves a running task in place, except when the current task was
      readied between its suspend and its switch and is chosen itself: then it
      goes on in state PREPARE, still queued. */
  lemma YieldSettles(s: Sys)
    requires Inv(s)
    ensures Known(s)
    ensures Settled(Resched(s)) <==>
              !(InState(s, s.current, Prepare) && FindNext(s).next == s.current)
    ensures !Settled(Resched(s)) ==>
              Resched(s).current == s.current &&
              Resched(s).task[s.current].timeOut == s.task[s.current].timeOut
  {
    hide ListInv, PrioInv, PrepareToSwitch, FindNext;
    InvShape(s);
    PickIsMostUrgent(s);
    SwitchDoes(s, false);
    if s.current != s.idle && !InState(s, s.current, Running) {
      assert InState(s, s.idle, Prepare);
    }
  }

  /** The suspending task outranks every ready task, and nothing sleeps. */
  ghost predicate Outranks(s: Sys, t: Tid) {
    && s.current == t && t in s.task && s.sleep.items == []
    && forall u :: InState(s, u, Prepare) && u != t ==> s.task[t].prio < s.task[u].prio
  }

  lemma SuspendAlone(s: Sys, t: Tid)
    requires Inv(s) && t != s.idle && Outranks(s, t) && Settled(s) && s.task[t].runTime >= 2
    ensures var r := Step(s, Block(t, 1));
      && r.current == t && r.sleep.items == [t] && Waits(r, t, Sleep, 1, 0)
      && r.task == s.task[t := s.task[t].(waitTime := 1, timeOut := 0, state := Sleep)]
  {
  }

  lemma TickAlone(s: Sys, t: Tid)
    requires Inv(s) && Waits(s, t, Sleep, 1, 0) && s.current == t && s.sleep.items == [t]
    requires s.task[t].runTime >= 2
    ensures var r := Step(s, Tick);
      && r.current == t && Waits(r, t, Prepare, 0, 0)
      && r.task == s.task[t := r.task[t]] && r.task[t].prio == s.task[t].prio
  {
    hide Inv, PrepareToSwitch, FindNext, SleepScan;
    InvShape(s);
    ScanKeeps(s, [t]);
    CurrentIsNext(SleepScan(s, [t]));
  }

  /** Lost timeout.  When the wait runs out before the task has been switched
      out and no ready task outranks it, suspend_task_timeout returns without
      reporting the timeout, and the task runs on in state PREPARE. */
  lemma LostTimeout(s: Sys, t: Tid)
    requires Inv(s) && t != s.idle && Outranks(s, t) && Settled(s) && s.task[t].runTime >= 2
    ensures Legal(s, [Block(t, 1), Tick, Yield])
    ensures var r := Final(s, [Block(t, 1), Tick, Yield]);
            r.current == t && Waits(r, t, Prepare, 0, 0)
  {
    hide Inv, Step;
    SuspendAlone(s, t);
    StepKeeps(s, Block(t, 1));
    var s1 := Step(s, Block(t, 1));
    TickAlone(s1, t);
    StepKeeps(s1, Tick);
    var s2 := Step(s1, Tick);
    StepKeeps(s2, Yield);
    YieldAlone(s2, t);
    FinalCons(s2, Yield, []);
    FinalCons(s1, Tick, [Yield]);
    FinalCons(s, Block(t, 1), [Tick, Yield]);
    assert [Block(t, 1)] + ([Tick] + ([Yield] + [])) == [Block(t, 1), Tick, Yield];
  }

  lemma YieldAlone(s: Sys, t: Tid)
    requires Inv(s) && s.current == t && Waits(s, t, Prepare, 0, 0)
    requires forall u :: InState(s, u, Prepare) && u != t ==> s.task[t].prio < s.task[u].prio
    ensures Step(s, Yield).current == t && Waits(Step(s, Yield), t, Prepare, 0, 0)
  {
    hide Inv, PrepareToSwitch, FindNext;
    InvShape(s);
    PickIsMostUrgent(s);
    SwitchDoes(s, false);
  }

  lemma FinalCons(s: Sys, op: Op, ops: seq<Op>)
    requires Inv(s) && Enabled(s, op) && Inv(Step(s, op)) && Legal(Step(s, op), ops)
    ensures Legal(s, [op] + ops) && Final(s, [op] + ops) == Final(Step(s, op), ops)
  {
    hide Inv, Step;
    assert ([op] + ops)[1..] == ops;
  }
}
