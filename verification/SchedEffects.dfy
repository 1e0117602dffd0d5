/** What each step of the scheduler does to each task and to each list (kernel/sched.c), field
    by field, and what that means for the tasks over a run: who can be removed, and when. */
module SchedEffects {
  import opened Lists
  import opened Sched
  import opened SchedInvariant

  // ---- levels and run times ------------------------------------------------------------

  /** A level that is less urgent by one runs one tick less: 69 ticks at level 0, 49 at level
      20 where tasks start, 6 at level 63, which is idle's. */
  lemma RunTimes(prio: nat)
    ensures RunTimeOf(0) == 69 && RunTimeOf(20) == 49 && RunTimeOf(63) == 6
    ensures RunTimeOf(prio + 1) == RunTimeOf(prio) - 1
  {
  }

  /** A task that is charged goes one level down; from level 62 it goes back to level 0, so that
      it never meets idle, who stays. */
  lemma Levels(k: Task)
    requires k.prio < 64
    ensures k.prio < 62 ==> NextPrio(k) == k.prio + 1
    ensures k.prio >= 62 && k.pid != -1 ==> NextPrio(k) == 0
    ensures k.prio >= 62 && k.pid == -1 ==> NextPrio(k) == 63
  {
  }

  // ---- one step -------------------------------------------------------------------------

  /** Everything but task t, the lists and the pid counter is as before. */
  ghost predicate OnlyTask(s: Sys, r: Sys, t: Tid) {
    && (forall u :: u != t ==> (u in r.task <==> u in s.task))
    && (forall u :: u != t && u in s.task ==> u in r.task && r.task[u] == s.task[u])
    && r.current == s.current && r.idle == s.idle
  }

  /** All queues but that of level p are as before. */
  ghost predicate OnlyLevel(s: Sys, r: Sys, p: nat) {
    |r.table| == |s.table| && forall q :: 0 <= q < |s.table| && q != p ==> r.table[q] == s.table[q]
  }

  /** A task is created while there are pids: ready, at level 20, at the tail of its queue. */
  lemma NewEffect(s: Sys, t: Tid)
    requires Inv(s) && t !in s.task
    ensures var r := Step(s, New(t));
      if s.nextPid >= 1024 then r == s
      else
        && OnlyTask(s, r, t) && t in r.task && r.task[t] == Task(Prepare, s.nextPid, 20, 49, -1, 0, 0)
        && r.nextPid == s.nextPid + 1 && OnlyLevel(s, r, 20) && |s.table| == 64
        && r.table[20].items == s.table[20].items + [t] && r.system.items == s.system.items + [t]
        && r.sleep == s.sleep && r.idlers == s.idlers
  {
    InvShape(s);
  }

  /** A task other than an exited one falls asleep for n ticks, last in the sleep list; a wait of
      0 is refused. */
  lemma BlockEffect(s: Sys, t: Tid, n: int)
    requires Inv(s) && t in s.task && t != s.idle
    ensures var r := Step(s, Block(t, n));
      if n == 0 || s.task[t].state == Idle then r == s
      else
        && OnlyTask(s, r, t) && t in r.task && r.nextPid == s.nextPid
        && r.task[t] == s.task[t].(state := Sleep, waitTime := n, timeOut := 0)
        && r.sleep.items == (if s.task[t].state == Sleep then s.sleep.items else s.sleep.items + [t])
        && r.idlers == s.idlers && r.system == s.system
        && OnlyLevel(s, r, s.task[t].prio) && forall p :: 0 <= p < |r.table| ==> t !in r.table[p].items
  {
    hide Inv, Step, OnlyTask, OnlyLevel;
    StepKeeps(s, Block(t, n));
    BlockTask(s, t, n);
    if n != 0 && s.task[t].state != Idle { BlockLists(s, t, n); }
    OffQueues(Step(s, Block(t, n)), t);
  }

  lemma BlockTask(s: Sys, t: Tid, n: int)
    requires Inv(s) && t in s.task && t != s.idle
    ensures var r := Step(s, Block(t, n));
      if n == 0 || s.task[t].state == Idle then r == s
      else
        && OnlyTask(s, r, t) && t in r.task && r.nextPid == s.nextPid
        && r.task[t] == s.task[t].(state := Sleep, waitTime := n, timeOut := 0)
  {
    hide Inv, SetTaskState;
    InvShape(s);
    StateOf(s, t);
  }

  lemma BlockLists(s: Sys, t: Tid, n: int)
    requires Inv(s) && t in s.task && t != s.idle && n != 0 && s.task[t].state != Idle
    ensures var r := Step(s, Block(t, n));
      && r.sleep.items == (if s.task[t].state == Sleep then s.sleep.items else s.sleep.items + [t])
      && r.idlers == s.idlers && r.system == s.system && OnlyLevel(s, r, s.task[t].prio)
  {
    hide Inv;
    InvShape(s);
    StateOf(s, t);
  }

  lemma StateOf(s: Sys, t: Tid)
    requires Inv(s) && t in s.task
    ensures var st := s.task[t].state; st == Prepare || st == Running || st == Sleep || st == Idle
  {
  }

  lemma OffQueues(s: Sys, t: Tid)
    requires Inv(s)
    ensures !InState(s, t, Prepare) ==> forall p :: 0 <= p < |s.table| ==> t !in s.table[p].items
    ensures !InState(s, t, Sleep) ==> t !in s.sleep.items
    ensures !InState(s, t, Idle) ==> t !in s.idlers.items
    ensures t !in s.task ==> t !in s.system.items
  {
    forall p | 0 <= p < |s.table| && t in s.table[p].items ensures InState(s, t, Prepare) { assert Queued(s, t, p); }
  }

  /** A sleeping task becomes ready with a full run time, last in the queue of its level; a task
      that does not sleep is left alone. */
  lemma ReadyEffect(s: Sys, t: Tid)
    requires Inv(s) && t in s.task
    ensures var r := Step(s, Ready(t));
      if s.task[t].state != Sleep then r == s
      else
        && OnlyTask(s, r, t) && t in r.task && r.nextPid == s.nextPid
        && r.task[t] == s.task[t].(state := Prepare, runTime := 69 - s.task[t].prio)
        && s.task[t].prio < |s.table| && OnlyLevel(s, r, s.task[t].prio)
        && r.table[s.task[t].prio].items == s.table[s.task[t].prio].items + [t]
        && t !in r.sleep.items && r.idlers == s.idlers && r.system == s.system
  {
    hide Inv, Step, OnlyTask, OnlyLevel;
    StepKeeps(s, Ready(t));
    ReadyTask(s, t);
    OffQueues(Step(s, Ready(t)), t);
  }

  lemma ReadyTask(s: Sys, t: Tid)
    requires Inv(s) && t in s.task
    ensures var r := Step(s, Ready(t));
      if s.task[t].state != Sleep then r == s
      else
        && OnlyTask(s, r, t) && t in r.task && r.nextPid == s.nextPid
        && r.task[t] == s.task[t].(state := Prepare, runTime := 69 - s.task[t].prio)
        && s.task[t].prio < |s.table| && OnlyLevel(s, r, s.task[t].prio)
        && r.table[s.task[t].prio].items == s.table[s.task[t].prio].items + [t]
        && r.idlers == s.idlers && r.system == s.system
  {
    hide Inv;
    InvShape(s);
  }

  /** A task that exits leaves its queue or the sleep list and is last among those to be removed;
      one that has exited stays where it is. */
  lemma ExitEffect(s: Sys, t: Tid)
    requires Inv(s) && t in s.task && t != s.idle
    ensures var r := Step(s, Exit(t));
      if s.task[t].state == Idle then r == s
      else
        && OnlyTask(s, r, t) && t in r.task && r.task[t] == s.task[t].(state := Idle) && r.nextPid == s.nextPid
        && r.idlers.items == s.idlers.items + [t] && r.system == s.system && t !in r.sleep.items
        && OnlyLevel(s, r, s.task[t].prio) && forall p :: 0 <= p < |r.table| ==> t !in r.table[p].items
  {
    hide Inv, Step, OnlyTask, OnlyLevel;
    StepKeeps(s, Exit(t));
    ExitTask(s, t);
    OffQueues(Step(s, Exit(t)), t);
  }

  lemma ExitTask(s: Sys, t: Tid)
    requires Inv(s) && t in s.task && t != s.idle
    ensures var r := Step(s, Exit(t));
      if s.task[t].state == Idle then r == s
      else
        && OnlyTask(s, r, t) && t in r.task && r.task[t] == s.task[t].(state := Idle) && r.nextPid == s.nextPid
        && r.idlers.items == s.idlers.items + [t] && r.system == s.system && OnlyLevel(s, r, s.task[t].prio)
  {
    hide Inv;
    InvShape(s);
    StateOf(s, t);
  }

  /** A task is removed if and only if it has exited and is not one of the first two tasks; then
      it is gone and on no list. */
  lemma ReapEffect(s: Sys, t: Tid)
    requires Inv(s) && t in s.task && t != s.idle && t != s.current
    ensures var r := Step(s, Reap(t));
      if s.task[t].state == Idle && s.task[t].pid != 0 && s.task[t].pid != 1 then
        && OnlyTask(s, r, t) && t !in r.task && r.nextPid == s.nextPid
        && OnNoList(r, t) && t !in r.system.items && r.table == s.table && r.sleep == s.sleep
      else r == s
  {
    StepKeeps(s, Reap(t));
    hide Inv, Known;
    InvShape(s);
    OffQueues(Step(s, Reap(t)), t);
  }

  /** What a switch makes of the task that gives up the processor: it is charged if it called
      sched() or its time is over, and queued. */
  ghost predicate Outgoing(c: Task, r: Task, irq: bool) {
    if c.state != Running then r == c
    else if irq && c.runTime != 0 then r == c.(state := Prepare)
    else
      var p := if c.prio < 62 then c.prio + 1 else if c.pid == -1 then 63 else 0;
      r == c.(state := Prepare, prio := p, runTime := 69 - p)
  }

  /** And of the task that gets it: it runs, its wait is over, and it learns whether that ran
      out. */
  ghost predicate Incoming(n: Task, r: Task) {
    r == n.(state := Running, waitTime := -1, timeOut := if n.waitTime == 0 then 1 else n.timeOut)
  }

  /** sched(): the picked task runs; it and the outgoing one change as stated, nobody else does.
      If the current task is picked again it gets a full run time. */
  lemma YieldEffect(s: Sys)
    requires Inv(s)
    ensures Shape(s) && FindNext(s).next in s.task
    ensures var r, n, c := Step(s, Yield), FindNext(s).next, s.current;
      && r.current == n && r.task.Keys == s.task.Keys
      && (forall u :: u in s.task && u != n && u != c ==> r.task[u] == s.task[u])
      && (if n == c then r.task[n] == s.task[n].(runTime := 69 - s.task[n].prio, runCount := s.task[n].runCount + 1)
          else Outgoing(s.task[c], r.task[c], false) && Incoming(s.task[n], r.task[n]))
  {
    SwitchFields(s, false);
  }

  lemma SwitchFields(s: Sys, irq: bool)
    requires Inv(s)
    ensures Known(s) && FindNext(s).next in s.task
    ensures var r, n, c := SwitchTo(PrepareToSwitch(FindNext(s), irq)), FindNext(s).next, s.current;
      && r.current == n && r.task.Keys == s.task.Keys
      && (forall u :: u in s.task && u != n && u != c ==> r.task[u] == s.task[u])
      && (if n == c then r.task[n] == s.task[n].(runTime := 69 - s.task[n].prio, runCount := s.task[n].runCount + 1)
          else Outgoing(s.task[c], r.task[c], irq) && Incoming(s.task[n], r.task[n]))
  {
    InvShape(s);
    hide Inv, FindNext, PrepareToSwitch;
    SwitchDoes(s, irq);
    Levels(s.task[s.current]);
  }

  /** What a tick makes of a task before it charges the current one: a sleeper's wait falls by one,
      and at zero it is ready. */
  function Waited(k: Task): Task {
    if k.state != Sleep || k.waitTime < 0 then k
    else k.(waitTime := k.waitTime - 1, state := if k.waitTime == 1 then Prepare else Sleep)
  }

  /** A tick: every sleeper waits one tick less, the current task has one less to run, and when
      it has none left the picked task takes over. */
  lemma TickEffect(s: Sys)
    requires Inv(s)
    ensures var r, c := Step(s, Tick), s.current;
      && c in s.task && r.task.Keys == s.task.Keys
      && var k := Waited(s.task[c]).(runTime := s.task[c].runTime - 1);
         if k.runTime != 0 then
           && r.current == c && r.task[c] == k
           && forall u :: u in s.task && u != c ==> r.task[u] == Waited(s.task[u])
         else
           && (forall u :: u in s.task && u != c && u != r.current ==> r.task[u] == Waited(s.task[u]))
           && r.current in s.task
           && (if r.current == c then r.task[c] == k.(runTime := 69 - k.prio, runCount := k.runCount + 1)
               else Outgoing(k, r.task[c], true) && Incoming(Waited(s.task[r.current]), r.task[r.current]))
  {
    hide Inv, FindNext, PrepareToSwitch, Charged, Step, Outgoing, Incoming;
    TickStages(s);
    var m := Charged(s);
    if m.task[s.current].runTime == 0 { SwitchFields(m, true); }
  }

  /** The state a tick has reached when it decides whether to switch. */
  ghost function Charged(s: Sys): Sys
    requires Inv(s)
  {
    InvShape(s);
    Charge(SleepScan(s, s.sleep.items))
  }

  lemma TickStages(s: Sys)
    requires Inv(s)
    ensures s.current in s.task
    ensures var m := Charged(s);
      && Inv(m) && Known(m) && m.current == m.next == s.current && m.task.Keys == s.task.Keys
      && (forall u :: u in s.task && u != s.current ==> m.task[u] == Waited(s.task[u]))
      && m.task[s.current] == Waited(s.task[s.current]).(runTime := s.task[s.current].runTime - 1)
      && Step(s, Tick) == Switched(m)
  {
    hide Inv, SleepScan, Known, Switched;
    InvShape(s);
    ScanKeeps(s, s.sleep.items);
    SleepersTick(s);
    ChargeKeeps(SleepScan(s, s.sleep.items));
    InvShape(Charged(s));
    TickIs(s);
  }

  /** What a tick then makes of it. */
  ghost function Switched(m: Sys): Sys
    requires Inv(m)
  {
    InvShape(m);
    if m.task[m.current].runTime == 0 then SwitchTo(PrepareToSwitch(FindNext(m), true)) else m
  }

  lemma TickIs(s: Sys)
    requires Inv(s) && Inv(Charged(s))
    ensures Step(s, Tick) == Switched(Charged(s))
  {
    hide Inv, SleepScan, FindNext, PrepareToSwitch, Known;
    InvShape(s);
    ScanKeeps(s, s.sleep.items);
    InvShape(Charged(s));
  }

  lemma SleepersTick(s: Sys)
    requires Inv(s)
    ensures Shape(s) && (forall u :: u in s.sleep.items ==> u in s.task)
    ensures forall u :: u in s.task ==> SleepScan(s, s.sleep.items).task[u] == Waited(s.task[u])
  {
    InvShape(s);
    ScanKeeps(s, s.sleep.items);
    SleepersWait(s);
    OnSleepList(s);
    hide Inv, SleepScan;
  }

  lemma OnSleepList(s: Sys)
    requires Inv(s)
    ensures forall t :: t in s.sleep.items <==> InState(s, t, Sleep)
  {
  }

  // ---- over every run ------------------------------------------------------------------------

  /** Only a removal takes a task away; nothing changes its pid, and nothing but a removal
      changes an exited task that is switched out. */
  lemma TaskStays(s: Sys, op: Op, t: Tid)
    requires Inv(s) && Enabled(s, op) && t in s.task
    requires op != Reap(t) || s.task[t].state != Idle || s.task[t].pid == 0 || s.task[t].pid == 1
    ensures t in Step(s, op).task && Step(s, op).task[t].pid == s.task[t].pid
    ensures s.task[t].state == Idle ==> Step(s, op).task[t].state == Idle
  {
    hide Inv, Step;
    match op
    case New(u) => NewEffect(s, u);
    case Yield => YieldEffect(s); PickedReady(s);
    case Tick => TickEffect(s); TickPicksReady(s);
    case Block(u, n) => BlockEffect(s, u, n);
    case Ready(u) => ReadyEffect(s, u);
    case Exit(u) => ExitEffect(s, u);
    case Reap(u) => ReapEffect(s, u);
  }

  lemma PickedReady(s: Sys)
    requires Inv(s)
    ensures Shape(s)
    ensures var n := FindNext(s).next; n == s.current || InState(s, n, Prepare)
  {
    InvShape(s);
    PickIsMostUrgent(s);
  }

  lemma TickPicksReady(s: Sys)
    requires Inv(s)
    ensures var r := Step(s, Tick); r.current in s.task && (r.current != s.current ==> s.task[r.current].state != Idle)
  {
    hide Inv, FindNext, PrepareToSwitch, Charged, Step, Outgoing, Incoming;
    TickStages(s);
    var m := Charged(s);
    if m.task[s.current].runTime == 0 {
      SwitchFields(m, true);
      PickedReady(m);
    }
  }

  /** Over every run the tasks with pids 0 and 1 stay. */
  lemma {:induction false} FirstTasksStay(s: Sys, ops: seq<Op>, t: Tid)
    requires Inv(s) && Legal(s, ops) && t in s.task && (s.task[t].pid == 0 || s.task[t].pid == 1)
    ensures t in Final(s, ops).task && Final(s, ops).task[t].pid == s.task[t].pid
    decreases |ops|
  {
    hide Inv, Step;
    if ops != [] {
      TaskStays(s, ops[0], t);
      StepKeeps(s, ops[0]);
      FirstTasksStay(Step(s, ops[0]), ops[1..], t);
    }
  }

  /** Any other task that has exited stays exited until it is removed, and once it is switched
      out the first removal takes it away. */
  lemma {:induction false} ExitedIsRemoved(s: Sys, ops: seq<Op>, t: Tid)
    requires Inv(s) && Legal(s, ops) && InState(s, t, Idle) && s.task[t].pid != 0 && s.task[t].pid != 1
    requires Reap(t) !in ops
    ensures var r := Final(s, ops);
      && InState(r, t, Idle) && r.task[t].pid == s.task[t].pid
      && (t != r.current && t != r.idle ==> t !in Step(r, Reap(t)).task)
    decreases |ops|
  {
    hide Inv, Step;
    if ops != [] {
      TaskStays(s, ops[0], t);
      StepKeeps(s, ops[0]);
      ExitedIsRemoved(Step(s, ops[0]), ops[1..], t);
    } else if t != s.current && t != s.idle {
      ReapEffect(s, t);
    }
  }
}
