/** The scheduler's data (kernel/sched.c) as a value, and one function per
    operation.  The class in SchedKernel.dfy updates the same data in place
    and is proved equal to these functions. */
module Sched {
  import opened Lists

  const MAX_PRIO := 64
  const DEFAULT_PRIO := 20
  const IDLE_PRIO := MAX_PRIO - 1
  const NR_PID := 1024

  type Tid = nat

  datatype State = Prepare | Running | Sleep | Idle | Stop | Unknown

  datatype Task = Task(state: State, pid: int, prio: nat, runTime: int,
                       waitTime: int, timeOut: int, runCount: nat)

  /** A list with its separately kept length (struct sched_list). */
  datatype SchedList = SchedList(items: seq<Tid>, count: int) {
    function AddHead(t: Tid): SchedList { SchedList([t] + items, count + 1) }
    function AddTail(t: Tid): SchedList { SchedList(items + [t], count + 1) }
    function Remove(t: Tid): SchedList { SchedList(Del(items, t), count - 1) }
    ghost predicate Ok() { NoDup(items) && count == |items| }
  }

  const EMPTY := SchedList([], 0)

  /** Everything the scheduler owns.  `idle` is the idle task, `idlers` the
      list of tasks that wait to be removed (task_idle in the source). */
  datatype Sys = Sys(task: map<Tid, Task>, table: seq<SchedList>,
                     sleep: SchedList, idlers: SchedList, system: SchedList,
                     current: Tid, next: Tid, idle: Tid, nextPid: nat)

  /** What the C types guarantee before any function may be called. */
  ghost predicate Shape(s: Sys) {
    && |s.table| == MAX_PRIO
    && s.current in s.task && s.next in s.task && s.idle in s.task
    && forall t :: t in s.task ==> s.task[t].prio < MAX_PRIO
  }

  // ---- set_task_state -------------------------------------------------

  datatype Change =
    | NoneToPrepare | NoneToSleep | PrepareToRunning | PrepareToSleep
    | PrepareToIdle | RunningToSleep | RunningToPrepare | RunningToIdle
    | SleepToPrepare | SleepToIdle | SleepToRunning | PrepareToUnknown
    | NoneToNone

  /** change_table. */
  function ChangeOf(old_: State, new_: State): Change {
    match (old_, new_)
    case (Unknown, Prepare) => NoneToPrepare
    case (Unknown, Sleep) => NoneToSleep
    case (Prepare, Running) => PrepareToRunning
    case (Prepare, Sleep) => PrepareToSleep
    case (Prepare, Idle) => PrepareToIdle
    case (Running, Sleep) => RunningToSleep
    case (Running, Prepare) => RunningToPrepare
    case (Running, Idle) => RunningToIdle
    case (Sleep, Prepare) => SleepToPrepare
    case (Sleep, Idle) => SleepToIdle
    case (Sleep, Running) => SleepToRunning
    case (Prepare, Unknown) => PrepareToUnknown
    case _ => NoneToNone
  }

  /** Each row of the table belongs to one pair of states. Twelve changes are legal: a task
      starts ready or asleep, IDLE and STOP are final, and nothing becomes STOP. */
  lemma RowOf(old_: State, new_: State)
    ensures match ChangeOf(old_, new_)
            case NoneToPrepare => old_ == Unknown && new_ == Prepare
            case NoneToSleep => old_ == Unknown && new_ == Sleep
            case PrepareToRunning => old_ == Prepare && new_ == Running
            case PrepareToSleep => old_ == Prepare && new_ == Sleep
            case PrepareToIdle => old_ == Prepare && new_ == Idle
            case RunningToSleep => old_ == Running && new_ == Sleep
            case RunningToPrepare => old_ == Running && new_ == Prepare
            case RunningToIdle => old_ == Running && new_ == Idle
            case SleepToPrepare => old_ == Sleep && new_ == Prepare
            case SleepToIdle => old_ == Sleep && new_ == Idle
            case SleepToRunning => old_ == Sleep && new_ == Running
            case PrepareToUnknown => old_ == Prepare && new_ == Unknown
            case NoneToNone => true
    ensures ChangeOf(old_, new_) != NoneToNone <==>
      match old_
      case Unknown => new_ in {Prepare, Sleep}
      case Prepare => new_ in {Running, Sleep, Idle, Unknown}
      case Running => new_ in {Prepare, Sleep, Idle}
      case Sleep => new_ in {Prepare, Running, Idle}
      case Idle => false
      case Stop => false
  {
  }

  /** set_task_state, list by list: a task leaves the list of its old state
      and joins the tail of the list of its new one (a task that starts asleep
      joins the head); the source spells out one case per row of the table. */
  function SetTaskState(s: Sys, t: Tid, new_: State): (r: Sys)
    requires Shape(s) && t in s.task
    ensures Shape(r) && r.task.Keys == s.task.Keys
    ensures r == s.(task := r.task, table := r.table, sleep := r.sleep,
                    idlers := r.idlers, system := r.system)
    ensures r.task == s.task[t := s.task[t].(state :=
              if ChangeOf(s.task[t].state, new_) == NoneToNone then s.task[t].state else new_)]
  {
    var old_, p := s.task[t].state, s.task[t].prio;
    if ChangeOf(old_, new_) == NoneToNone then s else
      s.(task := s.task[t := s.task[t].(state := new_)],
         table := if old_ == Prepare then s.table[p := s.table[p].Remove(t)]
                  else if new_ == Prepare then s.table[p := s.table[p].AddTail(t)]
                  else s.table,
         sleep := if old_ == Sleep then s.sleep.Remove(t)
                  else if new_ == Sleep && old_ == Unknown then s.sleep.AddHead(t)
                  else if new_ == Sleep then s.sleep.AddTail(t)
                  else s.sleep,
         idlers := if new_ == Idle then s.idlers.AddTail(t) else s.idlers,
         system := if old_ == Unknown then s.system.AddTail(t) else s.system)
  }

  // ---- picking and switching ------------------------------------------

  function RunTimeOf(prio: nat): int { 5 + (MAX_PRIO - prio) }

  /** dec_prio: one step less urgent, wrapping before the idle queue. */
  function NextPrio(k: Task): nat {
    var q := if k.prio < MAX_PRIO - 1 then k.prio + 1 else k.prio;
    if k.pid != -1 && q == MAX_PRIO - 1 then 0 else q
  }

  /** The most urgent level at or after i whose count is not zero. */
  function FirstReady(table: seq<SchedList>, i: nat): nat
    requires i <= |table|
    decreases |table| - i
  {
    if i == |table| || table[i].count != 0 then i else FirstReady(table, i + 1)
  }

  /** find_next_run_task.  A level with a count but no task has no first
      entry; no reachable state has one. */
  function FindNext(s: Sys): (r: Sys)
    requires Shape(s)
    ensures r == s.(next := r.next)
  {
    var i := FirstReady(s.table, 0);
    if i < |s.table| && s.table[i].items != [] then s.(next := s.table[i].items[0]) else s
  }

  /** What giving up the processor does to the outgoing task. */
  function Spent(c: Task, irq: bool): Task {
    if c.runTime == 0 || !irq then c.(prio := NextPrio(c), runTime := RunTimeOf(NextPrio(c))) else c
  }

  /** The first half of prepare_to_switch. */
  function Requeue(s: Sys, irq: bool): (r: Sys)
    requires Shape(s)
    ensures Shape(r) && r.task.Keys == s.task.Keys
    ensures r.task == s.task[s.current := if s.task[s.current].state == Running
              then Spent(s.task[s.current], irq).(state := Prepare) else s.task[s.current]]
    ensures r.current == s.current && r.next == s.next && r.idle == s.idle && r.nextPid == s.nextPid
  {
    var c := s.task[s.current];
    if c.state == Running then
      var c' := Spent(c, irq);
      SetTaskState(s.(task := s.task[s.current := c']), s.current, Prepare)
    else s
  }

  /** The second half of prepare_to_switch. */
  function Admit(s: Sys): (r: Sys)
    requires Shape(s)
    ensures Shape(r) && r.task.Keys == s.task.Keys
    ensures r.task == s.task[s.next := r.task[s.next]]
    ensures r.current == s.current && r.next == s.next && r.idle == s.idle && r.nextPid == s.nextPid
  {
    SetTaskState(s.(task := s.task[s.next := Resumed(s.task[s.next])]), s.next, Running)
  }

  /** A task whose wait ran out learns so when it is switched in. */
  function Resumed(n: Task): Task {
    n.(timeOut := if n.waitTime == 0 then 1 else n.timeOut, waitTime := -1)
  }

  /** prepare_to_switch; the context switch that follows makes next current. */
  function PrepareToSwitch(s: Sys, irq: bool): (r: Sys)
    requires Shape(s)
    ensures Shape(r) && r.task.Keys == s.task.Keys
    ensures r.current == s.current && r.next == s.next
  {
    if s.current == s.next then
      var n := s.task[s.next];
      s.(task := s.task[s.next := n.(runTime := RunTimeOf(n.prio), runCount := n.runCount + 1)])
    else Admit(Requeue(s, irq))
  }

  function SwitchTo(s: Sys): Sys { s.(current := s.next) }

  /** A runnable task must exist: what FindNext needs to name a known task. */
  ghost predicate Known(s: Sys) {
    && Shape(s)
    && forall p, t :: 0 <= p < MAX_PRIO && t in s.table[p].items ==> t in s.task
  }

  /** sched(), called outside an interrupt. */
  function Resched(s: Sys): (r: Sys)
    requires Known(s)
    ensures Shape(r) && r.task.Keys == s.task.Keys
  {
    SwitchTo(PrepareToSwitch(FindNext(s), false))
  }

  // ---- the tick -------------------------------------------------------

  /** The body of the loop over the sleep list. */
  function TickOne(s: Sys, t: Tid): (r: Sys)
    requires Shape(s) && t in s.task
    ensures Shape(r) && r.task.Keys == s.task.Keys
    ensures r.task == s.task[t := r.task[t]]
    ensures r.current == s.current && r.next == s.next && r.idle == s.idle && r.nextPid == s.nextPid
  {
    var k := s.task[t];
    var w := if k.waitTime > 0 then k.waitTime - 1 else k.waitTime;
    var s := s.(task := s.task[t := k.(waitTime := w)]);
    if w == 0 then SetTaskState(s, t, Prepare) else s
  }

  function SleepScan(s: Sys, ts: seq<Tid>): (r: Sys)
    requires Shape(s) && forall t :: t in ts ==> t in s.task
    ensures Shape(r) && r.task.Keys == s.task.Keys
    ensures r.current == s.current && r.next == s.next && r.idle == s.idle && r.nextPid == s.nextPid
    decreases |ts|
  {
    if ts == [] then s else SleepScan(TickOne(s, ts[0]), ts[1..])
  }

  function Charge(s: Sys): (r: Sys)
    requires Shape(s)
    ensures Shape(r) && r.task.Keys == s.task.Keys
  {
    var c := s.task[s.current];
    s.(task := s.task[s.current := c.(runTime := c.runTime - 1)])
  }

  /** os_tick_handler after its loop, and the return from the interrupt. */
  function TickRun(s: Sys): (r: Sys)
    requires Known(s)
    ensures Shape(r) && r.task.Keys == s.task.Keys
  {
    var s := Charge(s);
    SwitchTo(if s.task[s.current].runTime == 0 then PrepareToSwitch(FindNext(s), true) else s)
  }

  // ---- the other entry points -----------------------------------------

  /** init_sched_struct, get_new_pid and the transition that starts a task. */
  function Create(s: Sys, t: Tid): (r: Sys)
    requires Shape(s) && t !in s.task
    ensures Shape(r)
  {
    if s.nextPid == NR_PID then s else
      var k := Task(Unknown, s.nextPid, DEFAULT_PRIO, RunTimeOf(DEFAULT_PRIO), -1, 0, 0);
      SetTaskState(s.(task := s.task[t := k], nextPid := s.nextPid + 1), t, Prepare)
  }

  /** The critical section of suspend_task_timeout. */
  function Suspend(s: Sys, t: Tid, timeout: int): (r: Sys)
    requires Shape(s) && t in s.task
    ensures Shape(r) && r.task.Keys == s.task.Keys
  {
    var k := s.task[t];
    if timeout == 0 || k.state == Idle then s else
      SetTaskState(s.(task := s.task[t := k.(waitTime := timeout, timeOut := 0)]), t, Sleep)
  }

  function Wake(s: Sys, t: Tid): (r: Sys)
    requires Shape(s) && t in s.task
    ensures Shape(r) && r.task.Keys == s.task.Keys
  {
    var k := s.task[t];
    if k.state != Sleep then s else
      SetTaskState(s.(task := s.task[t := k.(runTime := RunTimeOf(k.prio))]), t, Prepare)
  }

  predicate Removable(k: Task) { k.state == Idle && k.pid != 0 && k.pid != 1 }

  /** sched_remove_task; the task structure is released with it. */
  function Remove(s: Sys, t: Tid): (r: Sys)
    requires Shape(s) && t in s.task && t != s.current && t != s.next && t != s.idle
    ensures Shape(r)
  {
    if !Removable(s.task[t]) then s else
      s.(task := s.task - {t}, idlers := s.idlers.Remove(t), system := s.system.Remove(t))
  }
}
