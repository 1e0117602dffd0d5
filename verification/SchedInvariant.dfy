/** What every step of the scheduler keeps (kernel/sched.c), for all runs. */
module SchedInvariant {
  import opened Lists
  import opened Sched

  ghost predicate Queued(s: Sys, t: Tid, p: int) {
    t in s.task && s.task[t].state == Prepare && s.task[t].prio == p
  }

  ghost predicate InState(s: Sys, t: Tid, st: State) {
    t in s.task && s.task[t].state == st
  }

  /** PREPARE iff queued, exactly once, at the task's own priority. */
  ghost predicate TableInv(s: Sys) {
    && (forall p :: 0 <= p < |s.table| ==> s.table[p].Ok())
    && (forall p, t :: 0 <= p < |s.table| ==> (t in s.table[p].items <==> Queued(s, t, p)))
  }

  /** SLEEP iff on the sleep list. */
  ghost predicate SleepInv(s: Sys) {
    s.sleep.Ok() && forall t :: t in s.sleep.items <==> InState(s, t, Sleep)
  }

  /** IDLE iff on the list of tasks to be removed. */
  ghost predicate IdlersInv(s: Sys) {
    s.idlers.Ok() && forall t :: t in s.idlers.items <==> InState(s, t, Idle)
  }

  ghost predicate SystemInv(s: Sys) {
    && s.system.Ok()
    && forall t :: t in s.system.items <==> t in s.task && t != s.idle && s.task[t].state != Unknown
  }

  /** The lists follow the task states, and every stored count is the length
      of its list. */
  ghost predicate ListInv(s: Sys) {
    Shape(s) && TableInv(s) && SleepInv(s) && IdlersInv(s) && SystemInv(s)
  }

  /** Idle owns the last level; every other task stays above it. */
  ghost predicate PrioInv(s: Sys) {
    && s.idle in s.task && s.task[s.idle].prio == IDLE_PRIO && s.task[s.idle].pid == -1
    && (forall t :: t in s.task && t != s.idle ==>
          s.task[t].prio < IDLE_PRIO && 0 <= s.task[t].pid < s.nextPid)
    && (forall t, u :: t in s.task && u in s.task && t != u ==> s.task[t].pid != s.task[u].pid)
    && s.nextPid <= NR_PID
  }

  /** Only the current task runs, idle can always run, and a wait that is
      over is not on the sleep list. */
  ghost predicate StateInv(s: Sys) {
    && s.current in s.task && s.next == s.current && s.idle in s.task
    && (forall t :: t in s.task ==>
          && s.task[t].state != Unknown && s.task[t].state != Stop
          && (s.task[t].state == Running ==> t == s.current)
          && (s.task[t].state == Sleep ==> s.task[t].waitTime != 0))
    && (s.task[s.idle].state == Prepare || s.task[s.idle].state == Running)
  }

  ghost predicate Inv(s: Sys) { ListInv(s) && PrioInv(s) && StateInv(s) }

  // ---- set_task_state keeps the lists ----------------------------------

  lemma AddTailMembers(l: SchedList, t: Tid)
    requires l.Ok() && t !in l.items
    ensures l.AddTail(t).Ok()
    ensures forall u :: u in l.AddTail(t).items <==> u in l.items || u == t
  {
    NoDupAppend(l.items, t);
  }

  lemma RemoveMembers(l: SchedList, t: Tid)
    requires l.Ok() && t in l.items
    ensures l.Remove(t).Ok()
    ensures forall u :: u in l.Remove(t).items <==> u in l.items && u != t
  {
  }

  lemma TableFollows(s: Sys, t: Tid, new_: State)
    requires Shape(s) && TableInv(s) && t in s.task
    ensures TableInv(SetTaskState(s, t, new_))
  {
    var p := s.task[t].prio;
    var r := SetTaskState(s, t, new_);
    if s.task[t].state == Prepare {
      assert Queued(s, t, p);
      RemoveMembers(s.table[p], t);
      assert r.table == s.table || r.table == s.table[p := s.table[p].Remove(t)];
    } else {
      assert !Queued(s, t, p);
      AddTailMembers(s.table[p], t);
      assert r.table == s.table || r.table == s.table[p := s.table[p].AddTail(t)];
    }
    assert Queued(r, t, p) <==> t in r.table[p].items;
    hide SetTaskState;
  }

  lemma SleepFollows(s: Sys, t: Tid, new_: State)
    requires Shape(s) && SleepInv(s) && t in s.task
    ensures SleepInv(SetTaskState(s, t, new_))
  {
    var r := SetTaskState(s, t, new_);
    if s.task[t].state == Sleep {
      RemoveMembers(s.sleep, t);
      assert r.sleep == s.sleep || r.sleep == s.sleep.Remove(t);
    } else {
      AddTailMembers(s.sleep, t);
      assert r.sleep == s.sleep || r.sleep == s.sleep.AddTail(t) || r.sleep == s.sleep.AddHead(t);
    }
    assert InState(r, t, Sleep) <==> t in r.sleep.items;
    hide SetTaskState;
  }

  lemma IdlersFollow(s: Sys, t: Tid, new_: State)
    requires Shape(s) && IdlersInv(s) && t in s.task
    ensures IdlersInv(SetTaskState(s, t, new_))
  {
    if s.task[t].state != Idle { AddTailMembers(s.idlers, t); }
  }

  /** The list of all tasks is never left: a task made UNKNOWN again stays on it,
      and the idle task, which does not belong there, must not start UNKNOWN. */
  ghost predicate SystemGap(s: Sys, t: Tid, new_: State)
    requires t in s.task
  {
    || (t != s.idle && ChangeOf(s.task[t].state, new_) == PrepareToUnknown)
    || (t == s.idle && s.task[t].state == Unknown && ChangeOf(Unknown, new_) != NoneToNone)
  }

  lemma SystemFollows(s: Sys, t: Tid, new_: State)
    requires Shape(s) && SystemInv(s) && t in s.task
    ensures SystemInv(SetTaskState(s, t, new_)) <==> !SystemGap(s, t, new_)
  {
    var r := SetTaskState(s, t, new_);
    if s.task[t].state == Unknown {
      AddTailMembers(s.system, t);
      assert r.system == s.system || r.system == s.system.AddTail(t);
    } else {
      assert r.system == s.system;
    }
    if SystemGap(s, t, new_) { assert t in r.system.items; }
    hide SetTaskState;
  }

  /** The table in the source has one row per list move; whichever row is
      taken, the lists follow the states, but for the list of all tasks in the one
      case that it names. */
  lemma SetTaskStateKeepsLists(s: Sys, t: Tid, new_: State)
    requires ListInv(s) && t in s.task
    ensures ListInv(SetTaskState(s, t, new_)) <==> !SystemGap(s, t, new_)
    ensures ChangeOf(s.task[t].state, new_) != NoneToNone ==>
              SetTaskState(s, t, new_).task[t].state == new_
  {
    TableFollows(s, t, new_);
    SleepFollows(s, t, new_);
    IdlersFollow(s, t, new_);
    SystemFollows(s, t, new_);
  }

  /** Fields that no list depends on may change; the priority may change
      while the task is in no queue. */
  lemma FieldsKeepLists(s: Sys, t: Tid, k: Task)
    requires ListInv(s) && t in s.task && k.state == s.task[t].state && k.prio < MAX_PRIO
    requires k.prio == s.task[t].prio || k.state != Prepare
    ensures ListInv(s.(task := s.task[t := k]))
  {
    var r := s.(task := s.task[t := k]);
    assert forall u, p :: Queued(r, u, p) <==> Queued(s, u, p);
    assert forall u, st :: InState(r, u, st) <==> InState(s, u, st);
  }

  // ---- runs -------------------------------------------------------------

  /** The steps of a run.  Block and Exit are the critical sections of
      suspend_task_timeout and task_kill_self; the sched() that follows them
      is a Yield of its own, so ticks and wake-ups may come in between. */
  datatype Op =
    | New(t: Tid)
    | Yield
    | Tick
    | Block(t: Tid, timeout: int)
    | Ready(t: Tid)
    | Exit(t: Tid)
    | Reap(t: Tid)

  ghost predicate Enabled(s: Sys, op: Op) {
    match op
    case New(t) => t !in s.task
    case Yield => true
    case Tick => true
    case Block(t, _) => t in s.task && t != s.idle
    case Ready(t) => t in s.task
    case Exit(t) => t in s.task && t != s.idle
    case Reap(t) => t in s.task && t != s.idle && t != s.current
  }

  lemma InvKnown(s: Sys)
    requires ListInv(s)
    ensures Known(s)
    ensures forall t :: t in s.sleep.items ==> t in s.task
  {
    forall p, t | 0 <= p < MAX_PRIO && t in s.table[p].items ensures t in s.task {
      assert Queued(s, t, p);
    }
    forall t | t in s.sleep.items ensures t in s.task { assert InState(s, t, Sleep); }
  }

  lemma InvShape(s: Sys)
    requires Inv(s)
    ensures Shape(s) && Known(s) && s.next == s.current
    ensures s.sleep.Ok() && forall t :: t in s.sleep.items ==> InState(s, t, Sleep)
  {
    InvKnown(s);
  }

  ghost function Step(s: Sys, op: Op): Sys
    requires Inv(s) && Enabled(s, op)
  {
    InvKnown(s);
    match op
    case New(t) => Create(s, t)
    case Yield => Resched(s)
    case Tick => ScanKeeps(s, s.sleep.items); TickRun(SleepScan(s, s.sleep.items))
    case Block(t, n) => Suspend(s, t, n)
    case Ready(t) => Wake(s, t)
    case Exit(t) => SetTaskState(s, t, Idle)
    case Reap(t) => Remove(s, t)
  }

  /** Only task t and the lists may differ. */
  ghost predicate Touched(s: Sys, r: Sys, t: Tid) {
    && t in s.task && t in r.task && r.task == s.task[t := r.task[t]]
    && r.task[t].pid == s.task[t].pid
    && r.current == s.current && r.next == s.next && r.idle == s.idle && r.nextPid == s.nextPid
  }

  lemma TouchedKeepsPrio(s: Sys, r: Sys, t: Tid)
    requires PrioInv(s) && Touched(s, r, t)
    requires r.task[t].prio == s.task[t].prio || r.task[t].prio == NextPrio(s.task[t])
    ensures PrioInv(r)
  {
  }

  lemma TouchedKeepsState(s: Sys, r: Sys, t: Tid)
    requires StateInv(s) && Touched(s, r, t)
    requires r.task[t].state != Unknown && r.task[t].state != Stop
    requires r.task[t].state == Running ==> t == s.current
    requires r.task[t].state == Sleep ==> r.task[t].waitTime != 0
    requires t == s.idle ==> r.task[t].state == Prepare || r.task[t].state == Running
    ensures StateInv(r)
  {
  }

  /** One turn of the sleep loop. */
  function Ticked(k: Task): Task {
    var w := if k.waitTime > 0 then k.waitTime - 1 else k.waitTime;
    k.(waitTime := w, state := if w == 0 then Prepare else k.state)
  }

  lemma TickOneKeeps(s: Sys, t: Tid)
    requires Inv(s) && InState(s, t, Sleep)
    ensures Inv(TickOne(s, t))
    ensures TickOne(s, t).task == s.task[t := Ticked(s.task[t])]
  {
    assert Shape(s);
    hide SetTaskState, ListInv;
    var k := s.task[t];
    var w := if k.waitTime > 0 then k.waitTime - 1 else k.waitTime;
    var s1 := s.(task := s.task[t := k.(waitTime := w)]);
    FieldsKeepLists(s, t, k.(waitTime := w));
    SetTaskStateKeepsLists(s1, t, Prepare);
    TouchedKeepsPrio(s, TickOne(s, t), t);
    TouchedKeepsState(s, TickOne(s, t), t);
  }

  lemma {:induction false} ScanKeeps(s: Sys, ts: seq<Tid>)
    requires Inv(s) && NoDup(ts) && forall t :: t in ts ==> InState(s, t, Sleep)
    ensures Inv(SleepScan(s, ts)) && Known(SleepScan(s, ts))
    ensures forall u :: u in s.task && u !in ts ==> SleepScan(s, ts).task[u] == s.task[u]
    ensures forall u :: u in ts ==> SleepScan(s, ts).task[u] == Ticked(s.task[u])
    decreases |ts|
  {
    assert Shape(s);
    hide ListInv, PrioInv, StateInv, TickOne;
    if ts == [] {
      InvKnown(s);
    } else {
      TickOneKeeps(s, ts[0]);
      var s1 := TickOne(s, ts[0]);
      assert forall t :: t in ts[1..] ==> t != ts[0] && InState(s, t, Sleep);
      ScanKeeps(s1, ts[1..]);
    }
  }

  // ---- picking ----------------------------------------------------------

  lemma {:induction false} FirstReadyIs(table: seq<SchedList>, i: nat)
    requires i <= |table|
    ensures i <= FirstReady(table, i) <= |table|
    ensures forall p :: i <= p < FirstReady(table, i) ==> table[p].count == 0
    ensures FirstReady(table, i) < |table| ==> table[FirstReady(table, i)].count != 0
    decreases |table| - i
  {
    if i < |table| && table[i].count == 0 { FirstReadyIs(table, i + 1); }
  }

  /** Each pick is the oldest task of the most urgent non-empty queue, and
      idle is picked only when no other task is ready. */
  lemma PickIsMostUrgent(s: Sys)
    requires Inv(s)
    ensures var n := FindNext(s).next;
            if exists t :: InState(s, t, Prepare) then
              && InState(s, n, Prepare)
              && s.table[s.task[n].prio].items != [] && n == s.table[s.task[n].prio].items[0]
              && (forall t :: InState(s, t, Prepare) ==> s.task[n].prio <= s.task[t].prio)
              && (n == s.idle ==> forall t :: InState(s, t, Prepare) ==> t == s.idle)
            else n == s.current
  {
    FirstReadyIs(s.table, 0);
    var i := FirstReady(s.table, 0);
    forall t | InState(s, t, Prepare)
      ensures i < |s.table| && i <= s.task[t].prio
    {
      assert Queued(s, t, s.task[t].prio);
    }
    if i < |s.table| {
      var n := s.table[i].items[0];
      assert n in s.table[i].items;
      assert Queued(s, n, i) && InState(s, n, Prepare);
    }
  }

  // ---- switching --------------------------------------------------------

  /** Lists and priorities hold throughout a switch; the current task may be
      on its way out. */
  ghost predicate Between(s: Sys) {
    && ListInv(s) && PrioInv(s)
    && (forall t :: t in s.task ==>
          && s.task[t].state != Unknown && s.task[t].state != Stop
          && (s.task[t].state == Sleep ==> s.task[t].waitTime != 0))
    && (s.task[s.idle].state == Prepare || s.task[s.idle].state == Running)
  }

  lemma RequeueKeepsLists(s: Sys, irq: bool)
    requires ListInv(s) && (s.current == s.idle ==> s.task[s.current].state != Unknown)
    ensures ListInv(Requeue(s, irq))
  {
    assert Shape(s);
    hide SetTaskState, ListInv;
    var c := s.task[s.current];
    if c.state == Running {
      FieldsKeepLists(s, s.current, Spent(c, irq));
      SetTaskStateKeepsLists(s.(task := s.task[s.current := Spent(c, irq)]), s.current, Prepare);
    }
  }

  lemma RequeueKeeps(s: Sys, irq: bool)
    requires Between(s)
    requires forall t :: t in s.task && s.task[t].state == Running ==> t == s.current
    ensures Between(Requeue(s, irq))
    ensures forall t :: t in s.task ==> Requeue(s, irq).task[t].state != Running
  {
    assert Shape(s);
    hide ListInv, Requeue, PrioInv;
    RequeueKeepsLists(s, irq);
    RequeueKeepsPrio(s, irq);
  }

  lemma RequeueKeepsPrio(s: Sys, irq: bool)
    requires Shape(s) && PrioInv(s)
    ensures PrioInv(Requeue(s, irq))
  {
    hide PrioInv, Requeue;
    TouchedKeepsPrio(s, Requeue(s, irq), s.current);
  }

  lemma AdmitKeeps(s: Sys)
    requires Between(s) && InState(s, s.next, Prepare)
    requires forall t :: t in s.task ==> s.task[t].state != Running
    ensures Inv(SwitchTo(Admit(s)))
    ensures Admit(s).task[s.next] == Resumed(s.task[s.next]).(state := Running)
  {
    assert Shape(s);
    hide SetTaskState, ListInv, PrioInv, Admit;
    AdmitKeepsLists(s);
    AdmitKeepsPrio(s);
  }

  lemma AdmitKeepsPrio(s: Sys)
    requires Shape(s) && PrioInv(s)
    ensures PrioInv(SwitchTo(Admit(s)))
  {
    hide SetTaskState;
    TouchedKeepsPrio(s, Admit(s), s.next);
  }

  lemma AdmitKeepsLists(s: Sys)
    requires ListInv(s) && InState(s, s.next, Prepare)
    ensures ListInv(SwitchTo(Admit(s)))
    ensures Admit(s).task[s.next] == Resumed(s.task[s.next]).(state := Running)
  {
    assert Shape(s);
    hide SetTaskState, ListInv;
    FieldsKeepLists(s, s.next, Resumed(s.task[s.next]));
    var s1 := s.(task := s.task[s.next := Resumed(s.task[s.next])]);
    SetTaskStateKeepsLists(s1, s.next, Running);
    SwitchToKeepsLists(Admit(s));
  }

  lemma SwitchToKeepsLists(s: Sys)
    requires ListInv(s)
    ensures ListInv(SwitchTo(s))
  {
    var r := SwitchTo(s);
    assert forall u, p :: Queued(r, u, p) <==> Queued(s, u, p);
    assert forall u, st :: InState(r, u, st) <==> InState(s, u, st);
  }

  lemma FindNextKeepsLists(s: Sys)
    requires ListInv(s) && FindNext(s).next in s.task
    ensures ListInv(FindNext(s))
  {
    var r := FindNext(s);
    assert forall u, p :: Queued(r, u, p) <==> Queued(s, u, p);
    assert forall u, st :: InState(r, u, st) <==> InState(s, u, st);
  }

  /** find_next_run_task, prepare_to_switch and the switch itself. */
  lemma SwitchKeeps(s: Sys, irq: bool)
    requires Inv(s)
    ensures Known(s)
    ensures FindNext(s).next in s.task && Inv(SwitchTo(PrepareToSwitch(FindNext(s), irq)))
  {
    hide ListInv, PrioInv, SetTaskState;
    InvShape(s);
    PickIsMostUrgent(s);
    FindNextKeepsLists(s);
    FindNextKeepsPrio(s);
    var s1 := FindNext(s);
    hide FindNext;
    if s1.next == s.current {
      var n := s1.task[s1.next];
      var n' := n.(runTime := RunTimeOf(n.prio), runCount := n.runCount + 1);
      FieldsKeepLists(s1, s1.next, n');
      TouchedKeepsPrio(s, PrepareToSwitch(s1, irq), s1.next);
      TouchedKeepsState(s, PrepareToSwitch(s1, irq), s1.next);
    } else {
      RequeueKeeps(s1, irq);
      AdmitKeeps(Requeue(s1, irq));
    }
  }

  lemma FindNextKeepsPrio(s: Sys)
    requires Shape(s) && PrioInv(s)
    ensures PrioInv(FindNext(s))
  {
  }

  /** What a switch leaves in the task structures: nothing but the outgoing
      and the incoming task is touched. */
  lemma SwitchDoes(s: Sys, irq: bool)
    requires Inv(s)
    ensures Known(s)
    ensures var n := FindNext(s).next; var r := SwitchTo(PrepareToSwitch(FindNext(s), irq));
      && n in s.task && s.current in s.task && r.current == n
      && r.task == (
        if n == s.current then
          s.task[n := s.task[n].(runTime := RunTimeOf(s.task[n].prio), runCount := s.task[n].runCount + 1)]
        else
          s.task[s.current := if s.task[s.current].state == Running
                              then Spent(s.task[s.current], irq).(state := Prepare)
                              else s.task[s.current]]
                [n := Resumed(s.task[n]).(state := Running)])
  {
    InvKnown(s);
    PickIsMostUrgent(s);
    FindNextKeepsLists(s);
    var s1 := FindNext(s);
    if s1.next != s.current {
      RequeueKeeps(s1, irq);
      assert InState(s1, s1.next, Prepare);
      hide Inv, ListInv, Between, SetTaskState, FindNext, Requeue, Admit;
      AdmitKeeps(Requeue(s1, irq));
    }
  }

  // ---- every step -------------------------------------------------------

  lemma ChargeKeeps(s: Sys)
    requires Inv(s)
    ensures Inv(Charge(s))
  {
    var c := s.task[s.current];
    FieldsKeepLists(s, s.current, c.(runTime := c.runTime - 1));
    hide ListInv;
    TouchedKeepsPrio(s, Charge(s), s.current);
    TouchedKeepsState(s, Charge(s), s.current);
  }

  lemma TickRunKeeps(s: Sys)
    requires Inv(s)
    ensures Known(s) && Inv(TickRun(s))
  {
    hide Inv;
    InvShape(s);
    ChargeKeeps(s);
    SwitchKeeps(Charge(s), true);
    assert SwitchTo(Charge(s)) == Charge(s) by { CurrentIsNext(s); }
  }

  lemma CurrentIsNext(s: Sys)
    requires Inv(s)
    ensures s.next == s.current
  {
  }

  lemma CreateKeeps(s: Sys, t: Tid)
    requires Inv(s) && t !in s.task
    ensures Inv(Create(s, t))
  {
    hide ListInv, PrioInv, StateInv, SetTaskState;
    if s.nextPid != NR_PID {
      InvShape(s);
      var k := Task(Unknown, s.nextPid, DEFAULT_PRIO, RunTimeOf(DEFAULT_PRIO), -1, 0, 0);
      var s1 := s.(task := s.task[t := k], nextPid := s.nextPid + 1);
      CreateKeepsLists(s, t, s1);
      CreateKeepsPrio(s, t, s1);
      SetTaskStateKeepsLists(s1, t, Prepare);
      TouchedKeepsPrio(s1, Create(s, t), t);
      CreateKeepsState(s, t, Create(s, t));
    }
  }

  lemma CreateKeepsState(s: Sys, t: Tid, r: Sys)
    requires StateInv(s) && t !in s.task && t in r.task && r.task[t].state == Prepare
    requires r.task == s.task[t := r.task[t]]
    requires r.current == s.current && r.next == s.next && r.idle == s.idle
    ensures StateInv(r)
  {
  }

  lemma CreateKeepsPrio(s: Sys, t: Tid, s1: Sys)
    requires PrioInv(s) && t !in s.task && t in s1.task && s.nextPid != NR_PID
    requires s1 == s.(task := s.task[t := s1.task[t]], nextPid := s.nextPid + 1)
    requires s1.task[t].prio < IDLE_PRIO && s1.task[t].pid == s.nextPid
    ensures PrioInv(s1)
  {
  }

  /** A structure that no list knows yet. */
  lemma CreateKeepsLists(s: Sys, t: Tid, s1: Sys)
    requires ListInv(s) && t !in s.task && t in s1.task
    requires s1 == s.(task := s.task[t := s1.task[t]], nextPid := s1.nextPid)
    requires s1.task[t].state == Unknown && s1.task[t].prio < MAX_PRIO
    ensures ListInv(s1)
  {
    assert forall u, p :: Queued(s1, u, p) <==> Queued(s, u, p);
    assert forall u, st :: st != Unknown ==> (InState(s1, u, st) <==> InState(s, u, st));
  }

  /** One task changes some of its fields and then its state. */
  lemma ChangeKeeps(s: Sys, t: Tid, k: Task, new_: State)
    requires Inv(s) && t in s.task && k.state == s.task[t].state
    requires k.prio == s.task[t].prio && k.pid == s.task[t].pid
    requires new_ == Prepare || (t != s.idle && (new_ == Idle || new_ == Sleep))
    requires new_ == Sleep || k.state == Sleep ==> k.waitTime != 0
    ensures Shape(s.(task := s.task[t := k]))
    ensures Inv(SetTaskState(s.(task := s.task[t := k]), t, new_))
  {
    assert Shape(s);
    hide ListInv, SetTaskState;
    FieldsKeepLists(s, t, k);
    var s1 := s.(task := s.task[t := k]);
    SetTaskStateKeepsLists(s1, t, new_);
    var r := SetTaskState(s1, t, new_);
    assert ListInv(r);
    hide PrioInv, StateInv;
    TouchedKeepsPrio(s, r, t);
    KeptStates(s, t);
    TouchedKeepsState(s, r, t);
  }

  lemma KeptStates(s: Sys, t: Tid)
    requires StateInv(s) && t in s.task
    ensures s.task[t].state != Unknown && s.task[t].state != Stop && (s.task[t].state == Running ==> t == s.current)
    ensures t == s.idle ==> s.task[t].state == Prepare || s.task[t].state == Running
  {
  }

  lemma RemoveKeeps(s: Sys, t: Tid)
    requires Inv(s) && t in s.task && t != s.idle && t != s.current
    ensures Inv(Remove(s, t))
  {
    if Removable(s.task[t]) {
      var r := Remove(s, t);
      assert InState(s, t, Idle);
      RemoveMembers(s.idlers, t);
      RemoveMembers(s.system, t);
      assert forall u, p :: Queued(r, u, p) <==> Queued(s, u, p);
      assert forall u :: InState(r, u, Sleep) <==> InState(s, u, Sleep);
      assert forall u :: InState(r, u, Idle) <==> InState(s, u, Idle) && u != t;
    }
  }

  lemma SleepersWait(s: Sys)
    requires Inv(s)
    ensures forall t :: InState(s, t, Sleep) ==> s.task[t].waitTime != 0
  {
  }

  lemma StepKeeps(s: Sys, op: Op)
    requires Inv(s) && Enabled(s, op)
    ensures Inv(Step(s, op))
  {
    hide Inv, SetTaskState, TickRun, SleepScan, PrepareToSwitch, FindNext;
    InvShape(s);
    SleepersWait(s);
    match op
    case New(t) => CreateKeeps(s, t);
    case Yield => SwitchKeeps(s, false);
    case Tick =>
      ScanKeeps(s, s.sleep.items);
      TickRunKeeps(SleepScan(s, s.sleep.items));
    case Block(t, n) =>
      if n != 0 && s.task[t].state != Idle {
        ChangeKeeps(s, t, s.task[t].(waitTime := n, timeOut := 0), Sleep);
      }
    case Ready(t) =>
      if s.task[t].state == Sleep {
        assert InState(s, t, Sleep);
        ChangeKeeps(s, t, s.task[t].(runTime := RunTimeOf(s.task[t].prio)), Prepare);
      }
    case Exit(t) =>
      assert s.(task := s.task[t := s.task[t]]) == s;
      assert s.task[t].state == Sleep ==> InState(s, t, Sleep);
      ChangeKeeps(s, t, s.task[t], Idle);
    case Reap(t) => RemoveKeeps(s, t);
  }

  // ---- every run --------------------------------------------------------

  /** After sched_init and build_idle_task. */
  function Boot(idle: Tid): Sys {
    Sys(map[idle := Task(Running, -1, IDLE_PRIO, RunTimeOf(IDLE_PRIO), -1, 0, 0)],
        seq(MAX_PRIO, _ => EMPTY), EMPTY, EMPTY, EMPTY, idle, idle, idle, 0)
  }

  lemma BootHolds(idle: Tid)
    ensures Inv(Boot(idle))
  {
    var s := Boot(idle);
    assert forall u, p :: !Queued(s, u, p);
  }

  /** Each operation is one its callers may issue in the state it meets. */
  ghost predicate Legal(s: Sys, ops: seq<Op>)
    requires Inv(s)
    decreases |ops|
  {
    ops == [] || (Enabled(s, ops[0]) && (StepKeeps(s, ops[0]); Legal(Step(s, ops[0]), ops[1..])))
  }

  ghost function Final(s: Sys, ops: seq<Op>): (r: Sys)
    requires Inv(s) && Legal(s, ops)
    ensures Inv(r)
    decreases |ops|
  {
    if ops == [] then s else (StepKeeps(s, ops[0]); Final(Step(s, ops[0]), ops[1..]))
  }

  /** Over every run from boot: the lists follow the states exactly, counts
      are lengths, and at most one task is RUNNING, the current one. */
  lemma RunInvariant(idle: Tid, ops: seq<Op>)
    requires Inv(Boot(idle)) && Legal(Boot(idle), ops)
    ensures var s := Final(Boot(idle), ops);
      && (forall p, t :: 0 <= p < MAX_PRIO && t in s.task ==>
            multiset(s.table[p].items)[t] ==
              if s.task[t].state == Prepare && s.task[t].prio == p then 1 else 0)
      && (forall t :: t in s.task ==>
            && multiset(s.sleep.items)[t] == (if s.task[t].state == Sleep then 1 else 0)
            && multiset(s.idlers.items)[t] == (if s.task[t].state == Idle then 1 else 0)
            && multiset(s.system.items)[t] == (if t != s.idle then 1 else 0))
      && (forall p :: 0 <= p < MAX_PRIO ==> s.table[p].count == |s.table[p].items|)
      && s.sleep.count == |s.sleep.items| && s.idlers.count == |s.idlers.items|
      && s.system.count == |s.system.items| == |s.task| - 1
      && (forall t, u :: InState(s, t, Running) && InState(s, u, Running) ==> t == u == s.current)
      && (forall t :: t in s.task ==> (s.task[t].state == Running <==> OnNoList(s, t)))
  {
    var s := Final(Boot(idle), ops);
    hide Inv, Final, Legal;
    QueuedOnce(s);
    ListedOnce(s);
    OneRuns(s);
  }

  /** Over every run from boot: idle stays at the last level and every other task above
      it, and each pick is the oldest task of the most urgent queue, idle only when no
      other task is ready. */
  lemma RunPicks(idle: Tid, ops: seq<Op>)
    requires Inv(Boot(idle)) && Legal(Boot(idle), ops)
    ensures var s := Final(Boot(idle), ops); var n := FindNext(s).next;
      && s.idle in s.task && s.task[s.idle].prio == IDLE_PRIO
      && (forall t :: t in s.task && t != s.idle ==> s.task[t].prio < IDLE_PRIO)
      && (if exists t :: InState(s, t, Prepare) then
            && InState(s, n, Prepare)
            && s.table[s.task[n].prio].items != [] && n == s.table[s.task[n].prio].items[0]
            && (forall t :: InState(s, t, Prepare) ==> s.task[n].prio <= s.task[t].prio)
            && (n == s.idle ==> forall t :: InState(s, t, Prepare) ==> t == s.idle)
          else n == s.current)
  {
    hide Final, Legal, FindNext, ListInv, StateInv;
    PickIsMostUrgent(Final(Boot(idle), ops));
  }

  ghost predicate OnNoList(s: Sys, t: Tid) {
    && t !in s.sleep.items && t !in s.idlers.items
    && forall p :: 0 <= p < |s.table| ==> t !in s.table[p].items
  }

  lemma QueuedOnce(s: Sys)
    requires Inv(s)
    ensures |s.table| == MAX_PRIO
    ensures forall p, t :: 0 <= p < MAX_PRIO && t in s.task ==>
              multiset(s.table[p].items)[t] ==
                if s.task[t].state == Prepare && s.task[t].prio == p then 1 else 0
    ensures forall p :: 0 <= p < MAX_PRIO ==> s.table[p].count == |s.table[p].items|
  {
    forall p, t | 0 <= p < MAX_PRIO && t in s.task
      ensures multiset(s.table[p].items)[t] == if Queued(s, t, p) then 1 else 0
    {
      Once(s.table[p].items, t);
    }
  }

  lemma ListedOnce(s: Sys)
    requires Inv(s)
    ensures forall t :: t in s.task ==>
              && multiset(s.sleep.items)[t] == (if s.task[t].state == Sleep then 1 else 0)
              && multiset(s.idlers.items)[t] == (if s.task[t].state == Idle then 1 else 0)
              && multiset(s.system.items)[t] == (if t != s.idle then 1 else 0)
    ensures s.sleep.count == |s.sleep.items| && s.idlers.count == |s.idlers.items|
    ensures s.system.count == |s.system.items| == |s.task| - 1
  {
    SetOfSize(s.system.items, s.task.Keys - {s.idle});
    forall t | t in s.task
      ensures multiset(s.sleep.items)[t] == (if InState(s, t, Sleep) then 1 else 0)
      ensures multiset(s.idlers.items)[t] == (if InState(s, t, Idle) then 1 else 0)
      ensures multiset(s.system.items)[t] == (if t != s.idle then 1 else 0)
    {
      Once(s.sleep.items, t);
      Once(s.idlers.items, t);
      Once(s.system.items, t);
    }
  }

  lemma OneRuns(s: Sys)
    requires Inv(s)
    ensures forall t, u :: InState(s, t, Running) && InState(s, u, Running) ==> t == u == s.current
    ensures forall t :: t in s.task ==> (s.task[t].state == Running <==> OnNoList(s, t))
  {
    forall t | t in s.task && OnNoList(s, t) ensures s.task[t].state == Running {
      assert !Queued(s, t, s.task[t].prio) && !InState(s, t, Sleep) && !InState(s, t, Idle);
    }
  }

  lemma {:induction false} Once(l: seq<Tid>, t: Tid)
    requires NoDup(l)
    ensures multiset(l)[t] == if t in l then 1 else 0
  {
    if l != [] {
      assert l == [l[0]] + l[1..];
      Once(l[1..], t);
    }
  }

  lemma {:induction false} SetOfSize(l: seq<Tid>, m: set<Tid>)
    requires NoDup(l) && forall t :: t in l <==> t in m
    ensures |l| == |m|
  {
    if l == [] {
      assert m == {};
    } else {
      assert forall t :: t in l[1..] <==> t in m - {l[0]} by {
        assert forall t :: t in l <==> t == l[0] || t in l[1..];
      }
      SetOfSize(l[1..], m - {l[0]});
    }
  }
}
