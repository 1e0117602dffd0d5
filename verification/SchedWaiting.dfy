/** How long a ready task can be kept waiting (kernel/sched.c:390-472). */
module SchedWaiting {
  import opened Lists
  import opened Sched
  import opened SchedInvariant

  // ---- the weight of the queues ------------------------------------------

  /** Runs that the tasks queued at levels below n can take before level p:
      a task at level q runs at q, q+1, ..., p-1 and then joins p's tail. */
  ghost function Above(table: seq<SchedList>, p: nat, n: nat): int
    requires n <= p <= |table|
  {
    if n == 0 then 0 else Above(table, p, n - 1) + (p - (n - 1)) * |table[n - 1].items|
  }

  /** Runs that a task ahead in the same queue can take: one, and from the
      last level also those after the wrap to level 0. */
  ghost function Ahead(p: nat): int { if p == IDLE_PRIO - 1 then IDLE_PRIO else 1 }

  /** Runs that a task joining the tail of level q can take before level p. */
  ghost function Tail(q: nat, p: nat): int { if q < p then p - q else 0 }

  ghost function QueueWeight(table: seq<SchedList>, p: nat, t: Tid): int
    requires p < |table|
  {
    Above(table, p, p) + Ahead(p) * Index(table[p].items, t)
  }

  /** The current task joins a tail when it is switched out. */
  ghost function RunWeight(s: Sys, p: nat): int
    requires s.current in s.task
  {
    if s.task[s.current].state == Running then Tail(NextPrio(s.task[s.current]), p) else 0
  }

  /** The number of runs that other tasks can take before t. */
  ghost function Pending(s: Sys, t: Tid): int
    requires Shape(s) && t in s.task
  {
    QueueWeight(s.table, s.task[t].prio, t) + RunWeight(s, s.task[t].prio)
  }

  lemma {:induction false} AboveUpdate(table: seq<SchedList>, p: nat, n: nat, q: nat, l: SchedList)
    requires n <= p <= |table| && q < |table|
    ensures Above(table[q := l], p, n) ==
      Above(table, p, n) + if q < n then (p - q) * (|l.items| - |table[q].items|) else 0
  {
    if n > 0 {
      AboveUpdate(table, p, n - 1, q, l);
      if q == n - 1 {
        assert (p - q) * |l.items| ==
               (p - q) * |table[q].items| + (p - q) * (|l.items| - |table[q].items|);
      }
    }
  }

  lemma {:induction false} AboveNonNegative(table: seq<SchedList>, p: nat, n: nat)
    requires n <= p <= |table|
    ensures Above(table, p, n) >= 0
  {
    if n > 0 {
      AboveNonNegative(table, p, n - 1);
      assert (p - (n - 1)) * |table[n - 1].items| >= 0;
    }
  }

  lemma PendingNonNegative(s: Sys, t: Tid)
    requires Shape(s) && t in s.task
    ensures Pending(s, t) >= 0
  {
    var p := s.task[t].prio;
    AboveNonNegative(s.table, p, p);
    assert Ahead(p) * Index(s.table[p].items, t) >= 0;
  }

  lemma EnqueueWeight(table: seq<SchedList>, q: nat, u: Tid, p: nat, t: Tid)
    requires q < |table| && p < |table| && t in table[p].items
    ensures QueueWeight(table[q := table[q].AddTail(u)], p, t) == QueueWeight(table, p, t) + Tail(q, p)
  {
    AboveUpdate(table, p, p, q, table[q].AddTail(u));
    if q == p { IndexAppend(table[p].items, t, u); }
  }

  lemma DequeueWeight(table: seq<SchedList>, q: nat, u: Tid, p: nat, t: Tid)
    requires q < |table| && p < |table| && t in table[p].items && u != t && u in table[q].items
    ensures t in table[q := table[q].Remove(u)][p].items
    ensures QueueWeight(table[q := table[q].Remove(u)], p, t) <= QueueWeight(table, p, t)
    ensures u == table[q].items[0] ==>
      QueueWeight(table[q := table[q].Remove(u)], p, t) ==
      QueueWeight(table, p, t) - (if q == p then Ahead(p) else Tail(q, p))
  {
    hide Above, Index, Del;
    var l := table[q].Remove(u);
    assert |l.items| - |table[q].items| == -1 && (p - q) * -1 == q - p;
    AboveUpdate(table, p, p, q, l);
    if q == p {
      IndexDel(table[p].items, t, u);
      var i, j := Index(table[p].items, t), Index(l.items, t);
      assert Ahead(p) * i == if i == j then Ahead(p) * j else Ahead(p) * j + Ahead(p);
    }
  }

  /** From s to r: t runs now, or it keeps its place and its pending runs
      fall by one per switch and grow by at most its level per arrival. */
  ghost predicate Progress(s: Sys, r: Sys, t: Tid, switches: nat, arrivals: nat)
    requires Shape(s) && t in s.task
  {
    && Shape(r) && t in r.task && r.idle == s.idle
    && (r.current != t ==>
          && r.task[t] == s.task[t]
          && Pending(r, t) + switches <= Pending(s, t) + Extra(s.task[t].prio, arrivals))
  }

  /** Runs that n arrivals can take before level p. */
  ghost function Extra(p: nat, n: nat): int { p * n }

  lemma ExtraAdds(p: nat, m: nat, n: nat)
    ensures Extra(p, m + n) == Extra(p, m) + Extra(p, n)
    ensures Extra(p, 0) == 0 && Extra(p, 1) == p
  {
    assert p * (m + n) == p * m + p * n;
  }

  lemma ExtraIs(p: nat, n: nat)
    ensures Extra(p, n) == p * n
  {
  }

  // ---- one switch --------------------------------------------------------

  /** t is ready and is not the idle task. */
  ghost predicate Waiting(s: Sys, t: Tid) {
    t != s.idle && InState(s, t, Prepare)
  }

  lemma WaitingQueued(s: Sys, t: Tid)
    requires Inv(s) && Waiting(s, t)
    ensures s.task[t].prio < IDLE_PRIO && t in s.table[s.task[t].prio].items
  {
    assert Queued(s, t, s.task[t].prio);
  }

  /** Putting the outgoing task back adds what it was already counted for. */
  lemma RequeueWeight(s: Sys, irq: bool, t: Tid)
    requires Between(s) && Waiting(s, t) && s.current != t
    requires irq ==> s.task[s.current].runTime == 0
    ensures Requeue(s, irq).task[t] == s.task[t]
    ensures QueueWeight(Requeue(s, irq).table, s.task[t].prio, t) == Pending(s, t)
  {
    var c := s.task[s.current];
    var p := s.task[t].prio;
    assert Queued(s, t, p);
    if c.state == Running {
      EnqueueWeight(s.table, NextPrio(c), s.current, p, t);
    }
  }

  /** Taking the head of the most urgent queue costs its weight; what is
      left of it rides on the incoming task. */
  lemma AdmitWeight(s: Sys, t: Tid, q: nat)
    requires Between(s) && Waiting(s, t) && s.next != t
    requires Queued(s, s.next, q) && s.next != s.idle && q <= s.task[t].prio
    requires s.table[q].items != [] && s.next == s.table[q].items[0]
    ensures Admit(s).task[t] == s.task[t]
    ensures Shape(SwitchTo(Admit(s)))
    ensures Pending(SwitchTo(Admit(s)), t) == QueueWeight(s.table, s.task[t].prio, t) - 1
  {
    var p := s.task[t].prio;
    assert Queued(s, t, p);
    DequeueWeight(s.table, q, s.next, p, t);
  }

  /** What is known of a pick that passes t over. */
  ghost predicate PassesOver(s: Sys, t: Tid, q: nat) {
    && Between(s) && Waiting(s, t) && s.current != t && s.next != t && s.next != s.current
    && Queued(s, s.next, q) && s.next != s.idle && q <= s.task[t].prio
    && s.table[q].items != [] && s.next == s.table[q].items[0]
    && forall u :: u in s.task && s.task[u].state == Running ==> u == s.current
  }

  lemma PickPasses(s: Sys, t: Tid)
    requires Inv(s) && Waiting(s, t) && s.current != t
    ensures Shape(s) && FindNext(s).next in s.task && Pending(FindNext(s), t) == Pending(s, t)
    ensures FindNext(s).next == t || FindNext(s).next == s.current || PassesOver(FindNext(s), t, s.task[FindNext(s).next].prio)
    ensures s.task[s.current].state == Running ==> FindNext(s).next != s.current
  {
    hide QueueWeight;
    InvKnown(s);
    PickIsMostUrgent(s);
    FindNextKeepsLists(s);
    FindNextKeepsPrio(s);
    assert InState(s, t, Prepare);
  }

  lemma SwitchPast(s: Sys, irq: bool, t: Tid, q: nat)
    requires PassesOver(s, t, q) && (irq ==> s.task[s.current].runTime == 0)
    ensures Shape(s) && q < MAX_PRIO
    ensures var r := SwitchTo(PrepareToSwitch(s, irq));
      Shape(r) && r.current == s.next && r.idle == s.idle && t in r.task && r.task[t] == s.task[t] && Pending(r, t) == Pending(s, t) - 1
  {
    hide Pending, QueueWeight, Between, SetTaskState;
    BetweenShape(s);
    RequeueKeeps(s, irq);
    RequeueWeight(s, irq, t);
    RequeueHead(s, irq, q);
    var s2 := Requeue(s, irq);
    assert Queued(s2, s2.next, q);
    AdmitWeight(s2, t, q);
  }

  lemma BetweenShape(s: Sys)
    requires Between(s)
    ensures Shape(s) && forall u :: u in s.task ==> s.task[u].prio < MAX_PRIO
  {
  }

  /** Every context switch that does not choose t uses up exactly one of the
      runs that were pending. */
  lemma SwitchWaits(s: Sys, irq: bool, t: Tid)
    requires Inv(s) && Waiting(s, t) && s.current != t
    requires irq ==> s.task[s.current].runTime == 0
    ensures Known(s)
    ensures var r := SwitchTo(PrepareToSwitch(FindNext(s), irq));
      && Progress(s, r, t, if r.current != s.current then 1 else 0, 0)
      && (r.current != t ==> Pending(r, t) == Pending(s, t) - if r.current != s.current then 1 else 0)
      && (s.task[s.current].state == Running ==> r.current != s.current)
  {
    hide Inv, PassesOver, Between, SetTaskState, QueueWeight, FindNext, Queued;
    InvShape(s);
    PickPasses(s, t);
    var s1 := FindNext(s);
    SwitchDoes(s, irq);
    if s1.next == s.current {
      assert s1.next in s.task;
    } else if s1.next != t {
      SwitchPast(s1, irq, t, s.task[s1.next].prio);
    }
  }

  /** The outgoing task goes to a tail, so the picked head stays a head. */
  lemma RequeueHead(s: Sys, irq: bool, q: nat)
    requires Shape(s) && s.next != s.current && q < MAX_PRIO && s.table[q].items != []
    ensures Requeue(s, irq).table[q].items != []
    ensures Requeue(s, irq).table[q].items[0] == s.table[q].items[0]
  {
    var c := s.task[s.current];
    if c.state == Running {
      assert Requeue(s, irq).table[q].items == s.table[q].items
        || Requeue(s, irq).table[q].items == s.table[q].items + [s.current];
    }
  }

  // ---- arrivals and departures -------------------------------------------

  /** A task that becomes ready can take at most p runs before level p; one
      that leaves takes none. */
  lemma ChangeWeight(s: Sys, u: Tid, k: Task, new_: State, t: Tid)
    requires Inv(s) && Waiting(s, t) && u in s.task && u != t
    requires k.state == s.task[u].state && k.prio == s.task[u].prio && k.pid == s.task[u].pid
    requires new_ == Sleep || new_ == Idle || (new_ == Prepare && k.state == Sleep)
    ensures Shape(s.(task := s.task[u := k]))
    ensures Progress(s, SetTaskState(s.(task := s.task[u := k]), u, new_), t, 0,
                     if new_ == Prepare then 1 else 0)
  {
    var p := s.task[t].prio;
    assert Queued(s, t, p);
    assert k.state == Prepare ==> Queued(s, u, k.prio);
    var s1 := s.(task := s.task[u := k]);
    var r := SetTaskState(s1, u, new_);
    if new_ == Prepare {
      assert r.table == s.table[k.prio := s.table[k.prio].AddTail(u)];
      EnqueueWeight(s.table, k.prio, u, p, t);
    } else if k.state == Prepare {
      assert r.table == s.table[k.prio := s.table[k.prio].Remove(u)];
      DequeueWeight(s.table, k.prio, u, p, t);
    } else {
      assert r.table == s.table;
    }
    assert RunWeight(r, p) <= RunWeight(s, p);
  }

  lemma CreateWeight(s: Sys, u: Tid, t: Tid)
    requires Inv(s) && Waiting(s, t) && u !in s.task
    ensures Progress(s, Create(s, u), t, 0, 1)
  {
    var p := s.task[t].prio;
    assert Queued(s, t, p);
    EnqueueWeight(s.table, DEFAULT_PRIO, u, p, t);
  }

  // ---- the tick ----------------------------------------------------------

  /** How many of the listed sleepers the next tick readies. */
  ghost function Expiring(s: Sys, ts: seq<Tid>): nat
    requires forall u :: u in ts ==> u in s.task
  {
    if ts == [] then 0
    else (if s.task[ts[0]].waitTime == 1 then 1 else 0) + Expiring(s, ts[1..])
  }

  lemma {:induction false} ExpiringFrame(s: Sys, r: Sys, ts: seq<Tid>)
    requires forall u :: u in ts ==> u in s.task && u in r.task && r.task[u] == s.task[u]
    ensures Expiring(r, ts) == Expiring(s, ts)
  {
    if ts != [] { ExpiringFrame(s, r, ts[1..]); }
  }

  lemma TickOneWeight(s: Sys, u: Tid, t: Tid)
    requires Inv(s) && Waiting(s, t) && s.current != t && InState(s, u, Sleep)
    ensures Progress(s, TickOne(s, u), t, 0, if s.task[u].waitTime == 1 then 1 else 0)
  {
    var k := s.task[u];
    var w := if k.waitTime > 0 then k.waitTime - 1 else k.waitTime;
    if w == 0 { ChangeWeight(s, u, k.(waitTime := w), Prepare, t); }
  }

  lemma {:induction false} ScanWeight(s: Sys, ts: seq<Tid>, t: Tid)
    requires Inv(s) && Waiting(s, t) && NoDup(ts) && forall u :: u in ts ==> InState(s, u, Sleep)
    requires s.current != t
    ensures Progress(s, SleepScan(s, ts), t, 0, Expiring(s, ts))
    decreases |ts|
  {
    hide Inv, TickOne, Progress, Extra, Shape, Ticked, NoDup;
    InvShape(s);
    if ts == [] {
      ProgressNone(s, t);
    } else {
      NoDupTail(ts);
      assert InState(s, ts[0], Sleep);
      var s1 := TickOne(s, ts[0]);
      TickOneKeeps(s, ts[0]);
      TickOneWeight(s, ts[0], t);
      assert forall u :: u in ts[1..] ==> u != ts[0] && InState(s, u, Sleep) && s1.task[u] == s.task[u];
      ExpiringFrame(s, s1, ts[1..]);
      ScanWeight(s1, ts[1..], t);
      ProgressAdds(s, s1, SleepScan(s1, ts[1..]), t,
                   if s.task[ts[0]].waitTime == 1 then 1 else 0, Expiring(s, ts[1..]));
    }
  }

  lemma ProgressNone(s: Sys, t: Tid)
    requires Shape(s) && t in s.task
    ensures Progress(s, s, t, 0, 0)
  {
  }

  lemma ProgressAdds(s: Sys, s1: Sys, r: Sys, t: Tid, m: nat, n: nat)
    requires Shape(s) && t in s.task && Shape(s1) && t in s1.task && s1.current != t
    requires Progress(s, s1, t, 0, m) && Progress(s1, r, t, 0, n)
    ensures Progress(s, r, t, 0, m + n)
  {
    hide Pending, Extra;
    ExtraAdds(s.task[t].prio, m, n);
  }

  lemma NoDupTail(ts: seq<Tid>)
    requires NoDup(ts) && ts != []
    ensures NoDup(ts[1..]) && ts[0] !in ts[1..]
  {
  }

  // ---- every step ----------------------------------------------------------

  /** Tasks that this step adds to the ready queues. */
  ghost function Arrivals(s: Sys, op: Op): nat
    requires Inv(s) && Enabled(s, op)
  {
    InvKnown(s);
    match op
    case New(_) => 1
    case Ready(_) => 1
    case Tick => Expiring(s, s.sleep.items)
    case _ => 0
  }

  /** The step is not aimed at t itself. */
  ghost predicate Spares(op: Op, t: Tid) {
    (op.Block? ==> op.t != t) && (op.Exit? ==> op.t != t)
  }

  ghost function Switched(s: Sys, op: Op): nat
    requires Inv(s) && Enabled(s, op)
  {
    if Step(s, op).current != s.current then 1 else 0
  }

  lemma TickWaits(s: Sys, t: Tid)
    requires Inv(s) && Waiting(s, t) && s.current != t
    ensures Progress(s, Step(s, Tick), t, Switched(s, Tick), Arrivals(s, Tick))
  {
    hide Inv, TickRun, Pending, SleepScan, Shape, Extra, Ticked;
    InvShape(s);
    ScanKeeps(s, s.sleep.items);
    ScanWeight(s, s.sleep.items, t);
    var s1 := SleepScan(s, s.sleep.items);
    TickRunWaits(s1, t);
    ExtraAdds(s.task[t].prio, 0, 0);
  }

  lemma TickRunWaits(s: Sys, t: Tid)
    requires Inv(s) && Waiting(s, t) && s.current != t
    ensures Known(s)
    ensures Progress(s, TickRun(s), t, if TickRun(s).current != s.current then 1 else 0, 0)
  {
    hide Inv, PrepareToSwitch, QueueWeight, FindNext;
    InvShape(s);
    var s1 := Charge(s);
    ChargeKeeps(s);
    CurrentIsNext(s1);
    assert Pending(s1, t) == Pending(s, t);
    if s1.task[s1.current].runTime == 0 { SwitchWaits(s1, true, t); }
  }

  /** Whatever the step: either t runs now, or it keeps its place and the
      pending runs fall by one for a switch and grow by at most its level
      for each arrival. */
  lemma StepWaits(s: Sys, op: Op, t: Tid)
    requires Inv(s) && Enabled(s, op) && Waiting(s, t) && s.current != t && Spares(op, t)
    ensures Progress(s, Step(s, op), t, Switched(s, op), Arrivals(s, op))
  {
    hide Inv, SetTaskState, QueueWeight, PrepareToSwitch, TickRun, SleepScan;
    InvShape(s);
    match op
    case New(u) => CreateWeight(s, u, t);
    case Yield => SwitchWaits(s, false, t);
    case Tick => TickWaits(s, t);
    case Block(u, n) => ChangeWeight(s, u, s.task[u].(waitTime := n, timeOut := 0), Sleep, t);
    case Ready(u) =>
      if s.task[u].state == Sleep {
        ChangeWeight(s, u, s.task[u].(runTime := RunTimeOf(s.task[u].prio)), Prepare, t);
      }
    case Exit(u) =>
      assert s.(task := s.task[u := s.task[u]]) == s;
      ChangeWeight(s, u, s.task[u], Idle, t);
    case Reap(u) =>
  }

  // ---- every run -----------------------------------------------------------

  ghost function Switches(s: Sys, ops: seq<Op>): nat
    requires Inv(s) && Legal(s, ops)
    decreases |ops|
  {
    if ops == [] then 0 else
      StepKeeps(s, ops[0]);
      Switched(s, ops[0]) + Switches(Step(s, ops[0]), ops[1..])
  }

  ghost function AllArrivals(s: Sys, ops: seq<Op>): nat
    requires Inv(s) && Legal(s, ops)
    decreases |ops|
  {
    if ops == [] then 0 else
      StepKeeps(s, ops[0]);
      Arrivals(s, ops[0]) + AllArrivals(Step(s, ops[0]), ops[1..])
  }

  /** t is not chosen at any point of the run, and no step is aimed at it. */
  ghost predicate Passed(s: Sys, ops: seq<Op>, t: Tid)
    requires Inv(s) && Legal(s, ops)
    decreases |ops|
  {
    s.current != t && (ops == [] ||
      (StepKeeps(s, ops[0]);
       Spares(ops[0], t) && Passed(Step(s, ops[0]), ops[1..], t)))
  }

  /** The first step of a run. */
  lemma Unfold(s: Sys, ops: seq<Op>, t: Tid)
    requires Inv(s) && Legal(s, ops) && Passed(s, ops, t) && ops != []
    ensures Enabled(s, ops[0]) && Inv(Step(s, ops[0])) && Legal(Step(s, ops[0]), ops[1..])
    ensures Spares(ops[0], t) && Passed(Step(s, ops[0]), ops[1..], t) && Step(s, ops[0]).current != t
    ensures Switches(s, ops) == Switched(s, ops[0]) + Switches(Step(s, ops[0]), ops[1..])
    ensures AllArrivals(s, ops) == Arrivals(s, ops[0]) + AllArrivals(Step(s, ops[0]), ops[1..])
  {
    hide Inv, Step, Arrivals, Switched;
    StepKeeps(s, ops[0]);
  }

  /** Bounded waiting.  A run that never chooses the ready task t has at most
      Pending(s, t) context switches, plus t's level for each task that
      became ready meanwhile; so with no arrivals t is running after at most
      Pending(s, t) + 1 switches. */
  lemma {:induction false} BoundedWaiting(s: Sys, ops: seq<Op>, t: Tid)
    requires Shape(s) && Inv(s) && Waiting(s, t) && Legal(s, ops) && Passed(s, ops, t)
    ensures Switches(s, ops) <= Pending(s, t) + s.task[t].prio * AllArrivals(s, ops)
    decreases |ops|
  {
    hide Inv, Pending, Step, Arrivals, Switched;
    if ops == [] {
      PendingNonNegative(s, t);
    } else {
      Unfold(s, ops, t);
      hide Legal, Passed, Switches, AllArrivals, Extra;
      StepWaits(s, ops[0], t);
      var r := Step(s, ops[0]);
      BoundedWaiting(r, ops[1..], t);
      ExtraAdds(s.task[t].prio, Arrivals(s, ops[0]), AllArrivals(r, ops[1..]));
      ExtraIs(s.task[t].prio, AllArrivals(r, ops[1..]));
      ExtraIs(s.task[t].prio, AllArrivals(s, ops));
    }
  }

  // ---- bounded waiting in ticks ---------------------------------------------

  const MAX_RUN := RunTimeOf(0)

  /** Every task has time left to run. */
  ghost predicate TimeInv(s: Sys) {
    forall t :: t in s.task ==> 1 <= s.task[t].runTime <= MAX_RUN
  }

  /** The processor is not between a suspend and its switch. */
  ghost predicate Settled(s: Sys) { InState(s, s.current, Running) }

  lemma SwitchKeepsTime(s: Sys, irq: bool)
    requires Inv(s) && Settled(s)
    requires forall t :: t in s.task && t != s.current ==> 1 <= s.task[t].runTime <= MAX_RUN
    requires if irq then s.task[s.current].runTime == 0 else true
    ensures Known(s)
    ensures TimeInv(SwitchTo(PrepareToSwitch(FindNext(s), irq)))
    ensures Settled(SwitchTo(PrepareToSwitch(FindNext(s), irq)))
  {
    hide Inv, PrepareToSwitch, FindNext;
    InvShape(s);
    SwitchDoes(s, irq);
  }

  lemma TickRunKeepsTime(s: Sys)
    requires Inv(s) && Settled(s) && TimeInv(s)
    ensures Known(s)
    ensures TimeInv(TickRun(s)) && Settled(TickRun(s))
  {
    hide Inv, PrepareToSwitch, FindNext;
    InvShape(s);
    ChargeKeeps(s);
    CurrentIsNext(Charge(s));
    if Charge(s).task[s.current].runTime == 0 { SwitchKeepsTime(Charge(s), true); }
  }

  lemma ScanKeepsTime(s: Sys, r: Sys)
    requires TimeInv(s) && r.task.Keys == s.task.Keys && r.current == s.current && s.current in s.task
    requires forall u :: u in s.task ==>
               (r.task[u] == s.task[u] || (s.task[u].state == Sleep && r.task[u] == Ticked(s.task[u])))
    ensures TimeInv(r) && (Settled(s) ==> Settled(r))
  {
  }

  lemma TickKeepsTime(s: Sys)
    requires Inv(s) && TimeInv(s) && Settled(s)
    ensures TimeInv(Step(s, Tick)) && Settled(Step(s, Tick))
  {
    hide Inv, TickRun, SleepScan, TimeInv, Settled;
    InvShape(s);
    ScanKeeps(s, s.sleep.items);
    ScanKeepsTime(s, SleepScan(s, s.sleep.items));
    TickRunKeepsTime(SleepScan(s, s.sleep.items));
  }

  /** The clock can only run down to a switch: no step loses a task its time
      as long as no switch finds the current task already suspended. */
  lemma StepKeepsTime(s: Sys, op: Op)
    requires Inv(s) && TimeInv(s) && Enabled(s, op)
    requires op == Tick || op == Yield ==> Settled(s)
    ensures TimeInv(Step(s, op))
    ensures op == Tick || op == Yield ==> Settled(Step(s, op))
  {
    hide Inv, SetTaskState, PrepareToSwitch, FindNext, TickRun, SleepScan;
    InvShape(s);
    match op
    case Yield => SwitchKeepsTime(s, false);
    case Tick => TickKeepsTime(s);
    case _ =>
  }

  lemma TickRunCharges(s: Sys, t: Tid)
    requires Inv(s) && Settled(s) && Waiting(s, t) && s.current != t
    ensures Known(s) && s.current in s.task && s.current in TickRun(s).task
    ensures TickRun(s).current == s.current ==>
              TickRun(s).task[s.current].runTime == s.task[s.current].runTime - 1
  {
    hide Inv, PrepareToSwitch, FindNext, Pending;
    InvShape(s);
    ChargeKeeps(s);
    CurrentIsNext(Charge(s));
    if Charge(s).task[s.current].runTime == 0 { SwitchWaits(Charge(s), true, t); }
  }

  /** A tick that does not switch is one the current task pays for; any other
      tick and every voluntary sched() switches. */
  lemma StepCharges(s: Sys, op: Op, t: Tid)
    requires Inv(s) && Settled(s) && Waiting(s, t) && s.current != t
    requires op == Tick || op == Yield
    ensures s.current in s.task && s.current in Step(s, op).task
    ensures Switched(s, op) == 0 ==>
              op == Tick && Step(s, op).task[s.current].runTime == s.task[s.current].runTime - 1
  {
    hide Inv, SleepScan, TickRun, PrepareToSwitch, FindNext, Pending;
    InvShape(s);
    if op == Tick {
      ScanKeeps(s, s.sleep.items);
      assert s.current !in s.sleep.items;
      TickRunCharges(SleepScan(s, s.sleep.items), t);
    } else {
      SwitchWaits(s, false, t);
    }
  }

  /** Steps of the clock before t runs: each pending run lasts at most
      MAX_RUN ticks. */
  ghost function Budget(s: Sys, t: Tid): int
    requires Shape(s) && t in s.task
  {
    (MAX_RUN + 1) * Pending(s, t) + s.task[s.current].runTime
  }

  lemma StepBudget(s: Sys, op: Op, t: Tid)
    requires Shape(s) && Inv(s) && TimeInv(s) && Settled(s) && Waiting(s, t) && s.current != t
    requires op == Tick || op == Yield
    requires Inv(Step(s, op)) && Step(s, op).current != t
    ensures Shape(Step(s, op)) && t in Step(s, op).task && Step(s, op).task[t] == s.task[t]
    ensures Waiting(Step(s, op), t)
    ensures Budget(Step(s, op), t) + 1 <=
              Budget(s, t) + (MAX_RUN + 1) * Extra(s.task[t].prio, Arrivals(s, op))
  {
    hide Inv, Step, Pending, Extra, Arrivals;
    StepWaits(s, op, t);
    StepKeepsTime(s, op);
    StepCharges(s, op, t);
  }

  ghost predicate ClockOnly(ops: seq<Op>) {
    forall i :: 0 <= i < |ops| ==> ops[i] == Tick || ops[i] == Yield
  }

  /** Bounded waiting in real time: a run of ticks and voluntary switches
      that never chooses t is no longer than its budget, which only tasks
      whose wait runs out can raise. */
  lemma {:induction false} BoundedTicks(s: Sys, ops: seq<Op>, t: Tid)
    requires Shape(s) && Inv(s) && TimeInv(s) && Settled(s) && Waiting(s, t)
    requires Legal(s, ops) && Passed(s, ops, t) && ClockOnly(ops)
    ensures |ops| <= Budget(s, t) + (MAX_RUN + 1) * Extra(s.task[t].prio, AllArrivals(s, ops))
    decreases |ops|
  {
    hide Inv, Pending, Step, Arrivals, Switched, Extra;
    if ops == [] {
      PendingNonNegative(s, t);
      ExtraAdds(s.task[t].prio, 0, 0);
    } else {
      Unfold(s, ops, t);
      var r := Step(s, ops[0]);
      StepBudget(s, ops[0], t);
      StepKeepsTime(s, ops[0]);
      hide Legal, Passed, Switches, AllArrivals, TimeInv, Budget;
      BoundedTicks(r, ops[1..], t);
      ExtraAdds(s.task[t].prio, Arrivals(s, ops[0]), AllArrivals(r, ops[1..]));
    }
  }

  // ---- how large the bound is ------------------------------------------------

  /** Tasks queued at levels below n. */
  ghost function Ready(table: seq<SchedList>, n: nat): nat
    requires n <= |table|
  {
    if n == 0 then 0 else Ready(table, n - 1) + |table[n - 1].items|
  }

  lemma {:induction false} AboveBound(table: seq<SchedList>, p: nat, n: nat)
    requires n <= p <= |table| && p <= IDLE_PRIO
    ensures Above(table, p, n) <= IDLE_PRIO * Ready(table, n)
  {
    if n > 0 {
      AboveBound(table, p, n - 1);
      Scaled(p - (n - 1), IDLE_PRIO, |table[n - 1].items|);
      Spread(IDLE_PRIO, Ready(table, n - 1), |table[n - 1].items|);
    }
  }

  lemma Scaled(a: nat, b: nat, k: nat)
    requires a <= b
    ensures a * k <= b * k
  {
  }

  lemma Spread(a: nat, m: nat, n: nat)
    ensures a * (m + n) == a * m + a * n
  {
  }

  /** At most 63 runs for each task that is ready or running. */
  lemma PendingBound(s: Sys, t: Tid)
    requires Shape(s) && Inv(s) && Waiting(s, t)
    ensures Pending(s, t) <= IDLE_PRIO * (1 + Ready(s.table, s.task[t].prio + 1))
  {
    hide Inv, Above, Index;
    WaitingQueued(s, t);
    var p := s.task[t].prio;
    AboveBound(s.table, p, p);
    var i, k := Index(s.table[p].items, t), |s.table[p].items|;
    assert Ahead(p) * i <= IDLE_PRIO * k;
  }
}
