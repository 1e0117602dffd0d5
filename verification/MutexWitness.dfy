/** Runs from boot that leave no wait ring of a mutex (kernel/mutex.c:30-92). */
module MutexWitness {
  import opened Sched
  import opened SchedInvariant
  import opened RingLinks
  import opened Mutex
  import opened MutexRing
  import SchedTimeout

  /** Another task takes over: the only one ready besides idle and those it outranks. */
  ghost predicate Leads(s: Sys, n: Tid) {
    && InState(s, n, Prepare) && n != s.idle
    && forall t :: InState(s, t, Prepare) && t != n && t != s.idle ==> s.task[n].prio < s.task[t].prio
  }

  lemma YieldTo(s: Sys, n: Tid)
    requires Inv(s) && Leads(s, n)
    ensures s.current in s.task && Step(s, Yield).current == n && Step(s, Yield).idle == s.idle
    ensures Step(s, Yield).task == (
      if n == s.current then
        s.task[n := s.task[n].(runTime := RunTimeOf(s.task[n].prio), runCount := s.task[n].runCount + 1)]
      else
        s.task[s.current := if s.task[s.current].state == Running
                            then Spent(s.task[s.current], false).(state := Prepare) else s.task[s.current]]
              [n := Resumed(s.task[n]).(state := Running)])
  {
    hide Inv, FindNext, PrepareToSwitch;
    InvShape(s);
    PickIsMostUrgent(s);
    SwitchDoes(s, false);
    SchedTimeout.StepKeepsIdle(s, Yield);
  }

  lemma NewIs(s: Sys, t: Tid)
    requires Inv(s) && t !in s.task && s.nextPid < NR_PID
    ensures var r := Step(s, New(t));
      && r.current == s.current && r.idle == s.idle && r.nextPid == s.nextPid + 1
      && r.task == s.task[t := Task(Prepare, s.nextPid, DEFAULT_PRIO, RunTimeOf(DEFAULT_PRIO), -1, 0, 0)]
  {
    hide Inv, SetTaskState;
    InvShape(s);
  }

  /** A tick with one sleeper, whose wait it ends, and a current task with time left. */
  lemma TickEnds(s: Sys, t: Tid)
    requires Inv(s) && InState(s, t, Sleep) && s.task[t].waitTime == 1 && s.current in s.task
    requires s.task[s.current].runTime > 1 && forall u :: InState(s, u, Sleep) ==> u == t
    ensures var r := Step(s, Tick); var k := s.task[t].(waitTime := 0, state := Prepare);
      && r.current == s.current && r.idle == s.idle
      && r.task == if s.current == t then s.task[t := k.(runTime := k.runTime - 1)]
                   else s.task[t := k][s.current := s.task[s.current].(runTime := s.task[s.current].runTime - 1)]
  {
    hide Inv, SleepScan, PrepareToSwitch, FindNext;
    InvShape(s);
    ScanKeeps(s, s.sleep.items);
    SchedTimeout.Sleeper(s, t);
    var r := SleepScan(s, s.sleep.items);
    assert r.task == s.task[t := Ticked(s.task[t])];
    ChargeKeeps(r);
  }

  // ---- three or four tasks ------------------------------------------------------------------

  /** The idle task, a task a that takes the mutex, and tasks b and c that wait for it. */
  function IdleTask(st: State): Task { Task(st, -1, IDLE_PRIO, RunTimeOf(IDLE_PRIO), -1, 0, 0) }

  function A(st: State, prio: nat, runTime: int): Task { Task(st, 0, prio, runTime, -1, 0, 0) }

  function B(st: State, runTime: int, wait: int, timeOut: int): Task { Task(st, 1, 20, runTime, wait, timeOut, 0) }

  function C(st: State, prio: nat, runTime: int): Task { Task(st, 2, prio, runTime, -1, 0, 0) }

  function Three(i: Tid, a: Tid, b: Tid, ki: Task, ka: Task, kb: Task): map<Tid, Task> { map[i := ki, a := ka, b := kb] }

  /** A world in the middle of a run, with a ring. */
  ghost predicate At(x: World, i: Tid, cur: Tid, pid: nat, task: map<Tid, Task>, phase: map<Tid, Phase>,
                     wait: seq<Tid>, count: int)
  {
    && OwnerInv(x) && x.s.idle == i && x.s.current == cur && x.s.nextPid == pid && x.s.task == task
    && x.phase == phase && x.wait == wait && x.count == count && IsRing(x.links, wait)
  }

  ghost predicate Apart(i: Tid, a: Tid, b: Tid) { i != a && i != b && a != b }

  lemma KernTo(x: World, op: Op)
    requires OwnerInv(x) && Enabled(x.s, op) && !op.Reap?
    ensures StepTo(x, Kern(op), DoKern(x, op)) && OwnerInv(DoKern(x, op)) && Inv(x.s)
  {
    hide Inv, Step, OwnerInv;
    DoKeeps(x, Kern(op));
    OwnerFacts(x);
  }

  lemma ActTo(x: World, a: Act)
    requires OwnerInv(x) && Allowed(x, a)
    ensures StepTo(x, a, Do(x, a)) && OwnerInv(Do(x, a)) && Inv(x.s)
  {
    hide Inv, Step, OwnerInv, Do;
    DoKeeps(x, a);
    OwnerFacts(x);
  }

  lemma PidKept(s: Sys, op: Op)
    requires Inv(s) && Enabled(s, op) && (op == Yield || op.Block?)
    ensures Step(s, op).nextPid == s.nextPid
  {
    hide Inv, SetTaskState;
    InvShape(s);
  }

  /** A task is created. */
  lemma NewAt(x: World, i: Tid, cur: Tid, pid: nat, task: map<Tid, Task>, phase: map<Tid, Phase>, wait: seq<Tid>,
              count: int, t: Tid)
    requires At(x, i, cur, pid, task, phase, wait, count) && t !in task && t !in wait && pid < NR_PID
    ensures Inv(x.s) && Enabled(x.s, New(t))
    ensures var y := DoKern(x, New(t));
      && StepTo(x, Kern(New(t)), y)
      && At(y, i, cur, pid + 1, task[t := Task(Prepare, pid, DEFAULT_PRIO, RunTimeOf(DEFAULT_PRIO), -1, 0, 0)], phase, wait, count)
  {
    hide Inv, Step, OwnerInv, IsRing, Init;
    KernTo(x, New(t));
    NewIs(x.s, t);
    InitKeeps(x.links, wait, t);
  }

  /** Another task takes over. */
  lemma YieldAt(x: World, i: Tid, cur: Tid, pid: nat, task: map<Tid, Task>, phase: map<Tid, Phase>, wait: seq<Tid>,
                count: int, n: Tid)
    requires At(x, i, cur, pid, task, phase, wait, count) && Leads(x.s, n) && n != cur && cur in task
    ensures Inv(x.s) && n in task
    ensures var y := DoKern(x, Yield);
      && StepTo(x, Kern(Yield), y)
      && At(y, i, n, pid, task[cur := if task[cur].state == Running then Spent(task[cur], false).(state := Prepare) else task[cur]]
                              [n := Resumed(task[n]).(state := Running)], phase, wait, count)
  {
    hide Inv, Step, OwnerInv, IsRing;
    KernTo(x, Yield);
    YieldTo(x.s, n);
    PidKept(x.s, Yield);
  }

  /** The current task finds the mutex taken. */
  lemma QueueAt(x: World, i: Tid, cur: Tid, pid: nat, task: map<Tid, Task>, phase: map<Tid, Phase>, wait: seq<Tid>)
    requires At(x, i, cur, pid, task, phase, wait, 1) && cur !in phase && cur !in wait
    ensures Allowed(x, Lock(cur)) && StepTo(x, Lock(cur), Do(x, Lock(cur)))
    ensures At(Do(x, Lock(cur)), i, cur, pid, task, phase[cur := Enqueued], wait + [cur], 1)
  {
    hide Inv, Step, OwnerInv, IsRing, AddTail;
    ActTo(x, Lock(cur));
    AddKeeps(x.links, wait, cur);
  }

  /** From boot: a is created, runs and takes the mutex. */
  lemma Taken(i: Tid, a: Tid) returns (xs: seq<World>, acts: seq<Act>)
    requires i != a
    ensures acts == [Kern(New(a)), Kern(Yield), Lock(a)] && IsRun(xs, acts) && xs[0] == Fresh(Boot(i))
    ensures At(xs[3], i, a, 1, map[i := IdleTask(Prepare), a := A(Running, 20, 49)], map[a := Holds], [], 1)
  {
    hide Inv, Step, OwnerInv, IsRing;
    BootHolds(i);
    var x0 := Fresh(Boot(i));
    FreshLinks(Boot(i));
    InsideMet(x0);
    KernTo(x0, New(a));
    NewIs(x0.s, a);
    var x1 := DoKern(x0, New(a));
    InitKeeps(x0.links, [], a);
    assert x1.s.task == map[i := IdleTask(Running), a := A(Prepare, 20, 49)];
    KernTo(x1, Yield);
    YieldTo(x1.s, a);
    PidKept(x1.s, Yield);
    var x2 := DoKern(x1, Yield);
    assert x2.s.task == map[i := IdleTask(Prepare), a := A(Running, 20, 49)];
    ActTo(x2, Lock(a));
    var x3 := Do(x2, Lock(a));
    xs, acts := [x0, x1, x2, x3], [Kern(New(a)), Kern(Yield), Lock(a)];
  }

  lemma RunJoins(xs: seq<World>, acts: seq<Act>, ys: seq<World>, more: seq<Act>)
    requires IsRun(xs, acts) && IsRun(ys, more) && ys[0] == xs[|acts|]
    ensures IsRun(xs + ys[1..], acts + more) && (xs + ys[1..])[|acts| + |more|] == ys[|more|]
    ensures |more| > 0 ==> (xs + ys[1..])[|acts| + |more| - 1] == ys[|more| - 1]
    ensures (xs + ys[1..])[0] == xs[0]
  {
    hide StepTo;
    var zs, all := xs + ys[1..], acts + more;
    forall i | 0 <= i < |all| ensures StepTo(zs[i], all[i], zs[i + 1]) {
      if i >= |acts| { assert StepTo(ys[i - |acts|], more[i - |acts|], ys[i - |acts| + 1]); }
    }
  }

  /** b is created, runs, finds the mutex taken, and suspends itself for one tick. */
  lemma Suspending(x: World, i: Tid, a: Tid, b: Tid) returns (xs: seq<World>, acts: seq<Act>)
    requires Apart(i, a, b)
    requires At(x, i, a, 1, map[i := IdleTask(Prepare), a := A(Running, 20, 49)], map[a := Holds], [], 1)
    ensures acts == [Kern(New(b)), Kern(Yield), Lock(b), Park(b, 1)] && IsRun(xs, acts) && xs[0] == x
    ensures At(xs[4], i, b, 2, Three(i, a, b, IdleTask(Prepare), A(Prepare, 21, 48), B(Sleep, 49, 1, 0)),
               map[a := Holds, b := Suspended], [b], 1)
  {
    hide Inv, Step, OwnerInv, IsRing, DoKern, DoLock;
    NewAt(x, i, a, 1, x.s.task, x.phase, [], 1, b);
    var x1 := DoKern(x, New(b));
    assert x1.s.task == Three(i, a, b, IdleTask(Prepare), A(Running, 20, 49), B(Prepare, 49, -1, 0));
    YieldAt(x1, i, a, 2, x1.s.task, x.phase, [], 1, b);
    var x2 := DoKern(x1, Yield);
    assert x2.s.task == Three(i, a, b, IdleTask(Prepare), A(Prepare, 21, 48), B(Running, 49, -1, 0));
    QueueAt(x2, i, b, 2, x2.s.task, x.phase, []);
    assert [] + [b] == [b];
    var x3 := Do(x2, Lock(b));
    BlockAt(x3, i, a, b);
    var x4 := Do(x3, Park(b, 1));
    xs, acts := [x, x1, x2, x3, x4], [Kern(New(b)), Kern(Yield), Lock(b), Park(b, 1)];
  }

  lemma BlockAt(x3: World, i: Tid, a: Tid, b: Tid)
    requires Apart(i, a, b)
    requires At(x3, i, b, 2, Three(i, a, b, IdleTask(Prepare), A(Prepare, 21, 48), B(Running, 49, -1, 0)),
               map[a := Holds, b := Enqueued], [b], 1)
    ensures Allowed(x3, Park(b, 1)) && StepTo(x3, Park(b, 1), Do(x3, Park(b, 1)))
    ensures At(Do(x3, Park(b, 1)), i, b, 2, Three(i, a, b, IdleTask(Prepare), A(Prepare, 21, 48), B(Sleep, 49, 1, 0)),
               map[a := Holds, b := Suspended], [b], 1)
  {
    hide Inv, Step, OwnerInv, IsRing;
    ActTo(x3, Park(b, 1));
    BlockIs(x3.s, b, 1);
    PidKept(x3.s, Block(b, 1));
    var x4 := Do(x3, Park(b, 1));
    assert x4.s.task == Three(i, a, b, IdleTask(Prepare), A(Prepare, 21, 48), B(Sleep, 49, 1, 0));
  }

  lemma BlockIs(s: Sys, t: Tid, n: int)
    requires Inv(s) && t in s.task && t != s.idle && n != 0 && s.task[t].state != Idle
    ensures var r := Step(s, Block(t, n));
      && r.current == s.current && r.idle == s.idle
      && r.task == s.task[t := s.task[t].(waitTime := n, timeOut := 0, state := Sleep)]
  {
    hide Inv, SetTaskState;
    InvShape(s);
    KnownState(s, t);
  }

  // ---- a second list_del ----------------------------------------------------------------------

  function Four(i: Tid, a: Tid, b: Tid, c: Tid, ka: Task, kb: Task, kc: Task): map<Tid, Task> {
    map[i := IdleTask(Prepare), a := ka, b := kb, c := kc]
  }

  /** b is switched out; c is created, runs, and links itself behind b. */
  lemma Queueing(x: World, i: Tid, a: Tid, b: Tid, c: Tid) returns (xs: seq<World>, acts: seq<Act>)
    requires Apart(i, a, b) && c != i && c != a && c != b
    requires At(x, i, b, 2, Three(i, a, b, IdleTask(Prepare), A(Prepare, 21, 48), B(Sleep, 49, 1, 0)),
                map[a := Holds, b := Suspended], [b], 1)
    ensures acts == [Mutex.Sched(b), Kern(New(c)), Kern(Yield), Lock(c)] && IsRun(xs, acts) && xs[0] == x
    ensures At(xs[4], i, c, 3, Four(i, a, b, c, A(Prepare, 22, 47), B(Sleep, 49, 1, 0), C(Running, 20, 49)),
               map[a := Holds, b := Parked, c := Enqueued], [b, c], 1)
  {
    hide Inv, Step, OwnerInv, IsRing, DoKern, DoLock, At;
    SchedAt(x, i, a, b);
    var x1 := Do(x, Mutex.Sched(b));
    Creating(x1, i, a, b, c);
    var x2 := DoKern(x1, New(c));
    SwitchingIn(x2, i, a, b, c);
    var x3 := DoKern(x2, Yield);
    LinkingUp(x3, i, a, b, c);
    var x4 := Do(x3, Lock(c));
    xs, acts := [x, x1, x2, x3, x4], [Mutex.Sched(b), Kern(New(c)), Kern(Yield), Lock(c)];
  }

  lemma Creating(x: World, i: Tid, a: Tid, b: Tid, c: Tid)
    requires Apart(i, a, b) && c != i && c != a && c != b
    requires At(x, i, a, 2, Three(i, a, b, IdleTask(Prepare), A(Running, 21, 48), B(Sleep, 49, 1, 0)),
                map[a := Holds, b := Parked], [b], 1)
    ensures Inv(x.s) && Enabled(x.s, New(c)) && StepTo(x, Kern(New(c)), DoKern(x, New(c)))
    ensures At(DoKern(x, New(c)), i, a, 3, Four(i, a, b, c, A(Running, 21, 48), B(Sleep, 49, 1, 0), C(Prepare, 20, 49)),
               map[a := Holds, b := Parked], [b], 1)
  {
    hide Inv, Step, OwnerInv, IsRing, DoKern;
    NewAt(x, i, a, 2, x.s.task, x.phase, [b], 1, c);
    var y := DoKern(x, New(c));
    assert y.s.task == Four(i, a, b, c, A(Running, 21, 48), B(Sleep, 49, 1, 0), C(Prepare, 20, 49));
  }

  lemma SwitchingIn(x: World, i: Tid, a: Tid, b: Tid, c: Tid)
    requires Apart(i, a, b) && c != i && c != a && c != b
    requires At(x, i, a, 3, Four(i, a, b, c, A(Running, 21, 48), B(Sleep, 49, 1, 0), C(Prepare, 20, 49)),
                map[a := Holds, b := Parked], [b], 1)
    ensures Inv(x.s) && StepTo(x, Kern(Yield), DoKern(x, Yield))
    ensures At(DoKern(x, Yield), i, c, 3, Four(i, a, b, c, A(Prepare, 22, 47), B(Sleep, 49, 1, 0), C(Running, 20, 49)),
               map[a := Holds, b := Parked], [b], 1)
  {
    hide Inv, Step, OwnerInv, IsRing, DoKern;
    YieldAt(x, i, a, 3, x.s.task, x.phase, [b], 1, c);
    var y := DoKern(x, Yield);
    assert y.s.task == Four(i, a, b, c, A(Prepare, 22, 47), B(Sleep, 49, 1, 0), C(Running, 20, 49));
  }

  lemma LinkingUp(x: World, i: Tid, a: Tid, b: Tid, c: Tid)
    requires Apart(i, a, b) && c != i && c != a && c != b
    requires At(x, i, c, 3, Four(i, a, b, c, A(Prepare, 22, 47), B(Sleep, 49, 1, 0), C(Running, 20, 49)),
                map[a := Holds, b := Parked], [b], 1)
    ensures Allowed(x, Lock(c)) && StepTo(x, Lock(c), Do(x, Lock(c)))
    ensures At(Do(x, Lock(c)), i, c, 3, Four(i, a, b, c, A(Prepare, 22, 47), B(Sleep, 49, 1, 0), C(Running, 20, 49)),
               map[a := Holds, b := Parked, c := Enqueued], [b, c], 1)
  {
    hide Inv, Step, OwnerInv, IsRing, Do;
    QueueAt(x, i, c, 3, x.s.task, x.phase, [b]);
    assert [b] + [c] == [b, c];
  }

  lemma SchedAt(x: World, i: Tid, a: Tid, b: Tid)
    requires Apart(i, a, b)
    requires At(x, i, b, 2, Three(i, a, b, IdleTask(Prepare), A(Prepare, 21, 48), B(Sleep, 49, 1, 0)),
                map[a := Holds, b := Suspended], [b], 1)
    ensures Allowed(x, Mutex.Sched(b)) && StepTo(x, Mutex.Sched(b), Do(x, Mutex.Sched(b)))
    ensures At(Do(x, Mutex.Sched(b)), i, a, 2, Three(i, a, b, IdleTask(Prepare), A(Running, 21, 48), B(Sleep, 49, 1, 0)),
               map[a := Holds, b := Parked], [b], 1)
  {
    hide Inv, Step, OwnerInv, IsRing;
    ActTo(x, Mutex.Sched(b));
    YieldTo(x.s, a);
    PidKept(x.s, Yield);
    var x1 := Do(x, Mutex.Sched(b));
    assert x1.s.task == Three(i, a, b, IdleTask(Prepare), A(Running, 21, 48), B(Sleep, 49, 1, 0));
  }

  /** c is switched out before it suspends itself, and the wait of b ends. */
  lemma WaitEnds(x: World, i: Tid, a: Tid, b: Tid, c: Tid) returns (xs: seq<World>, acts: seq<Act>)
    requires Apart(i, a, b) && c != i && c != a && c != b
    requires At(x, i, c, 3, Four(i, a, b, c, A(Prepare, 22, 47), B(Sleep, 49, 1, 0), C(Running, 20, 49)),
                map[a := Holds, b := Parked, c := Enqueued], [b, c], 1)
    ensures acts == [Kern(Yield), Kern(Tick)] && IsRun(xs, acts) && xs[0] == x
    ensures Late(xs[2], i, a, b, c)
  {
    hide Inv, Step, OwnerInv, IsRing;
    KernTo(x, Yield);
    YieldTo(x.s, a);
    var x1 := DoKern(x, Yield);
    assert x1.s.task == Four(i, a, b, c, A(Running, 22, 47), B(Sleep, 49, 1, 0), C(Prepare, 21, 48));
    KernTo(x1, Tick);
    TickEnds(x1.s, b);
    var x2 := DoKern(x1, Tick);
    assert x2.s.task == Four(i, a, b, c, A(Running, 22, 46), B(Prepare, 49, 0, 0), C(Prepare, 21, 48));
    xs, acts := [x, x1, x2], [Kern(Yield), Kern(Tick)];
  }

  /** a runs, b and c are on the ring and ready, and b will be told of its timeout. */
  ghost predicate Late(x: World, i: Tid, a: Tid, b: Tid, c: Tid) {
    At(x, i, a, x.s.nextPid, Four(i, a, b, c, A(Running, 22, 46), B(Prepare, 49, 0, 0), C(Prepare, 21, 48)),
       map[a := Holds, b := Parked, c := Enqueued], [b, c], 1)
  }

  lemma PairDrained(l: Links, b: Tid, c: Tid)
    requires IsRing(l, [b, c])
    ensures var m := UnlinkAll(l, [b, c]);
      && Walk(l, Next(l, Head), [b, c]) && IsRing(m, []) && Pre(m, Of(b)) == Head && Next(m, Of(b)) == Of(c)
  {
    hide IsRing, UnlinkAll, Walk;
    WalkDrains(l, [b, c]);
    assert [b, c][0] == b && Spot([b, c], 2) == Of(c);
  }

  lemma WakeNobody(x: World, i: Tid, a: Tid, b: Tid, c: Tid)
    requires Apart(i, a, b) && c != i && c != a && c != b && Late(x, i, a, b, c)
    ensures Allowed(x, Unlock(a, [b, c])) && StepTo(x, Unlock(a, [b, c]), Do(x, Unlock(a, [b, c])))
    ensures var y := Do(x, Unlock(a, [b, c]));
      && At(y, i, a, y.s.nextPid, x.s.task, map[a := Out, b := Parked, c := Enqueued], [], 0)
      && Pre(y.links, Of(b)) == Head && Next(y.links, Of(b)) == Of(c)
  {
    hide Inv, OwnerInv, WakeAll, IsRing, UnlinkAll, Walk, Missed, Next, Pre;
    PairDrained(x.links, b, c);
    ActTo(x, Unlock(a, [b, c]));
    InvShape(x.s);
    NoneWoken(x.s, [b, c]);
    AllMet(x.wait, [b, c]);
  }

  lemma NoneWoken(s: Sys, ts: seq<Tid>)
    requires Shape(s) && Inv(s) && forall t :: t in ts ==> t in s.task && s.task[t].state != Sleep
    ensures WakeAll(s, ts).task == s.task
  {
    hide Inv, WakeAll, Shape;
    WakeAllReadies(s, ts);
  }

  /** Only then a unlocks; b is told of a timeout and unlinks itself although the unlock has
      done so: the head now leads to c, and nothing leads back. */
  lemma UnlockedLate(x: World, i: Tid, a: Tid, b: Tid, c: Tid) returns (xs: seq<World>, acts: seq<Act>)
    requires Apart(i, a, b) && c != i && c != a && c != b && Late(x, i, a, b, c)
    ensures acts == [Unlock(a, [b, c]), Kern(Yield), Resume(b)] && IsRun(xs, acts) && xs[0] == x
    ensures Whole(xs[2]) && forall q :: !IsRing(xs[3].links, q)
  {
    hide Inv, Step, OwnerInv, WakeAll, Released, IsRing, Unlink;
    WakeNobody(x, i, a, b, c);
    var x1 := Do(x, Unlock(a, [b, c]));
    KernTo(x1, Yield);
    YieldTo(x1.s, b);
    var x2 := DoKern(x1, Yield);
    assert x2.s.task[b].timeOut == 1;
    ActTo(x2, Resume(b));
    var x3 := Do(x2, Resume(b));
    Around(x2.links, [], 0);
    forall q ensures !IsRing(x3.links, q) { StrayBreaks(x2.links, [], b, q); }
    xs, acts := [x, x1, x2, x3], [Unlock(a, [b, c]), Kern(Yield), Resume(b)];
  }

  // ---- a second list_add_tail -----------------------------------------------------------------

  /** The wait ends before b is switched out, and b outranks a: sched() leaves it in place,
      it is told nothing, stays on the ring and links itself again. */
  lemma LeftInPlace(x: World, i: Tid, a: Tid, b: Tid) returns (xs: seq<World>, acts: seq<Act>)
    requires Apart(i, a, b)
    requires At(x, i, b, 2, Three(i, a, b, IdleTask(Prepare), A(Prepare, 21, 48), B(Sleep, 49, 1, 0)),
                map[a := Holds, b := Suspended], [b], 1)
    ensures acts == [Kern(Tick), Mutex.Sched(b), Resume(b), Lock(b)] && IsRun(xs, acts) && xs[0] == x
    ensures Whole(xs[3]) && forall q :: !IsRing(xs[4].links, q)
  {
    hide Inv, Step, OwnerInv, WakeAll, IsRing, AddTail;
    KernTo(x, Tick);
    TickEnds(x.s, b);
    var x1 := DoKern(x, Tick);
    assert x1.s.task == Three(i, a, b, IdleTask(Prepare), A(Prepare, 21, 48), B(Prepare, 48, 0, 0));
    ActTo(x1, Mutex.Sched(b));
    YieldTo(x1.s, b);
    var x2 := Do(x1, Mutex.Sched(b));
    ActTo(x2, Resume(b));
    var x3 := Do(x2, Resume(b));
    ActTo(x3, Lock(b));
    var x4 := Do(x3, Lock(b));
    forall q ensures !IsRing(x4.links, q) { AddAgainBreaks(x3.links, [b], b, q); }
    xs, acts := [x, x1, x2, x3, x4], [Kern(Tick), Mutex.Sched(b), Resume(b), Lock(b)];
  }

  /** Two runs from boot whose last step turns a ring into links that are none: in one the
      first of two waiters unlinks itself a second time, in the other a waiter links
      itself a second time. */
  lemma RingBreaks(i: Tid, a: Tid, b: Tid, c: Tid) returns (xs: seq<World>, acts: seq<Act>, ys: seq<World>, more: seq<Act>)
    requires Apart(i, a, b) && c != i && c != a && c != b
    ensures var first := [Kern(New(a)), Kern(Yield), Lock(a), Kern(New(b)), Kern(Yield), Lock(b), Park(b, 1)];
      && acts == first + [Mutex.Sched(b), Kern(New(c)), Kern(Yield), Lock(c), Kern(Yield), Kern(Tick),
                          Unlock(a, [b, c]), Kern(Yield), Resume(b)]
      && more == first + [Kern(Tick), Mutex.Sched(b), Resume(b), Lock(b)]
    ensures IsRun(xs, acts) && xs[0] == Fresh(Boot(i)) && Whole(xs[15]) && forall q :: !IsRing(xs[16].links, q)
    ensures IsRun(ys, more) && ys[0] == Fresh(Boot(i)) && Whole(ys[10]) && forall q :: !IsRing(ys[11].links, q)
    ensures forall k :: 0 <= k < |acts| ==> Proper(xs[k], acts[k])
    ensures forall k :: 0 <= k < |more| ==> Proper(ys[k], more[k])
  {
    hide IsRun, At, Late, Whole, IsRing;
    var s1, a1 := Taken(i, a);
    RunLength(s1, a1);
    var s2, a2 := Suspending(s1[3], i, a, b);
    RunLength(s2, a2);
    RunJoins(s1, a1, s2, a2);
    var s, acts0 := s1 + s2[1..], a1 + a2;
    var u, au := Overtaken(s2[4], i, a, b, c);
    RunLength(u, au);
    RunJoins(s, acts0, u, au);
    xs, acts := s + u[1..], acts0 + au;
    var v, av := LeftInPlace(s2[4], i, a, b);
    RunLength(v, av);
    RunJoins(s, acts0, v, av);
    ys, more := s + v[1..], acts0 + av;
  }

  lemma Overtaken(x: World, i: Tid, a: Tid, b: Tid, c: Tid) returns (xs: seq<World>, acts: seq<Act>)
    requires Apart(i, a, b) && c != i && c != a && c != b
    requires At(x, i, b, 2, Three(i, a, b, IdleTask(Prepare), A(Prepare, 21, 48), B(Sleep, 49, 1, 0)),
                map[a := Holds, b := Suspended], [b], 1)
    ensures acts == [Mutex.Sched(b), Kern(New(c)), Kern(Yield), Lock(c), Kern(Yield), Kern(Tick),
                     Unlock(a, [b, c]), Kern(Yield), Resume(b)]
    ensures IsRun(xs, acts) && xs[0] == x && Whole(xs[8]) && forall q :: !IsRing(xs[9].links, q)
  {
    hide IsRun, At, Late, Whole, IsRing;
    var q, aq := Queueing(x, i, a, b, c);
    RunLength(q, aq);
    var w, aw := WaitEnds(q[4], i, a, b, c);
    RunLength(w, aw);
    RunJoins(q, aq, w, aw);
    var u, au := UnlockedLate(w[2], i, a, b, c);
    RunLength(u, au);
    RunJoins(q + w[1..], aq + aw, u, au);
    xs, acts := q + w[1..] + u[1..], aq + aw + au;
  }

  lemma RunLength(xs: seq<World>, acts: seq<Act>)
    requires IsRun(xs, acts)
    ensures |xs| == |acts| + 1
  {
  }
}
