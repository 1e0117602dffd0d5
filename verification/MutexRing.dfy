/** When the wait ring of a mutex stays a ring: which list operations of waiters on their own
    nodes leave it as they should (kernel/mutex.c:30-92). */
module MutexRing {
  import opened Lists
  import opened RingLinks
  import opened Sched
  import opened SchedInvariant
  import opened Mutex
  import SchedTimeout

  // ---- what a suspended task will be told -----------------------------------------------

  /** The verdict of a suspended task agrees with its history: it is told of a timeout if and
      only if nothing roused it, once it has been switched in after its sleep; before that
      it has not been told, and the wait that is used up says that it will be. */
  ghost predicate Verdict(s: Sys, t: Tid, roused: bool)
    requires t in s.task
  {
    var k := s.task[t];
    match k.state
    case Sleep => k.timeOut == 0 && !roused
    case Running => k.waitTime != 0 && (k.timeOut != 0 <==> !roused)
    case Prepare =>
      && (roused ==> k.timeOut == 0) && (k.waitTime == 0 <==> !roused && k.timeOut == 0)
      && (t == s.current ==> k.timeOut == 0)
    case _ => t != s.current
  }

  /** A switch keeps every verdict, and a task that it leaves suspended is not current. */
  lemma SwitchVerdict(s: Sys, irq: bool, t: Tid, roused: bool)
    requires Inv(s) && t in s.task && t != s.idle && Verdict(s, t, roused)
    ensures Known(s)
    ensures var r := SwitchTo(PrepareToSwitch(FindNext(s), irq));
      t in r.task && Verdict(r, t, roused) && (r.current == t ==> !InState(r, t, Sleep))
  {
    hide Inv, PrepareToSwitch, FindNext;
    InvShape(s);
    SwitchDoes(s, irq);
    PickIsMostUrgent(s);
    SomeReady(s, t);
  }

  /** Some task is ready whenever another than idle is current. */
  lemma SomeReady(s: Sys, t: Tid)
    requires Inv(s)
    ensures s.current != s.idle ==> InState(s, s.idle, Prepare)
    ensures InState(s, t, Running) ==> t == s.current
  {
  }

  lemma ScanVerdict(s: Sys, t: Tid, roused: bool)
    requires Inv(s) && Known(s) && t in s.task && Verdict(s, t, roused)
    ensures var r := SleepScan(s, s.sleep.items);
      Inv(r) && t in r.task && r.current == s.current && r.idle == s.idle && Verdict(r, t, roused)
  {
    hide Inv, SleepScan;
    InvShape(s);
    ScanKeeps(s, s.sleep.items);
    SleepersWait(s);
  }

  lemma TickRunVerdict(s: Sys, t: Tid, roused: bool)
    requires Inv(s) && t in s.task && t != s.idle && Verdict(s, t, roused)
    ensures Known(s)
    ensures t in TickRun(s).task && Verdict(TickRun(s), t, roused)
    ensures (s.current == t ==> !InState(s, t, Sleep)) ==> (TickRun(s).current == t ==> !InState(TickRun(s), t, Sleep))
  {
    hide Inv, PrepareToSwitch, FindNext;
    InvShape(s);
    ChargeKeeps(s);
    CurrentIsNext(Charge(s));
    if Charge(s).task[s.current].runTime == 0 { SwitchVerdict(Charge(s), true, t, roused); }
  }

  /** What the history of t is after a step of the scheduler. */
  ghost predicate RousedBy(s: Sys, op: Op, t: Tid, roused: bool)
    requires Enabled(s, op)
  {
    if op == Ready(t) && InState(s, t, Sleep) then true
    else if op.Block? && op.t == t && op.timeout != 0 && !InState(s, t, Idle) then false
    else roused
  }

  /** A step aimed at another task does not touch t. */
  lemma ElseKept(s: Sys, op: Op, t: Tid)
    requires Inv(s) && Enabled(s, op) && op != Yield && op != Tick && op.t != t && t in s.task
    ensures t in Step(s, op).task && Step(s, op).task[t] == s.task[t] && Step(s, op).current == s.current
  {
    hide Inv, SetTaskState;
    InvShape(s);
  }

  /** What a suspend, a wake and an exit make of the task they are aimed at. */
  lemma AimedAt(s: Sys, op: Op, t: Tid)
    requires Inv(s) && Enabled(s, op) && t in s.task && (op.Block? || op.Ready? || op.Exit?) && op.t == t
    ensures t in Step(s, op).task && Step(s, op).current == s.current
    ensures var k, r := s.task[t], Step(s, op).task[t];
      match op
      case Block(_, n) => r == if n == 0 || k.state == Idle then k else k.(waitTime := n, timeOut := 0, state := Sleep)
      case Ready(_) => r == Woken(k)
      case _ => r == k.(state := Idle)
  {
    hide Inv, SetTaskState;
    InvShape(s);
    KnownState(s, t);
  }

  lemma KnownState(s: Sys, t: Tid)
    requires Inv(s) && t in s.task
    ensures var st := s.task[t].state; st == Prepare || st == Running || st == Sleep || st == Idle
  {
  }

  /** The steps that are aimed at one task. */
  lemma CallVerdict(s: Sys, op: Op, t: Tid, roused: bool)
    requires Inv(s) && Enabled(s, op) && op != Reap(t) && op != Yield && op != Tick
    requires t in s.task && t != s.idle && Verdict(s, t, roused)
    requires op.Exit? && op.t == t ==> t != s.current
    ensures t in Step(s, op).task && Step(s, op).current == s.current
    ensures Verdict(Step(s, op), t, RousedBy(s, op, t, roused))
    ensures !(op.Block? && op.t == t) && InState(Step(s, op), t, Sleep) ==> InState(s, t, Sleep)
  {
    hide Inv, Step;
    SleepersWait(s);
    if op.t != t { ElseKept(s, op, t); } else { AimedAt(s, op, t); }
  }

  /** A scheduler step keeps the verdict, unless it is an exit that t itself calls. */
  lemma StepVerdict(s: Sys, op: Op, t: Tid, roused: bool)
    requires Inv(s) && Enabled(s, op) && op != Reap(t) && t in s.task && t != s.idle && Verdict(s, t, roused)
    requires op.Exit? && op.t == t ==> t != s.current
    ensures t in Step(s, op).task && Verdict(Step(s, op), t, RousedBy(s, op, t, roused))
    ensures (s.current == t ==> !InState(s, t, Sleep)) && !(op.Block? && op.t == t) ==>
              (Step(s, op).current == t ==> !InState(Step(s, op), t, Sleep))
    ensures op == Yield ==> (Step(s, op).current == t ==> !InState(Step(s, op), t, Sleep))
  {
    hide Inv, SleepScan, TickRun, PrepareToSwitch, FindNext, Verdict, Create, Suspend, Wake, Remove;
    InvShape(s);
    if op == Yield {
      SwitchVerdict(s, false, t, roused);
    } else if op == Tick {
      ScanVerdict(s, t, roused);
      ScanKeeps(s, s.sleep.items);
      TickRunVerdict(SleepScan(s, s.sleep.items), t, roused);
    } else {
      CallVerdict(s, op, t, roused);
    }
  }

  lemma WakeVerdict(s: Sys, ts: seq<Tid>, t: Tid, roused: bool)
    requires Shape(s) && Inv(s) && (forall u :: u in ts ==> u in s.task)
    requires t in s.task && Verdict(s, t, roused)
    ensures t in WakeAll(s, ts).task && Verdict(WakeAll(s, ts), t, roused || t in Asleep(s, ts))
    ensures InState(WakeAll(s, ts), t, Sleep) ==> InState(s, t, Sleep)
  {
    hide Inv, WakeAll;
    WakeAllReadies(s, ts);
    SleepersWait(s);
  }

  // ---- the ring --------------------------------------------------------------------------

  ghost predicate Suspends(x: World, t: Tid) { PhaseOf(x, t) == Suspended || PhaseOf(x, t) == Parked }

  ghost predicate Told(x: World, t: Tid) {
    && t in x.s.task && t != x.s.idle && Verdict(x.s, t, t in x.roused)
    && (PhaseOf(x, t) == Parked && t == x.s.current ==> !InState(x.s, t, Sleep))
  }

  ghost predicate VerdictInv(x: World) {
    forall t :: Suspends(x, t) ==> Told(x, t)
  }

  /** A task inside the mutex makes no other call that suspends or ends it. */
  ghost predicate Proper(x: World, a: Act) {
    a.Kern? && (a.op.Block? || a.op.Exit?) && a.op.t == x.s.current ==> !Inside(x, x.s.current)
  }

  lemma KernVerdicts(x: World, op: Op)
    requires OwnerInv(x) && VerdictInv(x) && Enabled(x.s, op) && !op.Reap?
    requires (op.Block? || op.Exit?) && op.t == x.s.current ==> !Suspends(x, x.s.current)
    ensures VerdictInv(DoKern(x, op))
  {
    hide Inv, Step, OwnerInv;
    OwnerFacts(x);
    var y := DoKern(x, op);
    SchedTimeout.StepKeepsIdle(x.s, op);
    forall t | Suspends(y, t) ensures Told(y, t) {
      assert Suspends(x, t) && Told(x, t);
      StepVerdict(x.s, op, t, t in x.roused);
      assert t in y.roused <==> RousedBy(x.s, op, t, t in x.roused);
      if op.Block? && op.t == t { ParkedElsewhere(x, op, t); }
    }
  }

  lemma ParkedElsewhere(x: World, op: Op, t: Tid)
    requires Inv(x.s) && Enabled(x.s, op) && op.Block? && op.t == t && t != x.s.current
    ensures Step(x.s, op).current != t
  {
    hide Inv, Step;
    AimedAt(x.s, op, t);
  }

  lemma ReleaseVerdicts(x: World, woken: seq<Tid>)
    requires Inv(x.s) && Shape(x.s) && VerdictInv(x) && forall u :: u in woken ==> u in x.s.task
    ensures VerdictInv(Released(x, woken))
  {
    hide Inv, WakeAll, Verdict;
    var y := Released(x, woken);
    forall t | Suspends(y, t) ensures Told(y, t) {
      assert Suspends(x, t) && Told(x, t);
      WakeVerdict(x.s, woken, t, t in x.roused);
    }
  }

  /** Moving one task to another phase. */
  lemma MoveVerdicts(x: World, y: World, t: Tid, p: Phase)
    requires VerdictInv(x) && y.phase == x.phase[t := p] && y.s == x.s && y.roused == x.roused
    requires p == Suspended || p == Parked ==> Told(y, t)
    ensures VerdictInv(y)
  {
    hide Verdict;
    forall u | Suspends(y, u) ensures Told(y, u) {
      if u != t { assert Suspends(x, u) && Told(x, u); }
    }
  }

  lemma ParkVerdicts(x: World, t: Tid, ms: int)
    requires OwnerInv(x) && VerdictInv(x) && Allowed(x, Park(t, ms))
    ensures VerdictInv(DoPark(x, t, ms))
  {
    hide Inv, Step, OwnerInv, VerdictInv;
    OwnerFacts(x);
    if Refuses(x, t, ms) {
      MoveVerdicts(x, DoPark(x, t, ms), t, Out);
    } else {
      var z := DoKern(x, Block(t, ms));
      KernVerdicts(x, Block(t, ms));
      AimedAt(x.s, Block(t, ms), t);
      SchedTimeout.StepKeepsIdle(x.s, Block(t, ms));
      MoveVerdicts(z, DoPark(x, t, ms), t, Suspended);
    }
  }

  lemma SchedVerdicts(x: World, t: Tid)
    requires OwnerInv(x) && VerdictInv(x) && Allowed(x, Mutex.Sched(t))
    ensures VerdictInv(Moved(DoKern(x, Yield), t, Parked))
  {
    hide Inv, Step, OwnerInv, Verdict;
    OwnerFacts(x);
    assert Suspends(x, t) && Told(x, t);
    var z := DoKern(x, Yield);
    KernVerdicts(x, Yield);
    StepVerdict(x.s, Yield, t, t in x.roused);
    assert Suspends(z, t) && Told(z, t);
    MoveVerdicts(z, Moved(z, t, Parked), t, Parked);
  }

  lemma KillVerdicts(x: World, t: Tid, woken: seq<Tid>)
    requires OwnerInv(x) && VerdictInv(x) && Allowed(x, Kill(t, woken))
    ensures VerdictInv(DoKill(x, t, woken))
  {
    hide Inv, Step, WakeAll, Verdict;
    if Removable(x.s.task[t]) {
      var r := Step(x.s, Reap(t));
      StepKeeps(x.s, Reap(t));
      ReapKeepsTasks(x.s, t);
      InvShape(r);
      SchedTimeout.StepKeepsIdle(x.s, Reap(t));
      var y := x.(s := r, phase := x.phase[t := Out]);
      forall u | Suspends(y, u) ensures Told(y, u) {
        assert u != t && Suspends(x, u) && Told(x, u);
        CallVerdict(x.s, Reap(t), u, u in x.roused);
      }
      if PhaseOf(x, t) == Holds { ReleaseVerdicts(y, woken); }
      SameVerdicts(if PhaseOf(x, t) == Holds then Released(y, woken) else y, DoKill(x, t, woken));
    }
  }

  lemma SameVerdicts(x: World, y: World)
    requires VerdictInv(x) && y.s == x.s && y.phase == x.phase && y.roused == x.roused
    ensures VerdictInv(y)
  {
    hide Verdict;
    forall t | Suspends(y, t) ensures Told(y, t) { assert Suspends(x, t) && Told(x, t); }
  }

  lemma DoKeepsVerdicts(x: World, a: Act)
    requires OwnerInv(x) && VerdictInv(x) && Allowed(x, a) && Proper(x, a)
    ensures VerdictInv(Do(x, a))
  {
    hide Inv, Step, OwnerInv, VerdictInv, WakeAll;
    OwnerFacts(x);
    InvShape(x.s);
    match a
    case Kern(op) => KernVerdicts(x, op);
    case Lock(t) => MoveVerdicts(x, DoLock(x, t), t, if x.count == 0 then Holds else Enqueued);
    case Park(t, ms) => ParkVerdicts(x, t, ms);
    case Sched(t) => SchedVerdicts(x, t);
    case Resume(t) => MoveVerdicts(x, DoResume(x, t), t, Out);
    case Unlock(t, woken) =>
      ReleaseVerdicts(x, woken);
      MoveVerdicts(Released(x, woken), Do(x, a), t, Out);
    case Kill(t, woken) => KillVerdicts(x, t, woken);
  }

  // ---- the links -----------------------------------------------------------------------

  /** The links are the ring of the tasks that are meant to be on it. Among these are the
      tasks inside that no unlock has met, and none that an unlock has met or that owns the
      mutex; a free mutex has an empty ring. */
  ghost predicate LinksInv(x: World) {
    && IsRing(x.links, x.wait)
    && (forall t :: Inside(x, t) ==> (t in x.wait <==> t !in x.met))
    && (forall t :: t in x.wait ==> t in x.s.task && PhaseOf(x, t) != Holds)
    && (x.count == 0 ==> x.wait == [])
  }

  /** The list operations of the step do what they should: a waiter links its node when it is
      not on the ring, and unlinks it when that does the ring no harm. */
  ghost predicate Fair(x: World, a: Act) {
    match a
    case Lock(t) => x.count != 0 ==> t !in x.wait
    case Park(t, ms) => t in x.s.task && Refuses(x, t, ms) ==> Fits(x.links, x.wait, t)
    case Resume(t) => t in x.s.task && x.s.task[t].timeOut != 0 ==> Fits(x.links, x.wait, t)
    case Kill(t, _) =>
      t in x.s.task && Removable(x.s.task[t]) && Next(x.links, Of(t)) != Of(t) ==> Fits(x.links, x.wait, t)
    case _ => true
  }

  ghost predicate Whole(x: World) { IsRing(x.links, x.wait) }

  /** The links are the ring they should be after each list operation of the step; only a
      kill has two, its own list_del and the unlock. */
  ghost predicate Intact(x: World, a: Act)
    requires OwnerInv(x) && Allowed(x, a)
  {
    && Whole(Do(x, a))
    && (a.Kill? && Removable(x.s.task[a.t]) ==> Whole(Unhooked(x, a.t)))
  }

  lemma LinksFacts(x: World)
    requires LinksInv(x)
    ensures Whole(x) && NoDup(x.wait)
    ensures forall t :: t !in x.wait ==> Del(x.wait, t) == x.wait
    ensures forall t, u :: t in Del(x.wait, u) <==> t in x.wait && t != u
  {
  }

  /** A task leaves the mutex or takes it; nothing else changes but its own place on the ring. */
  lemma LeaveLinks(x: World, y: World, t: Tid, p: Phase)
    requires LinksInv(x) && Whole(y) && y.phase == x.phase[t := p] && (p == Out || p == Holds)
    requires y.wait == x.wait || y.wait == Del(x.wait, t)
    requires p == Holds ==> t !in y.wait
    requires y.met == x.met && (y.count == 0 ==> y.wait == []) && forall u :: u in y.wait ==> u in y.s.task
    ensures LinksInv(y)
  {
    hide IsRing;
    LinksFacts(x);
    assert forall u :: u != t ==> PhaseOf(y, u) == PhaseOf(x, u);
  }

  /** A task inside stays inside. */
  lemma StayLinks(x: World, y: World, t: Tid, p: Phase)
    requires LinksInv(x) && Whole(y) && y.phase == x.phase[t := p] && (p == Suspended || p == Parked)
    requires Inside(x, t) && y.wait == x.wait && y.met == x.met && y.count == x.count && y.s == x.s
    ensures LinksInv(y)
  {
    hide IsRing;
    assert forall u :: u != t ==> PhaseOf(y, u) == PhaseOf(x, u);
  }

  /** A task joins at the tail. */
  lemma JoinLinks(x: World, t: Tid)
    requires LinksInv(x) && t in x.s.task && PhaseOf(x, t) == Out && x.count != 0 && t !in x.wait
    ensures Whole(DoLock(x, t)) && LinksInv(DoLock(x, t))
  {
    hide IsRing, AddTail;
    AddKeeps(x.links, x.wait, t);
    var y := DoLock(x, t);
    assert forall u :: u in y.wait <==> u == t || u in x.wait;
    assert forall u :: u != t ==> PhaseOf(y, u) == PhaseOf(x, u);
  }

  lemma KernLinks(x: World, op: Op)
    requires OwnerInv(x) && LinksInv(x) && Enabled(x.s, op) && !op.Reap?
    ensures LinksInv(DoKern(x, op))
  {
    hide Inv, Step, IsRing;
    var y := DoKern(x, op);
    if op.New? { InitKeeps(x.links, x.wait, op.t); }
    forall t | t in x.wait ensures t in y.s.task { KernKeepsTasks(x.s, op, t); }
    assert forall t :: PhaseOf(y, t) == PhaseOf(x, t);
  }

  lemma LockLinks(x: World, t: Tid)
    requires OwnerInv(x) && LinksInv(x) && Allowed(x, Lock(t))
    ensures Whole(DoLock(x, t)) <==> Fair(x, Lock(t))
    ensures Fair(x, Lock(t)) ==> LinksInv(DoLock(x, t))
  {
    hide Inv, IsRing, LinksInv, OwnerInv, AddTail;
    OwnerFacts(x);
    LinksFacts(x);
    RingTasks(x);
    if x.count == 0 {
      LeaveLinks(x, DoLock(x, t), t, Holds);
    } else if t in x.wait {
      AddAgainBreaks(x.links, x.wait, t, x.wait + [t]);
    } else {
      JoinLinks(x, t);
    }
  }

  lemma RingTasks(x: World)
    requires LinksInv(x)
    ensures forall t :: t in x.wait ==> t in x.s.task
    ensures x.count == 0 ==> x.wait == []
  {
  }

  /** A task that is inside unlinks itself and leaves. */
  lemma UnlinkLinks(x: World, t: Tid)
    requires OwnerInv(x) && LinksInv(x)
    ensures var y := Unlinked(Moved(x, t, Out), t);
      && (Whole(y) <==> Fits(x.links, x.wait, t))
      && (PhaseOf(x, t) != Holds && Whole(y) ==> LinksInv(y))
  {
    hide Inv, IsRing, LinksInv, OwnerInv, Unlink, Fits;
    LinksFacts(x);
    RingTasks(x);
    UnlinkIff(x.links, x.wait, t);
    var y := Unlinked(Moved(x, t, Out), t);
    if PhaseOf(x, t) != Holds && Whole(y) { LeaveLinks(x, y, t, Out); }
  }

  lemma ParkLinks(x: World, t: Tid, ms: int)
    requires OwnerInv(x) && LinksInv(x) && Allowed(x, Park(t, ms))
    ensures Whole(DoPark(x, t, ms)) <==> Fair(x, Park(t, ms))
    ensures Fair(x, Park(t, ms)) ==> LinksInv(DoPark(x, t, ms))
  {
    hide LinksInv, Inv, Step, OwnerInv, Fits, Unlinked;
    OwnerFacts(x);
    if Refuses(x, t, ms) {
      UnlinkLinks(x, t);
    } else {
      var z := DoKern(x, Block(t, ms));
      KernLinks(x, Block(t, ms));
      LinksFacts(z);
      StayLinks(z, DoPark(x, t, ms), t, Suspended);
      LinksFacts(DoPark(x, t, ms));
    }
  }

  lemma ResumeLinks(x: World, t: Tid)
    requires OwnerInv(x) && LinksInv(x) && Allowed(x, Resume(t))
    ensures Whole(DoResume(x, t)) <==> Fair(x, Resume(t))
    ensures Fair(x, Resume(t)) ==> LinksInv(DoResume(x, t))
  {
    hide LinksInv, Inv, OwnerInv, Fits, Unlinked;
    OwnerFacts(x);
    LinksFacts(x);
    RingTasks(x);
    if x.s.task[t].timeOut != 0 { UnlinkLinks(x, t); } else { LeaveLinks(x, DoResume(x, t), t, Out); }
  }

  /** An unlock meets every waiter and leaves the empty ring. */
  lemma ReleaseLinks(x: World, woken: seq<Tid>)
    requires Whole(x) && Walk(x.links, Next(x.links, Head), woken) && Shape(x.s) && (forall u :: u in woken ==> u in x.s.task)
    requires forall t :: Inside(x, t) ==> (t in x.wait <==> t !in x.met)
    ensures LinksInv(Released(x, woken)) && Released(x, woken).wait == []
  {
    hide WakeAll, IsRing, Walk, UnlinkAll, Next, Pre, Shape, Missed;
    WalkDrains(x.links, x.wait);
    WalkIsOne(x.links, Next(x.links, Head), woken, x.wait);
    AllMet(x.wait, woken);
    var y := Released(x, woken);
    assert forall t :: PhaseOf(y, t) == PhaseOf(x, t);
  }

  /** What kill_task does before it unlocks. */
  lemma UnhookLinks(x: World, t: Tid)
    requires OwnerInv(x) && LinksInv(x) && Enabled(x.s, Reap(t))
    ensures var y := Unhooked(x, t);
      && (Whole(y) <==> Next(x.links, Of(t)) == Of(t) || Fits(x.links, x.wait, t))
      && (forall u :: Inside(y, u) ==> (u in y.wait <==> u !in y.met))
      && (PhaseOf(x, t) != Holds && Whole(y) ==> LinksInv(y))
  {
    hide Inv, Step, IsRing, Fits, Unlink;
    var y := Unhooked(x, t);
    LinksFacts(x);
    UnlinkIff(x.links, x.wait, t);
    if Next(x.links, Of(t)) == Of(t) { OffWhenSelf(x.links, x.wait, t); }
    ReapKeepsTasks(x.s, t);
    assert forall u :: u != t ==> PhaseOf(y, u) == PhaseOf(x, u);
  }

  lemma KillLinks(x: World, t: Tid, woken: seq<Tid>)
    requires OwnerInv(x) && LinksInv(x) && Allowed(x, Kill(t, woken))
    ensures Intact(x, Kill(t, woken)) <==> Fair(x, Kill(t, woken))
    ensures Fair(x, Kill(t, woken)) ==> LinksInv(DoKill(x, t, woken))
  {
    hide Inv, Step, WakeAll, LinksInv, OwnerInv, Unhooked, Fits, IsRing;
    OwnerFacts(x);
    LinksFacts(x);
    if Removable(x.s.task[t]) {
      UnhookLinks(x, t);
      UnhookedIs(x, t, woken);
      if PhaseOf(x, t) == Holds && Whole(Unhooked(x, t)) {
        ReleaseLinks(Unhooked(x, t), woken);
        LinksFacts(DoKill(x, t, woken));
      }
    }
  }

  lemma UnhookedIs(x: World, t: Tid, woken: seq<Tid>)
    requires OwnerInv(x) && Allowed(x, Kill(t, woken))
    ensures var y := Unhooked(x, t);
      && y.links == Drop(x.links, t) && Shape(y.s) && forall u :: u in woken ==> u in y.s.task
  {
    hide Inv, Step;
    StepKeeps(x.s, Reap(t));
    ReapKeepsTasks(x.s, t);
    InvShape(Step(x.s, Reap(t)));
  }

  /** Each step leaves the ring as it should if and only if it is fair. */
  lemma IntactIff(x: World, a: Act)
    requires OwnerInv(x) && LinksInv(x) && Allowed(x, a)
    ensures Intact(x, a) <==> Fair(x, a)
    ensures Fair(x, a) ==> LinksInv(Do(x, a))
  {
    hide Inv, Step, OwnerInv, WakeAll, LinksInv, DoLock, DoPark, DoResume, DoKill, DoKern, IsRing, Fits;
    OwnerFacts(x);
    InvShape(x.s);
    var y := Do(x, a);
    match a
    case Kern(op) =>
      KernLinks(x, op);
      LinksFacts(y);
    case Lock(t) => LockLinks(x, t);
    case Park(t, ms) => ParkLinks(x, t, ms);
    case Sched(t) =>
      KernLinks(x, Yield);
      var z := DoKern(x, Yield);
      LinksFacts(z);
      YieldSame(x);
      StayLinks(z, y, t, Parked);
    case Resume(t) => ResumeLinks(x, t);
    case Unlock(t, woken) =>
      InsideMet(x);
      ReleaseLinks(x, woken);
      LinksFacts(Released(x, woken));
      LeaveLinks(Released(x, woken), y, t, Out);
    case Kill(t, woken) => KillLinks(x, t, woken);
  }

  lemma YieldSame(x: World)
    requires Inv(x.s)
    ensures DoKern(x, Yield).phase == x.phase
  {
  }

  lemma InsideMet(x: World)
    requires LinksInv(x)
    ensures Whole(x) && forall t :: Inside(x, t) ==> (t in x.wait <==> t !in x.met)
  {
  }

  // ---- when the ring stays a ring -----------------------------------------------------------

  lemma {:induction false} RunKeepsLinks(xs: seq<World>, acts: seq<Act>, n: nat)
    requires IsRun(xs, acts) && OwnerInv(xs[0]) && LinksInv(xs[0]) && n <= |acts|
    requires forall i :: 0 <= i < n ==> Fair(xs[i], acts[i])
    ensures OwnerInv(xs[n]) && LinksInv(xs[n])
  {
    hide LinksInv, OwnerInv, Allowed, Do, Fair;
    if n > 0 {
      RunKeepsLinks(xs, acts, n - 1);
      assert StepTo(xs[n - 1], acts[n - 1], xs[n]);
      DoKeeps(xs[n - 1], acts[n - 1]);
      IntactIff(xs[n - 1], acts[n - 1]);
    }
  }

  lemma FreshLinks(s: Sys)
    requires Inv(s)
    ensures OwnerInv(Fresh(s)) && LinksInv(Fresh(s)) && VerdictInv(Fresh(s))
  {
    hide Inv;
    FreshHolds(s);
  }

  lemma {:induction false} RunIntact(xs: seq<World>, acts: seq<Act>, n: nat)
    requires IsRun(xs, acts) && OwnerInv(xs[0]) && LinksInv(xs[0]) && n <= |acts|
    ensures (forall i :: 0 <= i < n ==> StepIntact(xs[i], acts[i])) <==> forall i :: 0 <= i < n ==> Fair(xs[i], acts[i])
  {
    hide LinksInv, OwnerInv, Allowed, Do, Fair, Intact;
    if n > 0 {
      RunIntact(xs, acts, n - 1);
      assert StepTo(xs[n - 1], acts[n - 1], xs[n]);
      if forall i :: 0 <= i < n - 1 ==> Fair(xs[i], acts[i]) {
        RunKeepsLinks(xs, acts, n - 1);
        IntactIff(xs[n - 1], acts[n - 1]);
      }
    }
  }

  ghost predicate StepIntact(x: World, a: Act) { OwnerInv(x) && Allowed(x, a) && Intact(x, a) }

  /** Over every run: every list operation leaves the ring that it should if and only if every
      step is fair. As long as they are, the ring holds every waiter that no unlock has met and
      none that one has; the others on it are tasks that came back from their suspend
      without being told of a timeout. */
  lemma RingStaysWhole(xs: seq<World>, acts: seq<Act>, n: nat)
    requires IsRun(xs, acts) && Inv(xs[0].s) && xs[0] == Fresh(xs[0].s) && n <= |acts|
    ensures (forall i :: 0 <= i < n ==> StepIntact(xs[i], acts[i])) <==> forall i :: 0 <= i < n ==> Fair(xs[i], acts[i])
    ensures (forall i :: 0 <= i < n ==> Fair(xs[i], acts[i])) ==>
      && IsRing(xs[n].links, xs[n].wait)
      && forall t :: Inside(xs[n], t) ==> (t in xs[n].wait <==> t !in xs[n].met)
  {
    hide OwnerInv, VerdictInv, StepTo, Fair, Allowed, StepIntact;
    FreshLinks(xs[0].s);
    RunIntact(xs, acts, n);
    if forall i :: 0 <= i < n ==> Fair(xs[i], acts[i]) { RunKeepsLinks(xs, acts, n); }
  }

  /** What the first unfair step leaves: a second list_add_tail leaves no ring; a list_del of
      a node off the ring leaves one without some of the waiters if the node's neighbours
      are on the ring in order, and none otherwise. */
  lemma UnfairLeaves(x: World, a: Act)
    requires OwnerInv(x) && LinksInv(x) && Allowed(x, a) && !Fair(x, a)
    ensures a.Lock? || ((a.Park? || a.Resume? || a.Kill?) && a.t !in x.wait)
    ensures var l := if a.Kill? then Unhooked(x, a.t).links else Do(x, a).links;
      if !a.Lock? && Skips(x.links, x.wait, a.t)
      then IsRing(l, Short(x.links, x.wait, a.t)) && |Short(x.links, x.wait, a.t)| < |x.wait|
      else forall q :: !IsRing(l, q)
  {
    hide Inv, Step, OwnerInv, IsRing, Unlink, AddTail, Fits, Skips, Short, LinksInv;
    OwnerFacts(x);
    InvShape(x.s);
    InsideMet(x);
    if a.Lock? {
      forall q ensures !IsRing(Do(x, a).links, q) { AddAgainBreaks(x.links, x.wait, a.t, q); }
    } else {
      UnfitLeaves(x.links, x.wait, a.t);
    }
  }

  lemma UnfitLeaves(l: Links, s: seq<Tid>, t: Tid)
    requires IsRing(l, s) && !Fits(l, s, t)
    ensures t !in s
    ensures if Skips(l, s, t) then IsRing(Unlink(l, t), Short(l, s, t)) && |Short(l, s, t)| < |s|
            else forall q :: !IsRing(Unlink(l, t), q)
  {
    hide IsRing, Unlink;
    if Skips(l, s, t) {
      SkipKeeps(l, s, t);
    } else {
      forall q ensures !IsRing(Unlink(l, t), q) { StrayBreaks(l, s, t, q); }
    }
  }

  // ---- what a waiter's history says of its ring node -------------------------------------------

  /** A waiter that comes back from its suspend: it is told of a timeout if and only if it was
      switched in after an unbroken sleep, and it is on the ring if and only if no unlock
      met it. So both agree exactly if one of the two took it off, and not both. */
  lemma CleanIff(x: World, t: Tid)
    requires OwnerInv(x) && LinksInv(x) && VerdictInv(x) && Allowed(x, Resume(t))
    ensures t in x.s.task && (x.s.task[t].timeOut != 0 <==> InState(x.s, t, Running) && t !in x.roused)
    ensures t in x.wait <==> t !in x.met
  {
    hide Inv, IsRing;
    assert Suspends(x, t) && Told(x, t);
    KnownState(x.s, t);
  }

  lemma {:induction false} RunVerdicts(xs: seq<World>, acts: seq<Act>, n: nat)
    requires IsRun(xs, acts) && OwnerInv(xs[0]) && VerdictInv(xs[0]) && n <= |acts|
    requires forall i :: 0 <= i < n ==> Proper(xs[i], acts[i])
    ensures OwnerInv(xs[n]) && VerdictInv(xs[n])
  {
    hide VerdictInv, OwnerInv, Allowed, Do, Proper;
    if n > 0 {
      RunVerdicts(xs, acts, n - 1);
      assert StepTo(xs[n - 1], acts[n - 1], xs[n]);
      DoKeeps(xs[n - 1], acts[n - 1]);
      DoKeepsVerdicts(xs[n - 1], acts[n - 1]);
    }
  }

  /** The node of a waiter that an unlock met points back at the head. */
  ghost predicate HomeInv(x: World) {
    forall t :: Met(x, t) ==> Pre(x.links, Of(t)) == Head
  }

  ghost predicate Met(x: World, t: Tid) { Inside(x, t) && t in x.met }

  /** No kill unlinks the node of a task that was on the ring earlier. */
  ghost predicate Mild(x: World, a: Act) {
    a.Kill? ==> Inside(x, a.t) || Next(x.links, Of(a.t)) == Of(a.t)
  }

  ghost predicate SameNode(l: Links, m: Links, t: Tid) {
    Pre(m, Of(t)) == Pre(l, Of(t)) && Next(m, Of(t)) == Next(l, Of(t))
  }

  /** A fair list_del by one waiter leaves the nodes of those that an unlock met alone. */
  lemma UnlinkApart(x: World, u: Tid, t: Tid)
    requires LinksInv(x) && HomeInv(x) && Inside(x, u) && Fits(x.links, x.wait, u) && Met(x, t)
    ensures SameNode(x.links, Unlink(x.links, u), t)
  {
    hide IsRing;
    InsideMet(x);
    if u in x.wait {
      NeighboursOn(x.links, x.wait, u);
    } else {
      assert Met(x, u);
      FirstOn(x.links, x.wait);
    }
  }

  lemma NeighboursOn(l: Links, s: seq<Tid>, u: Tid)
    requires IsRing(l, s) && u in s
    ensures On(s, Pre(l, Of(u))) && On(s, Next(l, Of(u)))
  {
    var i := Index(s, u);
    Around(l, s, i);
    Around(l, s, i + 1);
    PlaceIs(s, i);
    PlaceIs(s, i + 1);
  }

  lemma FirstOn(l: Links, s: seq<Tid>)
    requires IsRing(l, s)
    ensures On(s, Next(l, Head)) && On(s, Pre(l, Head))
  {
    Around(l, s, 0);
    Around(l, s, |s|);
    PlaceIs(s, 0);
    PlaceIs(s, |s|);
  }

  /** Until it leaves, a waiter that an unlock met keeps the two pointers the unlock left it. */
  lemma MetKept(x: World, a: Act, t: Tid)
    requires OwnerInv(x) && LinksInv(x) && HomeInv(x) && Allowed(x, a) && Fair(x, a) && Mild(x, a)
    requires Met(x, t) && Met(Do(x, a), t)
    ensures SameNode(x.links, Do(x, a).links, t)
  {
    hide Inv, Step, OwnerInv, WakeAll, IsRing, HomeInv, LinksInv, Unlink, AddTail, Fits;
    OwnerFacts(x);
    InvShape(x.s);
    InsideMet(x);
    match a
    case Kern(op) => assert op.New? ==> op.t != t;
    case Lock(u) => FirstOn(x.links, x.wait); AddApart(x.links, u, t);
    case Park(u, ms) => if Refuses(x, u, ms) { UnlinkApart(x, u, t); }
    case Sched(_) =>
    case Resume(u) => if x.s.task[u].timeOut != 0 { UnlinkApart(x, u, t); }
    case Unlock(_, woken) => DrainApart(x.links, x.wait, woken, t);
    case Kill(u, woken) => KillApart(x, u, woken, t);
  }

  lemma AddApart(l: Links, u: Tid, t: Tid)
    requires t != u && Pre(l, Head) != Of(t)
    ensures SameNode(l, AddTail(l, u), t)
  {
  }

  lemma DrainApart(l: Links, s: seq<Tid>, woken: seq<Tid>, t: Tid)
    requires IsRing(l, s) && Walk(l, Next(l, Head), woken) && t !in s
    ensures SameNode(l, UnlinkAll(l, woken), t)
  {
    hide IsRing;
    WalkDrains(l, s);
    WalkIsOne(l, Next(l, Head), woken, s);
  }

  lemma KillApart(x: World, u: Tid, woken: seq<Tid>, t: Tid)
    requires OwnerInv(x) && LinksInv(x) && HomeInv(x) && Allowed(x, Kill(u, woken))
    requires Fair(x, Kill(u, woken)) && Mild(x, Kill(u, woken)) && Met(x, t) && Met(DoKill(x, u, woken), t)
    ensures SameNode(x.links, DoKill(x, u, woken).links, t)
  {
    hide Inv, Step, OwnerInv, WakeAll, IsRing, HomeInv, LinksInv, Unlink, Fits;
    OwnerFacts(x);
    InsideMet(x);
    if Removable(x.s.task[u]) {
      assert t != u;
      if Next(x.links, Of(u)) != Of(u) { UnlinkApart(x, u, t); }
      UnhookLinks(x, u);
      UnhookedIs(x, u, woken);
      if PhaseOf(x, u) == Holds { DrainApart(Drop(x.links, u), Unhooked(x, u).wait, woken, t); }
    }
  }

  /** A step that makes a waiter met leaves its node pointing back at the head. */
  lemma HomeKept(x: World, a: Act)
    requires OwnerInv(x) && LinksInv(x) && HomeInv(x) && Allowed(x, a) && Fair(x, a) && Mild(x, a)
    ensures HomeInv(Do(x, a))
  {
    hide OwnerInv, LinksInv, Allowed, Fair, Do;
    forall t | Met(Do(x, a), t) ensures Pre(Do(x, a).links, Of(t)) == Head {
      if Met(x, t) { MetKept(x, a, t); } else { NewlyMet(x, a, t); }
    }
  }

  /** Only an unlock meets a waiter, and its node is left pointing at the head and at the
      node that followed it. */
  lemma NewlyMet(x: World, a: Act, t: Tid)
    requires OwnerInv(x) && LinksInv(x) && Allowed(x, a) && Fair(x, a) && !Met(x, t) && Met(Do(x, a), t)
    ensures Pre(Do(x, a).links, Of(t)) == Head
    ensures a.Unlock? ==> t in x.wait && Next(Do(x, a).links, Of(t)) == Spot(x.wait, Index(x.wait, t) + 2)
  {
    hide Inv, Step, OwnerInv, WakeAll, IsRing, Unlink, AddTail, Fits, LinksInv, Walk, UnlinkAll, DoKill, Next, Pre;
    OwnerFacts(x);
    InvShape(x.s);
    InsideMet(x);
    match a
    case Unlock(_, woken) => DrainMeets(x.links, x.wait, woken, t);
    case Kill(u, woken) => KillMeets(x, u, woken, t);
    case _ =>
  }

  lemma KillMeets(x: World, u: Tid, woken: seq<Tid>, t: Tid)
    requires OwnerInv(x) && LinksInv(x) && Allowed(x, Kill(u, woken)) && Fair(x, Kill(u, woken))
    requires !Met(x, t) && Met(DoKill(x, u, woken), t)
    ensures Pre(DoKill(x, u, woken).links, Of(t)) == Head
  {
    hide Inv, Step, OwnerInv, WakeAll, IsRing, Unlink, Fits, LinksInv, UnlinkAll;
    OwnerFacts(x);
    UnhookLinks(x, u);
    UnhookedIs(x, u, woken);
    DrainMeets(Drop(x.links, u), Unhooked(x, u).wait, woken, t);
  }

  lemma DrainMeets(l: Links, s: seq<Tid>, woken: seq<Tid>, t: Tid)
    requires IsRing(l, s) && Walk(l, Next(l, Head), woken) && t in woken
    ensures t in s && Pre(UnlinkAll(l, woken), Of(t)) == Head
    ensures Next(UnlinkAll(l, woken), Of(t)) == Spot(s, Index(s, t) + 2)
  {
    hide IsRing;
    WalkDrains(l, s);
    WalkIsOne(l, Next(l, Head), woken, s);
    assert s[Index(s, t)] == t;
  }

  /** So the list_del of a waiter that an unlock met does no harm if and only if the node that
      followed it then is the first of the ring now, or the head if the ring is empty. */
  lemma MetFits(x: World, t: Tid)
    requires LinksInv(x) && HomeInv(x) && Met(x, t)
    ensures Fits(x.links, x.wait, t) <==> Next(x.links, Of(t)) == Next(x.links, Head)
    ensures Next(x.links, Head) == Spot(x.wait, 1)
  {
    InsideMet(x);
    Around(x.links, x.wait, 0);
  }

  lemma {:induction false} RunKeepsHome(xs: seq<World>, acts: seq<Act>, n: nat)
    requires IsRun(xs, acts) && OwnerInv(xs[0]) && LinksInv(xs[0]) && HomeInv(xs[0]) && n <= |acts|
    requires forall i :: 0 <= i < n ==> Fair(xs[i], acts[i]) && Mild(xs[i], acts[i])
    ensures OwnerInv(xs[n]) && LinksInv(xs[n]) && HomeInv(xs[n])
  {
    hide LinksInv, HomeInv, OwnerInv, Allowed, Do, Fair, Mild;
    RunKeepsLinks(xs, acts, n);
    if n > 0 {
      RunKeepsHome(xs, acts, n - 1);
      assert StepTo(xs[n - 1], acts[n - 1], xs[n]);
      HomeKept(xs[n - 1], acts[n - 1]);
    }
  }

  /** After any fair run of proper steps: a waiter's return from its suspend keeps the ring
      unless it was switched in after an unbroken sleep, an unlock met it all the same, and
      the node that followed it at that unlock is not the first of the ring any more. */
  lemma ReturnKeepsRing(xs: seq<World>, acts: seq<Act>, n: nat, t: Tid)
    requires IsRun(xs, acts) && Inv(xs[0].s) && xs[0] == Fresh(xs[0].s) && n <= |acts|
    requires forall i :: 0 <= i < n ==> Fair(xs[i], acts[i]) && Mild(xs[i], acts[i]) && Proper(xs[i], acts[i])
    requires Allowed(xs[n], Resume(t))
    ensures OwnerInv(xs[n])
    ensures Intact(xs[n], Resume(t)) <==>
      !(InState(xs[n].s, t, Running) && t !in xs[n].roused && t in xs[n].met) ||
      Next(xs[n].links, Of(t)) == Spot(xs[n].wait, 1)
  {
    hide OwnerInv, LinksInv, VerdictInv, HomeInv, IsRing, StepTo, Fits, Intact, Mild, Proper, Inv, Allowed;
    FreshLinks(xs[0].s);
    FreshHome(xs[0].s);
    RunKeepsHome(xs, acts, n);
    RunVerdicts(xs, acts, n);
    IntactIff(xs[n], Resume(t));
    CleanIff(xs[n], t);
    ReturnFair(xs[n], t);
  }

  lemma FreshHome(s: Sys)
    ensures HomeInv(Fresh(s))
  {
  }

  lemma ReturnFair(x: World, t: Tid)
    requires LinksInv(x) && HomeInv(x) && Allowed(x, Resume(t)) && t in x.s.task
    requires t in x.wait <==> t !in x.met
    ensures Fair(x, Resume(t)) <==> x.s.task[t].timeOut == 0 || t !in x.met || Next(x.links, Of(t)) == Spot(x.wait, 1)
  {
    hide LinksInv, HomeInv;
    if t in x.met { MetFits(x, t); }
  }
}
