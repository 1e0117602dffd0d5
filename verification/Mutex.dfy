/** Sleeping mutexes (kernel/mutex.c) on top of the scheduler. */
module Mutex {
  import opened Lists
  import opened RingLinks
  import opened Sched
  import opened SchedInvariant
  import SchedEffects

  // ---- waking the waiters ------------------------------------------------------

  /** The wakes of mutex_unlock. */
  function WakeAll(s: Sys, ts: seq<Tid>): (r: Sys)
    requires Shape(s) && forall t :: t in ts ==> t in s.task
    ensures Shape(r) && r.task.Keys == s.task.Keys
    ensures r.current == s.current && r.next == s.next && r.idle == s.idle
    decreases |ts|
  {
    if ts == [] then s else WakeAll(Wake(s, ts[0]), ts[1..])
  }

  function Woken(k: Task): Task {
    if k.state == Sleep then k.(state := Prepare, runTime := RunTimeOf(k.prio)) else k
  }

  lemma WakeIs(s: Sys, t: Tid)
    requires Inv(s) && t in s.task
    ensures Shape(s) && Inv(Wake(s, t)) && Wake(s, t).current == s.current
    ensures Wake(s, t).task == s.task[t := Woken(s.task[t])]
    ensures Step(s, Ready(t)) == Wake(s, t)
  {
    hide Inv, SetTaskState;
    InvShape(s);
    StepKeeps(s, Ready(t));
    if s.task[t].state != Sleep { assert s.task == s.task[t := s.task[t]]; }
  }

  /** Every sleeping waiter becomes ready and nobody else changes. */
  lemma {:induction false} WakeAllReadies(s: Sys, ts: seq<Tid>)
    requires Shape(s) && Inv(s) && forall t :: t in ts ==> t in s.task
    ensures Inv(WakeAll(s, ts))
    ensures forall t :: t in s.task ==>
              WakeAll(s, ts).task[t] == if t in ts then Woken(s.task[t]) else s.task[t]
    decreases |ts|
  {
    hide Inv, Wake, Shape;
    if ts != [] {
      WakeIs(s, ts[0]);
      WakeAllReadies(Wake(s, ts[0]), ts[1..]);
      assert forall t :: t in ts <==> t == ts[0] || t in ts[1..];
    }
  }

  /** The sleeping tasks of the list are woken; the others stay as they are. */
  ghost function Asleep(s: Sys, ts: seq<Tid>): set<Tid> {
    set t | t in ts && InState(s, t, Sleep)
  }

  // ---- the protocol ----------------------------------------------------------------

  /** Where a task is in mutex_lock_timeout: not in it; linked on the wait ring but not
      yet suspended; suspended but not yet past the sched() of suspend_task_timeout;
      past it; or owning the mutex. */
  datatype Phase = Out | Enqueued | Suspended | Parked | Holds

  /** links are the ring's head and the tasks' ring nodes, and wait is what the ring should
      hold: the tasks that linked themselves and that neither they nor an unlock took off.
      The sets are history since a task was last enqueued: met by an unlock on the ring,
      roused from its sleep by a wake. */
  datatype World = World(s: Sys, count: int, phase: map<Tid, Phase>, links: Links, wait: seq<Tid>,
                         met: set<Tid>, roused: set<Tid>)

  function PhaseOf(x: World, t: Tid): Phase { if t in x.phase then x.phase[t] else Out }

  predicate Inside(x: World, t: Tid) {
    PhaseOf(x, t) == Enqueued || PhaseOf(x, t) == Suspended || PhaseOf(x, t) == Parked
  }

  /** The critical sections of the protocol, and the scheduler's own steps between them.
      Sched is the sched() that a suspended task calls; Resume is its way out of
      suspend_task_timeout, back to another turn of the loop or out with a timeout;
      Kill is what kill_task does after the task was stopped. woken lists the tasks that
      an unlock meets on its way round. */
  datatype Act =
    | Kern(op: Op)
    | Lock(t: Tid)
    | Park(t: Tid, ms: int)
    | Sched(t: Tid)
    | Resume(t: Tid)
    | Unlock(t: Tid, woken: seq<Tid>)
    | Kill(t: Tid, woken: seq<Tid>)

  /** Tasks run only when they are current, but in whatever state; anything may be woken,
      suspended and stopped at any time. An unlock goes where the links lead it, on a ring
      or not, among the tasks there are. */
  ghost predicate Allowed(x: World, a: Act) {
    match a
    case Kern(op) => Enabled(x.s, op) && !op.Reap?
    case Lock(t) => t == x.s.current && PhaseOf(x, t) == Out
    case Park(t, _) => t == x.s.current && PhaseOf(x, t) == Enqueued && t != x.s.idle
    case Sched(t) => t == x.s.current && PhaseOf(x, t) == Suspended
    case Resume(t) => t == x.s.current && PhaseOf(x, t) == Parked
    case Unlock(t, woken) =>
      && t == x.s.current && PhaseOf(x, t) == Holds && (forall u :: u in woken ==> u in x.s.task)
      && Walk(x.links, Next(x.links, Head), woken)
    case Kill(t, woken) =>
      && Enabled(x.s, Reap(t)) && t !in woken && (forall u :: u in woken ==> u in x.s.task)
      && var l := Drop(x.links, t); (PhaseOf(x, t) == Holds ==> Walk(l, Next(l, Head), woken))
  }

  ghost predicate Owners(x: World, t: Tid) { PhaseOf(x, t) == Holds }

  /** At most one owner, counted exactly. */
  ghost predicate OwnerInv(x: World) {
    && Inv(x.s)
    && (x.count == 0 || x.count == 1)
    && (x.count == 1 <==> exists t :: Owners(x, t))
    && (forall t, u :: Owners(x, t) && Owners(x, u) ==> t == u)
    && (forall t :: PhaseOf(x, t) != Out ==> t in x.s.task)
  }

  /** suspend_task_timeout refuses: the task unlinks itself at once. */
  ghost predicate Refuses(x: World, t: Tid, ms: int)
    requires t in x.s.task
  {
    ms == 0 || x.s.task[t].state == Idle
  }

  ghost function Moved(x: World, t: Tid, p: Phase): World { x.(phase := x.phase[t := p]) }

  /** A list_del of the task's own node. */
  ghost function Unlinked(x: World, t: Tid): World { x.(links := Unlink(x.links, t), wait := Del(x.wait, t)) }

  ghost function Drop(l: Links, t: Tid): Links { if Next(l, Of(t)) == Of(t) then l else Unlink(l, t) }

  /** What the ring should hold after an unlock: whom it did not meet. */
  ghost function Missed(wait: seq<Tid>, woken: seq<Tid>): seq<Tid> {
    if wait == [] then [] else (if wait[0] in woken then [] else [wait[0]]) + Missed(wait[1..], woken)
  }

  /** mutex_unlock. */
  ghost function Released(x: World, woken: seq<Tid>): World
    requires Shape(x.s) && forall u :: u in woken ==> u in x.s.task
  {
    x.(s := WakeAll(x.s, woken), count := 0, links := UnlinkAll(x.links, woken), wait := Missed(x.wait, woken),
       met := x.met + (set u | u in woken), roused := x.roused + Asleep(x.s, woken))
  }

  ghost function DoKern(x: World, op: Op): World
    requires Inv(x.s) && Enabled(x.s, op)
  {
    x.(s := Step(x.s, op),
       links := if op.New? then Init(x.links, op.t) else x.links,
       roused := if op.Ready? && InState(x.s, op.t, Sleep) then x.roused + {op.t}
                 else if op.Block? && op.timeout != 0 && !InState(x.s, op.t, Idle) then x.roused - {op.t}
                 else x.roused)
  }

  ghost function DoLock(x: World, t: Tid): World {
    if x.count == 0 then Moved(x, t, Holds).(count := 1)
    else Moved(x, t, Enqueued).(links := AddTail(x.links, t), wait := x.wait + [t], met := x.met - {t})
  }

  ghost function DoPark(x: World, t: Tid, ms: int): World
    requires OwnerInv(x) && Allowed(x, Park(t, ms))
  {
    if Refuses(x, t, ms) then Unlinked(Moved(x, t, Out), t) else Moved(DoKern(x, Block(t, ms)), t, Suspended)
  }

  /** Told of a timeout, the task unlinks itself; otherwise it goes for another turn of the
      loop, wherever its node is. */
  ghost function DoResume(x: World, t: Tid): World
    requires OwnerInv(x) && Allowed(x, Resume(t))
  {
    if x.s.task[t].timeOut != 0 then Unlinked(Moved(x, t, Out), t) else Moved(x, t, Out)
  }

  /** kill_task after it has removed the task from the scheduler: it unlinks the task's
      node unless that points at itself. */
  ghost function Unhooked(x: World, t: Tid): World
    requires Inv(x.s) && Enabled(x.s, Reap(t))
  {
    Moved(x, t, Out).(s := Step(x.s, Reap(t)), links := Drop(x.links, t), wait := Del(x.wait, t))
  }

  /** kill_task gives up early on a task it cannot remove. Otherwise it unlocks what the
      task holds. */
  ghost function DoKill(x: World, t: Tid, woken: seq<Tid>): World
    requires OwnerInv(x) && Allowed(x, Kill(t, woken))
  {
    if !Removable(x.s.task[t]) then x else
    StepKeeps(x.s, Reap(t));
    ReapKeepsTasks(x.s, t);
    InvShape(Step(x.s, Reap(t)));
    if PhaseOf(x, t) == Holds then Released(Unhooked(x, t), woken) else Unhooked(x, t)
  }

  ghost function Do(x: World, a: Act): World
    requires OwnerInv(x) && Allowed(x, a)
  {
    InvShape(x.s);
    match a
    case Kern(op) => DoKern(x, op)
    case Lock(t) => DoLock(x, t)
    case Park(t, ms) => DoPark(x, t, ms)
    case Sched(t) => Moved(DoKern(x, Yield), t, Parked)
    case Resume(t) => DoResume(x, t)
    case Unlock(t, woken) => Moved(Released(x, woken), t, Out)
    case Kill(t, woken) => DoKill(x, t, woken)
  }

  // ---- what every step keeps -----------------------------------------------------------

  lemma KernKeepsTasks(s: Sys, op: Op, t: Tid)
    requires Inv(s) && Enabled(s, op) && t in s.task && op != Reap(t)
    ensures t in Step(s, op).task
  {
    hide Inv, SetTaskState, SleepScan, TickRun;
    InvShape(s);
    if op == Tick { ScanKeeps(s, s.sleep.items); }
  }

  lemma ReapKeepsTasks(s: Sys, t: Tid)
    requires Inv(s) && Enabled(s, Reap(t))
    ensures forall u :: u in s.task && u != t ==> u in Step(s, Reap(t)).task
  {
    forall u | u in s.task && u != t ensures u in Step(s, Reap(t)).task { KernKeepsTasks(s, Reap(t), u); }
  }

  /** Ownership hangs on the phases and the count alone. */
  lemma OwnersKept(x: World, y: World, t: Tid, p: Phase)
    requires OwnerInv(x) && Inv(y.s) && y.phase == x.phase[t := p]
    requires forall u :: PhaseOf(x, u) != Out && u != t ==> u in y.s.task
    requires p != Out ==> t in y.s.task
    requires if p == Holds then x.count == 0 && y.count == 1
             else if PhaseOf(x, t) == Holds then y.count == 0 else y.count == x.count
    ensures OwnerInv(y)
  {
    hide Inv;
    assert forall u :: PhaseOf(y, u) == if u == t then p else PhaseOf(x, u);
    assert forall u :: u != t ==> (Owners(y, u) <==> Owners(x, u));
    assert Owners(y, t) <==> p == Holds;
    assert Owners(x, t) <==> PhaseOf(x, t) == Holds;
    if p != Holds {
      if Owners(x, t) {
        assert forall u :: Owners(x, u) ==> u == t;
        assert forall u :: !Owners(y, u);
      } else {
        assert forall u :: Owners(y, u) <==> Owners(x, u);
      }
    }
  }

  lemma KernKeepsOwners(x: World, op: Op)
    requires OwnerInv(x) && Enabled(x.s, op) && !op.Reap?
    ensures OwnerInv(DoKern(x, op))
  {
    hide Inv, Step;
    var y := DoKern(x, op);
    StepKeeps(x.s, op);
    forall t | PhaseOf(x, t) != Out ensures t in y.s.task { KernKeepsTasks(x.s, op, t); }
    assert forall t :: PhaseOf(y, t) == PhaseOf(x, t);
    assert forall t :: Owners(y, t) <==> Owners(x, t);
  }

  lemma KillKeepsOwners(x: World, t: Tid, woken: seq<Tid>)
    requires OwnerInv(x) && Allowed(x, Kill(t, woken))
    ensures OwnerInv(DoKill(x, t, woken))
  {
    hide Inv, Step, WakeAll;
    if Removable(x.s.task[t]) {
      var r := Step(x.s, Reap(t));
      StepKeeps(x.s, Reap(t));
      ReapKeepsTasks(x.s, t);
      InvShape(r);
      if PhaseOf(x, t) == Holds { WakeAllReadies(r, woken); }
      OwnersKept(x, DoKill(x, t, woken), t, Out);
    }
  }

  /** Every step keeps the mutex with at most one owner, counted exactly. */
  lemma DoKeeps(x: World, a: Act)
    requires OwnerInv(x) && Allowed(x, a)
    ensures OwnerInv(Do(x, a))
  {
    hide Inv, Step, WakeAll, OwnerInv;
    OwnerFacts(x);
    InvShape(x.s);
    match a
    case Kern(op) => KernKeepsOwners(x, op);
    case Lock(t) => OwnersKept(x, DoLock(x, t), t, if x.count == 0 then Holds else Enqueued);
    case Park(t, ms) =>
      if Refuses(x, t, ms) {
        OwnersKept(x, DoPark(x, t, ms), t, Out);
      } else {
        KernKeepsOwners(x, Block(t, ms));
        OwnerFacts(DoKern(x, Block(t, ms)));
        OwnersKept(DoKern(x, Block(t, ms)), DoPark(x, t, ms), t, Suspended);
      }
    case Sched(t) =>
      KernKeepsOwners(x, Yield);
      OwnerFacts(DoKern(x, Yield));
      OwnersKept(DoKern(x, Yield), Moved(DoKern(x, Yield), t, Parked), t, Parked);
    case Resume(t) => OwnersKept(x, DoResume(x, t), t, Out);
    case Unlock(t, woken) =>
      WakeAllReadies(x.s, woken);
      OwnersKept(x, Moved(Released(x, woken), t, Out), t, Out);
    case Kill(t, woken) => KillKeepsOwners(x, t, woken);
  }

  lemma OwnerFacts(x: World)
    requires OwnerInv(x)
    ensures Inv(x.s) && x.s.current in x.s.task && (x.count == 0 || x.count == 1)
    ensures forall t :: PhaseOf(x, t) != Out ==> t in x.s.task
  {
  }

  // ---- every interleaving -------------------------------------------------------------

  ghost predicate StepTo(x: World, a: Act, y: World) {
    OwnerInv(x) && Allowed(x, a) && y == Do(x, a)
  }

  ghost predicate IsRun(xs: seq<World>, acts: seq<Act>) {
    |xs| == |acts| + 1 && forall i :: 0 <= i < |acts| ==> StepTo(xs[i], acts[i], xs[i + 1])
  }

  /** A mutex nobody has used yet. */
  function Fresh(s: Sys): World { World(s, 0, map[], Links(map[], map[]), [], {}, {}) }

  lemma FreshHolds(s: Sys)
    requires Inv(s)
    ensures OwnerInv(Fresh(s))
  {
  }

  lemma {:induction false} RunKeepsOwners(xs: seq<World>, acts: seq<Act>, n: nat)
    requires IsRun(xs, acts) && OwnerInv(xs[0]) && n <= |acts|
    ensures OwnerInv(xs[n])
  {
    hide OwnerInv, Allowed, Do;
    if n > 0 {
      RunKeepsOwners(xs, acts, n - 1);
      assert StepTo(xs[n - 1], acts[n - 1], xs[n]);
      DoKeeps(xs[n - 1], acts[n - 1]);
    }
  }

  /** Over every interleaving of lock, suspend, timeout, unlock and kill with the
      scheduler's own steps, whatever they wake, suspend or stop and whatever becomes of
      the wait ring, a mutex has at most one owner, and its count says whether it has
      one. */
  lemma MutualExclusion(xs: seq<World>, acts: seq<Act>, n: nat)
    requires IsRun(xs, acts) && Inv(xs[0].s) && xs[0] == Fresh(xs[0].s) && n <= |acts|
    ensures forall t, u :: PhaseOf(xs[n], t) == Holds && PhaseOf(xs[n], u) == Holds ==> t == u
    ensures xs[n].count != 0 <==> exists t :: PhaseOf(xs[n], t) == Holds
  {
    hide Inv, StepTo;
    FreshHolds(xs[0].s);
    RunKeepsOwners(xs, acts, n);
    assert forall t :: Owners(xs[n], t) <==> PhaseOf(xs[n], t) == Holds;
  }

  /** What a task does that found the mutex taken: a wait of 0, or one of a task that has been
      stopped, is refused, and the task is off the ring and out at once; otherwise it sleeps
      for ms ticks. */
  lemma ParkDoes(x: World, t: Tid, ms: int)
    requires OwnerInv(x) && Allowed(x, Park(t, ms)) && NoDup(x.wait)
    ensures var y := Do(x, Park(t, ms));
      if ms == 0 || InState(x.s, t, Idle) then PhaseOf(y, t) == Out && t !in y.wait && y.s == x.s
      else
        && PhaseOf(y, t) == Suspended && y.wait == x.wait && y.links == x.links
        && InState(y.s, t, Sleep) && y.s.task[t].waitTime == ms && y.s.task[t].timeOut == 0
  {
    OwnerFacts(x);
    hide Inv, Step;
    SchedEffects.BlockEffect(x.s, t, ms);
  }

  /** mutex_unlock readies every sleeping task that it meets; on a ring it meets every
      waiter, and leaves the empty ring. */
  lemma UnlockReadies(x: World, t: Tid, woken: seq<Tid>)
    requires OwnerInv(x) && Allowed(x, Unlock(t, woken))
    ensures var y := Do(x, Unlock(t, woken));
      && y.count == 0 && y.s.task.Keys == x.s.task.Keys
      && (forall u :: u in woken ==> !InState(y.s, u, Sleep))
      && (forall u :: u in woken && InState(x.s, u, Sleep) ==> InState(y.s, u, Prepare))
      && (forall u :: u in x.s.task && u !in woken ==> y.s.task[u] == x.s.task[u])
      && (IsRing(x.links, x.wait) ==> woken == x.wait && y.wait == [] && IsRing(y.links, []))
  {
    hide Inv, WakeAll, IsRing;
    InvShape(x.s);
    WakeAllReadies(x.s, woken);
    if IsRing(x.links, x.wait) {
      WalkDrains(x.links, x.wait);
      WalkIsOne(x.links, Next(x.links, Head), woken, x.wait);
      AllMet(x.wait, woken);
    }
  }

  lemma {:induction false} AllMet(wait: seq<Tid>, woken: seq<Tid>)
    requires forall u :: u in wait ==> u in woken
    ensures Missed(wait, woken) == []
  {
    if wait != [] { AllMet(wait[1..], woken); }
  }
}
