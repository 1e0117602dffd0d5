/** The mutex in place (kernel/mutex.c), on the tasks' own ring nodes and beside the world of
    the protocol it is in. */
module MutexKernel {
  import opened Lists
  import opened RingLinks
  import opened RingNodes
  import opened Sched
  import opened SchedInvariant
  import opened SchedKernel
  import opened Mutex
  import Ring

  class MutexCell {
    var count: int
    const head: Ring.Node                 // m->wait
    const nodes: map<Tid, Ring.Node>      // each task's wait
    const owner: map<Ring.Node, Tid>      // list_entry

    /** Where the protocol is: the tasks' phases, the scheduler and the links. */
    ghost var world: World

    ghost predicate Housed() {
      && (forall t :: t in nodes ==> nodes[t] in owner && owner[nodes[t]] == t)
      && forall t :: t in nodes ==> nodes[t] != head
    }

    ghost predicate Valid()
      reads this, head, nodes.Values
    {
      && Housed() && (forall t :: t in world.s.task ==> t in nodes)
      && OwnerInv(world) && count == world.count && Shows(head, nodes, world.links)
    }

    /** init_mutex, with the ring nodes of the tasks as init_sched_struct left them. */
    constructor (ghost s: Sys, head: Ring.Node, nodes: map<Tid, Ring.Node>, owner: map<Ring.Node, Tid>)
      requires Inv(s) && forall t :: t in s.task ==> t in nodes
      requires forall t :: t in nodes ==> nodes[t] in owner && owner[nodes[t]] == t && nodes[t] != head
      requires forall t :: t in nodes ==> nodes[t].next == nodes[t] && nodes[t].pre == nodes[t]
      modifies head
      ensures Valid() && world == Fresh(s) && this.nodes == nodes
    {
      count := 0;
      this.head, this.nodes, this.owner := head, nodes, owner;
      world := Fresh(s);
      new;
      head.pre := head;
      head.next := head;
      FreshHolds(s);
      forall n | InNodes(nodes, n) ensures Shown(head, nodes, Links(map[], map[]), n) {}
    }

    /** The critical section of mutex_lock_timeout: the lock step of the protocol. Who gets
        past it owns the mutex, and nobody else does. */
    method LockOrEnqueue(t: Tid) returns (taken: bool)
      requires Valid() && Allowed(world, Lock(t))
      modifies this`count, this`world, head, nodes.Values
      ensures Valid() && OwnerInv(old(world)) && world == Do(old(world), Lock(t))
      ensures (taken <==> old(count) == 0) && (taken <==> PhaseOf(world, t) == Holds)
      ensures taken ==> (forall u :: PhaseOf(world, u) == Holds ==> u == t) && forall u :: PhaseOf(old(world), u) != Holds
    {
      hide Inv, Shows, AddTail;
      ghost var before, after := world, Do(world, Lock(t));
      DoKeeps(world, Lock(t));
      OneOwner(before, after, t);
      OwnerFacts(world);
      hide OwnerInv;
      world := after;
      if count != 0 {
        ListAddTail(head, nodes[t], nodes, before.links, t);
        return false;
      }
      count := 1;
      return true;
    }

    /** After suspend_task_timeout: a task that is told of a timeout unlinks itself and gives
        up; another goes for one more turn of the loop. */
    method Return(t: Tid, timeout: int) returns (again: bool)
      requires Valid() && Allowed(world, Resume(t)) && t in world.s.task && timeout == world.s.task[t].timeOut
      modifies this`world, head, nodes.Values
      ensures Valid() && OwnerInv(old(world)) && world == Do(old(world), Resume(t))
      ensures again <==> timeout == 0
    {
      hide Inv, Shows, Unlink, OwnerInv;
      ghost var before, after := world, Do(world, Resume(t));
      DoKeeps(world, Resume(t));
      world := after;
      if timeout != 0 {
        ListDel(nodes[t], head, nodes, before.links, t);
        return false;
      }
      return true;
    }

    /** One turn of the loop of mutex_unlock: unlink, wake, go on. */
    method Meet(cur: Ring.Node, k: Kernel, ghost l: Links, ghost at: Nd) returns (next: Ring.Node)
      requires Housed() && Shows(head, nodes, l) && Inv(k.View())
      requires at != Head && at.owner in nodes && at.owner in k.View().task && cur == nodes[at.owner]
      modifies head, nodes.Values, k, k.table
      ensures Shows(head, nodes, Unlink(l, at.owner))
      ensures var n := Next(Unlink(l, at.owner), at); InNodes(nodes, n) && next == NodeOf(head, nodes, n)
      ensures Inv(k.View()) && Shape(old(k.View())) && k.View() == Wake(old(k.View()), at.owner)
    {
      hide Inv, Wake, Step, Shape, Unlink, Shows;
      var u := owner[cur];
      ListDel(cur, head, nodes, l, u);
      WakeIs(k.View(), u);
      var _ := k.WakeupTask(u);
      NodeShown(head, nodes, Unlink(l, u), at);
      next := cur.next;
    }

    /** The loop of mutex_unlock. */
    method MeetAll(k: Kernel, ghost l: Links, ghost woken: seq<Tid>)
      requires Housed() && Shows(head, nodes, l) && Inv(k.View()) && Shape(k.View())
      requires Walk(l, Next(l, Head), woken) && forall u :: u in woken ==> u in k.View().task && u in nodes
      modifies head, nodes.Values, k, k.table
      ensures Shows(head, nodes, UnlinkAll(l, woken))
      ensures k.View() == WakeAll(old(k.View()), woken)
    {
      hide Inv, Wake, Step, Shape, Unlink, Shows, Housed;
      ghost var s, m, at, rest := k.View(), l, Next(l, Head), woken;
      NodeShown(head, nodes, l, Head);
      var cur := head.next;
      while cur != head
        invariant InNodes(nodes, at) && cur == NodeOf(head, nodes, at)
        invariant Inv(k.View()) && Shape(k.View()) && k.View().task.Keys == s.task.Keys
        invariant forall u :: u in rest ==> u in s.task && u in nodes
        invariant WakeAll(k.View(), rest) == WakeAll(s, woken)
        invariant Walk(m, at, rest) && UnlinkAll(m, rest) == UnlinkAll(l, woken)
        invariant Shows(head, nodes, m)
        decreases |rest|
      {
        assert at != Head && rest != [] && at.owner == rest[0];
        InvShape(k.View());
        cur := Meet(cur, k, m, at);
        m := Unlink(m, at.owner);
        at := Next(m, at);
        rest := rest[1..];
        InvShape(k.View());
      }
      HeadOnly(head, nodes, m, at);
    }

    /** mutex_unlock by the owner t: the unlock step of the protocol, one waiter at a time,
        wherever the links lead. */
    method Unlock(t: Tid, k: Kernel, ghost woken: seq<Tid>)
      requires Valid() && k.View() == world.s && Allowed(world, Mutex.Unlock(t, woken))
      modifies this`count, this`world, head, nodes.Values, k, k.table
      ensures Valid() && OwnerInv(old(world)) && world == Do(old(world), Mutex.Unlock(t, woken))
      ensures k.View() == world.s && count == 0
    {
      hide Inv, Step, Shape, OwnerInv, UnlinkAll, Shows, WakeAll, Walk;
      OwnerFacts(world);
      InvShape(world.s);
      ghost var after := Do(world, Mutex.Unlock(t, woken));
      DoKeeps(world, Mutex.Unlock(t, woken));
      count := 0;
      MeetAll(k, world.links, woken);
      world := after;
    }
  }

  lemma OneOwner(x: World, y: World, t: Tid)
    requires OwnerInv(x) && Allowed(x, Lock(t)) && y == Do(x, Lock(t)) && OwnerInv(y)
    ensures PhaseOf(y, t) == Holds <==> x.count == 0
    ensures x.count == 0 ==> (forall u :: PhaseOf(y, u) == Holds ==> u == t) && forall u :: PhaseOf(x, u) != Holds
  {
    hide Inv;
    assert forall u :: Owners(x, u) <==> PhaseOf(x, u) == Holds;
    assert forall u :: Owners(y, u) <==> PhaseOf(y, u) == Holds;
  }

  /** The loop has come round to the head. */
  lemma HeadOnly(head: Ring.Node, nodes: map<Tid, Ring.Node>, l: Links, at: Nd)
    requires Shows(head, nodes, l) && InNodes(nodes, at) && NodeOf(head, nodes, at) == head
    ensures at == Head
  {
    NodesDiffer(head, nodes, at, Head);
  }
}
