/** The scheduler as the kernel runs it: global lists, task structures and the
    current/next pair updated in place (kernel/sched.c). */
module SchedKernel {
  import opened Lists
  import S = Sched
  import opened SchedInvariant
  import SchedEffects

  type Tid = S.Tid

  const EINVAL := -22

  class Kernel {
    var task: map<Tid, S.Task>
    const table: array<S.SchedList>
    var sleep: S.SchedList
    var idlers: S.SchedList
    var system: S.SchedList
    var current: Tid
    var next: Tid
    const idle: Tid
    var nextPid: nat

    ghost function View(): S.Sys
      reads this, table
    {
      S.Sys(task, table[..], sleep, idlers, system, current, next, idle, nextPid)
    }

    /** sched_init and build_idle_task. */
    constructor (idle: Tid)
      ensures View() == Boot(idle) && Inv(View())
      ensures fresh(table)
    {
      this.idle := idle;
      task := map[idle := S.Task(S.Running, -1, S.IDLE_PRIO, S.RunTimeOf(S.IDLE_PRIO), -1, 0, 0)];
      table := new S.SchedList[S.MAX_PRIO](_ => S.EMPTY);
      sleep, idlers, system := S.EMPTY, S.EMPTY, S.EMPTY;
      current, next, nextPid := idle, idle, 0;
      new;
      assert table[..] == Boot(idle).table;
      BootHolds(idle);
    }

    method PrioListAddTail(t: Tid)
      requires S.Shape(View()) && t in task
      modifies table
      ensures var p := task[t].prio; View() == old(View()).(table := old(View()).table[p := old(View()).table[p].AddTail(t)])
    {
      var p := task[t].prio;
      table[p] := table[p].AddTail(t);
    }

    method PrioListDel(t: Tid)
      requires S.Shape(View()) && t in task
      modifies table
      ensures var p := task[t].prio; View() == old(View()).(table := old(View()).table[p := old(View()).table[p].Remove(t)])
    {
      var p := task[t].prio;
      table[p] := table[p].Remove(t);
    }

    method SetTaskState(t: Tid, new_: S.State)
      requires S.Shape(View()) && t in task
      modifies this, table
      ensures View() == S.SetTaskState(old(View()), t, new_)
    {
      hide S.ChangeOf;
      S.RowOf(task[t].state, new_);
      var change := S.ChangeOf(task[t].state, new_);
      if change == S.NoneToNone {
        return;
      }
      task := task[t := task[t].(state := new_)];
      match change
      case NoneToPrepare =>
        system := system.AddTail(t);
        PrioListAddTail(t);
      case NoneToSleep =>
        system := system.AddTail(t);
        sleep := sleep.AddHead(t);
      case PrepareToRunning =>
        PrioListDel(t);
      case PrepareToIdle =>
        PrioListDel(t);
        idlers := idlers.AddTail(t);
      case PrepareToSleep =>
        PrioListDel(t);
        sleep := sleep.AddTail(t);
      case RunningToSleep =>
        sleep := sleep.AddTail(t);
      case RunningToPrepare =>
        PrioListAddTail(t);
      case RunningToIdle =>
        idlers := idlers.AddTail(t);
      case SleepToPrepare =>
        sleep := sleep.Remove(t);
        PrioListAddTail(t);
      case SleepToIdle =>
        sleep := sleep.Remove(t);
        idlers := idlers.AddTail(t);
      case SleepToRunning =>
        sleep := sleep.Remove(t);
      case PrepareToUnknown =>
        PrioListDel(t);
    }

    /** Scans the table for the most urgent level with a task. */
    method FindNextRunTask()
      requires Inv(View())
      modifies this`next
      ensures View() == S.FindNext(old(View()))
    {
      var i := 0;
      while i < S.MAX_PRIO && table[i].count == 0
        invariant 0 <= i <= S.MAX_PRIO == table.Length
        invariant S.FirstReady(table[..], 0) == S.FirstReady(table[..], i)
      {
        i := i + 1;
      }
      if i == S.MAX_PRIO {
        return;
      }
      assert table[..][i].Ok();
      next := table[i].items[0];
    }

    /** Returns whether another task is about to run. */
    method PrepareToSwitch(irq: bool) returns (switching: bool)
      requires S.Shape(View())
      modifies this, table
      ensures View() == S.PrepareToSwitch(old(View()), irq)
      ensures switching == (old(current) != old(next))
    {
      hide S.SetTaskState;
      if current == next {
        var n := task[next];
        task := task[next := n.(runTime := S.RunTimeOf(n.prio), runCount := n.runCount + 1)];
        return false;
      }
      if task[current].state == S.Running {
        var c := task[current];
        if c.runTime == 0 || !irq {
          c := c.(prio := S.NextPrio(c));
          c := c.(runTime := S.RunTimeOf(c.prio));
        }
        task := task[current := c];
        SetTaskState(current, S.Prepare);
      }
      var n := task[next];
      if n.waitTime == 0 {
        n := n.(timeOut := 1);
      }
      task := task[next := n.(waitTime := -1)];
      SetTaskState(next, S.Running);
      return true;
    }

    /** sched() outside an interrupt; the switch itself makes next current. */
    method Sched()
      requires Inv(View())
      modifies this, table
      ensures View() == Step(old(View()), Yield)
      ensures Inv(View())
    {
      hide S.PrepareToSwitch, S.FindNext, Inv;
      InvShape(View());
      StepKeeps(View(), Yield);
      SwitchDoes(View(), false);
      FindNextRunTask();
      var switching := PrepareToSwitch(false);
      if switching {
        current := next;
      }
    }

    method AgeSleeper(t: Tid)
      requires S.Shape(View()) && t in task
      modifies this, table
      ensures View() == S.TickOne(old(View()), t)
    {
      hide S.SetTaskState;
      if task[t].waitTime > 0 {
        task := task[t := task[t].(waitTime := task[t].waitTime - 1)];
      }
      assert View() == old(View()).(task := old(task)[t := task[t]]);
      if task[t].waitTime == 0 {
        SetTaskState(t, S.Prepare);
      }
    }

    /** The loop over the sleep ring visits each task once although it unlinks
        those it readies (see Ring.Sweep). */
    method AgeSleepers()
      requires Inv(View())
      modifies this, table
      ensures Inv(old(View())) && S.Known(old(View()))
      ensures S.Shape(old(View()))
      ensures View() == S.SleepScan(old(View()), old(sleep.items))
    {
      hide Inv, S.TickOne, S.Shape;
      InvShape(View());
      ghost var s0 := View();
      var ring := sleep.items;
      var i := 0;
      while i < |ring|
        invariant 0 <= i <= |ring|
        invariant S.Shape(View()) && task.Keys == s0.task.Keys
        invariant forall t :: t in ring[i..] ==> t in task
        invariant S.SleepScan(View(), ring[i..]) == S.SleepScan(s0, ring)
      {
        assert ring[i..][0] == ring[i] && ring[i..][1..] == ring[i + 1..];
        AgeSleeper(ring[i]);
        i := i + 1;
      }
    }

    /** os_tick_handler, and the return from the interrupt. */
    method OsTickHandler()
      requires Inv(View())
      modifies this, table
      ensures View() == Step(old(View()), Tick)
      ensures Inv(View())
    {
      hide S.PrepareToSwitch, S.FindNext, Inv, S.SleepScan;
      ghost var s0 := View();
      InvShape(s0);
      StepKeeps(s0, Tick);
      ScanKeeps(s0, s0.sleep.items);
      AgeSleepers();
      ghost var s1 := View();
      InvShape(s1);
      ChargeKeeps(s1);
      task := task[current := task[current].(runTime := task[current].runTime - 1)];
      if task[current].runTime == 0 {
        SwitchDoes(View(), true);
        FindNextRunTask();
        var _ := PrepareToSwitch(true);
      }
      current := next;
    }

    /** suspend_task_timeout up to its call of sched(). */
    method SuspendTaskTimeout(t: Tid, timeout: int) returns (err: int)
      requires Inv(View()) && t in task && t != idle
      modifies this, table
      ensures View() == Step(old(View()), Block(t, timeout))
      ensures Inv(View())
      ensures err == if timeout == 0 || old(task)[t].state == S.Idle then EINVAL else 0
    {
      hide Inv, S.SetTaskState;
      StepKeeps(View(), Block(t, timeout));
      InvShape(View());
      if timeout == 0 {
        return EINVAL;
      }
      if task[t].state == S.Idle {
        return EINVAL;
      }
      task := task[t := task[t].(waitTime := timeout, timeOut := 0)];
      SetTaskState(t, S.Sleep);
      return 0;
    }

    method WakeupTask(t: Tid) returns (err: int)
      requires Inv(View()) && t in task
      modifies this, table
      ensures View() == Step(old(View()), Ready(t))
      ensures Inv(View())
      ensures err == if old(task)[t].state == S.Sleep then 0 else EINVAL
    {
      hide Inv, S.SetTaskState;
      StepKeeps(View(), Ready(t));
      InvShape(View());
      if task[t].state != S.Sleep {
        return EINVAL;
      }
      task := task[t := task[t].(runTime := S.RunTimeOf(task[t].prio))];
      SetTaskState(t, S.Prepare);
      return 0;
    }

    method SchedRemoveTask(t: Tid) returns (err: int)
      requires Inv(View()) && t in task && t != idle && t != current
      modifies this
      ensures View() == Step(old(View()), Reap(t))
      ensures Inv(View())
      ensures err == 0 <==> old(task)[t].state == S.Idle && old(task)[t].pid != 0 && old(task)[t].pid != 1
      ensures err == 0 || (err == EINVAL && View() == old(View()))
      ensures err == 0 ==> t !in task && t !in system.items && t !in idlers.items
    {
      hide Inv, SchedEffects.OnlyTask, OnNoList;
      StepKeeps(View(), Reap(t));
      SchedEffects.ReapEffect(View(), t);
      SchedEffects.OffQueues(Step(View(), Reap(t)), t);
      InvShape(View());
      if task[t].state != S.Idle || task[t].pid == 1 || task[t].pid == 0 {
        return EINVAL;
      }
      idlers := idlers.Remove(t);
      system := system.Remove(t);
      task := task - {t};
      return 0;
    }

    /** do_fork as the scheduler sees it. */
    method CreateTask(t: Tid) returns (ok: bool)
      requires Inv(View()) && t !in task
      modifies this, table
      ensures View() == Step(old(View()), New(t))
      ensures Inv(View())
      ensures ok <==> t in task
    {
      hide Inv, S.SetTaskState;
      StepKeeps(View(), New(t));
      InvShape(View());
      if nextPid == S.NR_PID {
        return false;
      }
      task := task[t := S.Task(S.Unknown, nextPid, S.DEFAULT_PRIO,
                               S.RunTimeOf(S.DEFAULT_PRIO), -1, 0, 0)];
      nextPid := nextPid + 1;
      SetTaskState(t, S.Prepare);
      return true;
    }
  }
}
