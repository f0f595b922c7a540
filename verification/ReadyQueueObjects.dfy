/** t_ready_queue and t_execute_list as objects updated in place (scheduler/ready_queue.c and
    exec_list.c). Every method is tied to the function of ReadyQueues it stands for. */
module ReadyQueueObjects {
  import opened Options
  import opened PriorityLists
  import opened ReadyQueues

  class ReadyQueue {
    const multilevelQueue: bool
    var queues: seq<seq<nat>>
    var readyProcessCount: int
    var highestPriority: int

    ghost function State(): Ready
      reads this
    {
      Ready(multilevelQueue, queues, readyProcessCount, highestPriority)
    }

    constructor (multilevel: bool, levels: nat)
      ensures State() == InitReady(multilevel, levels)
    {
      multilevelQueue := multilevel;
      queues := seq(if multilevel then levels else 1, _ => []);
      readyProcessCount := 0;
      highestPriority := INT_MAX;
    }

    method TransitionToReady(p: nat, x: int)
      requires 0 <= LevelOf(State(), x) < |queues|
      modifies this
      ensures State() == ToReady(old(State()), p, x)
    {
      if readyProcessCount == 0 || highestPriority > x {
        highestPriority := x;
      }
      readyProcessCount := readyProcessCount + 1;
      var level := if multilevelQueue then x else 0;
      queues := queues[level := queues[level] + [p]];
    }

    method UpdateHighestPriority()
      modifies this`highestPriority
      ensures State() == UpdateHighest(old(State()))
    {
      if readyProcessCount > 0 && multilevelQueue {
        var i := 0;
        while i < |queues|
          invariant 0 <= i <= |queues| && FirstNonEmpty(queues) == i + FirstNonEmpty(queues[i..])
          invariant highestPriority == old(highestPriority)
        {
          if queues[i] != [] {
            highestPriority := i;
            return;
          }
          assert queues[i..][1..] == queues[i + 1..];
          i := i + 1;
        }
      }
      highestPriority := |queues|;
    }

    method TransitionTakeReady(p: nat, x: int)
      requires 0 <= LevelOf(State(), x) < |queues|
      modifies this
      ensures State() == TakeReady(old(State()), p, x)
    {
      var pos := if multilevelQueue then x else 0;
      var rest, _ := WithoutFirst(queues[pos], p);
      queues := queues[pos := rest];
      UpdateHighestPriority();
      readyProcessCount := readyProcessCount - 1;
    }

    method TransitionTakeReadyNext() returns (p: Option<nat>)
      modifies this
      ensures (State(), p) == TakeNext(old(State()))
    {
      var i := 0;
      while i < |queues|
        invariant 0 <= i <= |queues| && FirstNonEmpty(queues) == i + FirstNonEmpty(queues[i..])
        invariant State() == old(State())
      {
        if queues[i] != [] {
          readyProcessCount := readyProcessCount - 1;
          p := Some(queues[i][0]);
          queues := queues[i := queues[i][1..]];
          if queues[i] == [] {
            UpdateHighestPriority();
          }
          return;
        }
        assert queues[i..][1..] == queues[i + 1..];
        i := i + 1;
      }
      p := None;
    }
  }

  class ExecList {
    var list: seq<nat>
    var lowestPriority: int

    ghost function State(): Exec
      reads this
    {
      Exec(list, lowestPriority)
    }

    constructor ()
      ensures State() == Exec([], 0)
    {
      list := [];
      lowestPriority := 0;
    }

    method UpdateLowestPriority(prio: Prio)
      requires forall p :: p in list ==> p in prio
      modifies this`lowestPriority
      ensures lowestPriority == Worst(list, prio)
    {
      lowestPriority := 0;
      for i := 0 to |list|
        invariant lowestPriority == Worst(list[..i], prio)
      {
        assert list[..i + 1][..i] == list[..i];
        if lowestPriority < prio[list[i]] {
          lowestPriority := prio[list[i]];
        }
      }
      assert list[..|list|] == list;
    }

    method TransitionToExec(p: nat, x: int)
      modifies this
      ensures State() == ToExec(old(State()), p, x)
    {
      if lowestPriority < x {
        lowestPriority := x;
      }
      list := list + [p];
    }

    method TransitionTakeExec(p: nat, prio: Prio)
      requires forall w :: w in list ==> w in prio
      modifies this
      ensures State() == TakeExec(old(State()), p, prio)
    {
      RemovedMembers(list, p);
      var rest, _ := WithoutFirst(list, p);
      list := rest;
      UpdateLowestPriority(prio);
    }
  }

  /** manage_preemption_priority, for a thread that runs p with preemption enabled. */
  method ManagePreemption(ready: ReadyQueue, exec: ExecList, p: nat, prio: Prio) returns (next: Option<nat>)
    requires Playable(Queues(ready.State(), exec.State()), prio) && p in exec.list
    modifies ready, exec
    ensures TakeNext(old(ready.State())).1.Some? ==> TakeNext(old(ready.State())).1.value in prio
    ensures Queues(ready.State(), exec.State()) == Preempt(old(Queues(ready.State(), exec.State())), p, prio)
  {
    HeadHasLevel(Queues(ready.State(), exec.State()), prio);
    next := None;
    if !(prio[p] >= exec.lowestPriority) {
      return;
    }
    if prio[p] <= ready.highestPriority {
      return;
    }
    next := ready.TransitionTakeReadyNext();
    if next.None? {
      return;
    }
    exec.TransitionTakeExec(p, prio);
    ready.TransitionToReady(p, prio[p]);
    exec.TransitionToExec(next.value, prio[next.value]);
  }
}
