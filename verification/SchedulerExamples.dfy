/** Runs from the scheduler's start that end where SchedulerRuns says they can end badly. */
module SchedulerExamples {
  import opened Options
  import opened PriorityLists
  import opened ProcessQueues
  import opened CpuThreads
  import opened SchedulerRuns

  // ---------- one event at a time ----------

  /** The i-th event leads from the i-th state to the next. */
  ghost predicate Linked(tr: seq<System>, es: seq<Event>, i: nat)
    requires i < |es| && i + 1 < |tr|
  {
    Inv(tr[i]) && Step(tr[i], es[i]) == tr[i + 1]
  }

  /** The states that a run goes through. */
  ghost predicate Trace(tr: seq<System>, es: seq<Event>) {
    && |tr| == |es| + 1 && Inv(tr[|es|])
    && forall i {:trigger Linked(tr, es, i)} :: 0 <= i < |es| ==> Linked(tr, es, i)
  }

  lemma Extend(tr: seq<System>, es: seq<Event>, e: Event, y: System)
    requires Trace(tr, es) && Step(tr[|es|], e) == y
    ensures Trace(tr + [y], es + [e])
  {
    StepKeeps(tr[|es|], e);
    forall i | 0 <= i < |es| + 1 ensures Linked(tr + [y], es + [e], i) {
      if i < |es| { assert Linked(tr, es, i); }
    }
  }

  lemma TraceSuffix(tr: seq<System>, es: seq<Event>)
    requires Trace(tr, es) && es != []
    ensures Trace(tr[1..], es[1..]) && Inv(tr[0]) && Step(tr[0], es[0]) == tr[1]
  {
    assert Linked(tr, es, 0);
    forall i | 0 <= i < |es| - 1 ensures Linked(tr[1..], es[1..], i) {
      LinkedSuffix(tr, es, i);
    }
  }

  lemma LinkedSuffix(tr: seq<System>, es: seq<Event>, i: nat)
    requires i + 1 < |es| && i + 2 < |tr| && Linked(tr, es, i + 1)
    ensures Linked(tr[1..], es[1..], i)
  {
    assert tr[1..][i] == tr[i + 1] && tr[1..][i + 1] == tr[i + 2] && es[1..][i] == es[i + 1];
  }

  lemma {:induction false} TraceIsRun(tr: seq<System>, es: seq<Event>)
    requires Trace(tr, es)
    ensures Inv(tr[0]) && Run(tr[0], es) == tr[|es|]
    decreases |es|
  {
    if es != [] {
      TraceSuffix(tr, es);
      TraceIsRun(tr[1..], es[1..]);
      RunUnfold(tr[0], es);
    }
  }

  const QUIET := Inputs(false, true, CycleOk, false, false, false)
  const IO := QUIET.(request := IoRequest(true))
  const THREE: seq<Cpu> := [NEW_CPU, NEW_CPU, NEW_CPU]

  /** One process and three CPUs. */
  function Start(): System {
    Boot(3, 0, true, true)
  }

  /** The state of the queues with one process, and with two. */
  function One(ready: seq<nat>, exec: seq<nat>, st: ProcState): Queues {
    Queues(ready, exec, [], [], [], map[0 := Proc(st, 0)], 1, 1, false)
  }

  function Both(ready: seq<nat>, exec: seq<nat>, block: seq<nat>, zero: ProcState, one: ProcState): Queues {
    Queues(ready, exec, block, [], [], map[0 := Proc(zero, 0), 1 := Proc(one, 0)], 2, 2, false)
  }

  const DISPATCHED := Cpu(Sending, FirstCycle, Some(0), true)

  lemma StartIs()
    ensures Inv(Start()) && Start() == System(One([0], [], Ready), THREE)
  {
    BootIsGood(3, 0, true, true);
    assert [] + [0] == [0];
    assert map[][0 := Proc(Ready, 0)] == map[0 := Proc(Ready, 0)];
    assert Start().cpus == THREE;
  }

  lemma FirstDispatched() returns (y: System)
    ensures Trace([Start(), y], [Cycle(0, QUIET)]) && y == System(One([], [0], Exec), THREE[0 := DISPATCHED])
  {
    StartIs();
    y := System(One([], [0], Exec), THREE[0 := DISPATCHED]);
    assert Step(Start(), Cycle(0, QUIET)) == y by {
      assert [] + [0] == [0] && [0][1..] == [];
      assert map[0 := Proc(Ready, 0)][0 := Proc(Exec, 0)] == map[0 := Proc(Exec, 0)];
    }
    assert Trace([Start()], []);
    Extend([Start()], [], Cycle(0, QUIET), y);
    assert [Start()] + [y] == [Start(), y] && [] + [Cycle(0, QUIET)] == [Cycle(0, QUIET)];
  }

  // ---------- a send that fails ----------

  const FAILED := Cycle(0, QUIET.(sent := false))

  /** The CPU's socket fails when it is sent its first process: the thread closes, the process stays in
      EXEC through every later run, and the scheduler never reports that all processes have ended. */
  lemma FailedSendAbandons(es: seq<Event>)
    ensures Inv(Start()) && Inv(Run(Start(), [Cycle(0, QUIET)] + [FAILED]))
    ensures var r := Run(Run(Start(), [Cycle(0, QUIET)] + [FAILED]), es);
            && |r.cpus| > 0 && r.cpus[0].phase == Closed(Some(0))
            && 0 in r.q.exec && !r.q.ended
  {
    var y := FirstDispatched();
    var closed := SendFails(y);
    Extend([Start(), y], [Cycle(0, QUIET)], FAILED, closed);
    TraceIsRun([Start(), y] + [closed], [Cycle(0, QUIET)] + [FAILED]);
    AbandonedForever(closed, es, 0, 0);
  }

  lemma SendFails(y: System) returns (closed: System)
    requires Inv(y) && y == System(One([], [0], Exec), THREE[0 := DISPATCHED])
    ensures closed == Step(y, FAILED) && |closed.cpus| > 0 && closed.cpus[0].phase == Closed(Some(0))
  {
    closed := Step(y, FAILED);
  }

  // ---------- preempted for a compaction ----------

  const STARTS := Cycle(0, QUIET.(request := StartProcess(0, true, true)))
  const LOCKED := Cycle(0, QUIET.(readyLocked := true))
  const STARTING: seq<Event> := [Cycle(0, QUIET)] + [Cycle(0, QUIET)] + [STARTS] + [LOCKED]
  const FIRST := Cpu(EndQuantum, Compaction, Some(0), true)

  lemma Sent(y: System) returns (y': System)
    requires Inv(y) && y == System(One([], [0], Exec), THREE[0 := DISPATCHED])
    ensures Step(y, Cycle(0, QUIET)) == y'
    ensures y' == System(One([], [0], Exec), THREE[0 := Cpu(Waiting, NoPreemption, Some(0), true)])
  {
    y' := System(One([], [0], Exec), THREE[0 := Cpu(Waiting, NoPreemption, Some(0), true)]);
  }

  lemma StartsAnother(y: System) returns (y': System)
    requires Inv(y) && y == System(One([], [0], Exec), THREE[0 := Cpu(Waiting, NoPreemption, Some(0), true)])
    ensures Step(y, STARTS) == y'
    ensures y' == System(Both([1], [0], [], Exec, Ready), THREE[0 := Cpu(QueueBlocked, NoPreemption, Some(0), true)])
  {
    y' := System(Both([1], [0], [], Exec, Ready), THREE[0 := Cpu(QueueBlocked, NoPreemption, Some(0), true)]);
    assert NewReady(y.q, 0, true, true) == y'.q by {
      assert map[0 := Proc(Exec, 0)][1 := Proc(Ready, 0)] == map[0 := Proc(Exec, 0), 1 := Proc(Ready, 0)];
      assert [] + [1] == [1];
    }
  }

  lemma PutBack(y: System) returns (y': System)
    requires Inv(y)
    requires y == System(Both([1], [0], [], Exec, Ready), THREE[0 := Cpu(QueueBlocked, NoPreemption, Some(0), true)])
    ensures Step(y, LOCKED) == y' && y' == System(Both([1, 0], [], [], Ready, Ready), THREE[0 := FIRST])
  {
    assert Step(y, LOCKED) == System(ExecReady(y.q, 0), THREE[0 := FIRST]);
    GoesBehind(y.q);
    y' := System(Both([1, 0], [], [], Ready, Ready), THREE[0 := FIRST]);
  }

  lemma GoesBehind(q: Queues)
    requires q == Both([1], [0], [], Exec, Ready)
    ensures ExecReady(q, 0) == Both([1, 0], [], [], Ready, Ready)
  {
    assert Is(q, 0, Exec);
    assert Relabelled(q, 0, Ready) == map[0 := Proc(Ready, 0), 1 := Proc(Ready, 0)];
    assert [1] + [0] == [1, 0] && RemoveFirst([0], 0) == [];
  }

  lemma Started() returns (tr: seq<System>, y: System)
    ensures Trace(tr, STARTING) && tr[0] == Start() && tr[|STARTING|] == y
    ensures y == System(Both([1, 0], [], [], Ready, Ready), THREE[0 := FIRST])
  {
    var y1 := FirstDispatched();
    tr := [Start(), y1];
    var y2 := Sent(y1);
    Extend(tr, [Cycle(0, QUIET)], Cycle(0, QUIET), y2);
    tr := tr + [y2];
    var y3 := StartsAnother(y2);
    Extend(tr, [Cycle(0, QUIET)] + [Cycle(0, QUIET)], STARTS, y3);
    tr := tr + [y3];
    y := PutBack(y3);
    Extend(tr, [Cycle(0, QUIET)] + [Cycle(0, QUIET)] + [STARTS], LOCKED, y);
    tr := tr + [y];
  }

  /** Process 0 starts process 1 and is put back because READY is locked: it goes behind. */
  lemma PreemptedGoesBehind()
    ensures Inv(Start()) && Run(Start(), STARTING).q.ready == [1, 0]
  {
    var tr, y := Started();
    TraceIsRun(tr, STARTING);
  }

  // ---------- the order of SUSP. READY ----------

  /** What this CPU's thread does until its process waits for a device. */
  function BlockedOn(p: nat): Cpu {
    Cpu(QueueBlocked, Io, Some(p), true)
  }

  /** The queues when the head of READY has run and waits for a device. */
  function HeadBlocked(q: Queues, p: nat): Queues
    requires p in q.pcbs && q.ready != []
  {
    q.(ready := q.ready[1..], block := q.block + [p], pcbs := q.pcbs[p := q.pcbs[p].(state := Block)])
  }

  lemma TakesHead(y: System, i: nat, p: nat) returns (y': System)
    requires Inv(y) && i < |y.cpus| && y.cpus[i] == NEW_CPU && y.q.ready != [] && y.q.ready[0] == p && y.q.exec == []
    ensures Is(y.q, p, Ready) && Step(y, Cycle(i, QUIET)) == y'
    ensures y' == System(y.q.(ready := y.q.ready[1..], exec := [p], pcbs := Relabelled(y.q, p, Exec)),
                         y.cpus[i := Cpu(Sending, FirstCycle, Some(p), true)])
  {
    assert p in y.q.ready;
    assert [] + [p] == [p];
    y' := System(y.q.(ready := y.q.ready[1..], exec := [p], pcbs := Relabelled(y.q, p, Exec)),
                 y.cpus[i := Cpu(Sending, FirstCycle, Some(p), true)]);
  }

  lemma TellsCpu(y: System, i: nat, p: nat) returns (y': System)
    requires Inv(y) && i < |y.cpus| && y.cpus[i] == Cpu(Sending, FirstCycle, Some(p), true)
    ensures Step(y, Cycle(i, QUIET)) == y' && y' == y.(cpus := y.cpus[i := Cpu(Waiting, NoPreemption, Some(p), true)])
  {
    y' := y.(cpus := y.cpus[i := Cpu(Waiting, NoPreemption, Some(p), true)]);
  }

  lemma AsksForDevice(y: System, i: nat, p: nat) returns (y': System)
    requires Inv(y) && i < |y.cpus| && y.cpus[i] == Cpu(Waiting, NoPreemption, Some(p), true) && y.q.exec == [p]
    ensures Is(y.q, p, Exec) && Step(y, Cycle(i, IO)) == y'
    ensures y' == System(y.q.(exec := [], block := y.q.block + [p], pcbs := Relabelled(y.q, p, Block)),
                         y.cpus[i := BlockedOn(p)])
  {
    assert p in y.q.exec;
    assert RemoveFirst([p], p) == [];
    y' := System(y.q.(exec := [], block := y.q.block + [p], pcbs := Relabelled(y.q, p, Block)), y.cpus[i := BlockedOn(p)]);
  }

  /** A new CPU takes the head of READY, which then waits for a device. */
  lemma BlocksHead(tr: seq<System>, es: seq<Event>, i: nat, p: nat) returns (y: System, tr': seq<System>)
    requires Trace(tr, es) && i < |tr[|es|].cpus| && tr[|es|].cpus[i] == NEW_CPU
    requires tr[|es|].q.ready != [] && tr[|es|].q.ready[0] == p && tr[|es|].q.exec == []
    ensures Trace(tr', es + [Cycle(i, QUIET)] + [Cycle(i, QUIET)] + [Cycle(i, IO)])
    ensures |tr'| == |es| + 4 && tr'[0] == tr[0] && tr'[|es| + 3] == y && p in tr[|es|].q.pcbs
    ensures y == System(HeadBlocked(tr[|es|].q, p), tr[|es|].cpus[i := BlockedOn(p)])
  {
    var y0 := tr[|es|];
    var y1 := TakesHead(y0, i, p);
    Extend(tr, es, Cycle(i, QUIET), y1);
    var y2 := TellsCpu(y1, i, p);
    Extend(tr + [y1], es + [Cycle(i, QUIET)], Cycle(i, QUIET), y2);
    y := AsksForDevice(y2, i, p);
    Extend(tr + [y1] + [y2], es + [Cycle(i, QUIET)] + [Cycle(i, QUIET)], Cycle(i, IO), y);
    tr' := tr + [y1] + [y2] + [y];
    SameBlocked(y0, y1.q, y.q, p);
  }

  lemma SameBlocked(y0: System, q1: Queues, q: Queues, p: nat)
    requires p in y0.q.pcbs && y0.q.ready != [] && y0.q.exec == []
    requires q1 == y0.q.(ready := y0.q.ready[1..], exec := [p], pcbs := Relabelled(y0.q, p, Exec))
    requires q == q1.(exec := [], block := q1.block + [p], pcbs := Relabelled(q1, p, Block))
    ensures q == HeadBlocked(y0.q, p)
  {
    assert q.pcbs == HeadBlocked(y0.q, p).pcbs;
  }

  const ONE_BLOCKED: seq<Event> := STARTING + [Cycle(1, QUIET)] + [Cycle(1, QUIET)] + [Cycle(1, IO)]
  const BOTH_BLOCKED: seq<Event> := ONE_BLOCKED + [Cycle(2, QUIET)] + [Cycle(2, QUIET)] + [Cycle(2, IO)]

  /** Process 1 waits for a device first and process 0 next; process 1 is suspended before process 0,
      and what it waits for happens first. */
  const SUSPENDING: seq<Event> := BOTH_BLOCKED + [Suspend(1, true)] + [Suspend(0, true)] + [Wake(1)] + [Wake(0)]

  /** The queues with both processes out of READY and EXEC. */
  function Away(block: seq<nat>, suspBlock: seq<nat>, suspReady: seq<nat>, zero: ProcState, one: ProcState): Queues {
    Queues([], [], block, suspBlock, suspReady, map[0 := Proc(zero, 0), 1 := Proc(one, 0)], 2, 2, false)
  }

  lemma BothBlocked() returns (tr: seq<System>)
    ensures Trace(tr, BOTH_BLOCKED) && tr[0] == Start() && tr[|BOTH_BLOCKED|].q == Away([1, 0], [], [], Block, Block)
  {
    var tr0, y0 := Started();
    var y1, tr1 := BlocksHead(tr0, STARTING, 1, 1);
    var y2;
    y2, tr := BlocksHead(tr1, ONE_BLOCKED, 2, 0) by { assert [1, 0][1..] == [0]; }
    TwiceBlocked(y0.q, y1.q, y2.q);
  }

  lemma TwiceBlocked(q0: Queues, q1: Queues, q2: Queues)
    requires q0 == Both([1, 0], [], [], Ready, Ready) && q1 == HeadBlocked(q0, 1)
    requires 0 in q1.pcbs && q1.ready != [] && q2 == HeadBlocked(q1, 0)
    ensures q2 == Away([1, 0], [], [], Block, Block)
  {
    assert ([] + [1]) + [0] == [1, 0] && [1, 0][1..][1..] == [];
    assert q2.pcbs == map[0 := Proc(Block, 0), 1 := Proc(Block, 0)];
  }

  lemma Relabels(q: Queues, a: ProcState, b: ProcState, st: ProcState)
    requires q.pcbs == map[0 := Proc(a, 0), 1 := Proc(b, 0)]
    ensures Relabelled(q, 0, st) == map[0 := Proc(st, 0), 1 := Proc(b, 0)]
    ensures Relabelled(q, 1, st) == map[0 := Proc(a, 0), 1 := Proc(st, 0)]
  {
  }

  /** Among equals the newcomer goes first. */
  lemma GoesBefore(q: Queues)
    requires q.pcbs.Keys == {0, 1} && q.pcbs[0].priority == q.pcbs[1].priority
    ensures RemoveFirst([0], 0) == [] && InsertSorted(q, [1], 0) == [0, 1]
  {
  }

  lemma OneSuspended(y: System) returns (y': System)
    requires Inv(y) && y.q == Away([1, 0], [], [], Block, Block)
    ensures Step(y, Suspend(1, true)) == y' && y'.q == Away([0], [1], [], Block, SuspBlock)
  {
    SuspendsOne(y.q);
    y' := y.(q := Away([0], [1], [], Block, SuspBlock));
  }

  lemma SuspendsOne(q: Queues)
    requires q == Away([1, 0], [], [], Block, Block)
    ensures BlockSuspBlock(q, 1, true) == Away([0], [1], [], Block, SuspBlock)
  {
    assert RemoveFirst([1, 0], 1) == [0];
    assert InsertSorted(q, [], 1) == [1];
    Relabels(q, Block, Block, SuspBlock);
  }

  lemma TwoSuspended(y: System) returns (y': System)
    requires Inv(y) && y.q == Away([0], [1], [], Block, SuspBlock)
    ensures Step(y, Suspend(0, true)) == y' && y'.q == Away([], [0, 1], [], SuspBlock, SuspBlock)
  {
    SuspendsZero(y.q);
    y' := y.(q := Away([], [0, 1], [], SuspBlock, SuspBlock));
  }

  lemma SuspendsZero(q: Queues)
    requires q == Away([0], [1], [], Block, SuspBlock)
    ensures BlockSuspBlock(q, 0, true) == Away([], [0, 1], [], SuspBlock, SuspBlock)
  {
    GoesBefore(q);
    Relabels(q, Block, SuspBlock, SuspBlock);
  }

  lemma OneWoken(y: System) returns (y': System)
    requires Inv(y) && y.q == Away([], [0, 1], [], SuspBlock, SuspBlock)
    ensures Step(y, Wake(1)) == y' && y'.q == Away([], [0], [1], SuspBlock, SuspReady)
  {
    WakesOne(y.q);
    y' := y.(q := Away([], [0], [1], SuspBlock, SuspReady));
  }

  lemma WakesOne(q: Queues)
    requires q == Away([], [0, 1], [], SuspBlock, SuspBlock)
    ensures Unlock(q, 1) == Away([], [0], [1], SuspBlock, SuspReady)
  {
    assert IndexOf([0, 1], 1) == 1 by { assert [0, 1][1..] == [1]; }
    assert RemoveFirst([0, 1], 1) == [0];
    assert InsertSorted(q, [], 1) == [1];
    Relabels(q, SuspBlock, SuspBlock, SuspReady);
  }

  lemma TwoWoken(y: System) returns (y': System)
    requires Inv(y) && y.q == Away([], [0], [1], SuspBlock, SuspReady)
    ensures Step(y, Wake(0)) == y' && y'.q == Away([], [], [0, 1], SuspReady, SuspReady)
  {
    WakesZero(y.q);
    y' := y.(q := Away([], [], [0, 1], SuspReady, SuspReady));
  }

  lemma WakesZero(q: Queues)
    requires q == Away([], [0], [1], SuspBlock, SuspReady)
    ensures Unlock(q, 0) == Away([], [], [0, 1], SuspReady, SuspReady)
  {
    GoesBefore(q);
    Relabels(q, SuspBlock, SuspReady, SuspReady);
  }

  /** With the same priority, process 1 was suspended first, and process 0 stands before it. */
  lemma LaterSuspendedIsFirst()
    ensures Inv(Start())
    ensures var q := Run(Start(), SUSPENDING).q;
            && q.suspReady == [0, 1] && q.pcbs == map[0 := Proc(SuspReady, 0), 1 := Proc(SuspReady, 0)]
            && !LongestFirst(q.suspReady, PriorityOf(q.pcbs), map[1 := 1, 0 := 2])
  {
    var tr := BothBlocked();
    var y1 := OneSuspended(tr[|BOTH_BLOCKED|]);
    Extend(tr, BOTH_BLOCKED, Suspend(1, true), y1);
    var y2 := TwoSuspended(y1);
    Extend(tr + [y1], BOTH_BLOCKED + [Suspend(1, true)], Suspend(0, true), y2);
    var y3 := OneWoken(y2);
    Extend(tr + [y1] + [y2], BOTH_BLOCKED + [Suspend(1, true)] + [Suspend(0, true)], Wake(1), y3);
    var y4 := TwoWoken(y3);
    Extend(tr + [y1] + [y2] + [y3], BOTH_BLOCKED + [Suspend(1, true)] + [Suspend(0, true)] + [Wake(1)], Wake(0), y4);
    TraceIsRun(tr + [y1] + [y2] + [y3] + [y4], SUSPENDING);
    WrongOrder(y4.q);
  }

  lemma WrongOrder(q: Queues)
    requires q == Away([], [], [0, 1], SuspReady, SuspReady)
    ensures !LongestFirst(q.suspReady, PriorityOf(q.pcbs), map[1 := 1, 0 := 2])
  {
    var l := q.suspReady;
    assert l[0] == 0 && l[1] == 1;
  }
}
