/** The scheduler over every run: any number of CPU threads, the suspender, the resumer and the
    devices interleave, whatever the CPUs request and Kernel Memory answers. */
module SchedulerRuns {
  import opened Options
  import opened PriorityLists
  import opened ProcessQueues
  import opened QueueLaws
  import opened CpuThreads

  datatype System = System(q: Queues, cpus: seq<Cpu>)

  datatype Event =
    | Cycle(cpu: nat, inputs: Inputs)
    | Wake(pid: nat)
    | Suspend(pid: nat, accepted: bool)
    | Resume(pid: nat, fits: bool, accepted: bool)

  // ---------- the invariant ----------

  /** What a thread knows about itself in each phase. */
  ghost predicate CpuOk(c: Cpu) {
    match c.phase
    case LoopHead => c.reason != HigherPriorityProcess && (c.reason == NoPreemption ==> c.pcb.Some?)
    case Sending => c.reason != HigherPriorityProcess && c.pcb.Some?
    case Waiting => c.reason == NoPreemption && c.pcb.Some?
    case QueueBlocked => c.reason != HigherPriorityProcess && c.pcb.Some?
    case EndQuantum => c.reason != HigherPriorityProcess && c.pcb.Some?
    case Preemption => c.reason != HigherPriorityProcess && c.pcb.Some?
    case Announcing => c.pcb.Some?
    case Resending => c.reason == HigherPriorityProcess && c.pcb.Some?
    case Closed(_) => true
  }

  /** No process is owned by two threads. */
  ghost predicate OneOwner(cpus: seq<Cpu>) {
    forall i, j :: 0 <= i < |cpus| && 0 <= j < |cpus| && i != j && Owned(cpus[i]).Some? ==>
      Owned(cpus[i]) != Owned(cpus[j])
  }

  /** A thread's process is in EXEC. */
  ghost predicate OwnsInExec(q: Queues, cpus: seq<Cpu>) {
    forall i {:trigger cpus[i]} :: 0 <= i < |cpus| && Owned(cpus[i]).Some? ==> Is(q, Owned(cpus[i]).value, Exec)
  }

  ghost predicate HasOwner(cpus: seq<Cpu>, p: nat) {
    exists i :: 0 <= i < |cpus| && Owned(cpus[i]) == Some(p)
  }

  /** Everything in EXEC has an owner. */
  ghost predicate ExecOwned(q: Queues, cpus: seq<Cpu>) {
    forall p: nat {:trigger HasOwner(cpus, p)} :: Is(q, p, Exec) ==> HasOwner(cpus, p)
  }

  ghost predicate Inv(y: System) {
    && Consistent(y.q)
    && (forall i :: 0 <= i < |y.cpus| ==> CpuOk(y.cpus[i]))
    && OneOwner(y.cpus) && OwnsInExec(y.q, y.cpus) && ExecOwned(y.q, y.cpus)
    && (y.q.ended <==> y.q.pcbs == map[])
  }

  // ---------- steps ----------

  function Step(y: System, e: Event): System
    requires Consistent(y.q)
  {
    match e
    case Cycle(i, inp) =>
      if i < |y.cpus| then
        assert y.q.ready != [] ==> y.q.ready[0] in y.q.ready;
        var r := CpuStep(y.q, y.cpus[i], inp);
        System(r.0, y.cpus[i := r.1])
      else y
    case Wake(pid) => y.(q := Unlock(y.q, pid))
    case Suspend(pid, accepted) => y.(q := BlockSuspBlock(y.q, pid, accepted))
    case Resume(pid, fits, accepted) => y.(q := SuspReadyReady(y.q, pid, fits, accepted))
  }

  // ---------- what a thread's step does to EXEC ----------

  /** The processes in EXEC before and after differ only in what this thread gave up and took. */
  ghost predicate Exchanges(q: Queues, q': Queues, was: Option<nat>, now: Option<nat>) {
    && (forall p: nat {:trigger Is(q', p, Exec)} :: Is(q', p, Exec) <==> now == Some(p) || (Is(q, p, Exec) && was != Some(p)))
    && (now.Some? && now != was ==> !Is(q, now.value, Exec))
  }

  /** The end of the system is reported exactly when the last process goes. */
  ghost predicate EndsProperly(q: Queues, q': Queues) {
    (q.ended <==> q.pcbs == map[]) ==> (q'.ended <==> q'.pcbs == map[])
  }

  ghost predicate GoodStep(q: Queues, c: Cpu, r: (Queues, Cpu)) {
    && Consistent(r.0) && CpuOk(r.1)
    && Exchanges(q, r.0, Owned(c), Owned(r.1))
    && EndsProperly(q, r.0)
  }

  lemma ExecReadyMoves(q: Queues, p: nat)
    requires Consistent(q) && Is(q, p, Exec)
    ensures Consistent(ExecReady(q, p)) && Exchanges(q, ExecReady(q, p), Some(p), None)
    ensures EndsProperly(q, ExecReady(q, p))
  {
    ExecReadyKeeps(q, p);
    assert p in ExecReady(q, p).pcbs;
  }

  lemma ExecBlockMoves(q: Queues, p: nat)
    requires Consistent(q) && Is(q, p, Exec)
    ensures Consistent(ExecBlock(q, p)) && Exchanges(q, ExecBlock(q, p), Some(p), None)
    ensures EndsProperly(q, ExecBlock(q, p))
  {
    ExecBlockKeeps(q, p);
    assert p in ExecBlock(q, p).pcbs;
  }

  lemma ExecExitMoves(q: Queues, p: nat)
    requires Consistent(q) && Is(q, p, Exec)
    ensures Consistent(ExecExit(q, p)) && Exchanges(q, ExecExit(q, p), Some(p), None)
    ensures EndsProperly(q, ExecExit(q, p))
  {
    ExecExitKeeps(q, p);
    var r := ExecExit(q, p);
    assert q.count == 1 <==> r.pcbs == map[] by {
      assert r.pcbs == map[] <==> |r.pcbs| == 0;
    }
  }

  lemma DispatchMoves(q: Queues)
    requires Consistent(q) && q.ready != []
    ensures q.ready[0] in q.pcbs && Consistent(Dispatch(q)) && Exchanges(q, Dispatch(q), None, Some(q.ready[0]))
    ensures EndsProperly(q, Dispatch(q))
  {
    DispatchKeeps(q);
    assert q.ready[0] in q.ready;
    assert q.ready[0] in Dispatch(q).pcbs;
  }

  /** A preemption is the same as a dispatch followed by putting the old process back. */
  lemma SwapIsDispatchAndReturn(q: Queues, p: nat)
    requires Consistent(q) && q.ready != [] && Is(q, p, Exec)
    ensures q.ready[0] in q.pcbs && q.ready[0] != p
    ensures ExecReady(Dispatch(q), p) == Swap(q, p)
  {
    var n := q.ready[0];
    assert n in q.ready && p in q.exec;
    AppendThenRemove(q.exec, n, p);
    assert q.pcbs[n := q.pcbs[n].(state := Exec)][p := q.pcbs[p].(state := Ready)]
        == q.pcbs[p := q.pcbs[p].(state := Ready)][n := q.pcbs[n].(state := Exec)];
  }

  lemma {:induction false} AppendedIndex(l: seq<nat>, n: nat, p: nat)
    requires p in l
    ensures IndexOf(l + [n], p) == IndexOf(l, p)
  {
    if l[0] != p {
      assert (l + [n])[1..] == l[1..] + [n];
      AppendedIndex(l[1..], n, p);
    }
  }

  lemma AppendThenRemove(l: seq<nat>, n: nat, p: nat)
    requires p in l
    ensures RemoveFirst(l + [n], p) == RemoveFirst(l, p) + [n]
  {
    AppendedIndex(l, n, p);
    DropBeforeAppended(l, n, IndexOf(l, p));
  }

  lemma DropBeforeAppended(l: seq<nat>, n: nat, i: nat)
    requires i < |l|
    ensures (l + [n])[..i] + (l + [n])[i + 1..] == l[..i] + l[i + 1..] + [n]
  {
  }

  lemma SwapMoves(q: Queues, p: nat)
    requires Consistent(q) && q.ready != [] && Is(q, p, Exec)
    ensures Consistent(Swap(q, p)) && Exchanges(q, Swap(q, p), Some(p), Some(q.ready[0]))
    ensures EndsProperly(q, Swap(q, p))
  {
    SwapIsDispatchAndReturn(q, p);
    DispatchMoves(q);
    assert Is(Dispatch(q), p, Exec);
    ExecReadyMoves(Dispatch(q), p);
  }

  lemma UnlockMoves(q: Queues, p: nat)
    requires Consistent(q)
    ensures Consistent(Unlock(q, p)) && Exchanges(q, Unlock(q, p), None, None) && EndsProperly(q, Unlock(q, p))
  {
    UnlockKeeps(q, p);
    assert Unlock(q, p).pcbs.Keys == q.pcbs.Keys;
    assert q.pcbs == map[] <==> q.pcbs.Keys == {};
    assert Unlock(q, p).pcbs == map[] <==> Unlock(q, p).pcbs.Keys == {};
  }

  /** A new process does not disturb EXEC, and does not end a system with a running process. */
  lemma NewReadyMoves(q: Queues, p: nat, priority: int, accepted: bool, valid: bool)
    requires Consistent(q) && Is(q, p, Exec)
    ensures var r := NewReady(q, priority, accepted, valid);
            Consistent(r) && Exchanges(q, r, None, None) && EndsProperly(q, r)
  {
    NewReadyKeeps(q, priority, accepted, valid);
    if !(accepted && valid) { RefusedLeavesNothing(q, priority, accepted, valid); }
    assert p in NewReady(q, priority, accepted, valid).pcbs;
    assert q.pcbs != map[];
    assert |q.pcbs| != 0;
  }

  lemma CloseMoves(q: Queues, c: Cpu)
    requires Consistent(q) && (Owned(c).Some? ==> Is(q, Owned(c).value, Exec))
    requires c.reason == HigherPriorityProcess && c.pcb.Some? ==> Owned(c) == c.pcb
    ensures GoodStep(q, c, Close(q, c))
  {
    if c.reason == HigherPriorityProcess && c.pcb.Some? {
      ExecReadyMoves(q, c.pcb.value);
    }
  }

  /** The process was moved out of EXEC and the thread knows it. */
  lemma LeftExec(q: Queues, c: Cpu, p: nat, q': Queues, reason: Reason)
    requires CpuOk(c) && c.phase == Waiting && c.pcb == Some(p)
    requires Consistent(q') && Exchanges(q, q', Some(p), None) && EndsProperly(q, q')
    requires reason != NoPreemption && reason != HigherPriorityProcess
    ensures GoodStep(q, c, (q', c.(phase := QueueBlocked, reason := reason)))
  {
  }

  /** The process goes on running. */
  lemma StaysInExec(q: Queues, c: Cpu, p: nat, q': Queues, keepRunning: bool)
    requires CpuOk(c) && c.phase == Waiting && c.pcb == Some(p) && Is(q, p, Exec)
    requires Consistent(q') && Exchanges(q, q', None, None) && EndsProperly(q, q')
    ensures GoodStep(q, c, (q', c.(phase := QueueBlocked, keepRunning := keepRunning)))
  {
  }

  /** A handler that takes the process off its CPU blocks it or ends it. */
  lemma LeavesHow(q: Queues, c: Cpu, p: nat, r: Request)
    requires SuspendedKnown(q) && c.reason == NoPreemption
    requires Handle(q, c, p, r).1.reason != NoPreemption
    ensures var h := Handle(q, c, p, r);
            && h.1 == c.(phase := QueueBlocked, reason := h.1.reason) && h.1.reason != HigherPriorityProcess
            && (h.0 == ExecBlock(q, p) || h.0 == ExecExit(q, p))
  {
  }

  lemma HandleLeaves(q: Queues, c: Cpu, p: nat, r: Request)
    requires Consistent(q) && CpuOk(c) && c.phase == Waiting && c.pcb == Some(p) && Is(q, p, Exec)
    requires Handle(q, c, p, r).1.reason != NoPreemption
    ensures GoodStep(q, c, Handle(q, c, p, r))
  {
    var h := Handle(q, c, p, r);
    LeavesHow(q, c, p, r);
    if h.0 == ExecBlock(q, p) { ExecBlockMoves(q, p); } else { ExecExitMoves(q, p); }
    LeftExec(q, c, p, h.0, h.1.reason);
  }

  lemma HandleStays(q: Queues, c: Cpu, p: nat, r: Request)
    requires Consistent(q) && CpuOk(c) && c.phase == Waiting && c.pcb == Some(p) && Is(q, p, Exec)
    requires Handle(q, c, p, r).1.reason == NoPreemption
    ensures GoodStep(q, c, Handle(q, c, p, r))
  {
    var h := Handle(q, c, p, r);
    assert h.1 == c.(phase := QueueBlocked, keepRunning := h.1.keepRunning);
    match r {
      case MutexUnlock(Released(heir)) => if heir.Some? { UnlockMoves(q, heir.value); }
      case StartProcess(priority, accepted, valid) => NewReadyMoves(q, p, priority, accepted, valid);
      case _ =>
    }
    StaysInExec(q, c, p, h.0, h.1.keepRunning);
  }

  lemma HandleMoves(q: Queues, c: Cpu, p: nat, r: Request)
    requires Consistent(q) && CpuOk(c) && c.phase == Waiting && c.pcb == Some(p) && Is(q, p, Exec)
    ensures GoodStep(q, c, Handle(q, c, p, r))
  {
    if Handle(q, c, p, r).1.reason == NoPreemption {
      HandleStays(q, c, p, r);
    } else {
      HandleLeaves(q, c, p, r);
    }
  }

  lemma RequestMoves(q: Queues, c: Cpu, inp: Inputs)
    requires Consistent(q) && CpuOk(c) && c.phase == LoopHead && (Owned(c).Some? ==> Is(q, Owned(c).value, Exec))
    ensures (q.ready != [] ==> q.ready[0] in q.pcbs) && GoodStep(q, c, RequestProcess(q, c, inp))
  {
    if q.ready != [] { DispatchMoves(q); }
    CloseMoves(q, c.(pcb := None));
  }

  lemma ManageMoves(q: Queues, c: Cpu, yes: bool)
    requires Consistent(q) && CpuOk(c) && (Owned(c).Some? ==> Is(q, Owned(c).value, Exec))
    ensures c.phase == QueueBlocked ==> GoodStep(q, c, ManageQueueBlocked(q, c, yes))
    ensures c.phase == EndQuantum ==> GoodStep(q, c, ManageEndQuantum(q, c, yes))
  {
    if (c.phase == QueueBlocked || c.phase == EndQuantum) && c.reason == NoPreemption {
      ExecReadyMoves(q, c.pcb.value);
    }
  }

  lemma PreemptionMoves(q: Queues, c: Cpu, outranked: bool)
    requires Consistent(q) && CpuOk(c) && c.phase == Preemption && (Owned(c).Some? ==> Is(q, Owned(c).value, Exec))
    ensures GoodStep(q, c, ManagePreemptionPriority(q, c, outranked))
  {
    if c.reason == NoPreemption && outranked && q.ready != [] {
      Preempted(q, c);
    } else {
      NothingMoves(q, c, Announcing);
    }
  }

  lemma Preempted(q: Queues, c: Cpu)
    requires Consistent(q) && CpuOk(c) && c.phase == Preemption && c.reason == NoPreemption && q.ready != []
    requires Is(q, c.pcb.value, Exec)
    ensures GoodStep(q, c, (Swap(q, c.pcb.value), c.(phase := Announcing, reason := HigherPriorityProcess, pcb := Some(q.ready[0]))))
  {
    SwapMoves(q, c.pcb.value);
  }

  /** A phase that leaves the queues alone. */
  lemma NothingMoves(q: Queues, c: Cpu, next: Phase)
    requires Consistent(q) && CpuOk(c.(phase := next)) && Owned(c.(phase := next)) == Owned(c)
    requires Owned(c).Some? ==> Is(q, Owned(c).value, Exec)
    ensures GoodStep(q, c, (q, c.(phase := next)))
  {
  }

  lemma SendMoves(q: Queues, c: Cpu, sent: bool, next: Phase)
    requires Consistent(q) && CpuOk(c) && (Owned(c).Some? ==> Is(q, Owned(c).value, Exec))
    requires (c.phase == Sending && next == Waiting) || (c.phase == Resending && next == LoopHead)
    ensures GoodStep(q, c, SendPid(q, c, sent, next))
  {
    if c.reason != NoPreemption && !sent { CloseMoves(q, c); }
  }

  lemma AnnounceMoves(q: Queues, c: Cpu, sent: bool)
    requires Consistent(q) && CpuOk(c) && c.phase == Announcing && (Owned(c).Some? ==> Is(q, Owned(c).value, Exec))
    ensures GoodStep(q, c, Announce(q, c, sent))
  {
    if !sent {
      CloseMoves(q, c);
    } else {
      NothingMoves(q, c, if c.reason == HigherPriorityProcess then Resending else LoopHead);
    }
  }

  lemma CpuStepMoves(q: Queues, c: Cpu, inp: Inputs)
    requires Consistent(q) && CpuOk(c) && (Owned(c).Some? ==> Is(q, Owned(c).value, Exec))
    ensures (q.ready != [] ==> q.ready[0] in q.pcbs) && GoodStep(q, c, CpuStep(q, c, inp))
  {
    assert q.ready != [] ==> q.ready[0] in q.ready;
    match c.phase {
      case LoopHead => if c.keepRunning { RequestMoves(q, c, inp); } else { CloseMoves(q, c); }
      case Waiting => HandleMoves(q, c, c.pcb.value, inp.request);
      case QueueBlocked => ManageMoves(q, c, inp.readyLocked);
      case EndQuantum => ManageMoves(q, c, inp.quantumEnded);
      case Preemption => PreemptionMoves(q, c, inp.outranked);
      case Sending => SendMoves(q, c, inp.sent, Waiting);
      case Resending => SendMoves(q, c, inp.sent, LoopHead);
      case Announcing => AnnounceMoves(q, c, inp.sent);
      case Closed(_) =>
    }
  }

  /** One thread and the queues, as every step finds them. */
  ghost predicate Fit(r: (Queues, Cpu)) {
    Consistent(r.0) && CpuOk(r.1) && (Owned(r.1).Some? ==> Is(r.0, Owned(r.1).value, Exec))
  }

  /** The first k phases of one thread that nobody interrupts. */
  ghost function Phases(r: (Queues, Cpu), ins: seq<Inputs>, k: nat): (r': (Queues, Cpu))
    requires Fit(r) && k <= |ins|
    ensures Fit(r')
  {
    if k == 0 then r
    else
      var s := Phases(r, ins, k - 1);
      CpuStepMoves(s.0, s.1, ins[k - 1]);
      CpuStep(s.0, s.1, ins[k - 1])
  }

  // ---------- every run ----------

  lemma CycleKeeps(y: System, i: nat, inp: Inputs)
    requires Inv(y) && i < |y.cpus|
    ensures Inv(Step(y, Cycle(i, inp)))
  {
    var c := y.cpus[i];
    CpuStepMoves(y.q, c, inp);
    var r := CpuStep(y.q, c, inp);
    OwnersAfter(y.q, y.cpus, i, r.0, r.1);
  }

  lemma OwnersAfter(q: Queues, cpus: seq<Cpu>, i: nat, q': Queues, c': Cpu)
    requires i < |cpus| && OneOwner(cpus) && OwnsInExec(q, cpus) && ExecOwned(q, cpus)
    requires Exchanges(q, q', Owned(cpus[i]), Owned(c'))
    ensures OneOwner(cpus[i := c']) && OwnsInExec(q', cpus[i := c']) && ExecOwned(q', cpus[i := c'])
  {
    var cpus' := cpus[i := c'];
    forall k | 0 <= k < |cpus'| && Owned(cpus'[k]).Some? ensures Is(q', Owned(cpus'[k]).value, Exec) {
      if k != i { assert cpus'[k] == cpus[k]; }
    }
    forall p: nat | Is(q', p, Exec) ensures HasOwner(cpus', p) {
      if Owned(c') == Some(p) {
        assert cpus'[i] == c';
      } else {
        assert HasOwner(cpus, p);
        var k :| 0 <= k < |cpus| && Owned(cpus[k]) == Some(p);
        assert cpus'[k] == cpus[k];
      }
    }
    forall a, b | 0 <= a < |cpus'| && 0 <= b < |cpus'| && a != b && Owned(cpus'[a]).Some?
      ensures Owned(cpus'[a]) != Owned(cpus'[b])
    {
      var k := if a == i then b else a;
      assert cpus'[k] == cpus[k];
    }
  }

  lemma QueueStepKeeps(y: System, q': Queues)
    requires Inv(y) && Consistent(q') && Exchanges(y.q, q', None, None) && EndsProperly(y.q, q')
    ensures Inv(y.(q := q'))
  {
  }

  lemma SameKeysEndProperly(q: Queues, q': Queues)
    requires q'.pcbs.Keys == q.pcbs.Keys && q'.ended == q.ended
    ensures EndsProperly(q, q')
  {
    assert q.pcbs == map[] <==> q.pcbs.Keys == {};
    assert q'.pcbs == map[] <==> q'.pcbs.Keys == {};
  }

  /** Every event keeps the invariant. */
  lemma StepKeeps(y: System, e: Event)
    requires Inv(y)
    ensures Inv(Step(y, e))
  {
    match e {
      case Cycle(i, inp) => if i < |y.cpus| { CycleKeeps(y, i, inp); }
      case Wake(pid) =>
        UnlockMoves(y.q, pid);
        QueueStepKeeps(y, Unlock(y.q, pid));
      case Suspend(pid, accepted) =>
        BlockSuspBlockKeeps(y.q, pid, accepted);
        SameKeysEndProperly(y.q, BlockSuspBlock(y.q, pid, accepted));
        QueueStepKeeps(y, BlockSuspBlock(y.q, pid, accepted));
      case Resume(pid, fits, accepted) =>
        SuspReadyReadyKeeps(y.q, pid, fits, accepted);
        SameKeysEndProperly(y.q, SuspReadyReady(y.q, pid, fits, accepted));
        QueueStepKeeps(y, SuspReadyReady(y.q, pid, fits, accepted));
    }
  }

  /** The scheduler after it created its first process, with n CPUs connected. */
  function Boot(n: nat, priority: int, accepted: bool, valid: bool): System {
    System(NewReady(NO_QUEUES, priority, accepted, valid), seq(n, _ => NEW_CPU))
  }

  lemma BootIsGood(n: nat, priority: int, accepted: bool, valid: bool)
    ensures Inv(Boot(n, priority, accepted, valid))
  {
    EmptyIsConsistent();
    NewReadyKeeps(NO_QUEUES, priority, accepted, valid);
    if accepted && valid {
      assert 0 in Boot(n, priority, accepted, valid).q.pcbs;
    } else {
      RefusedLeavesNothing(NO_QUEUES, priority, accepted, valid);
    }
  }

  function Run(y: System, es: seq<Event>): System
    requires Inv(y)
    ensures Inv(Run(y, es))
    decreases |es|
  {
    if es == [] then y
    else
      StepKeeps(y, es[0]);
      Run(Step(y, es[0]), es[1..])
  }

  /** In every reachable state, each live process is in exactly one of the five lists, exactly once,
      and that list is the one its state names; the counter counts the live processes; and the end
      of the system has been reported exactly when none is left. */
  lemma EveryRunIsConsistent(n: nat, priority: int, accepted: bool, valid: bool, es: seq<Event>)
    ensures Inv(Boot(n, priority, accepted, valid))
    ensures var q := Run(Boot(n, priority, accepted, valid), es).q;
            && (forall p :: p in q.pcbs ==> multiset(ListOf(q, q.pcbs[p].state))[p] == 1)
            && (forall p, st :: p in ListOf(q, st) ==> Is(q, p, st))
            && q.count == |q.pcbs| && (q.ended <==> q.pcbs == map[])
  {
    BootIsGood(n, priority, accepted, valid);
    OneListEach(Run(Boot(n, priority, accepted, valid), es).q);
  }

  lemma OneListEach(q: Queues)
    requires Consistent(q)
    ensures forall p :: p in q.pcbs ==> multiset(ListOf(q, q.pcbs[p].state))[p] == 1
    ensures forall p, st :: p in ListOf(q, st) ==> Is(q, p, st)
  {
    forall p | p in q.pcbs ensures multiset(ListOf(q, q.pcbs[p].state))[p] == 1 {
      InExactlyOneList(q, p);
    }
  }

  /** In every reachable state, no process is owned by two threads, EXEC is exactly what the threads
      own, and a thread at the head of its loop owns its process if and only if its reason is
      NoPreemption. */
  lemma NoProcessRunsTwice(n: nat, priority: int, accepted: bool, valid: bool, es: seq<Event>)
    ensures Inv(Boot(n, priority, accepted, valid))
    ensures var y := Run(Boot(n, priority, accepted, valid), es);
            && OneOwner(y.cpus)
            && (forall p :: p in y.q.exec <==> HasOwner(y.cpus, p))
            && (forall i :: 0 <= i < |y.cpus| && y.cpus[i].phase == LoopHead ==>
                  if y.cpus[i].reason == NoPreemption
                  then y.cpus[i].pcb.Some? && Is(y.q, y.cpus[i].pcb.value, Exec)
                  else Owned(y.cpus[i]).None?)
  {
    BootIsGood(n, priority, accepted, valid);
    var y := Run(Boot(n, priority, accepted, valid), es);
    forall p ensures p in y.q.exec <==> HasOwner(y.cpus, p) {
      assert p in y.q.exec <==> Is(y.q, p, Exec);
      if HasOwner(y.cpus, p) {
        var i :| 0 <= i < |y.cpus| && Owned(y.cpus[i]) == Some(p);
        assert Is(y.q, Owned(y.cpus[i]).value, Exec);
      }
    }
  }

  // ---------- rejected transitions ----------

  lemma RemovalShortens(l: seq<nat>, p: nat)
    requires p in l
    ensures RemoveFirst(l, p) != l
  {
    assert |RemoveFirst(l, p)| == |l| - 1;
  }

  /** A transition takes effect if and only if the process is in the state it starts from and Kernel
      Memory agrees; otherwise nothing at all changes. */
  lemma TransitionsTakeEffectIff(q: Queues, p: nat, fits: bool, accepted: bool)
    requires Consistent(q)
    ensures ExecReady(q, p) != q <==> Is(q, p, Exec)
    ensures ExecExit(q, p) != q <==> Is(q, p, Exec)
    ensures ExecBlock(q, p) != q <==> Is(q, p, Exec)
    ensures BlockSuspBlock(q, p, accepted) != q <==> Is(q, p, Block) && accepted
    ensures SuspReadyReady(q, p, fits, accepted) != q <==> Is(q, p, SuspReady) && fits && accepted
    ensures Unlock(q, p) != q <==> Is(q, p, Block) || Is(q, p, SuspBlock)
  {
    if Is(q, p, Exec) { RemovalShortens(q.exec, p); }
    if Is(q, p, Block) { RemovalShortens(q.block, p); }
    if Is(q, p, SuspBlock) { RemovalShortens(q.suspBlock, p); }
    if Is(q, p, SuspReady) { RemovalShortens(q.suspReady, p); }
  }

  // ---------- processes left behind ----------

  lemma CloseLeaves(q: Queues, c: Cpu)
    requires CpuOk(c) && (c.reason == HigherPriorityProcess ==> c.pcb.Some?)
    ensures Close(q, c).1.phase == Closed(if c.reason == HigherPriorityProcess then None else Owned(c))
  {
  }

  lemma StepClosesByClose(q: Queues, c: Cpu, inp: Inputs)
    requires SuspendedKnown(q) && (q.ready != [] ==> q.ready[0] in q.pcbs) && CpuOk(c) && !c.phase.Closed?
    requires CpuStep(q, c, inp).1.phase.Closed?
    ensures CpuStep(q, c, inp) == Close(q, c) || (c.phase == LoopHead && CpuStep(q, c, inp) == Close(q, c.(pcb := None)))
    ensures CpuStep(q, c, inp) != Close(q, c) ==> c.reason != NoPreemption
  {
  }

  /** A thread that closes leaves its process in EXEC, unless it had just preempted it in. */
  lemma ClosingAbandonsIff(y: System, i: nat, inp: Inputs)
    requires Inv(y) && i < |y.cpus| && !y.cpus[i].phase.Closed?
    requires Step(y, Cycle(i, inp)).cpus[i].phase.Closed?
    ensures Step(y, Cycle(i, inp)).cpus[i].phase.left
            == if y.cpus[i].reason == HigherPriorityProcess then None else Owned(y.cpus[i])
  {
    var q, c := y.q, y.cpus[i];
    assert CpuOk(c);
    assert q.ready != [] ==> q.ready[0] in q.ready;
    StepClosesByClose(q, c, inp);
    CloseLeaves(q, c);
    if c.phase == LoopHead { CloseLeaves(q, c.(pcb := if c.reason == NoPreemption then c.pcb else None)); }
  }

  lemma OtherStepsLeave(y: System, e: Event, i: nat, p: nat)
    requires Inv(y) && i < |y.cpus| && y.cpus[i].phase == Closed(Some(p))
    ensures |Step(y, e).cpus| == |y.cpus| && Step(y, e).cpus[i] == y.cpus[i]
  {
  }

  /** A process left behind stays in EXEC for ever: it never runs again, and the system never
      reports that all processes have finished. */
  lemma {:induction false} AbandonedForever(y: System, es: seq<Event>, i: nat, p: nat)
    requires Inv(y) && i < |y.cpus| && y.cpus[i].phase == Closed(Some(p))
    ensures var r := Run(y, es);
            && i < |r.cpus| && r.cpus[i] == y.cpus[i]
            && p in r.q.exec && !HasOwner(r.cpus[..i] + r.cpus[i + 1..], p)
            && !r.q.ended
    decreases |es|
  {
    if es == [] {
      LeftBehind(y, i, p);
    } else {
      OtherStepsLeave(y, es[0], i, p);
      RunUnfold(y, es);
      AbandonedForever(Step(y, es[0]), es[1..], i, p);
    }
  }

  lemma RunUnfold(y: System, es: seq<Event>)
    requires Inv(y) && es != []
    ensures Inv(Step(y, es[0])) && Run(y, es) == Run(Step(y, es[0]), es[1..])
  {
    StepKeeps(y, es[0]);
  }

  lemma LeftBehind(y: System, i: nat, p: nat)
    requires Inv(y) && i < |y.cpus| && y.cpus[i].phase == Closed(Some(p))
    ensures p in y.q.exec && !HasOwner(y.cpus[..i] + y.cpus[i + 1..], p) && !y.q.ended
  {
    assert Owned(y.cpus[i]) == Some(p);
    var others := y.cpus[..i] + y.cpus[i + 1..];
    forall k | 0 <= k < |others| ensures Owned(others[k]) != Some(p) {
      assert others[k] == y.cpus[if k < i then k else k + 1];
    }
  }

  // ---------- READY is a queue ----------

  /** At most the head of READY went, and what came went to the end. */
  ghost predicate QueueLike(l: seq<nat>, l': seq<nat>) {
    l <= l' || (l != [] && l[1..] <= l' && l[0] !in l')
  }

  lemma HandleReady(q: Queues, c: Cpu, p: nat, r: Request)
    requires SuspendedKnown(q)
    ensures QueueLike(q.ready, Handle(q, c, p, r).0.ready)
  {
  }

  lemma DispatchReady(q: Queues, p: nat)
    requires Consistent(q) && q.ready != []
    ensures q.ready[0] in q.pcbs && QueueLike(q.ready, Dispatch(q).ready)
    ensures Is(q, p, Exec) ==> QueueLike(q.ready, Swap(q, p).ready)
  {
    assert q.ready[0] in q.ready;
  }

  lemma CpuStepReady(q: Queues, c: Cpu, inp: Inputs)
    requires Consistent(q) && CpuOk(c) && (Owned(c).Some? ==> Is(q, Owned(c).value, Exec))
    ensures (q.ready != [] ==> q.ready[0] in q.pcbs) && QueueLike(q.ready, CpuStep(q, c, inp).0.ready)
  {
    if q.ready != [] { DispatchReady(q, if c.pcb.Some? then c.pcb.value else 0); }
    match c.phase {
      case Waiting => HandleReady(q, c, c.pcb.value, inp.request);
      case _ =>
    }
  }

  lemma StepReady(y: System, e: Event)
    requires Inv(y)
    ensures QueueLike(y.q.ready, Step(y, e).q.ready)
  {
    match e {
      case Cycle(i, inp) => if i < |y.cpus| { CpuStepReady(y.q, y.cpus[i], inp); }
      case _ =>
    }
  }

  ghost predicate Before(l: seq<nat>, a: nat, b: nat) {
    exists i, j :: 0 <= i < j < |l| && l[i] == a && l[j] == b
  }

  lemma BehindStays(l: seq<nat>, l': seq<nat>, a: nat, b: nat)
    requires QueueLike(l, l') && Before(l, a, b) && a in l'
    ensures Before(l', a, b)
  {
    var i, j :| 0 <= i < j < |l| && l[i] == a && l[j] == b;
    if l <= l' {
      assert l'[i] == l[i] && l'[j] == l[j];
    } else {
      assert l'[i - 1] == l[1..][i - 1] && l'[j - 1] == l[1..][j - 1];
    }
  }

  ghost predicate StaysReady(y: System, es: seq<Event>, a: nat)
    requires Inv(y)
    decreases |es|
  {
    a in y.q.ready && (es != [] ==> (StepKeeps(y, es[0]); StaysReady(Step(y, es[0]), es[1..], a)))
  }

  /** Nobody overtakes in READY, not even a process that was preempted: as long as a waits there,
      whoever is behind it stays behind it. */
  lemma {:induction false} NoOvertaking(y: System, es: seq<Event>, a: nat, b: nat)
    requires Inv(y) && StaysReady(y, es, a) && Before(y.q.ready, a, b)
    ensures Before(Run(y, es).q.ready, a, b)
    decreases |es|
  {
    if es != [] {
      StepKeeps(y, es[0]);
      StepReady(y, es[0]);
      BehindStays(y.q.ready, Step(y, es[0]).q.ready, a, b);
      NoOvertaking(Step(y, es[0]), es[1..], a, b);
    }
  }

  /** A process that is put back, for a compaction or at the end of its quantum, is first in READY if
      and only if READY was empty; one that is preempted by priority, if and only if the process that
      replaces it was the only one there. */
  lemma PreemptedFirstIff(q: Queues, p: nat)
    requires Consistent(q) && Is(q, p, Exec)
    ensures ExecReady(q, p).ready != [] && (ExecReady(q, p).ready[0] == p <==> q.ready == [])
    ensures q.ready != [] ==> Swap(q, p).ready != [] && (Swap(q, p).ready[0] == p <==> |q.ready| == 1)
  {
    assert p !in q.ready;
    if q.ready != [] {
      assert q.ready[0] in q.ready;
      if |q.ready| > 1 { assert q.ready[1] in q.ready; }
    }
  }

  // ---------- SUSP. READY ----------

  /** The queues after what these processes waited for has happened, in this order. */
  ghost function WokenInTurn(q: Queues, ps: seq<nat>): Queues
    requires Consistent(q)
    decreases |ps|
  {
    if ps == [] then q
    else
      SuspBlockSuspReadyKeeps(q, ps[0]);
      WokenInTurn(SuspBlockSuspReady(q, ps[0]), ps[1..])
  }

  ghost predicate AllSuspended(q: Queues, ps: seq<nat>) {
    forall p {:trigger p in ps} :: p in ps ==> Is(q, p, SuspBlock)
  }

  lemma {:induction false} WokenQueue(q: Queues, ps: seq<nat>)
    requires Consistent(q) && NoDuplicates(ps) && AllSuspended(q, ps)
    ensures forall w :: w in q.suspReady || w in ps ==> w in q.pcbs
    ensures WokenInTurn(q, ps).suspReady == QueuedBehind(q.suspReady, ps, PriorityOf(q.pcbs))
    decreases |ps|
  {
    if ps != [] {
      FirstWoken(q, ps);
      WokenQueue(SuspBlockSuspReady(q, ps[0]), ps[1..]);
    }
  }

  lemma FirstWoken(q: Queues, ps: seq<nat>)
    requires Consistent(q) && ps != [] && NoDuplicates(ps) && AllSuspended(q, ps)
    ensures var q1 := SuspBlockSuspReady(q, ps[0]);
            && Consistent(q1) && NoDuplicates(ps[1..]) && AllSuspended(q1, ps[1..])
            && PriorityOf(q1.pcbs) == PriorityOf(q.pcbs)
            && ps[0] in q.pcbs && q1.suspReady == InsertSorted(q, q.suspReady, ps[0])
  {
    assert ps[0] in ps;
    SuspBlockSuspReadyKeeps(q, ps[0]);
    RestDistinct(ps);
    WakingOne(q, ps[0]);
  }

  lemma RestDistinct(ps: seq<nat>)
    requires ps != [] && NoDuplicates(ps)
    ensures NoDuplicates(ps[1..]) && forall p :: p in ps[1..] ==> p in ps && p != ps[0]
  {
    forall a, b | 0 <= a < b < |ps[1..]| ensures ps[1..][a] != ps[1..][b] { assert ps[a + 1] != ps[b + 1]; }
    forall p | p in ps[1..] ensures p in ps && p != ps[0] {
      var k :| 0 <= k < |ps[1..]| && ps[1..][k] == p;
      assert ps[k + 1] == p;
    }
  }

  lemma WakingOne(q: Queues, p: nat)
    requires SuspendedKnown(q) && Is(q, p, SuspBlock)
    ensures var q1 := SuspBlockSuspReady(q, p);
            && PriorityOf(q1.pcbs) == PriorityOf(q.pcbs) && q1.suspReady == InsertSorted(q, q.suspReady, p)
            && forall x: nat {:trigger Is(q1, x, SuspBlock)} :: Is(q, x, SuspBlock) && x != p ==> Is(q1, x, SuspBlock)
  {
  }

  lemma QueueByTimeIff(ps: seq<nat>, prio: map<nat, int>, since: map<nat, int>)
    requires NoDuplicates(ps) && forall p :: p in ps ==> p in prio && p in since
    ensures forall p :: p in QueuedBehind([], ps, prio) ==> p in prio && p in since
    ensures LongestFirst(QueuedBehind([], ps, prio), prio, since) <==> LaterSuspendedEarlier(ps, prio, since)
  {
    QueuedFromNothing(ps, prio);
    TiesBrokenByTimeIff(ps, prio, since);
  }

  /** Processes that enter an empty SUSP. READY one after another stand there, and are resumed, by
      priority and then by the time they have been suspended, if and only if of any two with the same
      priority the one that entered later was suspended no later. */
  lemma ResumedLongestFirstIff(q: Queues, ps: seq<nat>, since: map<nat, int>)
    requires Consistent(q) && q.suspReady == [] && NoDuplicates(ps) && AllSuspended(q, ps)
    requires forall p :: p in ps ==> p in since
    ensures forall p :: p in WokenInTurn(q, ps).suspReady || p in ps ==> p in q.pcbs && p in since
    ensures LongestFirst(WokenInTurn(q, ps).suspReady, PriorityOf(q.pcbs), since)
            <==> LaterSuspendedEarlier(ps, PriorityOf(q.pcbs), since)
  {
    WokenQueue(q, ps);
    QueueByTimeIff(ps, PriorityOf(q.pcbs), since);
  }
}
