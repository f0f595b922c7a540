/** What a CPU thread does to the processes: what each request of its process comes to, when a phase
    gives the process up or takes one, and that every step of the system follows the state diagram. */
module SystemCalls {
  import opened Options
  import opened ProcessQueues
  import opened QueueLaws
  import opened Transitions
  import opened CpuThreads
  import opened SchedulerRuns

  // ---------- requests ----------

  /** The requests after which the process is no more, by the reason that the thread records. */
  function EndsFor(r: Request): Option<Reason> {
    match r
    case Fault => Some(SegmentationFault)
    case Exit => Some(ProcessEnd)
    case MutexCreate(created) => if created then None else Some(MutexNameExists)
    case MutexLock(LockNameNotFound) => Some(MutexNameNotFound)
    case MutexUnlock(UnlockNameNotFound) => Some(MutexNameNotFound)
    case MutexUnlock(NotOwner) => Some(NotMutexOwner)
    case MemAlloc(granted) => if granted then None else Some(NotEnoughMemory)
    case IoRequest(enqueued) => if enqueued then None else Some(Io)
    case _ => None
  }

  /** The requests after which the process waits. */
  function WaitsFor(r: Request): Option<Reason> {
    match r
    case MutexLock(MustWait) => Some(MutexBlocked)
    case IoRequest(enqueued) => if enqueued then Some(Io) else None
    case _ => None
  }

  /** The requests that stop the thread's loop. */
  predicate Stops(r: Request) {
    r == InvalidOp || r == MemFree(false)
  }

  /** What a request that neither ends nor blocks the process does to the others. */
  ghost predicate OthersAfter(q: Queues, q': Queues, r: Request) {
    match r
    case StartProcess(priority, accepted, valid) =>
      if accepted && valid then Created(q, q', priority)
      else q' == q.(nextPid := q.nextPid + 1, ended := q.ended || q.pcbs == map[])
    case MutexUnlock(Released(Some(heir))) =>
      if Is(q, heir, Block) then Moved(q, q', heir, Block, Ready)
      else if Is(q, heir, SuspBlock) then Moved(q, q', heir, SuspBlock, SuspReady)
      else q' == q
    case _ => q' == q
  }

  /** Every request: it ends the process, blocks it, or leaves it in EXEC; the reason says which, and
      only an invalid operation or a failed release of memory stops the loop. */
  lemma RequestComesTo(q: Queues, c: Cpu, p: nat, r: Request)
    requires Consistent(q) && c.phase == Waiting && c.reason == NoPreemption && c.pcb == Some(p) && Is(q, p, Exec)
    ensures var (q', c') := Handle(q, c, p, r);
            && (if EndsFor(r).Some? then Gone(q, q', p) && c'.reason == EndsFor(r).value
                else if WaitsFor(r).Some? then Moved(q, q', p, Exec, Block) && c'.reason == WaitsFor(r).value
                else Is(q', p, Exec) && q'.exec == q.exec && c'.reason == NoPreemption && OthersAfter(q, q', r))
            && c'.phase == QueueBlocked && c'.pcb == c.pcb
            && c'.keepRunning == (c.keepRunning && !Stops(r))
  {
    ThreadAfterRequest(q, c, p, r);
    if EndsFor(r).Some? {
      ExecToExit(q, p);
    } else if WaitsFor(r).Some? {
      ExecToBlock(q, p);
    } else {
      OthersAfterRequest(q, c, p, r);
    }
  }

  lemma ThreadAfterRequest(q: Queues, c: Cpu, p: nat, r: Request)
    requires SuspendedKnown(q) && c.phase == Waiting && c.reason == NoPreemption && c.pcb == Some(p)
    ensures var (q', c') := Handle(q, c, p, r);
            && (EndsFor(r).Some? ==> q' == ExecExit(q, p)) && (EndsFor(r).None? && WaitsFor(r).Some? ==> q' == ExecBlock(q, p))
            && c'.reason == (if EndsFor(r).Some? then EndsFor(r).value else if WaitsFor(r).Some? then WaitsFor(r).value
                             else NoPreemption)
            && c'.phase == QueueBlocked && c'.pcb == c.pcb
            && c'.keepRunning == (c.keepRunning && !Stops(r))
  {
  }

  lemma OthersAfterRequest(q: Queues, c: Cpu, p: nat, r: Request)
    requires Consistent(q) && Is(q, p, Exec) && EndsFor(r).None? && WaitsFor(r).None?
    ensures var q' := Handle(q, c, p, r).0;
            OthersAfter(q, q', r) && Is(q', p, Exec) && q'.exec == q.exec
  {
    match r
    case StartProcess(priority, accepted, valid) => CreationIs(q, priority, accepted, valid);
    case MutexUnlock(Released(heir)) => if heir.Some? { WaitEnds(q, heir.value); }
    case _ =>
  }

  // ---------- phases ----------

  /** p goes back to READY and the head of READY runs in its place. */
  ghost predicate Exchanged(q: Queues, q': Queues, p: nat) {
    q.ready != [] && exists mid :: Moved(q, mid, q.ready[0], Ready, Exec) && Moved(mid, q', p, Exec, Ready)
  }

  /** Why the phase gives the process up, if it does. */
  function GivesUp(q: Queues, c: Cpu, inp: Inputs): Option<Reason> {
    match c.phase
    case QueueBlocked => if inp.readyLocked then Some(Compaction) else None
    case EndQuantum => if inp.quantumEnded && q.ready != [] then Some(QuantumEnd) else None
    case Preemption => if inp.outranked && q.ready != [] then Some(HigherPriorityProcess) else None
    case _ => None
  }

  /** The phases that may give the process up, and what comes behind them. */
  function Behind(phase: Phase): Option<Phase> {
    match phase
    case QueueBlocked => Some(EndQuantum)
    case EndQuantum => Some(Preemption)
    case Preemption => Some(Announcing)
    case _ => None
  }

  /** A process that neither ended nor waits is given up when READY is locked for a compaction, else when
      its quantum ended and somebody is ready, else when it is outranked and somebody is ready: then the
      head of READY replaces it. Otherwise the phase changes nothing. */
  lemma GivesUpIff(q: Queues, c: Cpu, inp: Inputs, p: nat)
    requires Consistent(q) && Behind(c.phase).Some? && c.pcb == Some(p)
    requires c.reason == NoPreemption ==> Is(q, p, Exec)
    requires q.ready != [] ==> q.ready[0] in q.pcbs
    ensures var (q', c') := CpuStep(q, c, inp);
            if c.reason == NoPreemption && GivesUp(q, c, inp).Some?
            then
              && c' == c.(phase := Behind(c.phase).value, reason := GivesUp(q, c, inp).value,
                          pcb := if c.phase == Preemption then Some(q.ready[0]) else c.pcb)
              && if c.phase == Preemption then Exchanged(q, q', p) else Moved(q, q', p, Exec, Ready)
            else (q', c') == (q, c.(phase := Behind(c.phase).value))
  {
    if c.reason == NoPreemption && GivesUp(q, c, inp).Some? {
      if c.phase == Preemption { SwapExchanges(q, p); } else { ExecToReady(q, p); }
    }
  }

  lemma SwapExchanges(q: Queues, p: nat)
    requires Consistent(q) && q.ready != [] && Is(q, p, Exec)
    ensures Exchanged(q, Swap(q, p), p)
  {
    SwapIsDispatchAndReturn(q, p);
    ReadyToExec(q);
    DispatchKeeps(q);
    ExecToReady(Dispatch(q), p);
  }

  /** At the head of the loop a thread without a process takes the head of READY, if and only if there is
      one, READY is not locked and not terminated; it waits while READY is empty or locked. */
  lemma TakesNextIff(q: Queues, c: Cpu, inp: Inputs)
    requires Consistent(q) && c.phase == LoopHead && c.keepRunning && (c.reason == NoPreemption || !inp.terminated)
    requires q.ready != [] ==> q.ready[0] in q.pcbs
    ensures var (q', c') := CpuStep(q, c, inp);
            if c.reason == NoPreemption then (q', c') == (q, c.(phase := Sending))
            else if q.ready != [] && !inp.readyLocked
            then Moved(q, q', q.ready[0], Ready, Exec) && c' == c.(phase := Sending, pcb := Some(q.ready[0]))
            else (q', c') == (q, c)
  {
    if q.ready != [] { ReadyToExec(q); }
  }

  /** The inputs on which a thread closes. */
  predicate Closes(c: Cpu, inp: Inputs) {
    match c.phase
    case LoopHead => !c.keepRunning || (c.reason != NoPreemption && inp.terminated)
    case Sending => c.reason != NoPreemption && !inp.sent
    case Resending => c.reason != NoPreemption && !inp.sent
    case Announcing => !inp.sent
    case _ => false
  }

  /** A thread closes if and only if its loop was stopped, READY is terminated, or a send fails; only a
      process just preempted in is then put back, and the processes are else left as they are. */
  lemma ClosesIff(q: Queues, c: Cpu, inp: Inputs)
    requires Consistent(q) && CpuOk(c) && !c.phase.Closed? && (Owned(c).Some? ==> Is(q, Owned(c).value, Exec))
    requires q.ready != [] ==> q.ready[0] in q.pcbs
    ensures var (q', c') := CpuStep(q, c, inp);
            && (c'.phase.Closed? <==> Closes(c, inp))
            && (Closes(c, inp) ==>
                  !c'.keepRunning
                  && if c.reason == HigherPriorityProcess then Moved(q, q', c.pcb.value, Exec, Ready) else q' == q)
  {
    if Closes(c, inp) && c.reason == HigherPriorityProcess { ExecToReady(q, c.pcb.value); }
  }

  /** A send that succeeds: the process waits for requests, or the thread is back at its loop head; what
      was announced is over. */
  lemma SendsAre(q: Queues, c: Cpu, inp: Inputs)
    requires Consistent(q) && CpuOk(c) && (c.phase == Sending || c.phase == Announcing || c.phase == Resending)
    requires !Closes(c, inp) && (q.ready != [] ==> q.ready[0] in q.pcbs)
    ensures var (q', c') := CpuStep(q, c, inp);
            && q' == q && c'.pcb == c.pcb && c'.keepRunning == c.keepRunning
            && (c.phase == Sending ==> c'.phase == Waiting && c'.reason == NoPreemption)
            && (c.phase == Resending ==> c'.phase == LoopHead && c'.reason == NoPreemption)
            && (c.phase == Announcing ==>
                  c'.reason == c.reason && c'.phase == if c.reason == HigherPriorityProcess then Resending else LoopHead)
  {
  }

  // ---------- the state diagram ----------

  function StateOf(q: Queues, p: nat): Option<ProcState> {
    if p in q.pcbs then Some(q.pcbs[p].state) else None
  }

  /** The changes of one process's state that an event may cause; None stands for a process that does
      not exist yet, or no more. */
  predicate Arrow(e: Event, p: nat, from: Option<ProcState>, to: Option<ProcState>) {
    match e
    case Cycle(_, _) =>
      || (from == None && to == Some(Ready))
      || (from == Some(Ready) && to == Some(Exec))
      || (from == Some(Exec) && to in {Some(Ready), Some(Block), None})
      || (from == Some(Block) && to == Some(Ready))
      || (from == Some(SuspBlock) && to == Some(SuspReady))
    case Wake(pid) =>
      p == pid && ((from == Some(Block) && to == Some(Ready)) || (from == Some(SuspBlock) && to == Some(SuspReady)))
    case Suspend(pid, accepted) => p == pid && accepted && from == Some(Block) && to == Some(SuspBlock)
    case Resume(pid, fits, accepted) => p == pid && fits && accepted && from == Some(SuspReady) && to == Some(Ready)
  }

  ghost predicate Follows(e: Event, q: Queues, q': Queues) {
    forall p: nat {:trigger StateOf(q', p)} ::
      && (StateOf(q', p) == StateOf(q, p) || Arrow(e, p, StateOf(q, p), StateOf(q', p)))
      && (p in q.pcbs && p in q'.pcbs ==> q'.pcbs[p].priority == q.pcbs[p].priority)
  }

  /** Every step of the system moves every process along an arrow of the state diagram, or leaves it where
      it is; and no process ever changes its priority. */
  lemma StepFollowsDiagram(y: System, e: Event)
    requires Inv(y)
    ensures Follows(e, y.q, Step(y, e).q)
  {
    match e
    case Cycle(i, inp) => if i < |y.cpus| { CycleFollows(y, i, inp); }
    case Wake(pid) =>
      WaitEnds(y.q, pid);
      if Is(y.q, pid, Block) { MovedFollows(e, y.q, Step(y, e).q, pid, Block, Ready); }
      if Is(y.q, pid, SuspBlock) { MovedFollows(e, y.q, Step(y, e).q, pid, SuspBlock, SuspReady); }
    case Suspend(pid, accepted) =>
      EveryTransitionMoves(y.q, pid, true, accepted);
      if Is(y.q, pid, Block) && accepted { MovedFollows(e, y.q, Step(y, e).q, pid, Block, SuspBlock); }
    case Resume(pid, fits, accepted) =>
      EveryTransitionMoves(y.q, pid, fits, accepted);
      if Is(y.q, pid, SuspReady) && fits && accepted { MovedFollows(e, y.q, Step(y, e).q, pid, SuspReady, Ready); }
  }

  lemma MovedFollows(e: Event, q: Queues, q': Queues, p: nat, from: ProcState, to: ProcState)
    requires Moved(q, q', p, from, to) && Arrow(e, p, Some(from), Some(to))
    ensures Follows(e, q, q')
  {
    forall x: nat ensures x != p ==> StateOf(q', x) == StateOf(q, x) {
    }
  }

  lemma GoneFollows(e: Event, q: Queues, q': Queues, p: nat)
    requires Gone(q, q', p) && e.Cycle?
    ensures Follows(e, q, q')
  {
    forall x: nat ensures x != p ==> StateOf(q', x) == StateOf(q, x) {
    }
  }

  lemma CreatedFollows(e: Event, q: Queues, q': Queues, priority: int)
    requires Created(q, q', priority) && e.Cycle?
    ensures Follows(e, q, q')
  {
    forall x: nat ensures x != q.nextPid ==> StateOf(q', x) == StateOf(q, x) {
    }
  }

  lemma ExchangedStates(q: Queues, mid: Queues, q': Queues, n: nat, p: nat)
    requires Moved(q, mid, n, Ready, Exec) && Moved(mid, q', p, Exec, Ready) && n != p
    ensures q'.pcbs.Keys == q.pcbs.Keys && Is(q, n, Ready) && Is(q', n, Exec) && Is(q, p, Exec) && Is(q', p, Ready)
    ensures forall x :: x in q.pcbs ==> q'.pcbs[x].priority == q.pcbs[x].priority
    ensures forall x :: x in q.pcbs && x != n && x != p ==> q'.pcbs[x] == q.pcbs[x]
  {
  }

  lemma PairFollows(e: Event, q: Queues, q': Queues, n: nat, p: nat)
    requires q'.pcbs.Keys == q.pcbs.Keys && Is(q, n, Ready) && Is(q', n, Exec) && Is(q, p, Exec) && Is(q', p, Ready)
    requires forall x :: x in q.pcbs ==> q'.pcbs[x].priority == q.pcbs[x].priority
    requires forall x :: x in q.pcbs && x != n && x != p ==> q'.pcbs[x] == q.pcbs[x]
    requires e.Cycle?
    ensures Follows(e, q, q')
  {
  }

  lemma ExchangedFollows(e: Event, q: Queues, q': Queues, p: nat)
    requires Exchanged(q, q', p) && e.Cycle? && q.ready[0] != p
    ensures Follows(e, q, q')
  {
    var n := q.ready[0];
    var mid :| Moved(q, mid, n, Ready, Exec) && Moved(mid, q', p, Exec, Ready);
    ExchangedStates(q, mid, q', n, p);
    PairFollows(e, q, q', n, p);
  }

  lemma RequestFollows(e: Event, q: Queues, c: Cpu, p: nat, r: Request)
    requires Consistent(q) && c.phase == Waiting && c.reason == NoPreemption && c.pcb == Some(p) && Is(q, p, Exec)
    requires e.Cycle?
    ensures Follows(e, q, Handle(q, c, p, r).0)
  {
    RequestComesTo(q, c, p, r);
    var q' := Handle(q, c, p, r).0;
    if EndsFor(r).Some? {
      GoneFollows(e, q, q', p);
    } else if WaitsFor(r).Some? {
      MovedFollows(e, q, q', p, Exec, Block);
    } else {
      match r
      case StartProcess(priority, accepted, valid) => if accepted && valid { CreatedFollows(e, q, q', priority); }
      case MutexUnlock(Released(Some(heir))) =>
        if Is(q, heir, Block) { MovedFollows(e, q, q', heir, Block, Ready); }
        if Is(q, heir, SuspBlock) { MovedFollows(e, q, q', heir, SuspBlock, SuspReady); }
      case _ =>
    }
  }

  lemma GivingUpFollows(e: Event, q: Queues, c: Cpu, inp: Inputs, p: nat)
    requires Consistent(q) && Behind(c.phase).Some? && c.pcb == Some(p) && e.Cycle?
    requires c.reason == NoPreemption ==> Is(q, p, Exec)
    ensures (q.ready != [] ==> q.ready[0] in q.pcbs) && Follows(e, q, CpuStep(q, c, inp).0)
  {
    assert q.ready != [] ==> q.ready[0] in q.ready;
    GivesUpIff(q, c, inp, p);
    var q' := CpuStep(q, c, inp).0;
    if c.reason == NoPreemption && GivesUp(q, c, inp).Some? {
      if c.phase == Preemption { ExchangedFollows(e, q, q', p); } else { MovedFollows(e, q, q', p, Exec, Ready); }
    }
  }

  lemma CycleFollows(y: System, i: nat, inp: Inputs)
    requires Inv(y) && i < |y.cpus|
    ensures Follows(Cycle(i, inp), y.q, Step(y, Cycle(i, inp)).q)
  {
    var q, c := y.q, y.cpus[i];
    assert CpuOk(c) && (Owned(c).Some? ==> Is(q, Owned(c).value, Exec));
    PhaseFollows(Cycle(i, inp), q, c, inp);
  }

  lemma PhaseFollows(e: Event, q: Queues, c: Cpu, inp: Inputs)
    requires Consistent(q) && CpuOk(c) && (Owned(c).Some? ==> Is(q, Owned(c).value, Exec)) && e.Cycle?
    ensures (q.ready != [] ==> q.ready[0] in q.pcbs) && Follows(e, q, CpuStep(q, c, inp).0)
  {
    assert q.ready != [] ==> q.ready[0] in q.ready;
    var q' := CpuStep(q, c, inp).0;
    if c.phase.Closed? {
    } else if Closes(c, inp) {
      ClosesIff(q, c, inp);
      if c.reason == HigherPriorityProcess { MovedFollows(e, q, q', c.pcb.value, Exec, Ready); }
    } else if c.phase == LoopHead {
      TakesNextIff(q, c, inp);
      if q' != q { MovedFollows(e, q, q', q.ready[0], Ready, Exec); }
    } else if c.phase == Waiting {
      RequestFollows(e, q, c, c.pcb.value, inp.request);
    } else if Behind(c.phase).Some? {
      GivingUpFollows(e, q, c, inp, c.pcb.value);
    } else {
      SendsAre(q, c, inp);
    }
  }

  /** In every run from the start, every step follows the diagram. */
  lemma EveryRunFollowsDiagram(n: nat, priority: int, accepted: bool, valid: bool, es: seq<Event>, e: Event)
    ensures Inv(Boot(n, priority, accepted, valid))
    ensures var y := Run(Boot(n, priority, accepted, valid), es);
            Inv(y) && Follows(e, y.q, Step(y, e).q)
  {
    BootIsGood(n, priority, accepted, valid);
    StepFollowsDiagram(Run(Boot(n, priority, accepted, valid), es), e);
  }
}
