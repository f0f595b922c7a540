/** The scheduler's CPU threads (connections/cpu.c): the main loop of one thread, phase by phase.
    Other threads may run between two phases. What the CPU sends, what the sockets and Kernel
    Memory answer, and the clock's verdicts are inputs. */
module CpuThreads {
  import opened Options
  import opened ProcessQueues

  datatype Reason =
    | NoPreemption | QuantumEnd | HigherPriorityProcess | Compaction | ProcessEnd | FirstCycle | Io
    | MutexBlocked | NotEnoughMemory | SegmentationFault | MutexNameExists | MutexNameNotFound | NotMutexOwner

  /** Where a thread stands in its loop. A closed thread may have left a process behind in EXEC. */
  datatype Phase =
    | LoopHead | Sending | Waiting | QueueBlocked | EndQuantum | Preemption | Announcing | Resending
    | Closed(left: Option<nat>)

  datatype Cpu = Cpu(phase: Phase, reason: Reason, pcb: Option<nat>, keepRunning: bool)

  const NEW_CPU := Cpu(LoopHead, FirstCycle, None, true)

  datatype LockOutcome = LockNameNotFound | Locked | MustWait
  datatype UnlockOutcome = UnlockNameNotFound | NotOwner | Released(heir: Option<nat>)

  /** What the CPU asks for, with what the called component answers. */
  datatype Request =
    | CycleOk
    | Fault
    | MutexCreate(created: bool)
    | MutexLock(locking: LockOutcome)
    | MutexUnlock(unlocking: UnlockOutcome)
    | MemAlloc(granted: bool)
    | MemFree(freed: bool)
    | IoRequest(enqueued: bool)
    | StartProcess(priority: int, accepted: bool, valid: bool)
    | Exit
    | InvalidOp

  datatype Inputs = Inputs(terminated: bool, sent: bool, request: Request, readyLocked: bool,
                           quantumEnded: bool, outranked: bool)

  /** The process this thread has in EXEC. */
  function Owned(c: Cpu): Option<nat> {
    match c.phase
    case LoopHead => if c.reason == NoPreemption then c.pcb else None
    case Sending => c.pcb
    case Waiting => c.pcb
    case QueueBlocked => if c.reason == NoPreemption then c.pcb else None
    case EndQuantum => if c.reason == NoPreemption then c.pcb else None
    case Preemption => if c.reason == NoPreemption then c.pcb else None
    case Announcing => if c.reason == NoPreemption || c.reason == HigherPriorityProcess then c.pcb else None
    case Resending => c.pcb
    case Closed(left) => left
  }

  /** After the loop: only a process just preempted in is put back to READY. */
  function Close(q: Queues, c: Cpu): (Queues, Cpu) {
    if c.reason == HigherPriorityProcess && c.pcb.Some?
    then (ExecReady(q, c.pcb.value), c.(phase := Closed(None), keepRunning := false))
    else (q, c.(phase := Closed(Owned(c)), keepRunning := false))
  }

  /** manage_request_process. The thread waits while READY is empty or locked. */
  function RequestProcess(q: Queues, c: Cpu, inp: Inputs): (Queues, Cpu)
    requires q.ready != [] ==> q.ready[0] in q.pcbs
  {
    if c.reason == NoPreemption then (q, c.(phase := Sending))
    else if inp.terminated then Close(q, c.(pcb := None))
    else if q.ready == [] || inp.readyLocked then (q, c)
    else (Dispatch(q), c.(phase := Sending, pcb := Some(q.ready[0])))
  }

  /** send_pid. */
  function SendPid(q: Queues, c: Cpu, sent: bool, next: Phase): (Queues, Cpu) {
    if c.reason == NoPreemption then (q, c.(phase := next))
    else if sent then (q, c.(phase := next, reason := NoPreemption))
    else Close(q, c)
  }

  /** The handler of the CPU's request. */
  function Handle(q: Queues, c: Cpu, p: nat, r: Request): (Queues, Cpu)
    requires SuspendedKnown(q)
  {
    var c1 := c.(phase := QueueBlocked);
    match r
    case CycleOk => (q, c1)
    case Fault => (ExecExit(q, p), c1.(reason := SegmentationFault))
    case MutexCreate(created) =>
      if created then (q, c1) else (ExecExit(q, p), c1.(reason := MutexNameExists))
    case MutexLock(locking) =>
      (match locking
       case LockNameNotFound => (ExecExit(q, p), c1.(reason := MutexNameNotFound))
       case Locked => (q, c1)
       case MustWait => (ExecBlock(q, p), c1.(reason := MutexBlocked)))
    case MutexUnlock(unlocking) =>
      (match unlocking
       case UnlockNameNotFound => (ExecExit(q, p), c1.(reason := MutexNameNotFound))
       case NotOwner => (ExecExit(q, p), c1.(reason := NotMutexOwner))
       case Released(heir) => (if heir.Some? then Unlock(q, heir.value) else q, c1))
    case MemAlloc(granted) =>
      if granted then (q, c1) else (ExecExit(q, p), c1.(reason := NotEnoughMemory))
    case MemFree(freed) => (q, if freed then c1 else c1.(keepRunning := false))
    case IoRequest(enqueued) =>
      (if enqueued then ExecBlock(q, p) else ExecExit(q, p), c1.(reason := Io))
    case StartProcess(priority, accepted, valid) => (NewReady(q, priority, accepted, valid), c1)
    case Exit => (ExecExit(q, p), c1.(reason := ProcessEnd))
    case InvalidOp => (q, c1.(keepRunning := false))
  }

  /** manage_queue_blocked. */
  function ManageQueueBlocked(q: Queues, c: Cpu, readyLocked: bool): (Queues, Cpu) {
    if c.reason == NoPreemption && c.pcb.Some? && readyLocked
    then (ExecReady(q, c.pcb.value), c.(phase := EndQuantum, reason := Compaction))
    else (q, c.(phase := EndQuantum))
  }

  /** manage_end_quantum. */
  function ManageEndQuantum(q: Queues, c: Cpu, quantumEnded: bool): (Queues, Cpu) {
    if c.reason == NoPreemption && c.pcb.Some? && q.ready != [] && quantumEnded
    then (ExecReady(q, c.pcb.value), c.(phase := Preemption, reason := QuantumEnd))
    else (q, c.(phase := Preemption))
  }

  /** Taking the next ready process in exchange for p. */
  function Swap(q: Queues, p: nat): Queues
    requires q.ready != []
  {
    var n := q.ready[0];
    var q1 := ExecReady(q.(ready := q.ready[1..]), p);
    if Is(q1, n, Ready) then q1.(pcbs := Relabelled(q1, n, Exec), exec := q1.exec + [n])
    else q1.(exec := q1.exec + [n])
  }

  /** manage_preemption_priority. */
  function ManagePreemptionPriority(q: Queues, c: Cpu, outranked: bool): (Queues, Cpu) {
    if c.reason == NoPreemption && c.pcb.Some? && outranked && q.ready != []
    then (Swap(q, c.pcb.value), c.(phase := Announcing, reason := HigherPriorityProcess, pcb := Some(q.ready[0])))
    else (q, c.(phase := Announcing))
  }

  /** send_preemption. */
  function Announce(q: Queues, c: Cpu, sent: bool): (Queues, Cpu) {
    if !sent then Close(q, c)
    else (q, c.(phase := if c.reason == HigherPriorityProcess then Resending else LoopHead))
  }

  /** The next phase of one thread. */
  function CpuStep(q: Queues, c: Cpu, inp: Inputs): (Queues, Cpu)
    requires SuspendedKnown(q) && (q.ready != [] ==> q.ready[0] in q.pcbs)
  {
    match c.phase
    case LoopHead => if c.keepRunning then RequestProcess(q, c, inp) else Close(q, c)
    case Sending => SendPid(q, c, inp.sent, Waiting)
    case Waiting => if c.pcb.Some? then Handle(q, c, c.pcb.value, inp.request) else (q, c)
    case QueueBlocked => ManageQueueBlocked(q, c, inp.readyLocked)
    case EndQuantum => ManageEndQuantum(q, c, inp.quantumEnded)
    case Preemption => ManagePreemptionPriority(q, c, inp.outranked)
    case Announcing => Announce(q, c, inp.sent)
    case Resending => SendPid(q, c, inp.sent, LoopHead)
    case Closed(_) => (q, c)
  }
}
