/** The scheduler's t_queues and t_cpu_thread as objects updated in place. Every method is tied to
    the function of ProcessQueues or CpuThreads it stands for. */
module SchedulerObjects {
  import opened Options
  import opened PriorityLists
  import opened ProcessQueues
  import opened CpuThreads
  import Runs = SchedulerRuns

  class SchedulerQueues {
    var ready: seq<nat>
    var exec: seq<nat>
    var block: seq<nat>
    var suspBlock: seq<nat>
    var suspReady: seq<nat>
    var pcbs: map<nat, Proc>
    var nextPid: nat
    var count: int
    var ended: bool

    ghost function State(): Queues
      reads this
    {
      Queues(ready, exec, block, suspBlock, suspReady, pcbs, nextPid, count, ended)
    }

    constructor ()
      ensures State() == NO_QUEUES
    {
      ready, exec, block, suspBlock, suspReady := [], [], [], [], [];
      pcbs, nextPid, count, ended := map[], 0, 0, false;
    }

    /** manage_state_pcb: the state changes only if it is the expected one. */
    method ManageState(p: nat, expected: ProcState, next: ProcState) returns (ok: bool)
      modifies this`pcbs
      ensures ok == Is(old(State()), p, expected)
      ensures pcbs == if ok then Relabelled(old(State()), p, next) else old(pcbs)
    {
      ok := p in pcbs && pcbs[p].state == expected;
      if ok {
        pcbs := pcbs[p := pcbs[p].(state := next)];
      }
    }

    method TransitionToExit(p: nat)
      modifies this
      ensures State() == ToExit(old(State()), p)
    {
      pcbs := pcbs - {p};
      var isLast := count == 1;
      count := count - 1;
      if isLast {
        ended := true;
      }
    }

    method TransitionNewReady(priority: int, accepted: bool, valid: bool)
      modifies this
      ensures State() == NewReady(old(State()), priority, accepted, valid)
    {
      var p := nextPid;
      pcbs := pcbs[p := Proc(Ready, priority)];
      nextPid := p + 1;
      count := count + 1;
      if !accepted {
        TransitionToExit(p);
      } else if !valid {
        TransitionToExit(p);
      } else {
        ready := ready + [p];
      }
    }

    method TransitionExecReady(p: nat)
      modifies this
      ensures State() == ExecReady(old(State()), p)
    {
      var ok := ManageState(p, Exec, Ready);
      if ok {
        var rest, _ := WithoutFirst(exec, p);
        exec := rest;
        ready := ready + [p];
      }
    }

    method TransitionExecExit(p: nat)
      modifies this
      ensures State() == ExecExit(old(State()), p)
    {
      if p in pcbs && pcbs[p].state == Exec {
        var rest, _ := WithoutFirst(exec, p);
        exec := rest;
        TransitionToExit(p);
      }
    }

    method TransitionExecBlock(p: nat)
      modifies this
      ensures State() == ExecBlock(old(State()), p)
    {
      var ok := ManageState(p, Exec, Block);
      if ok {
        var rest, _ := WithoutFirst(exec, p);
        exec := rest;
        block := block + [p];
      }
    }

    method TransitionBlockReady(p: nat)
      modifies this
      ensures State() == BlockReady(old(State()), p)
    {
      var ok := ManageState(p, Block, Ready);
      if ok {
        var rest, _ := WithoutFirst(block, p);
        block := rest;
        ready := ready + [p];
      }
    }

    method TransitionBlockSuspBlock(p: nat, accepted: bool)
      requires SuspendedKnown(State())
      modifies this
      ensures State() == BlockSuspBlock(old(State()), p, accepted)
    {
      if !(p in pcbs && pcbs[p].state == Block) {
        return;
      }
      if !accepted {
        return;
      }
      ghost var q := State();
      var prio := PriorityOf(pcbs);
      pcbs := pcbs[p := pcbs[p].(state := SuspBlock)];
      var rest, _ := WithoutFirst(block, p);
      block := rest;
      suspBlock := AddedWaiter(suspBlock, p, pcbs[p].priority, prio);
      assert suspBlock == InsertSorted(q, q.suspBlock, p);
    }

    method TransitionSuspBlockSuspReady(p: nat)
      requires SuspendedKnown(State())
      modifies this
      ensures State() == SuspBlockSuspReady(old(State()), p)
    {
      ghost var q := State();
      var prio := PriorityOf(pcbs);
      var ok := ManageState(p, SuspBlock, SuspReady);
      if ok {
        var rest, _ := WithoutFirst(suspBlock, p);
        suspBlock := rest;
        suspReady := AddedWaiter(suspReady, p, pcbs[p].priority, prio);
        assert suspReady == InsertSorted(q, q.suspReady, p);
      }
    }

    method TransitionSuspReady(p: nat, fits: bool, accepted: bool) returns (ok: bool)
      modifies this
      ensures State() == SuspReadyReady(old(State()), p, fits, accepted)
      ensures ok == (Is(old(State()), p, SuspReady) && fits && accepted)
    {
      if !(p in pcbs && pcbs[p].state == SuspReady) {
        return false;
      }
      if !fits || !accepted {
        return false;
      }
      pcbs := pcbs[p := pcbs[p].(state := Ready)];
      var rest, _ := WithoutFirst(suspReady, p);
      suspReady := rest;
      ready := ready + [p];
      return true;
    }

    method TransitionUnlock(p: nat)
      requires SuspendedKnown(State())
      modifies this
      ensures State() == Unlock(old(State()), p)
    {
      if p in pcbs && pcbs[p].state == Block {
        TransitionBlockReady(p);
      } else {
        TransitionSuspBlockSuspReady(p);
      }
    }

    /** transition_take_ready_next, for the one level. */
    method TakeReadyNext() returns (p: Option<nat>)
      modifies this`ready
      ensures p == if old(ready) == [] then None else Some(old(ready)[0])
      ensures ready == if old(ready) == [] then [] else old(ready)[1..]
    {
      if ready == [] {
        return None;
      }
      p := Some(ready[0]);
      ready := ready[1..];
    }

    /** transition_ready_exec and transition_to_exec. */
    method ToExec(p: nat)
      modifies this`pcbs, this`exec
      ensures pcbs == if Is(old(State()), p, Ready) then Relabelled(old(State()), p, Exec) else old(pcbs)
      ensures exec == old(exec) + [p]
    {
      var _ := ManageState(p, Ready, Exec);
      exec := exec + [p];
    }

    /** transition_any_exit for one of the lists. */
    method TransitionAnyExit(st: ProcState) returns (any: bool)
      modifies this
      ensures var l := ListOf(old(State()), st);
              && any == (l != [])
              && State() == if any then ToExit(WithList(old(State()), st, l[1..]), l[0]) else old(State())
    {
      var p := 0;
      any := false;
      match st {
        case Ready => if ready != [] { any, p, ready := true, ready[0], ready[1..]; }
        case Exec => if exec != [] { any, p, exec := true, exec[0], exec[1..]; }
        case Block => if block != [] { any, p, block := true, block[0], block[1..]; }
        case SuspBlock => if suspBlock != [] { any, p, suspBlock := true, suspBlock[0], suspBlock[1..]; }
        case SuspReady => if suspReady != [] { any, p, suspReady := true, suspReady[0], suspReady[1..]; }
      }
      if any {
        TransitionToExit(p);
      }
    }

    method ClearOne(st: ProcState)
      modifies this
      ensures State() == ClearList(old(State()), st)
    {
      var any := true;
      while any
        invariant ClearList(State(), st) == ClearList(old(State()), st)
        invariant !any ==> ListOf(State(), st) == []
        decreases |ListOf(State(), st)|, any
      {
        any := TransitionAnyExit(st);
      }
    }

    method ClearAll()
      modifies this
      ensures State() == ClearQueues(old(State()))
    {
      ClearOne(Ready);
      ClearOne(Exec);
      ClearOne(Block);
      ClearOne(SuspBlock);
      ClearOne(SuspReady);
    }
  }

  class CpuThread {
    const queues: SchedulerQueues
    var reason: Reason
    var pcb: Option<nat>
    var keepRunning: bool
    /** Where the thread stands in its loop: the program counter of handle_cpu_client. */
    var phase: Phase

    ghost function Value(): Cpu
      reads this
    {
      Cpu(phase, reason, pcb, keepRunning)
    }

    ghost function Both(): (Queues, Cpu)
      reads this, queues
    {
      (queues.State(), Value())
    }

    constructor (queues: SchedulerQueues)
      ensures Value() == NEW_CPU && this.queues == queues
    {
      this.queues := queues;
      reason, pcb, keepRunning := FirstCycle, None, true;
      phase := LoopHead;
    }

    method CloseThread()
      modifies this, queues
      ensures Both() == Close(old(queues.State()), old(Value()))
    {
      var left := Owned(Cpu(phase, reason, pcb, keepRunning));
      keepRunning := false;
      if reason == HigherPriorityProcess && pcb.Some? {
        queues.TransitionExecReady(pcb.value);
        left := None;
      }
      phase := Closed(left);
    }

    method ManageRequestProcess(inp: Inputs)
      requires queues.ready != [] ==> queues.ready[0] in queues.pcbs
      modifies this, queues
      ensures Both() == RequestProcess(old(queues.State()), old(Value()), inp)
    {
      if reason != NoPreemption {
        if inp.terminated {
          pcb := None;
          CloseThread();
          return;
        }
        if queues.ready == [] || inp.readyLocked {
          return;
        }
        var next := queues.TakeReadyNext();
        pcb := next;
        queues.ToExec(next.value);
      }
      phase := Sending;
    }

    method SendPidTo(sent: bool, next: Phase)
      modifies this, queues
      ensures Both() == SendPid(old(queues.State()), old(Value()), sent, next)
    {
      if reason == NoPreemption {
        phase := next;
        return;
      }
      if !sent {
        CloseThread();
        return;
      }
      reason := NoPreemption;
      phase := next;
    }

    method HandleRequest(p: nat, r: Request)
      requires SuspendedKnown(queues.State())
      modifies this, queues
      ensures Both() == Handle(old(queues.State()), old(Value()), p, r)
    {
      phase := QueueBlocked;
      match r {
        case CycleOk =>
        case Fault =>
          queues.TransitionExecExit(p);
          reason := SegmentationFault;
        case MutexCreate(created) =>
          if !created {
            queues.TransitionExecExit(p);
            reason := MutexNameExists;
          }
        case MutexLock(locking) =>
          match locking {
            case LockNameNotFound =>
              queues.TransitionExecExit(p);
              reason := MutexNameNotFound;
            case Locked =>
            case MustWait =>
              queues.TransitionExecBlock(p);
              reason := MutexBlocked;
          }
        case MutexUnlock(unlocking) =>
          match unlocking {
            case UnlockNameNotFound =>
              queues.TransitionExecExit(p);
              reason := MutexNameNotFound;
            case NotOwner =>
              queues.TransitionExecExit(p);
              reason := NotMutexOwner;
            case Released(heir) =>
              if heir.Some? {
                queues.TransitionUnlock(heir.value);
              }
          }
        case MemAlloc(granted) =>
          if !granted {
            queues.TransitionExecExit(p);
            reason := NotEnoughMemory;
          }
        case MemFree(freed) =>
          if !freed {
            keepRunning := false;
          }
        case IoRequest(enqueued) =>
          reason := Io;
          if !enqueued {
            queues.TransitionExecExit(p);
          } else {
            queues.TransitionExecBlock(p);
          }
        case StartProcess(priority, accepted, valid) =>
          queues.TransitionNewReady(priority, accepted, valid);
        case Exit =>
          queues.TransitionExecExit(p);
          reason := ProcessEnd;
        case InvalidOp =>
          keepRunning := false;
      }
    }

    method QueueBlockedPhase(readyLocked: bool)
      modifies this, queues
      ensures Both() == ManageQueueBlocked(old(queues.State()), old(Value()), readyLocked)
    {
      phase := EndQuantum;
      if reason == NoPreemption && pcb.Some? && readyLocked {
        queues.TransitionExecReady(pcb.value);
        reason := Compaction;
      }
    }

    method EndQuantumPhase(quantumEnded: bool)
      modifies this, queues
      ensures Both() == ManageEndQuantum(old(queues.State()), old(Value()), quantumEnded)
    {
      phase := Preemption;
      if reason == NoPreemption && pcb.Some? && queues.ready != [] && quantumEnded {
        queues.TransitionExecReady(pcb.value);
        reason := QuantumEnd;
      }
    }

    method PreemptionPhase(outranked: bool)
      modifies this, queues
      ensures Both() == ManagePreemptionPriority(old(queues.State()), old(Value()), outranked)
    {
      phase := Announcing;
      if reason != NoPreemption || pcb.None? || !outranked {
        return;
      }
      var newPcb := queues.TakeReadyNext();
      if newPcb.None? {
        return;
      }
      queues.TransitionExecReady(pcb.value);
      queues.ToExec(newPcb.value);
      reason := HigherPriorityProcess;
      pcb := newPcb;
    }

    method SendPreemption(sent: bool)
      modifies this, queues
      ensures Both() == Announce(old(queues.State()), old(Value()), sent)
    {
      if !sent {
        CloseThread();
        return;
      }
      phase := if reason == HigherPriorityProcess then Resending else LoopHead;
    }

    /** The next phase of the loop. */
    method NextPhase(inp: Inputs)
      requires Runs.Fit(Both())
      modifies this, queues
      ensures SuspendedKnown(old(queues.State()))
      ensures old(queues.ready) != [] ==> old(queues.ready)[0] in old(queues.pcbs)
      ensures Both() == CpuStep(old(queues.State()), old(Value()), inp)
    {
      assert queues.ready != [] ==> queues.ready[0] in queues.ready;
      match phase {
        case LoopHead =>
          if keepRunning {
            ManageRequestProcess(inp);
          } else {
            CloseThread();
          }
        case Sending => SendPidTo(inp.sent, Waiting);
        case Waiting => HandleRequest(pcb.value, inp.request);
        case QueueBlocked => QueueBlockedPhase(inp.readyLocked);
        case EndQuantum => EndQuantumPhase(inp.quantumEnded);
        case Preemption => PreemptionPhase(inp.outranked);
        case Announcing => SendPreemption(inp.sent);
        case Resending => SendPidTo(inp.sent, LoopHead);
        case Closed(_) =>
      }
    }

    /** handle_cpu_client, uninterrupted, for as long as there are inputs. */
    method HandleCpuClient(ins: seq<Inputs>) returns (k: nat)
      requires Runs.Fit(Both())
      modifies this, queues
      ensures k <= |ins| && Both() == Runs.Phases(old(Both()), ins, k)
      ensures phase.Closed? || k == |ins|
    {
      k := 0;
      while !phase.Closed? && k < |ins|
        invariant k <= |ins| && Both() == Runs.Phases(old(Both()), ins, k)
      {
        NextPhase(ins[k]);
        k := k + 1;
      }
    }
  }
}
