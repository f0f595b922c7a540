/** The scheduler's five process lists and the transitions between them (scheduler/queues.c,
    suspension.c, exec_list.c, blocking_list.c and ready_queue.c with a single READY level), as
    functions. SchedulerObjects.dfy has the lists that are updated in place.

    Each transition is one step: the C code holds the process's own lock. What Kernel Memory
    answers is a parameter. */
module ProcessQueues {
  import opened PriorityLists

  datatype ProcState = Ready | Exec | Block | SuspBlock | SuspReady

  datatype Proc = Proc(state: ProcState, priority: int)

  /** pcbs: the live processes. count: active_process_count. ended: whether the scheduler was told
      to shut down because there are no more processes. */
  datatype Queues = Queues(
    ready: seq<nat>, exec: seq<nat>, block: seq<nat>, suspBlock: seq<nat>, suspReady: seq<nat>,
    pcbs: map<nat, Proc>, nextPid: nat, count: int, ended: bool)

  const NO_QUEUES := Queues([], [], [], [], [], map[], 0, 0, false)

  function ListOf(q: Queues, st: ProcState): seq<nat> {
    match st
    case Ready => q.ready
    case Exec => q.exec
    case Block => q.block
    case SuspBlock => q.suspBlock
    case SuspReady => q.suspReady
  }

  function Relabelled(q: Queues, p: nat, st: ProcState): map<nat, Proc>
    requires p in q.pcbs
  {
    q.pcbs[p := q.pcbs[p].(state := st)]
  }

  predicate Is(q: Queues, p: nat, st: ProcState) {
    p in q.pcbs && q.pcbs[p].state == st
  }

  function PriorityOf(pcbs: map<nat, Proc>): map<nat, int> {
    map p | p in pcbs :: pcbs[p].priority
  }

  /** insert_pcb_sorted into one of the suspended lists. */
  function InsertSorted(q: Queues, l: seq<nat>, p: nat): seq<nat>
    requires p in q.pcbs && forall x :: x in l ==> x in q.pcbs
  {
    AddWaiter(l, p, q.pcbs[p].priority, PriorityOf(q.pcbs))
  }

  // ---------- leaving the system ----------

  /** transition_to_exit: the process is destroyed and counted out. */
  function ToExit(q: Queues, p: nat): Queues {
    q.(pcbs := q.pcbs - {p}, count := q.count - 1, ended := q.ended || q.count == 1)
  }

  /** transition_new_ready: a new process, which Kernel Memory may refuse and whose priority may
      have no queue. */
  function NewReady(q: Queues, priority: int, accepted: bool, valid: bool): Queues {
    var p := q.nextPid;
    var q1 := q.(pcbs := q.pcbs[p := Proc(Ready, priority)], nextPid := p + 1, count := q.count + 1);
    if accepted && valid then q1.(ready := q1.ready + [p]) else ToExit(q1, p)
  }

  // ---------- READY and EXEC ----------

  /** Taking the next ready process into execution. */
  function Dispatch(q: Queues): Queues
    requires q.ready != [] && q.ready[0] in q.pcbs
  {
    var p := q.ready[0];
    var q1 := q.(ready := q.ready[1..]);
    if Is(q1, p, Ready) then q1.(pcbs := Relabelled(q1, p, Exec), exec := q1.exec + [p])
    else q1.(exec := q1.exec + [p])
  }

  function ExecReady(q: Queues, p: nat): Queues {
    if Is(q, p, Exec)
    then q.(pcbs := Relabelled(q, p, Ready), exec := RemoveFirst(q.exec, p), ready := q.ready + [p])
    else q
  }

  function ExecExit(q: Queues, p: nat): Queues {
    if Is(q, p, Exec) then ToExit(q.(exec := RemoveFirst(q.exec, p)), p) else q
  }

  function ExecBlock(q: Queues, p: nat): Queues {
    if Is(q, p, Exec)
    then q.(pcbs := Relabelled(q, p, Block), exec := RemoveFirst(q.exec, p), block := q.block + [p])
    else q
  }

  // ---------- BLOCK and the suspended states ----------

  function BlockReady(q: Queues, p: nat): Queues {
    if Is(q, p, Block)
    then q.(pcbs := Relabelled(q, p, Ready), block := RemoveFirst(q.block, p), ready := q.ready + [p])
    else q
  }

  ghost predicate SuspendedKnown(q: Queues) {
    && (forall x :: x in q.suspBlock ==> x in q.pcbs)
    && (forall x :: x in q.suspReady ==> x in q.pcbs)
  }

  /** accepted: Kernel Memory moved the process to swap. */
  function BlockSuspBlock(q: Queues, p: nat, accepted: bool): Queues
    requires SuspendedKnown(q)
  {
    if Is(q, p, Block) && accepted
    then q.(pcbs := Relabelled(q, p, SuspBlock), block := RemoveFirst(q.block, p),
            suspBlock := InsertSorted(q, q.suspBlock, p))
    else q
  }

  function SuspBlockSuspReady(q: Queues, p: nat): Queues
    requires SuspendedKnown(q)
  {
    if Is(q, p, SuspBlock)
    then q.(pcbs := Relabelled(q, p, SuspReady), suspBlock := RemoveFirst(q.suspBlock, p),
            suspReady := InsertSorted(q, q.suspReady, p))
    else q
  }

  /** fits: the free space covers the process. accepted: Kernel Memory brought it back. */
  function SuspReadyReady(q: Queues, p: nat, fits: bool, accepted: bool): Queues {
    if Is(q, p, SuspReady) && fits && accepted
    then q.(pcbs := Relabelled(q, p, Ready), suspReady := RemoveFirst(q.suspReady, p), ready := q.ready + [p])
    else q
  }

  /** transition_unlock: what the process waited for has happened. */
  function Unlock(q: Queues, p: nat): Queues
    requires SuspendedKnown(q)
  {
    if Is(q, p, Block) then BlockReady(q, p) else SuspBlockSuspReady(q, p)
  }

  // ---------- clearing the queues ----------

  function WithList(q: Queues, st: ProcState, l: seq<nat>): Queues {
    match st
    case Ready => q.(ready := l)
    case Exec => q.(exec := l)
    case Block => q.(block := l)
    case SuspBlock => q.(suspBlock := l)
    case SuspReady => q.(suspReady := l)
  }

  /** transition_any_exit until the list is empty. */
  function ClearList(q: Queues, st: ProcState): Queues
    decreases |ListOf(q, st)|
  {
    var l := ListOf(q, st);
    if l == [] then q else ClearList(ToExit(WithList(q, st, l[1..]), l[0]), st)
  }

  function ClearQueues(q: Queues): Queues {
    ClearList(ClearList(ClearList(ClearList(ClearList(q, Ready), Exec), Block), SuspBlock), SuspReady)
  }
}
