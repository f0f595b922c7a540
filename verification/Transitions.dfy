/** What each transition does to the process it moves, and that it leaves everybody else alone. */
module Transitions {
  import opened PriorityLists
  import opened ProcessQueues
  import opened QueueLaws

  // ---------- lists ----------

  /** One occurrence of p is gone; the others keep their order. */
  ghost predicate LosesOnly(l: seq<nat>, l': seq<nat>, p: nat) {
    exists i :: 0 <= i < |l| && l[i] == p && l' == l[..i] + l[i + 1..]
  }

  /** p stands behind all who have a strictly better priority and in front of all others, who keep
      their order. */
  ghost predicate GainsByPriority(l: seq<nat>, l': seq<nat>, p: nat, pcbs: map<nat, Proc>)
    requires p in pcbs && forall x :: x in l ==> x in pcbs
  {
    exists i :: 0 <= i <= |l| && l' == l[..i] + [p] + l[i..] && DividedAt(l, i, p, pcbs)
  }

  ghost predicate DividedAt(l: seq<nat>, i: int, p: nat, pcbs: map<nat, Proc>)
    requires 0 <= i <= |l| && p in pcbs && forall x :: x in l ==> x in pcbs
  {
    && (forall k :: 0 <= k < i ==> pcbs[l[k]].priority < pcbs[p].priority)
    && (forall k :: i <= k < |l| ==> pcbs[p].priority <= pcbs[l[k]].priority)
  }

  lemma RemovalLoses(l: seq<nat>, p: nat)
    requires p in l
    ensures LosesOnly(l, RemoveFirst(l, p), p)
  {
    var i := IndexOf(l, p);
    assert l[i] == p && RemoveFirst(l, p) == l[..i] + l[i + 1..];
  }

  lemma InsertionGains(q: Queues, l: seq<nat>, p: nat)
    requires p in q.pcbs && (forall x :: x in l ==> x in q.pcbs) && SortedBy(l, PriorityOf(q.pcbs))
    ensures GainsByPriority(l, InsertSorted(q, l, p), p, q.pcbs)
  {
    var i := WaiterIndex(l, q.pcbs[p].priority, PriorityOf(q.pcbs));
    WaiterIndexSpec(l, q.pcbs[p].priority, PriorityOf(q.pcbs));
    assert DividedAt(l, i, p, q.pcbs);
  }

  // ---------- what a transition is ----------

  predicate Suspended(st: ProcState) {
    st == SuspBlock || st == SuspReady
  }

  /** The counters stay. */
  predicate SameCounts(q: Queues, q': Queues) {
    q'.nextPid == q.nextPid && q'.count == q.count && q'.ended == q.ended
  }

  /** p moves from one state and list to another: by priority into a suspended list, to the end of any
      other one. Nobody else changes state, priority or order. */
  ghost predicate Moved(q: Queues, q': Queues, p: nat, from: ProcState, to: ProcState) {
    && Is(q, p, from)
    && q'.pcbs == q.pcbs[p := Proc(to, q.pcbs[p].priority)]
    && SameCounts(q, q')
    && LosesOnly(ListOf(q, from), ListOf(q', from), p)
    && (if Suspended(to)
        then (forall x :: x in ListOf(q, to) ==> x in q.pcbs) && GainsByPriority(ListOf(q, to), ListOf(q', to), p, q.pcbs)
        else ListOf(q', to) == ListOf(q, to) + [p])
    && forall st :: st != from && st != to ==> ListOf(q', st) == ListOf(q, st)
  }

  /** p leaves the system out of EXEC; the last one reports the end. Nobody else notices. */
  ghost predicate Gone(q: Queues, q': Queues, p: nat) {
    && Is(q, p, Exec)
    && q'.pcbs == q.pcbs - {p} && p !in q'.pcbs
    && q'.count == q.count - 1 && q'.nextPid == q.nextPid
    && (q'.ended <==> q.ended || q'.pcbs == map[])
    && LosesOnly(q.exec, q'.exec, p)
    && forall st :: st != Exec ==> ListOf(q', st) == ListOf(q, st)
  }

  /** A new process of this priority is last in READY. */
  ghost predicate Created(q: Queues, q': Queues, priority: int) {
    && q.nextPid !in q.pcbs
    && q'.pcbs == q.pcbs[q.nextPid := Proc(Ready, priority)]
    && q'.nextPid == q.nextPid + 1 && q'.count == q.count + 1 && q'.ended == q.ended
    && q'.ready == q.ready + [q.nextPid]
    && forall st :: st != Ready ==> ListOf(q', st) == ListOf(q, st)
  }

  // ---------- every transition ----------

  lemma ExecToReady(q: Queues, p: nat)
    requires Consistent(q) && Is(q, p, Exec)
    ensures Moved(q, ExecReady(q, p), p, Exec, Ready)
  {
    RemovalLoses(q.exec, p);
  }

  lemma ExecToBlock(q: Queues, p: nat)
    requires Consistent(q) && Is(q, p, Exec)
    ensures Moved(q, ExecBlock(q, p), p, Exec, Block)
  {
    RemovalLoses(q.exec, p);
  }

  lemma BlockToReady(q: Queues, p: nat)
    requires Consistent(q) && Is(q, p, Block)
    ensures Moved(q, BlockReady(q, p), p, Block, Ready)
  {
    RemovalLoses(q.block, p);
  }

  lemma BlockToSuspBlock(q: Queues, p: nat)
    requires Consistent(q) && Is(q, p, Block)
    ensures Moved(q, BlockSuspBlock(q, p, true), p, Block, SuspBlock)
  {
    RemovalLoses(q.block, p);
    InsertionGains(q, q.suspBlock, p);
  }

  lemma SuspBlockToSuspReady(q: Queues, p: nat)
    requires Consistent(q) && Is(q, p, SuspBlock)
    ensures Moved(q, SuspBlockSuspReady(q, p), p, SuspBlock, SuspReady)
  {
    RemovalLoses(q.suspBlock, p);
    InsertionGains(q, q.suspReady, p);
  }

  lemma SuspReadyToReady(q: Queues, p: nat)
    requires Consistent(q) && Is(q, p, SuspReady)
    ensures Moved(q, SuspReadyReady(q, p, true, true), p, SuspReady, Ready)
  {
    RemovalLoses(q.suspReady, p);
  }

  lemma ReadyToExec(q: Queues)
    requires Consistent(q) && q.ready != []
    ensures q.ready[0] in q.pcbs && Moved(q, Dispatch(q), q.ready[0], Ready, Exec) && Dispatch(q).ready == q.ready[1..]
  {
    assert q.ready[0] in q.ready;
    assert q.ready[..0] + q.ready[1..] == q.ready[1..];
  }

  lemma ExecToExit(q: Queues, p: nat)
    requires Consistent(q) && Is(q, p, Exec)
    ensures Gone(q, ExecExit(q, p), p)
  {
    RemovalLoses(q.exec, p);
    RemovedCount(q.pcbs, p);
    assert |q.pcbs - {p}| == 0 <==> q.pcbs - {p} == map[];
  }

  lemma NewReadyCreates(q: Queues, priority: int)
    requires Consistent(q)
    ensures Created(q, NewReady(q, priority, true, true), priority)
  {
  }

  /** Every transition, where it takes effect, moves the process between the two states it is named
      after and nobody else; where it does not, nothing changes. */
  lemma EveryTransitionMoves(q: Queues, p: nat, fits: bool, accepted: bool)
    requires Consistent(q)
    ensures if Is(q, p, Exec) then Moved(q, ExecReady(q, p), p, Exec, Ready) else ExecReady(q, p) == q
    ensures if Is(q, p, Exec) then Moved(q, ExecBlock(q, p), p, Exec, Block) else ExecBlock(q, p) == q
    ensures if Is(q, p, Block) then Moved(q, BlockReady(q, p), p, Block, Ready) else BlockReady(q, p) == q
    ensures if Is(q, p, Block) && accepted then Moved(q, BlockSuspBlock(q, p, accepted), p, Block, SuspBlock)
            else BlockSuspBlock(q, p, accepted) == q
    ensures if Is(q, p, SuspBlock) then Moved(q, SuspBlockSuspReady(q, p), p, SuspBlock, SuspReady)
            else SuspBlockSuspReady(q, p) == q
    ensures if Is(q, p, SuspReady) && fits && accepted
            then Moved(q, SuspReadyReady(q, p, fits, accepted), p, SuspReady, Ready)
            else SuspReadyReady(q, p, fits, accepted) == q
  {
    if Is(q, p, Exec) { ExecToReady(q, p); ExecToBlock(q, p); }
    if Is(q, p, Block) { BlockToReady(q, p); BlockToSuspBlock(q, p); }
    if Is(q, p, SuspBlock) { SuspBlockToSuspReady(q, p); }
    if Is(q, p, SuspReady) { SuspReadyToReady(q, p); }
  }

  /** The end of a wait: to READY out of BLOCK, to SUSP. READY out of SUSP. BLOCK. */
  lemma WaitEnds(q: Queues, p: nat)
    requires Consistent(q)
    ensures if Is(q, p, Block) then Moved(q, Unlock(q, p), p, Block, Ready)
            else if Is(q, p, SuspBlock) then Moved(q, Unlock(q, p), p, SuspBlock, SuspReady)
            else Unlock(q, p) == q
  {
    if Is(q, p, Block) { BlockToReady(q, p); }
    if Is(q, p, SuspBlock) { SuspBlockToSuspReady(q, p); }
  }

  /** A creation is refused as a whole or makes one process of the priority asked for. */
  lemma CreationIs(q: Queues, priority: int, accepted: bool, valid: bool)
    requires Consistent(q)
    ensures var q' := NewReady(q, priority, accepted, valid);
            if accepted && valid then Created(q, q', priority)
            else q' == q.(nextPid := q.nextPid + 1, ended := q.ended || q.pcbs == map[])
  {
    if accepted && valid {
      NewReadyCreates(q, priority);
    } else {
      RefusedLeavesNothing(q, priority, accepted, valid);
      assert |q.pcbs| == 0 <==> q.pcbs == map[];
    }
  }
}
