/** Every transition keeps each live process in exactly one list, the one its state names. */
module QueueLaws {
  import opened PriorityLists
  import opened ProcessQueues

  /** The list holds exactly the processes in state st, each once. */
  ghost predicate Holds(l: seq<nat>, pcbs: map<nat, Proc>, st: ProcState) {
    NoDuplicates(l) && forall p :: p in l <==> p in pcbs && pcbs[p].state == st
  }

  ghost predicate Listed(q: Queues) {
    && Holds(q.ready, q.pcbs, Ready)
    && Holds(q.exec, q.pcbs, Exec)
    && Holds(q.block, q.pcbs, Block)
    && Holds(q.suspBlock, q.pcbs, SuspBlock)
    && Holds(q.suspReady, q.pcbs, SuspReady)
  }

  /** The suspended lists are ordered by priority. */
  ghost predicate Ordered(q: Queues)
    requires SuspendedKnown(q)
  {
    SortedBy(q.suspBlock, PriorityOf(q.pcbs)) && SortedBy(q.suspReady, PriorityOf(q.pcbs))
  }

  ghost predicate Consistent(q: Queues) {
    && Listed(q)
    && SuspendedKnown(q) && Ordered(q)
    && q.count == |q.pcbs|
    && (forall p :: p in q.pcbs ==> p < q.nextPid)
  }

  lemma EmptyIsConsistent()
    ensures Consistent(NO_QUEUES)
  {
  }

  // ---------- one list at a time ----------

  /** pcbs' differs from pcbs at most in p. */
  ghost predicate OnlyAt(pcbs: map<nat, Proc>, pcbs': map<nat, Proc>, p: nat) {
    forall x :: x != p ==> (x in pcbs <==> x in pcbs') && (x in pcbs ==> pcbs'[x] == pcbs[x])
  }

  lemma HoldsTaken(l: seq<nat>, pcbs: map<nat, Proc>, st: ProcState, p: nat, pcbs': map<nat, Proc>)
    requires Holds(l, pcbs, st) && OnlyAt(pcbs, pcbs', p)
    requires p in l && (p in pcbs' ==> pcbs'[p].state != st)
    ensures Holds(RemoveFirst(l, p), pcbs', st)
  {
    forall w ensures w in RemoveFirst(l, p) <==> w in l && w != p {
      RemoveFirstMembers(l, p, w);
    }
  }

  lemma HoldsHeadTaken(l: seq<nat>, pcbs: map<nat, Proc>, st: ProcState, pcbs': map<nat, Proc>)
    requires l != [] && Holds(l, pcbs, st) && OnlyAt(pcbs, pcbs', l[0]) && (l[0] in pcbs' ==> pcbs'[l[0]].state != st)
    ensures Holds(l[1..], pcbs', st)
  {
    HoldsTaken(l, pcbs, st, l[0], pcbs');
    assert RemoveFirst(l, l[0]) == l[1..];
  }

  lemma HoldsAppended(l: seq<nat>, pcbs: map<nat, Proc>, st: ProcState, p: nat, pcbs': map<nat, Proc>)
    requires Holds(l, pcbs, st) && OnlyAt(pcbs, pcbs', p)
    requires p !in l && p in pcbs' && pcbs'[p].state == st
    ensures Holds(l + [p], pcbs', st)
  {
    forall x ensures x in l + [p] <==> x in l || x == p {}
  }

  lemma HoldsOther(l: seq<nat>, pcbs: map<nat, Proc>, st: ProcState, p: nat, pcbs': map<nat, Proc>)
    requires Holds(l, pcbs, st) && OnlyAt(pcbs, pcbs', p)
    requires p !in l && (p in pcbs' ==> pcbs'[p].state != st)
    ensures Holds(l, pcbs', st)
  {
  }

  lemma HoldsInserted(l: seq<nat>, pcbs: map<nat, Proc>, st: ProcState, p: nat, pcbs': map<nat, Proc>)
    requires Holds(l, pcbs, st) && OnlyAt(pcbs, pcbs', p)
    requires p !in l && p in pcbs && p in pcbs' && pcbs'[p].state == st
    requires (forall x :: x in l ==> x in pcbs) && SortedBy(l, PriorityOf(pcbs))
    ensures var l' := AddWaiter(l, p, pcbs[p].priority, PriorityOf(pcbs));
            && Holds(l', pcbs', st) && (forall x :: x in l' ==> x in pcbs) && SortedBy(l', PriorityOf(pcbs))
  {
    AddWaiterLaws(l, p, pcbs[p].priority, PriorityOf(pcbs));
  }

  lemma TakenStaysSorted(l: seq<nat>, prio: map<nat, int>, p: nat)
    requires forall w :: w in l ==> w in prio
    requires SortedBy(l, prio) && NoDuplicates(l) && p in l
    ensures (forall w :: w in RemoveFirst(l, p) ==> w in prio) && SortedBy(RemoveFirst(l, p), prio)
  {
    RemoveWaiterLaws(l, p, prio);
  }

  // ---------- relabelling ----------

  lemma RelabelKeepsPriorities(q: Queues, p: nat, st: ProcState)
    requires p in q.pcbs
    ensures PriorityOf(Relabelled(q, p, st)) == PriorityOf(q.pcbs) && |Relabelled(q, p, st)| == |q.pcbs|
    ensures OnlyAt(q.pcbs, Relabelled(q, p, st), p) && Relabelled(q, p, st).Keys == q.pcbs.Keys
  {
    assert Relabelled(q, p, st).Keys == q.pcbs.Keys;
  }

  lemma ExecReadyKeeps(q: Queues, p: nat)
    requires Consistent(q)
    ensures Consistent(ExecReady(q, p))
  {
    if Is(q, p, Exec) {
      var pcbs' := Relabelled(q, p, Ready);
      RelabelKeepsPriorities(q, p, Ready);
      HoldsTaken(q.exec, q.pcbs, Exec, p, pcbs');
      HoldsAppended(q.ready, q.pcbs, Ready, p, pcbs');
      HoldsOther(q.block, q.pcbs, Block, p, pcbs');
      HoldsOther(q.suspBlock, q.pcbs, SuspBlock, p, pcbs');
      HoldsOther(q.suspReady, q.pcbs, SuspReady, p, pcbs');
    }
  }

  lemma ExecBlockKeeps(q: Queues, p: nat)
    requires Consistent(q)
    ensures Consistent(ExecBlock(q, p))
  {
    if Is(q, p, Exec) {
      var pcbs' := Relabelled(q, p, Block);
      RelabelKeepsPriorities(q, p, Block);
      HoldsTaken(q.exec, q.pcbs, Exec, p, pcbs');
      HoldsAppended(q.block, q.pcbs, Block, p, pcbs');
      HoldsOther(q.ready, q.pcbs, Ready, p, pcbs');
      HoldsOther(q.suspBlock, q.pcbs, SuspBlock, p, pcbs');
      HoldsOther(q.suspReady, q.pcbs, SuspReady, p, pcbs');
    }
  }

  lemma BlockReadyKeeps(q: Queues, p: nat)
    requires Consistent(q)
    ensures Consistent(BlockReady(q, p))
  {
    if Is(q, p, Block) {
      var pcbs' := Relabelled(q, p, Ready);
      RelabelKeepsPriorities(q, p, Ready);
      HoldsTaken(q.block, q.pcbs, Block, p, pcbs');
      HoldsAppended(q.ready, q.pcbs, Ready, p, pcbs');
      HoldsOther(q.exec, q.pcbs, Exec, p, pcbs');
      HoldsOther(q.suspBlock, q.pcbs, SuspBlock, p, pcbs');
      HoldsOther(q.suspReady, q.pcbs, SuspReady, p, pcbs');
    }
  }

  lemma BlockSuspBlockKeeps(q: Queues, p: nat, accepted: bool)
    requires Consistent(q)
    ensures Consistent(BlockSuspBlock(q, p, accepted))
  {
    if Is(q, p, Block) && accepted {
      var pcbs' := Relabelled(q, p, SuspBlock);
      RelabelKeepsPriorities(q, p, SuspBlock);
      HoldsTaken(q.block, q.pcbs, Block, p, pcbs');
      HoldsInserted(q.suspBlock, q.pcbs, SuspBlock, p, pcbs');
      HoldsOther(q.ready, q.pcbs, Ready, p, pcbs');
      HoldsOther(q.exec, q.pcbs, Exec, p, pcbs');
      HoldsOther(q.suspReady, q.pcbs, SuspReady, p, pcbs');
    }
  }

  lemma SuspBlockSuspReadyKeeps(q: Queues, p: nat)
    requires Consistent(q)
    ensures Consistent(SuspBlockSuspReady(q, p))
  {
    if Is(q, p, SuspBlock) {
      var pcbs' := Relabelled(q, p, SuspReady);
      RelabelKeepsPriorities(q, p, SuspReady);
      HoldsTaken(q.suspBlock, q.pcbs, SuspBlock, p, pcbs');
      TakenStaysSorted(q.suspBlock, PriorityOf(q.pcbs), p);
      HoldsInserted(q.suspReady, q.pcbs, SuspReady, p, pcbs');
      HoldsOther(q.ready, q.pcbs, Ready, p, pcbs');
      HoldsOther(q.exec, q.pcbs, Exec, p, pcbs');
      HoldsOther(q.block, q.pcbs, Block, p, pcbs');
    }
  }

  lemma SuspReadyReadyKeeps(q: Queues, p: nat, fits: bool, accepted: bool)
    requires Consistent(q)
    ensures Consistent(SuspReadyReady(q, p, fits, accepted))
  {
    if Is(q, p, SuspReady) && fits && accepted {
      var pcbs' := Relabelled(q, p, Ready);
      RelabelKeepsPriorities(q, p, Ready);
      HoldsTaken(q.suspReady, q.pcbs, SuspReady, p, pcbs');
      TakenStaysSorted(q.suspReady, PriorityOf(q.pcbs), p);
      HoldsAppended(q.ready, q.pcbs, Ready, p, pcbs');
      HoldsOther(q.exec, q.pcbs, Exec, p, pcbs');
      HoldsOther(q.block, q.pcbs, Block, p, pcbs');
      HoldsOther(q.suspBlock, q.pcbs, SuspBlock, p, pcbs');
    }
  }

  lemma UnlockKeeps(q: Queues, p: nat)
    requires Consistent(q)
    ensures Consistent(Unlock(q, p))
  {
    BlockReadyKeeps(q, p);
    SuspBlockSuspReadyKeeps(q, p);
  }

  lemma DispatchKeeps(q: Queues)
    requires Consistent(q) && q.ready != []
    ensures q.ready[0] in q.pcbs && Consistent(Dispatch(q)) && Is(Dispatch(q), q.ready[0], Exec)
  {
    var p := q.ready[0];
    assert p in q.ready;
    var pcbs' := Relabelled(q, p, Exec);
    RelabelKeepsPriorities(q, p, Exec);
    HoldsHeadTaken(q.ready, q.pcbs, Ready, pcbs');
    HoldsAppended(q.exec, q.pcbs, Exec, p, pcbs');
    HoldsOther(q.block, q.pcbs, Block, p, pcbs');
    HoldsOther(q.suspBlock, q.pcbs, SuspBlock, p, pcbs');
    HoldsOther(q.suspReady, q.pcbs, SuspReady, p, pcbs');
  }

  // ---------- creation and exit ----------

  lemma OthersStaySorted(l: seq<nat>, pcbs: map<nat, Proc>, pcbs': map<nat, Proc>, p: nat)
    requires OnlyAt(pcbs, pcbs', p) && p !in l && (forall x :: x in l ==> x in pcbs) && SortedBy(l, PriorityOf(pcbs))
    ensures (forall x :: x in l ==> x in pcbs') && SortedBy(l, PriorityOf(pcbs'))
  {
    forall x | x in l ensures x in pcbs' && pcbs'[x] == pcbs[x] {}
  }

  lemma ExecExitKeeps(q: Queues, p: nat)
    requires Consistent(q)
    ensures Consistent(ExecExit(q, p))
  {
    if Is(q, p, Exec) {
      var pcbs' := q.pcbs - {p};
      HoldsTaken(q.exec, q.pcbs, Exec, p, pcbs');
      HoldsOther(q.ready, q.pcbs, Ready, p, pcbs');
      HoldsOther(q.block, q.pcbs, Block, p, pcbs');
      HoldsOther(q.suspBlock, q.pcbs, SuspBlock, p, pcbs');
      HoldsOther(q.suspReady, q.pcbs, SuspReady, p, pcbs');
      OthersStaySorted(q.suspBlock, q.pcbs, pcbs', p);
      OthersStaySorted(q.suspReady, q.pcbs, pcbs', p);
      RemovedCount(q.pcbs, p);
    }
  }

  lemma RemovedCount(pcbs: map<nat, Proc>, p: nat)
    requires p in pcbs
    ensures |pcbs - {p}| == |pcbs| - 1
  {
    assert pcbs == (pcbs - {p})[p := pcbs[p]];
    assert (pcbs - {p}).Keys == pcbs.Keys - {p};
  }

  /** A process that was refused leaves nothing behind but its number. */
  lemma RefusedLeavesNothing(q: Queues, priority: int, accepted: bool, valid: bool)
    requires Consistent(q) && !(accepted && valid)
    ensures NewReady(q, priority, accepted, valid) == q.(nextPid := q.nextPid + 1, ended := q.ended || q.count == 0)
  {
    assert q.nextPid !in q.pcbs;
    assert q.pcbs[q.nextPid := Proc(Ready, priority)] - {q.nextPid} == q.pcbs;
  }

  lemma NewReadyKeeps(q: Queues, priority: int, accepted: bool, valid: bool)
    requires Consistent(q)
    ensures Consistent(NewReady(q, priority, accepted, valid))
  {
    var p := q.nextPid;
    assert p !in q.pcbs;
    if accepted && valid {
      var pcbs' := q.pcbs[p := Proc(Ready, priority)];
      HoldsAppended(q.ready, q.pcbs, Ready, p, pcbs');
      HoldsOther(q.exec, q.pcbs, Exec, p, pcbs');
      HoldsOther(q.block, q.pcbs, Block, p, pcbs');
      HoldsOther(q.suspBlock, q.pcbs, SuspBlock, p, pcbs');
      HoldsOther(q.suspReady, q.pcbs, SuspReady, p, pcbs');
      OthersStaySorted(q.suspBlock, q.pcbs, pcbs', p);
      OthersStaySorted(q.suspReady, q.pcbs, pcbs', p);
    } else {
      RefusedLeavesNothing(q, priority, accepted, valid);
    }
  }

  // ---------- what consistency means for one process ----------

  /** A live process is in the list of its state, at one place, and in no other list. */
  lemma InExactlyOneList(q: Queues, p: nat)
    requires Consistent(q) && p in q.pcbs
    ensures p in ListOf(q, q.pcbs[p].state)
    ensures multiset(ListOf(q, q.pcbs[p].state))[p] == 1
    ensures forall st :: st != q.pcbs[p].state ==> p !in ListOf(q, st)
  {
    OccursOnce(ListOf(q, q.pcbs[p].state), p);
  }

  lemma {:induction false} OccursOnce(l: seq<nat>, p: nat)
    requires NoDuplicates(l) && p in l
    ensures multiset(l)[p] == 1
  {
    assert l == [l[0]] + l[1..];
    if l[0] == p {
      assert forall k :: 0 <= k < |l[1..]| ==> l[1..][k] == l[k + 1];
      assert p !in l[1..];
    } else {
      OccursOnce(l[1..], p);
    }
  }

  // ---------- clearing ----------

  lemma ListsAfterTaking(q: Queues, st: ProcState, s: ProcState)
    requires Listed(q) && ListOf(q, st) != []
    ensures var l := ListOf(q, st);
            var r := ToExit(WithList(q, st, l[1..]), l[0]);
            Holds(ListOf(r, s), r.pcbs, s) && ListOf(r, s) == if s == st then l[1..] else ListOf(q, s)
  {
    var l := ListOf(q, st);
    assert l[0] in l;
    if s == st {
      HoldsHeadTaken(l, q.pcbs, st, q.pcbs - {l[0]});
    } else {
      HoldsOther(ListOf(q, s), q.pcbs, s, l[0], q.pcbs - {l[0]});
    }
  }

  lemma ListedByState(q: Queues)
    requires forall s :: Holds(ListOf(q, s), q.pcbs, s)
    ensures Listed(q)
  {
    assert Holds(ListOf(q, Ready), q.pcbs, Ready) && Holds(ListOf(q, Exec), q.pcbs, Exec);
    assert Holds(ListOf(q, Block), q.pcbs, Block) && Holds(ListOf(q, SuspBlock), q.pcbs, SuspBlock);
    assert Holds(ListOf(q, SuspReady), q.pcbs, SuspReady);
  }

  lemma TakeFirstOut(q: Queues, st: ProcState)
    requires Consistent(q) && ListOf(q, st) != []
    ensures var l := ListOf(q, st);
            var r := ToExit(WithList(q, st, l[1..]), l[0]);
            Consistent(r) && ListOf(r, st) == l[1..] && forall s :: s != st ==> ListOf(r, s) == ListOf(q, s)
  {
    var l := ListOf(q, st);
    var p := l[0];
    var r := ToExit(WithList(q, st, l[1..]), p);
    forall s ensures Holds(ListOf(r, s), r.pcbs, s) && ListOf(r, s) == if s == st then l[1..] else ListOf(q, s) {
      ListsAfterTaking(q, st, s);
    }
    ListedByState(r);
    assert p in l;
    RemovedCount(q.pcbs, p);
    SuspendedSorted(q, r, p);
  }

  lemma SuspendedSorted(q: Queues, r: Queues, p: nat)
    requires SuspendedKnown(q) && Ordered(q) && Listed(r) && OnlyAt(q.pcbs, r.pcbs, p) && p !in r.pcbs
    requires r.suspBlock == q.suspBlock || (q.suspBlock != [] && r.suspBlock == q.suspBlock[1..])
    requires r.suspReady == q.suspReady || (q.suspReady != [] && r.suspReady == q.suspReady[1..])
    ensures SuspendedKnown(r) && Ordered(r)
  {
    OthersStaySorted(r.suspBlock, q.pcbs, r.pcbs, p);
    OthersStaySorted(r.suspReady, q.pcbs, r.pcbs, p);
  }

  lemma {:induction false} ClearListEmpties(q: Queues, st: ProcState)
    requires Consistent(q)
    ensures var r := ClearList(q, st);
            && Consistent(r) && ListOf(r, st) == []
            && (forall s :: s != st ==> ListOf(r, s) == ListOf(q, s))
            && (q.pcbs != map[] && r.pcbs == map[] ==> r.ended) && (q.ended ==> r.ended)
    decreases |ListOf(q, st)|
  {
    var l := ListOf(q, st);
    if l != [] {
      var q1 := ToExit(WithList(q, st, l[1..]), l[0]);
      TakeFirstOut(q, st);
      ClearListEmpties(q1, st);
      assert q1.pcbs == map[] ==> |q1.pcbs| == 0;
    }
  }

  /** Clearing the queues empties all five lists, ends every process and, if there was any, reports
      that none is left. */
  lemma ClearQueuesEmptiesAll(q: Queues)
    requires Consistent(q)
    ensures var r := ClearQueues(q);
            && r.ready == [] && r.exec == [] && r.block == [] && r.suspBlock == [] && r.suspReady == []
            && r.pcbs == map[] && r.count == 0
            && (q.pcbs != map[] ==> r.ended)
  {
    ClearListEmpties(q, Ready);
    var q1 := ClearList(q, Ready);
    ClearListEmpties(q1, Exec);
    var q2 := ClearList(q1, Exec);
    ClearListEmpties(q2, Block);
    var q3 := ClearList(q2, Block);
    ClearListEmpties(q3, SuspBlock);
    var q4 := ClearList(q3, SuspBlock);
    ClearListEmpties(q4, SuspReady);
    var r := ClearList(q4, SuspReady);
    assert ListOf(r, Ready) == [] && ListOf(r, Exec) == [] && ListOf(r, Block) == [];
    assert ListOf(r, SuspBlock) == [] && ListOf(r, SuspReady) == [];
    forall p | p in r.pcbs ensures false {
      InExactlyOneList(r, p);
    }
    assert r.pcbs == map[];
  }
}
