/** READY as a multilevel queue and EXEC with its worst priority (scheduler/ready_queue.c,
    exec_list.c), and the preemption by priority (connections/cpu.c), with priorities that do not
    change meanwhile. Smaller numbers are better. */
module ReadyQueues {
  import opened Options
  import opened PriorityLists

  type Prio = map<nat, int>

  /** queues: one list for each level, or a single list. */
  datatype Ready = Ready(multilevel: bool, queues: seq<seq<nat>>, count: int, highest: int)

  function InitReady(multilevel: bool, levels: nat): Ready {
    Ready(multilevel, seq(if multilevel then levels else 1, _ => []), 0, INT_MAX)
  }

  /** The first level that is not empty, or the number of levels. */
  function FirstNonEmpty(qs: seq<seq<nat>>): (i: nat)
    ensures i <= |qs|
    ensures i < |qs| ==> qs[i] != []
    ensures forall k :: 0 <= k < i ==> qs[k] == []
  {
    if qs == [] || qs[0] != [] then 0 else 1 + FirstNonEmpty(qs[1..])
  }

  function LevelOf(r: Ready, x: int): int {
    if r.multilevel then x else 0
  }

  function ToReady(r: Ready, p: nat, x: int): Ready
    requires 0 <= LevelOf(r, x) < |r.queues|
  {
    r.(highest := if r.count == 0 || r.highest > x then x else r.highest,
       count := r.count + 1,
       queues := r.queues[LevelOf(r, x) := r.queues[LevelOf(r, x)] + [p]])
  }

  function UpdateHighest(r: Ready): Ready {
    r.(highest := if r.count > 0 && r.multilevel then FirstNonEmpty(r.queues) else |r.queues|)
  }

  function TakeNext(r: Ready): (Ready, Option<nat>) {
    var i := FirstNonEmpty(r.queues);
    if i == |r.queues| then (r, None)
    else
      var r1 := r.(count := r.count - 1, queues := r.queues[i := r.queues[i][1..]]);
      (if r1.queues[i] == [] then UpdateHighest(r1) else r1, Some(r.queues[i][0]))
  }

  /** transition_take_ready refreshes the best level before it counts the process out. */
  function TakeReady(r: Ready, p: nat, x: int): Ready
    requires 0 <= LevelOf(r, x) < |r.queues|
  {
    var l := LevelOf(r, x);
    var r1 := UpdateHighest(r.(queues := r.queues[l := RemoveFirst(r.queues[l], p)]));
    r1.(count := r.count - 1)
  }

  // ---------- the invariant ----------

  function Lengths(qs: seq<seq<nat>>): nat {
    if qs == [] then 0 else |qs[0]| + Lengths(qs[1..])
  }

  /** Level i holds processes of priority i. */
  ghost predicate Levelled(qs: seq<seq<nat>>, prio: Prio) {
    forall i, p :: 0 <= i < |qs| && p in qs[i] ==> p in prio && prio[p] == i
  }

  ghost predicate Valid(r: Ready, prio: Prio) {
    && r.multilevel
    && Levelled(r.queues, prio)
    && r.count == Lengths(r.queues)
    && (if r.count > 0 then r.highest == FirstNonEmpty(r.queues) else r.highest == |r.queues| || r.highest == INT_MAX)
  }

  lemma {:induction false} LengthsUpdate(qs: seq<seq<nat>>, i: nat, l: seq<nat>)
    requires i < |qs|
    ensures Lengths(qs[i := l]) + |qs[i]| == Lengths(qs) + |l|
  {
    if i > 0 {
      assert qs[i := l][1..] == qs[1..][i - 1 := l];
      LengthsUpdate(qs[1..], i - 1, l);
    } else {
      assert qs[i := l][1..] == qs[1..];
    }
  }

  lemma {:induction false} LengthsZeroIff(qs: seq<seq<nat>>)
    ensures Lengths(qs) == 0 <==> FirstNonEmpty(qs) == |qs|
  {
    if qs != [] && qs[0] == [] {
      LengthsZeroIff(qs[1..]);
    }
  }

  lemma InitIsValid(levels: nat, prio: Prio)
    ensures Valid(InitReady(true, levels), prio)
  {
    LengthsZeroIff(InitReady(true, levels).queues);
  }

  lemma FirstNonEmptyIs(qs: seq<seq<nat>>, i: nat)
    requires i <= |qs| && (i < |qs| ==> qs[i] != []) && forall k :: 0 <= k < i ==> qs[k] == []
    ensures FirstNonEmpty(qs) == i
  {
  }

  /** Adding a process: one more, last in its level, and the best level is kept up to date. */
  lemma ToReadyKeeps(r: Ready, p: nat, prio: Prio)
    requires Valid(r, prio) && p in prio && 0 <= prio[p] < |r.queues|
    ensures var r' := ToReady(r, p, prio[p]);
            Valid(r', prio) && r'.count == r.count + 1 && r'.queues[prio[p]] == r.queues[prio[p]] + [p]
  {
    var x := prio[p];
    var r' := ToReady(r, p, x);
    LengthsUpdate(r.queues, x, r.queues[x] + [p]);
    LengthsZeroIff(r.queues);
    var i := FirstNonEmpty(r.queues);
    FirstNonEmptyIs(r'.queues, if x < i then x else i);
  }

  lemma HeadTaken(r: Ready, prio: Prio, i: nat)
    requires Valid(r, prio) && i < |r.queues| && FirstNonEmpty(r.queues) == i
    ensures var (r', p) := TakeNext(r);
            Valid(r', prio) && r'.count == r.count - 1 && r'.queues == r.queues[i := r.queues[i][1..]]
  {
    var qs' := r.queues[i := r.queues[i][1..]];
    LengthsUpdate(r.queues, i, r.queues[i][1..]);
    LengthsZeroIff(r.queues);
    LengthsZeroIff(qs');
    if r.queues[i][1..] != [] { FirstNonEmptyIs(qs', i); }
  }

  lemma NobodyBetter(qs: seq<seq<nat>>, prio: Prio, k: nat, w: nat)
    requires Levelled(qs, prio) && k < |qs| && w in qs[k]
    ensures w in prio && FirstNonEmpty(qs) <= prio[w]
  {
  }

  /** Taking: the first process of the best level, if there is any process at all. */
  lemma TakeNextKeeps(r: Ready, prio: Prio)
    requires Valid(r, prio)
    ensures var (r', p) := TakeNext(r);
            && Valid(r', prio)
            && (p.None? <==> r.count == 0)
            && (p.Some? ==>
                  && p.value in prio && prio[p.value] == r.highest && r'.count == r.count - 1
                  && (forall i, w :: 0 <= i < |r.queues| && w in r.queues[i] ==> prio[p.value] <= prio[w])
                  && r.queues[r.highest] == [p.value] + r'.queues[r.highest])
  {
    LengthsZeroIff(r.queues);
    var i := FirstNonEmpty(r.queues);
    if i < |r.queues| {
      HeadTaken(r, prio, i);
      assert r.queues[i][0] in r.queues[i];
      forall k, w | 0 <= k < |r.queues| && w in r.queues[k] ensures i <= prio[w] {
        NobodyBetter(r.queues, prio, k, w);
      }
    }
  }

  lemma TakeReadyKeeps(r: Ready, p: nat, prio: Prio)
    requires Valid(r, prio) && p in prio && 0 <= prio[p] < |r.queues| && p in r.queues[prio[p]]
    ensures Valid(TakeReady(r, p, prio[p]), prio) && TakeReady(r, p, prio[p]).count == r.count - 1
  {
    var x := prio[p];
    var l := RemoveFirst(r.queues[x], p);
    LengthsUpdate(r.queues, x, l);
    LengthsZeroIff(r.queues[x := l]);
    LengthsZeroIff(r.queues);
    forall w | w in l ensures w in r.queues[x] {
      var k :| 0 <= k < |l| && l[k] == w;
      assert l[k] == r.queues[x][if k < IndexOf(r.queues[x], p) then k else k + 1];
    }
  }

  // ---------- EXEC ----------

  /** lowest: the worst priority in EXEC, at least 0. */
  datatype Exec = Exec(list: seq<nat>, lowest: int)

  function Worst(l: seq<nat>, prio: Prio): int
    requires forall p :: p in l ==> p in prio
  {
    if l == [] then 0
    else
      var w := Worst(l[..|l| - 1], prio);
      if w < prio[l[|l| - 1]] then prio[l[|l| - 1]] else w
  }

  ghost predicate LowestOk(e: Exec, prio: Prio) {
    (forall p :: p in e.list ==> p in prio) && e.lowest == Worst(e.list, prio)
  }

  ghost predicate ExecOk(e: Exec, prio: Prio) {
    LowestOk(e, prio) && forall p :: p in e.list ==> prio[p] >= 0
  }

  lemma {:induction false} WorstSpec(l: seq<nat>, prio: Prio)
    requires forall p :: p in l ==> p in prio
    ensures Worst(l, prio) >= 0 && forall p :: p in l ==> prio[p] <= Worst(l, prio)
    ensures Worst(l, prio) > 0 || (l != [] && forall p :: p in l ==> prio[p] >= 0) ==>
              exists p :: p in l && prio[p] == Worst(l, prio)
  {
    if l != [] {
      var n := |l| - 1;
      WorstSpec(l[..n], prio);
      assert l == l[..n] + [l[n]];
      assert l[n] in l;
      forall p | p in l[..n] ensures p in l {}
      if Worst(l[..n], prio) >= prio[l[n]] && exists p :: p in l[..n] && prio[p] == Worst(l[..n], prio) {
        var p :| p in l[..n] && prio[p] == Worst(l[..n], prio);
        assert p in l && prio[p] == Worst(l, prio);
      }
    }
  }

  function ToExec(e: Exec, p: nat, x: int): Exec {
    Exec(e.list + [p], if e.lowest < x then x else e.lowest)
  }

  function TakeExec(e: Exec, p: nat, prio: Prio): Exec
    requires forall w :: w in e.list ==> w in prio
  {
    RemovedMembers(e.list, p);
    Exec(RemoveFirst(e.list, p), Worst(RemoveFirst(e.list, p), prio))
  }

  lemma ToExecKeeps(e: Exec, p: nat, prio: Prio)
    requires LowestOk(e, prio) && p in prio
    ensures LowestOk(ToExec(e, p, prio[p]), prio)
  {
    assert (e.list + [p])[..|e.list|] == e.list;
  }

  lemma TakeExecKeeps(e: Exec, p: nat, prio: Prio)
    requires LowestOk(e, prio)
    ensures LowestOk(TakeExec(e, p, prio), prio)
    ensures ExecOk(e, prio) ==> ExecOk(TakeExec(e, p, prio), prio)
  {
    RemovedMembers(e.list, p);
  }

  // ---------- preemption by priority ----------

  datatype Queues = Queues(ready: Ready, exec: Exec)

  ghost predicate AllOk(q: Queues, prio: Prio) {
    && Valid(q.ready, prio) && ExecOk(q.exec, prio)
    && |q.ready.queues| <= INT_MAX
    && forall p :: p in q.exec.list ==> prio[p] < |q.ready.queues|
  }

  /** The test of manage_preemption_priority. */
  predicate Outranked(q: Queues, x: int) {
    x >= q.exec.lowest && x > q.ready.highest
  }

  /** manage_preemption_priority for running process p. */
  function Preempt(q: Queues, p: nat, prio: Prio): Queues
    requires p in q.exec.list && (forall w :: w in q.exec.list ==> w in prio) && 0 <= LevelOf(q.ready, prio[p]) < |q.ready.queues|
    requires TakeNext(q.ready).1.Some? ==> TakeNext(q.ready).1.value in prio
  {
    if !Outranked(q, prio[p]) then q
    else
      match TakeNext(q.ready).1
      case None => q
      case Some(n) =>
        Queues(ToReady(TakeNext(q.ready).0, p, prio[p]), ToExec(TakeExec(q.exec, p, prio), n, prio[n]))
  }

  function Sum(l: seq<nat>, prio: Prio): int
    requires forall p :: p in l ==> p in prio
  {
    if l == [] then 0 else prio[l[0]] + Sum(l[1..], prio)
  }

  lemma {:induction false} SumRemoved(l: seq<nat>, p: nat, prio: Prio)
    requires (forall w :: w in l ==> w in prio) && p in l
    ensures (forall w :: w in RemoveFirst(l, p) ==> w in prio) && Sum(RemoveFirst(l, p), prio) == Sum(l, prio) - prio[p]
  {
    RemovedMembers(l, p);
    if l[0] != p {
      SumRemoved(l[1..], p, prio);
      assert RemoveFirst(l, p)[1..] == RemoveFirst(l[1..], p);
    } else {
      assert RemoveFirst(l, p) == l[1..];
    }
  }

  lemma {:induction false} SumAppended(l: seq<nat>, p: nat, prio: Prio)
    requires (forall w :: w in l ==> w in prio) && p in prio
    ensures Sum(l + [p], prio) == Sum(l, prio) + prio[p]
  {
    if l != [] {
      assert (l + [p])[1..] == l[1..] + [p];
      SumAppended(l[1..], p, prio);
    }
  }

  /** What every operation relies on: known priorities, each with a list to wait in. */
  ghost predicate Playable(q: Queues, prio: Prio) {
    && (forall i, w {:trigger w in q.ready.queues[i]} ::
          0 <= i < |q.ready.queues| && w in q.ready.queues[i] ==> HasLevel(q.ready, w, prio))
    && (forall p {:trigger p in q.exec.list} :: p in q.exec.list ==> HasLevel(q.ready, p, prio))
  }

  predicate HasLevel(r: Ready, p: nat, prio: Prio) {
    p in prio && 0 <= LevelOf(r, prio[p]) < |r.queues|
  }

  lemma HeadHasLevel(q: Queues, prio: Prio)
    requires Playable(q, prio)
    ensures TakeNext(q.ready).1.Some? ==> HasLevel(q.ready, TakeNext(q.ready).1.value, prio)
  {
    var i := FirstNonEmpty(q.ready.queues);
    if i < |q.ready.queues| { assert q.ready.queues[i][0] in q.ready.queues[i]; }
  }

  /** A preemption brings in the best waiting process for the worst running one: the priorities in
      EXEC strictly improve in sum, so preemptions cannot go on for ever. */
  lemma PreemptImproves(q: Queues, p: nat, prio: Prio)
    requires AllOk(q, prio) && p in q.exec.list
    ensures TakeNext(q.ready).1.Some? ==> TakeNext(q.ready).1.value in prio
    ensures 0 <= prio[p] < |q.ready.queues|
    ensures var q' := Preempt(q, p, prio);
            && AllOk(q', prio) && q'.ready.count == q.ready.count && |q'.exec.list| == |q.exec.list|
            && (if Outranked(q, prio[p])
                then Sum(q'.exec.list, prio) < Sum(q.exec.list, prio)
                else q' == q)
  {
    TakeNextKeeps(q.ready, prio);
    if Outranked(q, prio[p]) {
      var (r, n) := TakeNext(q.ready);
      ToReadyKeeps(r, p, prio);
      TakeExecKeeps(q.exec, p, prio);
      var e := TakeExec(q.exec, p, prio);
      RemovedMembers(q.exec.list, p);
      ToExecKeeps(e, n.value, prio);
      SumRemoved(q.exec.list, p, prio);
      SumAppended(e.list, n.value, prio);
    }
  }

  ghost predicate NobodyBetterWaits(q: Queues, prio: Prio, p: nat)
    requires AllOk(q, prio) && p in q.exec.list
  {
    forall i, w :: 0 <= i < |q.ready.queues| && w in q.ready.queues[i] ==> prio[p] <= prio[w]
  }

  lemma NotOutrankedIff(q: Queues, prio: Prio, p: nat)
    requires AllOk(q, prio) && p in q.exec.list
    ensures prio[p] <= q.ready.highest <==> NobodyBetterWaits(q, prio, p)
  {
    LengthsZeroIff(q.ready.queues);
    var qs, i := q.ready.queues, FirstNonEmpty(q.ready.queues);
    if i < |qs| {
      assert qs[i][0] in qs[i];
      assert q.ready.highest == i && prio[qs[i][0]] == i;
      forall k, w | 0 <= k < |qs| && w in qs[k] ensures i <= prio[w] {
        assert prio[w] == k;
      }
    } else {
      assert prio[p] <= q.ready.highest;
    }
  }

  /** When no running process can be preempted any more, no waiting process is better than any
      running one; and conversely. It suffices to test the worst running process. */
  lemma SettledIff(q: Queues, prio: Prio)
    requires AllOk(q, prio)
    ensures (forall p :: p in q.exec.list ==> !Outranked(q, prio[p])) <==>
            (forall p :: p in q.exec.list ==> NobodyBetterWaits(q, prio, p))
  {
    forall p | p in q.exec.list ensures prio[p] <= q.ready.highest <==> NobodyBetterWaits(q, prio, p) {
      NotOutrankedIff(q, prio, p);
    }
    WorstSpec(q.exec.list, prio);
    if q.exec.list != [] && forall p :: p in q.exec.list ==> !Outranked(q, prio[p]) {
      var worst :| worst in q.exec.list && prio[worst] == Worst(q.exec.list, prio);
      assert !Outranked(q, prio[worst]);
      forall p | p in q.exec.list ensures NobodyBetterWaits(q, prio, p) {
        assert prio[p] <= prio[worst];
      }
    }
  }

  // ---------- every run ----------

  datatype Op = Arrive(p: nat) | DispatchNext | LeaveExec(p: nat) | PreemptOne(p: nat)

  function Apply(q: Queues, op: Op, prio: Prio): Queues
    requires Playable(q, prio)
  {
    HeadHasLevel(q, prio);
    match op
    case Arrive(p) => if HasLevel(q.ready, p, prio) then q.(ready := ToReady(q.ready, p, prio[p])) else q
    case DispatchNext =>
      (match TakeNext(q.ready).1
       case None => q
       case Some(n) => Queues(TakeNext(q.ready).0, ToExec(q.exec, n, prio[n])))
    case LeaveExec(p) => q.(exec := TakeExec(q.exec, p, prio))
    case PreemptOne(p) => if p in q.exec.list then Preempt(q, p, prio) else q
  }

  /** r' has lists for the members of r, and for p, only. */
  ghost predicate OnlyAdds(r: Ready, r': Ready, p: nat) {
    && r'.multilevel == r.multilevel && |r'.queues| == |r.queues|
    && forall i, w :: 0 <= i < |r.queues| && w in r'.queues[i] ==> w == p || w in r.queues[i]
  }

  lemma TakeOnlyRemoves(r: Ready, p: nat)
    ensures OnlyAdds(r, TakeNext(r).0, p)
  {
    var i := FirstNonEmpty(r.queues);
    if i < |r.queues| {
      assert forall w :: w in r.queues[i][1..] ==> w in r.queues[i];
    }
  }

  lemma ArrivalAdds(r: Ready, p: nat, x: int)
    requires 0 <= LevelOf(r, x) < |r.queues|
    ensures OnlyAdds(r, ToReady(r, p, x), p)
  {
  }

  lemma AddingKeepsPlayable(q: Queues, q': Queues, p: nat, prio: Prio)
    requires Playable(q, prio) && OnlyAdds(q.ready, q'.ready, p) && (p in q'.exec.list || HasLevel(q.ready, p, prio))
    requires forall w :: w in q'.exec.list ==> HasLevel(q.ready, w, prio)
    ensures Playable(q', prio)
  {
    forall i, w | 0 <= i < |q'.ready.queues| && w in q'.ready.queues[i] ensures HasLevel(q'.ready, w, prio) {
      if w != p { assert w in q.ready.queues[i] && HasLevel(q.ready, w, prio); }
      assert HasLevel(q.ready, w, prio);
    }
  }

  lemma ApplyKeepsPlayable(q: Queues, op: Op, prio: Prio)
    requires Playable(q, prio)
    ensures Playable(Apply(q, op, prio), prio)
  {
    HeadHasLevel(q, prio);
    var q' := Apply(q, op, prio);
    match op {
      case Arrive(p) =>
        if HasLevel(q.ready, p, prio) {
          ArrivalAdds(q.ready, p, prio[p]);
          AddingKeepsPlayable(q, q', p, prio);
        }
      case DispatchNext =>
        var n := TakeNext(q.ready).1;
        if n.Some? {
          TakeOnlyRemoves(q.ready, n.value);
          AddingKeepsPlayable(q, q', n.value, prio);
        }
      case LeaveExec(p) => RemovedMembers(q.exec.list, p);
      case PreemptOne(p) =>
        if p in q.exec.list && q' != q {
          RemovedMembers(q.exec.list, p);
          TakeOnlyRemoves(q.ready, p);
          ArrivalAdds(TakeNext(q.ready).0, p, prio[p]);
          AddingKeepsPlayable(q, q', p, prio);
        }
    }
  }

  lemma AllOkIsPlayable(q: Queues, prio: Prio)
    requires AllOk(q, prio)
    ensures Playable(q, prio)
  {
  }

  lemma ApplyKeeps(q: Queues, op: Op, prio: Prio)
    requires AllOk(q, prio)
    ensures Playable(q, prio) && AllOk(Apply(q, op, prio), prio)
  {
    AllOkIsPlayable(q, prio);
    match op {
      case Arrive(p) => if HasLevel(q.ready, p, prio) { ToReadyKeeps(q.ready, p, prio); }
      case DispatchNext =>
        TakeNextKeeps(q.ready, prio);
        LengthsZeroIff(q.ready.queues);
        var n := TakeNext(q.ready).1;
        if n.Some? { ToExecKeeps(q.exec, n.value, prio); }
      case LeaveExec(p) =>
        TakeExecKeeps(q.exec, p, prio);
        RemovedMembers(q.exec.list, p);
      case PreemptOne(p) => if p in q.exec.list { PreemptImproves(q, p, prio); }
    }
  }

  function Run(q: Queues, ops: seq<Op>, prio: Prio): Queues
    requires Playable(q, prio)
    decreases |ops|
  {
    if ops == [] then q
    else
      ApplyKeepsPlayable(q, ops[0], prio);
      Run(Apply(q, ops[0], prio), ops[1..], prio)
  }

  lemma {:induction false} RunKeeps(q: Queues, ops: seq<Op>, prio: Prio)
    requires AllOk(q, prio)
    ensures Playable(q, prio) && AllOk(Run(q, ops, prio), prio)
    decreases |ops|
  {
    AllOkIsPlayable(q, prio);
    if ops != [] {
      ApplyKeeps(q, ops[0], prio);
      RunKeeps(Apply(q, ops[0], prio), ops[1..], prio);
    }
  }

  /** The queues before any process. */
  function NoQueues(multilevel: bool, levels: nat): Queues {
    Queues(InitReady(multilevel, levels), Exec([], 0))
  }

  lemma EmptyIsLevelled(levels: nat, prio: Prio)
    requires levels <= INT_MAX
    ensures AllOk(NoQueues(true, levels), prio)
  {
    InitIsValid(levels, prio);
  }

  /** Over every run from empty queues, the number of ready processes is the sum of the levels'
      lengths, the best priority is the first level that is not empty, every process waits in the
      level of its priority, and the worst priority in EXEC is right. */
  lemma EveryRunIsLevelled(levels: nat, ops: seq<Op>, prio: Prio)
    requires levels <= INT_MAX
    ensures Playable(NoQueues(true, levels), prio)
    ensures var q := Run(NoQueues(true, levels), ops, prio);
            && q.ready.count == Lengths(q.ready.queues) && Levelled(q.ready.queues, prio)
            && (q.ready.count > 0 ==> q.ready.highest == FirstNonEmpty(q.ready.queues))
            && ExecOk(q.exec, prio) && AllOk(q, prio)
  {
    EmptyIsLevelled(levels, prio);
    RunKeeps(NoQueues(true, levels), ops, prio);
  }

  /** Whether the attempt to preempt p takes effect. */
  predicate Effective(q: Queues, p: nat, prio: Prio) {
    p in q.exec.list && p in prio && Outranked(q, prio[p]) && TakeNext(q.ready).1.Some?
  }

  /** The preemptions in a sequence of attempts that really happen. */
  function Preemptions(q: Queues, ps: seq<nat>, prio: Prio): nat
    requires Playable(q, prio)
    decreases |ps|
  {
    if ps == [] then 0
    else
      ApplyKeepsPlayable(q, PreemptOne(ps[0]), prio);
      (if Effective(q, ps[0], prio) then 1 else 0) + Preemptions(Apply(q, PreemptOne(ps[0]), prio), ps[1..], prio)
  }

  lemma {:induction false} SumNonNegative(l: seq<nat>, prio: Prio)
    requires forall p :: p in l ==> p in prio && prio[p] >= 0
    ensures Sum(l, prio) >= 0
  {
    if l != [] {
      SumNonNegative(l[1..], prio);
    }
  }

  /** However often the CPUs try, there are at most as many preemptions as the priorities in EXEC
      add up to. */
  lemma {:induction false} PreemptionsEnd(q: Queues, ps: seq<nat>, prio: Prio)
    requires AllOk(q, prio)
    ensures Playable(q, prio) && Preemptions(q, ps, prio) <= Sum(q.exec.list, prio)
    decreases |ps|
  {
    AllOkIsPlayable(q, prio);
    if ps == [] {
      SumNonNegative(q.exec.list, prio);
    } else {
      ApplyKeeps(q, PreemptOne(ps[0]), prio);
      var q' := Apply(q, PreemptOne(ps[0]), prio);
      if ps[0] in q.exec.list { PreemptImproves(q, ps[0], prio); }
      PreemptionsEnd(q', ps[1..], prio);
    }
  }
}
