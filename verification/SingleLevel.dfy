/** Preemption by priority over a READY with a single list (ready_queue.c with multilevel_queue off,
    connections/cpu.c). Preemption is configured apart from the algorithm, so the two can meet, and
    then the head of the list runs next whatever its priority, while the best priority is refreshed
    only when the list runs empty. When preemptions still end, and when they never do. */
module SingleLevel {
  import opened Options
  import opened PriorityLists
  import opened ReadyQueues

  /** Nothing is known about highest. */
  ghost predicate SingleOk(q: Queues, prio: Prio) {
    && !q.ready.multilevel && |q.ready.queues| == 1 && q.ready.count == |q.ready.queues[0]|
    && Playable(q, prio) && LowestOk(q.exec, prio)
  }

  function Waiting(q: Queues): seq<nat>
    requires |q.ready.queues| == 1
  {
    q.ready.queues[0]
  }

  /** Whoever runs with a priority beyond this is worse than what READY promises. */
  function Bar(q: Queues): int {
    if q.ready.highest < -1 then -1 else q.ready.highest
  }

  /** How many of the list have a priority worse than bar. */
  function Worse(l: seq<nat>, bar: int, prio: Prio): nat
    requires forall w :: w in l ==> w in prio
    ensures Worse(l, bar, prio) <= |l|
  {
    if l == [] then 0 else (if prio[l[0]] > bar then 1 else 0) + Worse(l[1..], bar, prio)
  }

  lemma {:induction false} WorseAppended(l: seq<nat>, p: nat, bar: int, prio: Prio)
    requires (forall w :: w in l ==> w in prio) && p in prio
    ensures Worse(l + [p], bar, prio) == Worse(l, bar, prio) + if prio[p] > bar then 1 else 0
  {
    if l != [] {
      assert (l + [p])[1..] == l[1..] + [p];
      WorseAppended(l[1..], p, bar, prio);
    }
  }

  lemma {:induction false} WorseRemoved(l: seq<nat>, p: nat, bar: int, prio: Prio)
    requires (forall w :: w in l ==> w in prio) && p in l
    ensures forall w :: w in RemoveFirst(l, p) ==> w in prio
    ensures Worse(RemoveFirst(l, p), bar, prio) == Worse(l, bar, prio) - if prio[p] > bar then 1 else 0
  {
    RemovedMembers(l, p);
    if l[0] != p {
      WorseRemoved(l[1..], p, bar, prio);
      assert RemoveFirst(l, p)[1..] == RemoveFirst(l[1..], p);
    } else {
      assert RemoveFirst(l, p) == l[1..];
    }
  }

  lemma {:induction false} SomeWorse(l: seq<nat>, bar: int, prio: Prio)
    requires forall w :: w in l ==> w in prio
    ensures Worse(l, bar, prio) > 0 <==> exists p :: p in l && prio[p] > bar
  {
    if l != [] {
      SomeWorse(l[1..], bar, prio);
      if Worse(l[1..], bar, prio) > 0 {
        var p :| p in l[1..] && prio[p] > bar;
        assert p in l;
      }
      if prio[l[0]] > bar { assert l[0] in l; }
      if p :| p in l && prio[p] > bar {
        assert p == l[0] || p in l[1..];
      }
    }
  }

  /** Somebody can be preempted exactly when somebody runs beyond the bar. */
  lemma OutrankedIff(q: Queues, prio: Prio)
    requires SingleOk(q, prio)
    ensures forall p :: p in q.exec.list && Outranked(q, prio[p]) ==> prio[p] > Bar(q)
    ensures Worse(q.exec.list, Bar(q), prio) > 0 ==> exists p :: p in q.exec.list && Outranked(q, prio[p])
  {
    WorstSpec(q.exec.list, prio);
    SomeWorse(q.exec.list, Bar(q), prio);
    if Worse(q.exec.list, Bar(q), prio) > 0 {
      var p :| p in q.exec.list && prio[p] > Bar(q);
      if Worst(q.exec.list, prio) > 0 {
        var w :| w in q.exec.list && prio[w] == Worst(q.exec.list, prio);
        assert Outranked(q, prio[w]);
      } else {
        assert Outranked(q, prio[p]);
      }
    }
  }

  // ---------- one preemption ----------

  /** What a preemption does: the head of the list runs, the process taken out goes to the end, and
      the best priority is refreshed only if nobody else was waiting. */
  lemma PreemptionIs(q: Queues, p: nat, prio: Prio)
    requires SingleOk(q, prio) && Effective(q, p, prio)
    ensures var l, q' := Waiting(q), Apply(q, PreemptOne(p), prio);
            && l != [] && TakeNext(q.ready).1 == Some(l[0]) && l[0] in prio
            && SingleOk(q', prio) && Waiting(q') == l[1..] + [p]
            && q'.exec.list == RemoveFirst(q.exec.list, p) + [l[0]]
            && q'.ready.highest == if |l| == 1 then prio[p] else q.ready.highest
  {
    var l, q' := Waiting(q), Apply(q, PreemptOne(p), prio);
    ApplyKeepsPlayable(q, PreemptOne(p), prio);
    HeadHasLevel(q, prio);
    RemovedMembers(q.exec.list, p);
    assert l != [] by { if l == [] { FirstNonEmptyIs(q.ready.queues, 1); } }
    FirstNonEmptyIs(q.ready.queues, 0);
    TakeExecKeeps(q.exec, p, prio);
    ToExecKeeps(TakeExec(q.exec, p, prio), l[0], prio);
  }

  lemma NoPreemption(q: Queues, p: nat, prio: Prio)
    requires SingleOk(q, prio) && !Effective(q, p, prio)
    ensures Apply(q, PreemptOne(p), prio) == q
  {
  }

  /** A preemption improves the running processes exactly when the head of the list, which runs
      next, is better than the process taken out. */
  lemma PreemptImprovesIff(q: Queues, p: nat, prio: Prio)
    requires SingleOk(q, prio) && Effective(q, p, prio)
    ensures var q' := Apply(q, PreemptOne(p), prio);
            && Waiting(q) != [] && Waiting(q)[0] in prio && SingleOk(q', prio)
            && (Sum(q'.exec.list, prio) < Sum(q.exec.list, prio) <==> prio[Waiting(q)[0]] < prio[p])
  {
    PreemptionIs(q, p, prio);
    SumRemoved(q.exec.list, p, prio);
    SumAppended(RemoveFirst(q.exec.list, p), Waiting(q)[0], prio);
  }

  /** So a preemption can bring in a process worse than the one it takes out. */
  lemma SingleLevelMayWorsen()
    ensures var prio: Prio := map[1 := 5, 2 := 9, 3 := 0];
            var q := Queues(ToReady(ToReady(InitReady(false, 1), 2, 9), 3, 0), ToExec(Exec([], 0), 1, 5));
            && Outranked(q, 5)
            && TakeNext(q.ready).1 == Some(2)
            && Preempt(q, 1, prio).exec.list == [2]
            && Sum(Preempt(q, 1, prio).exec.list, prio) > Sum(q.exec.list, prio)
  {
    var prio: Prio := map[1 := 5, 2 := 9, 3 := 0];
    var r0 := InitReady(false, 1);
    assert r0.queues == [[]];
    var r1 := ToReady(r0, 2, 9);
    assert r1.queues == [[] + [2]];
    assert [] + [2] == [2];
    var r := ToReady(r1, 3, 0);
    assert [2] + [3] == [2, 3];
    assert r.queues == [[2, 3]];
    var q := Queues(r, ToExec(Exec([], 0), 1, 5));
    assert q.exec.list == [1];
    assert RemoveFirst(q.exec.list, 1) == [];
    assert Preempt(q, 1, prio).exec.list == [2];
  }

  // ---------- with two or more waiting ----------

  /** Enough of the waiting processes keep within the bar to replace everybody who runs beyond it. */
  ghost predicate EnoughGood(q: Queues, prio: Prio)
    requires SingleOk(q, prio)
  {
    Worse(q.exec.list, Bar(q), prio) + Worse(Waiting(q), Bar(q), prio) <= |Waiting(q)|
  }

  /** A preemption of somebody beyond the bar moves the counts, not their difference. */
  lemma CountsMove(q: Queues, q': Queues, p: nat, prio: Prio)
    requires SingleOk(q, prio) && Effective(q, p, prio) && |Waiting(q)| >= 2 && q' == Apply(q, PreemptOne(p), prio)
    ensures var l := Waiting(q);
            && SingleOk(q', prio) && Waiting(q') == l[1..] + [p] && Bar(q') == Bar(q) && l[0] in prio && prio[p] > Bar(q)
            && Worse(Waiting(q), Bar(q), prio) == Worse(l[1..], Bar(q), prio) + (if prio[l[0]] > Bar(q) then 1 else 0)
            && Worse(Waiting(q'), Bar(q), prio) == Worse(l[1..], Bar(q), prio) + 1
            && Worse(q.exec.list, Bar(q), prio) >= 1
            && Worse(q'.exec.list, Bar(q), prio)
               == Worse(q.exec.list, Bar(q), prio) - (if prio[l[0]] > Bar(q) then 0 else 1)
  {
    var l := Waiting(q);
    assert forall w :: w in l[1..] ==> w in l;
    PreemptionIs(q, p, prio);
    OutrankedIff(q, prio);
    WorseAppended(l[1..], p, Bar(q), prio);
    WorseRemoved(q.exec.list, p, Bar(q), prio);
    WorseAppended(RemoveFirst(q.exec.list, p), l[0], Bar(q), prio);
  }

  /** How far into the list the k-th process within the bar stands. */
  function Need(l: seq<nat>, k: nat, bar: int, prio: Prio): nat
    requires forall w :: w in l ==> w in prio
    ensures Need(l, k, bar, prio) <= |l|
  {
    if k == 0 || l == [] then 0 else 1 + Need(l[1..], if prio[l[0]] > bar then k else k - 1, bar, prio)
  }

  lemma {:induction false} NeedAppended(l: seq<nat>, p: nat, k: nat, bar: int, prio: Prio)
    requires (forall w :: w in l ==> w in prio) && p in prio && k + Worse(l, bar, prio) <= |l|
    ensures Need(l + [p], k, bar, prio) == Need(l, k, bar, prio)
  {
    if l != [] && k > 0 {
      assert (l + [p])[1..] == l[1..] + [p];
      NeedAppended(l[1..], p, if prio[l[0]] > bar then k else k - 1, bar, prio);
    }
  }

  /** What is left of the way. */
  function Left(q: Queues, prio: Prio): nat
    requires |q.ready.queues| == 1 && (forall w :: w in Waiting(q) ==> w in prio)
    requires forall p :: p in q.exec.list ==> p in prio
  {
    Need(Waiting(q), Worse(q.exec.list, Bar(q), prio), Bar(q), prio)
  }

  lemma LeftFalls(q: Queues, q': Queues, p: nat, prio: Prio)
    requires SingleOk(q, prio) && Effective(q, p, prio) && |Waiting(q)| >= 2 && EnoughGood(q, prio)
    requires q' == Apply(q, PreemptOne(p), prio)
    ensures SingleOk(q', prio) && |Waiting(q')| >= 2 && EnoughGood(q', prio) && Left(q', prio) == Left(q, prio) - 1
  {
    CountsMove(q, q', p, prio);
    NeedFalls(Waiting(q), p, Worse(q.exec.list, Bar(q), prio), Bar(q), prio);
    CountsFall(q, q', p, prio);
  }

  lemma CountsFall(q: Queues, q': Queues, p: nat, prio: Prio)
    requires SingleOk(q, prio) && SingleOk(q', prio) && EnoughGood(q, prio) && Bar(q') == Bar(q)
    requires var l, bar, k := Waiting(q), Bar(q), Worse(q.exec.list, Bar(q), prio);
             && l != [] && l[0] in prio && Waiting(q') == l[1..] + [p] && k >= 1
             && Worse(l, bar, prio) == Worse(l[1..], bar, prio) + (if prio[l[0]] > bar then 1 else 0)
             && Worse(l[1..] + [p], bar, prio) == Worse(l[1..], bar, prio) + 1
             && Worse(q'.exec.list, bar, prio) == k - (if prio[l[0]] > bar then 0 else 1)
             && Need(l[1..] + [p], if prio[l[0]] > bar then k else k - 1, bar, prio) == Need(l, k, bar, prio) - 1
    ensures EnoughGood(q', prio) && Left(q', prio) == Left(q, prio) - 1
  {
  }

  lemma NeedFalls(l: seq<nat>, p: nat, k: nat, bar: int, prio: Prio)
    requires (forall w :: w in l ==> w in prio) && p in prio && l != [] && k > 0 && k + Worse(l, bar, prio) <= |l|
    ensures (forall w :: w in l[1..] + [p] ==> w in prio) && l[0] in prio
    ensures Need(l[1..] + [p], if prio[l[0]] > bar then k else k - 1, bar, prio) == Need(l, k, bar, prio) - 1
  {
    assert l[0] in l && forall w :: w in l[1..] ==> w in l;
    NeedAppended(l[1..], p, if prio[l[0]] > bar then k else k - 1, bar, prio);
  }

  lemma {:induction false} EnoughGoodEnds(q: Queues, ps: seq<nat>, prio: Prio)
    requires SingleOk(q, prio) && |Waiting(q)| >= 2 && EnoughGood(q, prio)
    ensures Preemptions(q, ps, prio) <= Left(q, prio) <= |Waiting(q)|
    decreases |ps|
  {
    if ps != [] {
      if Effective(q, ps[0], prio) {
        LeftFalls(q, Apply(q, PreemptOne(ps[0]), prio), ps[0], prio);
      } else {
        NoPreemption(q, ps[0], prio);
      }
      EnoughGoodEnds(Apply(q, PreemptOne(ps[0]), prio), ps[1..], prio);
    }
  }

  lemma {:induction false} TooFewGoodGoOn(q: Queues, n: nat, prio: Prio) returns (ps: seq<nat>)
    requires SingleOk(q, prio) && |Waiting(q)| >= 2 && !EnoughGood(q, prio)
    ensures |ps| == n && Preemptions(q, ps, prio) == n
    decreases n
  {
    if n == 0 {
      return [];
    }
    OutrankedIff(q, prio);
    var p :| p in q.exec.list && Outranked(q, prio[p]);
    FirstNonEmptyIs(q.ready.queues, 0);
    assert Effective(q, p, prio);
    var q' := Apply(q, PreemptOne(p), prio);
    CountsMove(q, q', p, prio);
    var rest := TooFewGoodGoOn(q', n - 1, prio);
    ps := [p] + rest;
    assert ps[1..] == rest;
  }

  // ---------- with one waiting ----------

  lemma {:induction false} NobodyBeyond(q: Queues, ps: seq<nat>, prio: Prio)
    requires SingleOk(q, prio) && Worse(q.exec.list, Bar(q), prio) == 0
    ensures Preemptions(q, ps, prio) == 0
    decreases |ps|
  {
    if ps != [] {
      OutrankedIff(q, prio);
      SomeWorse(q.exec.list, Bar(q), prio);
      NoPreemption(q, ps[0], prio);
      NobodyBeyond(q, ps[1..], prio);
    }
  }

  /** The exchange with the only waiting process leaves nobody running beyond the bar if the bar was
      that process's priority. */
  lemma ExchangeSettles(q: Queues, p: nat, prio: Prio)
    requires SingleOk(q, prio) && Effective(q, p, prio) && |Waiting(q)| == 1
    requires Waiting(q)[0] in prio && prio[Waiting(q)[0]] <= q.ready.highest
    ensures var q' := Apply(q, PreemptOne(p), prio);
            SingleOk(q', prio) && Worse(q'.exec.list, Bar(q'), prio) == 0
  {
    PreemptionIs(q, p, prio);
    WorstSpec(q.exec.list, prio);
    RemovedMembers(q.exec.list, p);
    var q' := Apply(q, PreemptOne(p), prio);
    SomeWorse(q'.exec.list, Bar(q'), prio);
  }

  lemma {:induction false} FreshBarEndsInOne(q: Queues, ps: seq<nat>, prio: Prio)
    requires SingleOk(q, prio) && |Waiting(q)| == 1
    requires Waiting(q)[0] in prio && prio[Waiting(q)[0]] <= q.ready.highest
    ensures Preemptions(q, ps, prio) <= 1
    decreases |ps|
  {
    if ps != [] {
      if Effective(q, ps[0], prio) {
        ExchangeSettles(q, ps[0], prio);
        NobodyBeyond(Apply(q, PreemptOne(ps[0]), prio), ps[1..], prio);
      } else {
        NoPreemption(q, ps[0], prio);
        FreshBarEndsInOne(q, ps[1..], prio);
      }
    }
  }

  lemma {:induction false} OneWaitingEndsInTwo(q: Queues, ps: seq<nat>, prio: Prio)
    requires SingleOk(q, prio) && |Waiting(q)| <= 1
    ensures Preemptions(q, ps, prio) <= 2
    decreases |ps|
  {
    if ps != [] {
      if Effective(q, ps[0], prio) {
        PreemptionIs(q, ps[0], prio);
        FreshBarEndsInOne(Apply(q, PreemptOne(ps[0]), prio), ps[1..], prio);
      } else {
        NoPreemption(q, ps[0], prio);
        OneWaitingEndsInTwo(q, ps[1..], prio);
      }
    }
  }

  // ---------- when preemptions end ----------

  ghost predicate Bounded(q: Queues, n: nat, prio: Prio)
    requires Playable(q, prio)
  {
    forall ps: seq<nat> :: Preemptions(q, ps, prio) <= n
  }

  /** However the CPUs try, preemptions end if and only if at most one process waits, or as many of
      the waiting processes keep within the bar as running ones are beyond it. */
  lemma PreemptionsEndIff(q: Queues, prio: Prio)
    requires SingleOk(q, prio)
    ensures (exists n: nat :: Bounded(q, n, prio)) <==> |Waiting(q)| <= 1 || EnoughGood(q, prio)
  {
    if |Waiting(q)| <= 1 || EnoughGood(q, prio) {
      forall ps: seq<nat> ensures Preemptions(q, ps, prio) <= |Waiting(q)| + 2 {
        if |Waiting(q)| <= 1 { OneWaitingEndsInTwo(q, ps, prio); } else { EnoughGoodEnds(q, ps, prio); }
      }
      assert Bounded(q, |Waiting(q)| + 2, prio);
    } else {
      forall n: nat ensures !Bounded(q, n, prio) {
        var ps := TooFewGoodGoOn(q, n + 1, prio);
      }
    }
  }

  /** With one running process it suffices that READY's best priority is that of a waiting one, or
      worse. */
  lemma RightBarSuffices(q: Queues, w: nat, prio: Prio)
    requires SingleOk(q, prio) && |q.exec.list| == 1 && w in Waiting(q) && prio[w] <= q.ready.highest
    ensures exists n: nat :: Bounded(q, n, prio)
  {
    NotAllWorse(Waiting(q), w, Bar(q), prio);
    PreemptionsEndIff(q, prio);
  }

  lemma {:induction false} NotAllWorse(l: seq<nat>, w: nat, bar: int, prio: Prio)
    requires (forall x :: x in l ==> x in prio) && w in l && prio[w] <= bar
    ensures Worse(l, bar, prio) < |l|
  {
    if l[0] != w {
      NotAllWorse(l[1..], w, bar, prio);
    }
  }

  // ---------- runs ----------

  lemma ApplyKeepsSingle(q: Queues, op: Op, prio: Prio)
    requires SingleOk(q, prio)
    ensures SingleOk(Apply(q, op, prio), prio)
  {
    ApplyKeepsPlayable(q, op, prio);
    HeadHasLevel(q, prio);
    if Waiting(q) != [] { FirstNonEmptyIs(q.ready.queues, 0); } else { FirstNonEmptyIs(q.ready.queues, 1); }
    match op {
      case Arrive(p) =>
      case DispatchNext =>
        var n := TakeNext(q.ready).1;
        if n.Some? { ToExecKeeps(q.exec, n.value, prio); }
      case LeaveExec(p) => TakeExecKeeps(q.exec, p, prio);
      case PreemptOne(p) => if Effective(q, p, prio) { PreemptionIs(q, p, prio); }
    }
  }

  lemma {:induction false} RunKeepsSingle(q: Queues, ops: seq<Op>, prio: Prio)
    requires SingleOk(q, prio)
    ensures SingleOk(Run(q, ops, prio), prio)
    decreases |ops|
  {
    if ops != [] {
      ApplyKeepsSingle(q, ops[0], prio);
      ApplyKeepsPlayable(q, ops[0], prio);
      RunKeepsSingle(Apply(q, ops[0], prio), ops[1..], prio);
    }
  }

  /** Every run from empty queues ends in a state to which the laws above apply. */
  lemma EveryRunIsSingle(ops: seq<Op>, prio: Prio)
    ensures SingleOk(NoQueues(false, 1), prio) && SingleOk(Run(NoQueues(false, 1), ops, prio), prio)
  {
    RunKeepsSingle(NoQueues(false, 1), ops, prio);
  }

  const PRIO: Prio := map[1 := 5, 2 := 9, 3 := 0, 4 := 9]

  const ARRIVALS: seq<Op> := [Arrive(3), Arrive(2), Arrive(4), DispatchNext, LeaveExec(3), DispatchNext, Arrive(1)]

  /** One CPU. Process 3 is served and leaves, and READY keeps promising its priority: from here on
      the CPU can preempt for ever, although everybody who waits is worse than that. */
  lemma PreemptionsNeedNotEnd() returns (q: Queues)
    ensures Playable(NoQueues(false, 1), PRIO) && q == Run(NoQueues(false, 1), ARRIVALS, PRIO)
    ensures q == Queues(Ready(false, [[4, 1]], 2, 0), Exec([2], 9))
    ensures SingleOk(q, PRIO) && !exists n: nat :: Bounded(q, n, PRIO)
  {
    EveryRunIsSingle(ARRIVALS, PRIO);
    q := Run(NoQueues(false, 1), ARRIVALS, PRIO);
    ArrivalsLead();
    assert Worse([2], 0, PRIO) == 1 && Worse([4, 1], 0, PRIO) == 2;
    PreemptionsEndIff(q, PRIO);
  }

  function State(waiting: seq<nat>, highest: int, running: seq<nat>, lowest: int): Queues {
    Queues(Ready(false, [waiting], |waiting|, highest), Exec(running, lowest))
  }

  lemma ArrivalsLead()
    ensures Playable(NoQueues(false, 1), PRIO)
    ensures Run(NoQueues(false, 1), ARRIVALS, PRIO) == State([4, 1], 0, [2], 9)
  {
    EveryRunIsSingle([], PRIO);
    assert InitReady(false, 1).queues == [[]];
    assert [] + [3] == [3] && [3] + [2] == [3, 2] && [3, 2] + [4] == [3, 2, 4];
    var q0 := NoQueues(false, 1);
    ArrivalStep(q0, ARRIVALS, [], 3, State([3], 0, [], 0));
    ArrivalStep(State([3], 0, [], 0), ARRIVALS[1..], [3], 2, State([3, 2], 0, [], 0));
    ArrivalStep(State([3, 2], 0, [], 0), ARRIVALS[2..], [3, 2], 4, State([3, 2, 4], 0, [], 0));
    AfterArrivals();
  }

  lemma ArrivalStep(q: Queues, ops: seq<Op>, waiting: seq<nat>, p: nat, q': Queues)
    requires Playable(q, PRIO) && p in PRIO && ops != [] && ops[0] == Arrive(p)
    requires q == Queues(Ready(false, [waiting], |waiting|, q.ready.highest), q.exec)
    requires q' == Queues(Ready(false, [waiting + [p]], |waiting| + 1,
                                if waiting == [] || q.ready.highest > PRIO[p] then PRIO[p] else q.ready.highest), q.exec)
    ensures Playable(q', PRIO) && Run(q, ops, PRIO) == Run(q', ops[1..], PRIO)
  {
    assert q.ready.queues[0 := waiting + [p]] == [waiting + [p]];
    RunUnfold(q, ops, q');
  }

  lemma AfterArrivals()
    requires Playable(State([3, 2, 4], 0, [], 0), PRIO)
    ensures Run(State([3, 2, 4], 0, [], 0), ARRIVALS[3..], PRIO) == State([4, 1], 0, [2], 9)
  {
    assert [] + [3] == [3] && [3, 2, 4][1..] == [2, 4];
    RunUnfold(State([3, 2, 4], 0, [], 0), ARRIVALS[3..], State([2, 4], 0, [3], 0));
    assert RemoveFirst([3], 3) == [];
    RunUnfold(State([2, 4], 0, [3], 0), ARRIVALS[4..], State([2, 4], 0, [], 0));
    AfterDeparture();
  }

  lemma AfterDeparture()
    requires Playable(State([2, 4], 0, [], 0), PRIO)
    ensures Run(State([2, 4], 0, [], 0), ARRIVALS[5..], PRIO) == State([4, 1], 0, [2], 9)
  {
    assert [] + [2] == [2] && [2, 4][1..] == [4];
    RunUnfold(State([2, 4], 0, [], 0), ARRIVALS[5..], State([4], 0, [2], 9));
    assert [4] + [1] == [4, 1];
    RunUnfold(State([4], 0, [2], 9), ARRIVALS[6..], State([4, 1], 0, [2], 9));
  }

  lemma RunUnfold(q: Queues, ops: seq<Op>, q': Queues)
    requires Playable(q, PRIO) && ops != [] && Apply(q, ops[0], PRIO) == q'
    ensures Playable(q', PRIO) && Run(q, ops, PRIO) == Run(q', ops[1..], PRIO)
  {
    ApplyKeepsPlayable(q, ops[0], PRIO);
  }
}
