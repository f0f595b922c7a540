/** Who is in READY and who is in EXEC after each operation on the levels, and that nobody is lost or
    doubled over any run. */
module ReadyMoves {
  import opened Options
  import opened PriorityLists
  import opened ReadyQueues

  // ---------- one operation ----------

  /** The best level somebody waits in. */
  ghost predicate BestLevel(qs: seq<seq<nat>>, i: nat) {
    i < |qs| && qs[i] != [] && forall k :: 0 <= k < i ==> qs[k] == []
  }

  /** Level i loses its head, level l gets p at its end, either of them only if there is one; the other
      processes keep level and order. */
  ghost predicate Passed(qs: seq<seq<nat>>, qs': seq<seq<nat>>, i: Option<nat>, l: Option<nat>, p: nat) {
    && |qs'| == |qs|
    && (i.Some? ==> i.value < |qs| && qs[i.value] != [])
    && forall k :: 0 <= k < |qs| ==>
         qs'[k] == (if i == Some(k) then qs[k][1..] else qs[k]) + (if l == Some(k) then [p] else [])
  }

  /** One occurrence of p is gone; the others keep their order. */
  ghost predicate Loses(l: seq<nat>, l': seq<nat>, p: nat) {
    exists i :: 0 <= i < |l| && l[i] == p && l' == l[..i] + l[i + 1..]
  }

  lemma RemovalLoses(l: seq<nat>, p: nat)
    requires p in l
    ensures Loses(l, RemoveFirst(l, p), p)
  {
    var i := IndexOf(l, p);
    assert l[i] == p && RemoveFirst(l, p) == l[..i] + l[i + 1..];
  }

  lemma HeadIs(r: Ready, i: nat)
    requires BestLevel(r.queues, i)
    ensures TakeNext(r).1 == Some(r.queues[i][0]) && TakeNext(r).0.queues == r.queues[i := r.queues[i][1..]]
    ensures TakeNext(r).0.count == r.count - 1 && TakeNext(r).0.multilevel == r.multilevel
  {
    FirstNonEmptyIs(r.queues, i);
  }

  lemma BestLevelIs(r: Ready) returns (i: nat)
    requires TakeNext(r).1.Some?
    ensures BestLevel(r.queues, i)
  {
    i := FirstNonEmpty(r.queues);
  }

  /** An effective preemption of p, with several levels or one: the head of the best level runs instead of
      p, which is last in its own level; nobody else moves. */
  lemma PreemptionExchanges(q: Queues, p: nat, prio: Prio) returns (i: nat)
    requires Playable(q, prio) && Effective(q, p, prio)
    ensures BestLevel(q.ready.queues, i)
    ensures var q' := Apply(q, PreemptOne(p), prio);
            && (exists rest :: Loses(q.exec.list, rest, p) && q'.exec.list == rest + [q.ready.queues[i][0]])
            && Passed(q.ready.queues, q'.ready.queues, Some(i), Some(if q.ready.multilevel then prio[p] else 0), p)
            && q'.ready.count == q.ready.count && q'.ready.multilevel == q.ready.multilevel
  {
    i := BestLevelIs(q.ready);
    HeadIs(q.ready, i);
    HeadHasLevel(q, prio);
    RemovalLoses(q.exec.list, p);
    assert HasLevel(q.ready, p, prio);
    assert Apply(q, PreemptOne(p), prio).exec.list == RemoveFirst(q.exec.list, p) + [q.ready.queues[i][0]];
  }

  /** An arrival is last in its level; nobody else moves. */
  lemma ArrivalIsLast(q: Queues, p: nat, prio: Prio)
    requires Playable(q, prio)
    ensures var q' := Apply(q, Arrive(p), prio);
            if HasLevel(q.ready, p, prio)
            then q'.exec == q.exec && q'.ready.count == q.ready.count + 1
                 && Passed(q.ready.queues, q'.ready.queues, None, Some(if q.ready.multilevel then prio[p] else 0), p)
                 && q'.ready.highest == if q.ready.count == 0 || prio[p] < q.ready.highest then prio[p] else q.ready.highest
            else q' == q
  {
  }

  /** A dispatch takes the head of the best level, if there is one, into EXEC; nobody else moves. */
  lemma DispatchTakesBest(q: Queues, i: nat, prio: Prio)
    requires Playable(q, prio) && BestLevel(q.ready.queues, i)
    ensures var q' := Apply(q, DispatchNext, prio);
            && q'.exec.list == q.exec.list + [q.ready.queues[i][0]] && q'.ready.count == q.ready.count - 1
            && Passed(q.ready.queues, q'.ready.queues, Some(i), None, 0)
            && (|q.ready.queues[i]| > 1 ==> q'.ready.highest == q.ready.highest)
            && (!q.ready.multilevel && |q.ready.queues[i]| == 1 ==> q'.ready.highest == |q.ready.queues|)
  {
    HeadHasLevel(q, prio);
    HeadIs(q.ready, i);
    FirstNonEmptyIs(q.ready.queues, i);
  }

  lemma NothingToDispatch(q: Queues, prio: Prio)
    requires Playable(q, prio) && !exists i: nat :: BestLevel(q.ready.queues, i)
    ensures Apply(q, DispatchNext, prio) == q
  {
    HeadHasLevel(q, prio);
    if TakeNext(q.ready).1.Some? { var i := BestLevelIs(q.ready); }
  }

  /** A departure takes one occurrence out of EXEC; nobody else moves. */
  lemma DepartureLeaves(q: Queues, p: nat, prio: Prio)
    requires Playable(q, prio)
    ensures var q' := Apply(q, LeaveExec(p), prio);
            q'.ready == q.ready && if p in q.exec.list then Loses(q.exec.list, q'.exec.list, p) else q'.exec.list == q.exec.list
  {
    HeadHasLevel(q, prio);
    if p in q.exec.list { RemovalLoses(q.exec.list, p); }
  }

  /** Taking a process out of READY: its level loses one occurrence of it, the other levels nothing. */
  lemma TakeReadyTakes(r: Ready, p: nat, x: int)
    requires 0 <= LevelOf(r, x) < |r.queues| && p in r.queues[LevelOf(r, x)]
    ensures var r' := TakeReady(r, p, x);
            && |r'.queues| == |r.queues| && r'.count == r.count - 1
            && forall k :: 0 <= k < |r.queues| ==>
                 if k == (if r.multilevel then x else 0) then Loses(r.queues[k], r'.queues[k], p)
                 else r'.queues[k] == r.queues[k]
  {
    RemovalLoses(r.queues[LevelOf(r, x)], p);
  }

  // ---------- over every run ----------

  ghost function Everybody(qs: seq<seq<nat>>): multiset<nat> {
    if qs == [] then multiset{} else multiset(qs[0]) + Everybody(qs[1..])
  }

  /** All who are in READY or in EXEC, as often as they are there. */
  ghost function Present(q: Queues): multiset<nat> {
    Everybody(q.ready.queues) + multiset(q.exec.list)
  }

  lemma {:induction false} EverybodyUpdate(qs: seq<seq<nat>>, i: nat, l: seq<nat>)
    requires i < |qs|
    ensures Everybody(qs[i := l]) + multiset(qs[i]) == Everybody(qs) + multiset(l)
  {
    if i > 0 {
      assert qs[i := l][1..] == qs[1..][i - 1 := l];
      EverybodyUpdate(qs[1..], i - 1, l);
      var x, y := Everybody(qs[1..][i - 1 := l]), Everybody(qs[1..]);
      forall k ensures (multiset(qs[0]) + x + multiset(qs[i]))[k] == (multiset(qs[0]) + y + multiset(l))[k] {
        assert (x + multiset(qs[i]))[k] == (y + multiset(l))[k];
      }
    } else {
      assert qs[i := l][1..] == qs[1..];
    }
  }

  lemma HeadCounts(l: seq<nat>)
    requires l != []
    ensures multiset(l) == multiset(l[1..]) + multiset{l[0]}
  {
    assert l == [l[0]] + l[1..];
  }

  lemma LosesCounts(l: seq<nat>, l': seq<nat>, p: nat)
    requires Loses(l, l', p)
    ensures multiset(l) == multiset(l') + multiset{p}
  {
    var i :| 0 <= i < |l| && l[i] == p && l' == l[..i] + l[i + 1..];
    assert l == l[..i] + ([l[i]] + l[i + 1..]);
  }

  /** A list of levels with one head gone. */
  lemma WithoutHead(qs: seq<seq<nat>>, i: nat)
    requires i < |qs| && qs[i] != []
    ensures Everybody(qs[i := qs[i][1..]]) + multiset{qs[i][0]} == Everybody(qs)
  {
    EverybodyUpdate(qs, i, qs[i][1..]);
    HeadCounts(qs[i]);
    Shift(Everybody(qs[i := qs[i][1..]]), Everybody(qs), multiset(qs[i][1..]), multiset{qs[i][0]});
  }

  lemma Shift(x: multiset<nat>, y: multiset<nat>, a: multiset<nat>, b: multiset<nat>)
    requires x + (a + b) == y + a
    ensures x + b == y
  {
    forall k ensures (x + b)[k] == y[k] {
      assert (x + (a + b))[k] == (y + a)[k];
    }
  }

  lemma WithLast(qs: seq<seq<nat>>, l: nat, p: nat)
    requires l < |qs|
    ensures Everybody(qs[l := qs[l] + [p]]) == Everybody(qs) + multiset{p}
  {
    EverybodyUpdate(qs, l, qs[l] + [p]);
    assert multiset(qs[l] + [p]) == multiset(qs[l]) + multiset{p};
    forall k ensures Everybody(qs[l := qs[l] + [p]])[k] == (Everybody(qs) + multiset{p})[k] {
      assert (Everybody(qs[l := qs[l] + [p]]) + multiset(qs[l]))[k] == (Everybody(qs) + (multiset(qs[l]) + multiset{p}))[k];
    }
  }

  lemma PassedIs(qs: seq<seq<nat>>, qs': seq<seq<nat>>, i: nat, l: nat, p: nat)
    requires Passed(qs, qs', Some(i), Some(l), p) && l < |qs|
    ensures qs' == qs[i := qs[i][1..]][l := qs[i := qs[i][1..]][l] + [p]]
  {
    var mid := qs[i := qs[i][1..]];
    forall k | 0 <= k < |qs| ensures qs'[k] == mid[l := mid[l] + [p]][k] {
    }
  }

  /** A preemption neither loses nor doubles anybody. */
  lemma PreemptionConserves(q: Queues, p: nat, prio: Prio)
    requires Playable(q, prio)
    ensures Present(Apply(q, PreemptOne(p), prio)) == Present(q)
  {
    if Effective(q, p, prio) {
      var i := PreemptionExchanges(q, p, prio);
      var q', qs := Apply(q, PreemptOne(p), prio), q.ready.queues;
      var l: nat := if q.ready.multilevel then prio[p] else 0;
      var rest :| Loses(q.exec.list, rest, p) && q'.exec.list == rest + [qs[i][0]];
      assert HasLevel(q.ready, p, prio);
      LosesCounts(q.exec.list, rest, p);
      WithoutHead(qs, i);
      WithLast(qs[i := qs[i][1..]], l, p);
      PassedIs(qs, q'.ready.queues, i, l, p);
      Balance(Everybody(qs), Everybody(q'.ready.queues), Everybody(qs[i := qs[i][1..]]), multiset(rest), p, qs[i][0]);
      assert multiset(rest + [qs[i][0]]) == multiset(rest) + multiset{qs[i][0]};
    }
  }

  lemma Balance(ready: multiset<nat>, ready': multiset<nat>, mid: multiset<nat>, rest: multiset<nat>, p: nat, n: nat)
    requires mid + multiset{n} == ready && ready' == mid + multiset{p}
    ensures ready' + (rest + multiset{n}) == ready + (rest + multiset{p})
  {
  }

  /** What an operation adds. */
  ghost function Added(q: Queues, op: Op, prio: Prio): multiset<nat> {
    if op.Arrive? && HasLevel(q.ready, op.p, prio) then multiset{op.p} else multiset{}
  }

  /** What it takes out of the system. */
  ghost function Taken(q: Queues, op: Op): multiset<nat> {
    if op.LeaveExec? && op.p in q.exec.list then multiset{op.p} else multiset{}
  }

  lemma OperationConserves(q: Queues, op: Op, prio: Prio)
    requires Playable(q, prio)
    ensures Present(Apply(q, op, prio)) + Taken(q, op) == Present(q) + Added(q, op, prio)
  {
    match op
    case Arrive(p) => ArrivalConserves(q, p, prio);
    case DispatchNext => DispatchConserves(q, prio);
    case LeaveExec(p) =>
      DepartureLeaves(q, p, prio);
      if p in q.exec.list { LosesCounts(q.exec.list, Apply(q, op, prio).exec.list, p); }
    case PreemptOne(p) => PreemptionConserves(q, p, prio);
  }

  lemma ArrivalConserves(q: Queues, p: nat, prio: Prio)
    requires Playable(q, prio)
    ensures Present(Apply(q, Arrive(p), prio)) == Present(q) + Added(q, Arrive(p), prio)
  {
    ArrivalIsLast(q, p, prio);
    if HasLevel(q.ready, p, prio) {
      var q', l := Apply(q, Arrive(p), prio), LevelOf(q.ready, prio[p]);
      WithLast(q.ready.queues, l, p);
      assert q'.ready.queues == q.ready.queues[l := q.ready.queues[l] + [p]];
      OneMore(Everybody(q.ready.queues), multiset(q.exec.list), p);
    }
  }

  lemma OneMore(ready: multiset<nat>, exec: multiset<nat>, p: nat)
    ensures (ready + multiset{p}) + exec == (ready + exec) + multiset{p}
  {
  }

  lemma DispatchConserves(q: Queues, prio: Prio)
    requires Playable(q, prio)
    ensures Present(Apply(q, DispatchNext, prio)) == Present(q)
  {
    if i: nat :| BestLevel(q.ready.queues, i) {
      DispatchTakesBest(q, i, prio);
      HeadRuns(q, Apply(q, DispatchNext, prio), i);
    } else {
      NothingToDispatch(q, prio);
    }
  }

  lemma HeadPassedIs(qs: seq<seq<nat>>, qs': seq<seq<nat>>, i: nat)
    requires Passed(qs, qs', Some(i), None, 0)
    ensures qs' == qs[i := qs[i][1..]]
  {
    forall k: nat | k < |qs| ensures qs'[k] == qs[i := qs[i][1..]][k] {
      assert qs'[k] == (if k == i then qs[k][1..] else qs[k]) + [];
    }
  }

  lemma HeadRuns(q: Queues, q': Queues, i: nat)
    requires BestLevel(q.ready.queues, i) && Passed(q.ready.queues, q'.ready.queues, Some(i), None, 0)
    requires q'.exec.list == q.exec.list + [q.ready.queues[i][0]]
    ensures Present(q') == Present(q)
  {
    var qs := q.ready.queues;
    WithoutHead(qs, i);
    HeadPassedIs(qs, q'.ready.queues, i);
    OneMore(Everybody(qs[i := qs[i][1..]]), multiset(q.exec.list), qs[i][0]);
    assert multiset(q'.exec.list) == multiset(q.exec.list) + multiset{qs[i][0]};
  }

  ghost function AllAdded(q: Queues, ops: seq<Op>, prio: Prio): multiset<nat>
    requires Playable(q, prio)
    decreases |ops|
  {
    if ops == [] then multiset{}
    else
      ApplyKeepsPlayable(q, ops[0], prio);
      Added(q, ops[0], prio) + AllAdded(Apply(q, ops[0], prio), ops[1..], prio)
  }

  ghost function AllTaken(q: Queues, ops: seq<Op>, prio: Prio): multiset<nat>
    requires Playable(q, prio)
    decreases |ops|
  {
    if ops == [] then multiset{}
    else
      ApplyKeepsPlayable(q, ops[0], prio);
      Taken(q, ops[0]) + AllTaken(Apply(q, ops[0], prio), ops[1..], prio)
  }

  /** Over every run, with several levels or one: who was there or arrived is there, once for each time,
      or has left. */
  lemma {:induction false} EveryRunConserves(q: Queues, ops: seq<Op>, prio: Prio)
    requires Playable(q, prio)
    ensures Present(Run(q, ops, prio)) + AllTaken(q, ops, prio) == Present(q) + AllAdded(q, ops, prio)
    decreases |ops|
  {
    if ops != [] {
      ApplyKeepsPlayable(q, ops[0], prio);
      var q1 := Apply(q, ops[0], prio);
      OperationConserves(q, ops[0], prio);
      EveryRunConserves(q1, ops[1..], prio);
      Chain(Present(q), Present(q1), Present(Run(q, ops, prio)), Taken(q, ops[0]), AllTaken(q1, ops[1..], prio),
            Added(q, ops[0], prio), AllAdded(q1, ops[1..], prio));
    }
  }

  lemma Chain(x: multiset<nat>, y: multiset<nat>, z: multiset<nat>,
              t: multiset<nat>, t': multiset<nat>, a: multiset<nat>, a': multiset<nat>)
    requires y + t == x + a && z + t' == y + a'
    ensures z + (t + t') == x + (a + a')
  {
    forall k ensures (z + (t + t'))[k] == (x + (a + a'))[k] {
      assert (y + t)[k] == (x + a)[k] && (z + t')[k] == (y + a')[k];
    }
  }
}
