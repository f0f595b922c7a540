/** The assumption behind the resume loop, proved: in ascending block number, a process's swap
    blocks always come in the order of their segments, and within a segment in the order of their
    parts, over every run, whoever else suspends and resumes in between. */
module BlockOrder {
  import opened Extents
  import opened MemoryTables
  import opened Sticks
  import opened SwapTables
  import opened SuspendLaws
  import opened ResumeLaws
  import opened KernelMemoryRuns

  predicate Before(x: Record, y: Record) {
    x.segment < y.segment || (x.segment == y.segment && x.part < y.part)
  }

  ghost predicate InOrder(rs: seq<Record>) {
    forall a, b :: 0 <= a < b < |rs| ==> Before(rs[a], rs[b])
  }

  /** Blocks of one segment come in the order of its parts: all that the resume loop relies on. */
  ghost predicate PartsInOrder(rs: seq<Record>) {
    forall a, b :: 0 <= a < b < |rs| && rs[a].segment == rs[b].segment ==> rs[a].part < rs[b].part
  }

  /** The one order or the other. */
  ghost predicate Sequenced(rs: seq<Record>, ascending: bool) {
    if ascending then InOrder(rs) else PartsInOrder(rs)
  }

  /** Segment ids grow along the list. */
  ghost predicate IdsAscend(list: seq<Segment>) {
    forall a, b :: 0 <= a < b < |list| ==> list[a].id < list[b].id
  }

  /** The ids that make a process's records come in the one order or the other. */
  ghost predicate GoodIds(list: seq<Segment>, ascending: bool) {
    if ascending then IdsAscend(list) else DistinctIds(list)
  }

  /** A suspension is asked for only while the process owns no block, and with its segments in id
      order, or at least under different ids. */
  ghost predicate Orderly(km: Km, op: Op, ascending: bool)
    requires Running(km)
  {
    op.Suspend? ==> Stored(km, op.pid) == [] && GoodIds(OfProcess(km.memory.segments, op.pid), ascending)
  }

  lemma InOrderConcat(x: seq<Record>, y: seq<Record>)
    requires InOrder(x) && InOrder(y)
    requires forall a, b :: 0 <= a < |x| && 0 <= b < |y| ==> Before(x[a], y[b])
    ensures InOrder(x + y)
  {
  }

  lemma {:induction false} CutInOrder(bytes: seq<Byte>, id: nat, blockSize: nat, p: nat)
    requires blockSize > 0
    ensures forall k :: 0 <= k < |Cut(bytes, id, blockSize, p)| ==>
              Cut(bytes, id, blockSize, p)[k].segment == id && Cut(bytes, id, blockSize, p)[k].part == p + k
    decreases |bytes| - p * blockSize
  {
    if p * blockSize < |bytes| {
      assert (p + 1) * blockSize == p * blockSize + blockSize;
      CutInOrder(bytes, id, blockSize, p + 1);
      var rest := Cut(bytes, id, blockSize, p + 1);
      forall k | 0 < k < |Cut(bytes, id, blockSize, p)|
        ensures Cut(bytes, id, blockSize, p)[k] == rest[k - 1]
      {
      }
    }
  }

  ghost predicate HasId(list: seq<Segment>, id: nat) {
    exists s :: s in list && s.id == id
  }

  /** Every record belongs to one of the segments. */
  ghost predicate FromList(rs: seq<Record>, list: seq<Segment>) {
    forall k :: 0 <= k < |rs| ==> HasId(list, rs[k].segment)
  }

  lemma HeadBeforeRest(head: seq<Record>, rest: seq<Record>, list: seq<Segment>)
    requires list != [] && IdsAscend(list) && FromList(rest, list[1..])
    requires forall k :: 0 <= k < |head| ==> head[k].segment == list[0].id
    ensures forall a, b :: 0 <= a < |head| && 0 <= b < |rest| ==> Before(head[a], rest[b])
  {
    forall a, b | 0 <= a < |head| && 0 <= b < |rest| ensures Before(head[a], rest[b]) {
      assert HasId(list[1..], rest[b].segment);
      var t :| t in list[1..] && t.id == rest[b].segment;
      var i :| 0 <= i < |list[1..]| && list[1..][i] == t;
      assert list[i + 1] == t;
    }
  }

  lemma JoinFromList(head: seq<Record>, rest: seq<Record>, list: seq<Segment>)
    requires list != [] && FromList(rest, list[1..])
    requires forall k :: 0 <= k < |head| ==> head[k].segment == list[0].id
    ensures FromList(head + rest, list)
  {
    assert list[0] in list;
    forall k | 0 <= k < |head + rest| ensures HasId(list, (head + rest)[k].segment) {
      if k >= |head| {
        assert HasId(list[1..], rest[k - |head|].segment);
        var t :| t in list[1..] && t.id == rest[k - |head|].segment;
        assert t in list;
      }
    }
  }

  lemma {:induction false} CutAllInOrder(km: Km, list: seq<Segment>)
    requires km.blockSize > 0 && AllInRange(km, list) && IdsAscend(list)
    ensures InOrder(CutAll(km, list)) && FromList(CutAll(km, list), list)
  {
    if list != [] {
      var s := list[0];
      assert s in list;
      assert forall t :: t in list[1..] ==> t in list;
      var head, rest := Cut(BytesOf(km, s), s.id, km.blockSize, 0), CutAll(km, list[1..]);
      CutInOrder(BytesOf(km, s), s.id, km.blockSize, 0);
      CutAllInOrder(km, list[1..]);
      HeadBeforeRest(head, rest, list);
      InOrderConcat(head, rest);
      JoinFromList(head, rest, list);
    }
  }

  /** Every record of the list's segments comes from one of them, and each has a first part. */
  lemma {:induction false} CutAllCovers(km: Km, list: seq<Segment>)
    requires km.blockSize > 0 && AllInRange(km, list)
    ensures FromList(CutAll(km, list), list)
    ensures forall s :: s in list ==> HasFirstPart(CutAll(km, list), s.id)
  {
    if list != [] {
      var s := list[0];
      assert s in list;
      assert forall t :: t in list[1..] ==> t in list;
      var head, rest := Cut(BytesOf(km, s), s.id, km.blockSize, 0), CutAll(km, list[1..]);
      CutInOrder(BytesOf(km, s), s.id, km.blockSize, 0);
      CutAllCovers(km, list[1..]);
      JoinFromList(head, rest, list);
      assert 0 * km.blockSize == 0;
      assert (head + rest)[0] == head[0];
      forall t | t in list ensures HasFirstPart(head + rest, t.id) {
        if t != s {
          assert t in list[1..] && HasFirstPart(rest, t.id);
          var k :| 0 <= k < |rest| && rest[k].segment == t.id && rest[k].part == 0;
          assert (head + rest)[|head| + k] == rest[k];
        }
      }
    }
  }

  ghost predicate HasFirstPart(rs: seq<Record>, id: nat) {
    exists k :: 0 <= k < |rs| && rs[k].segment == id && rs[k].part == 0
  }

  lemma PartsConcat(x: seq<Record>, y: seq<Record>)
    requires PartsInOrder(x) && PartsInOrder(y)
    requires forall a, b :: 0 <= a < |x| && 0 <= b < |y| ==> x[a].segment != y[b].segment
    ensures PartsInOrder(x + y)
  {
  }

  lemma PartsOfRest(x: seq<Record>, y: seq<Record>)
    requires PartsInOrder(x + y)
    ensures PartsInOrder(y)
    ensures forall a, b :: 0 <= a < |x| && 0 <= b < |y| && x[a].segment == y[b].segment ==> x[a].part < y[b].part
  {
    forall a, b | 0 <= a < b < |y| && y[a].segment == y[b].segment ensures y[a].part < y[b].part {
      assert (x + y)[|x| + a] == y[a] && (x + y)[|x| + b] == y[b];
    }
    forall a, b | 0 <= a < |x| && 0 <= b < |y| && x[a].segment == y[b].segment ensures x[a].part < y[b].part {
      assert (x + y)[a] == x[a] && (x + y)[|x| + b] == y[b];
    }
  }

  lemma DistinctHead(list: seq<Segment>)
    requires list != []
    ensures DistinctIds(list) <==> DistinctIds(list[1..]) && !HasId(list[1..], list[0].id)
  {
    var rest := list[1..];
    assert forall k :: 0 <= k < |rest| ==> rest[k] == list[k + 1];
    if DistinctIds(list) {
      forall t | t in rest ensures t.id != list[0].id {
        var k :| 0 <= k < |rest| && rest[k] == t;
        assert list[k + 1] == t;
      }
    }
    if DistinctIds(rest) && !HasId(rest, list[0].id) {
      forall a, b | 0 <= a < b < |list| ensures list[a].id != list[b].id {
        assert list[b] == rest[b - 1] && rest[b - 1] in rest;
        if a > 0 { assert list[a] == rest[a - 1]; }
      }
    }
  }

  /** The records of a process come with the parts of each segment in order if and only if its segments
      have different ids. */
  lemma {:induction false} CutAllPartsIff(km: Km, list: seq<Segment>)
    requires km.blockSize > 0 && AllInRange(km, list)
    ensures PartsInOrder(CutAll(km, list)) <==> DistinctIds(list)
  {
    if list != [] {
      var s := list[0];
      assert s in list;
      assert forall t :: t in list[1..] ==> t in list;
      var head, rest := Cut(BytesOf(km, s), s.id, km.blockSize, 0), CutAll(km, list[1..]);
      CutInOrder(BytesOf(km, s), s.id, km.blockSize, 0);
      assert 0 * km.blockSize == 0;
      assert head != [];
      CutAllPartsIff(km, list[1..]);
      CutAllCovers(km, list[1..]);
      DistinctHead(list);
      if DistinctIds(list) {
        forall b | 0 <= b < |rest| ensures rest[b].segment != s.id { assert HasId(list[1..], rest[b].segment); }
        PartsConcat(head, rest);
      }
      if PartsInOrder(head + rest) {
        PartsOfRest(head, rest);
        forall t | t in list[1..] ensures t.id != s.id {
          assert HasFirstPart(rest, t.id);
          var b :| 0 <= b < |rest| && rest[b].segment == t.id && rest[b].part == 0;
          assert head[0].segment != rest[b].segment;
        }
      }
    }
  }

  lemma OrderOfRest(x: seq<Record>, y: seq<Record>)
    requires InOrder(x + y)
    ensures InOrder(y) && forall a, b :: 0 <= a < |x| && 0 <= b < |y| ==> Before(x[a], y[b])
  {
    forall a, b | 0 <= a < b < |y| ensures Before(y[a], y[b]) {
      assert (x + y)[|x| + a] == y[a] && (x + y)[|x| + b] == y[b];
    }
    forall a, b | 0 <= a < |x| && 0 <= b < |y| ensures Before(x[a], y[b]) {
      assert (x + y)[a] == x[a] && (x + y)[|x| + b] == y[b];
    }
  }

  lemma AscendHead(list: seq<Segment>)
    requires list != [] && IdsAscend(list[1..]) && forall t :: t in list[1..] ==> list[0].id < t.id
    ensures IdsAscend(list)
  {
    var rest := list[1..];
    forall a, b | 0 <= a < b < |list| ensures list[a].id < list[b].id {
      assert list[b] == rest[b - 1] && rest[b - 1] in rest;
      if a > 0 { assert list[a] == rest[a - 1]; }
    }
  }

  /** They come in the order of segments and parts only if the ids grow along the list. */
  lemma {:induction false} CutAllAscends(km: Km, list: seq<Segment>)
    requires km.blockSize > 0 && AllInRange(km, list) && InOrder(CutAll(km, list))
    ensures IdsAscend(list)
  {
    if list != [] {
      var s := list[0];
      assert s in list;
      assert forall t :: t in list[1..] ==> t in list;
      var head, rest := Cut(BytesOf(km, s), s.id, km.blockSize, 0), CutAll(km, list[1..]);
      CutInOrder(BytesOf(km, s), s.id, km.blockSize, 0);
      assert 0 * km.blockSize == 0;
      assert head != [];
      OrderOfRest(head, rest);
      CutAllAscends(km, list[1..]);
      CutAllCovers(km, list[1..]);
      forall t | t in list[1..] ensures s.id < t.id {
        assert HasFirstPart(rest, t.id);
        var b :| 0 <= b < |rest| && rest[b].segment == t.id && rest[b].part == 0;
        assert Before(head[0], rest[b]);
      }
      AscendHead(list);
    }
  }

  lemma CutAllSequencedIff(km: Km, list: seq<Segment>, ascending: bool)
    requires km.blockSize > 0 && AllInRange(km, list)
    ensures Sequenced(CutAll(km, list), ascending) <==> GoodIds(list, ascending)
  {
    if !ascending {
      CutAllPartsIff(km, list);
    } else if IdsAscend(list) {
      CutAllInOrder(km, list);
    } else if InOrder(CutAll(km, list)) {
      CutAllAscends(km, list);
    }
  }

  ghost predicate AllSequenced(km: Km, ascending: bool)
    requires SwapShape(km)
  {
    forall pid: nat :: Sequenced(Stored(km, pid), ascending)
  }

  /** Resuming only ever takes blocks off the front of what is stored for the process. */
  lemma {:induction false} ResumeTakesFromFront(km: Km, i: nat, pid: nat)
    requires Running(km)
    requires forall k :: 0 <= k < i && k < |km.blocks| ==> !OwnedBy(km.blocks[k], pid)
    ensures SwapShape(ResumeFrom(km, i, pid).0)
    ensures exists n :: 0 <= n <= |Stored(km, pid)| && Stored(ResumeFrom(km, i, pid).0, pid) == Stored(km, pid)[n..]
    decreases |km.blocks| - i
  {
    ResumeKeepsTables(km, i, pid);
    var stored := Stored(km, pid);
    assert stored[0..] == stored;
    if i < |km.blocks| {
      if OwnedBy(km.blocks[i], pid) {
        BlockKeepsTables(km, i, pid);
        var r := ResumeBlock(km, i, pid);
        StoredSkips(km.blocks, km.file, pid, 0, i);
        if r.1.Resumed? {
          StoredSkips(r.0.blocks, r.0.file, pid, 0, i + 1);
          StoredSame(km.blocks, km.file, r.0.blocks, r.0.file, pid, i + 1);
          assert Stored(r.0, pid) == stored[1..];
          ResumeTakesFromFront(r.0, i + 1, pid);
          var n :| 0 <= n <= |Stored(r.0, pid)| && Stored(ResumeFrom(km, i, pid).0, pid) == Stored(r.0, pid)[n..];
          assert stored[1..][n..] == stored[n + 1..];
        } else {
          StoredSame(km.blocks, km.file, r.0.blocks, r.0.file, pid, 0);
        }
      } else {
        ResumeTakesFromFront(km, i + 1, pid);
      }
    }
  }

  lemma SequencedPiece(rs: seq<Record>, from: nat, to: nat, ascending: bool)
    requires Sequenced(rs, ascending) && from <= to <= |rs|
    ensures Sequenced(rs[from..to], ascending)
  {
    var piece := rs[from..to];
    forall a, b | 0 <= a < b < |piece|
      ensures if ascending then Before(piece[a], piece[b])
              else piece[a].segment == piece[b].segment ==> piece[a].part < piece[b].part
    {
      assert piece[a] == rs[from + a] && piece[b] == rs[from + b];
    }
  }

  lemma SuspensionKeepsOrder(km: Km, pid: nat, ascending: bool)
    requires Running(km) && Orderly(km, Suspend(pid), ascending) && AllInRange(km, km.memory.segments)
    ensures SwapShape(SuspendProcess(km, pid).0) && Sequenced(Stored(SuspendProcess(km, pid).0, pid), ascending)
  {
    SuspendKeepsTables(km, pid);
    MineInRange(km, km.memory.segments, pid);
    var mine := OfProcess(km.memory.segments, pid);
    NotOwned(km, pid);
    EachFrame(km, mine);
    EachStored(km, mine, pid);
    CutAllSequencedIff(km, mine, ascending);
    var stored := Stored(SuspendProcess(km, pid).0, pid);
    SequencedPiece(CutAll(km, mine), 0, |stored|, ascending);
  }

  /** With nothing left over, a suspension that succeeds ends in order if and only if the ids are good. */
  lemma SuspendedInOrderIff(km: Km, pid: nat, ascending: bool)
    requires Running(km) && Stored(km, pid) == [] && AllInRange(km, km.memory.segments) && SuspendProcess(km, pid).1
    ensures SwapShape(SuspendProcess(km, pid).0)
    ensures Sequenced(Stored(SuspendProcess(km, pid).0, pid), ascending)
            <==> GoodIds(OfProcess(km.memory.segments, pid), ascending)
  {
    SuspendedIsCut(km, pid);
    CutAllSequencedIff(km, OfProcess(km.memory.segments, pid), ascending);
  }

  lemma SuspendedIsCut(km: Km, pid: nat)
    requires Running(km) && Stored(km, pid) == [] && AllInRange(km, km.memory.segments) && SuspendProcess(km, pid).1
    ensures SwapShape(SuspendProcess(km, pid).0) && AllInRange(km, OfProcess(km.memory.segments, pid))
    ensures Stored(SuspendProcess(km, pid).0, pid) == CutAll(km, OfProcess(km.memory.segments, pid))
  {
    SuspendKeepsTables(km, pid);
    MineInRange(km, km.memory.segments, pid);
    var mine := OfProcess(km.memory.segments, pid);
    NotOwned(km, pid);
    EachFrame(km, mine);
    EachStored(km, mine, pid);
  }

  lemma StepKeepsOrder(km: Km, op: Op, ascending: bool)
    requires Running(km) && Legal(op) && Orderly(km, op, ascending) && AllSequenced(km, ascending)
    ensures Running(Step(km, op)) && AllSequenced(Step(km, op), ascending)
  {
    StepKeepsRunning(km, op);
    var km' := Step(km, op);
    forall pid: nat ensures Sequenced(Stored(km', pid), ascending) {
      assert Sequenced(Stored(km, pid), ascending);
      if !Touches(op, pid) {
        OthersLeaveTable(km, op, pid);
      } else if op.Suspend? {
        ValidInRange(km);
        SuspensionKeepsOrder(km, pid, ascending);
      } else if op.Resume? {
        ResumeTakesFromFront(km, 0, pid);
        var n :| 0 <= n <= |Stored(km, pid)| && Stored(ResumeFrom(km, 0, pid).0, pid) == Stored(km, pid)[n..];
        SequencedPiece(Stored(km, pid), n, |Stored(km, pid)|, ascending);
      }
    }
  }

  ghost predicate OrderlyRun(km: Km, ops: seq<Op>, ascending: bool)
    requires Running(km)
    decreases |ops|
  {
    ops != [] ==>
      && Legal(ops[0]) && Orderly(km, ops[0], ascending)
      && (StepKeepsRunning(km, ops[0]); OrderlyRun(Step(km, ops[0]), ops[1..], ascending))
  }

  lemma {:induction false} RunKeepsOrder(km: Km, ops: seq<Op>, ascending: bool)
    requires Running(km) && AllSequenced(km, ascending) && OrderlyRun(km, ops, ascending)
    ensures forall op :: op in ops ==> Legal(op)
    ensures AllSequenced(Run(km, ops), ascending)
    decreases |ops|
  {
    if ops != [] {
      StepKeepsOrder(km, ops[0], ascending);
      RunKeepsOrder(Step(km, ops[0]), ops[1..], ascending);
    }
  }

  /** Over every run in which suspensions find no block of the process and different segment ids, the
      blocks of each segment come in the order of its parts. */
  lemma EveryRunKeepsPartOrder(km: Km, ops: seq<Op>)
    requires Running(km) && (forall pid: nat :: PartsInOrder(Stored(km, pid))) && OrderlyRun(km, ops, false)
    ensures forall op :: op in ops ==> Legal(op)
    ensures forall pid: nat :: PartsInOrder(Stored(Run(km, ops), pid))
  {
    assert forall pid: nat :: PartsInOrder(Stored(km, pid)) == Sequenced(Stored(km, pid), false);
    RunKeepsOrder(km, ops, false);
    forall pid: nat ensures PartsInOrder(Stored(Run(km, ops), pid)) {
      assert Sequenced(Stored(Run(km, ops), pid), false);
    }
  }

  /** Where the ids also grow along the segment list, the blocks come in the order of segments and
      parts. */
  lemma EveryRunKeepsBlockOrder(km: Km, ops: seq<Op>)
    requires Running(km) && (forall pid: nat :: InOrder(Stored(km, pid))) && OrderlyRun(km, ops, true)
    ensures forall op :: op in ops ==> Legal(op)
    ensures forall pid: nat :: InOrder(Stored(Run(km, ops), pid))
  {
    assert forall pid: nat :: InOrder(Stored(km, pid)) == Sequenced(Stored(km, pid), true);
    RunKeepsOrder(km, ops, true);
    forall pid: nat ensures InOrder(Stored(Run(km, ops), pid)) {
      assert Sequenced(Stored(Run(km, ops), pid), true);
    }
  }

  /** Every suspension finds no block of the process, and succeeds. */
  ghost predicate CleanRun(km: Km, ops: seq<Op>)
    requires Running(km)
    decreases |ops|
  {
    ops != [] ==>
      && Legal(ops[0])
      && (ops[0].Suspend? ==>
            Stored(km, ops[0].pid) == [] && (ValidInRange(km); SuspendProcess(km, ops[0].pid).1))
      && (StepKeepsRunning(km, ops[0]); CleanRun(Step(km, ops[0]), ops[1..]))
  }

  /** The order holds before and after every request. */
  ghost predicate SequencedThroughout(km: Km, ops: seq<Op>, ascending: bool)
    requires Running(km) && CleanRun(km, ops)
    decreases |ops|
  {
    && AllSequenced(km, ascending)
    && (ops != [] ==> (StepKeepsRunning(km, ops[0]); SequencedThroughout(Step(km, ops[0]), ops[1..], ascending)))
  }

  /** When all suspensions find no block and succeed, the order holds throughout the run if and only if
      every suspension finds good ids. */
  lemma {:induction false} OrderThroughoutIff(km: Km, ops: seq<Op>, ascending: bool)
    requires Running(km) && AllSequenced(km, ascending) && CleanRun(km, ops)
    ensures SequencedThroughout(km, ops, ascending) <==> OrderlyRun(km, ops, ascending)
    decreases |ops|
  {
    if ops != [] {
      StepKeepsRunning(km, ops[0]);
      if Orderly(km, ops[0], ascending) {
        StepKeepsOrder(km, ops[0], ascending);
        OrderThroughoutIff(Step(km, ops[0]), ops[1..], ascending);
      } else {
        ValidInRange(km);
        SuspendedInOrderIff(km, ops[0].pid, ascending);
        assert !Sequenced(Stored(Step(km, ops[0]), ops[0].pid), ascending);
      }
    }
  }

  // ---------- what leftovers do ----------

  /** Which part of which segment a block holds. */
  function Key(r: Record): (nat, nat) {
    (r.segment, r.part)
  }

  function Keys(rs: seq<Record>): seq<(nat, nat)> {
    seq(|rs|, i requires 0 <= i < |rs| => Key(rs[i]))
  }

  /** A claim adds one record to what is stored, wherever the claimed block lies. */
  lemma {:induction false} ClaimAdds(km: Km, b: nat, s: Segment, part: nat, i: nat)
    requires SwapShape(km) && InRange(km, s) && part * km.blockSize < s.size
    requires i <= b < |km.blocks| && km.blocks[b].Free?
    ensures var km' := ClaimBlock(km, b, s, part);
            multiset(StoredFrom(km'.blocks, km'.file, s.pid, i))
            == multiset(StoredFrom(km.blocks, km.file, s.pid, i))
               + multiset{Record(s.id, part, s.size, PartContent(km, s, part))}
    decreases b - i
  {
    var km' := ClaimBlock(km, b, s, part);
    if i == b {
      StoredSame(km.blocks, km.file, km'.blocks, km'.file, s.pid, b + 1);
    } else {
      ClaimAdds(km, b, s, part, i + 1);
    }
  }

  /** One claim: one record more. */
  lemma ClaimCounts(km: Km, b: nat, s: Segment, i: nat)
    requires SwapShape(km) && InRange(km, s) && i * km.blockSize < s.size && b < |km.blocks| && km.blocks[b].Free?
    ensures var km' := ClaimBlock(km, b, s, i);
            && SwapShape(km')
            && multiset(Stored(km', s.pid))
               == multiset(Stored(km, s.pid)) + multiset{Record(s.id, i, s.size, PartContent(km, s, i))}
            && |Stored(km', s.pid)| == |Stored(km, s.pid)| + 1
  {
    ClaimAdds(km, b, s, i, 0);
    OneLonger(Stored(km, s.pid), Stored(ClaimBlock(km, b, s, i), s.pid), Record(s.id, i, s.size, PartContent(km, s, i)));
  }

  /** Suspending a segment adds its records, and every record takes one free block; a suspension
      that fails has taken them all. */
  lemma {:induction false} SegmentAdds(km: Km, s: Segment, i: nat)
    requires SwapShape(km) && InRange(km, s)
    ensures var r := SuspendSegment(km, s, i);
            && SwapShape(r.0)
            && |Stored(r.0, s.pid)| + FreeCount(r.0.blocks) == |Stored(km, s.pid)| + FreeCount(km.blocks)
            && (if r.1 then multiset(Stored(r.0, s.pid))
                            == multiset(Stored(km, s.pid)) + multiset(Cut(BytesOf(km, s), s.id, km.blockSize, i))
                else FreeCount(r.0.blocks) == 0)
    decreases BlockCount(s.size, km.blockSize) - i
  {
    CeilDiv(s.size, km.blockSize, i);
    NoFreeCount(km.blocks);
    if i < BlockCount(s.size, km.blockSize) && FindFreeBlock(km.blocks) != -1 {
      var b := FindFreeBlock(km.blocks);
      FindFreeBlockSpec(km.blocks);
      var km' := ClaimBlock(km, b, s, i);
      ClaimCounts(km, b, s, i);
      FreeCountClaim(km.blocks, km'.blocks[b]);
      PartIsCut(km, s, i);
      SegmentAdds(km', s, i + 1);
      assert BytesOf(km', s) == BytesOf(km, s);
    }
  }

  lemma OneLonger(x: seq<Record>, y: seq<Record>, r: Record)
    requires multiset(y) == multiset(x) + multiset{r}
    ensures |y| == |x| + 1
  {
    assert |multiset(y)| == |multiset(x)| + 1;
  }

  lemma {:induction false} EachAdds(km: Km, list: seq<Segment>, pid: nat)
    requires SwapShape(km) && AllInRange(km, list) && forall s :: s in list ==> s.pid == pid
    ensures var r := SuspendEach(km, list);
            && SwapShape(r.0)
            && |Stored(r.0, pid)| + FreeCount(r.0.blocks) == |Stored(km, pid)| + FreeCount(km.blocks)
            && (if r.1 then multiset(Stored(r.0, pid)) == multiset(Stored(km, pid)) + multiset(CutAll(km, list))
                else FreeCount(r.0.blocks) == 0)
    decreases |list|
  {
    if list != [] {
      EachStep(km, list);
      SegmentAdds(km, list[0], 0);
      var r := SuspendSegment(km, list[0], 0);
      if r.1 {
        SuspendSegmentFrame(km, list[0], 0);
        CutAllSame(km, r.0, list[1..]);
        assert forall t :: t in list[1..] ==> t in list;
        EachAdds(r.0, list[1..], pid);
      }
    }
  }

  lemma {:induction false} TwoPlaces(rs: seq<Record>, x: Record, y: Record) returns (i: nat, k: nat)
    requires x in rs && y in rs && (x == y ==> multiset(rs)[x] >= 2)
    ensures i < |rs| && k < |rs| && i != k && rs[i] == x && rs[k] == y
  {
    i :| 0 <= i < |rs| && rs[i] == x;
    if x != y {
      k :| 0 <= k < |rs| && rs[k] == y;
    } else {
      k := AnotherPlace(rs, i);
    }
  }

  lemma AnotherPlace(rs: seq<Record>, i: nat) returns (k: nat)
    requires i < |rs| && multiset(rs)[rs[i]] >= 2
    ensures k < |rs| && k != i && rs[k] == rs[i]
  {
    var rest := rs[..i] + rs[i + 1..];
    DropTakesOne(rs, i);
    assert rs[i] in multiset(rest);
    assert rs[i] in rest;
    var j :| 0 <= j < |rest| && rest[j] == rs[i];
    k := if j < i then j else j + 1;
  }

  /** The same part of the same segment stored twice cannot be in order. */
  lemma TwiceIsOutOfOrder(rs: seq<Record>, x: Record, y: Record)
    requires multiset{x} + multiset{y} <= multiset(rs) && Key(x) == Key(y)
    ensures !InOrder(rs) && !PartsInOrder(rs)
  {
    assert multiset(rs)[x] >= (multiset{x} + multiset{y})[x] && multiset(rs)[y] >= (multiset{x} + multiset{y})[y];
    assert x in multiset(rs) && y in multiset(rs);
    var i, k := TwoPlaces(rs, x, y);
    assert !Before(rs[i], rs[k]) && !Before(rs[k], rs[i]);
  }

  /** Some block left over holds a part that the process still has. */
  ghost predicate LeftoverPresent(km: Km, pid: nat)
    requires SwapShape(km) && AllInRange(km, OfProcess(km.memory.segments, pid))
  {
    exists k :: k in Keys(Stored(km, pid)) && k in Keys(CutAll(km, OfProcess(km.memory.segments, pid)))
  }

  /** How the discipline matters: unless all that earlier failed suspensions left over is of segments
      freed since, a suspension that succeeds keeps the order exactly when nothing was left over and
      the ids are good. */
  lemma OrderKeptIffNothingLeftOver(km: Km, pid: nat, ascending: bool)
    requires Running(km) && AllInRange(km, km.memory.segments) && AllInRange(km, OfProcess(km.memory.segments, pid))
    requires Stored(km, pid) == [] || LeftoverPresent(km, pid)
    requires SuspendProcess(km, pid).1
    ensures SwapShape(SuspendProcess(km, pid).0)
    ensures Sequenced(Stored(SuspendProcess(km, pid).0, pid), ascending)
            <==> Stored(km, pid) == [] && GoodIds(OfProcess(km.memory.segments, pid), ascending)
  {
    if Stored(km, pid) == [] {
      SuspendedInOrderIff(km, pid, ascending);
    } else {
      LeftoverTwice(km, pid);
    }
  }

  lemma LeftoverTwice(km: Km, pid: nat)
    requires Running(km) && AllInRange(km, km.memory.segments) && AllInRange(km, OfProcess(km.memory.segments, pid))
    requires LeftoverPresent(km, pid) && SuspendProcess(km, pid).1
    ensures SwapShape(SuspendProcess(km, pid).0)
    ensures var rs := Stored(SuspendProcess(km, pid).0, pid); !InOrder(rs) && !PartsInOrder(rs)
  {
    var mine, left := OfProcess(km.memory.segments, pid), Stored(km, pid);
    var cut := CutAll(km, mine);
    MineInRange(km, km.memory.segments, pid);
    SuspendKeepsTables(km, pid);
    EachFrame(km, mine);
    var key :| key in Keys(left) && key in Keys(cut);
    var i :| 0 <= i < |Keys(left)| && Keys(left)[i] == key;
    var k :| 0 <= k < |Keys(cut)| && Keys(cut)[k] == key;
    EachAdds(km, mine, pid);
    assert left[i] in multiset(left) && cut[k] in multiset(cut);
    TwiceIsOutOfOrder(Stored(SuspendProcess(km, pid).0, pid), left[i], cut[k]);
  }

  lemma {:induction false} CutKeys(x: seq<Byte>, y: seq<Byte>, id: nat, blockSize: nat, p: nat)
    requires blockSize > 0 && |x| == |y|
    ensures Keys(Cut(x, id, blockSize, p)) == Keys(Cut(y, id, blockSize, p))
    decreases |x| - p * blockSize
  {
    if p * blockSize < |x| {
      assert (p + 1) * blockSize == p * blockSize + blockSize;
      CutKeys(x, y, id, blockSize, p + 1);
      KeysConcat([PartRecord(x, id, blockSize, p)], Cut(x, id, blockSize, p + 1));
      KeysConcat([PartRecord(y, id, blockSize, p)], Cut(y, id, blockSize, p + 1));
    }
  }

  lemma KeysConcat(x: seq<Record>, y: seq<Record>)
    ensures Keys(x + y) == Keys(x) + Keys(y)
  {
  }

  /** Which parts a process has depends on the ids and sizes of its segments only. */
  lemma {:induction false} CutAllKeys(km: Km, km': Km, x: seq<Segment>, y: seq<Segment>)
    requires km.blockSize > 0 && km'.blockSize == km.blockSize && AllInRange(km, x) && AllInRange(km', y)
    requires Shapes(x) == Shapes(y)
    ensures Keys(CutAll(km, x)) == Keys(CutAll(km', y))
    decreases |x|
  {
    if x != [] {
      assert Shapes(x)[0] == Shapes(y)[0];
      assert Shapes(x[1..]) == Shapes(x)[1..] == Shapes(y)[1..] == Shapes(y[1..]);
      assert x[0] in x && y[0] in y;
      assert forall s :: s in x[1..] ==> s in x;
      assert forall s :: s in y[1..] ==> s in y;
      CutKeys(BytesOf(km, x[0]), BytesOf(km', y[0]), x[0].id, km.blockSize, 0);
      CutAllKeys(km, km', x[1..], y[1..]);
      KeysConcat(Cut(BytesOf(km, x[0]), x[0].id, km.blockSize, 0), CutAll(km, x[1..]));
      KeysConcat(Cut(BytesOf(km', y[0]), y[0].id, km.blockSize, 0), CutAll(km', y[1..]));
    }
  }

  lemma ShapesKeepIds(x: seq<Segment>, y: seq<Segment>)
    requires Shapes(x) == Shapes(y)
    ensures |x| == |y| && forall k :: 0 <= k < |x| ==> x[k].id == y[k].id
  {
    assert |Shapes(x)| == |Shapes(y)|;
    forall k | 0 <= k < |x| ensures x[k].id == y[k].id {
      assert Shapes(x)[k] == Shapes(y)[k];
    }
  }

  /** A failed suspension starting from an empty swap leaves all blocks that were free behind it,
      and each holds a part that the process has. */
  lemma FailureLeavesAllFree(km: Km, pid: nat)
    requires Running(km) && AllInRange(km, km.memory.segments) && Stored(km, pid) == []
    requires !SuspendProcess(km, pid).1 && OfProcess(km.memory.segments, pid) != []
    ensures var mine := OfProcess(km.memory.segments, pid);
            var r := SuspendProcess(km, pid).0;
            && SwapShape(r) && AllInRange(km, mine) && r.memory == km.memory
            && |Stored(r, pid)| == FreeCount(km.blocks) && Stored(r, pid) <= CutAll(km, mine)
  {
    var mine := OfProcess(km.memory.segments, pid);
    MineInRange(km, km.memory.segments, pid);
    EachFrame(km, mine);
    EachAdds(km, mine, pid);
    NotOwned(km, pid);
    EachStored(km, mine, pid);
  }

  /** A suspension that fails, then whatever the others ask for, then a suspension that succeeds: the
      blocks end up in order if and only if no block was free when the first one failed and the ids
      are good. */
  lemma RetriedSuspensionInOrderIff(km: Km, pid: nat, ops: seq<Op>, ascending: bool)
    requires Running(km) && AllInRange(km, km.memory.segments) && Stored(km, pid) == [] && !SuspendProcess(km, pid).1
    requires forall op :: op in ops ==> Legal(op) && !Touches(op, pid)
    ensures Running(SuspendProcess(km, pid).0)
    ensures var later := Run(SuspendProcess(km, pid).0, ops);
            && AllInRange(later, later.memory.segments) && SwapShape(SuspendProcess(later, pid).0)
            && (SuspendProcess(later, pid).1 ==>
                  (Sequenced(Stored(SuspendProcess(later, pid).0, pid), ascending)
                   <==> FreeCount(km.blocks) == 0 && GoodIds(OfProcess(km.memory.segments, pid), ascending)))
  {
    SuspendKeepsTables(km, pid);
    var failed := SuspendProcess(km, pid).0;
    var later := Run(failed, ops);
    ValidInRange(later);
    MineInRange(later, later.memory.segments, pid);
    SuspendKeepsTables(later, pid);
    OthersRunLeavesTable(failed, ops, pid);
    var mine, mine' := OfProcess(km.memory.segments, pid), OfProcess(later.memory.segments, pid);
    MineInRange(km, km.memory.segments, pid);
    EachFrame(km, mine);
    ShapesKeepIds(mine, mine');
    if SuspendProcess(later, pid).1 {
      FailureLeavesAllFree(km, pid);
      CutAllKeys(km, later, mine, mine');
      PrefixKeys(Stored(failed, pid), CutAll(km, mine));
      if Stored(later, pid) != [] { assert Keys(Stored(later, pid))[0] in Keys(Stored(later, pid)); }
      OrderKeptIffNothingLeftOver(later, pid, ascending);
    }
  }

  lemma PrefixKeys(x: seq<Record>, y: seq<Record>)
    requires x <= y
    ensures forall k :: k in Keys(x) ==> k in Keys(y)
  {
    assert Keys(x) <= Keys(y);
  }
}
