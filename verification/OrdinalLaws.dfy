/** Swap records a segment's id and a resumption looks the segment up by its ordinal (swap.c,
    segments.c find_segment). Which processes survive that, and what happens to the others. */
module OrdinalLaws {
  import opened Extents
  import opened MemoryTables
  import opened HoleTables
  import opened Sticks
  import opened SwapTables
  import opened SuspendLaws
  import opened ResumeLaws
  import opened KernelMemoryRuns
  import opened BlockOrder

  // ---------- the ids in swap ----------

  function Ids(list: seq<Segment>): seq<nat> {
    seq(|list|, i requires 0 <= i < |list| => list[i].id)
  }

  /** The segment ids of the first parts, in order. */
  function FirstIds(rs: seq<Record>): seq<nat> {
    if rs == [] then [] else (if rs[0].part == 0 then [rs[0].segment] else []) + FirstIds(rs[1..])
  }

  lemma Associates(x: seq<nat>, y: seq<nat>, z: seq<nat>)
    ensures x + (y + z) == (x + y) + z
  {
  }

  lemma {:induction false} FirstIdsConcat(x: seq<Record>, y: seq<Record>)
    ensures FirstIds(x + y) == FirstIds(x) + FirstIds(y)
  {
    if x == [] {
      assert x + y == y;
    } else {
      assert (x + y)[1..] == x[1..] + y;
      FirstIdsConcat(x[1..], y);
      Associates(if x[0].part == 0 then [x[0].segment] else [], FirstIds(x[1..]), FirstIds(y));
    }
  }

  lemma {:induction false} CutFirstIds(bytes: seq<Byte>, id: nat, blockSize: nat, p: nat)
    requires blockSize > 0
    ensures FirstIds(Cut(bytes, id, blockSize, p)) == if p == 0 && bytes != [] then [id] else []
    decreases |bytes| - p * blockSize
  {
    if p * blockSize < |bytes| {
      assert (p + 1) * blockSize == p * blockSize + blockSize;
      CutFirstIds(bytes, id, blockSize, p + 1);
      assert Cut(bytes, id, blockSize, p)[1..] == Cut(bytes, id, blockSize, p + 1);
    } else if p == 0 {
      assert 0 * blockSize == 0;
    }
  }

  lemma SegmentFirstIds(km: Km, s: Segment)
    requires km.blockSize > 0 && InRange(km, s)
    ensures FirstIds(Cut(BytesOf(km, s), s.id, km.blockSize, 0)) == [s.id]
  {
    CutFirstIds(BytesOf(km, s), s.id, km.blockSize, 0);
  }

  lemma IdsHead(list: seq<Segment>)
    requires list != []
    ensures Ids(list) == [list[0].id] + Ids(list[1..])
  {
  }

  lemma {:induction false} CutAllFirstIds(km: Km, list: seq<Segment>)
    requires km.blockSize > 0 && AllInRange(km, list)
    ensures FirstIds(CutAll(km, list)) == Ids(list)
  {
    if list != [] {
      var s, rest := list[0], list[1..];
      assert s in list && forall t :: t in rest ==> t in list;
      CutAllFirstIds(km, rest);
      FirstIdsConcat(Cut(BytesOf(km, s), s.id, km.blockSize, 0), CutAll(km, rest));
      SegmentFirstIds(km, s);
      IdsHead(list);
    }
  }

  // ---------- the resume loop ----------

  /** What one block does: a first part's segment is appended, and the block is restored if and only if
      a segment with its id as ordinal exists by then. */
  lemma BlockOutcome(km: Km, i: nat, pid: nat)
    requires KmValid(km) && i < |km.blocks| && OwnedBy(km.blocks[i], pid) && !ResumeBlock(km, i, pid).1.Failed?
    ensures var b, r := km.blocks[i], ResumeBlock(km, i, pid);
            var n := |OfProcess(km.memory.segments, pid)| + (if b.part == 0 then 1 else 0);
            && KmValid(r.0) && |r.0.blocks| == |km.blocks| && r.0.memory.strategy == km.memory.strategy
            && StoredFrom(r.0.blocks, r.0.file, pid, i + 1) == StoredFrom(km.blocks, km.file, pid, i + 1)
            && |OfProcess(r.0.memory.segments, pid)| == n
            && r.1 == if b.segment < n then Resumed else Faulted
  {
    var b, r := km.blocks[i], ResumeBlock(km, i, pid);
    BlockKeepsTables(km, i, pid);
    RegenerateLaw(km.memory, b.segment, pid, b.size);
    StoredSame(km.blocks, km.file, r.0.blocks, r.0.file, pid, i + 1);
    if b.part == 0 {
      var s := r.0.memory.segments[|km.memory.segments|];
      assert r.0.memory.segments == km.memory.segments + [s];
      OfProcessConcat(km.memory.segments, [s], pid);
      OfProcessOne(s, pid);
    }
  }

  /** With n segments rebuilt so far, every record finds a segment with its id as ordinal. */
  predicate Followable(rs: seq<Record>, n: nat) {
    rs == [] ||
    var n' := if rs[0].part == 0 then n + 1 else n;
    rs[0].segment < n' && Followable(rs[1..], n')
  }

  /** A resumption that gets through has followed every record, and has rebuilt one segment for every
      first part. */
  lemma {:induction false} ResumedFollows(km: Km, i: nat, pid: nat)
    requires KmValid(km) && ResumeFrom(km, i, pid).1.Resumed?
    ensures var rs, n := StoredFrom(km.blocks, km.file, pid, i), |OfProcess(km.memory.segments, pid)|;
            && Followable(rs, n)
            && |OfProcess(ResumeFrom(km, i, pid).0.memory.segments, pid)| == n + |FirstIds(rs)|
    decreases |km.blocks| - i
  {
    if i < |km.blocks| {
      if OwnedBy(km.blocks[i], pid) {
        BlockOutcome(km, i, pid);
        ResumedFollows(ResumeBlock(km, i, pid).0, i + 1, pid);
        StoredHere(km.blocks, km.file, pid, i);
      } else {
        ResumedFollows(km, i + 1, pid);
      }
    }
  }

  lemma StoredHere(blocks: seq<Block>, file: seq<seq<Byte>>, pid: nat, i: nat)
    requires |file| == |blocks| && i < |blocks| && OwnedBy(blocks[i], pid)
    ensures var rs := StoredFrom(blocks, file, pid, i);
            && rs != [] && rs[0] == Record(blocks[i].segment, blocks[i].part, blocks[i].size, file[i])
            && rs[1..] == StoredFrom(blocks, file, pid, i + 1)
  {
  }

  /** The k-th id is at most n + k. */
  ghost predicate AtMostFrom(ids: seq<nat>, n: nat) {
    forall k :: 0 <= k < |ids| ==> ids[k] <= n + k
  }

  lemma AtMostHead(ids: seq<nat>, n: nat)
    requires ids != []
    ensures AtMostFrom(ids, n) <==> ids[0] <= n && AtMostFrom(ids[1..], n + 1)
  {
    var rest := ids[1..];
    if AtMostFrom(ids, n) {
      forall k | 0 <= k < |rest| ensures rest[k] <= n + 1 + k { assert ids[k + 1] <= n + (k + 1); }
    }
    if ids[0] <= n && AtMostFrom(rest, n + 1) {
      forall k | 0 <= k < |ids| ensures ids[k] <= n + k {
        if k > 0 { assert rest[k - 1] == ids[k]; }
      }
    }
  }

  /** Later parts follow where the first one went. */
  lemma {:induction false} CutFollowable(bytes: seq<Byte>, id: nat, blockSize: nat, p: nat, rest: seq<Record>, n: nat)
    requires blockSize > 0 && (p > 0 ==> id < n) && (p == 0 ==> bytes != [])
    ensures Followable(Cut(bytes, id, blockSize, p) + rest, n)
            <==> if p == 0 then id <= n && Followable(rest, n + 1) else Followable(rest, n)
    decreases |bytes| - p * blockSize
  {
    var cut := Cut(bytes, id, blockSize, p);
    assert 0 * blockSize == 0;
    if p * blockSize < |bytes| {
      assert (p + 1) * blockSize == p * blockSize + blockSize;
      var tail := Cut(bytes, id, blockSize, p + 1);
      assert (cut + rest)[0] == cut[0] && (cut + rest)[1..] == tail + rest;
      if p > 0 || id <= n { CutFollowable(bytes, id, blockSize, p + 1, rest, if p == 0 then n + 1 else n); }
    } else {
      assert cut + rest == rest;
    }
  }

  /** A process's records can be followed if and only if every id is at most its position. */
  lemma {:induction false} CutAllFollowable(km: Km, list: seq<Segment>, n: nat)
    requires km.blockSize > 0 && AllInRange(km, list)
    ensures Followable(CutAll(km, list), n) <==> AtMostFrom(Ids(list), n)
  {
    if list != [] {
      assert list[0] in list;
      assert forall t :: t in list[1..] ==> t in list;
      CutFollowable(BytesOf(km, list[0]), list[0].id, km.blockSize, 0, CutAll(km, list[1..]), n);
      CutAllFollowable(km, list[1..], n + 1);
      AtMostHead(Ids(list), n);
      assert Ids(list)[1..] == Ids(list[1..]);
    }
  }

  /** Different ids, each at most its position, are the positions. */
  lemma {:induction false} DistinctIdsBelow(ids: seq<nat>, n: nat)
    requires n <= |ids| && (forall a, b :: 0 <= a < b < |ids| ==> ids[a] != ids[b])
    requires AtMostFrom(ids, 0)
    ensures forall k :: 0 <= k < n ==> ids[k] == k
  {
    if n > 0 {
      DistinctIdsBelow(ids, n - 1);
      var j := if ids[n - 1] < n - 1 then ids[n - 1] else 0;
      assert ids[j] == j;
    }
  }

  /** The process was resident with nothing in swap, and its suspension succeeded. */
  ghost predicate Suspendable(km: Km, pid: nat)
    requires KmValid(km)
  {
    AllInRange(km, km.memory.segments) && Stored(km, pid) == [] && SuspendProcess(km, pid).1
  }

  lemma SuspensionUnfold(km: Km, pid: nat)
    requires SwapShape(km) && AllInRange(km, km.memory.segments) && SuspendProcess(km, pid).1
    ensures var mine := OfProcess(km.memory.segments, pid);
            && mine != [] && AllInRange(km, mine) && (forall s :: s in mine ==> s.pid == pid)
            && SuspendEach(km, mine).1
            && SuspendProcess(km, pid).0
               == SuspendEach(km, mine).0.(memory := RemoveEach(km.memory, mine, pid))
  {
    var mine := OfProcess(km.memory.segments, pid);
    MineInRange(km, km.memory.segments, pid);
    EachFrame(km, mine);
  }

  lemma SuspendedOut(km: Km, pid: nat)
    requires Running(km) && Suspendable(km, pid)
    ensures var mine, r := OfProcess(km.memory.segments, pid), SuspendProcess(km, pid).0;
            && Running(r) && AllInRange(km, mine) && mine != []
            && OfProcess(r.memory.segments, pid) == [] && Stored(r, pid) == CutAll(km, mine)
  {
    var mine := OfProcess(km.memory.segments, pid);
    SuspendKeepsTables(km, pid);
    SuspensionUnfold(km, pid);
    RemoveAllOfProcess(km.memory, pid);
    NotOwned(km, pid);
    EachStored(km, mine, pid);
  }

  lemma SuspendedImage(km: Km, pid: nat)
    requires Running(km) && Suspendable(km, pid)
    ensures var mine, r := OfProcess(km.memory.segments, pid), SuspendProcess(km, pid).0;
            && Running(r) && OfProcess(r.memory.segments, pid) == [] && Stored(r, pid) != []
            && (Followable(Stored(r, pid), 0) <==> AtMostFrom(Ids(mine), 0))
            && |FirstIds(Stored(r, pid))| == |mine|
            && FirstPartSizes(Stored(r, pid)) == Total(Places(mine))
  {
    SuspendedOut(km, pid);
    var mine := OfProcess(km.memory.segments, pid);
    CutAllFirstIds(km, mine);
    CutAllFollowable(km, mine, 0);
    CutAllSizes(km, mine);
    assert |Ids(mine)| > 0;
  }

  lemma {:induction false} CutAllSizes(km: Km, list: seq<Segment>)
    requires km.blockSize > 0 && AllInRange(km, list)
    ensures FirstPartSizes(CutAll(km, list)) == Total(Places(list))
  {
    if list != [] {
      assert list[0] in list;
      assert forall t :: t in list[1..] ==> t in list;
      var bytes := BytesOf(km, list[0]);
      var cut := Cut(bytes, list[0].id, km.blockSize, 0);
      assert 0 * km.blockSize == 0;
      assert cut[1..] == Cut(bytes, list[0].id, km.blockSize, 1);
      LaterPartsAddNothing(bytes, list[0].id, km.blockSize, 1);
      CutAllSizes(km, list[1..]);
      FirstPartSizesConcat(cut, CutAll(km, list[1..]));
      assert Places(list)[1..] == Places(list[1..]);
    }
  }

  /** Whatever others ask for meanwhile, a resumption can succeed only if every id was at most its
      position in the process's segment list. */
  lemma ResumedOnlyIfAtMost(km: Km, pid: nat, ops: seq<Op>)
    requires Running(km) && Suspendable(km, pid)
    requires forall op :: op in ops ==> Legal(op) && !Touches(op, pid)
    ensures Running(SuspendProcess(km, pid).0)
    ensures ResumeProcess(Run(SuspendProcess(km, pid).0, ops), pid).1.Resumed? ==>
              AtMostFrom(Ids(OfProcess(km.memory.segments, pid)), 0)
  {
    SuspendedImage(km, pid);
    var out := SuspendProcess(km, pid).0;
    var mid := Run(out, ops);
    OthersRunLeavesTable(out, ops, pid);
    assert |Shapes(OfProcess(mid.memory.segments, pid))| == 0;
    if ResumeProcess(mid, pid).1.Resumed? {
      ResumedFollows(mid, 0, pid);
    }
  }

  lemma OrdinalsIff(list: seq<Segment>)
    requires DistinctIds(list)
    ensures AtMostFrom(Ids(list), 0) <==> IdsAreOrdinals(list)
  {
    assert forall k :: 0 <= k < |list| ==> list[k].id == Ids(list)[k];
    if AtMostFrom(Ids(list), 0) { DistinctIdsBelow(Ids(list), |list|); }
  }

  /** With different ids, that means that they were 0, 1, 2, ... in list order. */
  lemma ResumedOnlyIfOrdinals(km: Km, pid: nat, ops: seq<Op>)
    requires Running(km) && Suspendable(km, pid) && DistinctIds(OfProcess(km.memory.segments, pid))
    requires forall op :: op in ops ==> Legal(op) && !Touches(op, pid)
    ensures Running(SuspendProcess(km, pid).0)
    ensures ResumeProcess(Run(SuspendProcess(km, pid).0, ops), pid).1.Resumed? ==>
              IdsAreOrdinals(OfProcess(km.memory.segments, pid))
  {
    ResumedOnlyIfAtMost(km, pid, ops);
    OrdinalsIff(OfProcess(km.memory.segments, pid));
  }

  // ---------- with room in one hole ----------

  lemma {:induction false} SizeInSwapNonNegative(km: Km, pid: nat, i: nat)
    requires BlocksSane(km)
    ensures SizeInSwap(km.blocks, pid, i) >= 0
    decreases |km.blocks| - i
  {
    if i < |km.blocks| {
      SizeInSwapNonNegative(km, pid, i + 1);
    }
  }

  lemma {:induction false} SizeInSwapSame(x: seq<Block>, y: seq<Block>, pid: nat, i: nat)
    requires |x| == |y| && forall k :: i <= k < |x| ==> x[k] == y[k]
    ensures SizeInSwap(x, pid, i) == SizeInSwap(y, pid, i)
    decreases |x| - i
  {
    if i < |x| {
      SizeInSwapSame(x, y, pid, i + 1);
    }
  }

  /** One block with room in one hole: it is not refused, and the rest still has room. */
  lemma BlockInOneHole(km: Km, i: nat, pid: nat)
    requires Running(km) && |km.memory.holes| <= 1 && i < |km.blocks| && OwnedBy(km.blocks[i], pid)
    requires SizeInSwap(km.blocks, pid, i) <= FreeSpace(km.memory)
    ensures var r := ResumeBlock(km, i, pid);
            && !r.1.Failed? && Running(r.0) && |r.0.memory.holes| <= 1
            && (r.1.Resumed? ==> SizeInSwap(r.0.blocks, pid, i + 1) <= FreeSpace(r.0.memory))
  {
    var b, r := km.blocks[i], ResumeBlock(km, i, pid);
    SizeInSwapNonNegative(km, pid, i + 1);
    BlockKeepsTables(km, i, pid);
    RegenerateLaw(km.memory, b.segment, pid, b.size);
    if b.part == 0 { RegenerateInOneHole(km.memory, b.segment, pid, b.size); }
    SizeInSwapSame(km.blocks, r.0.blocks, pid, i + 1);
  }

  /** With one hole that covers the missing bytes, no segment is refused, whatever the block table
      says, and the loop ends well if and only if every record can be followed. */
  lemma {:induction false} OutcomeInOneHole(km: Km, i: nat, pid: nat)
    requires Running(km) && |km.memory.holes| <= 1
    requires SizeInSwap(km.blocks, pid, i) <= FreeSpace(km.memory)
    ensures ResumeFrom(km, i, pid).1
         == if Followable(StoredFrom(km.blocks, km.file, pid, i), |OfProcess(km.memory.segments, pid)|)
            then Resumed else Faulted
    decreases |km.blocks| - i
  {
    if i < |km.blocks| {
      if OwnedBy(km.blocks[i], pid) {
        BlockInOneHole(km, i, pid);
        BlockOutcome(km, i, pid);
        StoredHere(km.blocks, km.file, pid, i);
        var r := ResumeBlock(km, i, pid);
        if r.1.Resumed? { OutcomeInOneHole(r.0, i + 1, pid); }
      } else {
        OutcomeInOneHole(km, i + 1, pid);
      }
    }
  }

  /** Suspended, then resumed into one hole with room for it, a process comes back if and only if every
      id was at most its position in the segment list; otherwise Kernel Memory follows a null segment. */
  lemma ComesBackIffAtMost(km: Km, pid: nat, ops: seq<Op>)
    requires Running(km) && Suspendable(km, pid)
    requires forall op :: op in ops ==> Legal(op) && !Touches(op, pid)
    ensures Running(SuspendProcess(km, pid).0)
    ensures var mid := Run(SuspendProcess(km, pid).0, ops);
            |mid.memory.holes| <= 1 && Total(Places(OfProcess(km.memory.segments, pid))) <= FreeSpace(mid.memory) ==>
              ResumeProcess(mid, pid).1
              == if AtMostFrom(Ids(OfProcess(km.memory.segments, pid)), 0) then Resumed else Faulted
  {
    SuspendedImage(km, pid);
    var out := SuspendProcess(km, pid).0;
    var mid, mine := Run(out, ops), OfProcess(km.memory.segments, pid);
    OthersRunLeavesTable(out, ops, pid);
    assert |Shapes(OfProcess(mid.memory.segments, pid))| == 0;
    if |mid.memory.holes| <= 1 && Total(Places(mine)) <= FreeSpace(mid.memory) {
      SizeInSwapIsStored(mid.blocks, mid.file, pid, 0);
      OutcomeInOneHole(mid, 0, pid);
      StoredMeansOwned(mid.blocks, mid.file, pid, 0);
    }
  }

  /** With different ids, it comes back if and only if they were 0, 1, 2, ... in list order. */
  lemma ComesBackIffOrdinals(km: Km, pid: nat, ops: seq<Op>)
    requires Running(km) && Suspendable(km, pid) && DistinctIds(OfProcess(km.memory.segments, pid))
    requires forall op :: op in ops ==> Legal(op) && !Touches(op, pid)
    ensures Running(SuspendProcess(km, pid).0)
    ensures var mid := Run(SuspendProcess(km, pid).0, ops);
            |mid.memory.holes| <= 1 && Total(Places(OfProcess(km.memory.segments, pid))) <= FreeSpace(mid.memory) ==>
              ResumeProcess(mid, pid).1
              == if IdsAreOrdinals(OfProcess(km.memory.segments, pid)) then Resumed else Faulted
  {
    ComesBackIffAtMost(km, pid, ops);
    OrdinalsIff(OfProcess(km.memory.segments, pid));
  }

  // ---------- what leftovers do to the round trip ----------

  lemma {:induction false} PlaceOf(y: seq<Record>, r: Record) returns (k: nat)
    requires multiset(y)[r] > 0
    ensures k < |y| && y[k] == r
  {
    assert r in multiset(y);
    assert r in y;
    k :| 0 <= k < |y| && y[k] == r;
  }

  lemma FirstIdsWithoutOne(y: seq<Record>, k: nat)
    requires k < |y|
    ensures |FirstIds(y)| == |FirstIds(y[..k] + y[k + 1..])| + if y[k].part == 0 then 1 else 0
  {
    var front, back := y[..k], y[k + 1..];
    FirstIdsConcat(front, back);
    FirstIdsConcat(front, [y[k]] + back);
    assert y == front + ([y[k]] + back);
    assert ([y[k]] + back)[1..] == back;
  }

  /** The head of one order has a place in the other, and the rests are permutations too. */
  lemma HeadElsewhere(x: seq<Record>, y: seq<Record>) returns (k: nat)
    requires x != [] && multiset(x) == multiset(y)
    ensures k < |y| && y[k] == x[0] && multiset(x[1..]) == multiset(y[..k] + y[k + 1..])
  {
    k := PlaceOf(y, x[0]) by { assert multiset(x)[x[0]] > 0; }
    DropTakesOne(y, k);
    DropTakesOne(x, 0);
    var rest, others := Drop(x, 0), Drop(y, k);
    assert rest == x[1..] && others == y[..k] + y[k + 1..];
    forall r ensures multiset(rest)[r] == multiset(others)[r] {
      assert (multiset(rest) + multiset{x[0]})[r] == (multiset(others) + multiset{x[0]})[r];
    }
  }

  lemma {:induction false} FirstIdsPermuted(x: seq<Record>, y: seq<Record>)
    requires multiset(x) == multiset(y)
    ensures |FirstIds(x)| == |FirstIds(y)|
    decreases |x|
  {
    if x == [] {
      assert |multiset(y)| == 0;
    } else {
      var k := HeadElsewhere(x, y);
      FirstIdsWithoutOne(y, k);
      FirstIdsPermuted(x[1..], y[..k] + y[k + 1..]);
    }
  }

  /** How many segments swap has a first part of, after a suspension on top of leftovers. */
  lemma SuspendedFirstIds(km: Km, pid: nat)
    requires Running(km) && AllInRange(km, km.memory.segments) && SuspendProcess(km, pid).1
    ensures var mine, r := OfProcess(km.memory.segments, pid), SuspendProcess(km, pid).0;
            && Running(r) && OfProcess(r.memory.segments, pid) == []
            && |FirstIds(Stored(r, pid))| == |FirstIds(Stored(km, pid))| + |mine|
  {
    var mine, r := OfProcess(km.memory.segments, pid), SuspendProcess(km, pid).0;
    SuspendKeepsTables(km, pid);
    SuspensionUnfold(km, pid);
    RemoveAllOfProcess(km.memory, pid);
    EachAdds(km, mine, pid);
    FirstIdsPermuted(Stored(r, pid), Stored(km, pid) + CutAll(km, mine));
    FirstIdsConcat(Stored(km, pid), CutAll(km, mine));
    CutAllFirstIds(km, mine);
  }

  /** A suspension that fails, requests of others, a suspension that succeeds, requests of others: a
      resumption that succeeds then leaves as many segments as there were if and only if no block was
      free when the first suspension failed; otherwise it rebuilds some of them twice. */
  lemma RetriedRoundTripIff(km: Km, pid: nat, ops: seq<Op>, ops': seq<Op>)
    requires Running(km) && AllInRange(km, km.memory.segments) && Stored(km, pid) == [] && !SuspendProcess(km, pid).1
    requires forall op :: op in ops || op in ops' ==> Legal(op) && !Touches(op, pid)
    ensures Running(SuspendProcess(km, pid).0)
    ensures var later := Run(SuspendProcess(km, pid).0, ops);
            && AllInRange(later, later.memory.segments) && Running(SuspendProcess(later, pid).0)
            && var r := ResumeProcess(Run(SuspendProcess(later, pid).0, ops'), pid);
            (SuspendProcess(later, pid).1 && r.1.Resumed? ==>
               (|OfProcess(r.0.memory.segments, pid)| == |OfProcess(km.memory.segments, pid)|
                <==> FreeCount(km.blocks) == 0))
  {
    SuspendKeepsTables(km, pid);
    var failed := SuspendProcess(km, pid).0;
    var later := Run(failed, ops);
    ValidInRange(later);
    SuspendKeepsTables(later, pid);
    OthersRunLeavesTable(failed, ops, pid);
    if SuspendProcess(later, pid).1 {
      FailedFirstIds(km, pid, later);
      var out := SuspendProcess(later, pid).0;
      SuspendedFirstIds(later, pid);
      var mid := Run(out, ops');
      OthersRunLeavesTable(out, ops', pid);
      assert |Shapes(OfProcess(mid.memory.segments, pid))| == 0;
      if ResumeProcess(mid, pid).1.Resumed? { ResumedFollows(mid, 0, pid); }
    }
  }

  /** What a failed suspension left has a first part, unless it left nothing. */
  lemma FailedFirstIds(km: Km, pid: nat, later: Km)
    requires Running(km) && AllInRange(km, km.memory.segments) && Stored(km, pid) == [] && !SuspendProcess(km, pid).1
    requires Running(later) && AllInRange(later, later.memory.segments) && SuspendProcess(later, pid).1
    requires SwapShape(SuspendProcess(km, pid).0) && SameTable(SuspendProcess(km, pid).0, later, pid)
    ensures |OfProcess(later.memory.segments, pid)| == |OfProcess(km.memory.segments, pid)|
    ensures |FirstIds(Stored(later, pid))| == 0 <==> FreeCount(km.blocks) == 0
  {
    var mine := OfProcess(km.memory.segments, pid);
    MineInRange(km, km.memory.segments, pid);
    EachFrame(km, mine);
    SuspensionUnfold(later, pid);
    ShapesKeepIds(mine, OfProcess(later.memory.segments, pid));
    FailureLeavesAllFree(km, pid);
    var left := Stored(later, pid);
    if left != [] {
      assert mine[0] in mine;
      assert 0 * km.blockSize == 0;
      assert CutAll(km, mine)[0] == Cut(BytesOf(km, mine[0]), mine[0].id, km.blockSize, 0)[0];
      assert left[0].part == 0;
    }
  }
}
