/** Whole runs of Kernel Memory: what holds after any sequence of requests. */
module KernelMemoryRuns {
  import opened Extents
  import opened MemoryTables
  import opened AllocatorLaws
  import opened HoleTables
  import opened Sticks
  import opened SwapTables
  import opened SuspendLaws
  import opened ResumeLaws

  /** WriteBytes stores into a process's own segment, inside its bounds. */
  datatype Op =
    | AddStick(bytes: seq<Byte>)
    | Alloc(id: nat, pid: nat, size: int)
    | FreeSegment(id: nat, pid: nat)
    | End(pid: nat)
    | Suspend(pid: nat)
    | Resume(pid: nat)
    | WriteBytes(pid: nat, ordinal: nat, offset: nat, data: seq<Byte>)

  predicate Touches(op: Op, pid: nat) {
    !op.AddStick? && op.pid == pid
  }

  /** What the callers owe: sticks and segments are not empty. */
  predicate Legal(op: Op) {
    (op.AddStick? ==> op.bytes != []) && (op.Alloc? ==> op.size > 0)
  }

  ghost predicate Running(km: Km) {
    KmValid(km) && !km.memory.strategy.Unsupported?
  }

  function WriteOwn(km: Km, pid: nat, ordinal: nat, offset: nat, data: seq<Byte>): Km {
    var s := FindSegment(km.memory.segments, pid, ordinal);
    if s.Some? && offset + |data| <= s.value.size then km.(flat := Store(km.flat, s.value.base + offset, data)) else km
  }

  function Step(km: Km, op: Op): Km
    requires KmValid(km)
  {
    match op
    case AddStick(bytes) => km.(memory := AddTotalMemory(km.memory, |bytes|), flat := km.flat + bytes)
    case Alloc(id, pid, size) => km.(memory := HandleCreateSegment(km.memory, id, pid, size).memory)
    case FreeSegment(id, pid) => km.(memory := RemoveSegment(km.memory, id, pid))
    case End(pid) => km.(memory := EndProcess(km.memory, pid))
    case Suspend(pid) => ValidInRange(km); SuspendProcess(km, pid).0
    case Resume(pid) => ResumeProcess(km, pid).0
    case WriteBytes(pid, ordinal, offset, data) => WriteOwn(km, pid, ordinal, offset, data)
  }

  // ---------- the invariant ----------

  lemma {:induction false} SegmentSane(km: Km, s: Segment, i: nat)
    requires SwapShape(km) && BlocksSane(km) && InRange(km, s)
    ensures SwapShape(SuspendSegment(km, s, i).0) && BlocksSane(SuspendSegment(km, s, i).0)
    decreases BlockCount(s.size, km.blockSize) - i
  {
    if i < BlockCount(s.size, km.blockSize) && FindFreeBlock(km.blocks) != -1 {
      CeilDiv(s.size, km.blockSize, i);
      SegmentSane(ClaimBlock(km, FindFreeBlock(km.blocks), s, i), s, i + 1);
    }
  }

  lemma {:induction false} EachSane(km: Km, list: seq<Segment>)
    requires SwapShape(km) && BlocksSane(km) && AllInRange(km, list)
    ensures SwapShape(SuspendEach(km, list).0) && BlocksSane(SuspendEach(km, list).0)
    decreases |list|
  {
    if list != [] {
      assert list[0] in list;
      assert forall t :: t in list[1..] ==> t in list;
      SuspendSegmentFrame(km, list[0], 0);
      SegmentSane(km, list[0], 0);
      var r := SuspendSegment(km, list[0], 0);
      if r.1 {
        CutAllSame(km, r.0, list[1..]);
        EachSane(r.0, list[1..]);
      }
    }
  }

  lemma SuspendKeepsTables(km: Km, pid: nat)
    requires KmValid(km) && AllInRange(km, km.memory.segments)
    ensures var r := SuspendProcess(km, pid).0;
            && KmValid(r) && r.memory.strategy == km.memory.strategy
            && r.flat == km.flat && r.blockSize == km.blockSize
  {
    MineInRange(km, km.memory.segments, pid);
    var mine := OfProcess(km.memory.segments, pid);
    EachFrame(km, mine);
    EachSane(km, mine);
    RemoveAllOfProcess(km.memory, pid);
    RemoveEachKeepsConfig(km.memory, mine, pid);
  }

  /** Another process's segments and blocks are left as they were by a suspension. */
  lemma SuspendLeavesOthers(km: Km, pid: nat, q: nat)
    requires Running(km) && q != pid && AllInRange(km, km.memory.segments)
    ensures SwapShape(SuspendProcess(km, pid).0) && SameFor(km, SuspendProcess(km, pid).0, q)
  {
    SuspendKeepsTables(km, pid);
    MineInRange(km, km.memory.segments, pid);
    var mine := OfProcess(km.memory.segments, pid);
    EachFrame(km, mine);
    EachLeavesOthers(km, mine, pid, q);
    RemoveAllOfProcess(km.memory, pid);
    OthersKeepProcess(km.memory.segments, pid, q);
    OthersKeepProcess(EndProcess(km.memory, pid).segments, pid, q);
  }

  lemma {:induction false} OthersKeepProcess(segs: seq<Segment>, pid: nat, q: nat)
    requires q != pid
    ensures OfProcess(OfOthers(segs, pid), q) == OfProcess(segs, q)
  {
    if segs != [] {
      OthersKeepProcess(segs[1..], pid, q);
      if segs[0].pid != pid {
        assert OfOthers(segs, pid)[1..] == OfOthers(segs[1..], pid);
      }
    }
  }

  /** Even from an arbitrary block table, a resumption keeps the tables valid. */
  lemma {:induction false} ResumeKeepsTables(km: Km, i: nat, pid: nat)
    requires KmValid(km)
    ensures var r := ResumeFrom(km, i, pid).0;
            && KmValid(r) && r.memory.strategy == km.memory.strategy
            && |r.blocks| == |km.blocks| && r.blockSize == km.blockSize
    decreases |km.blocks| - i
  {
    if i < |km.blocks| {
      if OwnedBy(km.blocks[i], pid) {
        BlockKeepsTables(km, i, pid);
        var r := ResumeBlock(km, i, pid);
        if r.1.Resumed? {
          ResumeKeepsTables(r.0, i + 1, pid);
        }
      } else {
        ResumeKeepsTables(km, i + 1, pid);
      }
    }
  }

  lemma BlockKeepsTables(km: Km, i: nat, pid: nat)
    requires KmValid(km) && i < |km.blocks| && OwnedBy(km.blocks[i], pid)
    ensures var r := ResumeBlock(km, i, pid);
            && KmValid(r.0) && r.0.memory.strategy == km.memory.strategy && |r.0.blocks| == |km.blocks| && r.0.blockSize == km.blockSize
            && r.0.file == km.file
            && r.0.blocks == (if r.1.Resumed? then km.blocks[i := Free] else km.blocks)
  {
    var b := km.blocks[i];
    RegenerateLaw(km.memory, b.segment, pid, b.size);
  }

  lemma StepKeepsRunning(km: Km, op: Op)
    requires Running(km) && Legal(op)
    ensures Running(Step(km, op)) && Step(km, op).blockSize == km.blockSize
  {
    match op {
      case AddStick(bytes) => AddTotalMemoryKeepsValid(km.memory, |bytes|);
      case Alloc(id, pid, size) =>
        if size <= km.memory.maxSegmentSize && size <= FreeSpace(km.memory) {
          EnoughSpaceSuffices(km.memory, id, pid, size);
          CreateKeepsStrategy(km.memory, id, pid, size);
        }
      case FreeSegment(id, pid) => RemoveSegmentKeepsValid(km.memory, id, pid);
      case End(pid) =>
        RemoveAllOfProcess(km.memory, pid);
        RemoveEachKeepsConfig(km.memory, OfProcess(km.memory.segments, pid), pid);
      case Suspend(pid) =>
        ValidInRange(km);
        SuspendKeepsTables(km, pid);
      case Resume(pid) => ResumeKeepsTables(km, 0, pid);
      case WriteBytes(_, _, _, _) =>
    }
  }

  lemma CreateKeepsStrategy(m: Memory, id: nat, pid: nat, size: int)
    ensures CreateSegment(m, id, pid, size).memory.strategy == m.strategy
    ensures CreateSegment(m, id, pid, size).memory.totalSize == m.totalSize
    ensures CreateSegment(m, id, pid, size).memory.maxSegmentSize == m.maxSegmentSize
  {
  }

  /** What the configuration sets stays, and only sticks make memory grow. */
  predicate SameSettings(km: Km, km': Km, grown: int) {
    && km'.memory.strategy == km.memory.strategy && km'.memory.maxSegmentSize == km.memory.maxSegmentSize
    && km'.memory.totalSize == km.memory.totalSize + grown
    && km'.blockSize == km.blockSize && |km'.blocks| == |km.blocks|
  }

  lemma {:induction false} ResumeKeepsSettings(km: Km, i: nat, pid: nat)
    requires KmValid(km)
    ensures SameSettings(km, ResumeFrom(km, i, pid).0, 0)
    decreases |km.blocks| - i
  {
    if i < |km.blocks| {
      if OwnedBy(km.blocks[i], pid) {
        BlockKeepsTables(km, i, pid);
        var r := ResumeBlock(km, i, pid);
        if r.1.Resumed? { ResumeKeepsSettings(r.0, i + 1, pid); }
      } else {
        ResumeKeepsSettings(km, i + 1, pid);
      }
    }
  }

  lemma SuspendKeepsSettings(km: Km, pid: nat)
    requires KmValid(km) && AllInRange(km, km.memory.segments)
    ensures SameSettings(km, SuspendProcess(km, pid).0, 0)
  {
    MineInRange(km, km.memory.segments, pid);
    var mine := OfProcess(km.memory.segments, pid);
    EachFrame(km, mine);
    assert SuspendEach(km, mine).0.memory == km.memory;
    RemoveEachKeepsConfig(km.memory, mine, pid);
  }

  lemma StepKeepsSettings(km: Km, op: Op)
    requires Running(km) && Legal(op)
    ensures SameSettings(km, Step(km, op), if op.AddStick? then |op.bytes| else 0)
  {
    match op {
      case Alloc(id, pid, size) => CreateKeepsStrategy(km.memory, id, pid, size);
      case End(pid) => RemoveEachKeepsConfig(km.memory, OfProcess(km.memory.segments, pid), pid);
      case Suspend(pid) =>
        ValidInRange(km);
        SuspendKeepsSettings(km, pid);
      case Resume(pid) => ResumeKeepsSettings(km, 0, pid);
      case _ =>
    }
  }

  function Run(km: Km, ops: seq<Op>): Km
    requires Running(km) && forall op :: op in ops ==> Legal(op)
    ensures Running(Run(km, ops)) && Run(km, ops).blockSize == km.blockSize
    decreases |ops|
  {
    if ops == [] then km
    else
      StepKeepsRunning(km, ops[0]);
      Run(Step(km, ops[0]), ops[1..])
  }

  /** Kernel Memory as it starts, before any stick has connected. */
  function Boot(maxSegmentSize: int, strategy: Strategy, blocks: nat, blockSize: nat): Km {
    Km(Memory(0, maxSegmentSize, strategy, [], []), [], seq(blocks, _ => Free), seq(blocks, _ => Zeros(blockSize)), blockSize)
  }

  lemma BootIsRunning(maxSegmentSize: int, strategy: Strategy, blocks: nat, blockSize: nat)
    requires blockSize > 0 && !strategy.Unsupported?
    ensures Running(Boot(maxSegmentSize, strategy, blocks, blockSize))
  {
  }

  /** Over every run, holes and segments tile the address space, no two holes touch, and no byte of
      space is lost or invented. */
  lemma EveryRunTiles(km: Km, ops: seq<Op>)
    requires Running(km) && forall op :: op in ops ==> Legal(op)
    ensures var m := Run(km, ops).memory;
            Tiles(m) && Apart(m.holes) && FreeSpace(m) + Total(Places(m.segments)) == m.totalSize
  {
    SpaceIsConserved(Run(km, ops).memory);
  }

  // ---------- which requests keep the tables valid ----------

  /** Kernel Memory reads through the null last segment. */
  predicate Crashes(km: Km, op: Op) {
    op.Alloc? && HandleCreateSegment(km.memory, op.id, op.pid, op.size).outcome == Crashed
  }

  /** What can be seen of a request beforehand: a stick without bytes needs a hole to extend, and an
      allocation that is not refused needs at least one byte and a known strategy. */
  predicate Fits(km: Km, op: Op) {
    && (op.AddStick? ==> op.bytes != [] || FirstEndingAt(km.memory.holes, km.memory.totalSize) != -1)
    && (op.Alloc? ==>
          || op.size > km.memory.maxSegmentSize || FreeSpace(km.memory) < op.size
          || (op.size > 0 && !km.memory.strategy.Unsupported?))
  }

  /** Sizes are unsigned in the C code. */
  predicate Unsigned(op: Op) {
    op.Alloc? ==> op.size >= 0
  }

  lemma EmptyStickIff(m: Memory)
    requires Valid(m)
    ensures Valid(AddTotalMemory(m, 0)) <==> FirstEndingAt(m.holes, m.totalSize) != -1
    ensures Valid(AddTotalMemory(m, 0)) ==> AddTotalMemory(m, 0) == m
  {
    var i := FirstEndingAt(m.holes, m.totalSize);
    if i >= 0 {
      assert AddTotalMemory(m, 0).holes == m.holes;
    } else {
      assert AddTotalMemory(m, 0).holes[|m.holes|] == Extent(m.totalSize, 0);
    }
  }

  /** A request is served and leaves the tables valid if and only if it fits. */
  lemma StepKeepsValidIff(km: Km, op: Op)
    requires KmValid(km) && Unsigned(op)
    ensures !Crashes(km, op) && KmValid(Step(km, op)) <==> Fits(km, op)
  {
    match op {
      case AddStick(bytes) =>
        if bytes == [] { EmptyStickIff(km.memory); } else { AddTotalMemoryKeepsValid(km.memory, |bytes|); }
      case Alloc(id, pid, size) =>
        if size <= km.memory.maxSegmentSize {
          CreateKeepsValidIff(km.memory, id, pid, size);
          CreateKeepsStrategy(km.memory, id, pid, size);
        }
      case FreeSegment(id, pid) => RemoveSegmentKeepsValid(km.memory, id, pid);
      case End(pid) => RemoveAllOfProcess(km.memory, pid);
      case Suspend(pid) =>
        ValidInRange(km);
        SuspendKeepsTables(km, pid);
      case Resume(pid) => ResumeKeepsTables(km, 0, pid);
      case WriteBytes(_, _, _, _) =>
    }
  }

  /** Every request of the run is served and leaves the tables valid. */
  ghost predicate ValidThroughout(km: Km, ops: seq<Op>)
    requires KmValid(km)
    decreases |ops|
  {
    ops != [] ==> !Crashes(km, ops[0]) && KmValid(Step(km, ops[0])) && ValidThroughout(Step(km, ops[0]), ops[1..])
  }

  ghost predicate FitsThroughout(km: Km, ops: seq<Op>)
    requires KmValid(km) && forall op :: op in ops ==> Unsigned(op)
    decreases |ops|
  {
    ops != [] ==>
      && Fits(km, ops[0])
      && (assert ops[0] in ops; StepKeepsValidIff(km, ops[0]); FitsThroughout(Step(km, ops[0]), ops[1..]))
  }

  /** Whatever the requests and the strategy, the tables stay valid throughout a run if and only if
      every request fits the state that it meets. */
  lemma {:induction false} RunStaysValidIff(km: Km, ops: seq<Op>)
    requires KmValid(km) && forall op :: op in ops ==> Unsigned(op)
    ensures ValidThroughout(km, ops) <==> FitsThroughout(km, ops)
    decreases |ops|
  {
    if ops != [] {
      assert ops[0] in ops;
      StepKeepsValidIff(km, ops[0]);
      if Fits(km, ops[0]) {
        RunStaysValidIff(Step(km, ops[0]), ops[1..]);
      }
    }
  }

  // ---------- what other processes' requests leave alone ----------

  /** Process q keeps its segment ids and sizes, in order, and its swap blocks; bases may change. */
  ghost predicate SameTable(km: Km, km': Km, q: nat)
    requires SwapShape(km) && SwapShape(km')
  {
    && Shapes(OfProcess(km'.memory.segments, q)) == Shapes(OfProcess(km.memory.segments, q))
    && Stored(km', q) == Stored(km, q)
    && km'.blockSize == km.blockSize
  }

  lemma {:induction false} ShapesOfProcess(x: seq<Segment>, y: seq<Segment>, q: nat)
    requires Shapes(x) == Shapes(y)
    ensures Shapes(OfProcess(x, q)) == Shapes(OfProcess(y, q))
  {
    if x != [] {
      assert Shapes(x)[0] == Shapes(y)[0];
      assert Shapes(x[1..]) == Shapes(x)[1..] == Shapes(y)[1..] == Shapes(y[1..]);
      ShapesOfProcess(x[1..], y[1..], q);
      if x[0].pid == q {
        ShapesPrepend(x[0], OfProcess(x[1..], q));
        ShapesPrepend(y[0], OfProcess(y[1..], q));
      }
    }
  }

  lemma ShapesPrepend(s: Segment, list: seq<Segment>)
    ensures Shapes([s] + list) == [Shape(s)] + Shapes(list)
  {
  }

  lemma AllocLeavesOthers(m: Memory, id: nat, pid: nat, size: int, q: nat)
    requires Valid(m) && !m.strategy.Unsupported? && size > 0 && q != pid
    ensures Shapes(OfProcess(HandleCreateSegment(m, id, pid, size).memory.segments, q)) == Shapes(OfProcess(m.segments, q))
  {
    if size <= m.maxSegmentSize && size <= FreeSpace(m) {
      EnoughSpaceSuffices(m, id, pid, size);
      var segs := CreateSegment(m, id, pid, size).memory.segments;
      var front, s := segs[..|m.segments|], segs[|m.segments|];
      assert segs == front + [s];
      OfProcessConcat(front, [s], q);
      OfProcessOne(s, q);
      ShapesOfProcess(front, m.segments, q);
    }
  }

  lemma RemoveLeavesOthers(segs: seq<Segment>, id: nat, pid: nat, q: nat)
    requires q != pid
    ensures OfProcess(Drop(segs, FindIndex(segs, id, pid)), q) == OfProcess(segs, q)
  {
    FindIndexSpec(segs, id, pid);
    var i := FindIndex(segs, id, pid);
    if i >= 0 {
      assert segs == segs[..i] + ([segs[i]] + segs[i + 1..]);
      OfProcessConcat(segs[..i], [segs[i]] + segs[i + 1..], q);
      OfProcessConcat([segs[i]], segs[i + 1..], q);
      OfProcessConcat(segs[..i], segs[i + 1..], q);
      OfProcessOne(segs[i], q);
    }
  }

  lemma {:induction false} ResumeLeavesTable(km: Km, i: nat, pid: nat, q: nat)
    requires Running(km) && q != pid
    ensures SwapShape(ResumeFrom(km, i, pid).0) && SameTable(km, ResumeFrom(km, i, pid).0, q)
    decreases |km.blocks| - i
  {
    ResumeKeepsTables(km, i, pid);
    if i < |km.blocks| {
      if OwnedBy(km.blocks[i], pid) {
        BlockKeepsTables(km, i, pid);
        var b, r := km.blocks[i], ResumeBlock(km, i, pid);
        RegenerateLaw(km.memory, b.segment, pid, b.size);
        var m' := r.0.memory;
        if |m'.segments| > |km.memory.segments| {
          var s := m'.segments[|km.memory.segments|];
          assert m'.segments == km.memory.segments + [s];
          OfProcessConcat(km.memory.segments, [s], q);
          OfProcessOne(s, q);
        }
        StoredSame(km.blocks, km.file, r.0.blocks, r.0.file, q, 0);
        if r.1.Resumed? {
          ResumeLeavesTable(r.0, i + 1, pid, q);
        }
      } else {
        ResumeLeavesTable(km, i + 1, pid, q);
      }
    }
  }

  /** Whatever others ask for, even a compaction, a process keeps its segment ids and sizes in
      order and every one of its swap blocks. */
  lemma OthersLeaveTable(km: Km, op: Op, q: nat)
    requires Running(km) && Legal(op) && !Touches(op, q)
    ensures SwapShape(Step(km, op)) && SameTable(km, Step(km, op), q)
  {
    StepKeepsRunning(km, op);
    match op {
      case AddStick(bytes) =>
      case Alloc(id, pid, size) => AllocLeavesOthers(km.memory, id, pid, size, q);
      case FreeSegment(id, pid) => RemoveLeavesOthers(km.memory.segments, id, pid, q);
      case End(pid) =>
        EndProcessLeavesOthers(km.memory, pid);
        OthersKeepProcess(km.memory.segments, pid, q);
      case Suspend(pid) =>
        ValidInRange(km);
        SuspendLeavesOthers(km, pid, q);
      case Resume(pid) => ResumeLeavesTable(km, 0, pid, q);
      case WriteBytes(pid, ordinal, offset, data) =>
    }
  }

  lemma {:induction false} OthersRunLeavesTable(km: Km, ops: seq<Op>, q: nat)
    requires Running(km) && forall op :: op in ops ==> Legal(op) && !Touches(op, q)
    ensures SameTable(km, Run(km, ops), q)
    decreases |ops|
  {
    if ops != [] {
      assert ops[0] in ops;
      StepKeepsRunning(km, ops[0]);
      OthersLeaveTable(km, ops[0], q);
      OthersRunLeavesTable(Step(km, ops[0]), ops[1..], q);
    }
  }

  lemma SuspendedSurvivesRun(km: Km, ops: seq<Op>, pid: nat, img: Image)
    requires Running(km) && Represents(km, pid, img, 0)
    requires forall op :: op in ops ==> Legal(op) && !Touches(op, pid)
    ensures Represents(Run(km, ops), pid, img, 0)
  {
    OthersRunLeavesTable(km, ops, pid);
    assert |Shapes(OfProcess(Run(km, ops).memory.segments, pid))| == 0;
  }

  /** The round trip. A resident process is suspended; then others run for as long as they like,
      compacting memory, filling it, swapping; then the process is resumed, and it has the same
      segments under the same ids, with the same sizes and the same bytes, whatever their bases.
      Its resumption changes no byte, segment or block of anybody else. */
  lemma SuspendResumeRoundTrip(km: Km, pid: nat, img: Image, ops: seq<Op>)
    requires Running(km) && Represents(km, pid, img, |img|)
    requires forall op :: op in ops ==> Legal(op) && !Touches(op, pid)
    requires AllInRange(km, km.memory.segments) && SuspendProcess(km, pid).1
    ensures Running(SuspendProcess(km, pid).0)
    ensures var mid := Run(SuspendProcess(km, pid).0, ops);
            var r := ResumeProcess(mid, pid);
            && KmValid(r.0)
            && (r.1 == Resumed ==> Represents(r.0, pid, img, |img|))
            && (forall q :: q != pid ==> SameFor(mid, r.0, q))
  {
    SuspendMovesImage(km, pid, img);
    SuspendedSurvivesRun(SuspendProcess(km, pid).0, ops, pid, img);
    var j := ResumeRestoresImage(Run(SuspendProcess(km, pid).0, ops), pid, img, 0);
  }

  // ---------- restarting a resumption ----------

  /** A request by somebody else that moves no segment: no compaction, and a resumption only of a
      process whose image is intact. */
  ghost predicate Quiet(km: Km, op: Op, pid: nat)
    requires Running(km)
  {
    && Legal(op) && !Touches(op, pid)
    && (op.Alloc? ==> CompactionNeeded !in HandleCreateSegment(km.memory, op.id, op.pid, op.size).replies)
    && (op.Resume? ==> exists img: Image, j: nat :: Represents(km, op.pid, img, j))
  }

  lemma AllocLeavesProcess(km: Km, id: nat, q: nat, size: int, pid: nat)
    requires Running(km) && Legal(Alloc(id, q, size)) && q != pid
    requires CompactionNeeded !in HandleCreateSegment(km.memory, id, q, size).replies
    ensures OfProcess(HandleCreateSegment(km.memory, id, q, size).memory.segments, pid)
         == OfProcess(km.memory.segments, pid)
  {
    if size <= km.memory.maxSegmentSize && size <= FreeSpace(km.memory) {
      EnoughSpaceSuffices(km.memory, id, q, size);
      CreateKeepsStrategy(km.memory, id, q, size);
      var segs := CreateSegment(km.memory, id, q, size).memory.segments;
      var s := segs[|km.memory.segments|];
      assert segs == km.memory.segments + [s];
      OfProcessConcat(km.memory.segments, [s], pid);
      OfProcessOne(s, pid);
    }
  }

  lemma QuietLeavesProcess(km: Km, op: Op, pid: nat)
    requires Running(km) && Quiet(km, op, pid) && !op.AddStick?
    ensures SwapShape(Step(km, op)) && SameFor(km, Step(km, op), pid)
  {
    StepKeepsRunning(km, op);
    OthersLeaveTable(km, op, pid);
    match op {
      case AddStick(bytes) =>
      case Alloc(id, q, size) => AllocLeavesProcess(km, id, q, size, pid);
      case FreeSegment(id, q) => RemoveLeavesOthers(km.memory.segments, id, q, pid);
      case End(q) =>
        EndProcessLeavesOthers(km.memory, q);
        OthersKeepProcess(km.memory.segments, q, pid);
      case Suspend(q) =>
        ValidInRange(km);
        SuspendLeavesOthers(km, q, pid);
      case Resume(q) =>
        var img: Image, j: nat :| Represents(km, q, img, j);
        var j' := ResumeRestoresImage(km, q, img, j);
      case WriteBytes(q, ordinal, offset, data) => WriteLeavesOthers(km, q, ordinal, offset, data, pid);
    }
  }

  lemma WriteLeavesOthers(km: Km, q: nat, ordinal: nat, offset: nat, data: seq<Byte>, pid: nat)
    requires KmValid(km) && pid != q
    ensures SwapShape(WriteOwn(km, q, ordinal, offset, data)) && SameFor(km, WriteOwn(km, q, ordinal, offset, data), pid)
  {
    var found := FindSegment(km.memory.segments, q, ordinal);
    if found.Some? && offset + |data| <= found.value.size {
      var s := found.value;
      ValidInRange(km);
      OfProcessMembers(km.memory.segments, q);
      OfProcessMembers(km.memory.segments, pid);
      assert s in OfProcess(km.memory.segments, q);
      forall t | t in OfProcess(km.memory.segments, pid) && InRange(km, t)
        ensures BytesOf(WriteOwn(km, q, ordinal, offset, data), t) == BytesOf(km, t)
      {
        StoreElsewhere(km.memory, km.flat, s, t, offset, data);
      }
    }
  }

  lemma StickLeavesProcess(km: Km, bytes: seq<Byte>, pid: nat, img: Image, j: nat)
    requires Running(km) && bytes != [] && Represents(km, pid, img, j)
    ensures Running(Step(km, AddStick(bytes))) && Represents(Step(km, AddStick(bytes)), pid, img, j)
  {
    StepKeepsRunning(km, AddStick(bytes));
    OthersLeaveTable(km, AddStick(bytes), pid);
    var km' := Step(km, AddStick(bytes));
    var mine := OfProcess(km.memory.segments, pid);
    forall k | 0 <= k < j ensures InRange(km', mine[k]) && BytesOf(km', mine[k]) == img[k] {
      assert km'.flat[mine[k].base..mine[k].base + mine[k].size] == km.flat[mine[k].base..mine[k].base + mine[k].size];
    }
  }

  /** Runs in which others stay quiet towards the process, while its resumption may be tried
      any number of times. */
  ghost predicate QuietRun(km: Km, ops: seq<Op>, pid: nat)
    requires Running(km)
    decreases |ops|
  {
    ops != [] ==>
      && (ops[0] == Resume(pid) || Quiet(km, ops[0], pid))
      && (StepKeepsRunning(km, ops[0]); QuietRun(Step(km, ops[0]), ops[1..], pid))
  }

  lemma {:induction false} QuietRunIsLegal(km: Km, ops: seq<Op>, pid: nat)
    requires Running(km) && QuietRun(km, ops, pid)
    ensures forall op :: op in ops ==> Legal(op)
    decreases |ops|
  {
    if ops != [] {
      StepKeepsRunning(km, ops[0]);
      QuietRunIsLegal(Step(km, ops[0]), ops[1..], pid);
    }
  }

  /** A resumption that stopped half way can wait and be tried again, any number of times: the two
      halves of the image stay intact, and the half in memory never shrinks. */
  lemma {:induction false} ResumptionIsRestartable(km: Km, pid: nat, img: Image, j: nat, ops: seq<Op>) returns (j': nat)
    requires Running(km) && Represents(km, pid, img, j) && QuietRun(km, ops, pid)
    ensures forall op :: op in ops ==> Legal(op)
    ensures j <= j' <= |img| && Represents(Run(km, ops), pid, img, j')
    decreases |ops|
  {
    QuietRunIsLegal(km, ops, pid);
    if ops == [] {
      return j;
    }
    var op := ops[0];
    StepKeepsRunning(km, op);
    var k := j;
    if op == Resume(pid) {
      k := ResumeRestoresImage(km, pid, img, j);
    } else if op.AddStick? {
      StickLeavesProcess(km, op.bytes, pid, img, j);
    } else {
      QuietLeavesProcess(km, op, pid);
      SameForRepresents(km, Step(km, op), pid, img, j);
    }
    j' := ResumptionIsRestartable(Step(km, op), pid, img, k, ops[1..]);
  }

  // ---------- a restart after somebody else's compaction ----------

  lemma {:induction false} CutFromTail(x: Image, y: Image, blockSize: nat, j: nat)
    requires blockSize > 0 && |x| == |y| && j <= |x| && x[j..] == y[j..]
    ensures CutFrom(x, blockSize, j) == CutFrom(y, blockSize, j)
    decreases |x| - j
  {
    if j < |x| {
      assert x[j] == x[j..][0] && y[j] == y[j..][0];
      assert x[j + 1..] == x[j..][1..] && y[j + 1..] == y[j..][1..];
      CutFromTail(x, y, blockSize, j + 1);
    }
  }

  /** What is back in memory stays there in place and size, whatever somebody else asks for. */
  lemma PlacesAfterOthers(km: Km, op: Op, pid: nat, img: Image, j: nat)
    requires Running(km) && Legal(op) && !Touches(op, pid) && Represents(km, pid, img, j)
    ensures Running(Step(km, op)) && Stored(Step(km, op), pid) == Stored(km, pid) && Step(km, op).blockSize == km.blockSize
    ensures var km' := Step(km, op);
            var mine' := OfProcess(km'.memory.segments, pid);
            |mine'| == j && forall k :: 0 <= k < j ==> InRange(km', mine'[k]) && mine'[k].id == k && mine'[k].size == |img[k]|
  {
    StepKeepsRunning(km, op);
    OthersLeaveTable(km, op, pid);
    var km' := Step(km, op);
    var mine, mine' := OfProcess(km.memory.segments, pid), OfProcess(km'.memory.segments, pid);
    assert |Shapes(mine)| == |Shapes(mine')|;
    ValidInRange(km');
    MineInRange(km', km'.memory.segments, pid);
    forall k | 0 <= k < j ensures InRange(km', mine'[k]) && mine'[k].id == k && mine'[k].size == |img[k]| {
      assert mine'[k] in mine';
      assert Shapes(mine')[k] == Shapes(mine)[k];
    }
  }

  /** Whatever somebody else asks for, a half resumed process keeps its segment ids and sizes, the
      split between memory and swap, and the bytes in swap; the bytes in memory may be others. */
  lemma HalvesAfterOthers(km: Km, op: Op, pid: nat, img: Image, j: nat) returns (img': Image)
    requires Running(km) && Legal(op) && !Touches(op, pid) && Represents(km, pid, img, j)
    ensures Running(Step(km, op)) && Represents(Step(km, op), pid, img', j)
    ensures |img'| == |img| && img'[j..] == img[j..]
    ensures forall k :: 0 <= k < |img| ==> |img'[k]| == |img[k]|
  {
    PlacesAfterOthers(km, op, pid, img, j);
    var km' := Step(km, op);
    var mine' := OfProcess(km'.memory.segments, pid);
    var back: Image := seq(j, k requires 0 <= k < j => BytesOf(km', mine'[k]));
    img' := back + img[j..];
    BackInFront(img, back, km.blockSize);
  }

  lemma BackInFront(img: Image, back: Image, blockSize: nat)
    requires blockSize > 0 && |back| <= |img| && forall k :: 0 <= k < |back| ==> |back[k]| == |img[k]|
    ensures var img', j := back + img[|back|..], |back|;
            && |img'| == |img| && img'[j..] == img[j..] && (forall k :: 0 <= k < j ==> img'[k] == back[k])
            && (forall k :: 0 <= k < |img| ==> |img'[k]| == |img[k]|)
            && CutFrom(img', blockSize, j) == CutFrom(img, blockSize, j)
  {
    CutFromTail(img, back + img[|back|..], blockSize, |back|);
  }

  /** A resumption that stopped half way can be tried again even when others make Kernel Memory
      compact in between: the ids, the sizes and the split survive, the half in memory never
      shrinks, and everything still in swap is as it was. What a compaction does to the bytes
      already in memory is CompactionKeepsBytesIff. */
  lemma {:induction false} RestartSurvivesCompaction(km: Km, pid: nat, img: Image, j: nat, ops: seq<Op>)
    returns (img': Image, j': nat)
    requires Running(km) && Represents(km, pid, img, j)
    requires forall op :: op in ops ==> Legal(op) && (Touches(op, pid) ==> op.Resume?)
    ensures j <= j' <= |img| && Represents(Run(km, ops), pid, img', j')
    ensures |img'| == |img| && img'[j'..] == img[j'..]
    ensures forall k :: 0 <= k < |img| ==> |img'[k]| == |img[k]|
    decreases |ops|
  {
    if ops == [] {
      return img, j;
    }
    var op := ops[0];
    assert op in ops;
    var img1, k := StepBetweenAttempts(km, op, pid, img, j);
    img', j' := RestartSurvivesCompaction(Step(km, op), pid, img1, k, ops[1..]);
    assert img'[j'..] == img1[j'..] == img1[k..][j' - k..] == img[k..][j' - k..] == img[j'..];
  }

  /** One request between two attempts, or an attempt. */
  lemma StepBetweenAttempts(km: Km, op: Op, pid: nat, img: Image, j: nat) returns (img': Image, k: nat)
    requires Running(km) && Represents(km, pid, img, j) && Legal(op) && (Touches(op, pid) ==> op.Resume?)
    ensures Running(Step(km, op)) && j <= k <= |img| && Represents(Step(km, op), pid, img', k)
    ensures |img'| == |img| && img'[k..] == img[k..] && forall i :: 0 <= i < |img| ==> |img'[i]| == |img[i]|
  {
    StepKeepsRunning(km, op);
    if Touches(op, pid) {
      k := ResumeRestoresImage(km, pid, img, j);
      img' := img;
    } else {
      img' := HalvesAfterOthers(km, op, pid, img, j);
      k := j;
    }
  }

  // ---------- compaction moves no bytes ----------

  /** Compaction rewrites bases and copies nothing, so a segment still reads its old bytes, whatever
      they were, exactly when it already lay right behind the segments listed before it. */
  lemma CompactionKeepsBytesIff(m: Memory, i: nat)
    requires Valid(m) && i < |m.segments|
    ensures var c := CompactMemory(m);
            && |c.segments| == |m.segments|
            && 0 <= m.segments[i].base && m.segments[i].base + m.segments[i].size <= m.totalSize
            && 0 <= c.segments[i].base && c.segments[i].base + m.segments[i].size <= m.totalSize
            && m.segments[i].size > 0
            && ((forall flat: seq<Byte> :: |flat| == m.totalSize ==>
                   flat[c.segments[i].base..c.segments[i].base + m.segments[i].size]
                   == flat[m.segments[i].base..m.segments[i].base + m.segments[i].size])
                <==> m.segments[i].base == Total(Places(m.segments[..i])))
  {
    var c := CompactMemory(m);
    CompactionGathers(m);
    PackedShapes(m.segments, 0);
    PackedBase(m.segments, 0, i);
    assert Shapes(c.segments)[i] == Shapes(m.segments)[i];
    SegmentInBounds(m, i);
    TilingBounds(c, i);
    SameSliceIff(m.totalSize, c.segments[i].base, m.segments[i].base, m.segments[i].size);
  }

  /** Two ranges of one length read the same in every memory if and only if they are one range. */
  lemma SameSliceIff(total: int, x: int, y: int, n: int)
    requires n > 0 && 0 <= x && x + n <= total && 0 <= y && y + n <= total
    ensures (forall flat: seq<Byte> :: |flat| == total ==> flat[x..x + n] == flat[y..y + n]) <==> x == y
  {
    if x != y {
      var flat: seq<Byte> := seq(total, a => if a == y then 1 else 0);
      assert flat[y..y + n][0] == 1;
      assert flat[x..x + n][0] == 0;
    }
  }
}
