/** The MEM_ALLOC exchange between the scheduler (syscalls/memory.c, kernel_memory_reply.c) and
    Kernel Memory (scheduler_listener.c, holes.c, compaction.c), with memory sticks connecting at
    any moment, as two parties and two message channels. The scheduler holds its Kernel Memory
    socket throughout, so this is the only exchange under way. */
module AllocProtocol {
  import opened MemoryTables
  import opened AllocatorLaws

  datatype KsMsg = RequestFreeMemory | CreateSegmentRequest | CanCompact

  datatype KmMsg = FreeMemoryIs(space: int) | Answer(reply: Reply) | NewMemoryStick

  /** The scheduler's half. space: the free memory it was told. */
  datatype Ks =
    | Starting
    | AwaitSpace
    | AwaitReply(space: int)
    | AwaitDone(space: int)
    | Returned(granted: bool, space: int)
    | ShutDown

  /** Kernel Memory's half. While it waits for the go-ahead it holds the memory's mutex. */
  datatype Km = Listening | AwaitGoAhead | Granting | Down

  datatype Request = Request(id: nat, pid: nat, size: nat)

  /** sticks: sizes of sticks announced to the scheduler but not yet added to the memory. */
  datatype Exchange = Exchange(
    req: Request, ks: Ks, km: Km, toKm: seq<KsMsg>, toKs: seq<KmMsg>, memory: Memory, sticks: seq<int>)

  datatype Move = KsMove | KmMove | StickConnects(size: int) | StickAdded

  // ---------- the scheduler's moves ----------

  /** What the scheduler does with a message that is not a stick notice. */
  function KsReceive(y: Exchange, msg: KmMsg): Exchange {
    match y.ks
    case AwaitSpace =>
      if msg.FreeMemoryIs? then
        if msg.space >= y.req.size then y.(ks := AwaitReply(msg.space), toKm := y.toKm + [CreateSegmentRequest])
        else y.(ks := Returned(false, msg.space))
      else y.(ks := ShutDown)
    case AwaitReply(space) =>
      if msg == Answer(MemoryAllocated) then y.(ks := Returned(true, space))
      else if msg == Answer(SegmentSizeExceeded) || msg == Answer(NotEnoughMemory) then y.(ks := Returned(false, space))
      else if msg == Answer(CompactionNeeded) then y.(ks := AwaitDone(space), toKm := y.toKm + [CanCompact])
      else y.(ks := ShutDown)
    case AwaitDone(space) =>
      if msg == Answer(CompactionDone) then y.(ks := AwaitReply(space)) else y.(ks := ShutDown)
    case _ => y
  }

  predicate Receiving(ks: Ks) {
    ks.AwaitSpace? || ks.AwaitReply? || ks.AwaitDone?
  }

  function KsStep(y: Exchange): Exchange {
    if y.ks.Starting? then y.(ks := AwaitSpace, toKm := y.toKm + [RequestFreeMemory])
    else if Receiving(y.ks) && y.toKs != [] then
      var rest := y.(toKs := y.toKs[1..]);
      if y.toKs[0].NewMemoryStick? then rest else KsReceive(rest, y.toKs[0])
    else y
  }

  // ---------- Kernel Memory's moves ----------

  function Reply(y: Exchange, msg: KmMsg): Exchange {
    y.(toKs := y.toKs + [msg])
  }

  function Placed(m: Memory, req: Request): Memory {
    AppendSegment(AfterSelect(m, req.size), SelectedHole(m, req.size), req.size, req.pid, req.id)
  }

  /** The request handler, up to the point where it waits for the scheduler or has placed the segment. */
  function Serve(y: Exchange): Exchange {
    var m, size := y.memory, y.req.size;
    if size > m.maxSegmentSize then Reply(y, Answer(SegmentSizeExceeded))
    else if FreeSpace(m) < size then Reply(y, Answer(NotEnoughMemory))
    else if SelectedHole(m, size).size != -1 then y.(memory := Placed(m, y.req), km := Granting)
    else Reply(y.(memory := AfterSelect(m, size), km := AwaitGoAhead), Answer(CompactionNeeded))
  }

  /** The rest of it after the go-ahead. */
  function Compact(y: Exchange): Exchange {
    if y.memory.segments == [] then y.(km := Down)
    else Reply(y.(memory := Placed(CompactMemory(y.memory), y.req), km := Granting), Answer(CompactionDone))
  }

  function KmStep(y: Exchange): Exchange {
    match y.km
    case Listening =>
      if y.toKm == [] then y
      else
        var rest := y.(toKm := y.toKm[1..]);
        (match y.toKm[0]
         case RequestFreeMemory => Reply(rest, FreeMemoryIs(FreeSpace(y.memory)))
         case CreateSegmentRequest => Serve(rest)
         case CanCompact => rest.(km := Down))
    case AwaitGoAhead => if y.toKm == [] then y else Compact(y.(toKm := y.toKm[1..]))
    case Granting => Reply(y.(km := Listening), Answer(MemoryAllocated))
    case Down => y
  }

  /** A stick is announced to the scheduler first and added to the memory when its mutex is free. */
  function Step(y: Exchange, move: Move): Exchange {
    match move
    case KsMove => KsStep(y)
    case KmMove => KmStep(y)
    case StickConnects(size) => if size > 0 then Reply(y.(sticks := y.sticks + [size]), NewMemoryStick) else y
    case StickAdded =>
      if y.sticks != [] && !y.km.AwaitGoAhead?
      then y.(memory := AddTotalMemory(y.memory, y.sticks[0]), sticks := y.sticks[1..])
      else y
  }

  function Run(y: Exchange, moves: seq<Move>): Exchange
    decreases |moves|
  {
    if moves == [] then y else Run(Step(y, moves[0]), moves[1..])
  }

  function Begin(req: Request, m: Memory): Exchange {
    Exchange(req, Starting, Listening, [], [], m, [])
  }

  // ---------- the invariant ----------

  /** The messages that answer something. */
  function Answers(msgs: seq<KmMsg>): seq<KmMsg> {
    if msgs == [] then []
    else if msgs[0].NewMemoryStick? then Answers(msgs[1..])
    else [msgs[0]] + Answers(msgs[1..])
  }

  lemma {:induction false} AnswersAppend(msgs: seq<KmMsg>, msg: KmMsg)
    ensures Answers(msgs + [msg]) == Answers(msgs) + if msg.NewMemoryStick? then [] else [msg]
  {
    if msgs != [] {
      assert (msgs + [msg])[1..] == msgs[1..] + [msg];
      AnswersAppend(msgs[1..], msg);
    }
  }

  /** Nothing has crashed that could: there is a segment to measure from, or a hole to choose. */
  predicate Safe(m: Memory) {
    m.segments != [] || (!m.strategy.Unsupported? && m.totalSize > 0)
  }

  /** The memory before the segment is placed. */
  ghost predicate Before(y: Exchange, m0: Memory) {
    && Valid(y.memory) && Safe(y.memory)
    && Shapes(y.memory.segments) == Shapes(m0.segments)
    && y.memory.maxSegmentSize == m0.maxSegmentSize
  }

  /** The segments of m0, in order, with the requested one at the end. */
  ghost predicate After(y: Exchange, m0: Memory) {
    && Shapes(y.memory.segments) == Shapes(m0.segments) + [(y.req.id, y.req.pid, y.req.size)]
    && y.memory.maxSegmentSize == m0.maxSegmentSize
  }

  /** Where the two parties can stand relative to each other. */
  ghost predicate Inv(y: Exchange, m0: Memory) {
    var a, size, max := Answers(y.toKs), y.req.size, m0.maxSegmentSize;
    && (forall n :: n in y.sticks ==> n > 0)
    && match y.ks
       case Starting => y.km == Listening && y.toKm == [] && a == [] && Before(y, m0)
       case AwaitSpace =>
         && y.km == Listening && Before(y, m0)
         && ((y.toKm == [RequestFreeMemory] && a == [])
             || (y.toKm == [] && exists n :: a == [FreeMemoryIs(n)] && n <= FreeSpace(y.memory)))
       case AwaitReply(space) =>
         size <= space &&
         if y.km == Listening then
           || (y.toKm == [CreateSegmentRequest] && a == [] && Before(y, m0) && space <= FreeSpace(y.memory))
           || (y.toKm == [] && a == [Answer(SegmentSizeExceeded)] && size > max && Before(y, m0))
           || (y.toKm == [] && a == [Answer(MemoryAllocated)] && size <= max && After(y, m0))
         else if y.km == AwaitGoAhead then
           && y.toKm == [] && a == [Answer(CompactionNeeded)] && size <= max
           && y.memory.segments != [] && Shapes(y.memory.segments) == Shapes(m0.segments) && y.memory.maxSegmentSize == max
         else
           y.km == Granting && y.toKm == [] && a == [] && size <= max && After(y, m0)
       case AwaitDone(space) =>
         && size <= space && size <= max
         && if y.km == AwaitGoAhead then
              && y.toKm == [CanCompact] && a == []
              && y.memory.segments != [] && Shapes(y.memory.segments) == Shapes(m0.segments) && y.memory.maxSegmentSize == max
            else if y.km == Granting then
              y.toKm == [] && a == [Answer(CompactionDone)] && After(y, m0)
            else
              y.km == Listening && y.toKm == [] && a == [Answer(CompactionDone), Answer(MemoryAllocated)] && After(y, m0)
       case Returned(granted, space) =>
         && y.km == Listening && y.toKm == [] && a == []
         && (granted <==> size <= space && size <= max)
         && if granted then After(y, m0) else Before(y, m0)
       case ShutDown => false
  }

  lemma BeginIsGood(req: Request, m: Memory)
    requires Valid(m) && Safe(m)
    ensures Inv(Begin(req, m), m)
  {
  }

  // ---------- memory facts ----------

  lemma PlaceShapes(m: Memory, req: Request)
    ensures Shapes(Placed(m, req).segments) == Shapes(m.segments) + [(req.id, req.pid, req.size)]
    ensures Placed(m, req).maxSegmentSize == m.maxSegmentSize
  {
  }

  lemma CompactShapes(m: Memory)
    requires m.segments != []
    ensures Shapes(CompactMemory(m).segments) == Shapes(m.segments)
    ensures CompactMemory(m).maxSegmentSize == m.maxSegmentSize
  {
    PackedShapes(m.segments, 0);
  }

  /** A memory that needs compacting has something to compact. */
  lemma CompactionHasSegments(m: Memory, req: Request)
    requires Valid(m) && Safe(m) && req.size <= FreeSpace(m) && SelectedHole(m, req.size).size == -1
    ensures AfterSelect(m, req.size).segments != []
  {
    CreateCrashesIff(m, req.id, req.pid, req.size);
  }

  lemma GrowthKeeps(y: Exchange, m0: Memory, n: int)
    requires n > 0
    ensures Before(y, m0) ==> Before(y.(memory := AddTotalMemory(y.memory, n)), m0)
                              && FreeSpace(AddTotalMemory(y.memory, n)) >= FreeSpace(y.memory)
    ensures After(y, m0) ==> After(y.(memory := AddTotalMemory(y.memory, n)), m0)
  {
    if Before(y, m0) { AddTotalMemoryKeepsValid(y.memory, n); }
  }

  // ---------- every move keeps the invariant ----------

  lemma KsStepKeeps(y: Exchange, m0: Memory)
    requires Inv(y, m0)
    ensures Inv(KsStep(y), m0)
  {
    if Receiving(y.ks) && y.toKs != [] && !y.toKs[0].NewMemoryStick? {
      assert Answers(y.toKs)[0] == y.toKs[0] && Answers(y.toKs)[1..] == Answers(y.toKs[1..]);
    }
  }

  lemma ServeKeeps(y: Exchange, m0: Memory)
    requires Inv(y, m0) && y.ks.AwaitReply? && y.km == Listening && y.toKm == [CreateSegmentRequest]
    ensures Inv(KmStep(y), m0)
  {
    var rest := y.(toKm := []);
    assert KmStep(y) == Serve(rest);
    AnswersAppend(y.toKs, Answer(SegmentSizeExceeded));
    AnswersAppend(y.toKs, Answer(CompactionNeeded));
    PlaceShapes(y.memory, y.req);
    if SelectedHole(y.memory, y.req.size).size == -1 { CompactionHasSegments(y.memory, y.req); }
  }

  lemma CompactKeeps(y: Exchange, m0: Memory)
    requires Inv(y, m0) && y.km == AwaitGoAhead && y.toKm != []
    ensures Inv(KmStep(y), m0)
  {
    AnswersAppend(y.toKs, Answer(CompactionDone));
    CompactShapes(y.memory);
    PlaceShapes(CompactMemory(y.memory), y.req);
  }

  lemma KmStepKeeps(y: Exchange, m0: Memory)
    requires Inv(y, m0)
    ensures Inv(KmStep(y), m0)
  {
    if y.km == Listening && y.toKm != [] {
      if y.toKm[0] == RequestFreeMemory {
        AnswersAppend(y.toKs, FreeMemoryIs(FreeSpace(y.memory)));
      } else {
        ServeKeeps(y, m0);
      }
    } else if y.km == AwaitGoAhead && y.toKm != [] {
      CompactKeeps(y, m0);
    } else if y.km == Granting {
      AnswersAppend(y.toKs, Answer(MemoryAllocated));
    }
  }

  lemma StickConnectsKeeps(y: Exchange, m0: Memory, size: int)
    requires Inv(y, m0)
    ensures Inv(Step(y, StickConnects(size)), m0)
  {
    AnswersAppend(y.toKs, NewMemoryStick);
    assert forall n :: n in y.sticks + [size] ==> n in y.sticks || n == size;
  }

  lemma StickAddedKeeps(y: Exchange, m0: Memory)
    requires Inv(y, m0)
    ensures Inv(Step(y, StickAdded), m0)
  {
    if y.sticks != [] {
      assert y.sticks[0] in y.sticks;
      assert forall n :: n in y.sticks[1..] ==> n in y.sticks;
      GrowthKeeps(y, m0, y.sticks[0]);
    }
  }

  lemma StepKeeps(y: Exchange, m0: Memory, move: Move)
    requires Inv(y, m0)
    ensures Inv(Step(y, move), m0)
  {
    match move {
      case KsMove => KsStepKeeps(y, m0);
      case KmMove => KmStepKeeps(y, m0);
      case StickConnects(size) => StickConnectsKeeps(y, m0, size);
      case StickAdded => StickAddedKeeps(y, m0);
    }
  }

  lemma {:induction false} RunKeeps(y: Exchange, m0: Memory, moves: seq<Move>)
    requires Inv(y, m0)
    ensures Inv(Run(y, moves), m0)
    decreases |moves|
  {
    if moves != [] {
      StepKeeps(y, m0, moves[0]);
      RunKeeps(Step(y, moves[0]), m0, moves[1..]);
    }
  }

  // ---------- sticks, and the space that is told ----------

  function Bytes(sizes: seq<int>): int {
    if sizes == [] then 0 else sizes[0] + Bytes(sizes[1..])
  }

  lemma {:induction false} BytesAppend(sizes: seq<int>, n: int)
    ensures Bytes(sizes + [n]) == Bytes(sizes) + n
  {
    if sizes != [] {
      assert (sizes + [n])[1..] == sizes[1..] + [n];
      BytesAppend(sizes[1..], n);
    }
  }

  /** The bytes of the sticks that connect during these moves. */
  function BytesConnected(moves: seq<Move>): int {
    if moves == [] then 0
    else (if moves[0].StickConnects? && moves[0].size > 0 then moves[0].size else 0) + BytesConnected(moves[1..])
  }

  /** No stick is lost: memory and the announced sticks grow by what connects, whatever the exchange does
      meanwhile; the configuration and the request stay. */
  lemma {:induction false} SticksArrive(y: Exchange, moves: seq<Move>)
    ensures var y' := Run(y, moves);
            && y'.memory.totalSize + Bytes(y'.sticks) == y.memory.totalSize + Bytes(y.sticks) + BytesConnected(moves)
            && y'.memory.strategy == y.memory.strategy && y'.memory.maxSegmentSize == y.memory.maxSegmentSize
            && y'.req == y.req
    decreases |moves|
  {
    if moves != [] {
      MoveKeepsBytes(y, moves[0]);
      SticksArrive(Step(y, moves[0]), moves[1..]);
    }
  }

  lemma MoveKeepsBytes(y: Exchange, move: Move)
    ensures var y' := Step(y, move);
            && y'.memory.totalSize + Bytes(y'.sticks) == y.memory.totalSize + Bytes(y.sticks) + BytesConnected([move])
            && y'.memory.strategy == y.memory.strategy && y'.memory.maxSegmentSize == y.memory.maxSegmentSize
            && y'.req == y.req
  {
    assert [move][1..] == [];
    if move.StickConnects? { BytesAppend(y.sticks, move.size); }
  }

  /** n is the free space that there was at the start, or more, by no more than sticks have added. */
  ghost predicate SpaceBetween(n: int, m: Memory, m0: Memory) {
    FreeSpace(m0) <= n <= FreeSpace(m0) + m.totalSize - m0.totalSize
  }

  /** The free space that is told, or was, is what there was at that moment. */
  ghost predicate Told(y: Exchange, m0: Memory) {
    && m0.totalSize <= y.memory.totalSize
    && (forall n {:trigger FreeMemoryIs(n)} :: FreeMemoryIs(n) in y.toKs ==> SpaceBetween(n, y.memory, m0))
    && match y.ks
       case AwaitReply(space) => SpaceBetween(space, y.memory, m0)
       case AwaitDone(space) => SpaceBetween(space, y.memory, m0)
       case Returned(_, space) => SpaceBetween(space, y.memory, m0)
       case _ => true
  }

  /** The free space is the size of memory less that of the segments, wherever they lie. */
  lemma FreeOfSameShapes(m: Memory, m0: Memory)
    requires Valid(m) && Valid(m0) && Shapes(m.segments) == Shapes(m0.segments)
    ensures FreeSpace(m) - FreeSpace(m0) == m.totalSize - m0.totalSize
  {
    SpaceIsConserved(m);
    SpaceIsConserved(m0);
    assert |Shapes(m.segments)| == |Shapes(m0.segments)|;
    forall i | 0 <= i < |m.segments| ensures m.segments[i].size == m0.segments[i].size {
      assert Shapes(m.segments)[i] == Shapes(m0.segments)[i];
    }
    SizesDecideTotal(m.segments, m0.segments);
  }

  lemma KmStepTells(y: Exchange, m0: Memory)
    requires Valid(m0) && Inv(y, m0) && Told(y, m0)
    ensures Told(KmStep(y), m0)
  {
    if y.km == Listening && y.toKm != [] && y.toKm[0] == RequestFreeMemory {
      FreeOfSameShapes(y.memory, m0);
    }
  }

  lemma StepTells(y: Exchange, m0: Memory, move: Move)
    requires Valid(m0) && Inv(y, m0) && Told(y, m0)
    ensures Told(Step(y, move), m0)
  {
    match move {
      case KsMove =>
        if y.toKs != [] { assert forall msg :: msg in y.toKs[1..] ==> msg in y.toKs; }
      case KmMove => KmStepTells(y, m0);
      case StickConnects(_) =>
      case StickAdded =>
        if y.sticks != [] { assert y.sticks[0] in y.sticks; }
    }
  }

  lemma {:induction false} RunTells(y: Exchange, m0: Memory, moves: seq<Move>)
    requires Valid(m0) && Inv(y, m0) && Told(y, m0)
    ensures Told(Run(y, moves), m0)
    decreases |moves|
  {
    if moves != [] {
      StepKeeps(y, m0, moves[0]);
      StepTells(y, m0, moves[0]);
      RunTells(Step(y, moves[0]), m0, moves[1..]);
    }
  }

  lemma {:induction false} BytesPositive(sizes: seq<int>)
    requires forall n :: n in sizes ==> n > 0
    ensures Bytes(sizes) >= 0
  {
    if sizes != [] {
      assert sizes[0] in sizes && forall n :: n in sizes[1..] ==> n in sizes;
      BytesPositive(sizes[1..]);
    }
  }

  /** The space that the scheduler goes by: what was free at the start, and more only if sticks connected. */
  lemma ToldSpaceIs(req: Request, m: Memory, moves: seq<Move>)
    requires Valid(m) && Safe(m) && Run(Begin(req, m), moves).ks.Returned?
    ensures FreeSpace(m) <= Run(Begin(req, m), moves).ks.space <= FreeSpace(m) + BytesConnected(moves)
  {
    BeginIsGood(req, m);
    RunKeeps(Begin(req, m), m, moves);
    RunTells(Begin(req, m), m, moves);
    SticksArrive(Begin(req, m), moves);
    BytesPositive(Run(Begin(req, m), moves).sticks);
  }

  // ---------- what the exchange promises ----------

  /** In every run: once the scheduler has its verdict, nothing is left in either channel except
      stick notices, and the verdict is true exactly when Kernel Memory added the requested segment,
      which it did exactly when the request fits the free memory reported and the largest segment. */
  lemma VerdictIsRight(req: Request, m: Memory, moves: seq<Move>)
    requires Valid(m) && Safe(m)
    requires Run(Begin(req, m), moves).ks.Returned?
    ensures var y := Run(Begin(req, m), moves);
            && y.km == Listening && y.toKm == [] && Answers(y.toKs) == []
            && (y.ks.granted <==> Shapes(y.memory.segments) == Shapes(m.segments) + [(req.id, req.pid, req.size)])
            && (!y.ks.granted <==> Shapes(y.memory.segments) == Shapes(m.segments))
            && (y.ks.granted <==> req.size <= y.ks.space && req.size <= m.maxSegmentSize)
            && FreeSpace(m) <= y.ks.space <= FreeSpace(m) + BytesConnected(moves)
  {
    ToldSpaceIs(req, m, moves);
    BeginIsGood(req, m);
    RunKeeps(Begin(req, m), m, moves);
    assert |Shapes(m.segments) + [(req.id, req.pid, req.size)]| == |Shapes(m.segments)| + 1;
    RequestUnchanged(Begin(req, m), moves);
  }

  lemma {:induction false} RequestUnchanged(y: Exchange, moves: seq<Move>)
    ensures Run(y, moves).req == y.req
    decreases |moves|
  {
    if moves != [] {
      assert Step(y, moves[0]).req == y.req;
      RequestUnchanged(Step(y, moves[0]), moves[1..]);
    }
  }

  /** What the scheduler makes of an answer: the verdict, the go-ahead for a compaction, or, when it
      expects something else, its own end. */
  lemma AnswerIsVerdict(y: Exchange, msg: KmMsg)
    requires y.ks.AwaitReply? && y.toKs != [] && y.toKs[0] == msg && !msg.NewMemoryStick?
    ensures var ks := KsStep(y).ks;
            && (ks == Returned(true, y.ks.space) <==> msg == Answer(MemoryAllocated))
            && (ks == Returned(false, y.ks.space) <==> msg == Answer(SegmentSizeExceeded) || msg == Answer(NotEnoughMemory))
            && (ks == AwaitDone(y.ks.space) <==> msg == Answer(CompactionNeeded))
            && (ks == ShutDown <==> msg.FreeMemoryIs? || msg == Answer(CompactionDone))
            && KsStep(y).toKm == y.toKm + (if msg == Answer(CompactionNeeded) then [CanCompact] else [])
  {
    if msg.Answer? {
      match msg.reply
      case SegmentSizeExceeded =>
      case NotEnoughMemory =>
      case CompactionNeeded =>
      case CompactionDone =>
      case MemoryAllocated =>
    }
  }

  /** Neither party goes on with a message that it does not expect: the scheduler shuts down, Kernel
      Memory is brought down. */
  lemma OnlyTheExpected(y: Exchange)
    requires y.toKs != [] ==> !y.toKs[0].NewMemoryStick?
    ensures y.ks.AwaitSpace? && y.toKs != [] ==> (KsStep(y).ks == ShutDown <==> !y.toKs[0].FreeMemoryIs?)
    ensures y.ks.AwaitDone? && y.toKs != [] ==>
              KsStep(y).ks == if y.toKs[0] == Answer(CompactionDone) then AwaitReply(y.ks.space) else ShutDown
    ensures y.km == Listening && y.toKm != [] && y.toKm[0] == CanCompact ==> KmStep(y).km == Down
  {
  }

  /** While Kernel Memory waits for the go-ahead it holds the memory: sticks may connect, but nothing
      changes the tables. */
  lemma {:induction false} MemoryIsHeld(y: Exchange, moves: seq<Move>)
    requires y.km == AwaitGoAhead && forall move :: move in moves ==> move != KmMove
    ensures Run(y, moves).memory == y.memory && Run(y, moves).km == AwaitGoAhead
    decreases |moves|
  {
    if moves != [] {
      assert moves[0] in moves && forall move :: move in moves[1..] ==> move in moves;
      MemoryIsHeld(Step(y, moves[0]), moves[1..]);
    }
  }

  /** Until the scheduler has its verdict, one of the parties can move. */
  lemma NoDeadlock(y: Exchange, m0: Memory)
    requires Inv(y, m0) && !y.ks.Returned?
    ensures KsStep(y) != y || KmStep(y) != y
  {
    if y.toKs != [] && Receiving(y.ks) {
      assert |KsStep(y).toKs| == |y.toKs| - 1;
    } else if y.toKm != [] && y.km != Granting {
      KmReads(y);
    }
  }

  lemma KmReads(y: Exchange)
    requires y.toKm != [] && (y.km == Listening || y.km == AwaitGoAhead)
    ensures KmStep(y).toKm == y.toKm[1..]
  {
  }

  /** How far the exchange is from its end, by where the two parties stand. */
  function Distance(y: Exchange): nat {
    match y.ks
    case Starting => 12
    case AwaitSpace => if y.toKm != [] then 11 else 10
    case AwaitReply(_) =>
      if y.km == Granting then 5
      else if y.km == AwaitGoAhead then 8
      else if y.toKm != [] then 9
      else 4
    case AwaitDone(_) => if y.km == AwaitGoAhead then 7 else if y.km == Granting then 6 else 5
    case _ => 0
  }

  function Notices(msgs: seq<KmMsg>): nat {
    if msgs == [] then 0 else (if msgs[0].NewMemoryStick? then 1 else 0) + Notices(msgs[1..])
  }

  lemma {:induction false} NoticesAppend(msgs: seq<KmMsg>, msg: KmMsg)
    ensures Notices(msgs + [msg]) == Notices(msgs) + if msg.NewMemoryStick? then 1 else 0
  {
    if msgs != [] {
      assert (msgs + [msg])[1..] == msgs[1..] + [msg];
      NoticesAppend(msgs[1..], msg);
    }
  }

  function Rank(y: Exchange): nat {
    Distance(y) + Notices(y.toKs) + |y.sticks|
  }

  lemma KmStepApproaches(y: Exchange, m0: Memory)
    requires Inv(y, m0)
    ensures KmStep(y) == y || Rank(KmStep(y)) < Rank(y)
  {
    forall msg: KmMsg ensures Notices(y.toKs + [msg]) == Notices(y.toKs) + if msg.NewMemoryStick? then 1 else 0 {
      NoticesAppend(y.toKs, msg);
    }
    if y.ks.AwaitReply? && y.km == Listening && y.toKm != [] {
      ServeKeeps(y, m0);
    }
  }

  lemma KsStepApproaches(y: Exchange, m0: Memory)
    requires Inv(y, m0)
    ensures KsStep(y) == y || Rank(KsStep(y)) < Rank(y)
  {
    if Receiving(y.ks) && y.toKs != [] && !y.toKs[0].NewMemoryStick? {
      assert Answers(y.toKs)[0] == y.toKs[0] && Answers(y.toKs)[1..] == Answers(y.toKs[1..]);
      assert y.toKs[1..] == [] ==> Notices(y.toKs[1..]) == 0;
    }
  }

  lemma StepApproaches(y: Exchange, m0: Memory, move: Move)
    requires Inv(y, m0)
    ensures if move.StickConnects? then Rank(Step(y, move)) <= Rank(y) + 2
            else Step(y, move) == y || Rank(Step(y, move)) < Rank(y)
  {
    match move {
      case KsMove => KsStepApproaches(y, m0);
      case KmMove => KmStepApproaches(y, m0);
      case StickConnects(size) => NoticesAppend(y.toKs, NewMemoryStick);
      case StickAdded =>
    }
  }

  /** The moves that changed something, sticks connecting not counted. */
  function Effective(y: Exchange, moves: seq<Move>): nat
    decreases |moves|
  {
    if moves == [] then 0
    else (if moves[0].StickConnects? || Step(y, moves[0]) == y then 0 else 1) + Effective(Step(y, moves[0]), moves[1..])
  }

  function Connections(moves: seq<Move>): nat {
    if moves == [] then 0 else (if moves[0].StickConnects? then 1 else 0) + Connections(moves[1..])
  }

  /** The exchange ends: both parties together make at most twelve moves, plus two for every stick
      that connects meanwhile. */
  lemma {:induction false} ExchangeEnds(y: Exchange, m0: Memory, moves: seq<Move>)
    requires Inv(y, m0)
    ensures Effective(y, moves) + Rank(Run(y, moves)) <= Rank(y) + 2 * Connections(moves)
    decreases |moves|
  {
    if moves != [] {
      StepKeeps(y, m0, moves[0]);
      StepApproaches(y, m0, moves[0]);
      ExchangeEnds(Step(y, moves[0]), m0, moves[1..]);
    }
  }

  lemma AtMostTwelveMoves(req: Request, m: Memory, moves: seq<Move>)
    requires Valid(m) && Safe(m)
    ensures Effective(Begin(req, m), moves) <= 12 + 2 * Connections(moves)
  {
    BeginIsGood(req, m);
    ExchangeEnds(Begin(req, m), m, moves);
  }

  // ---------- the two halves of the handler ----------

  /** Served and then given the go-ahead, the request handler does what HandleCreateSegment does. */
  lemma HalvesMakeTheHandler(y: Exchange)
    requires y.km == Listening
    ensures var whole := HandleCreateSegment(y.memory, y.req.id, y.req.pid, y.req.size);
            var served := Serve(y);
            match whole.outcome
            case Refused => served == y.(toKs := y.toKs + [Answer(whole.replies[0])]) && |whole.replies| == 1
            case Crashed => served.km == AwaitGoAhead && Compact(served).km == Down
            case Allocated =>
              if served.km == AwaitGoAhead
              then Compact(served).memory == whole.memory && Compact(served).km == Granting
                   && whole.replies == [CompactionNeeded, CompactionDone, MemoryAllocated]
              else served.km == Granting && served.memory == whole.memory && whole.replies == [MemoryAllocated]
  {
  }

  // ---------- an unsafe memory ----------

  /** The exchange up to the moment at which Kernel Memory holds the request. */
  lemma OpeningMoves(req: Request, m: Memory)
    requires req.size <= FreeSpace(m)
    ensures Run(Begin(req, m), [KsMove, KmMove, KsMove])
         == Begin(req, m).(ks := AwaitReply(FreeSpace(m)), toKm := [CreateSegmentRequest])
  {
    var y1 := Step(Begin(req, m), KsMove);
    var y2 := Step(y1, KmMove);
    var y3 := Step(y2, KsMove);
    assert Run(y2, [KsMove]) == y3;
    assert Run(y1, [KmMove, KsMove]) == y3;
  }

  /** What happens to a request that can neither be placed nor make room. */
  lemma FatalMoves(y: Exchange, space: int)
    requires y.ks == AwaitReply(space) && y.km == Listening && y.toKm == [CreateSegmentRequest] && y.toKs == []
    requires HandleCreateSegment(y.memory, y.req.id, y.req.pid, y.req.size).outcome == Crashed
    ensures var r := Run(y, [KmMove, KsMove, KmMove]); r.km == Down && r.ks == AwaitDone(space) && r.toKs == []
  {
    var y1 := Step(y, KmMove);
    HalvesMakeTheHandler(y.(toKm := []));
    var y2 := Step(y1, KsMove);
    var y3 := Step(y2, KmMove);
    assert Run(y2, [KmMove]) == y3;
    assert Run(y1, [KsMove, KmMove]) == y3;
  }

  lemma {:induction false} RunConcat(y: Exchange, a: seq<Move>, b: seq<Move>)
    ensures Run(y, a + b) == Run(Run(y, a), b)
    decreases |a|
  {
    if a == [] {
      assert a + b == b;
    } else {
      assert (a + b)[1..] == a[1..] + b;
      RunConcat(Step(y, a[0]), a[1..], b);
    }
  }

  /** Without a segment to measure from and without any hole to choose, a request that the free
      memory covers brings Kernel Memory down, and the scheduler waits for ever. */
  lemma UnsafeMemoryNeverAnswers(req: Request, m: Memory, moves: seq<Move>)
    requires Valid(m) && !Safe(m) && req.size <= FreeSpace(m) && req.size <= m.maxSegmentSize
    ensures var y := Run(Begin(req, m), [KsMove, KmMove, KsMove] + [KmMove, KsMove, KmMove]);
            y.km == Down && y.ks.AwaitDone? && Run(y, moves).ks == y.ks
  {
    CreateCrashesIff(m, req.id, req.pid, req.size);
    RunConcat(Begin(req, m), [KsMove, KmMove, KsMove], [KmMove, KsMove, KmMove]);
    OpeningMoves(req, m);
    var y := Run(Begin(req, m), [KsMove, KmMove, KsMove]);
    FatalMoves(y, FreeSpace(m));
    NothingFromTheDead(Run(y, [KmMove, KsMove, KmMove]), moves);
  }

  lemma {:induction false} NothingFromTheDead(y: Exchange, moves: seq<Move>)
    requires y.km == Down && Receiving(y.ks) && Answers(y.toKs) == []
    ensures Run(y, moves).ks == y.ks
    decreases |moves|
  {
    if moves != [] {
      AnswersAppend(y.toKs, NewMemoryStick);
      NothingFromTheDead(Step(y, moves[0]), moves[1..]);
    }
  }
}
