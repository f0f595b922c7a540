/** The scheduler's half of the MEM_ALLOC exchange as code over its connection to Kernel Memory
    (syscalls/memory.c and kernel_memory_reply.c): ordered sends and receives, with a retry after a
    compaction. Every method is tied to the scheduler's moves in AllocProtocol. */
module KmConnectionObject {
  import opened Options
  import opened MemoryTables
  import opened AllocProtocol

  datatype Op = OpFreeMemory | OpAnswer(reply: MemoryTables.Reply) | OpNewMemoryStick

  function OpOf(msg: KmMsg): Op {
    match msg
    case FreeMemoryIs(_) => OpFreeMemory
    case Answer(reply) => OpAnswer(reply)
    case NewMemoryStick => OpNewMemoryStick
  }

  /** What is left after the stick notices at the front. */
  function AfterNotices(msgs: seq<KmMsg>): (rest: seq<KmMsg>)
    ensures |rest| <= |msgs|
    ensures rest != [] ==> !rest[0].NewMemoryStick?
  {
    if msgs != [] && msgs[0].NewMemoryStick? then AfterNotices(msgs[1..]) else msgs
  }

  /** The scheduler's moves, for as long as there is something to receive. */
  function Drain(y: Exchange): Exchange
    decreases |y.toKs|
  {
    if Receiving(y.ks) && y.toKs != [] then Drain(KsStep(y)) else y
  }

  lemma {:induction false} DrainSkipsNotices(y: Exchange)
    requires Receiving(y.ks)
    ensures Drain(y) == Drain(y.(toKs := AfterNotices(y.toKs)))
    decreases |y.toKs|
  {
    if y.toKs != [] && y.toKs[0].NewMemoryStick? {
      DrainSkipsNotices(KsStep(y));
    }
  }

  /** The scheduler with what it received and sent; the other party plays no role. */
  function Alone(ks: Ks, size: nat, incoming: seq<KmMsg>, sent: seq<KsMsg>): Exchange {
    Exchange(Request(0, 0, size), ks, Listening, sent, incoming, Memory(0, 0, BestFit, [], []), [])
  }

  class KmConnection {
    var incoming: seq<KmMsg>
    var sent: seq<KsMsg>
    var resumptions: nat
    var shuttingDown: bool

    /** Receives the next message, handling stick notices on the way; anything not expected, or the
        end of the connection, shuts the scheduler down. */
    method ReceiveKmOpcode(expected: seq<Op>) returns (msg: Option<KmMsg>)
      requires OpNewMemoryStick !in expected
      modifies this
      ensures sent == old(sent) && resumptions >= old(resumptions)
      ensures var rest := AfterNotices(old(incoming));
              if rest != [] && OpOf(rest[0]) in expected
              then && msg == Some(rest[0]) && incoming == rest[1..] && shuttingDown == old(shuttingDown)
                   && |incoming| < |old(incoming)|
                   && resumptions == old(resumptions) + |old(incoming)| - |rest|
              else msg == None && shuttingDown
    {
      msg := None;
      while true
        invariant AfterNotices(incoming) == AfterNotices(old(incoming))
        invariant sent == old(sent) && shuttingDown == old(shuttingDown) && |incoming| <= |old(incoming)|
        invariant resumptions == old(resumptions) + |old(incoming)| - |incoming|
        decreases |incoming|
      {
        if incoming == [] {
          shuttingDown := true;
          return;
        }
        var next := incoming[0];
        incoming := incoming[1..];
        if OpOf(next) in expected {
          return Some(next);
        }
        if next.NewMemoryStick? {
          resumptions := resumptions + 1;
        } else {
          shuttingDown := true;
          return;
        }
      }
    }

    /** The verdict and the channels are those of the scheduler's moves in the protocol. */
    ghost predicate Follows(y: Exchange, granted: bool)
      reads this
    {
      if Drain(y).ks.Returned?
      then granted == Drain(y).ks.granted && incoming == Drain(y).toKs && sent == Drain(y).toKm && !shuttingDown
      else shuttingDown
    }

    method CompactionRoutine(ghost size: nat, ghost space: int)
      requires !shuttingDown
      modifies this
      ensures sent == old(sent) + [CanCompact]
      ensures !shuttingDown ==> |incoming| < |old(incoming)|
      ensures var y := Alone(AwaitDone(space), size, old(incoming), sent);
              if shuttingDown then !Drain(y).ks.Returned?
              else Drain(y) == Drain(Alone(AwaitReply(space), size, incoming, sent))
    {
      sent := sent + [CanCompact];
      DrainSkipsNotices(Alone(AwaitDone(space), size, incoming, sent));
      var _ := ReceiveKmOpcode([OpAnswer(CompactionDone)]);
    }

    method ResponseKmMemAlloc(ghost size: nat, ghost space: int) returns (granted: bool)
      requires !shuttingDown
      modifies this
      ensures Follows(Alone(AwaitReply(space), size, old(incoming), old(sent)), granted)
      decreases |incoming|
    {
      DrainSkipsNotices(Alone(AwaitReply(space), size, incoming, sent));
      var msg := ReceiveKmOpcode([OpAnswer(MemoryAllocated), OpAnswer(SegmentSizeExceeded),
                                  OpAnswer(NotEnoughMemory), OpAnswer(CompactionNeeded)]);
      if msg.None? {
        return true;
      }
      match msg.value.reply {
        case MemoryAllocated => return true;
        case SegmentSizeExceeded => return false;
        case NotEnoughMemory => return false;
        case CompactionNeeded =>
          CompactionRoutine(size, space);
          if shuttingDown {
            return true;
          }
          granted := ResponseKmMemAlloc(size, space);
      }
    }

    method AllocateMemory(size: nat) returns (granted: bool)
      requires !shuttingDown
      modifies this
      ensures Follows(Alone(AwaitSpace, size, old(incoming), old(sent) + [RequestFreeMemory]), granted)
    {
      sent := sent + [RequestFreeMemory];
      DrainSkipsNotices(Alone(AwaitSpace, size, incoming, sent));
      var msg := ReceiveKmOpcode([OpFreeMemory]);
      if msg.None? {
        return false;
      }
      if msg.value.space < size {
        return false;
      }
      sent := sent + [CreateSegmentRequest];
      granted := ResponseKmMemAlloc(size, msg.value.space);
    }
  }
}
