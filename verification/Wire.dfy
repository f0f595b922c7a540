/** Messages on the wire (utils/msg.c): an operation code, the payload's length and the payload, all
    integers as four bytes, least significant first; a packet's payload is a list of fields, each
    with its own length in front. */
module Wire {
  import opened Options
  import Sticks

  type Byte = Sticks.Byte

  const INT_LIMIT := 0x8000_0000

  predicate IsInt(n: int) {
    -INT_LIMIT <= n < INT_LIMIT
  }

  // ---------- integers ----------

  function IntBytes(n: int): (bs: seq<Byte>)
    requires IsInt(n)
    ensures |bs| == 4
  {
    var u := if n < 0 then n + 2 * INT_LIMIT else n;
    [u % 256, u / 256 % 256, u / 65536 % 256, u / 16777216]
  }

  function BytesInt(bs: seq<Byte>): (n: int)
    requires |bs| == 4
    ensures IsInt(n)
  {
    var b0: int, b1: int, b2: int, b3: int := bs[0], bs[1], bs[2], bs[3];
    var u := b0 + 256 * b1 + 65536 * b2 + 16777216 * b3;
    if u >= INT_LIMIT then u - 2 * INT_LIMIT else u
  }

  lemma IntRoundTrip(n: int)
    requires IsInt(n)
    ensures BytesInt(IntBytes(n)) == n
  {
    var u := if n < 0 then n + 2 * INT_LIMIT else n;
    ByteParts(u);
  }

  lemma ByteParts(u: nat)
    ensures u == u % 256 + 256 * (u / 256 % 256) + 65536 * (u / 65536 % 256) + 16777216 * (u / 16777216)
  {
    var u1 := u / 256;
    var u2 := u1 / 256;
    assert u / 65536 == u2 && u / 16777216 == u2 / 256;
    assert u == u % 256 + 256 * u1 && u1 == u1 % 256 + 256 * u2 && u2 == u2 % 256 + 256 * (u2 / 256);
  }

  lemma LowByte(a: Byte, rest: nat)
    ensures (a + 256 * rest) % 256 == a && (a + 256 * rest) / 256 == rest
  {
  }

  lemma BytesRoundTrip(bs: seq<Byte>)
    requires |bs| == 4
    ensures IntBytes(BytesInt(bs)) == bs
  {
    var u3: int := bs[3];
    var u2: int := bs[2] + 256 * u3;
    var u1: int := bs[1] + 256 * u2;
    var u: int := bs[0] + 256 * u1;
    LowByte(bs[0], u1);
    LowByte(bs[1], u2);
    LowByte(bs[2], u3);
    assert u / 65536 == u / 256 / 256 && u / 16777216 == u / 256 / 256 / 256;
  }

  // ---------- sending ----------

  type Field = seq<Byte>

  /** What packet_append adds to the payload. */
  function FieldBytes(f: Field): seq<Byte>
    requires IsInt(|f|)
  {
    IntBytes(|f|) + f
  }

  /** The payload of a packet with these fields. */
  function Payload(fields: seq<Field>): seq<Byte>
    requires forall f :: f in fields ==> IsInt(|f|)
  {
    if fields == [] then [] else FieldBytes(fields[0]) + Payload(fields[1..])
  }

  datatype Message = Message(op: int, fields: seq<Field>)

  /** Everything fits the integers that carry it. */
  predicate Sendable(m: Message) {
    IsInt(m.op) && (forall f :: f in m.fields ==> IsInt(|f|)) && IsInt(|Payload(m.fields)|)
  }

  function Serialize(op: int, payload: seq<Byte>): seq<Byte>
    requires IsInt(op) && IsInt(|payload|)
  {
    IntBytes(op) + IntBytes(|payload|) + payload
  }

  function Sent(m: Message): seq<Byte>
    requires Sendable(m)
  {
    Serialize(m.op, Payload(m.fields))
  }

  function SentAll(ms: seq<Message>): seq<Byte>
    requires forall m :: m in ms ==> Sendable(m)
  {
    if ms == [] then [] else Sent(ms[0]) + SentAll(ms[1..])
  }

  // ---------- receiving ----------

  /** The fields of a payload: the loop stops at an empty field. None: it would read outside. */
  function Parse(buffer: seq<Byte>): Option<seq<Field>>
    decreases |buffer|
  {
    if buffer == [] then Some([])
    else if |buffer| < 4 then None
    else
      var n := BytesInt(buffer[..4]);
      if n == 0 then Some([])
      else if n < 0 || 4 + n > |buffer| then None
      else match Parse(buffer[4 + n..])
        case None => None
        case Some(rest) => Some([buffer[4..4 + n]] + rest)
  }

  datatype Received = Received(m: Message, rest: seq<Byte>)

  /** receive_op_code and receive_packet, from a stream that does not end in the middle. */
  function Receive(stream: seq<Byte>): Option<Received> {
    if |stream| < 8 then None
    else
      var op, size := BytesInt(stream[..4]), BytesInt(stream[4..8]);
      if size < 0 || 8 + size > |stream| then None
      else match Parse(stream[8..8 + size])
        case None => None
        case Some(fields) => Some(Received(Message(op, fields), stream[8 + size..]))
  }

  /** Receiving as long as anything is left. */
  function ReceiveAll(stream: seq<Byte>): Option<seq<Message>>
    decreases |stream|
  {
    if stream == [] then Some([])
    else match Receive(stream)
      case None => None
      case Some(r) =>
        ReceiveShortens(stream);
        match ReceiveAll(r.rest)
        case None => None
        case Some(ms) => Some([r.m] + ms)
  }

  lemma ReceiveShortens(stream: seq<Byte>)
    ensures Receive(stream).Some? ==> |Receive(stream).value.rest| < |stream|
  {
  }

  // ---------- the receiver undoes the sender ----------

  /** The fields before the first empty one. */
  function BeforeEmpty(fields: seq<Field>): seq<Field> {
    if fields == [] || fields[0] == [] then [] else [fields[0]] + BeforeEmpty(fields[1..])
  }

  function AsReceived(m: Message): Message {
    Message(m.op, BeforeEmpty(m.fields))
  }

  function AllAsReceived(ms: seq<Message>): seq<Message> {
    if ms == [] then [] else [AsReceived(ms[0])] + AllAsReceived(ms[1..])
  }

  lemma {:induction false} ParsePayload(fields: seq<Field>)
    requires forall f :: f in fields ==> IsInt(|f|)
    ensures Parse(Payload(fields)) == Some(BeforeEmpty(fields))
  {
    if fields != [] {
      var f, rest := fields[0], Payload(fields[1..]);
      var b := IntBytes(|f|) + f + rest;
      assert Payload(fields) == b;
      assert b[..4] == IntBytes(|f|);
      IntRoundTrip(|f|);
      if f != [] {
        assert b[4..4 + |f|] == f && b[4 + |f|..] == rest;
        ParsePayload(fields[1..]);
      }
    }
  }

  /** The format: operation code, payload length, and each field behind its own length, all least
      significant byte first. */
  lemma OnTheWire()
    ensures IntBytes(-2) == [254, 255, 255, 255]
    ensures Sendable(Message(258, [[7, 8], [9]]))
    ensures Sent(Message(258, [[7, 8], [9]]))
         == [2, 1, 0, 0] + [11, 0, 0, 0] + [2, 0, 0, 0] + [7, 8] + [1, 0, 0, 0] + [9]
  {
    PayloadOnTheWire();
    assert IntBytes(258) == [2, 1, 0, 0] && IntBytes(11) == [11, 0, 0, 0];
  }

  lemma PayloadOnTheWire()
    ensures Payload([[7, 8], [9]]) == [2, 0, 0, 0] + [7, 8] + [1, 0, 0, 0] + [9]
  {
    var a: Field, b: Field := [7, 8], [9];
    assert [a, b][1..] == [b] && [b][1..] == [];
    assert IntBytes(2) == [2, 0, 0, 0] && IntBytes(1) == [1, 0, 0, 0];
    assert Payload([b]) == FieldBytes(b);
    assert Payload([a, b]) == FieldBytes(a) + Payload([b]);
  }

  /** One message is taken off the front of the stream, whatever follows it. */
  lemma ReceiveSent(m: Message, after: seq<Byte>)
    requires Sendable(m)
    ensures Receive(Sent(m) + after) == Some(Received(AsReceived(m), after))
  {
    var p := Payload(m.fields);
    var stream := Sent(m) + after;
    assert stream[..4] == IntBytes(m.op) && stream[4..8] == IntBytes(|p|);
    assert stream[8..8 + |p|] == p && stream[8 + |p|..] == after;
    IntRoundTrip(m.op);
    IntRoundTrip(|p|);
    ParsePayload(m.fields);
  }

  /** Any concatenation of messages is taken apart at the right places; each message arrives with
      its fields up to the first empty one. */
  lemma {:induction false} StreamStaysAligned(ms: seq<Message>)
    requires forall m :: m in ms ==> Sendable(m)
    ensures ReceiveAll(SentAll(ms)) == Some(AllAsReceived(ms))
  {
    if ms != [] {
      ReceiveSent(ms[0], SentAll(ms[1..]));
      StreamStaysAligned(ms[1..]);
    }
  }

  predicate NoEmptyField(m: Message) {
    forall f :: f in m.fields ==> f != []
  }

  lemma {:induction false} BeforeEmptyIsAll(fields: seq<Field>)
    ensures BeforeEmpty(fields) == fields <==> forall f :: f in fields ==> f != []
    ensures |BeforeEmpty(fields)| <= |fields|
  {
    if fields != [] {
      BeforeEmptyIsAll(fields[1..]);
      assert fields == [fields[0]] + fields[1..];
      if BeforeEmpty(fields) == fields {
        assert BeforeEmpty(fields) != [];
        assert fields[1..] == BeforeEmpty(fields)[1..] == BeforeEmpty(fields[1..]);
        forall f | f in fields ensures f != [] {
          assert f == fields[0] || f in fields[1..];
        }
      } else {
        assert fields[0] in fields && forall f :: f in fields[1..] ==> f in fields;
      }
    }
  }

  /** The messages arrive exactly as they were sent if and only if no field is empty. */
  lemma {:induction false} RoundTripIff(ms: seq<Message>)
    requires forall m :: m in ms ==> Sendable(m)
    ensures ReceiveAll(SentAll(ms)) == Some(ms) <==> forall m :: m in ms ==> NoEmptyField(m)
  {
    StreamStaysAligned(ms);
    AsReceivedIsSame(ms);
  }

  lemma {:induction false} AsReceivedIsSame(ms: seq<Message>)
    ensures AllAsReceived(ms) == ms <==> forall m :: m in ms ==> NoEmptyField(m)
  {
    if ms != [] {
      BeforeEmptyIsAll(ms[0].fields);
      AsReceivedIsSame(ms[1..]);
      assert ms == [ms[0]] + ms[1..];
      if AllAsReceived(ms) == ms {
        assert ms[0] == AllAsReceived(ms)[0] == AsReceived(ms[0]);
        assert ms[1..] == AllAsReceived(ms)[1..] == AllAsReceived(ms[1..]);
        forall m | m in ms ensures NoEmptyField(m) {
          assert m == ms[0] || m in ms[1..];
        }
      } else {
        assert ms[0] in ms && forall m :: m in ms[1..] ==> m in ms;
      }
    }
  }

  /** No two lists of messages without empty fields look the same on the wire. */
  lemma WireIsUnambiguous(ms: seq<Message>, ms': seq<Message>)
    requires forall m :: m in ms || m in ms' ==> Sendable(m) && NoEmptyField(m)
    requires SentAll(ms) == SentAll(ms')
    ensures ms == ms'
  {
    RoundTripIff(ms);
    RoundTripIff(ms');
  }
}
