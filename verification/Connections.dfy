/** Packets and sockets as objects (utils/msg.c): a growing buffer, and a stream of bytes that is
    consumed from the front. Every method is tied to the functions of Wire. */
module Connections {
  import opened Options
  import opened Wire

  class Packet {
    const opCode: int
    var stream: seq<Byte>
    /** What was appended so far. */
    ghost var fields: seq<Field>

    ghost predicate Valid()
      reads this
    {
      Sendable(Message(opCode, fields)) && stream == Payload(fields)
    }

    constructor (opCode: int)
      requires IsInt(opCode)
      ensures Valid() && fields == [] && this.opCode == opCode
    {
      this.opCode := opCode;
      this.stream := [];
      this.fields := [];
    }

    method Append(value: Field)
      requires Valid() && |stream| + |value| + 4 < INT_LIMIT
      modifies this
      ensures Valid() && fields == old(fields) + [value]
    {
      PayloadAppend(fields, value);
      stream := stream + IntBytes(|value|) + value;
      fields := fields + [value];
    }
  }

  lemma {:induction false} PayloadAppend(fields: seq<Field>, f: Field)
    requires (forall g :: g in fields ==> IsInt(|g|)) && IsInt(|f|)
    ensures (forall g :: g in fields + [f] ==> IsInt(|g|)) && Payload(fields + [f]) == Payload(fields) + IntBytes(|f|) + f
  {
    if fields != [] {
      assert (fields + [f])[1..] == fields[1..] + [f];
      PayloadAppend(fields[1..], f);
    }
  }

  class Socket {
    var outgoing: seq<Byte>
    var incoming: seq<Byte>

    /** send_packet. */
    method SendPacket(packet: Packet)
      requires packet.Valid()
      modifies this
      ensures incoming == old(incoming)
      ensures outgoing == old(outgoing) + Sent(Message(packet.opCode, packet.fields))
    {
      var magic := IntBytes(packet.opCode);
      magic := magic + IntBytes(|packet.stream|);
      magic := magic + packet.stream;
      outgoing := outgoing + magic;
    }

    /** Reads exactly n bytes; the stream is not to end before that. */
    method Take(n: nat) returns (bytes: seq<Byte>)
      requires n <= |incoming|
      modifies this`incoming
      ensures bytes == old(incoming)[..n] && incoming == old(incoming)[n..]
    {
      bytes := incoming[..n];
      incoming := incoming[n..];
    }

    method ReceiveOpCode() returns (op: int)
      requires 4 <= |incoming|
      modifies this`incoming
      ensures op == BytesInt(old(incoming)[..4]) && incoming == old(incoming)[4..]
    {
      var bytes := Take(4);
      op := BytesInt(bytes);
    }

    /** receive_packet. None: the payload is malformed, and the C code would read outside of it. */
    method ReceivePacket() returns (values: Option<seq<Field>>)
      requires 4 <= |incoming| && 0 <= BytesInt(incoming[..4]) <= |incoming| - 4
      modifies this`incoming
      ensures var size := BytesInt(old(incoming)[..4]);
              values == Parse(old(incoming)[4..4 + size]) && incoming == old(incoming)[4 + size..]
    {
      var head := Take(4);
      var size := BytesInt(head);
      var buffer := Take(size);
      assert buffer == old(incoming)[4..4 + size];
      values := ParseBuffer(buffer);
    }

    /** A whole message is received as the sender's fields, up to the first empty one, and the next
        message is then at the front. */
    method ReceiveMessage(ghost m: Message, ghost after: seq<Byte>) returns (op: int, values: seq<Field>)
      requires Sendable(m) && incoming == Sent(m) + after
      modifies this`incoming
      ensures op == m.op && values == BeforeEmpty(m.fields) && incoming == after
    {
      ReceiveSent(m, after);
      assert incoming[4..][..4] == incoming[4..8];
      op := ReceiveOpCode();
      var v := ReceivePacket();
      assert old(incoming)[4..][4..4 + |Payload(m.fields)|] == old(incoming)[8..8 + |Payload(m.fields)|];
      values := v.value;
    }
  }

  function Behind(list: seq<Field>, rest: Option<seq<Field>>): Option<seq<Field>> {
    match rest
    case None => None
    case Some(fields) => Some(list + fields)
  }

  lemma BehindNothing(rest: Option<seq<Field>>)
    ensures Behind([], rest) == rest
  {
    if rest.Some? { assert [] + rest.value == rest.value; }
  }

  lemma BehindOne(list: seq<Field>, f: Field, rest: Option<seq<Field>>)
    ensures Behind(list, Behind([f], rest)) == Behind(list + [f], rest)
  {
    if rest.Some? { assert list + ([f] + rest.value) == (list + [f]) + rest.value; }
  }

  lemma BehindEnds(list: seq<Field>)
    ensures Behind(list, Some([])) == Some(list) && Behind(list, None) == None
  {
    assert list + [] == list;
  }

  /** One round of the parse loop. */
  lemma ParseStep(buffer: seq<Byte>, offset: nat)
    requires offset < |buffer|
    ensures var rest := Parse(buffer[offset..]);
            if |buffer| - offset < 4 then rest == None
            else
              var n := BytesInt(buffer[offset..offset + 4]);
              if n == 0 then rest == Some([])
              else if n < 0 || offset + 4 + n > |buffer| then rest == None
              else rest == Behind([buffer[offset + 4..offset + 4 + n]], Parse(buffer[offset + 4 + n..]))
  {
    var rest := buffer[offset..];
    if |rest| >= 4 {
      assert rest[..4] == buffer[offset..offset + 4];
      var n := BytesInt(rest[..4]);
      if n > 0 && 4 + n <= |rest| {
        assert rest[4..4 + n] == buffer[offset + 4..offset + 4 + n];
        assert rest[4 + n..] == buffer[offset + 4 + n..];
      }
    }
  }

  /** The parse loop of receive_packet. */
  method ParseBuffer(buffer: seq<Byte>) returns (values: Option<seq<Field>>)
    ensures values == Parse(buffer)
  {
    var offset := 0;
    var list: seq<Field> := [];
    assert buffer[0..] == buffer;
    BehindNothing(Parse(buffer));
    while offset < |buffer|
      invariant 0 <= offset <= |buffer|
      invariant Parse(buffer) == Behind(list, Parse(buffer[offset..]))
    {
      ParseStep(buffer, offset);
      BehindEnds(list);
      if |buffer| - offset < 4 {
        return None;
      }
      var elementSize := BytesInt(buffer[offset..offset + 4]);
      offset := offset + 4;
      if elementSize == 0 {
        return Some(list);
      }
      if elementSize < 0 || offset + elementSize > |buffer| {
        return None;
      }
      var value := buffer[offset..offset + elementSize];
      offset := offset + elementSize;
      BehindOne(list, value, Parse(buffer[offset..]));
      list := list + [value];
    }
    BehindEnds(list);
    values := Some(list);
  }
}
