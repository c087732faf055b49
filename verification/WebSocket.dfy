/** The WebSocket object: a buffer in front of a socket that hands out its bytes in chunks of any
    size. Every method is specified on the bytes still to come, so none depends on the chunks. */
module WebSocketObject {
  import opened Prelude
  import opened NetworkBytes
  import opened WebSocketFrames

  /** A socket: the bytes that will arrive before the peer hangs up, and the size of the n-th chunk. */
  class Connection {
    var incoming: Bytes
    var outgoing: Bytes
    var received: nat
    const chunk: nat -> nat

    constructor (incoming: Bytes, chunk: nat -> nat)
      ensures this.incoming == incoming && outgoing == [] && this.chunk == chunk
    {
      this.incoming, outgoing, received, this.chunk := incoming, [], 0, chunk;
    }

    /** At least one byte unless the stream has ended, and at most `size`. */
    method Recv(size: nat) returns (bytes: Bytes)
      requires size > 0
      modifies this
      ensures bytes + incoming == old(incoming) && outgoing == old(outgoing)
      ensures |bytes| <= size && (bytes == [] <==> old(incoming) == [])
    {
      var most := if size <= |incoming| then size else |incoming|;
      var wanted := chunk(received);
      var n := if wanted == 0 && most > 0 then 1 else if wanted <= most then wanted else most;
      bytes := incoming[..n];
      incoming := incoming[n..];
      received := received + 1;
    }

    method SendAll(bytes: Bytes)
      modifies this
      ensures outgoing == old(outgoing) + bytes && incoming == old(incoming)
    {
      outgoing := outgoing + bytes;
    }
  }

  datatype Failure = EndOfStream | FrameTooLarge

  class WebSocket {
    const connection: Connection
    const maskOutbound: bool
    const masks: nat -> Mask
    var drawn: nat
    var buffer: Bytes
    var closed: bool

    constructor (connection: Connection, maskOutbound: bool, masks: nat -> Mask, remainder: Bytes)
      ensures this.connection == connection && this.maskOutbound == maskOutbound && this.masks == masks
      ensures Pending() == remainder + connection.incoming && !closed && drawn == 0
    {
      this.connection, this.maskOutbound, this.masks := connection, maskOutbound, masks;
      drawn, buffer, closed := 0, remainder, false;
    }

    /** The bytes this end has not consumed yet. */
    function Pending(): (stream: Bytes)
      reads this, connection
      ensures buffer <= stream
    {
      buffer + connection.incoming
    }

    method RecvExact(size: nat) returns (r: Option<Bytes>)
      modifies this`buffer, connection
      ensures connection.outgoing == old(connection.outgoing)
      ensures match Take(old(Pending()), size)
              case Got(bytes, rest) => r == Some(bytes) && Pending() == rest
              case _ => r == None && Pending() == []
    {
      var n := if size <= |buffer| then size else |buffer|;
      var value := buffer[..n];
      buffer := buffer[n..];
      while |value| < size
        invariant |value| <= size && value + Pending() == old(Pending())
        invariant |value| < size ==> buffer == []
        invariant connection.outgoing == old(connection.outgoing)
      {
        var bytes := connection.Recv(size - |value|);
        if bytes == [] { return None; }
        value := value + bytes;
      }
      assert old(Pending())[..size] == value;
      r := Some(value);
    }

    method ReadFrame() returns (r: Result<Frame, Failure>)
      modifies this`buffer, connection
      ensures connection.outgoing == old(connection.outgoing)
      ensures match WebSocketFrames.ReadFrame(old(Pending()))
              case Got(f, rest) => r == Ok(f) && Pending() == rest
              case Eof => r == Err(EndOfStream) && Pending() == []
              case Oversized => r == Err(FrameTooLarge)
    {
      var header := RecvExact(2);
      if header == None { return Err(EndOfStream); }
      var first, second := header.value[0], header.value[1];
      var size: nat := second % 0x80;
      if size == 126 || size == 127 {
        var field := RecvExact(if size == 126 then 2 else 8);
        if field == None { return Err(EndOfStream); }
        size := Unpack(field.value);
      }
      if size > MAX_FRAME_BYTES { return Err(FrameTooLarge); }
      if second >= 0x80 {
        var mask := RecvExact(4);
        if mask == None { return Err(EndOfStream); }
        var payload := RecvExact(size);
        if payload == None { return Err(EndOfStream); }
        return Ok(Frame(first >= 0x80, first % 0x10, Masked(payload.value, mask.value)));
      }
      var payload := RecvExact(size);
      if payload == None { return Err(EndOfStream); }
      r := Ok(Frame(first >= 0x80, first % 0x10, payload.value));
    }

    /** Writes one final frame, under a fresh mask when this end masks. */
    method WriteFrame(opcode: Byte, payload: Bytes) returns (ok: bool)
      requires opcode < 16 && |payload| < LENGTH_LIMIT
      modifies this`drawn, connection
      ensures ok == !closed && connection.incoming == old(connection.incoming)
      ensures drawn == old(drawn) + (if ok && maskOutbound then 1 else 0)
      ensures connection.outgoing == old(connection.outgoing) +
                (if ok then Encode(Frame(true, opcode, payload), MaskAt(masks, maskOutbound, old(drawn))) else [])
    {
      if closed { return false; }
      var mask := None;
      if maskOutbound {
        mask := Some(masks(drawn));
        drawn := drawn + 1;
      }
      connection.SendAll(Encode(Frame(true, opcode, payload), mask));
      ok := true;
    }

    /** Reads one message, answering every ping on the way. */
    method ReadMessage() returns (outcome: Outcome)
      modifies this`buffer, this`drawn, connection
      ensures var spec := WebSocketFrames.ReadMessage(old(Pending()), closed, [], 0);
              && outcome == spec.outcome
              && (outcome != TooLarge ==> Pending() == spec.rest)
              && Ponged(old(connection.outgoing), connection.outgoing, spec.pongs, old(drawn))
    {
      var fragments, kind := [], 0 as Byte;
      ghost var spec := WebSocketFrames.ReadMessage(Pending(), closed, [], 0);
      ghost var answered: seq<Bytes> := [];
      while true
        invariant AsBefore(spec, WebSocketFrames.ReadMessage(Pending(), closed, fragments, kind), answered)
        invariant drawn == old(drawn) + if maskOutbound then |answered| else 0
        invariant Ponged(old(connection.outgoing), connection.outgoing, answered, old(drawn))
        decreases |Pending()|
      {
        ghost var answeredBefore := answered;
        ghost var here := WebSocketFrames.ReadMessage(Pending(), closed, fragments, kind);
        var frame := ReadFrame();
        if frame.Err? {
          assert spec.pongs == answered;
          return if frame.error == EndOfStream then Closed else TooLarge;
        }
        var f := frame.value;
        ghost var next := Consume(f, closed, fragments, kind);
        if f.opcode == CLOSE {
          assert spec.pongs == answered;
          return Closed;
        }
        if f.opcode == PING {
          var ok := Pong(f.payload, old(connection.outgoing), answered, old(drawn));
          if !ok {
            assert spec.pongs == answered;
            return Closed;
          }
          answered := answered + [f.payload];
        } else if f.opcode != PONG {
          if f.opcode == TEXT {
            fragments, kind := f.payload, TEXT;
          } else if f.opcode == CONTINUATION && kind != 0 {
            fragments := fragments + f.payload;
          } else {
            assert spec.pongs == answered;
            return BadOpcode;
          }
          if f.final {
            assert spec.pongs == answered;
            return if kind != TEXT then NotText else Text(fragments);
          }
        }
        assert next.More? && fragments == next.fragments && kind == next.kind;
        assert answered == answeredBefore + next.pongs;
        AsBeforeStep(spec, here, WebSocketFrames.ReadMessage(Pending(), closed, fragments, kind), answeredBefore, next.pongs);
      }
    }

    /** `after` is `before` followed by one pong per payload, masked by the draws from `n` on. */
    ghost predicate Ponged(before: Bytes, after: Bytes, payloads: seq<Bytes>, n: nat) {
      var pongs := Outgoing(PONG, payloads, masks, maskOutbound, n);
      AllSendable(pongs) && after == before + Wire(pongs)
    }

    /** Answers one ping, after the pongs already `answered` since `before`. */
    method Pong(payload: Bytes, ghost before: Bytes, ghost answered: seq<Bytes>, ghost n: nat) returns (ok: bool)
      requires Sendable(Frame(true, PONG, payload))
      requires Ponged(before, connection.outgoing, answered, n) && drawn == n + if maskOutbound then |answered| else 0
      modifies this`drawn, connection
      ensures ok == !closed && connection.incoming == old(connection.incoming)
      ensures !ok ==> connection.outgoing == old(connection.outgoing) && drawn == old(drawn)
      ensures ok ==>
                && Ponged(before, connection.outgoing, answered + [payload], n)
                && drawn == n + if maskOutbound then |answered| + 1 else 0
    {
      ok := WriteFrame(PONG, payload);
      if !ok { return; }
      PongedStep(before, old(connection.outgoing), connection.outgoing, answered, payload, n, old(drawn));
    }

    lemma PongedStep(before: Bytes, middle: Bytes, after: Bytes, answered: seq<Bytes>, payload: Bytes, n: nat, draw: nat)
      requires Sendable(Frame(true, PONG, payload))
      requires Ponged(before, middle, answered, n) && (maskOutbound ==> draw == n + |answered|)
      requires after == middle + Encode(Frame(true, PONG, payload), MaskAt(masks, maskOutbound, draw))
      ensures Ponged(before, after, answered + [payload], n)
    {
      var mask := MaskAt(masks, maskOutbound, draw);
      assert mask == MaskAt(masks, maskOutbound, n + |answered|);
      OutgoingAppends(PONG, answered, payload, masks, maskOutbound, n);
      Regroup(before, Wire(Outgoing(PONG, answered, masks, maskOutbound, n)), Encode(Frame(true, PONG, payload), mask));
    }

    /** Writes one text message; an oversized one is refused before anything is written. */
    method WriteText(payload: Bytes) returns (r: Result<(), Failure>)
      modifies this`drawn, connection
      ensures connection.incoming == old(connection.incoming)
      ensures |payload| > MAX_FRAME_BYTES ==> r == Err(FrameTooLarge) && connection.outgoing == old(connection.outgoing)
      ensures |payload| <= MAX_FRAME_BYTES && closed ==> r == Err(EndOfStream) && connection.outgoing == old(connection.outgoing)
      ensures |payload| <= MAX_FRAME_BYTES && !closed ==>
                && r == Ok(())
                && connection.outgoing == old(connection.outgoing) + Wire(Outgoing(TEXT, [payload], masks, maskOutbound, old(drawn)))
    {
      if |payload| > MAX_FRAME_BYTES { return Err(FrameTooLarge); }
      var ok := WriteFrame(TEXT, payload);
      ghost var sent := Outgoing(TEXT, [payload], masks, maskOutbound, old(drawn));
      assert !closed ==> Wire(sent) == Encode(sent[0].frame, sent[0].mask);
      r := if ok then Ok(()) else Err(EndOfStream);
    }
  }

  /** Reading on from here after `answered` pongs is reading from the start. */
  ghost predicate AsBefore(spec: MessageRead, here: MessageRead, answered: seq<Bytes>) {
    spec == here.(pongs := answered + here.pongs)
  }

  lemma AsBeforeStep(spec: MessageRead, here: MessageRead, later: MessageRead, answered: seq<Bytes>, pongs: seq<Bytes>)
    requires AsBefore(spec, here, answered) && here == later.(pongs := pongs + later.pongs)
    ensures AsBefore(spec, later, answered + pongs)
  {
    assert answered + (pongs + later.pongs) == (answered + pongs) + later.pongs;
  }

  lemma Regroup(a: Bytes, b: Bytes, c: Bytes)
    ensures a + b + c == a + (b + c)
  {
  }

  lemma OutgoingAppends(opcode: Byte, before: seq<Bytes>, payload: Bytes, masks: nat -> Mask, masked: bool, n: nat)
    requires AllSendable(Outgoing(opcode, before, masks, masked, n))
    requires Sendable(Frame(true, opcode, payload))
    ensures var after := Outgoing(opcode, before + [payload], masks, masked, n);
            && AllSendable(after)
            && Wire(after) == Wire(Outgoing(opcode, before, masks, masked, n)) +
                 Encode(Frame(true, opcode, payload), MaskAt(masks, masked, n + |before|))
  {
    var sent := Outgoing(opcode, before, masks, masked, n);
    var last := Sent(Frame(true, opcode, payload), MaskAt(masks, masked, n + |before|));
    assert Outgoing(opcode, before + [payload], masks, masked, n) == sent + [last];
    WireAppends(sent, [last]);
    assert Wire([last]) == Encode(last.frame, last.mask);
  }
}
