/** WebSocket frames and messages as functions of the byte stream (RFC 6455, sections 5.2 to 5.5). */
module WebSocketFrames {
  import opened Prelude
  import opened NetworkBytes

  const MAX_FRAME_BYTES: nat := 16 * 1024 * 1024

  /** Bound of the eight-byte length field. */
  const LENGTH_LIMIT: nat := 0x1_0000_0000_0000_0000

  const CONTINUATION: Byte := 0x0
  const TEXT: Byte := 0x1
  const CLOSE: Byte := 0x8
  const PING: Byte := 0x9
  const PONG: Byte := 0xA

  /* ---- Masking ---- */

  function Pow2(bits: nat): nat {
    if bits == 0 then 1 else 2 * Pow2(bits - 1)
  }

  /** Exclusive or of the low bits of two numbers. */
  function Xor(a: nat, b: nat, bits: nat): (r: nat)
    ensures r < Pow2(bits)
  {
    if bits == 0 then 0 else 2 * Xor(a / 2, b / 2, bits - 1) + (a + b) % 2
  }

  lemma LowBit(high: nat, a: nat, b: nat)
    ensures (2 * high + (a + b) % 2) / 2 == high
    ensures 2 * high + (2 * high + (a + b) % 2 + b) % 2 == 2 * high + a % 2
  {
  }

  lemma {:induction false} XorTwice(a: nat, b: nat, bits: nat)
    requires a < Pow2(bits)
    ensures Xor(Xor(a, b, bits), b, bits) == a
  {
    if bits > 0 {
      LowBit(Xor(a / 2, b / 2, bits - 1), a, b);
      XorTwice(a / 2, b / 2, bits - 1);
    }
  }

  function XorByte(a: Byte, b: Byte): Byte {
    assert Pow2(8) == 256;
    Xor(a, b, 8)
  }

  type Mask = m: Bytes | |m| == 4 witness [0, 0, 0, 0]

  function Masked(payload: Bytes, mask: Mask): (r: Bytes)
    ensures |r| == |payload|
  {
    seq(|payload|, i requires 0 <= i < |payload| => XorByte(payload[i], mask[i % 4]))
  }

  lemma MaskTwice(payload: Bytes, mask: Mask)
    ensures Masked(Masked(payload, mask), mask) == payload
  {
    forall i | 0 <= i < |payload| ensures Masked(Masked(payload, mask), mask)[i] == payload[i] {
      assert Pow2(8) == 256;
      XorTwice(payload[i], mask[i % 4], 8);
    }
  }

  /* ---- Frames ---- */

  datatype Frame = Frame(final: bool, opcode: Byte, payload: Bytes)

  function LengthField(size: nat): (r: (Byte, Bytes))
    requires size < LENGTH_LIMIT
    ensures r.0 < 128
  {
    if size < 126 then (size, [])
    else if size <= 0xFFFF then (126, Pack(size, 2))
    else (127, Pack(size, 8))
  }

  function Body(payload: Bytes, mask: Option<Mask>): Bytes {
    match mask
    case None => payload
    case Some(m) => m + Masked(payload, m)
  }

  predicate Sendable(f: Frame) {
    f.opcode < 16 && |f.payload| <= MAX_FRAME_BYTES
  }

  predicate Encodable(f: Frame) {
    f.opcode < 16 && |f.payload| < LENGTH_LIMIT
  }

  function Encode(f: Frame, mask: Option<Mask>): (bytes: Bytes)
    requires Encodable(f)
  {
    var field := LengthField(|f.payload|);
    var first: Byte := (if f.final then 0x80 else 0) + f.opcode;
    var second: Byte := (if mask.Some? then 0x80 else 0) + field.0;
    [first, second] + field.1 + Body(f.payload, mask)
  }

  datatype Read<T> = Got(value: T, rest: Bytes) | Eof | Oversized

  function Take(stream: Bytes, size: nat): Read<Bytes> {
    if size <= |stream| then Got(stream[..size], stream[size..]) else Eof
  }

  /** The payload length and what follows its field. */
  function ReadLength(code: Byte, stream: Bytes): Read<nat> {
    if code == 126 || code == 127 then
      match Take(stream, if code == 126 then 2 else 8)
      case Got(bytes, rest) => Read<nat>.Got(Unpack(bytes), rest)
      case _ => Eof
    else Read<nat>.Got(code, stream)
  }

  function ReadPayload(masked: bool, size: nat, stream: Bytes): Read<Bytes> {
    if !masked then Take(stream, size)
    else
      match Take(stream, 4)
      case Got(mask, rest) =>
        (match Take(rest, size)
         case Got(payload, after) => Got(Masked(payload, mask), after)
         case _ => Eof)
      case _ => Eof
  }

  function ReadFrame(stream: Bytes): (r: Read<Frame>)
    ensures r.Got? ==> |r.rest| < |stream| && Sendable(r.value)
  {
    if |stream| < 2 then Eof
    else
      match ReadLength(stream[1] % 0x80, stream[2..])
      case Got(size, rest) =>
        if size > MAX_FRAME_BYTES then Oversized
        else
          (match ReadPayload(stream[1] >= 0x80, size, rest)
           case Got(payload, after) => Got(Frame(stream[0] >= 0x80, stream[0] % 0x10, payload), after)
           case _ => Eof)
      case _ => Eof
  }

  /* ---- One frame there and back ---- */

  /** What a peer may put on the wire: a frame and the masking key it chose, if any. */
  datatype Sent = Sent(frame: Frame, mask: Option<Mask>)

  lemma WidthLimits()
    ensures Pow256(2) == 0x1_0000 && Pow256(8) == LENGTH_LIMIT
  {
    assert Pow256(4) == 256 * Pow256(3) == 256 * 256 * Pow256(2);
    assert Pow256(6) == 256 * Pow256(5) == 256 * 256 * Pow256(4);
  }

  lemma LengthRoundTrip(size: nat, rest: Bytes)
    requires size < LENGTH_LIMIT
    ensures var field := LengthField(size); ReadLength(field.0, field.1 + rest) == Got(size, rest)
  {
    WidthLimits();
    var field := LengthField(size);
    assert (field.1 + rest)[..|field.1|] == field.1 && (field.1 + rest)[|field.1|..] == rest;
    if size >= 126 { PackRoundTrip(size, |field.1|); }
  }

  lemma PayloadRoundTrip(payload: Bytes, mask: Option<Mask>, rest: Bytes)
    ensures ReadPayload(mask.Some?, |payload|, Body(payload, mask) + rest) == Got(payload, rest)
  {
    var wire := Body(payload, mask) + rest;
    match mask
    case None =>
      assert wire[..|payload|] == payload && wire[|payload|..] == rest;
    case Some(m) =>
      var hidden := Masked(payload, m);
      assert wire[..4] == m && wire[4..] == hidden + rest;
      assert (hidden + rest)[..|payload|] == hidden && (hidden + rest)[|payload|..] == rest;
      MaskTwice(payload, m);
  }

  lemma HeaderShape(f: Frame, mask: Option<Mask>, rest: Bytes)
    requires Encodable(f)
    ensures var stream := Encode(f, mask) + rest;
            var field := LengthField(|f.payload|);
            && |stream| >= 2
            && stream[0] % 0x10 == f.opcode && (stream[0] >= 0x80 <==> f.final)
            && stream[1] % 0x80 == field.0 && (stream[1] >= 0x80 <==> mask.Some?)
            && stream[2..] == field.1 + (Body(f.payload, mask) + rest)
  {
    var stream := Encode(f, mask) + rest;
    assert stream == [stream[0], stream[1]] + (LengthField(|f.payload|).1 + (Body(f.payload, mask) + rest));
  }

  /** Reading what was written gives back the frame and leaves exactly the bytes after it, for
      all three length encodings and every masking key. */
  lemma FrameRoundTrip(f: Frame, mask: Option<Mask>, rest: Bytes)
    requires Sendable(f)
    ensures ReadFrame(Encode(f, mask) + rest) == Got(f, rest)
  {
    HeaderShape(f, mask, rest);
    LengthRoundTrip(|f.payload|, Body(f.payload, mask) + rest);
    PayloadRoundTrip(f.payload, mask, rest);
  }

  /** A longer payload is refused by its length field, whatever follows. */
  lemma OversizedRefused(f: Frame, mask: Option<Mask>, rest: Bytes)
    requires Encodable(f) && |f.payload| > MAX_FRAME_BYTES
    ensures ReadFrame(Encode(f, mask) + rest) == Oversized
  {
    HeaderShape(f, mask, rest);
    LengthRoundTrip(|f.payload|, Body(f.payload, mask) + rest);
  }

  lemma HeaderPrefix(f: Frame, mask: Option<Mask>, n: nat)
    requires Encodable(f) && 2 <= n < |Encode(f, mask)|
    ensures var stream := Encode(f, mask)[..n];
            var field := LengthField(|f.payload|);
            && stream[1] % 0x80 == field.0 && (stream[1] >= 0x80 <==> mask.Some?)
            && stream[2..] == (field.1 + Body(f.payload, mask))[..n - 2]
  {
    var wire := Encode(f, mask);
    HeaderShape(f, mask, []);
    assert wire + [] == wire && Body(f.payload, mask) + [] == Body(f.payload, mask);
    assert wire[..n][2..] == wire[2..][..n - 2];
  }

  /** Every proper prefix of a written frame is an unfinished frame. */
  lemma PrefixIsUnfinished(f: Frame, mask: Option<Mask>, n: nat)
    requires Sendable(f) && n < |Encode(f, mask)|
    ensures ReadFrame(Encode(f, mask)[..n]) == Eof
  {
    if n >= 2 {
      HeaderPrefix(f, mask, n);
      var field := LengthField(|f.payload|);
      var after := Encode(f, mask)[..n][2..];
      if |after| < |field.1| {
        assert ReadLength(field.0, after) == Eof;
      } else {
        var some := after[|field.1|..];
        assert after == field.1 + some;
        LengthRoundTrip(|f.payload|, some);
        assert |some| < |Body(f.payload, mask)|;
        assert ReadPayload(mask.Some?, |f.payload|, some) == Eof;
      }
    }
  }

  /* ---- Messages ---- */

  datatype Outcome = Text(text: Bytes) | Closed | TooLarge | BadOpcode | NotText

  /** What reading one message does: its outcome, the bytes left, the pongs owed in order. */
  datatype MessageRead = MessageRead(outcome: Outcome, rest: Bytes, pongs: seq<Bytes>)

  datatype Next = Done(outcome: Outcome) | More(fragments: Bytes, kind: Byte, pongs: seq<Bytes>)

  /** One frame of a message: `fragments` so far under `kind`, which is 0 before the first data
      frame; a closed socket cannot answer a ping. */
  function Consume(f: Frame, closed: bool, fragments: Bytes, kind: Byte): Next {
    if f.opcode == CLOSE then Done(Closed)
    else if f.opcode == PING then if closed then Done(Closed) else More(fragments, kind, [f.payload])
    else if f.opcode == PONG then More(fragments, kind, [])
    else if f.opcode == TEXT || (f.opcode == CONTINUATION && kind != 0) then
      var text := if f.opcode == TEXT then f.payload else fragments + f.payload;
      var now := if f.opcode == TEXT then TEXT else kind;
      if !f.final then More(text, now, []) else Done(if now == TEXT then Text(text) else NotText)
    else Done(BadOpcode)
  }

  function ReadMessage(stream: Bytes, closed: bool, fragments: Bytes, kind: Byte): MessageRead
    decreases |stream|
  {
    match ReadFrame(stream)
    case Eof => MessageRead(Closed, [], [])
    case Oversized => MessageRead(TooLarge, [], [])
    case Got(f, rest) =>
      match Consume(f, closed, fragments, kind)
      case Done(outcome) => MessageRead(outcome, rest, [])
      case More(text, now, pongs) =>
        var later := ReadMessage(rest, closed, text, now);
        later.(pongs := pongs + later.pongs)
  }

  predicate AllSendable(sent: seq<Sent>) {
    forall i :: 0 <= i < |sent| ==> Sendable(sent[i].frame)
  }

  function Wire(sent: seq<Sent>): Bytes
    requires AllSendable(sent)
  {
    if sent == [] then [] else Encode(sent[0].frame, sent[0].mask) + Wire(sent[1..])
  }

  predicate Control(f: Frame) {
    f.opcode == PING || f.opcode == PONG
  }

  /** The frames split `text`: one data frame after another, the first alone under the text opcode
      and the last alone final, with pings and pongs anywhere before the last. */
  predicate Splits(sent: seq<Sent>, text: Bytes, started: bool)
    decreases |sent|
  {
    && sent != []
    && var f := sent[0].frame;
    if Control(f) then Splits(sent[1..], text, started)
    else
      && f.opcode == (if started then CONTINUATION else TEXT)
      && f.payload <= text
      && if f.final then f.payload == text && |sent| == 1
         else Splits(sent[1..], text[|f.payload|..], true)
  }

  function Pings(sent: seq<Sent>): seq<Bytes> {
    if sent == [] then []
    else (if sent[0].frame.opcode == PING then [sent[0].frame.payload] else []) + Pings(sent[1..])
  }

  /** Reading the wire form of some frames starts with the first of them. */
  lemma ReadsFirst(sent: seq<Sent>, closed: bool, fragments: Bytes, kind: Byte, rest: Bytes)
    requires AllSendable(sent) && sent != []
    ensures AllSendable(sent[1..])
    ensures ReadMessage(Wire(sent) + rest, closed, fragments, kind) ==
            match Consume(sent[0].frame, closed, fragments, kind)
            case Done(outcome) => MessageRead(outcome, Wire(sent[1..]) + rest, [])
            case More(text, now, pongs) =>
              var later := ReadMessage(Wire(sent[1..]) + rest, closed, text, now);
              later.(pongs := pongs + later.pongs)
  {
    var after := Wire(sent[1..]) + rest;
    assert Wire(sent) + rest == Encode(sent[0].frame, sent[0].mask) + after;
    FrameRoundTrip(sent[0].frame, sent[0].mask, after);
  }

  lemma {:induction false} SplitReassembles(sent: seq<Sent>, text: Bytes, fragments: Bytes, kind: Byte, rest: Bytes)
    requires AllSendable(sent)
    requires kind in {0, TEXT} && Splits(sent, text, kind == TEXT)
    requires kind == 0 ==> fragments == []
    ensures ReadMessage(Wire(sent) + rest, false, fragments, kind) == MessageRead(Text(fragments + text), rest, Pings(sent))
    decreases |sent|
  {
    var f := sent[0].frame;
    ReadsFirst(sent, false, fragments, kind, rest);
    if Control(f) {
      SplitReassembles(sent[1..], text, fragments, kind, rest);
    } else if f.final {
      assert sent[1..] == [] && Wire(sent[1..]) + rest == rest;
      NothingBefore(text);
    } else {
      var before := if kind == 0 then f.payload else fragments + f.payload;
      SplitReassembles(sent[1..], text[|f.payload|..], before, TEXT, rest);
      Rejoin(fragments, f.payload, text);
      NothingBefore(f.payload);
    }
  }

  lemma NothingBefore(text: Bytes)
    ensures [] + text == text
  {
  }

  lemma Rejoin(before: Bytes, part: Bytes, text: Bytes)
    requires part <= text
    ensures before + part + text[|part|..] == before + text
  {
    assert part + text[|part|..] == text;
  }

  /** However a text payload is split into frames, masked, and interleaved with pings and pongs,
      reading returns exactly the payload, stops exactly behind it, and owes one pong per ping,
      in order and with the same data. */
  lemma Reassembly(sent: seq<Sent>, text: Bytes, rest: Bytes)
    requires AllSendable(sent) && Splits(sent, text, false)
    ensures ReadMessage(Wire(sent) + rest, false, [], 0) == MessageRead(Text(text), rest, Pings(sent))
  {
    SplitReassembles(sent, text, [], 0, rest);
    assert [] + text == text;
  }

  /** The frames a stream starts with, up to `n` of them. */
  function Frames(stream: Bytes, n: nat): seq<Frame> {
    if n == 0 then []
    else
      match ReadFrame(stream)
      case Got(f, rest) => [f] + Frames(rest, n - 1)
      case _ => []
  }

  /** Reading never stops at a complete message of another kind than text. */
  lemma {:induction false} OnlyTextMessages(stream: Bytes, closed: bool, fragments: Bytes, kind: Byte)
    requires kind in {0, TEXT}
    ensures ReadMessage(stream, closed, fragments, kind).outcome != NotText
    decreases |stream|
  {
    match ReadFrame(stream)
    case Got(f, rest) =>
      var next := Consume(f, closed, fragments, kind);
      if next.More? { OnlyTextMessages(rest, closed, next.fragments, next.kind); }
    case _ =>
  }

  /* ---- The frames a gateway writes ---- */

  /** The key of the n-th masked frame; an end that does not mask uses none. */
  function MaskAt(masks: nat -> Mask, masked: bool, n: nat): Option<Mask> {
    if masked then Some(masks(n)) else None
  }

  /** Frames written one after another under one opcode, drawing masks from `masks` from the n-th on. */
  function Outgoing(opcode: Byte, payloads: seq<Bytes>, masks: nat -> Mask, masked: bool, n: nat): seq<Sent>
    ensures |Outgoing(opcode, payloads, masks, masked, n)| == |payloads|
  {
    seq(|payloads|, i requires 0 <= i < |payloads| =>
      Sent(Frame(true, opcode, payloads[i]), MaskAt(masks, masked, n + i)))
  }

  lemma {:induction false} WireIsReadBack(sent: seq<Sent>)
    requires AllSendable(sent)
    ensures |Frames(Wire(sent), |sent|)| == |sent|
    ensures forall i :: 0 <= i < |sent| ==> Frames(Wire(sent), |sent|)[i] == sent[i].frame
  {
    if sent != [] {
      WireIsReadBack(sent[1..]);
      FrameRoundTrip(sent[0].frame, sent[0].mask, Wire(sent[1..]));
    }
  }

  lemma {:induction false} WireAppends(a: seq<Sent>, b: seq<Sent>)
    requires AllSendable(a) && AllSendable(b)
    ensures Wire(a + b) == Wire(a) + Wire(b)
  {
    if a == [] {
      assert a + b == b;
    } else {
      assert (a + b)[1..] == a[1..] + b && (a + b)[0] == a[0];
      WireAppends(a[1..], b);
    }
  }
}
