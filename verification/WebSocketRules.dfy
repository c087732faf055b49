/** The bytes of a frame and the fate of a message, in numbers (RFC 6455, sections 5.2 to 5.5). */
module WebSocketRules {
  import opened Prelude
  import opened NetworkBytes
  import opened WebSocketFrames

  /* ---- Masking ---- */

  function Bit(n: nat, k: nat): nat {
    if k == 0 then n % 2 else Bit(n / 2, k - 1)
  }

  lemma {:induction false} XorBit(a: nat, b: nat, bits: nat, k: nat)
    requires k < bits
    ensures Bit(Xor(a, b, bits), k) == if Bit(a, k) == Bit(b, k) then 0 else 1
  {
    LowBit(Xor(a / 2, b / 2, bits - 1), a, b);
    if k > 0 { XorBit(a / 2, b / 2, bits - 1, k - 1); }
  }

  /** Every bit of a masked byte is that of the byte, turned over where the key has a one; the four
      bytes of the key take turns. */
  lemma MaskedBits(payload: Bytes, mask: Mask, i: nat, k: nat)
    requires i < |payload| && k < 8
    ensures Bit(Masked(payload, mask)[i], k) == if Bit(payload[i], k) == Bit(mask[i % 4], k) then 0 else 1
  {
    XorBit(payload[i], mask[i % 4], 8, k);
  }

  /* ---- The bytes of a frame ---- */

  /** The number in a length field, most significant byte first. */
  lemma {:induction false} Weighs(n: nat, width: nat, i: nat)
    requires i < width
    ensures Pack(n, width)[width - 1 - i] == Shifted(n, i) % 256
  {
    if i > 0 { Weighs(n / 256, width - 1, i - 1); }
  }

  /** The number without its last `i` bytes. */
  function Shifted(n: nat, i: nat): nat {
    if i == 0 then n else Shifted(n / 256, i - 1)
  }

  /** The first two bytes and the length field that follows them. */
  predicate HeaderIs(bytes: Bytes, final: bool, opcode: nat, masked: bool, size: nat) {
    var flag, mark := if final then 128 else 0, if masked then 128 else 0;
    if size <= 125 then
      |bytes| >= 2 && bytes[0] == flag + opcode && bytes[1] == mark + size
    else if size <= 65535 then
      |bytes| >= 4 && bytes[0] == flag + opcode && bytes[1] == mark + 126 && bytes[2] == size / 256 && bytes[3] == size % 256
    else
      && |bytes| >= 10 && bytes[0] == flag + opcode && bytes[1] == mark + 127
      && forall i :: 0 <= i < 8 ==> bytes[9 - i] == Shifted(size, i) % 256
  }

  function HeaderSize(masked: bool, size: nat): nat {
    (if size <= 125 then 2 else if size <= 65535 then 4 else 10) + if masked then 4 else 0
  }

  /** A frame on the wire: header, key if any, and the payload, masked with it. */
  lemma FrameBytes(f: Frame, mask: Option<Mask>)
    requires Encodable(f)
    ensures var bytes, n, h := Encode(f, mask), |f.payload|, HeaderSize(mask.Some?, |f.payload|);
            && |bytes| == h + n && HeaderIs(bytes, f.final, f.opcode, mask.Some?, n)
            && (mask.None? ==> bytes[h..] == f.payload)
            && (mask.Some? ==> bytes[h - 4..h] == mask.value && bytes[h..] == Masked(f.payload, mask.value))
  {
    var n := |f.payload|;
    if 125 < n <= 65535 {
      Weighs(n, 2, 0);
      Weighs(n, 2, 1);
      assert Shifted(n, 1) == Shifted(n / 256, 0) == n / 256;
    }
    if n > 65535 {
      forall i | 0 <= i < 8 ensures Encode(f, mask)[9 - i] == Shifted(n, i) % 256 { Weighs(n, 8, i); }
    }
  }

  lemma TakeJoined(a: Bytes, b: Bytes)
    ensures Take(a + b, |a|) == Got(a, b)
  {
    assert (a + b)[..|a|] == a && (a + b)[|a|..] == b;
  }

  lemma LengthRead(code: Byte, field: Bytes, after: Bytes)
    requires |field| == (if code == 126 then 2 else if code == 127 then 8 else 0)
    ensures ReadLength(code, field + after) == Got(if field == [] then code else Unpack(field), after)
  {
    TakeJoined(field, after);
    assert [] + after == after;
  }

  lemma PayloadRead(key: Bytes, body: Bytes, rest: Bytes)
    requires |key| in {0, 4}
    ensures ReadPayload(|key| == 4, |body|, key + (body + rest)) == Got(if key == [] then body else Masked(body, key), rest)
  {
    TakeJoined(key, body + rest);
    TakeJoined(body, rest);
    assert [] + (body + rest) == body + rest;
  }

  lemma TwoBytes(first: Byte, second: Byte, after: Bytes)
    ensures var stream := [first, second] + after; |stream| >= 2 && stream[0] == first && stream[1] == second && stream[2..] == after
  {
  }

  /** Whatever length form a peer chose, and whatever it put into the reserved bits: a frame within the
      limit is read, a longer one is refused. */
  lemma AnyFrameRead(first: Byte, second: Byte, field: Bytes, key: Bytes, body: Bytes, rest: Bytes)
    requires |field| == (if second % 128 == 126 then 2 else if second % 128 == 127 then 8 else 0)
    requires |key| == (if second >= 128 then 4 else 0)
    ensures var n := if field == [] then second % 128 else Unpack(field);
            var stream := [first, second] + (field + (key + (body + rest)));
            && (n > 16777216 ==> ReadFrame(stream) == Oversized)
            && (n <= 16777216 && |body| == n ==>
                  ReadFrame(stream) == Got(Frame(first >= 128, first % 16, if key == [] then body else Masked(body, key)), rest))
  {
    TwoBytes(first, second, field + (key + (body + rest)));
    LengthRead(second % 128, field, key + (body + rest));
    PayloadRead(key, body, rest);
  }

  /* ---- The fate of a message ---- */

  /** What the next frame does to a message begun with `fragments`; `kind` is 0 before the first data
      frame, and 1 once a text frame began it. */
  lemma NextFrame(f: Frame, mask: Option<Mask>, closed: bool, fragments: Bytes, kind: Byte, rest: Bytes)
    requires Sendable(f) && kind in {0, 1}
    ensures var r := ReadMessage(Encode(f, mask) + rest, closed, fragments, kind);
            && (f.opcode == 8 ==> r == MessageRead(Closed, rest, []))
            && (f.opcode == 9 && closed ==> r == MessageRead(Closed, rest, []))
            && (f.opcode == 9 && !closed ==>
                  var later := ReadMessage(rest, closed, fragments, kind); r == later.(pongs := [f.payload] + later.pongs))
            && (f.opcode == 10 ==> r == ReadMessage(rest, closed, fragments, kind))
            && (f.opcode == 1 && f.final ==> r == MessageRead(Text(f.payload), rest, []))
            && (f.opcode == 1 && !f.final ==> r == ReadMessage(rest, closed, f.payload, 1))
            && (f.opcode == 0 && kind == 0 ==> r == MessageRead(BadOpcode, rest, []))
            && (f.opcode == 0 && kind == 1 && f.final ==> r == MessageRead(Text(fragments + f.payload), rest, []))
            && (f.opcode == 0 && kind == 1 && !f.final ==> r == ReadMessage(rest, closed, fragments + f.payload, 1))
            && (f.opcode !in {0, 1, 8, 9, 10} ==> r == MessageRead(BadOpcode, rest, []))
  {
    var bytes := Encode(f, mask) + rest;
    FrameRoundTrip(f, mask, rest);
    NextOutcome(bytes, f, closed, fragments, kind, rest);
  }

  lemma NextOutcome(bytes: Bytes, f: Frame, closed: bool, fragments: Bytes, kind: Byte, rest: Bytes)
    requires ReadFrame(bytes) == Got(f, rest) && kind in {0, 1}
    ensures var r := ReadMessage(bytes, closed, fragments, kind);
            && (f.opcode == 8 ==> r == MessageRead(Closed, rest, []))
            && (f.opcode == 9 && closed ==> r == MessageRead(Closed, rest, []))
            && (f.opcode == 9 && !closed ==>
                  var later := ReadMessage(rest, closed, fragments, kind); r == later.(pongs := [f.payload] + later.pongs))
            && (f.opcode == 10 ==> r == ReadMessage(rest, closed, fragments, kind))
            && (f.opcode == 1 && f.final ==> r == MessageRead(Text(f.payload), rest, []))
            && (f.opcode == 1 && !f.final ==> r == ReadMessage(rest, closed, f.payload, 1))
            && (f.opcode == 0 && kind == 0 ==> r == MessageRead(BadOpcode, rest, []))
            && (f.opcode == 0 && kind == 1 && f.final ==> r == MessageRead(Text(fragments + f.payload), rest, []))
            && (f.opcode == 0 && kind == 1 && !f.final ==> r == ReadMessage(rest, closed, fragments + f.payload, 1))
            && (f.opcode !in {0, 1, 8, 9, 10} ==> r == MessageRead(BadOpcode, rest, []))
  {
    assert forall pongs: seq<Bytes> :: [] + pongs == pongs;
  }

  /** A stream that ends inside a frame closes the message; a frame that is too long refuses it. */
  lemma StreamEnds(f: Frame, mask: Option<Mask>, n: nat, rest: Bytes, closed: bool, fragments: Bytes, kind: Byte)
    requires Encodable(f) && n < |Encode(f, mask)|
    ensures |f.payload| <= 16777216 ==> ReadMessage(Encode(f, mask)[..n], closed, fragments, kind) == MessageRead(Closed, [], [])
    ensures |f.payload| > 16777216 ==> ReadMessage(Encode(f, mask) + rest, closed, fragments, kind) == MessageRead(TooLarge, [], [])
  {
    if |f.payload| <= 16777216 { PrefixIsUnfinished(f, mask, n); } else { OversizedRefused(f, mask, rest); }
  }
}
