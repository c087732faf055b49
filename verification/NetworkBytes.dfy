/** Bytes, and numbers in network byte order. */
module NetworkBytes {

  type Byte = b: nat | b < 256
  type Bytes = seq<Byte>

  function Pow256(width: nat): (p: nat)
    ensures p > 0
  {
    if width == 0 then 1 else 256 * Pow256(width - 1)
  }

  function Pack(n: nat, width: nat): (bytes: Bytes)
    ensures |bytes| == width
  {
    if width == 0 then [] else Pack(n / 256, width - 1) + [n % 256]
  }

  function Unpack(bytes: Bytes): nat {
    if bytes == [] then 0 else 256 * Unpack(bytes[..|bytes| - 1]) + bytes[|bytes| - 1]
  }

  lemma {:induction false} PackRoundTrip(n: nat, width: nat)
    requires n < Pow256(width)
    ensures Unpack(Pack(n, width)) == n
  {
    if width > 0 {
      PackRoundTrip(n / 256, width - 1);
      var bytes := Pack(n, width);
      assert bytes[..|bytes| - 1] == Pack(n / 256, width - 1);
    }
  }

  lemma {:induction false} UnpackRoundTrip(bytes: Bytes)
    ensures Unpack(bytes) < Pow256(|bytes|) && Pack(Unpack(bytes), |bytes|) == bytes
  {
    if bytes != [] {
      var front := bytes[..|bytes| - 1];
      UnpackRoundTrip(front);
      assert bytes == front + [bytes[|bytes| - 1]];
    }
  }
}
