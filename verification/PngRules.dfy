/** The rules of a PNG stream in numbers: headers, sizes and the order of chunks (sections 5, 8, 9 and
    11 of ISO/IEC 15948). */
module PngRules {
  import opened Prelude
  import opened NetworkBytes
  import opened PngLayout
  import opened PngStream

  /* ---- Numbers ---- */

  /** The first byte of a number weighs most. */
  lemma {:induction false} MostSignificantFirst(first: Byte, rest: Bytes)
    ensures Unpack([first] + rest) == first * Pow256(|rest|) + Unpack(rest)
    decreases |rest|
  {
    var bytes := [first] + rest;
    if rest == [] {
      assert bytes[..0] == [];
    } else {
      var front, last := rest[..|rest| - 1], rest[|rest| - 1];
      assert bytes[..|bytes| - 1] == [first] + front && bytes[|bytes| - 1] == last;
      MostSignificantFirst(first, front);
      assert 256 * (first * Pow256(|front|) + Unpack(front)) == first * (256 * Pow256(|front|)) + 256 * Unpack(front);
    }
  }

  function Number(bytes: Bytes, at: nat): nat
    requires at + 4 <= |bytes|
  {
    var a: nat, b: nat, c: nat, d: nat := bytes[at], bytes[at + 1], bytes[at + 2], bytes[at + 3];
    16777216 * a + 65536 * b + 256 * c + d
  }

  lemma FourBytes(bytes: Bytes, at: nat)
    requires at + 4 <= |bytes|
    ensures Unpack(bytes[at..at + 4]) == Number(bytes, at)
  {
    var a: nat, b: nat, c: nat := bytes[at], bytes[at + 1], bytes[at + 2];
    var four := bytes[at..at + 4];
    var three, two, one := four[..3], four[..2], four[..1];
    assert three[..2] == two && two[..1] == one && one[..0] == [];
    assert one[0] == a && two[1] == b && three[2] == c;
    assert Unpack(one) == a;
    assert Unpack(two) == 256 * a + b;
    assert Unpack(three) == 65536 * a + 256 * b + c;
  }

  /* ---- The header ---- */

  /** Bits of a pixel: one sample for gray and palette images, three for RGB, one more with alpha. */
  function PixelBits(color: nat, depth: nat): nat {
    if color == 2 then 3 * depth else if color == 4 then 2 * depth else if color == 6 then 4 * depth else depth
  }

  predicate HeaderRules(header: Bytes, palette: Option<nat>) {
    && |header| == 13 && Number(header, 0) >= 1 && Number(header, 4) >= 1
    && (header[9], header[8]) in
         {(0, 1), (0, 2), (0, 4), (0, 8), (0, 16), (2, 8), (2, 16), (3, 1), (3, 2), (3, 4), (3, 8), (4, 8), (4, 16), (6, 8), (6, 16)}
    && header[10] == 0 && header[11] == 0 && header[12] in {0, 1}
    && (header[9] == 3 ==> palette.Some? && palette.value >= 1)
  }

  lemma DimensionsAre(header: Bytes)
    requires |header| == 13
    ensures ImageWidth(header) == Number(header, 0) && ImageHeight(header) == Number(header, 4)
  {
    FourBytes(header, 0);
    FourBytes(header, 4);
  }

  lemma DepthsAre(color: nat, depth: nat)
    ensures DepthFine(color, depth) <==>
            (color, depth) in {(0, 1), (0, 2), (0, 4), (0, 8), (0, 16), (2, 8), (2, 16), (3, 1), (3, 2), (3, 4), (3, 8), (4, 8), (4, 16), (6, 8), (6, 16)}
  {
  }

  lemma HeaderExactly(header: Bytes, palette: Option<nat>)
    ensures HeaderFine(header, palette) <==> HeaderRules(header, palette)
  {
    if |header| == 13 {
      DimensionsAre(header);
      DepthsAre(header[9], header[8]);
    }
  }

  /* ---- The size of the decoded bytes ---- */

  function Columns(size: nat, start: nat, step: nat): nat
    requires step > 0
  {
    if size <= start then 0 else (size - start + step - 1) / step
  }

  /** The bytes of one pass: for every row a filter byte and as many bytes as its pixels fill. */
  function PassBytes(columns: nat, rows: nat, bits: nat): nat {
    if columns == 0 || rows == 0 then 0 else rows * ((columns * bits + 7) / 8 + 1)
  }

  lemma OnePass(width: nat, height: nat, bits: nat, k: nat)
    requires k < 7
    ensures var p := ADAM7[k];
            p.dx > 0 && p.dy > 0 &&
            ExpectedSize(PassShapes(width, height, bits, k)) ==
            PassBytes(Columns(width, p.x0, p.dx), Columns(height, p.y0, p.dy), bits) + ExpectedSize(PassShapes(width, height, bits, k + 1))
  {
    var p := ADAM7[k];
    var shape := PassShape(width, height, bits, p);
    SizeAppends(shape, PassShapes(width, height, bits, k + 1));
    if shape != [] { assert shape[1..] == []; }
  }

  /** The size of an interlaced image, pass by pass in numbers. */
  lemma InterlacedSize(width: nat, height: nat, bits: nat)
    ensures ExpectedSize(RowShapes(width, height, bits, true)) ==
            PassBytes(Columns(width, 0, 8), Columns(height, 0, 8), bits) + PassBytes(Columns(width, 4, 8), Columns(height, 0, 8), bits)
            + PassBytes(Columns(width, 0, 4), Columns(height, 4, 8), bits) + PassBytes(Columns(width, 2, 4), Columns(height, 0, 4), bits)
            + PassBytes(Columns(width, 0, 2), Columns(height, 2, 4), bits) + PassBytes(Columns(width, 1, 2), Columns(height, 0, 2), bits)
            + PassBytes(Columns(width, 0, 1), Columns(height, 1, 2), bits)
  {
    OnePass(width, height, bits, 0);
    OnePass(width, height, bits, 1);
    OnePass(width, height, bits, 2);
    OnePass(width, height, bits, 3);
    OnePass(width, height, bits, 4);
    OnePass(width, height, bits, 5);
    OnePass(width, height, bits, 6);
    assert ADAM7[0] == Pass(0, 0, 8, 8) && ADAM7[1] == Pass(4, 0, 8, 8) && ADAM7[2] == Pass(0, 4, 4, 8) && ADAM7[3] == Pass(2, 0, 4, 4);
    assert ADAM7[4] == Pass(0, 2, 2, 4) && ADAM7[5] == Pass(1, 0, 2, 2) && ADAM7[6] == Pass(0, 1, 1, 2);
    assert ExpectedSize(PassShapes(width, height, bits, 7)) == 0;
  }

  lemma PlainSize(width: nat, height: nat, bits: nat)
    requires width >= 1 && height >= 1
    ensures ExpectedSize(RowShapes(width, height, bits, false)) == PassBytes(width, height, bits)
  {
    assert [Shape(height, RowBytes(width, bits))][1..] == [];
  }

  /** What a pixel costs: the decoded bytes of an image of one pixel. */
  lemma OnePixel(color: nat, depth: nat)
    requires DepthFine(color, depth)
    ensures Channels(color) * depth == PixelBits(color, depth)
    ensures depth == 8 ==>
              ExpectedSize(RowShapes(1, 1, Channels(color) * depth, false)) ==
              if color == 0 then 2 else if color == 2 then 4 else if color == 3 then 2 else if color == 4 then 3 else 5
    ensures depth == 16 ==>
              ExpectedSize(RowShapes(1, 1, Channels(color) * depth, false)) ==
              if color == 0 then 3 else if color == 2 then 7 else if color == 4 then 5 else 9
    ensures depth < 8 ==> ExpectedSize(RowShapes(1, 1, Channels(color) * depth, false)) == 2
  {
    PlainSize(1, 1, Channels(color) * depth);
  }

  /* ---- The image ---- */

  function FilterAt(row: nat, rowBytes: nat): nat {
    row * (rowBytes + 1)
  }

  /** The decoded bytes of an image that is not interlaced: every row starts with a filter type. */
  predicate PlainRows(decoded: seq<nat>, height: nat, rowBytes: nat) {
    |decoded| == height * (rowBytes + 1) && forall r :: 0 <= r < height ==> FilterAt(r, rowBytes) < |decoded| && decoded[FilterAt(r, rowBytes)] <= 4
  }

  predicate PlainImage(header: Bytes, compressed: Bytes, inflate: Inflate)
    requires |header| == 13
  {
    var height := Number(header, 4);
    var rowBytes := (Number(header, 0) * PixelBits(header[9], header[8]) + 7) / 8;
    && height * (rowBytes + 1) <= 536870912
    && var decoded := inflate(compressed, height * (rowBytes + 1));
       decoded.Some? && PlainRows(decoded.value, height, rowBytes)
  }

  lemma PlainShape(header: Bytes, palette: Option<nat>)
    requires HeaderFine(header, palette) && header[12] == 0
    ensures var rowBytes := (Number(header, 0) * PixelBits(header[9], header[8]) + 7) / 8;
            && ShapesOf(header) == [Shape(Number(header, 4), rowBytes)]
            && ExpectedSize(ShapesOf(header)) == Number(header, 4) * (rowBytes + 1)
  {
    DimensionsAre(header);
    OnePixel(header[9], header[8]);
    PlainSize(ImageWidth(header), ImageHeight(header), PixelBits(header[9], header[8]));
  }

  lemma FilterIs(shape: Shape, r: nat)
    ensures RowStart([shape], 0, r) == FilterAt(r, shape.rowBytes)
  {
    assert [shape][..0] == [];
  }

  lemma PlainFilters(decoded: seq<nat>, shape: Shape)
    requires |decoded| == ExpectedSize([shape]) == shape.rows * (shape.rowBytes + 1)
    ensures FiltersValid(decoded, [shape]) <==> PlainRows(decoded, shape.rows, shape.rowBytes)
  {
    var shapes := [shape];
    forall r | 0 <= r < shape.rows ensures RowStart(shapes, 0, r) == FilterAt(r, shape.rowBytes) < |decoded| {
      FilterIs(shape, r);
      RowInBounds(shapes, 0, r);
    }
    assert FiltersValid(decoded, shapes) <==> GroupValid(decoded, shapes, 0, shape.rows);
  }

  /** The verdict on an image that is not interlaced, in numbers. */
  lemma PlainVerdict(header: Bytes, palette: Option<nat>, compressed: Bytes, inflate: Inflate)
    requires |header| == 13 && header[12] == 0
    ensures ImageFine(header, palette, compressed, inflate) <==> HeaderRules(header, palette) && PlainImage(header, compressed, inflate)
  {
    HeaderExactly(header, palette);
    if HeaderFine(header, palette) {
      PlainShape(header, palette);
      var shape := ShapesOf(header)[0];
      var decoded := inflate(compressed, ExpectedSize(ShapesOf(header)));
      if decoded.Some? && |decoded.value| == ExpectedSize(ShapesOf(header)) { PlainFilters(decoded.value, shape); }
    }
  }

  /* ---- The order of the chunks ---- */

  predicate Before(cs: seq<Chunk>, i: nat, kind: Bytes)
    requires i <= |cs|
  {
    exists j :: 0 <= j < i && cs[j].kind == kind
  }

  /** No chunk stands between two chunks of image data. */
  predicate Unbroken(cs: seq<Chunk>, i: nat)
    requires i <= |cs|
  {
    forall a, b :: 0 <= a < b < i && cs[a].kind == [73, 68, 65, 84] ==> cs[b].kind == [73, 68, 65, 84]
  }

  /** What the i-th chunk may be: IHDR first and only first; a palette of whole entries, only one, before
      the data, and not for gray; image data in one run, with a palette before it where the image needs
      one; the end empty and after data; anything else only if it is ancillary. */
  predicate ChunkRules(cs: seq<Chunk>, i: nat)
    requires i < |cs| && |cs[0].data| == 13
  {
    var c, color, depth := cs[i], cs[0].data[9], cs[0].data[8];
    && (c.kind == [73, 72, 68, 82] <==> i == 0)
    && (c.kind !in {[73, 72, 68, 82], [80, 76, 84, 69], [73, 68, 65, 84], [73, 69, 78, 68]} ==> |c.kind| == 4 && 97 <= c.kind[0] <= 122)
    && (c.kind == [80, 76, 84, 69] ==>
          && !Before(cs, i, [80, 76, 84, 69]) && !Before(cs, i, [73, 68, 65, 84])
          && 3 <= |c.data| <= 768 && |c.data| % 3 == 0 && color !in {0, 4} && (color == 3 ==> |c.data| <= 3 * PowerOfTwo(depth)))
    && (c.kind == [73, 68, 65, 84] ==>
          && Unbroken(cs, i) && (color == 3 ==> Before(cs, i, [80, 76, 84, 69]))
          && |Data(cs[..i])| + |c.data| <= 268435456)
    && (c.kind == [73, 69, 78, 68] ==> c.data == [] && Before(cs, i, [73, 68, 65, 84]))
    && (c.kind == [73, 69, 78, 68] <==> i == |cs| - 1)
  }

  /** Every chunk is named by four letters. */
  predicate Lettered(cs: seq<Chunk>) {
    forall i :: 0 <= i < |cs| ==> |cs[i].kind| == 4 && forall k :: 0 <= k < 4 ==> 65 <= cs[i].kind[k] <= 90 || 97 <= cs[i].kind[k] <= 122
  }

  predicate StreamRules(cs: seq<Chunk>) {
    cs != [] && |cs[0].data| == 13 && forall i :: 0 <= i < |cs| ==> ChunkRules(cs, i)
  }

  lemma HasBefore(cs: seq<Chunk>, i: nat, kind: Bytes)
    requires i <= |cs|
    ensures Has(cs[..i], kind) <==> Before(cs, i, kind)
  {
    if Before(cs, i, kind) {
      var j :| 0 <= j < i && cs[j].kind == kind;
      assert cs[..i][j] == cs[j];
    }
  }

  lemma EndedIsBroken(cs: seq<Chunk>, i: nat)
    requires i <= |cs| && forall j :: 0 <= j < i ==> cs[j].kind != IEND
    ensures DataEnded(cs[..i]) <==> !Unbroken(cs, i)
  {
    if !Unbroken(cs, i) {
      var a, b :| 0 <= a < b < i && cs[a].kind == IDAT && cs[b].kind != IDAT;
      assert cs[..i][a] == cs[a] && cs[..i][b] == cs[b];
    }
    if DataEnded(cs[..i]) {
      var a, b :| 0 <= a < b < i && cs[..i][a].kind == IDAT && cs[..i][b].kind != IDAT && cs[..i][b].kind != IEND;
      assert cs[a].kind == IDAT && cs[b].kind != IDAT;
    }
  }

  lemma SmallLetter(b: Byte)
    requires 65 <= b <= 90 || 97 <= b <= 122
    ensures b / 32 % 2 == 1 <==> 97 <= b <= 122
  {
  }

  lemma FollowsIs(cs: seq<Chunk>, i: nat)
    requires i < |cs| && Lettered(cs) && IsHeader(cs[0]) && forall j :: 0 <= j < i ==> cs[j].kind != IEND
    requires cs[i].kind == IEND <==> i == |cs| - 1
    ensures Follows(cs[..i], cs[i]) <==> ChunkRules(cs, i)
  {
    HasBefore(cs, i, PLTE);
    HasBefore(cs, i, IDAT);
    EndedIsBroken(cs, i);
    SmallLetter(cs[i].kind[0]);
    if i > 0 { assert cs[..i][0] == cs[0]; }
  }

  /** Chunks form a whole stream exactly by these rules. */
  lemma StreamExactly(cs: seq<Chunk>)
    requires Lettered(cs)
    ensures WellFormed(cs) <==> StreamRules(cs)
  {
    if WellFormed(cs) {
      assert Follows(cs[..0], cs[0]);
      forall i | 0 <= i < |cs| ensures ChunkRules(cs, i) {
        assert Follows(cs[..i], cs[i]);
        FollowsIs(cs, i);
      }
    }
    if StreamRules(cs) {
      assert ChunkRules(cs, 0);
      forall i | 0 <= i < |cs| ensures cs[i].kind == IEND <==> i == |cs| - 1 { assert ChunkRules(cs, i); }
      forall i | 0 <= i < |cs| ensures Follows(cs[..i], cs[i]) {
        assert ChunkRules(cs, i);
        FollowsIs(cs, i);
      }
    }
  }

  lemma WritableIs(c: Chunk)
    ensures Writable(c) <==> Lettered([c]) && |c.data| < 4294967296
  {
    assert Pow256(4) == 256 * Pow256(3) == 65536 * Pow256(2) == 16777216 * Pow256(1) == 4294967296;
    assert [c][0] == c;
  }

  /** The bytes handed to decompression are those of the image data, in order. */
  lemma {:induction false} DataInOrder(c: Chunk, rest: seq<Chunk>)
    ensures Data([c] + rest) == (if c.kind == [73, 68, 65, 84] then c.data else []) + Data(rest)
    decreases |rest|
  {
    var cs := [c] + rest;
    if rest == [] {
      assert cs[..0] == [];
    } else {
      var front, last := rest[..|rest| - 1], rest[|rest| - 1];
      assert cs[..|cs| - 1] == [c] + front && cs[|cs| - 1] == last;
      DataInOrder(c, front);
    }
  }

  lemma PaletteLimits()
    ensures PowerOfTwo(1) == 2 && PowerOfTwo(2) == 4 && PowerOfTwo(4) == 16 && PowerOfTwo(8) == 256
  {
  }

  /** A chunk as written: length, kind, data and checksum, the numbers in four bytes each. */
  lemma ChunkAsWritten(c: Chunk, crc: Checksum)
    requires Writable(c)
    ensures var written, n := EncodeChunk(c, crc), |c.data|;
            && |written| == n + 12 && Number(written, 0) == n && written[4..8] == c.kind && written[8..8 + n] == c.data
            && Number(written, 8 + n) == crc(c.kind + c.data) % 4294967296
  {
    var written, n := EncodeChunk(c, crc), |c.data|;
    WritableIs(c);
    PackRoundTrip(n, 4);
    PackRoundTrip(Sum(c, crc), 4);
    FourBytes(written, 0);
    FourBytes(written, 8 + n);
    assert written[0..4] == Pack(n, 4) && written[8 + n..12 + n] == Pack(Sum(c, crc), 4);
    PowerIs();
  }

  lemma PowerIs()
    ensures Pow256(4) == 4294967296
  {
    assert Pow256(4) == 256 * Pow256(3) == 65536 * Pow256(2) == 16777216 * Pow256(1);
  }

  /** What a payload must be for its dimensions to be returned. */
  lemma ShowsExactly(payload: Bytes, cs: seq<Chunk>, crc: Checksum, inflate: Inflate)
    ensures Shows(payload, cs, crc, inflate) <==>
            && payload == [137, 80, 78, 71, 13, 10, 26, 10] + EncodeAll(cs, crc)
            && Lettered(cs) && (forall i :: 0 <= i < |cs| ==> |cs[i].data| < 4294967296)
            && StreamRules(cs) && ImageFine(cs[0].data, PaletteOf(cs), Data(cs), inflate)
  {
    forall i | 0 <= i < |cs| ensures Writable(cs[i]) <==> Lettered([cs[i]]) && |cs[i].data| < 4294967296 { WritableIs(cs[i]); }
    LetteredIs(cs);
    if Lettered(cs) { StreamExactly(cs); }
  }

  lemma LetteredIs(cs: seq<Chunk>)
    ensures Lettered(cs) <==> forall i :: 0 <= i < |cs| ==> Lettered([cs[i]])
  {
    forall i | 0 <= i < |cs| ensures [cs[i]][0] == cs[i] {}
    if forall i :: 0 <= i < |cs| ==> Lettered([cs[i]]) {
      forall i | 0 <= i < |cs| ensures |cs[i].kind| == 4 && forall k :: 0 <= k < 4 ==> 65 <= cs[i].kind[k] <= 90 || 97 <= cs[i].kind[k] <= 122 {
        assert Lettered([cs[i]]) && [cs[i]][0] == cs[i];
      }
    }
  }
}
