/** The chunk walk of a PNG stream and the final verdict on it (sections 5 and 9 of ISO/IEC 15948). */
module PngStream {
  import opened Prelude
  import opened NetworkBytes
  import opened PngLayout

  const SIGNATURE: Bytes := [0x89, 0x50, 0x4E, 0x47, 0x0D, 0x0A, 0x1A, 0x0A]
  const IHDR: Bytes := [0x49, 0x48, 0x44, 0x52]
  const PLTE: Bytes := [0x50, 0x4C, 0x54, 0x45]
  const IDAT: Bytes := [0x49, 0x44, 0x41, 0x54]
  const IEND: Bytes := [0x49, 0x45, 0x4E, 0x44]

  const MAX_COMPRESSED: nat := 256 * 1024 * 1024
  const MAX_DECODED: nat := 512 * 1024 * 1024

  /** The checksum of a chunk's kind and data; only its four-byte range matters here. */
  type Checksum = Bytes -> nat

  datatype Chunk = Chunk(kind: Bytes, data: Bytes)

  predicate Letter(b: Byte) {
    0x41 <= b <= 0x5A || 0x61 <= b <= 0x7A
  }

  predicate KindFine(kind: Bytes) {
    |kind| == 4 && forall i :: 0 <= i < 4 ==> Letter(kind[i])
  }

  predicate Writable(c: Chunk) {
    KindFine(c.kind) && |c.data| < Pow256(4)
  }

  function Sum(c: Chunk, crc: Checksum): nat {
    crc(c.kind + c.data) % Pow256(4)
  }

  function EncodeChunk(c: Chunk, crc: Checksum): Bytes {
    Pack(|c.data|, 4) + c.kind + c.data + Pack(Sum(c, crc), 4)
  }

  function EncodeAll(cs: seq<Chunk>, crc: Checksum): Bytes {
    if cs == [] then [] else EncodeChunk(cs[0], crc) + EncodeAll(cs[1..], crc)
  }

  /* ---- One chunk ---- */

  /** The chunk a stream starts with and what follows it. */
  function ReadChunk(stream: Bytes, crc: Checksum): Option<(Chunk, Bytes)> {
    if |stream| < 12 then None
    else
      var size := Unpack(stream[..4]);
      var kind := stream[4..8];
      if !KindFine(kind) || 12 + size > |stream| then None
      else
        var c := Chunk(kind, stream[8..8 + size]);
        if Unpack(stream[8 + size..12 + size]) != Sum(c, crc) then None else Some((c, stream[12 + size..]))
  }

  lemma ReadWhatWasWritten(c: Chunk, crc: Checksum, rest: Bytes)
    requires Writable(c)
    ensures ReadChunk(EncodeChunk(c, crc) + rest, crc) == Some((c, rest))
  {
    var stream := EncodeChunk(c, crc) + rest;
    var size := |c.data|;
    PackRoundTrip(size, 4);
    PackRoundTrip(Sum(c, crc), 4);
    assert stream[..4] == Pack(size, 4) && stream[4..8] == c.kind && stream[8..8 + size] == c.data;
    assert stream[8 + size..12 + size] == Pack(Sum(c, crc), 4) && stream[12 + size..] == rest;
  }

  lemma ReadIsWritten(stream: Bytes, crc: Checksum)
    requires ReadChunk(stream, crc).Some?
    ensures var (c, rest) := ReadChunk(stream, crc).value;
            Writable(c) && stream == EncodeChunk(c, crc) + rest && |stream| == |c.data| + 12 + |rest|
  {
    var size := Unpack(stream[..4]);
    UnpackRoundTrip(stream[..4]);
    UnpackRoundTrip(stream[8 + size..12 + size]);
    var (c, rest) := ReadChunk(stream, crc).value;
    assert stream == stream[..4] + stream[4..8] + stream[8..8 + size] + stream[8 + size..12 + size] + stream[12 + size..];
  }

  /* ---- What a chunk may be, given the chunks before it ---- */

  predicate Has(cs: seq<Chunk>, kind: Bytes) {
    exists i :: 0 <= i < |cs| && cs[i].kind == kind
  }

  /** Some chunk that is neither IDAT nor IEND stands behind the first IDAT. */
  predicate DataEnded(cs: seq<Chunk>) {
    exists i, j :: 0 <= i < j < |cs| && cs[i].kind == IDAT && cs[j].kind != IDAT && cs[j].kind != IEND
  }

  function Data(cs: seq<Chunk>): Bytes {
    if cs == [] then []
    else Data(cs[..|cs| - 1]) + if cs[|cs| - 1].kind == IDAT then cs[|cs| - 1].data else []
  }

  /** Entries of the palette, if there is one. */
  function PaletteOf(cs: seq<Chunk>): Option<nat> {
    if cs == [] then None
    else if cs[|cs| - 1].kind == PLTE then Some(|cs[|cs| - 1].data| / 3)
    else PaletteOf(cs[..|cs| - 1])
  }

  predicate Ancillary(kind: Bytes) {
    |kind| == 4 && kind[0] / 32 % 2 == 1
  }

  function PowerOfTwo(n: nat): nat {
    if n == 0 then 1 else 2 * PowerOfTwo(n - 1)
  }

  function BitDepth(header: Bytes): nat
    requires |header| == 13
  {
    header[8]
  }

  function ColorType(header: Bytes): nat
    requires |header| == 13
  {
    header[9]
  }

  predicate PaletteFine(header: Bytes, data: Bytes)
    requires |header| == 13
  {
    && 3 <= |data| <= 768 && |data| % 3 == 0 && ColorType(header) != 0 && ColorType(header) != 4
    && (ColorType(header) == 3 ==> |data| / 3 <= PowerOfTwo(BitDepth(header)))
  }

  predicate IsHeader(c: Chunk) {
    c.kind == IHDR && |c.data| == 13
  }

  /** The next chunk fits behind the chunks before it, none of which ended the stream. */
  predicate Follows(before: seq<Chunk>, c: Chunk) {
    if before == [] then IsHeader(c)
    else
      && IsHeader(before[0]) && c.kind != IHDR
      && (c.kind in {PLTE, IDAT, IEND} || Ancillary(c.kind))
      && (c.kind == PLTE ==> !Has(before, PLTE) && !Has(before, IDAT) && PaletteFine(before[0].data, c.data))
      && (c.kind == IDAT ==>
            && !DataEnded(before) && (ColorType(before[0].data) == 3 ==> Has(before, PLTE))
            && |Data(before)| + |c.data| <= MAX_COMPRESSED)
      && (c.kind == IEND ==> c.data == [] && Has(before, IDAT))
  }

  /** A whole stream: every chunk fits, and exactly the last one ends it. */
  predicate WellFormed(cs: seq<Chunk>) {
    && cs != []
    && (forall i :: 0 <= i < |cs| ==> Follows(cs[..i], cs[i]))
    && (forall i :: 0 <= i < |cs| ==> (cs[i].kind == IEND <==> i == |cs| - 1))
  }

  /* ---- The walk ---- */

  /** What the walk remembers. */
  datatype Walk = Walk(header: Option<Bytes>, compressed: Bytes, palette: Option<nat>, data: bool, closed: bool)

  const START := Walk(None, [], None, false, false)

  function Step(w: Walk, c: Chunk): Option<Walk> {
    if w.header.None? then if IsHeader(c) then Some(w.(header := Some(c.data))) else None
    else if |w.header.value| != 13 || c.kind == IHDR then None
    else if c.kind !in {PLTE, IDAT, IEND} && !Ancillary(c.kind) then None
    else if c.kind == PLTE then
      if w.palette.Some? || w.data || !PaletteFine(w.header.value, c.data) then None
      else Some(w.(palette := Some(|c.data| / 3)))
    else if c.kind == IDAT then
      if w.closed || (ColorType(w.header.value) == 3 && w.palette.None?) then None
      else if |w.compressed| + |c.data| > MAX_COMPRESSED then None
      else Some(w.(data := true, compressed := w.compressed + c.data))
    else if c.kind == IEND then if c.data != [] || !w.data then None else Some(w)
    else Some(w.(closed := w.closed || w.data))
  }

  /** The walk's memory is a summary of the chunks it has passed. */
  predicate Summary(w: Walk, cs: seq<Chunk>) {
    && w.header == (if cs == [] then None else Some(cs[0].data))
    && (cs != [] ==> IsHeader(cs[0]))
    && w.compressed == Data(cs) && (w.palette.Some? <==> Has(cs, PLTE)) && (w.data <==> Has(cs, IDAT))
    && (w.closed <==> DataEnded(cs)) && !Has(cs, IEND) && w.palette == PaletteOf(cs)
  }

  lemma HasAppend(cs: seq<Chunk>, c: Chunk, kind: Bytes)
    ensures Has(cs + [c], kind) <==> Has(cs, kind) || c.kind == kind
  {
    var all := cs + [c];
    if Has(cs, kind) {
      var i :| 0 <= i < |cs| && cs[i].kind == kind;
      assert all[i] == cs[i];
    }
    assert all[|cs|] == c;
  }

  lemma DataEndedAppend(cs: seq<Chunk>, c: Chunk)
    ensures DataEnded(cs + [c]) <==> DataEnded(cs) || (Has(cs, IDAT) && c.kind != IDAT && c.kind != IEND)
  {
    var all := cs + [c];
    if DataEnded(cs) {
      var i, j :| 0 <= i < j < |cs| && cs[i].kind == IDAT && cs[j].kind != IDAT && cs[j].kind != IEND;
      assert all[i] == cs[i] && all[j] == cs[j];
    }
    if Has(cs, IDAT) && c.kind != IDAT && c.kind != IEND {
      var i :| 0 <= i < |cs| && cs[i].kind == IDAT;
      assert all[i] == cs[i] && all[|cs|] == c;
    }
    if DataEnded(all) {
      var i, j :| 0 <= i < j < |all| && all[i].kind == IDAT && all[j].kind != IDAT && all[j].kind != IEND;
      assert cs[i].kind == IDAT;
      if j < |cs| { assert cs[j] == all[j]; }
    }
  }

  /** The walk takes a chunk exactly if it fits behind the chunks already passed. */
  lemma StepFollows(w: Walk, cs: seq<Chunk>, c: Chunk)
    requires Summary(w, cs)
    ensures Step(w, c).Some? <==> Follows(cs, c)
  {
  }

  lemma StepSummary(w: Walk, cs: seq<Chunk>, c: Chunk)
    requires Summary(w, cs) && Follows(cs, c) && c.kind != IEND && Step(w, c).Some?
    ensures Summary(Step(w, c).value, cs + [c])
  {
    HasAppend(cs, c, PLTE);
    HasAppend(cs, c, IDAT);
    HasAppend(cs, c, IEND);
    DataEndedAppend(cs, c);
    var all := cs + [c];
    assert all[..|all| - 1] == cs && all[|cs|] == c;
  }

  /** The walk over a stream: it succeeds when the stream ends with the chunk that ends it. */
  function WalkAll(stream: Bytes, crc: Checksum, w: Walk): Option<Walk>
    decreases |stream|
  {
    match ReadChunk(stream, crc)
    case None => None
    case Some((c, rest)) =>
      match Step(w, c)
      case None => None
      case Some(next) =>
        if c.kind == IEND then if rest == [] then Some(next) else None
        else WalkAll(rest, crc, next)
  }

  /** `cs` completes the chunks before it to a whole stream. */
  predicate Completes(before: seq<Chunk>, cs: seq<Chunk>)
    decreases |cs|
  {
    && cs != [] && Writable(cs[0]) && Follows(before, cs[0])
    && if cs[0].kind == IEND then |cs| == 1 else Completes(before + [cs[0]], cs[1..])
  }

  /** What the walk knows of a stream it has accepted. */
  predicate Knows(w: Walk, cs: seq<Chunk>) {
    && cs != [] && IsHeader(cs[0])
    && w.header == Some(cs[0].data) && w.compressed == Data(cs) && w.palette == PaletteOf(cs)
  }

  lemma EndKnows(w: Walk, cs: seq<Chunk>, c: Chunk)
    requires Summary(w, cs) && Follows(cs, c) && c.kind == IEND
    ensures Step(w, c) == Some(w) && Knows(w, cs + [c])
  {
    var all := cs + [c];
    assert all[..|all| - 1] == cs && all[|cs|] == c;
    assert Data(cs) + [] == Data(cs);
    if cs != [] { assert all[0] == cs[0]; }
  }

  lemma CompletesMore(before: seq<Chunk>, c: Chunk, later: seq<Chunk>, crc: Checksum)
    requires Writable(c) && Follows(before, c) && c.kind != IEND && Completes(before + [c], later)
    ensures Completes(before, [c] + later) && before + [c] + later == before + ([c] + later)
    ensures EncodeAll([c] + later, crc) == EncodeChunk(c, crc) + EncodeAll(later, crc)
  {
    var cs := [c] + later;
    assert cs[0] == c && cs[1..] == later;
    assert before + [c] + later == before + cs;
  }

  lemma CompletesLast(before: seq<Chunk>, c: Chunk, crc: Checksum)
    requires Writable(c) && Follows(before, c) && c.kind == IEND
    ensures Completes(before, [c]) && EncodeAll([c], crc) == EncodeChunk(c, crc)
  {
    assert [c][1..] == [] && EncodeChunk(c, crc) + [] == EncodeChunk(c, crc);
  }

  lemma WalkEnds(w: Walk, before: seq<Chunk>, c: Chunk, crc: Checksum)
    requires Summary(w, before) && Writable(c) && Follows(before, c) && c.kind == IEND
    ensures var r := WalkAll(EncodeChunk(c, crc) + [], crc, w); r.Some? && Knows(r.value, before + [c])
  {
    ReadWhatWasWritten(c, crc, []);
    EndKnows(w, before, c);
  }

  lemma WalkGoesOn(w: Walk, before: seq<Chunk>, c: Chunk, later: Bytes, crc: Checksum) returns (next: Walk)
    requires Summary(w, before) && Writable(c) && Follows(before, c) && c.kind != IEND
    ensures Summary(next, before + [c])
    ensures WalkAll(EncodeChunk(c, crc) + later, crc, w) == WalkAll(later, crc, next)
  {
    ReadWhatWasWritten(c, crc, later);
    StepFollows(w, before, c);
    StepSummary(w, before, c);
    next := Step(w, c).value;
  }

  /** An accepted stream starts with a written chunk that fits. */
  lemma WalkStarts(stream: Bytes, crc: Checksum, w: Walk, before: seq<Chunk>) returns (c: Chunk, rest: Bytes)
    requires Summary(w, before) && WalkAll(stream, crc, w).Some?
    ensures Writable(c) && Follows(before, c) && stream == EncodeChunk(c, crc) + rest && |rest| < |stream|
    ensures c.kind == IEND ==> rest == []
  {
    var (first, later) := ReadChunk(stream, crc).value;
    c, rest := first, later;
    ReadIsWritten(stream, crc);
    StepFollows(w, before, c);
  }

  /** Every accepted stream is the written form of chunks that complete those already passed. */
  lemma {:induction false} WalkSound(stream: Bytes, crc: Checksum, w: Walk, before: seq<Chunk>, r: Walk) returns (cs: seq<Chunk>)
    requires Summary(w, before) && WalkAll(stream, crc, w) == Some(r)
    ensures stream == EncodeAll(cs, crc) && Completes(before, cs) && Knows(r, before + cs)
    decreases |stream|
  {
    var c, rest := WalkStarts(stream, crc, w, before);
    if c.kind == IEND {
      cs := [c];
      WalkEnds(w, before, c, crc);
      CompletesLast(before, c, crc);
    } else {
      var next := WalkGoesOn(w, before, c, rest, crc);
      var later := WalkSound(rest, crc, next, before + [c], r);
      cs := [c] + later;
      CompletesMore(before, c, later, crc);
    }
  }

  lemma CompletesStarts(before: seq<Chunk>, cs: seq<Chunk>, crc: Checksum) returns (c: Chunk, later: seq<Chunk>)
    requires Completes(before, cs)
    ensures |later| < |cs| && Writable(c) && Follows(before, c) && before + cs == before + [c] + later
    ensures EncodeAll(cs, crc) == EncodeChunk(c, crc) + EncodeAll(later, crc)
    ensures if c.kind == IEND then later == [] else Completes(before + [c], later)
  {
    c, later := cs[0], cs[1..];
    assert cs == [c] + later;
  }

  /** The written form of any completing chunks is accepted. */
  lemma {:induction false} WalkComplete(cs: seq<Chunk>, crc: Checksum, w: Walk, before: seq<Chunk>)
    requires Summary(w, before) && Completes(before, cs)
    ensures var r := WalkAll(EncodeAll(cs, crc), crc, w); r.Some? && Knows(r.value, before + cs)
    decreases |cs|
  {
    var c, later := CompletesStarts(before, cs, crc);
    if c.kind == IEND {
      WalkEnds(w, before, c, crc);
      assert before + cs == before + [c];
    } else {
      var next := WalkGoesOn(w, before, c, EncodeAll(later, crc), crc);
      WalkComplete(later, crc, next, before + [c]);
    }
  }

  predicate AllFollow(before: seq<Chunk>, cs: seq<Chunk>) {
    forall i :: 0 <= i < |cs| ==> Writable(cs[i]) && Follows(before + cs[..i], cs[i])
  }

  predicate EndsOnce(cs: seq<Chunk>) {
    forall i :: 0 <= i < |cs| ==> (cs[i].kind == IEND <==> i == |cs| - 1)
  }

  lemma AllFollowStep(before: seq<Chunk>, cs: seq<Chunk>)
    requires cs != []
    ensures AllFollow(before, cs) <==> Writable(cs[0]) && Follows(before, cs[0]) && AllFollow(before + [cs[0]], cs[1..])
  {
    var c, rest := cs[0], cs[1..];
    assert before + cs[..0] == before;
    forall i | 0 <= i < |rest| ensures before + [c] + rest[..i] == before + cs[..i + 1] && rest[i] == cs[i + 1] {
      assert cs[..i + 1] == [c] + rest[..i];
    }
    if Writable(c) && Follows(before, c) && AllFollow(before + [c], rest) {
      forall i | 0 <= i < |cs| ensures Writable(cs[i]) && Follows(before + cs[..i], cs[i]) {
        if i > 0 { assert before + [c] + rest[..i - 1] == before + cs[..i] && rest[i - 1] == cs[i]; }
      }
    }
  }

  lemma EndsOnceStep(cs: seq<Chunk>)
    requires cs != []
    ensures EndsOnce(cs) <==> if |cs| == 1 then cs[0].kind == IEND else cs[0].kind != IEND && EndsOnce(cs[1..])
  {
    assert forall i :: 0 < i < |cs| ==> cs[i] == cs[1..][i - 1];
  }

  /** Chunk by chunk or all at once: the same streams are whole. */
  lemma {:induction false} CompletesExactly(before: seq<Chunk>, cs: seq<Chunk>)
    ensures Completes(before, cs) <==> cs != [] && AllFollow(before, cs) && EndsOnce(cs)
    decreases |cs|
  {
    if cs != [] {
      AllFollowStep(before, cs);
      EndsOnceStep(cs);
      CompletesExactly(before + [cs[0]], cs[1..]);
      if |cs| == 1 { assert cs[1..] == [] && AllFollow(before + [cs[0]], []); }
    }
  }

  predicate AllWritable(cs: seq<Chunk>) {
    forall i :: 0 <= i < |cs| ==> Writable(cs[i])
  }

  lemma WholeStreams(cs: seq<Chunk>)
    ensures Completes([], cs) <==> WellFormed(cs) && AllWritable(cs)
  {
    CompletesExactly([], cs);
    assert forall i :: 0 <= i < |cs| ==> [] + cs[..i] == cs[..i];
  }

  /* ---- The verdict ---- */

  type Inflate = (Bytes, nat) -> Option<seq<nat>>

  predicate DepthFine(color: nat, depth: nat) {
    match color
    case 0 => depth in {1, 2, 4, 8, 16}
    case 2 => depth in {8, 16}
    case 3 => depth in {1, 2, 4, 8}
    case 4 => depth in {8, 16}
    case 6 => depth in {8, 16}
    case _ => false
  }

  function Channels(color: nat): nat {
    match color case 2 => 3 case 4 => 2 case 6 => 4 case _ => 1
  }

  function ImageWidth(header: Bytes): nat
    requires |header| == 13
  {
    Unpack(header[..4])
  }

  function ImageHeight(header: Bytes): nat
    requires |header| == 13
  {
    Unpack(header[4..8])
  }

  predicate HeaderFine(header: Bytes, palette: Option<nat>) {
    && |header| == 13 && ImageWidth(header) >= 1 && ImageHeight(header) >= 1
    && DepthFine(ColorType(header), BitDepth(header)) && header[10] == 0 && header[11] == 0 && header[12] <= 1
    && (ColorType(header) == 3 ==> palette.Some? && palette.value >= 1)
  }

  function ShapesOf(header: Bytes): seq<Shape>
    requires |header| == 13
  {
    RowShapes(ImageWidth(header), ImageHeight(header), Channels(ColorType(header)) * BitDepth(header), header[12] == 1)
  }

  /** The decompressed data has exactly the expected size, and every row starts with a filter type. */
  predicate ImageFine(header: Bytes, palette: Option<nat>, compressed: Bytes, inflate: Inflate) {
    && HeaderFine(header, palette)
    && var shapes := ShapesOf(header);
       && ExpectedSize(shapes) <= MAX_DECODED
       && var decoded := inflate(compressed, ExpectedSize(shapes));
          decoded.Some? && |decoded.value| == ExpectedSize(shapes) && FiltersValid(decoded.value, shapes)
  }

  /** The payload is the written form of a whole stream that shows a complete image. */
  predicate Shows(payload: Bytes, cs: seq<Chunk>, crc: Checksum, inflate: Inflate) {
    && payload == SIGNATURE + EncodeAll(cs, crc) && WellFormed(cs) && AllWritable(cs)
    && |cs[0].data| == 13 && ImageFine(cs[0].data, PaletteOf(cs), Data(cs), inflate)
  }

  method WalkChunks(stream: Bytes, crc: Checksum) returns (w: Option<Walk>)
    ensures w == WalkAll(stream, crc, START)
  {
    var walk, rest := START, stream;
    while true
      invariant WalkAll(rest, crc, walk) == WalkAll(stream, crc, START)
      decreases |rest|
    {
      var read := ReadChunk(rest, crc);
      if read == None { return None; }
      var (c, later) := read.value;
      ReadIsWritten(rest, crc);
      var next := Step(walk, c);
      if next == None { return None; }
      if c.kind == IEND { return if later == [] then next else None; }
      walk, rest := next.value, later;
    }
  }

  /** The checks behind the walk, and the scan of the decoded rows. */
  method Judge(header: Bytes, palette: Option<nat>, compressed: Bytes, inflate: Inflate) returns (ok: bool)
    ensures ok <==> ImageFine(header, palette, compressed, inflate)
  {
    if !HeaderFine(header, palette) { return false; }
    var bits := Channels(ColorType(header)) * BitDepth(header);
    var shapes := BuildRowShapes(ImageWidth(header), ImageHeight(header), bits, header[12] == 1);
    var expected := ExpectedSize(shapes);
    if expected > MAX_DECODED { return false; }
    var decoded := inflate(compressed, expected);
    if decoded == None || |decoded.value| != expected { return false; }
    var end: nat;
    ok, end := ScanFilters(decoded.value, shapes);
  }

  lemma {:induction false} EncodedSize(cs: seq<Chunk>, crc: Checksum)
    requires AllWritable(cs)
    ensures |EncodeAll(cs, crc)| >= 12 * |cs| + if cs == [] then 0 else |cs[0].data|
    decreases |cs|
  {
    if cs != [] {
      EncodedSize(cs[1..], crc);
      assert Writable(cs[0]) && |EncodeChunk(cs[0], crc)| == 12 + |cs[0].data|;
    }
  }

  /** A whole stream has a header, image data and an end, so it is never as short as the size check. */
  lemma WholeIsLong(payload: Bytes, cs: seq<Chunk>, crc: Checksum)
    requires payload == SIGNATURE + EncodeAll(cs, crc) && WellFormed(cs) && AllWritable(cs)
    ensures |payload| >= 45 && payload[..8] == SIGNATURE && payload[8..] == EncodeAll(cs, crc)
  {
    var last := |cs| - 1;
    assert Follows(cs[..0], cs[0]) && Follows(cs[..last], cs[last]);
    var i :| 0 <= i < last && cs[..last][i].kind == IDAT;
    assert cs[i] == cs[..last][i];
    EncodedSize(cs, crc);
  }

  lemma WalkFromStart(payload: Bytes, crc: Checksum) returns (cs: seq<Chunk>)
    requires WalkAll(payload, crc, START).Some?
    ensures payload == EncodeAll(cs, crc) && WellFormed(cs) && AllWritable(cs) && Knows(WalkAll(payload, crc, START).value, cs)
  {
    cs := WalkSound(payload, crc, START, [], WalkAll(payload, crc, START).value);
    WholeStreams(cs);
    assert [] + cs == cs;
  }

  lemma StartOfWalk(cs: seq<Chunk>, crc: Checksum)
    requires WellFormed(cs) && AllWritable(cs)
    ensures var r := WalkAll(EncodeAll(cs, crc), crc, START); r.Some? && Knows(r.value, cs)
  {
    WholeStreams(cs);
    WalkComplete(cs, crc, START, []);
    assert [] + cs == cs;
  }

  /** Dimensions are returned exactly for payloads that show an image, and they are its header's. */
  method PngDimensions(payload: Bytes, crc: Checksum, inflate: Inflate) returns (r: Option<(nat, nat)>)
    ensures r.Some? <==> exists cs: seq<Chunk> :: Shows(payload, cs, crc, inflate)
    ensures r.Some? ==> forall cs: seq<Chunk> :: Shows(payload, cs, crc, inflate) ==> r == Some((ImageWidth(cs[0].data), ImageHeight(cs[0].data)))
  {
    forall cs: seq<Chunk> | Shows(payload, cs, crc, inflate)
      ensures |payload| >= 45 && payload[..8] == SIGNATURE
      ensures var w := WalkAll(payload[8..], crc, START); w.Some? && Knows(w.value, cs)
    {
      WholeIsLong(payload, cs, crc);
      StartOfWalk(cs, crc);
    }
    if |payload| < 45 || payload[..8] != SIGNATURE { return None; }
    var walk := WalkChunks(payload[8..], crc);
    if walk == None { return None; }
    ghost var cs := WalkFromStart(payload[8..], crc);
    assert payload == SIGNATURE + payload[8..];
    var w := walk.value;
    var ok := Judge(w.header.value, w.palette, w.compressed, inflate);
    if !ok { return None; }
    assert Shows(payload, cs, crc, inflate);
    r := Some((ImageWidth(w.header.value), ImageHeight(w.header.value)));
  }
}
