/** How the decoded bytes of a PNG are laid out: the seven Adam7 passes and the filter bytes
    in front of every row (sections 8.2 and 9 of ISO/IEC 15948). */
module PngLayout {

  datatype Pass = Pass(x0: nat, y0: nat, dx: nat, dy: nat)

  const ADAM7: seq<Pass> := [
    Pass(0, 0, 8, 8), Pass(4, 0, 8, 8), Pass(0, 4, 4, 8), Pass(2, 0, 4, 4),
    Pass(0, 2, 2, 4), Pass(1, 0, 2, 2), Pass(0, 1, 1, 2)]

  /** How many of the positions start, start + step, ... lie below `size`. */
  function PassExtent(size: nat, start: nat, step: nat): nat
    requires step > 0
  {
    if size <= start then 0 else (size - start + step - 1) / step
  }

  predicate OnLine(x: nat, start: nat, step: nat)
    requires step > 0
  {
    x >= start && (x - start) % step == 0
  }

  predicate InPass(x: nat, y: nat, p: Pass)
    requires p.dx > 0 && p.dy > 0
  {
    OnLine(x, p.x0, p.dx) && OnLine(y, p.y0, p.dy)
  }

  /* ---- Arithmetic ---- */

  lemma DivMod(a: nat, d: nat)
    requires d > 0
    ensures a == (a / d) * d + a % d
  {
  }

  lemma {:induction false} Scale(a: nat, b: nat, n: nat)
    requires a <= b
    ensures a * n <= b * n
  {
    if n > 0 { Scale(a, b, n - 1); }
  }

  lemma {:induction false} MultipleOf(n: nat, step: nat)
    requires step > 0
    ensures (n * step) % step == 0
  {
    if n > 0 {
      MultipleOf(n - 1, step);
      var m := (n - 1) * step;
      assert n * step == m + step;
      AddStep(m, step);
    }
  }

  lemma AddStep(m: nat, step: nat)
    requires step > 0 && m % step == 0
    ensures (m + step) % step == 0
  {
    DivMod(m, step);
    DivMod(m + step, step);
    var r := (m + step) % step;
    var k: int := (m + step) / step - m / step - 1;
    assert k * step + r == 0;
    if k >= 0 { Scale(0, k, step); } else { Scale(1, -k, step); }
  }

  /* ---- Every pixel is in exactly one pass ---- */

  /** The pass of a pixel, read off its place in an eight by eight tile. */
  function PassOf(x: nat, y: nat): (k: nat)
    ensures k < 7
  {
    if y % 2 == 1 then 6 else if x % 2 == 1 then 5 else if y % 4 == 2 then 4
    else if x % 4 == 2 then 3 else if y % 8 == 4 then 2 else if x % 8 == 4 then 1 else 0
  }

  lemma Lines(x: nat)
    ensures OnLine(x, 0, 8) <==> x % 8 == 0
    ensures OnLine(x, 4, 8) <==> x % 8 == 4
    ensures OnLine(x, 0, 4) <==> x % 8 in {0, 4}
    ensures OnLine(x, 2, 4) <==> x % 8 in {2, 6}
    ensures OnLine(x, 0, 2) <==> x % 8 in {0, 2, 4, 6}
    ensures OnLine(x, 1, 2) <==> x % 8 in {1, 3, 5, 7}
    ensures OnLine(x, 0, 1)
    ensures x % 2 == 1 <==> x % 8 in {1, 3, 5, 7}
    ensures x % 4 == 2 <==> x % 8 in {2, 6}
  {
  }

  lemma EveryPixelOnce(x: nat, y: nat, k: nat)
    requires k < 7
    ensures InPass(x, y, ADAM7[k]) <==> k == PassOf(x, y)
  {
    Lines(x);
    Lines(y);
    match k
    case 0 => assert ADAM7[k] == Pass(0, 0, 8, 8);
    case 1 => assert ADAM7[k] == Pass(4, 0, 8, 8);
    case 2 => assert ADAM7[k] == Pass(0, 4, 4, 8);
    case 3 => assert ADAM7[k] == Pass(2, 0, 4, 4);
    case 4 => assert ADAM7[k] == Pass(0, 2, 2, 4);
    case 5 => assert ADAM7[k] == Pass(1, 0, 2, 2);
    case 6 => assert ADAM7[k] == Pass(0, 1, 1, 2);
  }

  /** The columns of a pass are exactly the first `PassExtent` positions of its line. */
  lemma ExtentCounts(size: nat, start: nat, step: nat, n: nat)
    requires step > 0
    ensures n < PassExtent(size, start, step) <==> start + n * step < size
  {
    Scale(0, n, step);
    if size > start {
      var e := PassExtent(size, start, step);
      DivMod(size - start + step - 1, step);
      if n < e {
        Scale(n + 1, e, step);
        assert (n + 1) * step == n * step + step;
      } else {
        Scale(e, n, step);
      }
    }
  }

  /** Pixels of a pass and pixels of the image on its lines correspond one to one. */
  lemma PassPixels(size: nat, start: nat, step: nat, x: nat)
    requires step > 0
    ensures x < size && OnLine(x, start, step) <==>
            exists n: nat :: n < PassExtent(size, start, step) && x == start + n * step
  {
    if x < size && OnLine(x, start, step) {
      var n := (x - start) / step;
      DivMod(x - start, step);
      ExtentCounts(size, start, step, n);
    }
    if n: nat :| n < PassExtent(size, start, step) && x == start + n * step {
      ExtentCounts(size, start, step, n);
      Scale(0, n, step);
      MultipleOf(n, step);
      assert x - start == n * step;
    }
  }

  /** Column `col` of row `row` in pass `k` is pixel (x, y). */
  predicate HoldsPixel(width: nat, height: nat, k: nat, col: nat, row: nat, x: nat, y: nat)
    requires k < 7
  {
    var pass := ADAM7[k];
    && col < PassExtent(width, pass.x0, pass.dx) && x == pass.x0 + col * pass.dx
    && row < PassExtent(height, pass.y0, pass.dy) && y == pass.y0 + row * pass.dy
  }

  lemma ScaleStrictly(a: nat, b: nat, step: nat)
    requires a < b && step > 0
    ensures a * step < b * step
  {
    Scale(a + 1, b, step);
    assert (a + 1) * step == a * step + step;
  }

  lemma SameColumn(a: nat, b: nat, step: nat)
    requires step > 0 && a * step == b * step
    ensures a == b
  {
    if a < b { ScaleStrictly(a, b, step); }
    if b < a { ScaleStrictly(b, a, step); }
  }

  /** Every pixel of the image has one place in the seven passes, and pixels outside have none. */
  lemma PixelHasOnePlace(width: nat, height: nat, x: nat, y: nat)
    ensures x < width && y < height <==> exists k, col, row :: 0 <= k < 7 && HoldsPixel(width, height, k, col, row, x, y)
    ensures forall k, col, row, k', col', row' ::
              0 <= k < 7 && 0 <= k' < 7 && HoldsPixel(width, height, k, col, row, x, y) && HoldsPixel(width, height, k', col', row', x, y) ==>
                k == k' && col == col' && row == row'
  {
    if x < width && y < height { var col, row := PlaceOf(width, height, x, y); }
    forall k, col, row | 0 <= k < 7 && HoldsPixel(width, height, k, col, row, x, y) ensures k == PassOf(x, y) && x < width && y < height {
      PlaceIsInPass(width, height, k, col, row, x, y);
    }
    forall k, col, row, k', col', row' |
      0 <= k < 7 && 0 <= k' < 7 && HoldsPixel(width, height, k, col, row, x, y) && HoldsPixel(width, height, k', col', row', x, y)
      ensures k == k' && col == col' && row == row'
    {
      SameColumn(col, col', ADAM7[k].dx);
      SameColumn(row, row', ADAM7[k].dy);
    }
  }

  lemma PlaceOf(width: nat, height: nat, x: nat, y: nat) returns (col: nat, row: nat)
    requires x < width && y < height
    ensures HoldsPixel(width, height, PassOf(x, y), col, row, x, y)
  {
    var k := PassOf(x, y);
    EveryPixelOnce(x, y, k);
    var pass := ADAM7[k];
    PassPixels(width, pass.x0, pass.dx, x);
    PassPixels(height, pass.y0, pass.dy, y);
    col :| col < PassExtent(width, pass.x0, pass.dx) && x == pass.x0 + col * pass.dx;
    row :| row < PassExtent(height, pass.y0, pass.dy) && y == pass.y0 + row * pass.dy;
  }

  lemma PlaceIsInPass(width: nat, height: nat, k: nat, col: nat, row: nat, x: nat, y: nat)
    requires k < 7 && HoldsPixel(width, height, k, col, row, x, y)
    ensures k == PassOf(x, y) && x < width && y < height
  {
    var pass := ADAM7[k];
    PassPixels(width, pass.x0, pass.dx, x);
    PassPixels(height, pass.y0, pass.dy, y);
    EveryPixelOnce(x, y, k);
  }

  /* ---- The passes together have as many pixels as the image ---- */

  function PassPixelCount(width: nat, height: nat, p: Pass): nat
    requires p.dx > 0 && p.dy > 0
  {
    PassExtent(width, p.x0, p.dx) * PassExtent(height, p.y0, p.dy)
  }

  function TotalPixels(width: nat, height: nat, k: nat): nat
    requires k <= 7
    decreases 7 - k
  {
    if k == 7 then 0 else PassPixelCount(width, height, ADAM7[k]) + TotalPixels(width, height, k + 1)
  }

  /** A line of step `step` is the union of two lines of twice the step. */
  lemma Halve(size: nat, step: nat)
    requires step in {1, 2, 4}
    ensures PassExtent(size, 0, step) == PassExtent(size, 0, 2 * step) + PassExtent(size, step, 2 * step)
  {
    DivMod(size, 2 * step);
    HalveTile(size / (2 * step), size % (2 * step), step);
  }

  lemma HalveTile(q: nat, r: nat, step: nat)
    requires step in {1, 2, 4} && r < 2 * step
    ensures var size := q * (2 * step) + r;
            PassExtent(size, 0, step) == PassExtent(size, 0, 2 * step) + PassExtent(size, step, 2 * step)
  {
    var size := q * (2 * step) + r;
    var whole, even, odd := (if r == 0 then 0 else if r <= step then 1 else 2), if r == 0 then 0 else 1, if r <= step then 0 else 1;
    match step {
      case 1 => assert size == 2 * q + r;
      case 2 => assert size == 4 * q + r;
      case _ => assert size == 8 * q + r;
    }
    assert PassExtent(size, 0, step) == 2 * q + whole;
    assert PassExtent(size, 0, 2 * step) == q + even;
    assert PassExtent(size, step, 2 * step) == q + odd;
  }

  lemma SplitProduct(a: nat, b: nat, c: nat, n: nat)
    requires a == b + c
    ensures a * n == b * n + c * n && n * a == n * b + n * c
  {
  }

  lemma PassesCoverImage(width: nat, height: nat)
    ensures TotalPixels(width, height, 0) == width * height
  {
    var x1, x2, x4, x8 := PassExtent(width, 0, 1), PassExtent(width, 0, 2), PassExtent(width, 0, 4), PassExtent(width, 0, 8);
    var y1, y2, y4, y8 := PassExtent(height, 0, 1), PassExtent(height, 0, 2), PassExtent(height, 0, 4), PassExtent(height, 0, 8);
    assert x1 == width && y1 == height;
    Halve(height, 1); SplitProduct(y1, y2, PassExtent(height, 1, 2), x1);
    Halve(width, 1);  SplitProduct(x1, x2, PassExtent(width, 1, 2), y2);
    Halve(height, 2); SplitProduct(y2, y4, PassExtent(height, 2, 4), x2);
    Halve(width, 2);  SplitProduct(x2, x4, PassExtent(width, 2, 4), y4);
    Halve(height, 4); SplitProduct(y4, y8, PassExtent(height, 4, 8), x4);
    Halve(width, 4);  SplitProduct(x4, x8, PassExtent(width, 4, 8), y8);
    SumOfSeven(width, height);
  }

  lemma SumOfSeven(width: nat, height: nat)
    ensures TotalPixels(width, height, 0) ==
            PassPixelCount(width, height, Pass(0, 0, 8, 8)) + PassPixelCount(width, height, Pass(4, 0, 8, 8)) +
            PassPixelCount(width, height, Pass(0, 4, 4, 8)) + PassPixelCount(width, height, Pass(2, 0, 4, 4)) +
            PassPixelCount(width, height, Pass(0, 2, 2, 4)) + PassPixelCount(width, height, Pass(1, 0, 2, 2)) +
            PassPixelCount(width, height, Pass(0, 1, 1, 2))
  {
    assert TotalPixels(width, height, 6) == PassPixelCount(width, height, ADAM7[6]);
    assert TotalPixels(width, height, 4) ==
           PassPixelCount(width, height, ADAM7[4]) + PassPixelCount(width, height, ADAM7[5]) + TotalPixels(width, height, 6);
    assert TotalPixels(width, height, 2) ==
           PassPixelCount(width, height, ADAM7[2]) + PassPixelCount(width, height, ADAM7[3]) + TotalPixels(width, height, 4);
  }

  /* ---- Rows ---- */

  /** A group of equally long rows, each led by one filter byte. */
  datatype Shape = Shape(rows: nat, rowBytes: nat)

  function RowBytes(pixels: nat, bits: nat): (bytes: nat)
  {
    (pixels * bits + 7) / 8
  }

  /** An empty pass has no rows at all. */
  function PassShape(width: nat, height: nat, bits: nat, p: Pass): seq<Shape>
    requires p.dx > 0 && p.dy > 0
  {
    var w := PassExtent(width, p.x0, p.dx);
    var h := PassExtent(height, p.y0, p.dy);
    if w > 0 && h > 0 then [Shape(h, RowBytes(w, bits))] else []
  }

  /** The shapes of the passes from the k-th on. */
  function PassShapes(width: nat, height: nat, bits: nat, k: nat): seq<Shape>
    requires k <= 7
    decreases 7 - k
  {
    if k == 7 then [] else PassShape(width, height, bits, ADAM7[k]) + PassShapes(width, height, bits, k + 1)
  }

  function RowShapes(width: nat, height: nat, bits: nat, interlaced: bool): seq<Shape> {
    if interlaced then PassShapes(width, height, bits, 0) else [Shape(height, RowBytes(width, bits))]
  }

  function ShapeSize(s: Shape): nat {
    s.rows * (s.rowBytes + 1)
  }

  function ExpectedSize(shapes: seq<Shape>): nat {
    if shapes == [] then 0 else ShapeSize(shapes[0]) + ExpectedSize(shapes[1..])
  }

  /** Where row `row` of group `group` starts. */
  function RowStart(shapes: seq<Shape>, group: nat, row: nat): nat
    requires group < |shapes|
  {
    ExpectedSize(shapes[..group]) + row * (shapes[group].rowBytes + 1)
  }

  lemma {:induction false} SizeAppends(a: seq<Shape>, b: seq<Shape>)
    ensures ExpectedSize(a + b) == ExpectedSize(a) + ExpectedSize(b)
  {
    if a == [] {
      assert a + b == b;
    } else {
      assert (a + b)[1..] == a[1..] + b;
      SizeAppends(a[1..], b);
    }
  }

  lemma GroupEnds(shapes: seq<Shape>, group: nat)
    requires group < |shapes|
    ensures ExpectedSize(shapes[..group + 1]) == ExpectedSize(shapes[..group]) + ShapeSize(shapes[group])
    ensures ExpectedSize(shapes[..group + 1]) <= ExpectedSize(shapes)
  {
    assert shapes[..group + 1] == shapes[..group] + [shapes[group]];
    SizeAppends(shapes[..group], [shapes[group]]);
    assert shapes == shapes[..group + 1] + shapes[group + 1..];
    SizeAppends(shapes[..group + 1], shapes[group + 1..]);
  }

  /** A row and its filter byte lie inside the decoded bytes. */
  lemma RowInBounds(shapes: seq<Shape>, group: nat, row: nat)
    requires group < |shapes| && row < shapes[group].rows
    ensures RowStart(shapes, group, row) + shapes[group].rowBytes + 1 <= ExpectedSize(shapes[..group + 1]) <= ExpectedSize(shapes)
  {
    GroupEnds(shapes, group);
    var n := shapes[group].rowBytes + 1;
    Scale(row + 1, shapes[group].rows, n);
    assert (row + 1) * n == row * n + n;
  }

  lemma {:induction false} SizeGrows(shapes: seq<Shape>, a: nat, b: nat)
    requires a <= b <= |shapes|
    ensures ExpectedSize(shapes[..a]) <= ExpectedSize(shapes[..b])
    decreases b - a
  {
    if a < b {
      GroupEnds(shapes, b - 1);
      SizeGrows(shapes, a, b - 1);
    }
  }

  /** Rows never overlap: a row that comes later starts where or after the earlier one ends. */
  lemma RowsDisjoint(shapes: seq<Shape>, g: nat, r: nat, g': nat, r': nat)
    requires g < |shapes| && r < shapes[g].rows
    requires g' < |shapes| && r' < shapes[g'].rows
    requires g < g' || (g == g' && r < r')
    ensures RowStart(shapes, g, r) + shapes[g].rowBytes + 1 <= RowStart(shapes, g', r')
  {
    RowInBounds(shapes, g, r);
    if g < g' {
      SizeGrows(shapes, g + 1, g');
    } else {
      var n := shapes[g].rowBytes + 1;
      Scale(r + 1, r', n);
      assert (r + 1) * n == r * n + n;
    }
  }

  /** Every decoded byte belongs to a row. */
  lemma {:induction false} RowsTile(shapes: seq<Shape>, offset: nat)
    requires offset < ExpectedSize(shapes)
    ensures exists g, r :: 0 <= g < |shapes| && 0 <= r < shapes[g].rows &&
              RowStart(shapes, g, r) <= offset < RowStart(shapes, g, r) + shapes[g].rowBytes + 1
    decreases |shapes|
  {
    var last := |shapes| - 1;
    GroupEnds(shapes, last);
    assert shapes[..last + 1] == shapes;
    var before := shapes[..last];
    if offset < ExpectedSize(before) {
      RowsTile(before, offset);
      var g, r :| 0 <= g < |before| && 0 <= r < before[g].rows &&
        RowStart(before, g, r) <= offset < RowStart(before, g, r) + before[g].rowBytes + 1;
      assert before[..g] == shapes[..g] && before[g] == shapes[g];
      assert RowStart(shapes, g, r) == RowStart(before, g, r);
    } else {
      var n := shapes[last].rowBytes + 1;
      var r := (offset - ExpectedSize(before)) / n;
      var m := (offset - ExpectedSize(before)) % n;
      DivMod(offset - ExpectedSize(before), n);
      if r >= shapes[last].rows { Scale(shapes[last].rows, r, n); }
      assert RowStart(shapes, last, r) <= offset < RowStart(shapes, last, r) + n;
    }
  }

  /** A row is just long enough for its pixels. */
  lemma RowFitsPixels(pixels: nat, bits: nat)
    ensures 8 * RowBytes(pixels, bits) >= pixels * bits > 8 * RowBytes(pixels, bits) - 8
  {
  }

  /* ---- The two loops ---- */

  lemma Regroup(a: seq<Shape>, b: seq<Shape>, c: seq<Shape>)
    ensures a + (b + c) == a + b + c
  {
  }

  method BuildRowShapes(width: nat, height: nat, bits: nat, interlaced: bool) returns (shapes: seq<Shape>)
    ensures shapes == RowShapes(width, height, bits, interlaced)
  {
    if !interlaced { return [Shape(height, RowBytes(width, bits))]; }
    shapes := [];
    var k := 0;
    while k < 7
      invariant k <= 7 && shapes + PassShapes(width, height, bits, k) == PassShapes(width, height, bits, 0)
    {
      Regroup(shapes, PassShape(width, height, bits, ADAM7[k]), PassShapes(width, height, bits, k + 1));
      shapes := shapes + PassShape(width, height, bits, ADAM7[k]);
      k := k + 1;
    }
  }

  predicate GroupValid(decoded: seq<nat>, shapes: seq<Shape>, g: nat, rows: nat)
    requires |decoded| == ExpectedSize(shapes) && g < |shapes| && rows <= shapes[g].rows
  {
    forall r :: 0 <= r < rows ==> (RowInBounds(shapes, g, r); decoded[RowStart(shapes, g, r)] <= 4)
  }

  lemma NextRow(shapes: seq<Shape>, g: nat, r: nat)
    requires g < |shapes|
    ensures RowStart(shapes, g, r + 1) == RowStart(shapes, g, r) + shapes[g].rowBytes + 1
  {
    var n := shapes[g].rowBytes + 1;
    assert (r + 1) * n == r * n + n;
  }

  /** Looks at exactly the first byte of every row of one group, and ends behind the last. */
  method ScanGroup(decoded: seq<nat>, shapes: seq<Shape>, g: nat) returns (ok: bool, offset: nat)
    requires |decoded| == ExpectedSize(shapes) && g < |shapes|
    ensures ok <==> GroupValid(decoded, shapes, g, shapes[g].rows)
    ensures ok ==> offset == ExpectedSize(shapes[..g + 1])
  {
    offset := ExpectedSize(shapes[..g]);
    var n := 0;
    while n < shapes[g].rows
      invariant n <= shapes[g].rows && offset == RowStart(shapes, g, n) && GroupValid(decoded, shapes, g, n)
    {
      RowInBounds(shapes, g, n);
      if decoded[offset] > 4 { return false, offset; }
      offset := offset + shapes[g].rowBytes + 1;
      NextRow(shapes, g, n);
      n := n + 1;
    }
    GroupEnds(shapes, g);
    ok := true;
  }

  predicate FiltersValid(decoded: seq<nat>, shapes: seq<Shape>)
    requires |decoded| == ExpectedSize(shapes)
  {
    forall g :: 0 <= g < |shapes| ==> GroupValid(decoded, shapes, g, shapes[g].rows)
  }

  /** Looks at exactly the first byte of every row, and ends behind the last row. */
  method ScanFilters(decoded: seq<nat>, shapes: seq<Shape>) returns (ok: bool, offset: nat)
    requires |decoded| == ExpectedSize(shapes)
    ensures ok <==> FiltersValid(decoded, shapes)
    ensures ok ==> offset == |decoded|
  {
    offset := 0;
    var g := 0;
    while g < |shapes|
      invariant g <= |shapes| && offset == ExpectedSize(shapes[..g])
      invariant forall i :: 0 <= i < g ==> GroupValid(decoded, shapes, i, shapes[i].rows)
    {
      ok, offset := ScanGroup(decoded, shapes, g);
      if !ok { return; }
      g := g + 1;
    }
    assert shapes[..g] == shapes;
    ok := true;
  }
}
