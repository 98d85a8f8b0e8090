/**
 * The second half of Ocr::recognize: which components become text boxes, how a box is widened and
 * scaled to image pixels, and the row-by-row crop. Arithmetic is over the reals.
 */
module OcrBoxes {
  import opened OcrComponents

  const MAX_BOXES := 500

  datatype Box = Box(x: int, y: int, w: int, h: int)

  datatype Image = Image(width: nat, height: nat)

  /** static_cast<int> of a double: towards zero. */
  function Truncated(r: real): int {
    if r >= 0.0 then r.Floor else -((-r).Floor)
  }

  function Ceiling(r: real): int {
    -((-r).Floor)
  }

  function Max(a: int, b: int): int {
    if a > b then a else b
  }

  function Min(a: int, b: int): int {
    if a < b then a else b
  }

  /** The margin: 1.5 times the area over the perimeter of the box in grid cells. */
  function Margin(e: Extent): real
    requires e.x0 <= e.x1 && e.y0 <= e.y1
  {
    ((e.x1 - e.x0 + 1) * (e.y1 - e.y0 + 1)) as real * 1.5 / (2 * (e.x1 - e.x0 + e.y1 - e.y0 + 2)) as real
  }

  /** One side of a box on an axis of `cells` grid cells and `pixels` image pixels. */
  function Low(first: int, margin: real, pixels: nat, cells: nat): int
    requires cells > 0
  {
    Max(0, Truncated(Scaled(first as real - margin, pixels, cells)))
  }

  function High(last: int, margin: real, pixels: nat, cells: nat): int
    requires cells > 0
  {
    Min(pixels, Ceiling(Scaled(last as real + margin + 1.0, pixels, cells)))
  }

  function BoxOf(g: Grid, image: Image, e: Extent): Box
    requires g.Valid() && e.x0 <= e.x1 && e.y0 <= e.y1
  {
    var expand := Margin(e);
    var left := Low(e.x0, expand, image.width, g.w);
    var top := Low(e.y0, expand, image.height, g.h);
    var right := High(e.x1, expand, image.width, g.w);
    var bottom := High(e.y1, expand, image.height, g.h);
    Box(left, top, right - left, bottom - top)
  }

  predicate Kept(c: Component)
    requires c.cells != []
  {
    && |c.cells| >= 6
    && c.sum / |c.cells| as real >= 0.6
    && c.box.x1 - c.box.x0 >= 2
    && c.box.y1 - c.box.y0 >= 2
  }

  // ---- nonlinear facts, one axis at a time ----

  lemma MarginPositive(e: Extent)
    requires e.x0 <= e.x1 && e.y0 <= e.y1
    ensures Margin(e) > 0.0
  {
    var area, around := (e.x1 - e.x0 + 1) * (e.y1 - e.y0 + 1), 2 * (e.x1 - e.x0 + e.y1 - e.y0 + 2);
    assert area >= 1 by {
      MulMonotone(1, e.x1 - e.x0 + 1, e.y1 - e.y0 + 1);
    }
    QuotientPositive(area as real * 1.5, around as real);
  }

  lemma QuotientPositive(a: real, b: real)
    requires a > 0.0 && b > 0.0
    ensures a / b > 0.0
  {
  }

  lemma ScaleMonotone(a: real, b: real, k: real, d: real)
    requires a < b && k > 0.0 && d > 0.0
    ensures a * k / d < b * k / d
  {
    assert (b - a) * k > 0.0;
    QuotientPositive((b - a) * k, d);
    assert (b - a) * k / d == b * k / d - a * k / d;
  }

  lemma ScaleWhole(k: real, d: real)
    requires d > 0.0
    ensures d * k / d == k
    ensures 0.0 * k / d == 0.0
  {
  }

  /** Where grid line `line` falls on an axis of the image. */
  function Scaled(line: real, pixels: nat, cells: nat): real
    requires cells > 0
  {
    line * pixels as real / cells as real
  }

  lemma ScaledMonotone(a: real, b: real, pixels: nat, cells: nat)
    requires a < b && pixels > 0 && cells > 0
    ensures Scaled(a, pixels, cells) < Scaled(b, pixels, cells)
  {
    ScaleMonotone(a, b, pixels as real, cells as real);
  }

  lemma ScaledEnds(pixels: nat, cells: nat)
    requires cells > 0
    ensures Scaled(0.0, pixels, cells) == 0.0 && Scaled(cells as real, pixels, cells) == pixels as real
  {
    ScaleWhole(pixels as real, cells as real);
  }

  /** On one axis the scaled side is a nonempty pixel range inside the image. */
  lemma AxisRange(first: int, last: int, margin: real, pixels: nat, cells: nat)
    requires 0 <= first <= last < cells && margin > 0.0 && pixels > 0
    ensures 0 <= Low(first, margin, pixels, cells) < High(last, margin, pixels, cells) <= pixels
  {
    var low, high := first as real - margin, last as real + margin + 1.0;
    ScaledMonotone(low, high, pixels, cells);
    ScaledMonotone(low, cells as real, pixels, cells);
    ScaledMonotone(0.0, high, pixels, cells);
    ScaledEnds(pixels, cells);
    var a, b := Scaled(low, pixels, cells), Scaled(high, pixels, cells);
    assert a < b && a < pixels as real && 0.0 < b;
  }

  /** The range holds the pixels onto which a grid cell between `first` and `last` falls. */
  lemma AxisHolds(first: int, last: int, margin: real, pixels: nat, cells: nat, c: int)
    requires 0 <= first <= c <= last < cells && margin > 0.0 && pixels > 0
    ensures Low(first, margin, pixels, cells) as real <= Scaled(c as real, pixels, cells)
    ensures Scaled((c + 1) as real, pixels, cells) <= High(last, margin, pixels, cells) as real
  {
    var low, high := first as real - margin, last as real + margin + 1.0;
    ScaledMonotone(low, c as real, pixels, cells);
    ScaledMonotone((c + 1) as real, high, pixels, cells);
    ScaledEnds(pixels, cells);
    if c + 1 < cells {
      ScaledMonotone((c + 1) as real, cells as real, pixels, cells);
    }
    if c > 0 {
      ScaledMonotone(0.0, c as real, pixels, cells);
    }
    assert Scaled((c + 1) as real, pixels, cells) <= pixels as real;
    assert 0.0 <= Scaled(c as real, pixels, cells);
    var a, b := Scaled(low, pixels, cells), Scaled(high, pixels, cells);
    assert a < Scaled(c as real, pixels, cells) && Scaled((c + 1) as real, pixels, cells) < b;
  }

  ghost predicate InsideImage(b: Box, image: Image) {
    0 <= b.x && 0 < b.w && b.x + b.w <= image.width && 0 <= b.y && 0 < b.h && b.y + b.h <= image.height
  }

  /** Every image pixel under a cell of `cells` lies in the box. */
  ghost predicate Encloses(g: Grid, image: Image, b: Box, cells: seq<int>)
    requires g.Valid()
  {
    forall p :: p in cells ==> EnclosesCell(g, image, b, p)
  }

  predicate EnclosesCell(g: Grid, image: Image, b: Box, p: int)
    requires g.w > 0 && g.h > 0
  {
    && b.x as real <= Scaled(X(g, p) as real, image.width, g.w)
    && Scaled((X(g, p) + 1) as real, image.width, g.w) <= (b.x + b.w) as real
    && b.y as real <= Scaled(Y(g, p) as real, image.height, g.h)
    && Scaled((Y(g, p) + 1) as real, image.height, g.h) <= (b.y + b.h) as real
  }

  lemma ComponentInGrid(g: Grid, c: Component)
    requires g.Valid() && Correct(g, c)
    ensures 0 <= c.box.x0 <= c.box.x1 < g.w && 0 <= c.box.y0 <= c.box.y1 < g.h
  {
    forall p | p in c.cells
      ensures 0 <= X(g, p) < g.w && 0 <= Y(g, p) < g.h
    {
      var k :| 0 <= k < |c.cells| && c.cells[k] == p;
      assert Hot(g, c.cells[k]);
      CoordinatesOf(g, p);
    }
    assert c.cells[0] in c.cells;
  }

  lemma BoxFits(g: Grid, image: Image, c: Component)
    requires g.Valid() && Correct(g, c) && 0 < image.width && 0 < image.height
    ensures c.box.x0 <= c.box.x1 && c.box.y0 <= c.box.y1
    ensures InsideImage(BoxOf(g, image, c.box), image)
    ensures Encloses(g, image, BoxOf(g, image, c.box), c.cells)
  {
    ComponentInGrid(g, c);
    var e := c.box;
    MarginPositive(e);
    AxisRange(e.x0, e.x1, Margin(e), image.width, g.w);
    AxisRange(e.y0, e.y1, Margin(e), image.height, g.h);
    forall p | p in c.cells
      ensures EnclosesCell(g, image, BoxOf(g, image, e), p)
    {
      AxisHolds(e.x0, e.x1, Margin(e), image.width, g.w, X(g, p));
      AxisHolds(e.y0, e.y1, Margin(e), image.height, g.h, Y(g, p));
    }
  }

  // ---- how far a box is widened ----

  lemma {:induction false} CastProduct(a: nat, b: nat)
    ensures (a * b) as real == a as real * b as real
    decreases b
  {
    if b > 0 {
      CastProduct(a, b - 1);
      assert a * b == a * (b - 1) + a;
      assert b as real == (b - 1) as real + 1.0;
    }
  }

  function Shorter(e: Extent): int {
    Min(e.x1 - e.x0 + 1, e.y1 - e.y0 + 1)
  }

  lemma QuotientBetween(a: real, b: real, low: real, high: real)
    requires b > 0.0 && low * b <= a < high * b
    ensures low <= a / b < high
  {
    var q := a / b;
    assert q * b == a;
    assert (q - low) * b >= 0.0 && (high - q) * b > 0.0;
  }

  /** For sides s <= m the margin 1.5 * s * m / (2 * (s + m)) lies between 3/8 and 3/4 of s. */
  lemma SidesBound(s: real, m: real, a: real, b: real)
    requires 0.0 < s <= m && a == s * m * 1.5 && b == 2.0 * (s + m)
    ensures (0.375 * s) * b <= a < (0.75 * s) * b
  {
    var square, product := s * s, s * m;
    SquareBound(s, m, square, product);
    SumProduct(s, m, b, square, product);
    Associates(0.375, s, b);
    Associates(0.75, s, b);
    Weighed(square, product, (0.375 * s) * b, a, (0.75 * s) * b);
  }

  lemma SumProduct(s: real, m: real, b: real, square: real, product: real)
    requires b == 2.0 * (s + m) && square == s * s && product == s * m
    ensures s * b == 2.0 * square + 2.0 * product
  {
  }

  lemma Weighed(square: real, product: real, low: real, a: real, high: real)
    requires 0.0 < square <= product
    requires low == 0.375 * (2.0 * square + 2.0 * product) && a == 1.5 * product && high == 0.75 * (2.0 * square + 2.0 * product)
    ensures low <= a < high
  {
  }

  lemma SquareBound(s: real, m: real, square: real, product: real)
    requires 0.0 < s <= m && square == s * s && product == s * m
    ensures 0.0 < square <= product
  {
    PositiveProduct(s, s, square);
    if s < m {
      PositiveProduct(s, m - s, product - square);
    }
  }

  lemma PositiveProduct(a: real, b: real, product: real)
    requires a > 0.0 && b > 0.0 && product == a * b
    ensures product > 0.0
  {
  }

  lemma Associates(k: real, a: real, b: real)
    ensures (k * a) * b == k * (a * b)
  {
  }

  lemma SidesMargin(s: real, m: real, a: real, b: real)
    requires 0.0 < s <= m && a == s * m * 1.5 && b == 2.0 * (s + m)
    ensures 0.375 * s <= a / b < 0.75 * s
  {
    SidesBound(s, m, a, b);
    QuotientBetween(a, b, 0.375 * s, 0.75 * s);
  }

  /** The margin is between three eighths and three quarters of the shorter side. */
  lemma MarginBounds(e: Extent)
    requires e.x0 <= e.x1 && e.y0 <= e.y1
    ensures 0.375 * Shorter(e) as real <= Margin(e) < 0.75 * Shorter(e) as real
  {
    var w, h := e.x1 - e.x0 + 1, e.y1 - e.y0 + 1;
    CastProduct(w, h);
    var s, m := Shorter(e) as real, (if w < h then h else w) as real;
    assert w as real * h as real == s * m;
    SidesMargin(s, m, (w * h) as real * 1.5, (2 * (e.x1 - e.x0 + e.y1 - e.y0 + 2)) as real);
  }

  /** On one axis: the pixel that the widened side falls in, cut off at the image's edge. */
  lemma EdgesExact(first: int, last: int, margin: real, pixels: nat, cells: nat)
    requires cells > 0
    ensures var low, l := Scaled(first as real - margin, pixels, cells), Low(first, margin, pixels, cells);
            if low < 0.0 then l == 0 else l as real <= low < l as real + 1.0
    ensures var high, h := Scaled(last as real + margin + 1.0, pixels, cells), High(last, margin, pixels, cells);
            if high > pixels as real then h == pixels else h as real - 1.0 < high <= h as real
  {
  }

  lemma ScaledOrdered(a: real, b: real, pixels: nat, cells: nat)
    requires a <= b && pixels > 0 && cells > 0
    ensures Scaled(a, pixels, cells) <= Scaled(b, pixels, cells)
  {
    if a < b {
      ScaledMonotone(a, b, pixels, cells);
    }
  }

  /** `low` and `high` lie between 3/8 and 3/4 of `short` cells outside `first` and `last`, to the pixel, or at the edge. */
  predicate Widened(first: int, last: int, short: int, pixels: nat, cells: nat, low: int, high: int)
    requires cells > 0
  {
    var s := short as real;
    && (low == 0 || low as real <= Scaled(first as real - 0.375 * s, pixels, cells))
    && Scaled(first as real - 0.75 * s, pixels, cells) < low as real + 1.0
    && (high == pixels || Scaled(last as real + 1.0 + 0.375 * s, pixels, cells) <= high as real)
    && high as real - 1.0 < Scaled(last as real + 1.0 + 0.75 * s, pixels, cells)
  }

  lemma AxisWidened(first: int, last: int, margin: real, short: int, pixels: nat, cells: nat)
    requires 0 <= first <= last < cells && pixels > 0 && short > 0
    requires 0.375 * short as real <= margin < 0.75 * short as real
    ensures Widened(first, last, short, pixels, cells, Low(first, margin, pixels, cells), High(last, margin, pixels, cells))
  {
    var s := short as real;
    EdgesExact(first, last, margin, pixels, cells);
    AxisRange(first, last, margin, pixels, cells);
    ScaledOrdered(first as real - margin, first as real - 0.375 * s, pixels, cells);
    ScaledOrdered(first as real - 0.75 * s, first as real - margin, pixels, cells);
    ScaledOrdered(last as real + 1.0 + 0.375 * s, last as real + margin + 1.0, pixels, cells);
    ScaledOrdered(last as real + margin + 1.0, last as real + 1.0 + 0.75 * s, pixels, cells);
  }

  /** A box reaches 3/8 to 3/4 of its component's shorter side beyond it, to the pixel, or to the image's edge. */
  lemma BoxWidened(g: Grid, image: Image, c: Component)
    requires g.Valid() && Correct(g, c) && 0 < image.width && 0 < image.height
    ensures c.box.x0 <= c.box.x1 && c.box.y0 <= c.box.y1
    ensures var b, e := BoxOf(g, image, c.box), c.box;
            && Widened(e.x0, e.x1, Shorter(e), image.width, g.w, b.x, b.x + b.w)
            && Widened(e.y0, e.y1, Shorter(e), image.height, g.h, b.y, b.y + b.h)
  {
    ComponentInGrid(g, c);
    var e := c.box;
    MarginBounds(e);
    AxisWidened(e.x0, e.x1, Margin(e), Shorter(e), image.width, g.w);
    AxisWidened(e.y0, e.y1, Margin(e), Shorter(e), image.height, g.h);
  }

  // ---- the list of boxes, cut at 500 ----

  ghost function KeptOf(components: seq<Component>): seq<Component>
    requires forall k :: 0 <= k < |components| ==> components[k].cells != []
  {
    if components == [] then []
    else
      var last := components[|components| - 1];
      KeptOf(components[..|components| - 1]) + if Kept(last) then [last] else []
  }

  /** A component is kept with at least 6 cells, a mean score of 0.6, and 3 cells each way. */
  lemma {:induction false} KeptAreComponents(components: seq<Component>)
    requires forall k :: 0 <= k < |components| ==> components[k].cells != []
    ensures forall c :: c in KeptOf(components) <==>
              && c in components && |c.cells| >= 6 && c.sum / |c.cells| as real >= 0.6
              && c.box.x1 - c.box.x0 + 1 >= 3 && c.box.y1 - c.box.y0 + 1 >= 3
  {
    if components != [] {
      var n := |components| - 1;
      KeptAreComponents(components[..n]);
      assert components == components[..n] + [components[n]];
    }
  }

  /** The boxes are those of the first 500 kept components, in scan order. */
  ghost predicate BoxesOf(g: Grid, image: Image, kept: seq<Component>, boxes: seq<Box>, truncated: bool)
    requires g.Valid()
  {
    && |boxes| == Min(|kept|, 500)
    && (truncated <==> |kept| > 500)
    && forall k :: 0 <= k < |boxes| ==> BoxFor(g, image, kept[k], boxes[k])
  }

  ghost predicate BoxFor(g: Grid, image: Image, c: Component, b: Box)
    requires g.Valid()
  {
    && c.box.x0 <= c.box.x1 && c.box.y0 <= c.box.y1
    && b == BoxOf(g, image, c.box)
    && InsideImage(b, image)
    && Encloses(g, image, b, c.cells)
  }

  /** The boxes come from the components of a scan. */
  ghost predicate BoxesOfScan(g: Grid, image: Image, components: seq<Component>, boxes: seq<Box>, truncated: bool)
    requires g.Valid()
  {
    && IsScan(g, components)
    && (forall k :: 0 <= k < |components| ==> components[k].cells != [])
    && BoxesOf(g, image, KeptOf(components), boxes, truncated)
  }

  method Boxes(g: Grid, image: Image) returns (boxes: seq<Box>, truncated: bool)
    requires g.Valid() && 0 < image.width && 0 < image.height
    ensures exists components :: BoxesOfScan(g, image, components, boxes, truncated)
  {
    var found := Scan(g);
    AllCorrect(g, found);
    boxes, truncated := KeepBoxes(g, image, found);
    assert BoxesOfScan(g, image, found, boxes, truncated);
  }

  lemma AllCorrect(g: Grid, components: seq<Component>)
    requires g.Valid() && IsScan(g, components)
    ensures forall k :: 0 <= k < |components| ==> Correct(g, components[k]) && components[k].cells != []
  {
    forall k | 0 <= k < |components|
      ensures Correct(g, components[k]) && components[k].cells != []
    {
      assert Good(g, components[k]);
    }
  }

  lemma KeptNext(found: seq<Component>, i: nat)
    requires i < |found| && forall k :: 0 <= k < |found| ==> found[k].cells != []
    ensures KeptOf(found[..i + 1]) == KeptOf(found[..i]) + if Kept(found[i]) then [found[i]] else []
  {
    assert found[..i + 1][..i] == found[..i];
  }

  lemma NextBox(g: Grid, image: Image, c: Component)
    requires g.Valid() && Correct(g, c) && 0 < image.width && 0 < image.height
    ensures c.box.x0 <= c.box.x1 && c.box.y0 <= c.box.y1 && BoxFor(g, image, c, BoxOf(g, image, c.box))
  {
    BoxFits(g, image, c);
  }

  lemma BoxesGrow(g: Grid, image: Image, kept: seq<Component>, boxes: seq<Box>, truncated: bool, c: Component, b: Box)
    requires g.Valid() && BoxesOf(g, image, kept, boxes, truncated) && BoxFor(g, image, c, b)
    ensures if |boxes| < MAX_BOXES then BoxesOf(g, image, kept + [c], boxes + [b], truncated)
            else BoxesOf(g, image, kept + [c], boxes, true)
  {
  }

  lemma KeepNext(g: Grid, image: Image, found: seq<Component>, i: nat, boxes: seq<Box>, truncated: bool)
    requires g.Valid() && 0 < image.width && 0 < image.height && i < |found|
    requires forall k :: 0 <= k < |found| ==> Correct(g, found[k]) && found[k].cells != []
    requires BoxesOf(g, image, KeptOf(found[..i]), boxes, truncated)
    ensures var c, kept := found[i], KeptOf(found[..i + 1]);
            && c.box.x0 <= c.box.x1 && c.box.y0 <= c.box.y1
            && if !Kept(c) then BoxesOf(g, image, kept, boxes, truncated)
               else if |boxes| < MAX_BOXES then BoxesOf(g, image, kept, boxes + [BoxOf(g, image, c.box)], truncated)
               else BoxesOf(g, image, kept, boxes, true)
  {
    var c := found[i];
    KeptNext(found, i);
    NextBox(g, image, c);
    if Kept(c) {
      BoxesGrow(g, image, KeptOf(found[..i]), boxes, truncated, c, BoxOf(g, image, c.box));
    } else {
      assert KeptOf(found[..i]) + [] == KeptOf(found[..i]);
    }
  }

  method KeepBoxes(g: Grid, image: Image, found: seq<Component>) returns (boxes: seq<Box>, truncated: bool)
    requires g.Valid() && 0 < image.width && 0 < image.height
    requires forall k :: 0 <= k < |found| ==> Correct(g, found[k]) && found[k].cells != []
    ensures BoxesOf(g, image, KeptOf(found), boxes, truncated)
  {
    boxes, truncated := [], false;
    for i := 0 to |found|
      invariant BoxesOf(g, image, KeptOf(found[..i]), boxes, truncated)
    {
      KeepNext(g, image, found, i, boxes, truncated);
      if !Kept(found[i]) {
        continue;
      }
      if |boxes| < MAX_BOXES {
        boxes := boxes + [BoxOf(g, image, found[i].box)];
      } else {
        truncated := true;
      }
    }
    assert found[..|found|] == found;
  }

  // ---- cropping ----

  lemma RowInside(row: int, rows: int, stride: nat)
    requires 0 <= row < rows
    ensures 0 <= row * stride && row * stride + stride <= rows * stride
  {
    MulMonotone(row + 1, rows, stride);
  }

  /** memcpy between two distinct buffers. */
  method CopyBytes(target: array<bv8>, at: nat, source: array<bv8>, from: nat, count: nat)
    requires target != source && at + count <= target.Length && from + count <= source.Length
    modifies target
    ensures target[at..at + count] == source[from..from + count]
    ensures target[..at] == old(target[..at]) && target[at + count..] == old(target[at + count..])
  {
    for i := 0 to count
      invariant target[at..at + i] == source[from..from + i]
      invariant target[..at] == old(target[..at]) && target[at + i..] == old(target[at + i..])
    {
      target[at + i] := source[from + i];
      assert target[at..at + i + 1] == target[at..at + i] + [source[from + i]];
      assert target[at + i + 1..] == target[at + i..][1..];
    }
  }

  /** Where row `row` of the box starts in the image's bytes. */
  function SourceStart(image: Image, b: Box, row: int): int {
    ((row + b.y) * image.width + b.x) * 4
  }

  /** A row of the box lies within the image's bytes. */
  lemma SourceInside(image: Image, b: Box, row: int)
    requires InsideImage(b, image) && 0 <= row < b.h
    ensures 0 <= SourceStart(image, b, row)
    ensures SourceStart(image, b, row) + b.w * 4 <= image.width * image.height * 4
  {
    RowInside(row + b.y, image.height, image.width);
  }

  ghost predicate RowCopied(image: Image, source: seq<bv8>, b: Box, crop: seq<bv8>, row: int)
    requires InsideImage(b, image) && |source| == image.width * image.height * 4
    requires |crop| == b.h * (b.w * 4) && 0 <= row < b.h
  {
    RowInside(row, b.h, b.w * 4);
    SourceInside(image, b, row);
    var at, from := row * (b.w * 4), SourceStart(image, b, row);
    crop[at..at + b.w * 4] == source[from..from + b.w * 4]
  }

  /** Copying a row leaves the rows above it as they were. */
  lemma RowKept(image: Image, source: seq<bv8>, b: Box, before: seq<bv8>, after: seq<bv8>, r: int, row: int)
    requires InsideImage(b, image) && |source| == image.width * image.height * 4
    requires |before| == |after| == b.h * (b.w * 4) && 0 <= r < row < b.h
    requires 0 <= row * (b.w * 4) <= |before| && before[..row * (b.w * 4)] == after[..row * (b.w * 4)]
    requires RowCopied(image, source, b, before, r)
    ensures RowCopied(image, source, b, after, r)
  {
    RowInside(r, row, b.w * 4);
    PartOfPrefix(before, after, r * (b.w * 4), b.w * 4, row * (b.w * 4));
  }

  lemma PartOfPrefix(before: seq<bv8>, after: seq<bv8>, at: nat, n: nat, end: nat)
    requires at + n <= end <= |before| == |after| && before[..end] == after[..end]
    ensures before[at..at + n] == after[at..at + n]
  {
    forall i | at <= i < at + n
      ensures before[i] == after[i]
    {
      assert before[..end][i] == before[i] && after[..end][i] == after[i];
    }
  }

  /** Each copied row stays within both buffers, and the crop is exactly the box's pixels. */
  method Crop(image: Image, bgra: array<bv8>, b: Box) returns (crop: array<bv8>)
    requires InsideImage(b, image) && bgra.Length == image.width * image.height * 4
    ensures fresh(crop) && crop.Length == b.h * (b.w * 4)
    ensures forall row :: 0 <= row < b.h ==> RowCopied(image, bgra[..], b, crop[..], row)
  {
    var stride := b.w * 4;
    RowInside(0, b.h, stride);
    crop := new bv8[b.h * stride](_ => 0);
    for row := 0 to b.h
      invariant bgra[..] == old(bgra[..])
      invariant forall r :: 0 <= r < row ==> RowCopied(image, bgra[..], b, crop[..], r)
    {
      RowInside(row, b.h, stride);
      SourceInside(image, b, row);
      ghost var before := crop[..];
      CopyBytes(crop, row * stride, bgra, SourceStart(image, b, row), stride);
      assert crop[..][..row * stride] == before[..row * stride];
      forall r | 0 <= r < row
        ensures RowCopied(image, bgra[..], b, crop[..], r)
      {
        RowKept(image, bgra[..], b, before, crop[..], r, row);
      }
    }
  }
}
