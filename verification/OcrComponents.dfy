/**
 * Region extraction of native/computer-observation/ocr.cpp: the scan over the detector's score
 * grid and its in-place flood fill, proved against 4-connectivity by paths.
 */
module OcrComponents {

  datatype Grid = Grid(w: nat, h: nat, scores: seq<real>) {
    ghost predicate Valid() {
      0 < w && 0 < h && |scores| == w * h
    }
  }

  const THRESHOLD := 0.3

  predicate Hot(g: Grid, p: int) {
    0 <= p < |g.scores| && g.scores[p] >= 0.3
  }

  function X(g: Grid, p: int): int
    requires g.w != 0
  {
    p % g.w
  }

  function Y(g: Grid, p: int): int
    requires g.w != 0
  {
    p / g.w
  }

  // ---- the independent definition: cells joined by a path of hot 4-neighbours ----

  function Abs(n: int): nat {
    if n < 0 then -n else n
  }

  predicate Adjacent(g: Grid, p: int, q: int)
    requires g.w != 0
  {
    Abs(X(g, p) - X(g, q)) + Abs(Y(g, p) - Y(g, q)) == 1
  }

  ghost predicate IsPath(g: Grid, path: seq<int>)
    requires g.w != 0
  {
    && path != []
    && (forall i :: 0 <= i < |path| ==> Hot(g, path[i]))
    && (forall i :: 0 < i < |path| ==> Adjacent(g, path[i - 1], path[i]))
  }

  ghost predicate Joins(g: Grid, path: seq<int>, p: int, q: int)
    requires g.w != 0
  {
    IsPath(g, path) && path[0] == p && path[|path| - 1] == q
  }

  ghost predicate Connected(g: Grid, p: int, q: int)
    requires g.w != 0
  {
    exists path :: Joins(g, path, p, q)
  }

  ghost predicate Distinct(s: seq<int>) {
    forall i, j :: 0 <= i < j < |s| ==> s[i] != s[j]
  }

  /** `cells` lists one whole connected component, each cell once. */
  ghost predicate IsComponent(g: Grid, cells: seq<int>)
    requires g.w != 0
  {
    && cells != []
    && Distinct(cells)
    && forall q :: q in cells <==> Connected(g, cells[0], q)
  }

  lemma ConnectedSelf(g: Grid, p: int)
    requires g.w != 0 && Hot(g, p)
    ensures Connected(g, p, p)
  {
    assert Joins(g, [p], p, p);
  }

  lemma ConnectedStep(g: Grid, p: int, q: int, r: int)
    requires g.w != 0 && Connected(g, p, q) && Hot(g, r) && Adjacent(g, q, r)
    ensures Connected(g, p, r)
  {
    var path :| Joins(g, path, p, q);
    assert Joins(g, path + [r], p, r);
  }

  lemma ConnectedHot(g: Grid, p: int, q: int)
    requires g.w != 0 && Connected(g, p, q)
    ensures Hot(g, p) && Hot(g, q)
  {
    var path :| Joins(g, path, p, q);
  }

  /** Being connected is an equivalence on hot cells, so its classes partition them. */
  lemma {:induction false} ConnectedSymmetric(g: Grid, p: int, q: int)
    requires g.w != 0 && Connected(g, p, q)
    ensures Connected(g, q, p)
  {
    var path :| Joins(g, path, p, q);
    var back := seq(|path|, i requires 0 <= i < |path| => path[|path| - 1 - i]);
    forall i | 0 < i < |back|
      ensures Adjacent(g, back[i - 1], back[i])
    {
      assert Adjacent(g, path[|path| - 1 - i], path[|path| - i]);
    }
    assert Joins(g, back, q, p);
  }

  lemma ConnectedTransitive(g: Grid, p: int, q: int, r: int)
    requires g.w != 0 && Connected(g, p, q) && Connected(g, q, r)
    ensures Connected(g, p, r)
  {
    var there :| Joins(g, there, p, q);
    var onward :| Joins(g, onward, q, r);
    var path := there + onward[1..];
    forall i | 0 < i < |path|
      ensures Adjacent(g, path[i - 1], path[i])
    {
      if i >= |there| {
        assert path[i] == onward[i - |there| + 1];
        assert path[i - 1] == onward[i - |there|];
      }
    }
    assert Joins(g, path, p, r);
  }

  /** A set of hot cells closed under hot neighbours holds whole components only. */
  lemma {:induction false} PathStaysInside(g: Grid, path: seq<int>, inside: seq<int>)
    requires g.w != 0 && IsPath(g, path) && path[0] in inside
    requires forall p, q :: p in inside && Hot(g, q) && Adjacent(g, p, q) ==> q in inside
    ensures path[|path| - 1] in inside
    decreases |path|
  {
    if |path| > 1 {
      var n := |path| - 1;
      PathStaysInside(g, path[..n], inside);
      assert Adjacent(g, path[n - 1], path[n]);
    }
  }

  // ---- index arithmetic ----

  lemma CellOf(g: Grid, x: int, y: int)
    requires g.Valid() && 0 <= x < g.w && 0 <= y < g.h
    ensures 0 <= y * g.w + x < |g.scores|
    ensures X(g, y * g.w + x) == x && Y(g, y * g.w + x) == y
  {
    assert y * g.w + g.w <= g.h * g.w by {
      MulMonotone(y + 1, g.h, g.w);
    }
    DivModUnique(y * g.w + x, y, x, g.w);
  }

  lemma CoordinatesOf(g: Grid, p: int)
    requires g.Valid() && 0 <= p < |g.scores|
    ensures 0 <= X(g, p) < g.w && 0 <= Y(g, p) < g.h
    ensures p == Y(g, p) * g.w + X(g, p)
  {
    var y, x := p / g.w, p % g.w;
    assert p == y * g.w + x;
    if y >= g.h {
      MulMonotone(g.h, y, g.w);
    }
  }

  lemma MulMonotone(a: int, b: int, k: nat)
    requires a <= b
    ensures a * k <= b * k
  {
  }

  lemma DivModUnique(p: int, q: int, r: int, w: nat)
    requires 0 <= r < w && p == q * w + r
    ensures p / w == q && p % w == r
  {
    var d := p / w - q;
    assert p == (p / w) * w + p % w;
    assert d * w == r - p % w;
    if d >= 1 {
      MulMonotone(1, d, w);
    } else if d <= -1 {
      MulMonotone(d, -1, w);
    }
  }

  // ---- the four neighbours, in the order the source visits them ----

  function NeighbourX(g: Grid, p: int, k: nat): int
    requires g.w != 0 && k < 4
  {
    X(g, p) + [-1, 1, 0, 0][k]
  }

  function NeighbourY(g: Grid, p: int, k: nat): int
    requires g.w != 0 && k < 4
  {
    Y(g, p) + [0, 0, -1, 1][k]
  }

  predicate OnGrid(g: Grid, x: int, y: int) {
    0 <= x < g.w && 0 <= y < g.h
  }

  lemma NeighbourIsAdjacent(g: Grid, p: int, k: nat)
    requires g.Valid() && k < 4 && OnGrid(g, NeighbourX(g, p, k), NeighbourY(g, p, k))
    ensures var n := NeighbourY(g, p, k) * g.w + NeighbourX(g, p, k);
            0 <= n < |g.scores| && Adjacent(g, p, n)
  {
    CellOf(g, NeighbourX(g, p, k), NeighbourY(g, p, k));
  }

  lemma AdjacentIsNeighbour(g: Grid, p: int, q: int)
    requires g.Valid() && 0 <= q < |g.scores| && Adjacent(g, p, q)
    ensures exists k: nat :: k < 4 && IsNeighbour(g, p, k, q)
  {
    CoordinatesOf(g, q);
    var k: nat :| k < 4 && NeighbourX(g, p, k) == X(g, q) && NeighbourY(g, p, k) == Y(g, q) by {
      var dx, dy := X(g, q) - X(g, p), Y(g, q) - Y(g, p);
      var k0: nat := if dx == -1 then 0 else if dx == 1 then 1 else if dy == -1 then 2 else 3;
      assert NeighbourX(g, p, k0) == X(g, q) && NeighbourY(g, p, k0) == Y(g, q);
    }
    assert IsNeighbour(g, p, k, q);
  }

  predicate IsNeighbour(g: Grid, p: int, k: nat, q: int)
    requires g.w != 0
  {
    && k < 4
    && OnGrid(g, NeighbourX(g, p, k), NeighbourY(g, p, k))
    && q == NeighbourY(g, p, k) * g.w + NeighbourX(g, p, k)
  }

  // ---- pigeonhole: a queue without repeats cannot outgrow the grid ----

  lemma {:induction false} DistinctBounded(s: seq<int>, n: nat)
    requires Distinct(s) && forall i :: 0 <= i < |s| ==> 0 <= s[i] < n
    ensures |s| <= n
    decreases n
  {
    if s != [] {
      assert 0 <= s[0] < n;
    }
    if n > 0 && n - 1 in s {
      var k :| 0 <= k < |s| && s[k] == n - 1;
      DistinctBounded(s[..k] + s[k + 1..], n - 1);
    } else if n > 0 {
      DistinctBounded(s, n - 1);
    }
  }

  // ---- one component ----

  datatype Extent = Extent(x0: int, x1: int, y0: int, y1: int)

  datatype Component = Component(cells: seq<int>, box: Extent, sum: real)

  function Widen(g: Grid, e: Extent, p: int): Extent
    requires g.w != 0
  {
    var px, py := X(g, p), Y(g, p);
    Extent(if px < e.x0 then px else e.x0, if px > e.x1 then px else e.x1,
           if py < e.y0 then py else e.y0, if py > e.y1 then py else e.y1)
  }

  function ExtentOf(g: Grid, start: Extent, cells: seq<int>): Extent
    requires g.w != 0
  {
    if cells == [] then start
    else Widen(g, ExtentOf(g, start, cells[..|cells| - 1]), cells[|cells| - 1])
  }

  /** The least rectangle around `cells`: it holds them all and each side touches one. */
  ghost predicate TightBox(g: Grid, cells: seq<int>, e: Extent)
    requires g.w != 0
  {
    && (forall p :: p in cells ==> e.x0 <= X(g, p) <= e.x1 && e.y0 <= Y(g, p) <= e.y1)
    && (exists p :: p in cells && X(g, p) == e.x0)
    && (exists p :: p in cells && X(g, p) == e.x1)
    && (exists p :: p in cells && Y(g, p) == e.y0)
    && (exists p :: p in cells && Y(g, p) == e.y1)
  }

  /** Widening from the first cell over the rest gives the tight box. */
  lemma {:induction false} ExtentTight(g: Grid, cells: seq<int>)
    requires g.w != 0 && cells != []
    ensures var x, y := X(g, cells[0]), Y(g, cells[0]);
            TightBox(g, cells, ExtentOf(g, Extent(x, x, y, y), cells))
    decreases |cells|
  {
    var n := |cells| - 1;
    var last := cells[n];
    if n == 0 {
      var x, y := X(g, last), Y(g, last);
      assert cells[..0] == [];
      assert last in cells;
      assert ExtentOf(g, Extent(x, x, y, y), cells) == Extent(x, x, y, y);
    } else {
      var rest := cells[..n];
      ExtentTight(g, rest);
      assert cells == rest + [last];
      assert last in cells && forall p :: p in rest ==> p in cells;
    }
  }

  function TotalScore(g: Grid, cells: seq<int>): real
    requires forall i :: 0 <= i < |cells| ==> Hot(g, cells[i])
  {
    if cells == [] then 0.0
    else
      assert Hot(g, cells[|cells| - 1]);
      TotalScore(g, cells[..|cells| - 1]) + g.scores[cells[|cells| - 1]]
  }

  ghost predicate Correct(g: Grid, c: Component)
    requires g.w != 0
  {
    && IsComponent(g, c.cells)
    && TightBox(g, c.cells, c.box)
    && (forall i :: 0 <= i < |c.cells| ==> Hot(g, c.cells[i]))
    && c.sum == TotalScore(g, c.cells)
  }

  /** The seen cells are whole components: no hot cell borders them from outside. */
  ghost predicate Closed(g: Grid, seen: seq<bool>)
    requires g.w != 0 && |seen| == |g.scores|
  {
    forall p, q {:trigger Adjacent(g, p, q)} ::
      0 <= p < |seen| && seen[p] && Hot(g, q) && Adjacent(g, p, q) ==> seen[q]
  }

  ghost predicate SeenIs(seen: seq<bool>, was: seq<bool>, queue: seq<int>)
    requires |seen| == |was|
  {
    forall p :: 0 <= p < |seen| ==> (seen[p] <==> was[p] || p in queue)
  }

  ghost predicate QueueOk(g: Grid, was: seq<bool>, queue: seq<int>)
    requires g.w != 0 && |was| == |g.scores|
  {
    && Distinct(queue)
    && (forall i :: 0 <= i < |queue| ==> Hot(g, queue[i]) && !was[queue[i]])
    && (forall i :: 0 <= i < |queue| ==> Connected(g, queue[0], queue[i]))
  }

  /** Every hot neighbour of `p` is in the queue. */
  ghost predicate Expanded(g: Grid, p: int, queue: seq<int>)
    requires g.w != 0
  {
    forall q {:trigger Adjacent(g, p, q)} :: Hot(g, q) && Adjacent(g, p, q) ==> q in queue
  }

  /** Visits the four neighbours of one queued cell. */
  method Expand(g: Grid, seen: array<bool>, ghost was: seq<bool>, queue: seq<int>, p: int) returns (grown: seq<int>)
    requires g.Valid() && seen.Length == |was| == |g.scores|
    requires Closed(g, was) && QueueOk(g, was, queue) && SeenIs(seen[..], was, queue) && p in queue
    modifies seen
    ensures QueueOk(g, was, grown) && SeenIs(seen[..], was, grown) && queue <= grown
    ensures Expanded(g, p, grown)
  {
    grown := queue;
    for k := 0 to 4
      invariant QueueOk(g, was, grown) && SeenIs(seen[..], was, grown) && queue <= grown && p in grown
      invariant forall j: nat, q :: j < k && IsNeighbour(g, p, j, q) && Hot(g, q) ==> q in grown
    {
      var nx, ny := NeighbourX(g, p, k), NeighbourY(g, p, k);
      if nx < 0 || ny < 0 || nx >= g.w || ny >= g.h {
        continue;
      }
      var n := ny * g.w + nx;
      NeighbourIsAdjacent(g, p, k);
      if !seen[n] && g.scores[n] >= THRESHOLD {
        assert seen[..][n] == seen[n];
        ConnectedStep(g, queue[0], p, n);
        seen[n] := true;
        grown := grown + [n];
      } else if Hot(g, n) {
        assert seen[..][n];
        if was[n] {
          SeenNeighbour(g, was, p, n);
        }
      }
    }
    forall q | Hot(g, q) && Adjacent(g, p, q)
      ensures q in grown
    {
      AdjacentIsNeighbour(g, p, q);
    }
  }

  lemma SeenNeighbour(g: Grid, was: seq<bool>, p: int, n: int)
    requires g.w != 0 && |was| == |g.scores| && Closed(g, was)
    requires Hot(g, p) && Hot(g, n) && was[n] && Adjacent(g, p, n)
    ensures was[p]
  {
    assert Adjacent(g, n, p);
  }

  /** The inner queue of the scan, started from an unseen hot cell. */
  method Fill(g: Grid, seen: array<bool>, index: int) returns (c: Component)
    requires g.Valid() && seen.Length == |g.scores|
    requires Hot(g, index) && !seen[index] && Closed(g, seen[..])
    modifies seen
    ensures Correct(g, c) && c.cells[0] == index
    ensures forall p :: p in c.cells ==> 0 <= p < seen.Length && !old(seen[..])[p]
    ensures SeenIs(seen[..], old(seen[..]), c.cells)
    ensures Closed(g, seen[..])
  {
    ghost var was := seen[..];
    var queue := [index];
    seen[index] := true;
    ConnectedSelf(g, index);
    var start := Extent(X(g, index), X(g, index), Y(g, index), Y(g, index));
    var box := start;
    var sum := 0.0;
    var i := 0;
    while i < |queue|
      invariant 0 <= i <= |queue| && queue != [] && queue[0] == index
      invariant QueueOk(g, was, queue) && SeenIs(seen[..], was, queue)
      invariant Frontier(g, queue, i)
      invariant box == ExtentOf(g, start, queue[..i])
      invariant sum == TotalScore(g, queue[..i])
      decreases |g.scores| - i
    {
      var p := queue[i];
      assert queue[..i + 1][..i] == queue[..i];
      sum := sum + g.scores[p];
      box := Widen(g, box, p);
      ghost var before := queue;
      queue := Expand(g, seen, was, queue, p);
      FrontierGrows(g, before, queue, i);
      assert queue[..i + 1] == before[..i + 1];
      DistinctBounded(queue, |g.scores|);
      i := i + 1;
    }
    assert queue[..i] == queue;
    c := Component(queue, box, sum);
    QueueIsComponent(g, queue);
    ExtentTight(g, queue);
    StillClosed(g, was, seen[..], queue);
  }

  ghost predicate Frontier(g: Grid, queue: seq<int>, i: nat)
    requires g.w != 0 && i <= |queue|
  {
    forall k :: 0 <= k < i ==> Expanded(g, queue[k], queue)
  }

  lemma FrontierGrows(g: Grid, queue: seq<int>, grown: seq<int>, i: nat)
    requires g.w != 0 && i < |queue| && queue <= grown
    requires Frontier(g, queue, i) && Expanded(g, queue[i], grown)
    ensures Frontier(g, grown, i + 1)
  {
    forall k | 0 <= k < i
      ensures Expanded(g, grown[k], grown)
    {
      assert Expanded(g, queue[k], queue);
    }
  }

  lemma StillClosed(g: Grid, was: seq<bool>, seen: seq<bool>, queue: seq<int>)
    requires g.w != 0 && |was| == |seen| == |g.scores|
    requires Closed(g, was) && SeenIs(seen, was, queue) && Frontier(g, queue, |queue|)
    ensures Closed(g, seen)
  {
    forall p, q | 0 <= p < |seen| && seen[p] && Hot(g, q) && Adjacent(g, p, q)
      ensures seen[q]
    {
      if !was[p] {
        var k :| 0 <= k < |queue| && queue[k] == p;
        assert Expanded(g, queue[k], queue);
      }
    }
  }

  lemma QueueIsComponent(g: Grid, queue: seq<int>)
    requires g.Valid() && queue != [] && Distinct(queue)
    requires Frontier(g, queue, |queue|)
    requires forall k :: 0 <= k < |queue| ==> Connected(g, queue[0], queue[k])
    ensures IsComponent(g, queue)
  {
    forall q | Connected(g, queue[0], q)
      ensures q in queue
    {
      var path :| Joins(g, path, queue[0], q);
      forall a, b | a in queue && Hot(g, b) && Adjacent(g, a, b)
        ensures b in queue
      {
        var k :| 0 <= k < |queue| && queue[k] == a;
        assert Expanded(g, queue[k], queue);
      }
      PathStaysInside(g, path, queue);
    }
  }

  // ---- the whole scan ----

  ghost predicate Covered(components: seq<Component>, p: int) {
    exists k :: 0 <= k < |components| && p in components[k].cells
  }

  function Seed(c: Component): int {
    if c.cells == [] then -1 else c.cells[0]
  }

  ghost predicate SeedsAscend(components: seq<Component>) {
    forall j, k :: 0 <= j < k < |components| ==> Seed(components[j]) < Seed(components[k])
  }

  ghost predicate SeedLeast(c: Component) {
    forall p :: p in c.cells ==> Seed(c) <= p
  }

  ghost predicate Apart(c: Component, d: Component) {
    forall p :: p in c.cells ==> p !in d.cells
  }

  ghost predicate AllApart(components: seq<Component>) {
    forall j, k :: 0 <= j < k < |components| ==> Apart(components[j], components[k])
  }

  ghost predicate Good(g: Grid, c: Component)
    requires g.w != 0
  {
    Correct(g, c) && SeedLeast(c)
  }

  /**
   * The scan's result: the connected components of the hot cells, each once, in the order of
   * their first cell, with nothing left over.
   */
  ghost predicate IsScan(g: Grid, components: seq<Component>)
    requires g.w != 0
  {
    && (forall k :: 0 <= k < |components| ==> Good(g, components[k]))
    && (forall p :: Hot(g, p) <==> Covered(components, p))
    && SeedsAscend(components)
    && AllApart(components)
  }

  /** The state of the scan when every cell before `next` has been passed. */
  ghost predicate Scanned(g: Grid, seen: seq<bool>, components: seq<Component>, next: int)
    requires g.w != 0 && |seen| == |g.scores|
  {
    && Closed(g, seen)
    && (forall p :: Covered(components, p) <==> 0 <= p < |seen| && seen[p])
    && (forall p :: 0 <= p < next && Hot(g, p) ==> seen[p])
    && (forall k :: 0 <= k < |components| ==> Good(g, components[k]) && Seed(components[k]) < next)
    && SeedsAscend(components)
    && AllApart(components)
  }

  /** The body of the scan at one cell. */
  method ScanCell(g: Grid, seen: array<bool>, found: seq<Component>, index: int) returns (components: seq<Component>)
    requires g.Valid() && seen.Length == |g.scores| && 0 <= index < |g.scores|
    requires Scanned(g, seen[..], found, index)
    modifies seen
    ensures Scanned(g, seen[..], components, index + 1)
  {
    assert seen[..][index] == seen[index];
    if seen[index] || g.scores[index] < THRESHOLD {
      PassCell(g, seen[..], found, index);
      return found;
    }
    ghost var was := seen[..];
    var c := Fill(g, seen, index);
    ScanStep(g, was, seen[..], found, c);
    components := found + [c];
  }

  method Scan(g: Grid) returns (components: seq<Component>)
    requires g.Valid()
    ensures IsScan(g, components)
  {
    var seen := new bool[|g.scores|](_ => false);
    components := [];
    ScanStart(g, seen[..]);
    for y := 0 to g.h
      invariant fresh(seen) && Scanned(g, seen[..], components, y * g.w)
    {
      components := ScanRow(g, seen, components, y);
    }
    ScanEnd(g, seen[..], components);
  }

  method ScanRow(g: Grid, seen: array<bool>, found: seq<Component>, y: nat) returns (components: seq<Component>)
    requires g.Valid() && seen.Length == |g.scores| && y < g.h
    requires Scanned(g, seen[..], found, y * g.w)
    modifies seen
    ensures Scanned(g, seen[..], components, (y + 1) * g.w)
  {
    components := found;
    var row := y * g.w;
    for x := 0 to g.w
      invariant Scanned(g, seen[..], components, row + x)
    {
      CellOf(g, x, y);
      components := ScanCell(g, seen, components, row + x);
    }
    assert row + g.w == (y + 1) * g.w;
  }

  lemma ScanStart(g: Grid, seen: seq<bool>)
    requires g.Valid() && |seen| == |g.scores| && forall p :: 0 <= p < |seen| ==> !seen[p]
    ensures Scanned(g, seen, [], 0)
  {
  }

  lemma PassCell(g: Grid, seen: seq<bool>, components: seq<Component>, index: int)
    requires g.Valid() && |seen| == |g.scores| && 0 <= index < |seen|
    requires Scanned(g, seen, components, index) && (seen[index] || !Hot(g, index))
    ensures Scanned(g, seen, components, index + 1)
  {
  }

  lemma ScanEnd(g: Grid, seen: seq<bool>, components: seq<Component>)
    requires g.Valid() && |seen| == |g.scores|
    requires Scanned(g, seen, components, |seen|)
    ensures IsScan(g, components)
  {
    forall p | Covered(components, p)
      ensures Hot(g, p)
    {
      var k :| 0 <= k < |components| && p in components[k].cells;
      assert Good(g, components[k]);
    }
  }

  lemma CoveredStep(was: seq<bool>, seen: seq<bool>, components: seq<Component>, c: Component, p: int)
    requires |was| == |seen| && SeenIs(seen, was, c.cells)
    requires Covered(components, p) <==> 0 <= p < |was| && was[p]
    requires p in c.cells ==> 0 <= p < |was|
    ensures Covered(components + [c], p) <==> 0 <= p < |seen| && seen[p]
  {
    CoveredGrows(components, c, p);
  }

  lemma ApartStep(was: seq<bool>, components: seq<Component>, c: Component)
    requires AllApart(components)
    requires forall p :: Covered(components, p) ==> 0 <= p < |was| && was[p]
    requires forall p :: p in c.cells ==> 0 <= p < |was| && !was[p]
    ensures AllApart(components + [c])
  {
    forall j, p | 0 <= j < |components| && p in components[j].cells
      ensures p !in c.cells
    {
      assert Covered(components, p);
    }
  }

  lemma SeedStep(g: Grid, was: seq<bool>, c: Component)
    requires g.w != 0 && |was| == |g.scores| && Correct(g, c)
    requires forall p :: 0 <= p < Seed(c) && Hot(g, p) ==> was[p]
    requires forall p :: p in c.cells ==> 0 <= p < |was| && !was[p]
    ensures SeedLeast(c)
  {
    forall p | p in c.cells
      ensures Seed(c) <= p
    {
      var k :| 0 <= k < |c.cells| && c.cells[k] == p;
      assert Hot(g, c.cells[k]);
    }
  }

  lemma SeedsStep(g: Grid, components: seq<Component>, c: Component)
    requires g.w != 0 && SeedsAscend(components) && Good(g, c)
    requires forall k :: 0 <= k < |components| ==> Good(g, components[k]) && Seed(components[k]) < Seed(c)
    ensures SeedsAscend(components + [c])
    ensures forall k :: 0 <= k <= |components| ==>
              Good(g, (components + [c])[k]) && Seed((components + [c])[k]) < Seed(c) + 1
  {
  }

  lemma CoveredNow(was: seq<bool>, seen: seq<bool>, components: seq<Component>, c: Component)
    requires |was| == |seen| && SeenIs(seen, was, c.cells)
    requires forall p :: Covered(components, p) <==> 0 <= p < |was| && was[p]
    requires forall p :: p in c.cells ==> 0 <= p < |was|
    ensures forall p :: Covered(components + [c], p) <==> 0 <= p < |seen| && seen[p]
  {
    forall p
      ensures Covered(components + [c], p) <==> 0 <= p < |seen| && seen[p]
    {
      CoveredStep(was, seen, components, c, p);
    }
  }

  lemma SeenUpTo(g: Grid, was: seq<bool>, seen: seq<bool>, c: Component)
    requires g.w != 0 && |was| == |seen| == |g.scores| && SeenIs(seen, was, c.cells) && Correct(g, c)
    requires forall p :: 0 <= p < Seed(c) && Hot(g, p) ==> was[p]
    ensures forall p :: 0 <= p < Seed(c) + 1 && Hot(g, p) ==> seen[p]
  {
    assert c.cells[0] == Seed(c) && Seed(c) in c.cells;
  }

  lemma ScanStep(g: Grid, was: seq<bool>, seen: seq<bool>, components: seq<Component>, c: Component)
    requires g.Valid() && |was| == |seen| == |g.scores|
    requires Correct(g, c) && Scanned(g, was, components, Seed(c))
    requires SeenIs(seen, was, c.cells) && Closed(g, seen)
    requires forall p :: p in c.cells ==> 0 <= p < |was| && !was[p]
    ensures Scanned(g, seen, components + [c], Seed(c) + 1)
  {
    CoveredNow(was, seen, components, c);
    SeenUpTo(g, was, seen, c);
    ApartStep(was, components, c);
    SeedStep(g, was, c);
    SeedsStep(g, components, c);
  }

  lemma CoveredGrows(components: seq<Component>, c: Component, p: int)
    ensures Covered(components + [c], p) <==> Covered(components, p) || p in c.cells
  {
    var all := components + [c];
    if Covered(components, p) {
      var k :| 0 <= k < |components| && p in components[k].cells;
      assert p in all[k].cells;
    }
    if p in c.cells {
      assert p in all[|components|].cells;
    }
  }

  /** The component that a hot cell lies in. */
  lemma ComponentHolding(g: Grid, components: seq<Component>, p: int) returns (k: nat)
    requires g.w != 0 && IsScan(g, components) && Hot(g, p)
    ensures k < |components| && p in components[k].cells && Seed(components[k]) <= p
    ensures forall q :: q in components[k].cells <==> Connected(g, p, q)
  {
    assert Covered(components, p);
    k :| 0 <= k < |components| && p in components[k].cells;
    var seed := Seed(components[k]);
    assert Good(g, components[k]);
    forall q
      ensures Connected(g, seed, q) <==> Connected(g, p, q)
    {
      ConnectedSymmetric(g, seed, p);
      if Connected(g, seed, q) {
        ConnectedTransitive(g, p, seed, q);
      }
      if Connected(g, p, q) {
        ConnectedTransitive(g, seed, p, q);
      }
    }
  }

  /** A scan's seed is a seed of every other scan. */
  lemma SeedShared(g: Grid, a: seq<Component>, b: seq<Component>, k: nat) returns (m: nat)
    requires g.w != 0 && IsScan(g, a) && IsScan(g, b) && k < |a|
    ensures m < |b| && Seed(b[m]) == Seed(a[k])
    ensures forall q :: q in b[m].cells <==> q in a[k].cells
  {
    assert Good(g, a[k]);
    var seed := Seed(a[k]);
    assert Hot(g, a[k].cells[0]);
    m := ComponentHolding(g, b, seed);
    assert Good(g, b[m]);
    assert Seed(b[m]) in b[m].cells;
  }

  predicate Ascending(s: seq<int>) {
    forall i, j :: 0 <= i < j < |s| ==> s[i] < s[j]
  }

  lemma LastIsGreatest(s: seq<int>, v: int)
    requires Ascending(s) && v in s
    ensures v <= s[|s| - 1]
  {
  }

  lemma InFront(s: seq<int>, v: int)
    requires Ascending(s) && s != []
    ensures v in s[..|s| - 1] <==> v in s && v != s[|s| - 1]
  {
    var n := |s| - 1;
    if v in s && v != s[n] {
      var k :| 0 <= k < |s| && s[k] == v;
      assert s[..n][k] == v;
    }
  }

  lemma NonemptyToo(x: seq<int>, y: seq<int>)
    requires x != [] && forall v :: v in x ==> v in y
    ensures y != []
  {
    assert x[0] in x;
    var k :| 0 <= k < |y| && y[k] == x[0];
  }

  /** Ascending sequences of the same numbers are equal. */
  lemma {:induction false} SameAscending(x: seq<int>, y: seq<int>)
    requires Ascending(x) && Ascending(y) && forall v :: v in x <==> v in y
    ensures x == y
    decreases |x|
  {
    if x == [] {
      if y != [] {
        NonemptyToo(y, x);
      }
    } else {
      NonemptyToo(x, y);
      var m, n := |x| - 1, |y| - 1;
      assert x[m] in y && y[n] in x;
      LastIsGreatest(x, y[n]);
      LastIsGreatest(y, x[m]);
      forall v
        ensures v in x[..m] <==> v in y[..n]
      {
        InFront(x, v);
        InFront(y, v);
      }
      SameAscending(x[..m], y[..n]);
      assert x == x[..m] + [x[m]] && y == y[..n] + [y[n]];
    }
  }

  function Seeds(components: seq<Component>): (r: seq<int>)
    ensures |r| == |components| && forall k :: 0 <= k < |r| ==> r[k] == Seed(components[k])
  {
    seq(|components|, k requires 0 <= k < |components| => Seed(components[k]))
  }

  lemma SeedsShared(g: Grid, a: seq<Component>, b: seq<Component>)
    requires g.w != 0 && IsScan(g, a) && IsScan(g, b)
    ensures forall v :: v in Seeds(a) ==> v in Seeds(b)
  {
    forall v | v in Seeds(a)
      ensures v in Seeds(b)
    {
      var k :| 0 <= k < |a| && Seeds(a)[k] == v;
      var m := SeedShared(g, a, b, k);
      assert Seeds(b)[m] == v;
    }
  }

  /** Any two scans of one grid list the same components in the same order. */
  lemma ScanUnique(g: Grid, a: seq<Component>, b: seq<Component>)
    requires g.w != 0 && IsScan(g, a) && IsScan(g, b)
    ensures |a| == |b|
    ensures forall k, q :: 0 <= k < |a| ==> (q in a[k].cells <==> q in b[k].cells)
  {
    SeedsShared(g, a, b);
    SeedsShared(g, b, a);
    SameAscending(Seeds(a), Seeds(b));
    forall k, q | 0 <= k < |a|
      ensures q in a[k].cells <==> q in b[k].cells
    {
      assert Seeds(a)[k] == Seed(a[k]) && Seeds(b)[k] == Seed(b[k]);
      assert Good(g, a[k]) && Good(g, b[k]);
    }
  }

  ghost predicate Together(components: seq<Component>, p: int, q: int) {
    exists k :: 0 <= k < |components| && p in components[k].cells && q in components[k].cells
  }

  /** Two cells end up in one component exactly when a path of hot cells joins them. */
  lemma TogetherIsConnected(g: Grid, components: seq<Component>, p: int, q: int)
    requires g.w != 0 && IsScan(g, components)
    ensures Together(components, p, q) <==> Connected(g, p, q)
  {
    if Together(components, p, q) {
      var k :| 0 <= k < |components| && p in components[k].cells && q in components[k].cells;
      var seed := components[k].cells[0];
      assert Good(g, components[k]);
      ConnectedSymmetric(g, seed, p);
      ConnectedTransitive(g, p, seed, q);
    }
    if Connected(g, p, q) {
      ConnectedHot(g, p, q);
      assert Covered(components, p);
      var k :| 0 <= k < |components| && p in components[k].cells;
      assert Good(g, components[k]);
      ConnectedTransitive(g, components[k].cells[0], p, q);
      assert q in components[k].cells;
    }
  }
}
