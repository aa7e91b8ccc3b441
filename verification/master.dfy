/** The coordinator of src/js/master.js: the iteration count and its clamps
    (`Fractal.iter`), the split of the canvas into tiles and their submission
    to the queue (`Splitter.fractx`), the order in which finished tiles are
    drawn, how a render ends, and `run`, which cancels the waiting tiles of the
    previous render before submitting the next. */
module Master {
  import opened Js
  import opened Queue

  // ---------------------------------------------------------------------------
  // Tile bounds

  /** A nonzero multiple of c is at least c away from zero. */
  lemma MulStep(d: int, c: int)
    requires c > 0
    ensures d >= 1 ==> d * c >= c
    ensures d <= -1 ==> d * c <= -c
  {
    if d >= 1 {
      MulNonneg(d - 1, c);
      assert d * c == (d - 1) * c + c;
    } else if d <= -1 {
      MulNonneg(-d - 1, c);
      assert d * c == -((-d - 1) * c) - c;
    }
  }

  lemma MulNonneg(x: nat, y: nat)
    ensures x * y >= 0
    ensures y == 0 ==> x * y == 0
  {
  }

  /** A floor quotient is pinned down by the multiple of the divisor below the dividend. */
  lemma FloorUnique(q: int, a: int, c: int)
    requires c > 0 && q * c <= a < q * c + c
    ensures a / c == q
  {
    var d := a / c - q;
    assert a == (a / c) * c + a % c;
    assert d * c == (a / c) * c - q * c;
    MulStep(d, c);
  }

  lemma MulMonotone(i: nat, j: nat, e: nat)
    requires i <= j
    ensures i * e <= j * e
  {
    MulNonneg(j - i, e);
    assert j * e - i * e == (j - i) * e;
  }

  lemma DivMonotone(a: nat, b: nat, c: nat)
    requires c > 0 && a <= b
    ensures a / c <= b / c
  {
    var q := b / c;
    assert b == q * c + b % c;
    if a < q * c {
      DivBelow(a, q, c);
    } else {
      FloorUnique(q, a, c);
    }
  }

  lemma DivBelow(a: nat, q: nat, c: nat)
    requires c > 0 && a < q * c
    ensures a / c < q
  {
    var k := a / c;
    assert a == k * c + a % c;
    assert (k - q) * c == k * c - q * c;
    MulStep(k - q, c);
  }

  /** `i * extent / count >>> 0`: where the i-th of count equal spans of
      [0, extent) starts. The division is exact rational division (the source
      divides doubles). */
  function Bound(i: nat, extent: nat, count: nat): (r: int)
    requires count > 0
    ensures 0 <= r < TWO_32
    ensures extent < TWO_32 && i <= count ==> r == i * extent / count
  {
    if extent < TWO_32 && i <= count then
      TruncQuotient(i * extent, count);
      MulMonotone(i, count, extent);
      DivMonotone(i * extent, count * extent, count);
      FloorUnique(extent, count * extent, count);
      ToUint32(Trunc((i * extent) as real / count as real))
    else
      ToUint32(Trunc((i * extent) as real / count as real))
  }

  /** The spans start at 0 and the last one ends at extent. */
  lemma BoundEnds(extent: nat, count: nat)
    requires count > 0 && extent < TWO_32
    ensures Bound(0, extent, count) == 0
    ensures Bound(count, extent, count) == extent
  {
    FloorUnique(extent, count * extent, count);
  }

  /** Span boundaries never decrease. */
  lemma BoundMonotone(i: nat, j: nat, extent: nat, count: nat)
    requires count > 0 && extent < TWO_32 && i <= j <= count
    ensures Bound(i, extent, count) <= Bound(j, extent, count)
  {
    MulMonotone(i, j, extent);
    DivMonotone(i * extent, j * extent, count);
  }

  /** The floor of (a + b) / c is the sum of the floors, plus one exactly when
      the remainders carry. */
  lemma DivSum(a: nat, b: nat, c: nat)
    requires c > 0
    ensures (a + b) / c == a / c + b / c + (if a % c + b % c >= c then 1 else 0)
  {
    var carry := if a % c + b % c >= c then 1 else 0;
    var q := a / c + b / c + carry;
    assert a == (a / c) * c + a % c && b == (b / c) * c + b % c;
    assert q * c == (a / c) * c + (b / c) * c + carry * c;
    FloorUnique(q, a + b, c);
  }

  /** Every span is extent / count wide, rounded down or up: the widths differ
      by at most one, and are all equal when count divides extent. */
  lemma SpanWidth(i: nat, extent: nat, count: nat)
    requires count > 0 && extent < TWO_32 && i < count
    ensures var w := Bound(i + 1, extent, count) - Bound(i, extent, count);
            w == extent / count || (extent % count != 0 && w == extent / count + 1)
  {
    assert (i + 1) * extent == i * extent + extent;
    DivSum(i * extent, extent, count);
  }

  /** The widths of the first n spans. */
  function SpanSum(extent: nat, count: nat, n: nat): int
    requires count > 0
  {
    if n == 0 then 0 else SpanSum(extent, count, n - 1) + (Bound(n, extent, count) - Bound(n - 1, extent, count))
  }

  /** The widths of all the spans add up to extent. */
  lemma SpansSumToExtent(extent: nat, count: nat)
    requires count > 0 && extent < TWO_32
    ensures SpanSum(extent, count, count) == extent
  {
    BoundEnds(extent, count);
    SpanTelescopes(extent, count, count);
  }

  /** The widths of the first n spans add up to where span n starts. */
  lemma {:induction false} SpanTelescopes(extent: nat, count: nat, n: nat)
    requires count > 0 && extent < TWO_32 && n <= count
    ensures SpanSum(extent, count, n) == Bound(n, extent, count)
  {
    BoundEnds(extent, count);
    if n > 0 {
      SpanTelescopes(extent, count, n - 1);
    }
  }

  /** The width of the i-th span. */
  function SpanW(i: nat, extent: nat, count: nat): int
    requires count > 0
  {
    Bound(i + 1, extent, count) - Bound(i, extent, count)
  }

  /** Spans at least one pixel wide add up to at least their number. */
  lemma {:induction false} SpanSumAtLeast(extent: nat, count: nat, n: nat)
    requires count > 0 && forall i :: 0 <= i < n ==> SpanW(i, extent, count) >= 1
    ensures SpanSum(extent, count, n) >= n
  {
    if n > 0 {
      SpanSumAtLeast(extent, count, n - 1);
      assert SpanW(n - 1, extent, count) >= 1;
    }
  }

  /** Fewer pixels than spans: some span is empty. */
  lemma SomeSpanEmpty(extent: nat, count: nat)
    requires count > 0 && extent < TWO_32 && extent < count
    ensures exists i :: 0 <= i < count && SpanW(i, extent, count) == 0
  {
    forall i | 0 <= i < count ensures SpanW(i, extent, count) >= 0 {
      BoundMonotone(i, i + 1, extent, count);
    }
    if forall i :: 0 <= i < count ==> SpanW(i, extent, count) >= 1 {
      SpanSumAtLeast(extent, count, count);
      SpansSumToExtent(extent, count);
    }
  }

  /** A span lies inside [0, extent). */
  lemma SpanInside(i: nat, extent: nat, count: nat)
    requires count > 0 && i < count
    ensures extent < TWO_32 ==> 0 <= Bound(i, extent, count) <= Bound(i + 1, extent, count) <= extent
  {
    if extent < TWO_32 {
      BoundEnds(extent, count);
      BoundMonotone(i, i + 1, extent, count);
      BoundMonotone(i + 1, count, extent, count);
    }
  }

  /** The span that holds pixel x, searched among the first n. */
  function SpanIndex(x: nat, extent: nat, count: nat, n: nat): (i: nat)
    requires count > 0 && extent < TWO_32 && n <= count && x < Bound(n, extent, count)
    ensures i < n && Bound(i, extent, count) <= x < Bound(i + 1, extent, count)
  {
    BoundEnds(extent, count);
    if Bound(n - 1, extent, count) <= x then n - 1 else SpanIndex(x, extent, count, n - 1)
  }

  /** No pixel is in two spans. */
  lemma SpanUnique(x: int, i: nat, j: nat, extent: nat, count: nat)
    requires count > 0 && extent < TWO_32 && i < count && j < count
    requires Bound(i, extent, count) <= x < Bound(i + 1, extent, count)
    requires Bound(j, extent, count) <= x < Bound(j + 1, extent, count)
    ensures i == j
  {
    if i < j {
      BoundMonotone(i + 1, j, extent, count);
    } else if j < i {
      BoundMonotone(j + 1, i, extent, count);
    }
  }

  // ---------------------------------------------------------------------------
  // Tiles

  /** One tile request: `w` x `h` pixels at (`px`, `py`) of the canvas, rendered
      with `iter` iterations. The request's view origin x0 + px*dx, y0 + py*dy
      is computed from px and py. */
  datatype Tile = Tile(px: int, py: int, w: int, h: int, iter: int)

  /** The tile in column c and row r: it starts at c * width / cols and ends
      where the next column starts, rounded down, and likewise for rows; it
      lies inside the canvas. */
  function TileAt(c: nat, r: nat, cols: nat, rows: nat, width: nat, height: nat, iter: int): (t: Tile)
    requires c < cols && r < rows
    ensures t.iter == iter
    ensures width < TWO_32 ==>
              t.px == c * width / cols && t.px + t.w == (c + 1) * width / cols && 0 <= t.px <= t.px + t.w <= width
    ensures height < TWO_32 ==>
              t.py == r * height / rows && t.py + t.h == (r + 1) * height / rows && 0 <= t.py <= t.py + t.h <= height
  {
    SpanInside(c, width, cols);
    SpanInside(r, height, rows);
    var px := Bound(c, width, cols);
    var py := Bound(r, height, rows);
    Tile(px, py, Bound(c + 1, width, cols) - px, Bound(r + 1, height, rows) - py, iter)
  }

  /** The tiles of column c, top to bottom. */
  function Column(c: nat, cols: nat, rows: nat, width: nat, height: nat, iter: int): (ts: seq<Tile>)
    requires c < cols
    ensures |ts| == rows
  {
    seq(rows, r requires 0 <= r < rows => TileAt(c, r, cols, rows, width, height, iter))
  }

  /** The tiles of the first n columns, column by column. */
  function TilesUpTo(n: nat, cols: nat, rows: nat, width: nat, height: nat, iter: int): seq<Tile>
    requires n <= cols
  {
    if n == 0 then [] else TilesUpTo(n - 1, cols, rows, width, height, iter) + Column(n - 1, cols, rows, width, height, iter)
  }

  /** Every tile of the canvas, in the order `fractx` submits them. */
  function Tiles(cols: nat, rows: nat, width: nat, height: nat, iter: int): seq<Tile> {
    TilesUpTo(cols, cols, rows, width, height, iter)
  }

  /** The tiles of the first n columns are n * rows tiles. */
  lemma {:induction false} TilesUpToLength(n: nat, cols: nat, rows: nat, width: nat, height: nat, iter: int)
    requires n <= cols
    ensures |TilesUpTo(n, cols, rows, width, height, iter)| == n * rows
  {
    if n > 0 {
      TilesUpToLength(n - 1, cols, rows, width, height, iter);
      assert n * rows == (n - 1) * rows + rows;
    }
  }

  /** Column-major order: the tile of column c and row r comes at c * rows + r. */
  lemma {:induction false} TilesUpToAt(n: nat, c: nat, r: nat, cols: nat, rows: nat, width: nat, height: nat, iter: int)
    requires n <= cols && c < n && r < rows
    ensures c * rows + r < |TilesUpTo(n, cols, rows, width, height, iter)|
    ensures TilesUpTo(n, cols, rows, width, height, iter)[c * rows + r] == TileAt(c, r, cols, rows, width, height, iter)
  {
    TilesUpToLength(n - 1, cols, rows, width, height, iter);
    if c < n - 1 {
      TilesUpToAt(n - 1, c, r, cols, rows, width, height, iter);
    } else {
      assert c * rows == (n - 1) * rows;
    }
  }

  /** There are cols x rows tiles, and the k-th is the tile of column c and
      row r where k == c * rows + r. */
  lemma TileOfIndex(k: nat, cols: nat, rows: nat, width: nat, height: nat, iter: int) returns (c: nat, r: nat)
    requires k < |Tiles(cols, rows, width, height, iter)|
    ensures |Tiles(cols, rows, width, height, iter)| == cols * rows
    ensures c < cols && r < rows && k == c * rows + r
    ensures Tiles(cols, rows, width, height, iter)[k] == TileAt(c, r, cols, rows, width, height, iter)
  {
    TilesUpToLength(cols, cols, rows, width, height, iter);
    MulNonneg(cols, rows);
    DivBelow(k, cols, rows);
    c, r := k / rows, k % rows;
    assert k == c * rows + r;
    TilesUpToAt(cols, c, r, cols, rows, width, height, iter);
  }

  /** Pixel (x, y) lies in tile t. */
  predicate Covers(t: Tile, x: int, y: int) {
    t.px <= x < t.px + t.w && t.py <= y < t.py + t.h
  }

  /** Coordinate x lies in the i-th of count spans of [0, extent). */
  predicate InSpan(x: int, i: nat, extent: nat, count: nat)
    requires count > 0
  {
    Bound(i, extent, count) <= x < Bound(i + 1, extent, count)
  }

  /** The tile of column c and row r covers exactly the pixels of column span c and row span r. */
  lemma CoversTileAt(c: nat, r: nat, cols: nat, rows: nat, width: nat, height: nat, iter: int, x: int, y: int)
    requires c < cols && r < rows
    ensures Covers(TileAt(c, r, cols, rows, width, height, iter), x, y) <==>
            InSpan(x, c, width, cols) && InSpan(y, r, height, rows)
  {
  }

  /** Some tile covers pixel (x, y): the one whose column and row hold it. */
  lemma TilesCover(cols: nat, rows: nat, width: nat, height: nat, iter: int, x: nat, y: nat)
      returns (k: nat)
    requires 0 < cols && 0 < rows && width < TWO_32 && height < TWO_32
    requires x < width && y < height
    ensures k < |Tiles(cols, rows, width, height, iter)| && Covers(Tiles(cols, rows, width, height, iter)[k], x, y)
  {
    BoundEnds(width, cols);
    BoundEnds(height, rows);
    var c := SpanIndex(x, width, cols, cols);
    var r := SpanIndex(y, height, rows, rows);
    CoversTileAt(c, r, cols, rows, width, height, iter, x, y);
    TilesUpToAt(cols, c, r, cols, rows, width, height, iter);
    MulNonneg(c, rows);
    k := c * rows + r;
  }

  /** No two tiles cover the same pixel. */
  lemma TilesDisjoint(cols: nat, rows: nat, width: nat, height: nat, iter: int, x: int, y: int, k1: nat, k2: nat)
    requires 0 < cols && 0 < rows && width < TWO_32 && height < TWO_32
    requires k1 < |Tiles(cols, rows, width, height, iter)| && k2 < |Tiles(cols, rows, width, height, iter)|
    requires Covers(Tiles(cols, rows, width, height, iter)[k1], x, y)
    requires Covers(Tiles(cols, rows, width, height, iter)[k2], x, y)
    ensures k1 == k2
  {
    var c1, r1 := TileOfIndex(k1, cols, rows, width, height, iter);
    var c2, r2 := TileOfIndex(k2, cols, rows, width, height, iter);
    CoversTileAt(c1, r1, cols, rows, width, height, iter, x, y);
    CoversTileAt(c2, r2, cols, rows, width, height, iter, x, y);
    SpanUnique(x, c1, c2, width, cols);
    SpanUnique(y, r1, r2, height, rows);
  }

  /** A tile covers only pixels of the canvas. */
  lemma TilesInsideCanvas(cols: nat, rows: nat, width: nat, height: nat, iter: int, k: nat, x: int, y: int)
    requires 0 < cols && 0 < rows && width < TWO_32 && height < TWO_32
    requires k < |Tiles(cols, rows, width, height, iter)| && Covers(Tiles(cols, rows, width, height, iter)[k], x, y)
    ensures 0 <= x < width && 0 <= y < height
  {
    var c, r := TileOfIndex(k, cols, rows, width, height, iter);
  }

  /** The tiles partition the canvas: a pixel lies in some tile exactly when
      it is on the canvas, and never in two. */
  lemma TilesPartitionCanvas(cols: nat, rows: nat, width: nat, height: nat, iter: int, x: int, y: int)
    requires 0 < cols && 0 < rows && width < TWO_32 && height < TWO_32
    ensures var ts := Tiles(cols, rows, width, height, iter);
            (exists k :: 0 <= k < |ts| && Covers(ts[k], x, y)) <==> 0 <= x < width && 0 <= y < height
    ensures var ts := Tiles(cols, rows, width, height, iter);
            forall k1, k2 :: 0 <= k1 < |ts| && 0 <= k2 < |ts| && Covers(ts[k1], x, y) && Covers(ts[k2], x, y) ==> k1 == k2
  {
    var ts := Tiles(cols, rows, width, height, iter);
    if 0 <= x < width && 0 <= y < height {
      var k := TilesCover(cols, rows, width, height, iter, x, y);
      assert Covers(ts[k], x, y);
    }
    forall k | 0 <= k < |ts| && Covers(ts[k], x, y) ensures 0 <= x < width && 0 <= y < height {
      TilesInsideCanvas(cols, rows, width, height, iter, k, x, y);
    }
    forall k1, k2 | 0 <= k1 < |ts| && 0 <= k2 < |ts| && Covers(ts[k1], x, y) && Covers(ts[k2], x, y)
      ensures k1 == k2
    {
      TilesDisjoint(cols, rows, width, height, iter, x, y, k1, k2);
    }
  }

  /** A tile is at least extent / count wide in each direction, so never empty
      when the canvas has at least as many pixels as tiles across. */
  lemma TileAtSize(c: nat, r: nat, cols: nat, rows: nat, width: nat, height: nat, iter: int)
    requires c < cols && r < rows && width < TWO_32 && height < TWO_32
    ensures var t := TileAt(c, r, cols, rows, width, height, iter);
            t.w >= width / cols && t.h >= height / rows &&
            (cols <= width ==> t.w > 0) && (rows <= height ==> t.h > 0)
  {
    SpanWidth(c, width, cols);
    SpanWidth(r, height, rows);
    FloorUnique(1, cols, cols);
    FloorUnique(1, rows, rows);
    if cols <= width {
      DivMonotone(cols, width, cols);
    }
    if rows <= height {
      DivMonotone(rows, height, rows);
    }
  }

  /** A canvas narrower than cols still gets its tiles, and one of them is empty. */
  lemma NarrowCanvasHasEmptyTile(cols: nat, rows: nat, width: nat, height: nat, iter: int)
    requires 0 < cols && 0 < rows && width < TWO_32 && width < cols
    ensures var ts := Tiles(cols, rows, width, height, iter);
            |ts| == cols * rows && exists k :: 0 <= k < |ts| && ts[k].w == 0
  {
    var ts := Tiles(cols, rows, width, height, iter);
    TilesUpToLength(cols, cols, rows, width, height, iter);
    SomeSpanEmpty(width, cols);
    var c :| 0 <= c < cols && SpanW(c, width, cols) == 0;
    TilesUpToAt(cols, c, 0, cols, rows, width, height, iter);
    assert ts[c * rows].w == 0;
  }

  /** When the canvas is at least cols wide and rows high, no tile is empty; a
      narrower canvas still gets cols x rows tiles, some of them empty. */
  lemma TilesNonEmpty(cols: nat, rows: nat, width: nat, height: nat, iter: int)
    requires 0 < cols && 0 < rows && width < TWO_32 && height < TWO_32
    ensures var ts := Tiles(cols, rows, width, height, iter);
            forall k :: 0 <= k < |ts| ==>
              ts[k].w >= width / cols && ts[k].h >= height / rows &&
              (cols <= width ==> ts[k].w > 0) && (rows <= height ==> ts[k].h > 0)
    ensures var ts := Tiles(cols, rows, width, height, iter);
            width < cols ==> |ts| == cols * rows && exists k :: 0 <= k < |ts| && ts[k].w == 0
  {
    if width < cols {
      NarrowCanvasHasEmptyTile(cols, rows, width, height, iter);
    }
    var ts := Tiles(cols, rows, width, height, iter);
    forall k | 0 <= k < |ts|
      ensures ts[k].w >= width / cols && ts[k].h >= height / rows
      ensures (cols <= width ==> ts[k].w > 0) && (rows <= height ==> ts[k].h > 0)
    {
      var c, r := TileOfIndex(k, cols, rows, width, height, iter);
      TileAtSize(c, r, cols, rows, width, height, iter);
    }
  }

  // ---------------------------------------------------------------------------
  // The iteration count

  const MAX_ITER: int := 5000

  /** A valid iteration count. */
  predicate IterOk(iter: int) {
    1 <= iter <= MAX_ITER
  }

  /** The "incr-iter" button: `Math.min(MAX_ITER, iter*2 >>> 0)`. */
  function IncreasedIter(iter: int): (r: int)
    ensures r <= MAX_ITER
    ensures IterOk(iter) ==> IterOk(r) && iter <= r && (r == iter <==> iter == MAX_ITER)
    ensures IterOk(iter) ==> r == 2 * iter || (r == MAX_ITER && 2 * iter > MAX_ITER)
  {
    var doubled := ToUint32(iter * 2);
    if MAX_ITER < doubled then MAX_ITER else doubled
  }

  /** The "decr-iter" button: `Math.max(1, iter/2 >>> 0)`. */
  function DecreasedIter(iter: int): (r: int)
    ensures r >= 1
    ensures IterOk(iter) ==> IterOk(r) && r <= iter && (r == iter <==> iter == 1)
    ensures IterOk(iter) ==> r == iter / 2 || (r == 1 && iter == 1)
  {
    var halved := ToUint32(Trunc(iter as real / 2.0));
    if iter >= 0 then
      TruncQuotient(iter, 2);
      if 1 > halved then 1 else halved
    else if 1 > halved then 1 else halved
  }

  /** Halving undoes doubling below the cap, and doubling undoes halving of an even count. */
  lemma {:induction false} IterRoundTrips(iter: int)
    requires IterOk(iter)
    ensures 2 * iter <= MAX_ITER ==> DecreasedIter(IncreasedIter(iter)) == iter
    ensures iter % 2 == 0 ==> IncreasedIter(DecreasedIter(iter)) == iter
  {
    if 2 * iter <= MAX_ITER {
      assert IncreasedIter(iter) == 2 * iter;
    }
    if iter % 2 == 0 {
      assert DecreasedIter(iter) == iter / 2;
    }
  }

  /** `Math.max(Math.min(n|0, MAX_ITER), 1)` exactly as written: a count above
      2^31 - 1 wraps around before it is clamped. */
  function ClampIterAsWritten(n: int): (r: int)
    ensures IterOk(r)
    ensures -TWO_31 <= n < TWO_31 ==> r == ClampIter(n)
  {
    var m := ToInt32(n);
    var capped := if m < MAX_ITER then m else MAX_ITER;
    if capped > 1 then capped else 1
  }

  /** The clamp as evidently intended: the nearest count in [1, MAX_ITER]. */
  function ClampIter(n: int): (r: int)
    ensures IterOk(r)
    ensures IterOk(n) ==> r == n
    ensures n > MAX_ITER ==> r == MAX_ITER
    ensures n < 1 ==> r == 1
  {
    var capped := if n < MAX_ITER then n else MAX_ITER;
    if capped > 1 then capped else 1
  }

  /** Typing 2147483648 gives 1 iteration as written, where the cap is 5000. */
  lemma ClampIterWrapsLargeInput()
    ensures ClampIterAsWritten(TWO_31) == 1
    ensures ClampIter(TWO_31) == MAX_ITER
  {
  }

  /** A count that `save` wrote is loaded back unchanged. */
  lemma SavedIterLoadsBack(iter: int)
    requires IterOk(iter)
    ensures ClampIterAsWritten(Trunc(iter as real)) == iter
  {
  }

  /** The fractal's parameters. Only the iteration count is modelled. */
  class Fractal {
    var iter: int

    ghost predicate Valid()
      reads this
    {
      IterOk(iter)
    }

    constructor ()
      ensures Valid() && iter == 100
    {
      iter := 100;
    }

    /** The "incr-iter" click handler. */
    method IncrIter()
      requires Valid()
      modifies this
      ensures Valid() && iter == IncreasedIter(old(iter))
    {
      iter := IncreasedIter(iter);
    }

    /** The "decr-iter" click handler. */
    method DecrIter()
      requires Valid()
      modifies this
      ensures Valid() && iter == DecreasedIter(old(iter))
    {
      iter := DecreasedIter(iter);
    }

    /** The "input" handler of the iterations field: `parsed` is
        `parseInt(value)`, None when that is not finite (NaN). */
    method InputIter(parsed: Option<int>)
      modifies this
      ensures parsed.None? ==> iter == old(iter)
      ensures parsed.Some? ==> iter == ClampIterAsWritten(parsed.value)
      ensures old(Valid()) ==> Valid()
    {
      if parsed.Some? {
        iter := ClampIterAsWritten(parsed.value);
      }
    }

    /** The iteration part of `load`: `stored` is the finite number saved under "iter". */
    method LoadIter(stored: real)
      modifies this
      ensures Valid() && iter == ClampIterAsWritten(Trunc(stored))
    {
      iter := ClampIterAsWritten(Trunc(stored));
    }
  }

  // ---------------------------------------------------------------------------
  // Submitting a render

  /** The ids n consecutive tasks get, starting at base. */
  function Consecutive(base: nat, n: nat): (ids: seq<TaskId>)
    ensures |ids| == n && forall k :: 0 <= k < n ==> ids[k] == base + k
  {
    seq(n, k requires 0 <= k < n => base + k)
  }

  /** The splitter: a canvas is rendered as cols x rows tiles, drawn when all
      are done (`vsync`) or each as soon as it is done. */
  class Splitter {
    const cols: nat
    const rows: nat
    var vsync: bool

    constructor (cols: nat, rows: nat)
      ensures this.cols == cols && this.rows == rows && vsync
    {
      this.cols := cols;
      this.rows := rows;
      vsync := true;
    }

    /** `fractx(fractal, queue, width, height, ctx)`: submits every tile, column
        by column and top to bottom within a column, with the fractal's
        iteration count. Returns the tasks, in submission order, and the draw
        mode that was current. Nothing already in the queue is settled by it. */
    method Fractx<R>(fractal: Fractal, queue: WorkerAsyncQueue<Tile, R>, width: nat, height: nat)
        returns (sink: seq<TaskId>, drawOnFrame: bool)
      requires queue.Valid()
      modifies queue
      ensures queue.Valid()
      ensures queue.submitted == old(queue.submitted) + Tiles(cols, rows, width, height, fractal.iter)
      ensures |sink| == cols * rows && sink == Consecutive(|old(queue.submitted)|, |sink|)
      ensures queue.settled == old(queue.settled) && drawOnFrame == vsync
      ensures forall w :: w in old(queue.busy) ==> w in queue.busy && queue.busy[w] == old(queue.busy[w])
    {
      drawOnFrame := vsync;
      var iter := fractal.iter;
      ghost var submitted0, settled0, busy0 := queue.submitted, queue.settled, queue.busy;
      ghost var base := |submitted0|;
      sink := [];
      var c := 0;
      while c < cols
        invariant 0 <= c <= cols
        invariant queue.Valid()
        invariant queue.submitted == submitted0 + TilesUpTo(c, cols, rows, width, height, iter)
        invariant sink == Consecutive(base, c * rows)
        invariant queue.settled == settled0
        invariant forall w :: w in busy0 ==> w in queue.busy && queue.busy[w] == busy0[w]
      {
        ghost var before := queue.submitted;
        var ids := SubmitColumn(queue, c, cols, rows, width, height, iter);
        ColumnsSnoc(submitted0, c, cols, rows, width, height, iter, before, queue.submitted, sink, ids);
        sink := sink + ids;
        c := c + 1;
      }
    }
  }

  /** One more column submitted: the submitted tasks are the first c + 1
      columns after the earlier ones, and their ids still run consecutively. */
  lemma ColumnsSnoc(prefix: seq<Tile>, c: nat, cols: nat, rows: nat, width: nat, height: nat, iter: int,
                    before: seq<Tile>, after: seq<Tile>, sink: seq<TaskId>, ids: seq<TaskId>)
    requires c < cols
    requires before == prefix + TilesUpTo(c, cols, rows, width, height, iter)
    requires after == before + Column(c, cols, rows, width, height, iter)
    requires sink == Consecutive(|prefix|, c * rows) && ids == Consecutive(|before|, rows)
    ensures after == prefix + TilesUpTo(c + 1, cols, rows, width, height, iter)
    ensures sink + ids == Consecutive(|prefix|, (c + 1) * rows)
  {
    TilesUpToLength(c, cols, rows, width, height, iter);
    ConsecutiveAppend(|prefix|, c * rows, rows);
    assert (c + 1) * rows == c * rows + rows;
  }

  /** Appending the next m ids to the first n consecutive ids. */
  lemma ConsecutiveAppend(base: nat, n: nat, m: nat)
    ensures Consecutive(base, n) + Consecutive(base + n, m) == Consecutive(base, n + m)
  {
  }

  /** Appending the next id to the first n consecutive ids. */
  lemma ConsecutiveSnoc(base: nat, n: nat, ids: seq<TaskId>, id: TaskId)
    requires ids == Consecutive(base, n) && id == base + n
    ensures ids + [id] == Consecutive(base, n + 1)
  {
  }

  /** The inner loop of `fractx`: the tiles of column c, top to bottom. */
  method SubmitColumn<R>(queue: WorkerAsyncQueue<Tile, R>, c: nat, cols: nat, rows: nat,
                         width: nat, height: nat, iter: int) returns (ids: seq<TaskId>)
    requires queue.Valid() && c < cols
    modifies queue
    ensures queue.Valid()
    ensures queue.submitted == old(queue.submitted) + Column(c, cols, rows, width, height, iter)
    ensures ids == Consecutive(|old(queue.submitted)|, rows)
    ensures queue.settled == old(queue.settled)
    ensures forall w :: w in old(queue.busy) ==> w in queue.busy && queue.busy[w] == old(queue.busy[w])
  {
    ghost var submitted0, settled0, busy0 := queue.submitted, queue.settled, queue.busy;
    ghost var base := |submitted0|;
    ids := [];
    var r := 0;
    while r < rows
      invariant 0 <= r <= rows
      invariant queue.Valid()
      invariant queue.submitted == submitted0 + Column(c, cols, rows, width, height, iter)[..r]
      invariant ids == Consecutive(base, r)
      invariant queue.settled == settled0
      invariant forall w :: w in busy0 ==> w in queue.busy && queue.busy[w] == busy0[w]
    {
      ghost var before := queue.submitted;
      var tile := TileAt(c, r, cols, rows, width, height, iter);
      var id := queue.SubmitTask(tile);
      ColumnSnoc(submitted0, c, cols, rows, width, height, iter, r, before, queue.submitted);
      ConsecutiveSnoc(base, r, ids, id);
      ids := ids + [id];
      r := r + 1;
    }
    ColumnDone(submitted0, c, cols, rows, width, height, iter, queue.submitted);
  }

  /** One more tile of column c submitted: the submitted tasks are the first
      r + 1 tiles of the column after the earlier ones. */
  lemma ColumnSnoc(prefix: seq<Tile>, c: nat, cols: nat, rows: nat, width: nat, height: nat, iter: int,
                   r: nat, before: seq<Tile>, after: seq<Tile>)
    requires c < cols && r < rows
    requires before == prefix + Column(c, cols, rows, width, height, iter)[..r]
    requires after == before + [TileAt(c, r, cols, rows, width, height, iter)]
    ensures |before| == |prefix| + r
    ensures after == prefix + Column(c, cols, rows, width, height, iter)[..r + 1]
  {
    var column := Column(c, cols, rows, width, height, iter);
    assert column[..r + 1] == column[..r] + [column[r]];
  }

  /** All rows of column c submitted. */
  lemma ColumnDone(prefix: seq<Tile>, c: nat, cols: nat, rows: nat, width: nat, height: nat, iter: int,
                   after: seq<Tile>)
    requires c < cols
    requires after == prefix + Column(c, cols, rows, width, height, iter)[..rows]
    ensures after == prefix + Column(c, cols, rows, width, height, iter)
  {
    var column := Column(c, cols, rows, width, height, iter);
    assert column[..rows] == column;
  }


  /** `run()`: rejects the tiles still waiting from earlier renders ("job
      canceled"), then submits the tiles of the canvas. Tiles already running
      are not cancelled and go on to settle normally. */
  method Run<R>(queue: WorkerAsyncQueue<Tile, R>, splitter: Splitter, fractal: Fractal, width: nat, height: nat)
      returns (sink: seq<TaskId>, drawOnFrame: bool)
    requires queue.Valid()
    modifies queue
    ensures queue.Valid()
    ensures forall id :: id in old(queue.pending) ==> id in queue.settled && queue.settled[id] == Rejected(JOB_CANCELED)
    ensures forall w :: w in old(queue.busy) ==> w in queue.busy && queue.busy[w] == old(queue.busy[w]) &&
                                                  queue.busy[w] !in queue.settled
    ensures Extends(old(queue.settled), queue.settled)
    ensures queue.submitted == old(queue.submitted) + Tiles(splitter.cols, splitter.rows, width, height, fractal.iter)
    ensures |sink| == splitter.cols * splitter.rows && sink == Consecutive(|old(queue.submitted)|, |sink|)
    ensures forall id :: id in sink ==> id !in queue.settled
  {
    queue.CancelPending();
    sink, drawOnFrame := splitter.Fractx(fractal, queue, width, height);
  }

  // ---------------------------------------------------------------------------
  // Drawing and the end of a render

  /** `ctx.drawImage(bitmap, px, py)`. */
  datatype Draw<R> = Draw(bitmap: R, px: int, py: int)

  /** Task id is one of the render's, base .. base + |tiles| - 1, and has resolved. */
  ghost predicate ResolvedTile<R>(tiles: seq<Tile>, base: nat, settled: map<TaskId, Outcome<R>>, id: TaskId) {
    base <= id < base + |tiles| && id in settled && settled[id].Resolved?
  }

  /** Every task of the render has resolved. */
  ghost predicate AllResolved<R>(tiles: seq<Tile>, base: nat, settled: map<TaskId, Outcome<R>>) {
    forall id: TaskId :: base <= id < base + |tiles| ==> id in settled && settled[id].Resolved?
  }

  /** The draws of the resolved tasks ids, in that order: each bitmap at its tile's place. */
  ghost function DrawsOf<R>(tiles: seq<Tile>, base: nat, settled: map<TaskId, Outcome<R>>, ids: seq<TaskId>): (ds: seq<Draw<R>>)
    requires forall id :: id in ids ==> ResolvedTile(tiles, base, settled, id)
    ensures |ds| == |ids|
  {
    seq(|ids|, i requires 0 <= i < |ids| && ResolvedTile(tiles, base, settled, ids[i]) =>
      Draw(settled[ids[i]].value, tiles[ids[i] - base].px, tiles[ids[i] - base].py))
  }

  /** The draws of two runs of tasks, one after the other. */
  lemma DrawsOfAppend<R>(tiles: seq<Tile>, base: nat, settled: map<TaskId, Outcome<R>>, xs: seq<TaskId>, ys: seq<TaskId>)
    requires forall id :: id in xs + ys ==> ResolvedTile(tiles, base, settled, id)
    ensures DrawsOf(tiles, base, settled, xs + ys) == DrawsOf(tiles, base, settled, xs) + DrawsOf(tiles, base, settled, ys)
  {
    assert forall id :: id in xs ==> id in xs + ys;
    assert forall id :: id in ys ==> id in xs + ys;
  }

  /** With vsync: nothing is drawn until every tile has resolved; then, in one
      animation frame, every tile is drawn at its place, in submission order. */
  ghost function FrameDraws<R>(tiles: seq<Tile>, base: nat, settled: map<TaskId, Outcome<R>>): (ds: seq<Draw<R>>)
    ensures !AllResolved(tiles, base, settled) ==> ds == []
    ensures AllResolved(tiles, base, settled) ==>
              |ds| == |tiles| &&
              forall k :: 0 <= k < |tiles| ==>
                base + k in settled && ds[k] == Draw(settled[base + k].value, tiles[k].px, tiles[k].py)
  {
    if AllResolved(tiles, base, settled) then
      DrawsOf(tiles, base, settled, Consecutive(base, |tiles|))
    else []
  }

  /** Without vsync: each tile is drawn as soon as it resolves. `arrivals` are
      the render's tasks in the order they settled; a rejected task draws
      nothing. EagerDrawsOfResolved states the draws outright: those of the
      resolved tiles, in arrival order. */
  ghost function EagerDraws<R>(tiles: seq<Tile>, base: nat, settled: map<TaskId, Outcome<R>>, arrivals: seq<TaskId>): (ds: seq<Draw<R>>)
    ensures |ds| <= |arrivals|
  {
    if arrivals == [] then []
    else EagerDraws(tiles, base, settled, arrivals[..|arrivals| - 1]) + DrawIfResolved(tiles, base, settled, arrivals[|arrivals| - 1])
  }

  /** The draw a task that just settled makes: its bitmap at its tile's place
      if it is one of the render's and resolved, nothing otherwise. */
  ghost function DrawIfResolved<R>(tiles: seq<Tile>, base: nat, settled: map<TaskId, Outcome<R>>, id: TaskId): seq<Draw<R>> {
    if ResolvedTile(tiles, base, settled, id)
    then [Draw(settled[id].value, tiles[id - base].px, tiles[id - base].py)] else []
  }

  /** The task itself if it is one of the render's and resolved, nothing otherwise. */
  ghost function KeepIfResolved<R>(tiles: seq<Tile>, base: nat, settled: map<TaskId, Outcome<R>>, id: TaskId): seq<TaskId> {
    if ResolvedTile(tiles, base, settled, id) then [id] else []
  }

  /** The resolved tasks of `arrivals`, in arrival order. */
  ghost function ResolvedArrivals<R>(tiles: seq<Tile>, base: nat, settled: map<TaskId, Outcome<R>>, arrivals: seq<TaskId>): (ids: seq<TaskId>)
    ensures forall id :: id in ids <==> id in arrivals && ResolvedTile(tiles, base, settled, id)
  {
    if arrivals == [] then []
    else ResolvedArrivals(tiles, base, settled, arrivals[..|arrivals| - 1]) + KeepIfResolved(tiles, base, settled, arrivals[|arrivals| - 1])
  }

  /** Whatever has settled, the eager mode draws exactly the resolved tiles,
      in arrival order; a rejected or foreign task draws nothing. */
  lemma {:induction false} EagerDrawsOfResolved<R>(tiles: seq<Tile>, base: nat, settled: map<TaskId, Outcome<R>>, arrivals: seq<TaskId>)
    ensures EagerDraws(tiles, base, settled, arrivals) ==
            DrawsOf(tiles, base, settled, ResolvedArrivals(tiles, base, settled, arrivals))
  {
    if arrivals != [] {
      var init, last := arrivals[..|arrivals| - 1], arrivals[|arrivals| - 1];
      EagerDrawsOfResolved(tiles, base, settled, init);
      ResolvedArrivalsSnoc(tiles, base, settled, ResolvedArrivals(tiles, base, settled, init), last);
    }
  }

  /** Keeping one more task draws that task's draw after the others. */
  lemma ResolvedArrivalsSnoc<R>(tiles: seq<Tile>, base: nat, settled: map<TaskId, Outcome<R>>, ids: seq<TaskId>, id: TaskId)
    requires forall x :: x in ids ==> ResolvedTile(tiles, base, settled, x)
    ensures forall x :: x in ids + KeepIfResolved(tiles, base, settled, id) ==> ResolvedTile(tiles, base, settled, x)
    ensures DrawsOf(tiles, base, settled, ids + KeepIfResolved(tiles, base, settled, id)) ==
            DrawsOf(tiles, base, settled, ids) + DrawIfResolved(tiles, base, settled, id)
  {
    var more := KeepIfResolved(tiles, base, settled, id);
    DrawsOfAppend(tiles, base, settled, ids, more);
    assert DrawsOf(tiles, base, settled, more) == DrawIfResolved(tiles, base, settled, id);
  }

  /** The log of a render: each of its settled tasks once, and nothing else. */
  ghost predicate ArrivalLog<R>(tiles: seq<Tile>, base: nat, settled: map<TaskId, Outcome<R>>, arrivals: seq<TaskId>) {
    (forall i, j :: 0 <= i < j < |arrivals| ==> arrivals[i] != arrivals[j]) &&
    (forall id :: id in arrivals <==> base <= id < base + |tiles| && id in settled)
  }

  /** When every task in the log has resolved, the eager mode draws them all, in log order. */
  lemma {:induction false} EagerDrawsAllResolved<R>(tiles: seq<Tile>, base: nat, settled: map<TaskId, Outcome<R>>, arrivals: seq<TaskId>)
    requires forall id :: id in arrivals ==> ResolvedTile(tiles, base, settled, id)
    ensures EagerDraws(tiles, base, settled, arrivals) == DrawsOf(tiles, base, settled, arrivals)
  {
    if arrivals != [] {
      var init, last := arrivals[..|arrivals| - 1], arrivals[|arrivals| - 1];
      assert arrivals == init + [last];
      assert forall id :: id in init ==> id in arrivals;
      EagerDrawsAllResolved(tiles, base, settled, init);
      assert KeepIfResolved(tiles, base, settled, last) == [last];
      ResolvedArrivalsSnoc(tiles, base, settled, init, last);
    }
  }

  /** Taking the same element out of two sequences with the same elements leaves two with the same elements. */
  lemma RemoveOne(xs: seq<TaskId>, x: TaskId, ys: seq<TaskId>, j: nat)
    requires multiset(xs + [x]) == multiset(ys) && j < |ys| && ys[j] == x
    ensures multiset(xs) == multiset(ys[..j] + ys[j + 1..])
  {
    assert ys == ys[..j] + [x] + ys[j + 1..];
    calc {
      multiset(xs);
      multiset(xs + [x]) - multiset{x};
      multiset(ys) - multiset{x};
      multiset(ys[..j]) + multiset(ys[j + 1..]);
      multiset(ys[..j] + ys[j + 1..]);
    }
  }

  lemma ResolvedPermuted<R>(tiles: seq<Tile>, base: nat, settled: map<TaskId, Outcome<R>>, xs: seq<TaskId>, ys: seq<TaskId>)
    requires forall id :: id in xs ==> ResolvedTile(tiles, base, settled, id)
    requires multiset(xs) == multiset(ys)
    ensures forall id :: id in ys ==> ResolvedTile(tiles, base, settled, id)
  {
    forall id | id in ys ensures ResolvedTile(tiles, base, settled, id) {
      assert id in multiset(ys);
    }
  }

  /** Rearranging the tasks rearranges their draws the same way. */
  lemma {:induction false} DrawsOfPermutation<R>(tiles: seq<Tile>, base: nat, settled: map<TaskId, Outcome<R>>, xs: seq<TaskId>, ys: seq<TaskId>)
    requires forall id :: id in xs ==> ResolvedTile(tiles, base, settled, id)
    requires multiset(xs) == multiset(ys)
    ensures forall id :: id in ys ==> ResolvedTile(tiles, base, settled, id)
    ensures multiset(DrawsOf(tiles, base, settled, xs)) == multiset(DrawsOf(tiles, base, settled, ys))
    decreases |xs|
  {
    ResolvedPermuted(tiles, base, settled, xs, ys);
    if xs != [] {
      var x, xs' := xs[|xs| - 1], xs[..|xs| - 1];
      assert xs == xs' + [x];
      assert x in multiset(ys);
      var j :| 0 <= j < |ys| && ys[j] == x;
      var left, right := ys[..j], ys[j + 1..];
      assert ys == left + [x] + right;
      RemoveOne(xs', x, ys, j);
      assert forall id :: id in xs' ==> id in xs;
      DrawsOfPermutation(tiles, base, settled, xs', left + right);
      DrawsOfAppend(tiles, base, settled, xs', [x]);
      DrawsOfAppend(tiles, base, settled, left, right);
      DrawsOfAppend(tiles, base, settled, left + [x], right);
      DrawsOfAppend(tiles, base, settled, left, [x]);
    }
  }

  /** A sequence without repetitions holds each of its elements once. */
  lemma {:induction false} DistinctOnce(xs: seq<TaskId>, id: TaskId)
    requires forall i, j :: 0 <= i < j < |xs| ==> xs[i] != xs[j]
    ensures multiset(xs)[id] == if id in xs then 1 else 0
  {
    if xs != [] {
      var init := xs[..|xs| - 1];
      assert xs == init + [xs[|xs| - 1]];
      DistinctOnce(init, id);
    }
  }

  /** Once every tile has resolved, the eager mode has drawn exactly the draws
      of the vsync mode, each once, only in another order. */
  lemma EagerDrawsSameAsFrame<R>(tiles: seq<Tile>, base: nat, settled: map<TaskId, Outcome<R>>, arrivals: seq<TaskId>)
    requires AllResolved(tiles, base, settled) && ArrivalLog(tiles, base, settled, arrivals)
    ensures multiset(EagerDraws(tiles, base, settled, arrivals)) == multiset(FrameDraws(tiles, base, settled))
  {
    var ids := Consecutive(base, |tiles|);
    assert forall id :: id in arrivals ==> ResolvedTile(tiles, base, settled, id);
    forall id: TaskId ensures multiset(arrivals)[id] == multiset(ids)[id] {
      DistinctOnce(arrivals, id);
      DistinctOnce(ids, id);
      if base <= id < base + |tiles| {
        assert ids[id - base] == id;
      }
    }
    assert multiset(arrivals) == multiset(ids);
    EagerDrawsAllResolved(tiles, base, settled, arrivals);
    DrawsOfPermutation(tiles, base, settled, arrivals, ids);
  }

  /** How a render ends, as `run` sees it. */
  datatype RenderEnd =
    | InProgress          // some tile has not settled yet, and none has been rejected
    | Saved               // every tile resolved: `save` runs
    | Swallowed           // a tile was cancelled: the error is ignored
    | Thrown(reason: string)  // a tile failed otherwise: the error is rethrown

  /** The reason of the first of the render's tasks to be rejected, in `arrivals` order. */
  function FirstRejection<R>(settled: map<TaskId, Outcome<R>>, arrivals: seq<TaskId>): (r: Option<string>)
    ensures r.None? <==> forall i :: 0 <= i < |arrivals| && arrivals[i] in settled ==> settled[arrivals[i]].Resolved?
    ensures r.Some? ==> exists i :: 0 <= i < |arrivals| && arrivals[i] in settled && settled[arrivals[i]] == Rejected(r.value) &&
                                    forall j :: 0 <= j < i && arrivals[j] in settled ==> settled[arrivals[j]].Resolved?
  {
    if arrivals == [] then None
    else if arrivals[0] in settled && settled[arrivals[0]].Rejected? then Some(settled[arrivals[0]].reason)
    else
      var rest := FirstRejection(settled, arrivals[1..]);
      assert forall i :: 1 <= i < |arrivals| ==> arrivals[i] == arrivals[1..][i - 1];
      if rest.Some? then
        var i :| 0 <= i < |arrivals[1..]| && arrivals[1..][i] in settled && settled[arrivals[1..][i]] == Rejected(rest.value) &&
                 forall j :: 0 <= j < i && arrivals[1..][j] in settled ==> settled[arrivals[1..][j]].Resolved?;
        assert arrivals[i + 1] == arrivals[1..][i];
        assert forall j :: 0 <= j < i + 1 && arrivals[j] in settled ==> settled[arrivals[j]].Resolved?;
        rest
      else rest
  }

  /** `Promise.all(sink)` and the handlers `run` attaches to it: the first
      rejection ends the render, and is swallowed exactly when it is a
      cancellation; otherwise the render is saved once every tile resolved. */
  ghost function RenderResult<R>(tiles: seq<Tile>, base: nat, settled: map<TaskId, Outcome<R>>, arrivals: seq<TaskId>): (e: RenderEnd)
    ensures e == Saved ==> AllResolved(tiles, base, settled)
    ensures e == InProgress ==> !AllResolved(tiles, base, settled)
    ensures e == Saved || e == InProgress <==>
              forall i :: 0 <= i < |arrivals| && arrivals[i] in settled ==> settled[arrivals[i]].Resolved?
    ensures e == Swallowed ==> exists i :: 0 <= i < |arrivals| && arrivals[i] in settled && settled[arrivals[i]] == Rejected(JOB_CANCELED)
    ensures e.Thrown? ==> (e.reason != JOB_CANCELED &&
              exists i :: 0 <= i < |arrivals| && arrivals[i] in settled && settled[arrivals[i]] == Rejected(e.reason))
    // the first rejection in arrival order decides between swallowing and rethrowing
    ensures e == Swallowed <==> FirstRejection(settled, arrivals) == Some(JOB_CANCELED)
    ensures e.Thrown? <==> FirstRejection(settled, arrivals).Some? && FirstRejection(settled, arrivals).value != JOB_CANCELED
    ensures e.Thrown? ==> e.reason == FirstRejection(settled, arrivals).value
  {
    match FirstRejection(settled, arrivals)
    case Some(reason) => if reason == JOB_CANCELED then Swallowed else Thrown(reason)
    case None => if AllResolved(tiles, base, settled) then Saved else InProgress
  }

  /** A render whose log is complete is saved exactly when every tile resolved. */
  lemma RenderSavedIffAllResolved<R>(tiles: seq<Tile>, base: nat, settled: map<TaskId, Outcome<R>>, arrivals: seq<TaskId>)
    requires ArrivalLog(tiles, base, settled, arrivals)
    ensures RenderResult(tiles, base, settled, arrivals) == Saved <==> AllResolved(tiles, base, settled)
  {
    if AllResolved(tiles, base, settled) {
      assert forall i :: 0 <= i < |arrivals| ==> arrivals[i] in arrivals;
    }
  }

  /** When the queue rejects only by cancelling, as it does, a render never
      ends in a rethrown error. */
  lemma RenderNeverThrows<R>(tiles: seq<Tile>, base: nat, settled: map<TaskId, Outcome<R>>, arrivals: seq<TaskId>)
    requires OnlyCanceled(settled)
    ensures !RenderResult(tiles, base, settled, arrivals).Thrown?
  {
  }

  /** Whatever the queue goes through from its creation, no render of its tasks
      ends in a rethrown error. */
  lemma {:induction false} NoRenderThrows<R>(numWorkers: nat, es: seq<Event<Tile, R>>, tiles: seq<Tile>, base: nat, arrivals: seq<TaskId>)
    ensures !RenderResult(tiles, base, Queue.Run(InitState<Tile, R>(numWorkers), es).settled, arrivals).Thrown?
  {
    RunFromStart<Tile, R>(numWorkers, es);
    RenderNeverThrows(tiles, base, Queue.Run(InitState<Tile, R>(numWorkers), es).settled, arrivals);
  }
}
