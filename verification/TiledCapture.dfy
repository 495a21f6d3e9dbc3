/** Composing a large screenshot from tiles that fit the visible part of the page (browser/raster.py:28-111). Floating
    point numbers are taken as real numbers. */
module TiledCapture {
  import opened Options

  type Color = nat

  const WHITE: Color := 0xFFFFFF
  const MAX_PIXELS := 64_000_000
  const MAX_TILES := 256

  /** A rectangle of device pixels of the canvas. */
  datatype Tile = Tile(left: nat, top: nat, wide: nat, high: nat)

  /** The rectangle to capture, in CSS pixels. */
  datatype Clip = Clip(x: real, y: real, width: real, height: real)

  /** A captured tile. */
  datatype Image = Image(width: nat, height: nat, pixel: (nat, nat) -> Color)

  /** The browser, as far as a capture sees it: where it ends up scrolling to, and what it captures. */
  datatype Browser = Browser(scroll: (real, real) -> (real, real), shoot: (real, real, real, real) -> Image)

  datatype Problem = TooLarge | NotPaintable | Undersized

  function Ceil(v: real): int {
    -(-v).Floor
  }

  function Max(a: int, b: int): int {
    if a < b then b else a
  }

  function Min(a: int, b: int): int {
    if a < b then a else b
  }

  function Pixels(v: real): int {
    Max(1, (v + 0.5).Floor)
  }

  /** The device pixels of a tile that certainly fit the paintable ones. */
  function TileSize(paintable: int, density: real): int {
    Max(1, (paintable as real * density).Floor)
  }

  /** How many tiles of this size cover a length. */
  function Steps(length: nat, size: nat): nat
    requires size > 0
  {
    (length + size - 1) / size
  }

  /** The content that is painted and the size of the tiles that paint it, in device pixels. */
  datatype Layout = Layout(width: nat, height: nat, tileWidth: nat, tileHeight: nat)

  predicate Tiled(l: Layout) {
    l.tileWidth > 0 && l.tileHeight > 0
  }

  /** Where the k-th tile begins. */
  function Edge(k: nat, size: nat): nat {
    k * size
  }

  function TileAt(l: Layout, column: nat, row: nat): Tile
    requires Tiled(l) && Edge(column, l.tileWidth) <= l.width && Edge(row, l.tileHeight) <= l.height
  {
    Tile(Edge(column, l.tileWidth), Edge(row, l.tileHeight), Min(l.tileWidth, l.width - Edge(column, l.tileWidth)),
         Min(l.tileHeight, l.height - Edge(row, l.tileHeight)))
  }

  predicate Inside(t: Tile, x: int, y: int) {
    t.left <= x < t.left + t.wide && t.top <= y < t.top + t.high
  }

  predicate IsTooLarge(width: int, height: int, tileWidth: int, tileHeight: int)
    requires tileWidth > 0 && tileHeight > 0
  {
    || width * height > MAX_PIXELS
    || Ceil(width as real / tileWidth as real) * Ceil(height as real / tileHeight as real) > MAX_TILES
  }

  function ContentSize(size: nat, page: real, offset: real, density: real): nat {
    Max(0, Min(size, Ceil((page - offset) * density)))
  }

  /** A number of device pixels as a length in CSS pixels. */
  function Css(pixels: int, density: real): real
    requires density > 0.0
  {
    pixels as real / density
  }

  /** Where a tile lies on the page, and whether the browser has scrolled it into view. */
  function X(clip: Clip, density: real, left: int): real
    requires density > 0.0
  {
    clip.x + Css(left, density)
  }

  function Y(clip: Clip, density: real, top: int): real
    requires density > 0.0
  {
    clip.y + Css(top, density)
  }

  predicate InView(at: real, size: real, position: real, paintable: int) {
    position - 0.5 <= at && at + size <= position + paintable as real + 0.5
  }

  predicate TileInView(clip: Clip, density: real, t: Tile, browser: Browser, paintable: (int, int))
    requires density > 0.0
  {
    var position := browser.scroll(X(clip, density, t.left), Y(clip, density, t.top));
    && InView(X(clip, density, t.left), Css(t.wide, density), position.0, paintable.0)
    && InView(Y(clip, density, t.top), Css(t.high, density), position.1, paintable.1)
  }

  function Shot(clip: Clip, density: real, t: Tile, browser: Browser): Image
    requires density > 0.0
  {
    browser.shoot(X(clip, density, t.left), Y(clip, density, t.top), Css(t.wide, density), Css(t.high, density))
  }

  /** `canvas.paste` of the part of an image that a tile needs. */
  method Paste(canvas: array2<Color>, image: Image, t: Tile)
    requires t.left + t.wide <= canvas.Length0 && t.top + t.high <= canvas.Length1
    modifies canvas
    ensures forall x, y :: 0 <= x < canvas.Length0 && 0 <= y < canvas.Length1 ==>
                             canvas[x, y] == if Inside(t, x, y) then image.pixel(x - t.left, y - t.top) else old(canvas[x, y])
  {
    for i := 0 to t.wide
      invariant forall x, y :: 0 <= x < canvas.Length0 && 0 <= y < canvas.Length1 ==>
                                 canvas[x, y] == if Inside(t, x, y) && x < t.left + i then image.pixel(x - t.left, y - t.top)
                                                 else old(canvas[x, y])
    {
      for j := 0 to t.high
        invariant forall x, y :: 0 <= x < canvas.Length0 && 0 <= y < canvas.Length1 ==>
                                   canvas[x, y] == if Inside(t, x, y) && (x < t.left + i || (x == t.left + i && y < t.top + j))
                                                   then image.pixel(x - t.left, y - t.top)
                                                   else old(canvas[x, y])
      {
        canvas[t.left + i, t.top + j] := image.pixel(i, j);
      }
    }
  }

  // ----- the tiles, in the order of the loops

  lemma StepsBound(length: nat, size: nat, k: nat)
    requires size > 0
    ensures k < Steps(length, size) <==> Edge(k, size) < length
  {
    var n := Steps(length, size);
    assert length + size - 1 == n * size + (length + size - 1) % size;
    if k < n {
      assert k * size <= (n - 1) * size;
    } else {
      assert k * size >= n * size;
    }
  }

  function Row(l: Layout, row: nat, columns: nat): seq<Tile>
    requires Tiled(l) && Edge(row, l.tileHeight) <= l.height && columns <= Steps(l.width, l.tileWidth)
  {
    if columns == 0 then []
    else
      StepsBound(l.width, l.tileWidth, columns - 1);
      Row(l, row, columns - 1) + [TileAt(l, columns - 1, row)]
  }

  function Grid(l: Layout, rows: nat): seq<Tile>
    requires Tiled(l) && rows <= Steps(l.height, l.tileHeight)
  {
    if rows == 0 then []
    else
      StepsBound(l.height, l.tileHeight, rows - 1);
      Grid(l, rows - 1) + Row(l, rows - 1, Steps(l.width, l.tileWidth))
  }

  function AllTiles(l: Layout): seq<Tile>
    requires Tiled(l)
  {
    Grid(l, Steps(l.height, l.tileHeight))
  }

  /** How many of these tiles contain a pixel. */
  function Hits(tiles: seq<Tile>, x: int, y: int): nat {
    if tiles == [] then 0
    else Hits(tiles[..|tiles| - 1], x, y) + if Inside(tiles[|tiles| - 1], x, y) then 1 else 0
  }

  lemma {:induction false} HitsOfAppend(a: seq<Tile>, b: seq<Tile>, x: int, y: int)
    ensures Hits(a + b, x, y) == Hits(a, x, y) + Hits(b, x, y)
  {
    if b == [] {
      assert a + b == a;
    } else {
      HitsOfAppend(a, b[..|b| - 1], x, y);
      assert (a + b)[..|a + b| - 1] == a + b[..|b| - 1];
    }
  }

  /** A pixel lies in the tile of its own column and row and in no other. */
  lemma InsideItsOwnTile(l: Layout, column: nat, row: nat, x: int, y: int)
    requires Tiled(l) && Edge(column, l.tileWidth) < l.width && Edge(row, l.tileHeight) < l.height
    ensures Inside(TileAt(l, column, row), x, y)
            <==> 0 <= x < l.width && 0 <= y < l.height && x / l.tileWidth == column && y / l.tileHeight == row
  {
    Band(l.width, l.tileWidth, column, x);
    Band(l.height, l.tileHeight, row, y);
  }

  lemma NextEdge(k: nat, size: nat)
    ensures Edge(k + 1, size) == Edge(k, size) + size
  {
  }

  lemma {:induction false} EdgesGrow(a: nat, b: nat, size: nat)
    ensures a < b ==> Edge(a, size) + size <= Edge(b, size)
    decreases b
  {
    hide Edge;
    if a < b {
      NextEdge(b - 1, size);
      EdgesGrow(a, b - 1, size);
    }
  }

  lemma OwnEdge(x: nat, size: nat)
    requires size > 0
    ensures x / size >= 0 && Edge(x / size, size) <= x < Edge(x / size, size) + size
  {
    assert x == (x / size) * size + x % size;
  }

  lemma Band(length: nat, size: nat, k: nat, x: int)
    requires size > 0 && Edge(k, size) < length
    ensures Edge(k, size) <= x < Edge(k, size) + Min(size, length - Edge(k, size)) <==> 0 <= x < length && x / size == k
  {
    hide Edge;
    if x >= 0 {
      OwnEdge(x, size);
      EdgesGrow(x / size, k, size);
      EdgesGrow(k, x / size, size);
    }
  }

  lemma {:induction false} RowHits(l: Layout, row: nat, columns: nat, x: int, y: int)
    requires Tiled(l) && Edge(row, l.tileHeight) < l.height && columns <= Steps(l.width, l.tileWidth)
    ensures |Row(l, row, columns)| == columns
    ensures Hits(Row(l, row, columns), x, y)
            == if 0 <= x < l.width && 0 <= y < l.height && x / l.tileWidth < columns && y / l.tileHeight == row then 1 else 0
    decreases columns
  {
    if columns > 0 {
      RowHits(l, row, columns - 1, x, y);
      StepsBound(l.width, l.tileWidth, columns - 1);
      InsideItsOwnTile(l, columns - 1, row, x, y);
      hide Inside, TileAt, Steps;
    }
  }

  lemma {:induction false} GridSize(l: Layout, rows: nat)
    requires Tiled(l) && rows <= Steps(l.height, l.tileHeight)
    ensures |Grid(l, rows)| == rows * Steps(l.width, l.tileWidth)
    decreases rows
  {
    var columns := Steps(l.width, l.tileWidth);
    hide Steps, Row;
    if rows > 0 {
      GridSize(l, rows - 1);
      StepsBound(l.height, l.tileHeight, rows - 1);
      RowHits(l, rows - 1, columns, 0, 0);
      assert rows * columns == (rows - 1) * columns + columns;
    }
  }

  lemma {:induction false} GridHits(l: Layout, rows: nat, x: int, y: int)
    requires Tiled(l) && rows <= Steps(l.height, l.tileHeight)
    ensures Hits(Grid(l, rows), x, y) == if 0 <= x < l.width && 0 <= y < l.height && y / l.tileHeight < rows then 1 else 0
    decreases rows
  {
    hide Steps, Row;
    var columns := Steps(l.width, l.tileWidth);
    if 0 <= y < l.height {
      QuotientIsNat(y, l.tileHeight);
    }
    if rows > 0 {
      GridHits(l, rows - 1, x, y);
      StepsBound(l.height, l.tileHeight, rows - 1);
      RowHits(l, rows - 1, columns, x, y);
      HitsOfAppend(Grid(l, rows - 1), Row(l, rows - 1, columns), x, y);
      if 0 <= x < l.width {
        QuotientBelowSteps(l.width, l.tileWidth, x);
      }
      hide Hits;
    }
  }

  lemma QuotientIsNat(x: nat, size: nat)
    requires size > 0
    ensures x / size >= 0
  {
  }

  lemma QuotientBelowSteps(length: nat, size: nat, x: nat)
    requires size > 0 && x < length
    ensures x / size < Steps(length, size)
  {
    StepsBound(length, size, x / size);
    assert (x / size) * size <= x;
  }

  /** The tiles paint every pixel of the content exactly once, and nothing else. */
  lemma EveryPixelOnce(l: Layout, x: int, y: int)
    requires Tiled(l)
    ensures Hits(AllTiles(l), x, y) == if 0 <= x < l.width && 0 <= y < l.height then 1 else 0
  {
    GridHits(l, Steps(l.height, l.tileHeight), x, y);
    if 0 <= y < l.height {
      QuotientBelowSteps(l.height, l.tileHeight, y);
    }
  }

  ghost function Times(a: real, b: real): real {
    a * b
  }

  lemma Scaled(a: real, b: real, c: real)
    requires c > 0.0
    ensures a < b <==> Times(a, c) < Times(b, c)
  {
    if a < b {
      assert (b - a) * c > 0.0;
    } else {
      assert (a - b) * c >= 0.0;
    }
  }

  lemma ProductAsReal(k: int, size: nat)
    ensures (k * size) as real == Times(k as real, size as real)
  {
  }

  lemma CeilBounds(q: real)
    ensures (Ceil(q) - 1) as real < q <= Ceil(q) as real
  {
  }

  lemma CeilScaled(q: real, length: nat, size: nat)
    requires size > 0 && Times(q, size as real) == length as real
    ensures (Ceil(q) - 1) * size < length <= Ceil(q) * size
  {
    hide Ceil, Times;
    var k := Ceil(q);
    CeilBounds(q);
    Scaled((k - 1) as real, q, size as real);
    Scaled(k as real, q, size as real);
    ProductAsReal(k, size);
    ProductAsReal(k - 1, size);
  }

  lemma CeilIsSteps(length: nat, size: nat)
    requires size > 0 && length > 0
    ensures Ceil(length as real / size as real) == Steps(length, size)
  {
    CeilScaled(length as real / size as real, length, size);
    StepsAre(length, size, Ceil(length as real / size as real));
  }

  lemma StepsAre(length: nat, size: nat, k: int)
    requires size > 0 && length > 0 && (k - 1) * size < length <= k * size
    ensures Steps(length, size) == k
  {
    hide Steps;
    StepsBound(length, size, k - 1);
    StepsBound(length, size, k);
  }

  lemma StepsAreMonotone(less: nat, more: nat, size: nat)
    requires size > 0 && less <= more
    ensures Steps(less, size) <= Steps(more, size)
  {
    StepsBound(more, size, Steps(more, size));
    StepsBound(less, size, Steps(more, size));
  }

  lemma ProductIsMonotone(a: nat, b: nat, c: nat, d: nat)
    requires a <= c && b <= d
    ensures a * b <= c * d
  {
    assert a * b <= a * d;
    assert a * d <= c * d;
  }

  /** A capture that is not refused as too large needs at most 256 tiles. */
  lemma FewTiles(width: nat, height: nat, l: Layout)
    requires Tiled(l) && 0 < width && 0 < height && l.width <= width && l.height <= height
    requires !IsTooLarge(width, height, l.tileWidth, l.tileHeight)
    ensures |AllTiles(l)| <= MAX_TILES
  {
    GridSize(l, Steps(l.height, l.tileHeight));
    CeilIsSteps(width, l.tileWidth);
    CeilIsSteps(height, l.tileHeight);
    StepsAreMonotone(l.width, width, l.tileWidth);
    StepsAreMonotone(l.height, height, l.tileHeight);
    ProductIsMonotone(Steps(l.height, l.tileHeight), Steps(l.width, l.tileWidth), Steps(height, l.tileHeight), Steps(width, l.tileWidth));
    hide Steps, Hits, Grid;
  }

  /** A capture is refused exactly if it has more than 64 million pixels or would need more than 256 tiles. */
  lemma TooLargeIff(width: nat, height: nat, tileWidth: nat, tileHeight: nat)
    requires 0 < width && 0 < height && 0 < tileWidth && 0 < tileHeight
    ensures IsTooLarge(width, height, tileWidth, tileHeight)
            <==> width * height > 64_000_000 || |AllTiles(Layout(width, height, tileWidth, tileHeight))| > 256
  {
    var l := Layout(width, height, tileWidth, tileHeight);
    GridSize(l, Steps(height, tileHeight));
    CeilIsSteps(width, tileWidth);
    CeilIsSteps(height, tileHeight);
    hide Steps, Grid;
    assert Steps(width, tileWidth) * Steps(height, tileHeight) == Steps(height, tileHeight) * Steps(width, tileWidth);
  }

  /** A length is rounded to the nearest number of device pixels, and to one pixel at least. */
  lemma PixelsAreNearest(v: real)
    ensures Pixels(v) >= 1
    ensures v < 0.5 ==> Pixels(v) == 1
    ensures v >= 0.5 ==> v - 0.5 < Pixels(v) as real <= v + 0.5
  {
  }

  /** The content that is painted are the pixels that begin on the page: what the clip shows beyond its end stays white. */
  lemma ContentIsOnThePage(size: nat, page: real, offset: real, density: real, x: nat)
    requires density > 0.0
    ensures x < ContentSize(size, page, offset, density) <==> x < size && offset + Css(x, density) < page
  {
    var end := Times(page - offset, density);
    CeilBounds(end);
    assert (page - offset) * density == end;
    assert x < Ceil(end) <==> x as real < end;
    PixelStarts(page - offset, density, x);
    hide Css, Times, Ceil;
  }

  lemma PixelStarts(length: real, density: real, x: nat)
    requires density > 0.0
    ensures x as real < Times(length, density) <==> Css(x, density) < length
  {
    Scaled(Css(x, density), length, density);
    assert Times(Css(x, density), density) == x as real;
  }

  lemma CssIsMonotone(pixels: int, density: real, length: real)
    requires density > 0.0
    ensures Css(pixels, density) <= length <==> pixels as real <= length * density
  {
    assert Css(pixels, density) * density == pixels as real;
  }

  /** A tile of full size fits the paintable viewport exactly if that is at least one device pixel large, and a larger one
      never does. */
  lemma TilesFitTheViewport(paintable: int, density: real)
    requires density > 0.0
    ensures Css(TileSize(paintable, density), density) <= paintable as real <==> paintable as real * density >= 1.0
    ensures Css(TileSize(paintable, density) + 1, density) > paintable as real
  {
    hide Css;
    CssIsMonotone(TileSize(paintable, density), density, paintable as real);
    CssIsMonotone(TileSize(paintable, density) + 1, density, paintable as real);
  }

  lemma {:induction false} RowTiles(l: Layout, row: nat, columns: nat)
    requires Tiled(l) && Edge(row, l.tileHeight) < l.height && columns <= Steps(l.width, l.tileWidth)
    ensures forall t :: t in Row(l, row, columns) ==> Fitting(l, t)
    decreases columns
  {
    hide Steps;
    if columns > 0 {
      RowTiles(l, row, columns - 1);
      StepsBound(l.width, l.tileWidth, columns - 1);
    }
  }

  /** A tile lies inside the content and is no larger than the tile size. */
  predicate Fitting(l: Layout, t: Tile) {
    && 0 < t.wide <= l.tileWidth && 0 < t.high <= l.tileHeight
    && t.left + t.wide <= l.width && t.top + t.high <= l.height
  }

  lemma {:induction false} GridTiles(l: Layout, rows: nat)
    requires Tiled(l) && rows <= Steps(l.height, l.tileHeight)
    ensures forall t :: t in Grid(l, rows) ==> Fitting(l, t)
    decreases rows
  {
    hide Steps, Row, Fitting;
    if rows > 0 {
      GridTiles(l, rows - 1);
      StepsBound(l.height, l.tileHeight, rows - 1);
      RowTiles(l, rows - 1, Steps(l.width, l.tileWidth));
    }
  }

  lemma ShorterFits(wide: nat, paintable: int, density: real)
    requires density > 0.0 && wide <= TileSize(paintable, density) && paintable as real * density >= 1.0
    ensures Css(wide, density) <= paintable as real
  {
    hide Css;
    TilesFitTheViewport(paintable, density);
    CssIsMonotone(wide, density, paintable as real);
    CssIsMonotone(TileSize(paintable, density), density, paintable as real);
  }

  /** No tile of a capture is larger, in CSS pixels, than what the browser can paint, as long as that is at least one
      device pixel in each direction. */
  lemma EveryTileFitsTheViewport(clip: Clip, g: Geometry, density: real, t: Tile)
    requires density > 0.0 && Tiled(LayoutOf(clip, g, density)) && t in AllTiles(LayoutOf(clip, g, density))
    requires g.paintableWidth as real * density >= 1.0 && g.paintableHeight as real * density >= 1.0
    ensures Css(t.wide, density) <= g.paintableWidth as real && Css(t.high, density) <= g.paintableHeight as real
  {
    hide TileSize, ContentSize, Steps, Grid, Css;
    var l := LayoutOf(clip, g, density);
    GridTiles(l, Steps(l.height, l.tileHeight));
    assert Fitting(l, t);
    ShorterFits(t.wide, g.paintableWidth, density);
    ShorterFits(t.high, g.paintableHeight, density);
  }

  // ----- the capture

  /** The extent of the page and the part of the window that paints, in CSS pixels. */
  datatype Geometry = Geometry(pageWidth: real, pageHeight: real, paintableWidth: int, paintableHeight: int)

  function LayoutOf(clip: Clip, g: Geometry, density: real): Layout {
    Layout(ContentSize(Pixels(clip.width * density), g.pageWidth, clip.x, density),
           ContentSize(Pixels(clip.height * density), g.pageHeight, clip.y, density),
           TileSize(g.paintableWidth, density), TileSize(g.paintableHeight, density))
  }

  /** The browser scrolls the tile into view and returns an image that is large enough. */
  predicate Shootable(clip: Clip, g: Geometry, density: real, browser: Browser, t: Tile)
    requires density > 0.0
  {
    && TileInView(clip, density, t, browser, (g.paintableWidth, g.paintableHeight))
    && Shot(clip, density, t, browser).width >= t.wide && Shot(clip, density, t, browser).height >= t.high
  }

  /** A point lies in the part of the page that the browser paints, give or take half a CSS pixel. */
  ghost predicate Visible(p: real, position: real, paintable: int) {
    position - 0.5 <= p <= position + paintable as real + 0.5
  }

  /** A tile can be captured exactly if all of it is visible once the browser has scrolled to its corner, and the image has
      every pixel that the tile needs. */
  lemma ShootableIff(clip: Clip, g: Geometry, density: real, browser: Browser, t: Tile)
    requires density > 0.0 && 0 < t.wide && 0 < t.high
    ensures Shootable(clip, g, density, browser, t)
            <==>
            var x, y := clip.x + Css(t.left, density), clip.y + Css(t.top, density);
            var position := browser.scroll(x, y);
            var image := browser.shoot(x, y, Css(t.wide, density), Css(t.high, density));
            && (forall p: real :: x <= p <= x + Css(t.wide, density) ==> Visible(p, position.0, g.paintableWidth))
            && (forall p: real :: y <= p <= y + Css(t.high, density) ==> Visible(p, position.1, g.paintableHeight))
            && t.wide - 1 < image.width && t.high - 1 < image.height
  {
    var x, y := clip.x + Css(t.left, density), clip.y + Css(t.top, density);
    var position := browser.scroll(x, y);
    assert Css(t.wide, density) > 0.0 && Css(t.high, density) > 0.0;
    InViewIff(x, Css(t.wide, density), position.0, g.paintableWidth);
    InViewIff(y, Css(t.high, density), position.1, g.paintableHeight);
    hide Css, InView, Visible;
  }

  lemma InViewIff(at: real, size: real, position: real, paintable: int)
    requires size > 0.0
    ensures InView(at, size, position, paintable)
            <==> forall p: real :: at <= p <= at + size ==> Visible(p, position, paintable)
  {
    if forall p: real :: at <= p <= at + size ==> Visible(p, position, paintable) {
      assert Visible(at, position, paintable) && Visible(at + size, position, paintable);
    }
  }

  /** The colour of a content pixel: the pixel of its own tile's image at its place in the tile. */
  function Painted(clip: Clip, l: Layout, density: real, browser: Browser, x: nat, y: nat): Color
    requires density > 0.0 && Tiled(l) && x < l.width && y < l.height
  {
    OwnTile(l, x, y);
    var t := TileAt(l, x / l.tileWidth, y / l.tileHeight);
    Shot(clip, density, t, browser).pixel(x - t.left, y - t.top)
  }

  lemma OwnTile(l: Layout, x: nat, y: nat)
    requires Tiled(l) && x < l.width && y < l.height
    ensures Edge(x / l.tileWidth, l.tileWidth) <= x && Edge(y / l.tileHeight, l.tileHeight) <= y
  {
    OwnEdge(x, l.tileWidth);
    OwnEdge(y, l.tileHeight);
  }

  /** What the page shows at a point, in CSS pixels. */
  type Scene = (real, real) -> Color

  /** Pixel (i, j) of any image that the browser takes is the scene i and j device pixels from its corner. */
  ghost predicate Faithful(browser: Browser, density: real, scene: Scene)
    requires density > 0.0
  {
    forall x: real, y: real, w: real, h: real, i: nat, j: nat ::
      browser.shoot(x, y, w, h).pixel(i, j) == scene(x + Css(i, density), y + Css(j, density))
  }

  lemma SamePoint(origin: real, edge: nat, i: nat, density: real)
    requires density > 0.0
    ensures origin + Css(edge, density) + Css(i, density) == origin + Css(edge + i, density)
  {
    assert (edge + i) as real == edge as real + i as real;
  }

  /** Then every content pixel of the canvas is the scene at its own distance from the corner of the clip: tiling leaves
      no seam, shift or swap. */
  lemma TilesShowTheScene(clip: Clip, l: Layout, density: real, browser: Browser, scene: Scene, x: nat, y: nat)
    requires density > 0.0 && Tiled(l) && Faithful(browser, density, scene) && x < l.width && y < l.height
    ensures Painted(clip, l, density, browser, x, y)
            == scene(clip.x + Css(x, density), clip.y + Css(y, density))
  {
    hide Shot, X, Y, Edge, Faithful, Css;
    OwnTile(l, x, y);
    var t := TileAt(l, x / l.tileWidth, y / l.tileHeight);
    var i: nat, j: nat := x - t.left, y - t.top;
    assert Painted(clip, l, density, browser, x, y) == Shot(clip, density, t, browser).pixel(i, j);
    hide Painted, TileAt;
    SamePoint(clip.x, t.left, i, density);
    SamePoint(clip.y, t.top, j, density);
    ShotShows(clip, density, t, browser, scene, i, j);
  }

  lemma ShotShows(clip: Clip, density: real, t: Tile, browser: Browser, scene: Scene, i: nat, j: nat)
    requires density > 0.0 && Faithful(browser, density, scene)
    ensures Shot(clip, density, t, browser).pixel(i, j)
            == scene(clip.x + Css(t.left, density) + Css(i, density), clip.y + Css(t.top, density) + Css(j, density))
  {
  }

  /** The pixels of all rows of tiles above `row`, and of the first `columns` tiles in it. */
  predicate Done(l: Layout, row: nat, columns: nat, x: nat, y: nat)
    requires Tiled(l)
  {
    x < l.width && y < l.height
    && (y / l.tileHeight < row || (y / l.tileHeight == row && x / l.tileWidth < columns))
  }

  /** The colour of a pixel while only some tiles are painted. */
  function ColorAt(clip: Clip, l: Layout, density: real, browser: Browser, row: nat, columns: nat, x: nat, y: nat): Color
    requires density > 0.0 && Tiled(l)
  {
    if Done(l, row, columns, x, y) then Painted(clip, l, density, browser, x, y) else WHITE
  }

  ghost predicate Shows(canvas: array2<Color>, clip: Clip, l: Layout, density: real, browser: Browser, row: nat, columns: nat)
    requires density > 0.0 && Tiled(l)
    reads canvas
  {
    forall x: nat, y: nat :: x < canvas.Length0 && y < canvas.Length1 ==>
                               canvas[x, y] == ColorAt(clip, l, density, browser, row, columns, x, y)
  }

  lemma OneMoreTile(clip: Clip, l: Layout, density: real, browser: Browser, row: nat, column: nat, x: nat, y: nat)
    requires density > 0.0 && Tiled(l)
    requires Edge(column, l.tileWidth) < l.width && Edge(row, l.tileHeight) < l.height
    ensures var t := TileAt(l, column, row);
            ColorAt(clip, l, density, browser, row, column + 1, x, y)
            == if Inside(t, x, y) then Shot(clip, density, t, browser).pixel(x - t.left, y - t.top)
               else ColorAt(clip, l, density, browser, row, column, x, y)
  {
    InsideItsOwnTile(l, column, row, x, y);
  }

  lemma RowEnds(l: Layout, row: nat, x: nat, y: nat)
    requires Tiled(l)
    ensures Done(l, row, Steps(l.width, l.tileWidth), x, y) <==> Done(l, row + 1, 0, x, y)
  {
    hide Steps;
    if x < l.width {
      QuotientBelowSteps(l.width, l.tileWidth, x);
    }
  }

  lemma RowIsDone(canvas: array2<Color>, clip: Clip, l: Layout, density: real, browser: Browser, row: nat)
    requires density > 0.0 && Tiled(l) && Shows(canvas, clip, l, density, browser, row, Steps(l.width, l.tileWidth))
    ensures Shows(canvas, clip, l, density, browser, row + 1, 0)
  {
    hide Steps, Painted, Done;
    forall x: nat, y: nat
      ensures Done(l, row, Steps(l.width, l.tileWidth), x, y) <==> Done(l, row + 1, 0, x, y)
    {
      RowEnds(l, row, x, y);
    }
  }

  /** The content on a white ground. */
  ghost predicate ShowsContent(canvas: array2<Color>, clip: Clip, l: Layout, density: real, browser: Browser)
    requires density > 0.0 && Tiled(l)
    reads canvas
  {
    forall x: nat, y: nat :: x < canvas.Length0 && y < canvas.Length1 ==>
                               canvas[x, y] == if x < l.width && y < l.height then Painted(clip, l, density, browser, x, y) else WHITE
  }

  lemma AllRowsDone(canvas: array2<Color>, clip: Clip, l: Layout, density: real, browser: Browser)
    requires density > 0.0 && Tiled(l) && Shows(canvas, clip, l, density, browser, Steps(l.height, l.tileHeight), 0)
    ensures ShowsContent(canvas, clip, l, density, browser)
  {
    hide Steps, Painted;
    forall x: nat, y: nat | x < canvas.Length0 && y < canvas.Length1
      ensures canvas[x, y] == if x < l.width && y < l.height then Painted(clip, l, density, browser, x, y) else WHITE
    {
      if y < l.height {
        QuotientBelowSteps(l.height, l.tileHeight, y);
      }
    }
  }

  method CaptureTile(canvas: array2<Color>, clip: Clip, g: Geometry, l: Layout, density: real, browser: Browser, t: Tile,
                     ghost row: nat, ghost column: nat)
    returns (problem: Option<Problem>)
    requires density > 0.0 && Tiled(l) && l.width <= canvas.Length0 && l.height <= canvas.Length1
    requires Edge(column, l.tileWidth) < l.width && Edge(row, l.tileHeight) < l.height && t == TileAt(l, column, row)
    requires Shows(canvas, clip, l, density, browser, row, column)
    modifies canvas
    ensures problem == None <==> Shootable(clip, g, density, browser, t)
    ensures problem.Some? ==> problem.value == if TileInView(clip, density, t, browser, (g.paintableWidth, g.paintableHeight))
                                               then Undersized else NotPaintable
    ensures problem == None ==> Shows(canvas, clip, l, density, browser, row, column + 1)
  {
    hide TileInView, Edge, Shot, ColorAt, Inside;
    if !TileInView(clip, density, t, browser, (g.paintableWidth, g.paintableHeight)) {
      return Some(NotPaintable);
    }
    var image := Shot(clip, density, t, browser);
    if image.width < t.wide || image.height < t.high {
      return Some(Undersized);
    }
    Paste(canvas, image, t);
    forall x: nat, y: nat | x < canvas.Length0 && y < canvas.Length1
      ensures canvas[x, y] == ColorAt(clip, l, density, browser, row, column + 1, x, y)
    {
      OneMoreTile(clip, l, density, browser, row, column, x, y);
    }
    problem := None;
  }

  /** One row of tiles, from left to right. */
  method CaptureRow(canvas: array2<Color>, clip: Clip, g: Geometry, l: Layout, density: real, browser: Browser,
                    ghost row: nat, top: nat)
    returns (problem: Option<Problem>)
    requires density > 0.0 && Tiled(l) && l.width <= canvas.Length0 && l.height <= canvas.Length1
    requires top == Edge(row, l.tileHeight) && top < l.height
    requires Shows(canvas, clip, l, density, browser, row, 0)
    modifies canvas
    ensures problem == None ==> Shows(canvas, clip, l, density, browser, row + 1, 0)
    ensures problem == None <==> forall t :: t in Row(l, row, Steps(l.width, l.tileWidth)) ==> Shootable(clip, g, density, browser, t)
    ensures problem != Some(TooLarge)
  {
    hide Steps, Shows, Done, Painted, Shootable, Row, Edge;
    var left: nat := 0;
    ghost var column: nat := 0;
    RowStarts(l, row);
    while left < l.width
      invariant left == Edge(column, l.tileWidth) && column <= Steps(l.width, l.tileWidth)
      invariant Shows(canvas, clip, l, density, browser, row, column)
      invariant forall t :: t in Row(l, row, column) ==> Shootable(clip, g, density, browser, t)
      decreases l.width - left
    {
      StepsBound(l.width, l.tileWidth, column);
      NextEdge(column, l.tileWidth);
      InTheRow(l, row, column);
      var t := Tile(left, top, Min(l.tileWidth, l.width - left), Min(l.tileHeight, l.height - top));
      assert t == TileAt(l, column, row);
      problem := CaptureTile(canvas, clip, g, l, density, browser, t, row, column);
      if problem != None {
        return;
      }
      left := left + l.tileWidth;
      column := column + 1;
    }
    StepsBound(l.width, l.tileWidth, column);
    RowIsDone(canvas, clip, l, density, browser, row);
    problem := None;
  }

  lemma RowStarts(l: Layout, row: nat)
    requires Tiled(l) && Edge(row, l.tileHeight) <= l.height
    ensures Row(l, row, 0) == [] && Edge(0, l.tileWidth) == 0
  {
  }

  lemma InTheRow(l: Layout, row: nat, column: nat)
    requires Tiled(l) && Edge(row, l.tileHeight) <= l.height && column < Steps(l.width, l.tileWidth)
    ensures Edge(column, l.tileWidth) <= l.width && TileAt(l, column, row) in Row(l, row, Steps(l.width, l.tileWidth))
    ensures Row(l, row, column + 1) == Row(l, row, column) + [TileAt(l, column, row)]
  {
    StepsBound(l.width, l.tileWidth, column);
    RowGrows(l, row, column, Steps(l.width, l.tileWidth));
  }

  lemma {:induction false} RowGrows(l: Layout, row: nat, column: nat, columns: nat)
    requires Tiled(l) && Edge(row, l.tileHeight) <= l.height && column < columns <= Steps(l.width, l.tileWidth)
    ensures Edge(column, l.tileWidth) <= l.width && TileAt(l, column, row) in Row(l, row, columns)
    decreases columns
  {
    hide Steps;
    StepsBound(l.width, l.tileWidth, column);
    StepsBound(l.width, l.tileWidth, columns - 1);
    if column < columns - 1 {
      RowGrows(l, row, column, columns - 1);
    }
  }

  lemma {:induction false} GridGrows(l: Layout, row: nat, rows: nat)
    requires Tiled(l) && row < rows <= Steps(l.height, l.tileHeight)
    ensures Edge(row, l.tileHeight) <= l.height
    ensures forall t :: t in Row(l, row, Steps(l.width, l.tileWidth)) ==> t in Grid(l, rows)
    decreases rows
  {
    hide Steps, Row;
    StepsBound(l.height, l.tileHeight, row);
    StepsBound(l.height, l.tileHeight, rows - 1);
    if row < rows - 1 {
      GridGrows(l, row, rows - 1);
    }
  }

  lemma NextRow(l: Layout, row: nat)
    requires Tiled(l) && row < Steps(l.height, l.tileHeight)
    ensures Edge(row, l.tileHeight) < l.height
    ensures Grid(l, row + 1) == Grid(l, row) + Row(l, row, Steps(l.width, l.tileWidth))
  {
    StepsBound(l.height, l.tileHeight, row);
  }

  lemma NothingDone(canvas: array2<Color>, clip: Clip, l: Layout, density: real, browser: Browser)
    requires density > 0.0 && Tiled(l)
    requires forall x, y :: 0 <= x < canvas.Length0 && 0 <= y < canvas.Length1 ==> canvas[x, y] == WHITE
    ensures Shows(canvas, clip, l, density, browser, 0, 0)
    ensures Grid(l, 0) == [] && Edge(0, l.tileHeight) == 0
  {
    forall x: nat, y: nat
      ensures !Done(l, 0, 0, x, y)
    {
      if x < l.width && y < l.height {
        QuotientIsNat(x, l.tileWidth);
        QuotientIsNat(y, l.tileHeight);
      }
    }
    hide Done, Painted;
  }

  /** The rows of tiles, from top to bottom. */
  method CaptureRows(canvas: array2<Color>, clip: Clip, g: Geometry, l: Layout, density: real, browser: Browser)
    returns (problem: Option<Problem>)
    requires density > 0.0 && Tiled(l) && l.width <= canvas.Length0 && l.height <= canvas.Length1
    requires forall x, y :: 0 <= x < canvas.Length0 && 0 <= y < canvas.Length1 ==> canvas[x, y] == WHITE
    modifies canvas
    ensures problem == None ==> ShowsContent(canvas, clip, l, density, browser)
    ensures problem == None <==> forall t :: t in AllTiles(l) ==> Shootable(clip, g, density, browser, t)
    ensures problem != Some(TooLarge)
  {
    NothingDone(canvas, clip, l, density, browser);
    hide Steps, Shows, Done, Painted, Shootable, Row, Edge, Grid, ShowsContent;
    var top: nat := 0;
    ghost var row: nat := 0;
    while top < l.height
      invariant top == Edge(row, l.tileHeight) && row <= Steps(l.height, l.tileHeight)
      invariant Shows(canvas, clip, l, density, browser, row, 0)
      invariant forall t :: t in Grid(l, row) ==> Shootable(clip, g, density, browser, t)
      decreases l.height - top
    {
      StepsBound(l.height, l.tileHeight, row);
      NextEdge(row, l.tileHeight);
      NextRow(l, row);
      GridGrows(l, row, Steps(l.height, l.tileHeight));
      problem := CaptureRow(canvas, clip, g, l, density, browser, row, top);
      if problem != None {
        return;
      }
      top := top + l.tileHeight;
      row := row + 1;
    }
    StepsBound(l.height, l.tileHeight, row);
    AllRowsDone(canvas, clip, l, density, browser);
    problem := None;
  }

  lemma LayoutFits(clip: Clip, g: Geometry, density: real)
    ensures var l := LayoutOf(clip, g, density);
            && Tiled(l) && l.width <= Pixels(clip.width * density) && l.height <= Pixels(clip.height * density)
    ensures Pixels(clip.width * density) > 0 && Pixels(clip.height * density) > 0
  {
  }

  /** The whole capture. It is refused exactly if the region is too large; otherwise it fails exactly if some tile does
      not come into view or comes back too small, and succeeds with every content pixel painted from its own tile. */
  method CaptureTiled(clip: Clip, g: Geometry, density: real, browser: Browser)
    returns (canvas: array2<Color>, problem: Option<Problem>)
    requires density > 0.0
    ensures Tiled(LayoutOf(clip, g, density))
    ensures var l := LayoutOf(clip, g, density);
            && (problem == Some(TooLarge) <==>
                  IsTooLarge(Pixels(clip.width * density), Pixels(clip.height * density), l.tileWidth, l.tileHeight))
            && (problem != Some(TooLarge) ==>
                  (problem == None <==> forall t :: t in AllTiles(l) ==> Shootable(clip, g, density, browser, t))
                  && |AllTiles(l)| <= MAX_TILES)
            && (problem == None ==>
                  && canvas.Length0 == Pixels(clip.width * density) && canvas.Length1 == Pixels(clip.height * density)
                  && ShowsContent(canvas, clip, l, density, browser))
  {
    LayoutFits(clip, g, density);
    hide LayoutOf, TileSize, ContentSize, Pixels, IsTooLarge, Steps, AllTiles, Shootable, ShowsContent;
    var width: nat, height: nat := Pixels(clip.width * density), Pixels(clip.height * density);
    var l := LayoutOf(clip, g, density);
    if IsTooLarge(width, height, l.tileWidth, l.tileHeight) {
      problem := Some(TooLarge);
      canvas := new Color[0, 0];
      return;
    }
    FewTiles(width, height, l);
    canvas := new Color[width, height]((_, _) => WHITE);
    problem := CaptureRows(canvas, clip, g, l, density, browser);
  }
}
