/**
 The screen layout that `loop()` in src/main.cpp recomputes on every frame.

 Every coordinate the frame draws at is derived from four integers: the
 display's `width()` and `height()` in the rotated frame, and the width `w`
 and height `h` that `getTextBounds` measures for the "FoodBox" title. The
 title sits at the top right, the seedling icon is centred under it, and the
 screen is cut into three equal horizontal bands (temperature, humidity,
 light), each with a label row and a value row in a fixed left column.
 */
module DashboardLayout {
  import opened CInts
  import opened Gfx
  import opened SeedlingIcon

  /** Gap between the title's right edge and the screen's right edge. */
  const TITLE_MARGIN: int := 10

  /** The title's top row. */
  const TITLE_TOP: int16 := 5

  /** Gap between the title's bottom edge and the seedling's anchor. */
  const ICON_PADDING: int := 5

  /** Number of data bands the screen is divided into. */
  const BAND_COUNT: int := 3

  /** The left column shared by every label and value. */
  const COLUMN: int16 := 10

  /** The two cursor positions of one data band: where its label is printed
      and where its reading is printed. */
  datatype Band = Band(caption: Point, reading: Point)

  /** Everything one frame draws at. */
  datatype Geometry = Geometry(
    title: Point,        // cursor of "FoodBox"
    icon: Point,         // anchor passed to drawSeedling
    seedling: Shape,     // what drawSeedling draws there
    band: uint16,        // height of one data band
    temp: Band,
    hum: Band,
    light: Band)
  {
    /** The data bands from top to bottom. */
    function Bands(): seq<Band> {
      [temp, hum, light]
    }
  }

  /** The coordinate expressions of `loop()`, one for one. Sums are computed
      in `int` and narrowed to the `int16_t`/`uint16_t` they are stored in or
      passed as; `height() / 3` truncates toward zero. */
  function Layout(width: int16, height: int16, w: uint16, h: uint16): (g: Geometry)
    ensures g.title.y == TITLE_TOP
    ensures g.seedling == Seedling(g.icon.x, g.icon.y)
    ensures |g.Bands()| == BAND_COUNT
    ensures forall k :: 0 <= k < |g.Bands()| ==>
      g.Bands()[k].caption.x == COLUMN && g.Bands()[k].reading.x == COLUMN
  {
    var textX := ToInt16(width - w - TITLE_MARGIN);
    var textY := TITLE_TOP;
    var iconX := ToInt16(textX + w / 2);
    var iconY := ToInt16(textY + h + ICON_PADDING);
    var band := ToUint16(Quot(height, BAND_COUNT));
    Geometry(
      Point(textX, textY),
      Point(iconX, iconY),
      Seedling(iconX, iconY),
      band,
      Band(Point(COLUMN, ToInt16(band / 4)), Point(COLUMN, ToInt16(band / 2))),
      Band(Point(COLUMN, ToInt16(band + band / 4)), Point(COLUMN, ToInt16(band + band / 2))),
      Band(Point(COLUMN, ToInt16(2 * band + band / 4)), Point(COLUMN, ToInt16(2 * band + band / 2))))
  }

  /** The header arithmetic stays inside `int16_t`: the title's left edge and
      the seedling's anchor row do not wrap around. */
  predicate HeaderFits(width: int16, w: uint16, h: uint16) {
    InInt16(width - w - TITLE_MARGIN) && InInt16(TITLE_TOP + h + ICON_PADDING)
  }

  /** The title is anchored top right: its right edge is exactly
      `TITLE_MARGIN` pixels from the screen's right edge precisely when the
      subtraction does not wrap, and modulo 2^16 it always is; its top row is
      always `TITLE_TOP`. */
  lemma TitleRightAligned(width: int16, height: int16, w: uint16, h: uint16)
    ensures var g := Layout(width, height, w, h);
      && (g.title.x + w + TITLE_MARGIN == width <==> InInt16(width - w - TITLE_MARGIN))
      && (width - (g.title.x + w) - TITLE_MARGIN) % MODULUS == 0
      && g.title.y == TITLE_TOP
  {
  }

  /** The seedling's anchor is horizontally centred on the title (rounded to
      the left when `w` is odd) and `ICON_PADDING` pixels below its bottom. */
  lemma IconCentredUnderTitle(width: int16, height: int16, w: uint16, h: uint16)
    requires HeaderFits(width, w, h)
    ensures var g := Layout(width, height, w, h);
      && g.icon.x == g.title.x + w / 2
      && 0 <= (g.title.x + w - g.icon.x) - (g.icon.x - g.title.x) <= 1
      && g.icon.y == g.title.y + h + ICON_PADDING
  {
  }

  /** Where the seedling lands on screen: its stem stands on the title's
      centre column and begins `ICON_PADDING + LEAF_RADIUS` pixels below the
      title's bottom; the whole icon lies within two leaf radii of the stem. */
  lemma SeedlingUnderTitle(width: int16, height: int16, w: uint16, h: uint16)
    requires HeaderFits(width, w, h)
    requires var g := Layout(width, height, w, h); FitsInt16(g.icon.x, g.icon.y)
    ensures var g := Layout(width, height, w, h);
      && g.seedling.stem.from.x == g.seedling.stem.to.x == g.title.x + w / 2
      && g.seedling.stem.from.y == g.title.y + h + ICON_PADDING + LEAF_RADIUS
      && g.title.x + w / 2 - 2 * LEAF_RADIUS <= g.seedling.leftLeaf.center.x - LEAF_RADIUS
      && g.seedling.rightLeaf.center.x + LEAF_RADIUS <= g.title.x + w / 2 + 2 * LEAF_RADIUS
  {
    var g := Layout(width, height, w, h);
    IconCentredUnderTitle(width, height, w, h);
    SeedlingGeometry(g.icon.x, g.icon.y);
  }

  /** The band height is a third of the screen height, so the three bands
      never run past the bottom and leave fewer than three rows unused. */
  lemma BandsTileScreen(width: int16, height: int16, w: uint16, h: uint16)
    requires 0 <= height
    ensures var g := Layout(width, height, w, h);
      && g.band == height / BAND_COUNT
      && BAND_COUNT * g.band <= height < BAND_COUNT * g.band + BAND_COUNT
  {
  }

  /** Band `k` (0 = temperature, 1 = humidity, 2 = light) prints its label a
      quarter of the way down the band and its value halfway down; both rows
      lie inside the band, the label never below the value. */
  lemma RowsWithinBands(width: int16, height: int16, w: uint16, h: uint16)
    requires 0 <= height
    ensures var g := Layout(width, height, w, h);
      forall k :: 0 <= k < |g.Bands()| ==>
        && g.Bands()[k].caption.y == k * g.band + g.band / 4
        && g.Bands()[k].reading.y == k * g.band + g.band / 2
        && g.Bands()[k].caption.y <= g.Bands()[k].reading.y
        && (0 < g.band ==>
              k * g.band <= g.Bands()[k].caption.y && g.Bands()[k].reading.y < (k + 1) * g.band)
  {
    var g := Layout(width, height, w, h);
    forall k | 0 <= k < |g.Bands()|
      ensures g.Bands()[k].caption.y == k * g.band + g.band / 4
      ensures g.Bands()[k].reading.y == k * g.band + g.band / 2
    {
      BandRowsFit(width, height, w, h, k);
    }
  }

  /** For a non-negative height the rows of band `k` do not wrap: they are
      exactly `k * band + band / 4` and `k * band + band / 2`. */
  lemma BandRowsFit(width: int16, height: int16, w: uint16, h: uint16, k: nat)
    requires 0 <= height && k < BAND_COUNT
    ensures var g := Layout(width, height, w, h);
      && g.Bands()[k].caption.y == k * g.band + g.band / 4
      && g.Bands()[k].reading.y == k * g.band + g.band / 2
  {
    var g := Layout(width, height, w, h);
    BandsTileScreen(width, height, w, h);
    BandsAreShifts(width, height, w, h, k);
    BandRowsExact(g.band, k);
  }

  /** While three bands fit in `int16_t`, the rows of a band do not wrap. */
  lemma BandRowsExact(band: uint16, k: nat)
    requires k < BAND_COUNT && BAND_COUNT * band <= -INT16_MIN
    ensures CaptionRow(band, k) == k * band + band / 4
    ensures ReadingRow(band, k) == k * band + band / 2
  {
    var top := k * band;
    if k == 0 {
      assert top == 0;
    } else if k == 1 {
      assert top == band;
    } else {
      assert top == 2 * band;
    }
    assert InInt16(top + band / 4) && InInt16(top + band / 2);
  }

  /** Successive bands repeat the same rows one band height further down:
      labels (and values) are equally spaced by `band`, so Temp is above Hum
      is above Light whenever the bands are non-empty. */
  lemma RowsEquallySpaced(width: int16, height: int16, w: uint16, h: uint16)
    requires 0 <= height
    ensures var g := Layout(width, height, w, h);
      forall i, j :: 0 <= i <= j < |g.Bands()| ==>
        && g.Bands()[j].caption.y - g.Bands()[i].caption.y == (j - i) * g.band
        && g.Bands()[j].reading.y - g.Bands()[i].reading.y == (j - i) * g.band
        && (0 < g.band && i < j ==>
              g.Bands()[i].caption.y < g.Bands()[j].caption.y &&
              g.Bands()[i].reading.y < g.Bands()[j].reading.y)
  {
    var g := Layout(width, height, w, h);
    forall i, j | 0 <= i <= j < |g.Bands()|
      ensures g.Bands()[j].caption.y - g.Bands()[i].caption.y == (j - i) * g.band
      ensures g.Bands()[j].reading.y - g.Bands()[i].reading.y == (j - i) * g.band
      ensures 0 < g.band && i < j ==> g.band <= (j - i) * g.band
    {
      BandRowsFit(width, height, w, h, i);
      BandRowsFit(width, height, w, h, j);
      assert (j - i) * g.band == j * g.band - i * g.band;
    }
  }

  /** No layout state survives between frames: each part of the geometry is
      a function of the inputs it is computed from and of nothing else. The
      bands depend on the height alone, the title on the width and `w`, the
      seedling on those and `h`. */
  lemma LayoutDependsOnlyOnInputs(width: int16, height: int16, w: uint16, h: uint16,
                                  width': int16, height': int16, w': uint16, h': uint16)
    ensures var g, g' := Layout(width, height, w, h), Layout(width', height, w', h');
      g.band == g'.band && g.Bands() == g'.Bands()
    ensures Layout(width, height, w, h).title == Layout(width, height', w, h').title
    ensures var g, g' := Layout(width, height, w, h), Layout(width, height', w, h);
      g.icon == g'.icon && g.seedling == g'.seedling
  {
    BandsDependOnHeight(width, height, w, h, width', w', h');
    TitleDependsOnWidth(width, height, w, h, height', h');
    IconDependsOnHeader(width, height, w, h, height');
  }

  /** The bands of `LayoutDependsOnlyOnInputs`, proved on their own. */
  lemma BandsDependOnHeight(width: int16, height: int16, w: uint16, h: uint16,
                            width': int16, w': uint16, h': uint16)
    ensures var g, g' := Layout(width, height, w, h), Layout(width', height, w', h');
      g.band == g'.band && g.Bands() == g'.Bands()
  {
  }

  /** The title of `LayoutDependsOnlyOnInputs`, proved on its own. */
  lemma TitleDependsOnWidth(width: int16, height: int16, w: uint16, h: uint16,
                            height': int16, h': uint16)
    ensures Layout(width, height, w, h).title == Layout(width, height', w, h').title
  {
  }

  /** The icon and seedling of `LayoutDependsOnlyOnInputs`, proved on their own. */
  lemma IconDependsOnHeader(width: int16, height: int16, w: uint16, h: uint16, height': int16)
    ensures var g, g' := Layout(width, height, w, h), Layout(width, height', w, h);
      g.icon == g'.icon && g.seedling == g'.seedling
  {
  }

  /** The row a quarter of the way down band `k` (counting from 0), where
      the band's label goes, as passed to the `int16_t` parameter of
      `setCursor`. */
  function CaptionRow(band: uint16, k: nat): int16 {
    ToInt16(k * band + band / 4)
  }

  /** The row halfway down band `k`, where the band's reading goes. */
  function ReadingRow(band: uint16, k: nat): int16 {
    ToInt16(k * band + band / 2)
  }

  /** The three band blocks of `loop()` are one block shifted down by `k`
      band heights: band `k` prints its label at `k * band + band / 4` and
      its value at `k * band + band / 2`, each narrowed to `int16_t`. */
  lemma BandsAreShifts(width: int16, height: int16, w: uint16, h: uint16, k: nat)
    requires k < BAND_COUNT
    ensures var g := Layout(width, height, w, h);
      g.Bands()[k] == Band(Point(COLUMN, CaptionRow(g.band, k)), Point(COLUMN, ReadingRow(g.band, k)))
  {
    BlocksAreShifts(Layout(width, height, w, h), k);
  }

  /** A geometry whose bands hold the three literal blocks of `loop()` has
      them one block apart. */
  lemma BlocksAreShifts(g: Geometry, k: nat)
    requires k < BAND_COUNT
    requires g.temp == Band(Point(COLUMN, ToInt16(g.band / 4)), Point(COLUMN, ToInt16(g.band / 2)))
    requires g.hum == Band(Point(COLUMN, ToInt16(g.band + g.band / 4)), Point(COLUMN, ToInt16(g.band + g.band / 2)))
    requires g.light == Band(Point(COLUMN, ToInt16(2 * g.band + g.band / 4)), Point(COLUMN, ToInt16(2 * g.band + g.band / 2)))
    ensures g.Bands()[k] == Band(Point(COLUMN, CaptionRow(g.band, k)), Point(COLUMN, ReadingRow(g.band, k)))
  {
    LiteralBandRows(g.band);
  }

  /** The rows of bands 0, 1 and 2 as `loop()` writes them out, with
      `k * band` already multiplied out. */
  lemma LiteralBandRows(band: uint16)
    ensures CaptionRow(band, 0) == ToInt16(band / 4) && ReadingRow(band, 0) == ToInt16(band / 2)
    ensures CaptionRow(band, 1) == ToInt16(band + band / 4) && ReadingRow(band, 1) == ToInt16(band + band / 2)
    ensures CaptionRow(band, 2) == ToInt16(2 * band + band / 4) && ReadingRow(band, 2) == ToInt16(2 * band + band / 2)
  {
  }

  /** The label and value cursors of the three bands, in program order,
      for a band height `band`. `loop()` itself writes the three blocks out
      literally; this is an alternative derivation that walks the bands from
      the top with a running band top, one band height at a time, and
      `FrameCursors` checks it against `Layout`. When three bands fit in
      `int16_t` nothing wraps and the rows come out from the top down. */
  method BandCursors(band: uint16) returns (cursors: seq<Point>)
    ensures |cursors| == 2 * BAND_COUNT
    ensures forall m :: 0 <= m < BAND_COUNT ==>
      cursors[2 * m] == Point(COLUMN, CaptionRow(band, m)) && cursors[2 * m + 1] == Point(COLUMN, ReadingRow(band, m))
    ensures forall i :: 0 <= i < |cursors| ==> cursors[i].x == COLUMN
    ensures BAND_COUNT * band <= -INT16_MIN ==>
      forall i, j :: 0 <= i <= j < |cursors| ==> cursors[i].y <= cursors[j].y
  {
    cursors := [];
    var top := 0;
    var k := 0;
    while k < BAND_COUNT
      invariant 0 <= k <= BAND_COUNT
      invariant top == k * band
      invariant |cursors| == 2 * k
      invariant forall m :: 0 <= m < k ==>
        cursors[2 * m] == Point(COLUMN, CaptionRow(band, m)) && cursors[2 * m + 1] == Point(COLUMN, ReadingRow(band, m))
      invariant forall i :: 0 <= i < |cursors| ==> cursors[i].x == COLUMN
    {
      NextBand(band, k, top, cursors);
      cursors := cursors + [Point(COLUMN, ToInt16(top + band / 4)), Point(COLUMN, ToInt16(top + band / 2))];
      assert top + band == (k + 1) * band;
      top := top + band;
      k := k + 1;
    }
    if BAND_COUNT * band <= -INT16_MIN {
      BandRowsAscend(band, cursors);
    }
  }

  /** One step of `BandCursors`: appending band `k`'s label and value,
      printed at the running band top `top == k * band`, extends the cursors
      of bands `0 .. k-1` to those of bands `0 .. k`. */
  lemma NextBand(band: uint16, k: nat, top: int, cursors: seq<Point>)
    requires top == k * band && |cursors| == 2 * k
    requires forall m :: 0 <= m < k ==>
      cursors[2 * m] == Point(COLUMN, CaptionRow(band, m)) && cursors[2 * m + 1] == Point(COLUMN, ReadingRow(band, m))
    ensures var next := cursors + [Point(COLUMN, ToInt16(top + band / 4)), Point(COLUMN, ToInt16(top + band / 2))];
      forall m :: 0 <= m < k + 1 ==>
        next[2 * m] == Point(COLUMN, CaptionRow(band, m)) && next[2 * m + 1] == Point(COLUMN, ReadingRow(band, m))
  {
    var next := cursors + [Point(COLUMN, ToInt16(top + band / 4)), Point(COLUMN, ToInt16(top + band / 2))];
    assert forall i :: 0 <= i < |cursors| ==> next[i] == cursors[i];
    assert next[2 * k] == Point(COLUMN, CaptionRow(band, k));
    assert next[2 * k + 1] == Point(COLUMN, ReadingRow(band, k));
  }

  /** When three bands fit in `int16_t`, the label and value rows of the
      three bands, taken in program order, never go back up the screen. */
  lemma BandRowsAscend(band: uint16, cursors: seq<Point>)
    requires BAND_COUNT * band <= -INT16_MIN
    requires |cursors| == 2 * BAND_COUNT
    requires forall m :: 0 <= m < BAND_COUNT ==>
      cursors[2 * m].y == CaptionRow(band, m) && cursors[2 * m + 1].y == ReadingRow(band, m)
    ensures forall i, j :: 0 <= i <= j < |cursors| ==> cursors[i].y <= cursors[j].y
  {
    BandRowsExact(band, 0);
    BandRowsExact(band, 1);
    BandRowsExact(band, 2);
    var ys := [band / 4, band / 2, band + band / 4, band + band / 2, 2 * band + band / 4, 2 * band + band / 2];
    assert forall i :: 0 <= i < |cursors| ==> cursors[i].y == ys[i] by {
      assert cursors[0].y == ys[0] && cursors[1].y == ys[1];
      assert cursors[2 * 1].y == ys[2] && cursors[2 * 1 + 1].y == ys[3];
      assert cursors[2 * 2].y == ys[4] && cursors[2 * 2 + 1].y == ys[5];
    }
  }

  /** The text cursors one frame moves through, in program order: the title,
      then for each band its label and its value. They agree with `Layout`
      position by position, every cursor after the title is in the fixed
      column, and for a non-negative height the six band cursors go down the
      screen. The title comes first from the top only when the screen is at
      least 60 rows high: below that, `band / 4` is less than the title's row 5
      and the Temp label sits above the title. */
  method FrameCursors(width: int16, height: int16, w: uint16, h: uint16)
    returns (cursors: seq<Point>)
    ensures var g := Layout(width, height, w, h);
      && |cursors| == 1 + 2 * BAND_COUNT
      && cursors[0] == g.title
      && (forall k :: 0 <= k < |g.Bands()| ==>
            cursors[1 + 2 * k] == g.Bands()[k].caption && cursors[2 + 2 * k] == g.Bands()[k].reading)
    ensures forall i :: 1 <= i < |cursors| ==> cursors[i].x == COLUMN
    ensures 0 <= height ==> forall i, j :: 1 <= i <= j < |cursors| ==> cursors[i].y <= cursors[j].y
    ensures 0 <= height ==> (cursors[0].y <= cursors[1].y <==> 60 <= height)
  {
    var g := Layout(width, height, w, h);
    var rows := BandCursors(g.band);
    if 0 <= height {
      BandsTileScreen(width, height, w, h);
      BandRowsFit(width, height, w, h, 0);
    }
    forall k | 0 <= k < BAND_COUNT
      ensures rows[2 * k] == g.Bands()[k].caption && rows[2 * k + 1] == g.Bands()[k].reading
    {
      BandsAreShifts(width, height, w, h, k);
    }
    cursors := [g.title] + rows;
    assert forall i :: 1 <= i < |cursors| ==> cursors[i] == rows[i - 1];
  }
}
