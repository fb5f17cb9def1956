/**
 The seedling icon of `drawSeedling` in src/main.cpp: a vertical stem with
 two round leaves, one on each side, halfway down the stem.
 */
module SeedlingIcon {
  import opened CInts
  import opened Gfx

  /** `ICON_SCALE`: the icon is drawn four times its base size. */
  const ICON_SCALE: int := 4

  /** `rad`: the radius of each leaf. */
  const LEAF_RADIUS: int16 := 5 * ICON_SCALE

  /** `stemLen`: the length of the stem. */
  const STEM_LENGTH: int16 := 20 * ICON_SCALE

  /** What one `drawSeedling(x, y, color)` call draws (the colour is left out). */
  datatype Shape = Shape(stem: Segment, leftLeaf: Circle, rightLeaf: Circle)

  /** The shape anchored at `(x, y)`. Every sum is computed in `int` and
      narrowed to the `int16_t` parameter of the drawing call it feeds. */
  function Seedling(x: int16, y: int16): (s: Shape)
    ensures s.stem.from.x == x && s.stem.to.x == x
    ensures s.leftLeaf.radius == s.rightLeaf.radius == LEAF_RADIUS
    ensures s.leftLeaf.center.y == s.rightLeaf.center.y
  {
    var rad := LEAF_RADIUS;
    var stemLen := STEM_LENGTH;
    var leafY := ToInt16(y + rad + stemLen / 2);
    Shape(Segment(Point(x, ToInt16(y + rad)), Point(x, ToInt16(y + rad + stemLen))),
          Circle(Point(ToInt16(x - rad), leafY), rad),
          Circle(Point(ToInt16(x + rad), leafY), rad))
  }

  /** The anchor is far enough from the edges of the `int16_t` range that no
      coordinate of the icon wraps around. */
  predicate FitsInt16(x: int16, y: int16) {
    InInt16(x - LEAF_RADIUS) && InInt16(x + LEAF_RADIUS) &&
    InInt16(y + LEAF_RADIUS + STEM_LENGTH)
  }

  /** The drawn shape, in the icon's own terms: a vertical stem of length
      `20 * ICON_SCALE` starting one leaf radius below the anchor, and two
      leaves of radius `5 * ICON_SCALE` that are mirror images about the stem,
      each touching it, with their centres level with the stem's midpoint. */
  lemma SeedlingGeometry(x: int16, y: int16)
    requires FitsInt16(x, y)
    ensures var s := Seedling(x, y);
      && s.stem.from == Point(x, y + LEAF_RADIUS)
      && s.stem.to.y - s.stem.from.y == STEM_LENGTH
      && s.leftLeaf.radius == s.rightLeaf.radius == LEAF_RADIUS
      && s.leftLeaf.center.x + s.rightLeaf.center.x == 2 * x
      && s.rightLeaf.center.x - x == s.rightLeaf.radius
      && 2 * s.leftLeaf.center.y == s.stem.from.y + s.stem.to.y
      && s.leftLeaf.center.y == s.rightLeaf.center.y
  {
  }

  /** The icon, leaves included, lies in the box from `x - 2 * rad` to
      `x + 2 * rad` across and from the top to the bottom of the stem down. */
  lemma SeedlingBounds(x: int16, y: int16)
    requires FitsInt16(x, y)
    ensures var s := Seedling(x, y);
      forall c :: c in {s.leftLeaf, s.rightLeaf} ==>
        && x - 2 * LEAF_RADIUS <= c.center.x - c.radius
        && c.center.x + c.radius <= x + 2 * LEAF_RADIUS
        && s.stem.from.y <= c.center.y - c.radius
        && c.center.y + c.radius <= s.stem.to.y
  {
  }

  /** Whatever the anchor, even when a coordinate wraps, the leaves stay
      mirror images about the stem modulo 2^16. */
  lemma SeedlingMirrorModular(x: int16, y: int16)
    ensures var s := Seedling(x, y);
      (s.leftLeaf.center.x + s.rightLeaf.center.x - 2 * x) % MODULUS == 0
  {
  }
}
