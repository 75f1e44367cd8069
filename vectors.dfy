/** Immutable two-dimensional vectors: the game's `Vec` class. */
module Vectors {

  datatype Vec = Vec(x: real, y: real)

  /** `Vec.Zero`, the vector built by `new Vec()`. */
  const Zero: Vec := Vec(0.0, 0.0)

  /** `Math.abs` on exact reals. */
  function Abs(v: real): (r: real)
    ensures r >= 0.0
    ensures r == v || r == -v
  {
    if v < 0.0 then -v else v
  }

  /** `a.add(b)`: the vector that lies `b` away from `a`. */
  function Add(a: Vec, b: Vec): (r: Vec)
    ensures r.x - a.x == b.x && r.y - a.y == b.y
  {
    Vec(a.x + b.x, a.y + b.y)
  }

  /** `a.scaleX(b, w)`: the horizontal distance from `a` to the middle of the
      span of width `w` that starts at `b.x`. It is within half the width
      exactly when `a.x` lies in the span. */
  function ScaleX(a: Vec, b: Vec, w: real): (r: real)
    ensures r >= 0.0
    ensures r <= w / 2.0 <==> b.x <= a.x <= b.x + w
  {
    Abs(a.x - b.x - w / 2.0)
  }

  /** `a.scaleY(b, h)`: the vertical counterpart of `ScaleX`. */
  function ScaleY(a: Vec, b: Vec, h: real): (r: real)
    ensures r >= 0.0
    ensures r <= h / 2.0 <==> b.y <= a.y <= b.y + h
  {
    Abs(a.y - b.y - h / 2.0)
  }

  /** Widening the tolerance by `d` widens the span by `d` on both sides. */
  lemma ScaleXWithin(a: Vec, b: Vec, w: real, d: real)
    ensures ScaleX(a, b, w) <= w / 2.0 + d <==> b.x - d <= a.x <= b.x + w + d
  {
  }

  lemma ScaleYWithin(a: Vec, b: Vec, h: real, d: real)
    ensures ScaleY(a, b, h) <= h / 2.0 + d <==> b.y - d <= a.y <= b.y + h + d
  {
  }
}
