/** Plane geometry shared by every entity: vectors and axis-aligned boxes in
    world units (y grows upwards, a box is anchored at its bottom-left corner).
    The overlap and containment tests stand for libGDX's Rectangle.overlaps and
    Rectangle.contains, which are assumed to use strict inequalities. */
module Geometry {

  datatype Vec = Vec(x: real, y: real)

  /** x, y is the bottom-left corner; w, h the extent. */
  datatype Box = Box(x: real, y: real, w: real, h: real)

  const Zero: Vec := Vec(0.0, 0.0)

  /** The four unit directions in the order the ghost engine tries them. */
  const Right: Vec := Vec(1.0, 0.0)
  const Left: Vec := Vec(-1.0, 0.0)
  const Up: Vec := Vec(0.0, 1.0)
  const Down: Vec := Vec(0.0, -1.0)
  const Units: seq<Vec> := [Right, Left, Up, Down]

  predicate IsUnit(d: Vec) {
    d == Right || d == Left || d == Up || d == Down
  }

  function Neg(v: Vec): (r: Vec)
    ensures r.x + v.x == 0.0 && r.y + v.y == 0.0
  {
    Vec(-v.x, -v.y)
  }

  /** Vector2.mulAdd: p + d * k. */
  function MulAdd(p: Vec, d: Vec, k: real): Vec {
    Vec(p.x + d.x * k, p.y + d.y * k)
  }

  /** Squared Euclidean distance (Vector2.dst2). */
  function Dst2(a: Vec, b: Vec): (r: real)
    ensures r >= 0.0
  {
    var dx := a.x - b.x;
    var dy := a.y - b.y;
    SquareNonNeg(dx);
    SquareNonNeg(dy);
    dx * dx + dy * dy
  }

  lemma SquareNonNeg(a: real)
    ensures a * a >= 0.0
    ensures a != 0.0 ==> a * a > 0.0
  {
    if a < 0.0 {
      var b := -a;
      assert b * b > 0.0;
      assert a * a == b * b;
    } else if a > 0.0 {
      assert a * a > 0.0 * a;
    }
  }

  /** The rectangle of an entity with the given position and size. */
  function BoxAt(p: Vec, size: Vec): (b: Box)
    ensures b.x == p.x && b.y == p.y && b.w == size.x && b.h == size.y
  {
    Box(p.x, p.y, size.x, size.y)
  }

  /** The centre of the box at p of the given size (Ghost.getCenter). */
  function CenterOf(p: Vec, size: Vec): (c: Vec)
    ensures c == MulAdd(p, size, 0.5)
  {
    Vec(p.x + size.x / 2.0, p.y + size.y / 2.0)
  }

  /** Rectangle.overlaps: the interiors intersect on both axes. */
  predicate Overlaps(a: Box, b: Box) {
    a.x < b.x + b.w && a.x + a.w > b.x && a.y < b.y + b.h && a.y + a.h > b.y
  }

  /** Rectangle.contains(x, y), strict on every edge. */
  predicate Contains(b: Box, px: real, py: real) {
    b.x < px < b.x + b.w && b.y < py < b.y + b.h
  }
}
