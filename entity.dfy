/** The common shape of every game object: a position (bottom-left corner) and
    a size. Each entity class of the model carries these two fields itself;
    this module holds the collision test they share. */
module Entities {
  import opened Geometry

  /** Entity.collidesWith: strict overlap of the two boxes on both axes. */
  function CollidesWith(pos: Vec, size: Vec, otherPos: Vec, otherSize: Vec): (r: bool)
    ensures r <==> Overlaps(BoxAt(pos, size), BoxAt(otherPos, otherSize))
  {
    pos.x < otherPos.x + otherSize.x &&
    pos.x + size.x > otherPos.x &&
    pos.y < otherPos.y + otherSize.y &&
    pos.y + size.y > otherPos.y
  }

  lemma CollidesWithSymmetric(p: Vec, s: Vec, q: Vec, t: Vec)
    ensures CollidesWith(p, s, q, t) == CollidesWith(q, t, p, s)
  {
  }

  /** Boxes that only share an edge, side by side or one above the other, do not collide. */
  lemma TouchingDoNotCollide(p: Vec, s: Vec, q: Vec, t: Vec)
    requires q.x == p.x + s.x || q.y == p.y + s.y
    ensures !CollidesWith(p, s, q, t)
  {
  }

  /** An entity with a positive width and height collides with itself. */
  lemma CollidesWithSelf(p: Vec, s: Vec)
    ensures CollidesWith(p, s, p, s) <==> s.x > 0.0 && s.y > 0.0
  {
  }
}
