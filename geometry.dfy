/** Axis-aligned integer rectangles with the semantics of pygame.Rect as the
    game uses it: `move`, and `colliderect` for box overlap. */
module Geometry {

  /** Top-left corner (x, y), width w and height h, in world units. */
  datatype Rect = Rect(x: int, y: int, w: int, h: int)
  {
    /** pygame's Rect.move: a copy displaced by (dx, dy). */
    function Move(dx: int, dy: int): (r: Rect)
      // spelled out so that callers need not unfold the body
      ensures r.x - x == dx && r.y - y == dy
      ensures r.w == w && r.h == h
    {
      Rect(x + dx, y + dy, w, h)
    }
  }

  /** pygame's colliderect: the interiors intersect (touching edges do not count). */
  predicate Overlaps(a: Rect, b: Rect)
  {
    a.x < b.x + b.w && b.x < a.x + a.w &&
    a.y < b.y + b.h && b.y < a.y + a.h
  }

  /** pygame.sprite.spritecollideany with the default rect test:
      some rectangle of the group overlaps r. */
  predicate AnyOverlap(r: Rect, group: seq<Rect>)
  {
    exists i | 0 <= i < |group| :: Overlaps(r, group[i])
  }

  /** Overlap depends only on relative position, so shifting every rectangle
      by the same amount (what the camera does each tick) never changes
      the outcome of a box test. */
  lemma OverlapsShift(a: Rect, b: Rect, dx: int, dy: int)
    ensures Overlaps(a.Move(dx, dy), b.Move(dx, dy)) == Overlaps(a, b)
  {
  }

  /** Moves compose by adding their displacements. In particular the ground
      snap of `go` (moving back up by the vertical speed just applied) leaves
      only the horizontal part of the move, and a move is undone by its
      opposite. */
  lemma MoveCompose(r: Rect, dx1: int, dy1: int, dx2: int, dy2: int)
    ensures r.Move(dx1, dy1).Move(dx2, dy2) == r.Move(dx1 + dx2, dy1 + dy2)
    ensures r.Move(dx1, dy1).Move(0, -dy1) == r.Move(dx1, 0)
    ensures r.Move(dx1, dy1).Move(-dx1, -dy1) == r
  {
  }
}
