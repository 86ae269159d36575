/**
 * Playfield constants and the bounding-box collision test shared by every
 * entity of the game.
 */
module Geometry {

  /** Playfield bounds and the tile grid spacing, in pixels. */
  const X_LEFT: int := 0
  const X_RIGHT: int := 707
  const Y_TOP: int := 0
  const Y_BOTTOM: int := 498
  const X_STEP: int := 101
  const Y_STEP: int := 83
  /** Levels above this one are "dark": the game speeds up and the enemy count is fixed. */
  const DARK_LEVELS: int := 25

  /** Whether `value` lies in the closed interval [min, max]. */
  predicate InRange(value: real, min: real, max: real)
  {
    value <= max && value >= min
  }

  /** The edges of an entity: what its left(), right(), top() and bottom() return. */
  datatype Box = Box(left: real, right: real, top: real, bottom: real)
  {
    ghost predicate WellFormed() { left <= right && top <= bottom }
    function Width(): real { right - left }
    function Height(): real { bottom - top }
  }

  /**
   * The game's collision test: one of e1's vertical edges lies within e2's
   * horizontal range, and one of e1's horizontal edges lies within e2's
   * vertical range. Only e1's edges are tested against e2's extent.
   */
  predicate CheckCollision(e1: Box, e2: Box)
  {
    (InRange(e1.right, e2.left, e2.right) || InRange(e1.left, e2.left, e2.right)) &&
    (InRange(e1.top, e2.top, e2.bottom) || InRange(e1.bottom, e2.top, e2.bottom))
  }

  /** Reference definition: the two closed boxes share a point. */
  ghost predicate Overlap(a: Box, b: Box)
  {
    a.left <= b.right && b.left <= a.right && a.top <= b.bottom && b.top <= a.bottom
  }

  /** The game never reports a collision between boxes that are apart. */
  lemma CollisionIsSound(e1: Box, e2: Box)
    requires e1.WellFormed() && e2.WellFormed()
    requires CheckCollision(e1, e2)
    ensures Overlap(e1, e2)
  {
  }

  /**
   * When e1 is no wider and no taller than e2, the game's test is exactly
   * overlap. This is the case for the player (40 by 80) against every enemy
   * (at least 90 by 80).
   */
  lemma CollisionExactForSmallerFirst(e1: Box, e2: Box)
    requires e1.WellFormed() && e2.WellFormed()
    requires e1.Width() <= e2.Width() && e1.Height() <= e2.Height()
    ensures CheckCollision(e1, e2) <==> Overlap(e1, e2)
  {
    if Overlap(e1, e2) {
      assert InRange(e1.right, e2.left, e2.right) || InRange(e1.left, e2.left, e2.right);
      assert InRange(e1.top, e2.top, e2.bottom) || InRange(e1.bottom, e2.top, e2.bottom);
    }
  }

  /**
   * The test is not symmetric: a wide first box that strictly contains the
   * second one horizontally is missed, although the boxes overlap and the
   * swapped call reports the collision.
   */
  lemma CollisionNotSymmetric()
    ensures var wide := Box(0.0, 90.0, 83.0, 163.0);
            var narrow := Box(5.0, 85.0, 83.0, 163.0);
            Overlap(wide, narrow) && !CheckCollision(wide, narrow) && CheckCollision(narrow, wide)
  {
  }

  /**
   * Even with the arguments swapped the test can miss an overlap: a short
   * wide box crossing a tall narrow one has no edge inside the other box.
   */
  lemma CollisionMissesCrossing()
    ensures var flat := Box(0.0, 300.0, 100.0, 120.0);
            var tall := Box(100.0, 120.0, 0.0, 300.0);
            Overlap(flat, tall) && !CheckCollision(flat, tall) && !CheckCollision(tall, flat)
  {
  }
}
