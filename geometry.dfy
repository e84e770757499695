/** pygame's Rect, as the game uses it: integer position and non-negative
    size. pygame itself is not part of this model; its behaviour is stated
    here as assumptions (see README). */
module Geometry {

  /** Integer division truncating toward zero, as C's `/` and as pygame's
      conversion of a float to an integer coordinate. */
  function Quot(a: int, d: int): (q: int)
    requires d > 0
    ensures a >= 0 ==> d * q <= a < d * q + d
    ensures a < 0 ==> d * q - d < a <= d * q
  {
    if a >= 0 then a / d else -((-a) / d)
  }

  datatype Rect = Rect(x: int, y: int, w: nat, h: nat) {
    function Right(): int { x + w }
    function Bottom(): int { y + h }
    function CenterX(): int { x + w / 2 }
    function CenterY(): int { y + h / 2 }

    /** Assigning `rect.center`. */
    function WithCenter(cx: int, cy: int): (r: Rect)
      ensures r.w == w && r.h == h
      ensures r.CenterX() == cx && r.CenterY() == cy
    {
      Rect(cx - w / 2, cy - h / 2, w, h)
    }

    /** `get_rect(midtop = (cx, top))`. */
    function WithMidTop(cx: int, top: int): (r: Rect)
      ensures r.w == w && r.h == h
      ensures r.CenterX() == cx && r.y == top
    {
      Rect(cx - w / 2, top, w, h)
    }

    /** `get_rect(midbottom = (cx, bottom))`. */
    function WithMidBottom(cx: int, bottom: int): (r: Rect)
      ensures r.w == w && r.h == h
      ensures r.CenterX() == cx && r.Bottom() == bottom
    {
      Rect(cx - w / 2, bottom - h, w, h)
    }

    /** `inflate(dx, dy)`: grows the size by (dx, dy) and moves the corner
        by half of it, halved with C division. */
    function Inflate(dx: int, dy: int): (r: Rect)
      requires w + dx >= 0 && h + dy >= 0
      ensures r.w == w + dx && r.h == h + dy
      ensures dx % 2 == 0 && dy % 2 == 0 ==>
                r.CenterX() == CenterX() && r.CenterY() == CenterY() &&
                r.x - x == Right() - r.Right() && r.y - y == Bottom() - r.Bottom()
    {
      Rect(x - Quot(dx, 2), y - Quot(dy, 2), w + dx, h + dy)
    }
  }

  /** `colliderect`: strict overlap on both axes, so rectangles that only
      touch along an edge do not collide; a zero-sized rectangle collides
      with nothing. */
  predicate Collide(a: Rect, b: Rect) {
    a.w > 0 && a.h > 0 && b.w > 0 && b.h > 0 &&
    a.x < b.Right() && b.x < a.Right() &&
    a.y < b.Bottom() && b.y < a.Bottom()
  }

  /** `a` lies within `c`. */
  predicate Within(a: Rect, c: Rect) {
    c.x <= a.x && a.Right() <= c.Right() && c.y <= a.y && a.Bottom() <= c.Bottom()
  }

  lemma CollideSymmetric(a: Rect, b: Rect)
    ensures Collide(a, b) <==> Collide(b, a)
  {
  }

  /** Touching edges never collide. */
  lemma TouchingDoesNotCollide(a: Rect, b: Rect)
    requires a.Right() == b.x || a.Bottom() == b.y
    ensures !Collide(a, b)
  {
  }

  /** Whatever collides with a rectangle inside `c` collides with `c`. */
  lemma CollideWithin(a: Rect, c: Rect, b: Rect)
    requires Within(a, c) && Collide(a, b)
    ensures Collide(c, b)
  {
  }
}
