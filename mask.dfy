/**
 * The collision mask of src/mask.hpp: an origin offset and a size, placed at
 * integer positions. raylib's Rectangle and Vector2 are float; every value
 * here is an int converted to float, so they are kept as ints.
 */
module Masks {
  /** C++ integer division by a positive divisor, which truncates toward zero. */
  function CDiv(a: int, b: int): (q: int)
    requires b > 0
    ensures a >= 0 ==> q == a / b
    ensures a < 0 ==> q == -((-a) / b)
  {
    if a >= 0 then a / b else -((-a) / b)
  }

  /** raylib's Rectangle, with the x, y, width, height of an int placement. */
  datatype Rect = Rect(x: int, y: int, width: int, height: int)

  /** raylib's Vector2 at an int point. */
  datatype Point = Point(x: int, y: int)

  /**
   * CheckCollisionRecs, which is not part of this model: assumed to be the
   * strict interval overlap on both axes, so rectangles that only touch do
   * not collide.
   */
  predicate Overlap(a: Rect, b: Rect)
  {
    a.x < b.x + b.width && a.x + a.width > b.x && a.y < b.y + b.height && a.y + a.height > b.y
  }

  datatype Mask = Mask(originX: int, originY: int, width: int, height: int)
  {
    function RectAt(x: int, y: int): (r: Rect)
      ensures r.x == Left(x) && r.y == Top(y) && r.width == width && r.height == height
    {
      Rect(x - originX, y - originY, width, height)
    }

    function TopLeft(x: int, y: int): (p: Point)
      ensures p == Point(Left(x), Top(y))
    {
      Point(x - originX, y - originY)
    }

    function TopRight(x: int, y: int): (p: Point)
      ensures p == Point(Right(x), Top(y))
    {
      Point(x - originX + width, y - originY)
    }

    function BottomLeft(x: int, y: int): (p: Point)
      ensures p == Point(Left(x), Bottom(y))
    {
      Point(x - originX, y - originY + height)
    }

    function BottomRight(x: int, y: int): (p: Point)
      ensures p == Point(Right(x), Bottom(y))
    {
      Point(x - originX + width, y - originY + height)
    }

    function Left(x: int): (l: int) { x - originX }

    function Right(x: int): (r: int)
      ensures r - Left(x) == width
    {
      x - originX + width
    }

    function Top(y: int): (t: int) { y - originY }

    function Bottom(y: int): (b: int)
      ensures b - Top(y) == height
    {
      y - originY + height
    }
  }

  /** center_rect(w, h): a w×h mask whose origin is its centre, rounded toward zero. */
  function CenterRect(w: int, h: int): (m: Mask)
    ensures m.width == w && m.height == h
    ensures m.originX == CDiv(w, 2) && m.originY == CDiv(h, 2)
    ensures w >= 0 && h >= 0 ==> 0 <= m.originX <= w && 0 <= m.originY <= h
  {
    Mask(CDiv(w, 2), CDiv(h, 2), w, h)
  }

  /** The edges are translation-equivariant: moving the placement moves every edge by the same amount. */
  lemma EdgesTranslate(m: Mask, x: int, y: int, d: int)
    ensures m.Left(x + d) == m.Left(x) + d && m.Right(x + d) == m.Right(x) + d
    ensures m.Top(y + d) == m.Top(y) + d && m.Bottom(y + d) == m.Bottom(y) + d
    ensures m.RectAt(x + d, y) == m.RectAt(x, y).(x := m.RectAt(x, y).x + d)
    ensures m.RectAt(x, y + d) == m.RectAt(x, y).(y := m.RectAt(x, y).y + d)
  {
  }

  /** The four corners are the corners of the rectangle placed at the same position. */
  lemma CornersOfRect(m: Mask, x: int, y: int)
    ensures var r := m.RectAt(x, y);
      m.TopLeft(x, y) == Point(r.x, r.y) && m.TopRight(x, y) == Point(r.x + r.width, r.y) &&
      m.BottomLeft(x, y) == Point(r.x, r.y + r.height) && m.BottomRight(x, y) == Point(r.x + r.width, r.y + r.height)
  {
  }

  /** Overlap is symmetric. */
  lemma OverlapSymmetric(a: Rect, b: Rect)
    ensures Overlap(a, b) <==> Overlap(b, a)
  {
  }

  /** Rectangles that only touch along an edge do not overlap. */
  lemma TouchingDoNotOverlap(a: Rect, b: Rect)
    requires a.x + a.width == b.x || a.y + a.height == b.y
    ensures !Overlap(a, b)
  {
  }
}
