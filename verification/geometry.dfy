/** The vector and rectangle values the renderer works with. Single-precision
    floats are modelled exactly as `real`; rounding is not modelled. */
module Geometry {

  /** A 2-D vector (`Vector2`). */
  datatype Vec2 = Vec2(x: real, y: real) {
    function Plus(o: Vec2): (r: Vec2) { Vec2(x + o.x, y + o.y) }
    function Minus(o: Vec2): (r: Vec2) { Vec2(x - o.x, y - o.y) }
  }

  const Origin := Vec2(0.0, 0.0)

  /** An integer rectangle (`Rectangle`): location and size in pixels. */
  datatype Rect = Rect(x: int, y: int, width: int, height: int)

  /** A float rectangle (`RectangleF`), used for the camera's visible bounds. */
  datatype RectF = RectF(x: real, y: real, width: real, height: real) {
    function Top(): (top: real) { y }
  }

  /** `n` is `v` truncated toward zero: it has the sign of `v` and lies
      within one unit of it, on the side of zero. */
  predicate TruncatesTo(v: real, n: int)
  {
    && (0.0 <= v ==> 0 <= n && n as real <= v < n as real + 1.0)
    && (v < 0.0 ==> n <= 0 && n as real - 1.0 < v <= n as real)
  }

  /** At most one integer is the truncation of a given value. */
  lemma TruncationIsUnique(v: real, n: int, m: int)
    requires TruncatesTo(v, n) && TruncatesTo(v, m)
    ensures n == m
  {
  }

  /** The C# `(int)` conversion of a float, which truncates toward zero
      (not Dafny's `Floor`, which rounds toward negative infinity). */
  function Truncate(v: real): (r: int)
    ensures TruncatesTo(v, r)
  {
    if v >= 0.0 then v.Floor else -((-v).Floor)
  }

  /** `Vector2.ToPoint`: truncates each coordinate toward zero. */
  function ToPoint(v: Vec2): (r: (int, int))
    ensures TruncatesTo(v.x, r.0) && TruncatesTo(v.y, r.1)
  {
    (Truncate(v.x), Truncate(v.y))
  }
}
