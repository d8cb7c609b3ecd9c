/** The fixed 800 x 600 canvas and the hit tests the games share. */
module Geometry {

  const CanvasWidth: real := 800.0
  const CanvasHeight: real := 600.0

  /** p5's `constrain(v, lo, hi)`, computed as `max(min(v, hi), lo)`. */
  function Constrain(v: real, lo: real, hi: real): (r: real)
    ensures lo <= hi ==> lo <= r <= hi
    ensures lo <= v <= hi ==> r == v
    ensures v < lo ==> r == lo
    ensures lo <= hi && hi < v ==> r == hi
  {
    var m := if v < hi then v else hi;
    if m > lo then m else lo
  }

  /** The strict hit test of a rectangle given by its top-left corner,
      as the swatch and answer-button scans write it. */
  predicate InsideCorner(mx: real, my: real, x: real, y: real, w: real, h: real) {
    mx > x && mx < x + w && my > y && my < y + h
  }

  /** `isButtonClicked`: the button is given by its centre (CENTER mode). */
  function IsButtonClicked(mx: real, my: real, x: real, y: real, w: real, h: real): (r: bool)
    ensures r <==> InsideCorner(mx, my, x - w / 2.0, y - h / 2.0, w, h)
  {
    var left := x - w / 2.0;
    var right := x + w / 2.0;
    var top := y - h / 2.0;
    var bottom := y + h / 2.0;
    mx > left && mx < right && my > top && my < bottom
  }

  /** `collideRectRect`: closed-edge overlap of two corner-mode rectangles. */
  predicate CollideRectRect(x1: real, y1: real, w1: real, h1: real,
                            x2: real, y2: real, w2: real, h2: real)
  {
    x1 + w1 >= x2 && x1 <= x2 + w2 && y1 + h1 >= y2 && y1 <= y2 + h2
  }

  /** The point (px, py) lies in the closed rectangle with corner (x, y). */
  predicate InClosedRect(px: real, py: real, x: real, y: real, w: real, h: real) {
    x <= px <= x + w && y <= py <= y + h
  }

  /** The overlap test agrees with its geometric meaning: for rectangles of
      non-negative size it holds exactly when some point lies in both. */
  lemma CollideIffCommonPoint(x1: real, y1: real, w1: real, h1: real,
                              x2: real, y2: real, w2: real, h2: real)
    requires w1 >= 0.0 && h1 >= 0.0 && w2 >= 0.0 && h2 >= 0.0
    ensures CollideRectRect(x1, y1, w1, h1, x2, y2, w2, h2) <==>
      exists px: real, py: real :: InClosedRect(px, py, x1, y1, w1, h1) && InClosedRect(px, py, x2, y2, w2, h2)
  {
    if CollideRectRect(x1, y1, w1, h1, x2, y2, w2, h2) {
      var px := if x1 < x2 then x2 else x1;
      var py := if y1 < y2 then y2 else y1;
      assert InClosedRect(px, py, x1, y1, w1, h1) && InClosedRect(px, py, x2, y2, w2, h2);
    }
  }

  /** Overlap does not depend on the order of the two rectangles. */
  lemma CollideSymmetric(x1: real, y1: real, w1: real, h1: real,
                         x2: real, y2: real, w2: real, h2: real)
    ensures CollideRectRect(x1, y1, w1, h1, x2, y2, w2, h2) ==
            CollideRectRect(x2, y2, w2, h2, x1, y1, w1, h1)
  {
  }
}
