/** `ClipEnable`: a requested clip rectangle, in top-left screen coordinates, is
    cut down to the screen and handed to the device as a scissor box whose origin
    is the bottom-left corner. */
module Clip {

  /** The engine's `clamp(val, min, max)`: `min` when `val` is below it, else
      `max` when `val` is above that, else `val`. */
  function Clamp(val: int, lo: int, hi: int): (r: int)
    ensures lo <= hi ==> lo <= r <= hi
    ensures lo <= val <= hi ==> r == val
    ensures val < lo ==> r == lo
    ensures lo <= hi < val ==> r == hi
  {
    if val < lo then lo else if val > hi then hi else val
  }

  /** A rectangle in top-left coordinates: columns `x .. x + w - 1`, rows
      `y .. y + h - 1`. */
  datatype Rect = Rect(x: int, y: int, w: int, h: int)

  /** The arguments of the device's scissor call: the rectangle again, with its
      vertical origin measured from the bottom of the screen. */
  datatype Scissor = Scissor(left: int, bottom: int, width: int, height: int)

  /** The rectangle `ClipEnable` keeps: a negative origin first shortens the
      extent by as much, then every field is clamped to the screen. */
  function ClipRect(r: Rect, screenW: int, screenH: int): (c: Rect)
    requires screenW >= 0 && screenH >= 0
    ensures 0 <= c.x <= screenW && 0 <= c.w <= screenW - c.x
    ensures 0 <= c.y <= screenH && 0 <= c.h <= screenH - c.y
  {
    var w := if r.x < 0 then r.w + r.x else r.w;
    var h := if r.y < 0 then r.h + r.y else r.h;
    var x := Clamp(r.x, 0, screenW);
    var y := Clamp(r.y, 0, screenH);
    Rect(x, y, Clamp(w, 0, screenW - x), Clamp(h, 0, screenH - y))
  }

  function ClipEnable(r: Rect, screenW: int, screenH: int): (s: Scissor)
    requires screenW >= 0 && screenH >= 0
    ensures 0 <= s.left && s.left + s.width <= screenW && 0 <= s.width
    ensures 0 <= s.bottom && s.bottom + s.height <= screenH && 0 <= s.height
  {
    var c := ClipRect(r, screenW, screenH);
    Scissor(c.x, screenH - (c.y + c.h), c.w, c.h)
  }

  /** Column `p` lies in the span `start .. start + len - 1`. */
  predicate InSpan(p: int, start: int, len: int) {
    start <= p < start + len
  }

  /** The kept rectangle is exactly the part of the requested one that lies on
      the screen, column by column and row by row. */
  lemma ClipIsIntersection(r: Rect, screenW: int, screenH: int, px: int, py: int)
    requires screenW >= 0 && screenH >= 0
    ensures var c := ClipRect(r, screenW, screenH);
            InSpan(px, c.x, c.w) <==> InSpan(px, 0, screenW) && InSpan(px, r.x, r.w)
    ensures var c := ClipRect(r, screenW, screenH);
            InSpan(py, c.y, c.h) <==> InSpan(py, 0, screenH) && InSpan(py, r.y, r.h)
  {
  }

  /** Clipping what is already on the screen changes nothing. */
  lemma ClipIdempotent(r: Rect, screenW: int, screenH: int)
    requires screenW >= 0 && screenH >= 0
    ensures ClipRect(ClipRect(r, screenW, screenH), screenW, screenH) == ClipRect(r, screenW, screenH)
  {
  }

  /** On the engine's 640 by 480 screen, a request hanging off the top-left
      corner keeps only its on-screen part, and the scissor box counts rows
      from the bottom. */
  lemma OffCornerRequest()
    ensures ClipEnable(Rect(-10, -20, 100, 50), 640, 480) == Scissor(0, 450, 90, 30)
  {
  }
}
