/** The overlay's coordinate maps. Dots live in percent of the stage (the
    overlay's rendered size); the renderer maps them to stage pixels, a drag
    maps a stage pixel back to percent, and a mask request maps percent to a
    fraction of the frame and to a rounded pixel of the frame's native size.
    Reals stand for JavaScript numbers. */
module Coordinates {
  import opened Relay

  /** `Math.round`: the nearest integer, halves rounded towards +infinity. */
  function Round(x: real): (r: int)
    ensures r as real - 0.5 <= x < r as real + 0.5
  {
    (x + 0.5).Floor
  }

  /** Drag handler: stage pixel to percent of the stage; on a stage of
      positive size, the pixels of the stage are exactly the percents from 0
      to 100. */
  function DragToPercent(px: real, size: real): (pct: real)
    requires size != 0.0
    ensures size > 0.0 ==> (0.0 <= pct <= 100.0 <==> 0.0 <= px <= size)
  {
    px / size * 100.0
  }

  /** Renderer: percent of the stage to stage pixel; a percent from 0 to
      100 is drawn on the stage. */
  function PercentToRender(pct: real, size: real): (px: real)
    ensures 0.0 <= pct <= 100.0 && 0.0 <= size ==> 0.0 <= px <= size
  {
    pct * size / 100.0
  }

  /** Mask request: percent to fraction of the frame; a percent from 0 to
      100 is a fraction from 0 to 1, and the fraction loses nothing. */
  function PercentToFraction(pct: real): (f: real)
    ensures f * 100.0 == pct
    ensures 0.0 <= pct <= 100.0 <==> 0.0 <= f <= 1.0
  {
    pct / 100.0
  }

  /** Mask request: percent to a rounded pixel of the frame's native size. */
  function PercentToNative(pct: real, natural: real): (r: int)
    ensures r as real - 0.5 <= pct / 100.0 * natural < r as real + 0.5
  {
    Round(PercentToFraction(pct) * natural)
  }

  /** The three starting dots, written as the source computes them from the
      stage size; they are fixed percentages except the first, which sits
      80 stage pixels from the top-left corner. */
  function DefaultDots(w: real, h: real): (dots: seq<Point>)
    requires w != 0.0 && h != 0.0
    ensures |dots| == 3
    ensures dots[0] == Point(8000.0 / w, 8000.0 / h)
    ensures dots[1] == Point(100.0 / 3.0, 100.0 / 3.0)
    ensures dots[2] == Point(50.0, 40.0)
  {
    ThirdOfSelf(w);
    ThirdOfSelf(h);
    HalfOfSelf(w);
    FractionOfSelf(h, 2.5);
    [ Point((80.0 / w) * 100.0, (80.0 / h) * 100.0),
      Point((w / 3.0 / w) * 100.0, (h / 3.0 / h) * 100.0),
      Point((w / 2.0 / w) * 100.0, (h / 2.5 / h) * 100.0) ]
  }

  lemma FractionOfSelf(s: real, d: real)
    requires s != 0.0 && d != 0.0
    ensures s / d / s == 1.0 / d
  {
    assert s / d == s * (1.0 / d);
    assert s * (1.0 / d) / s == 1.0 / d;
  }

  lemma ThirdOfSelf(s: real)
    requires s != 0.0
    ensures (s / 3.0 / s) * 100.0 == 100.0 / 3.0
  {
    FractionOfSelf(s, 3.0);
  }

  lemma HalfOfSelf(s: real)
    requires s != 0.0
    ensures (s / 2.0 / s) * 100.0 == 50.0
  {
    FractionOfSelf(s, 2.0);
  }

  /** `dots.map(pos => [pos.x / 100, pos.y / 100])`. */
  function PercentCoords(dots: seq<Point>): (r: seq<Point>)
    ensures |r| == |dots|
    ensures forall i :: 0 <= i < |dots| ==>
              r[i] == Point(PercentToFraction(dots[i].x), PercentToFraction(dots[i].y))
  {
    if dots == [] then []
    else [Point(PercentToFraction(dots[0].x), PercentToFraction(dots[0].y))] + PercentCoords(dots[1..])
  }

  /** `dots.map(pos => [Math.round(pos.x / 100 * naturalWidth), Math.round(pos.y / 100 * naturalHeight)])`. */
  function NativePixels(dots: seq<Point>, naturalWidth: nat, naturalHeight: nat): (r: seq<Point>)
    ensures |r| == |dots|
    ensures forall i :: 0 <= i < |dots| ==>
              r[i] == Point(PercentToNative(dots[i].x, naturalWidth as real) as real,
                            PercentToNative(dots[i].y, naturalHeight as real) as real)
  {
    if dots == [] then []
    else [Point(PercentToNative(dots[0].x, naturalWidth as real) as real,
                PercentToNative(dots[0].y, naturalHeight as real) as real)]
         + NativePixels(dots[1..], naturalWidth, naturalHeight)
  }

  /** Dragging to a stage pixel and rendering the resulting dot gives the same
      stage pixel back; rendering a dot and dragging it without moving gives
      the same percent back. */
  lemma DragRenderInverse(px: real, pct: real, size: real)
    requires size != 0.0
    ensures PercentToRender(DragToPercent(px, size), size) == px
    ensures DragToPercent(PercentToRender(pct, size), size) == pct
  {
    assert px / size * 100.0 * size / 100.0 == px / size * size;
    var r := PercentToRender(pct, size);
    var q := pct / 100.0;
    assert r == q * size;
    assert r / size == q;
    assert DragToPercent(r, size) == r / size * 100.0;
  }

  /** A dot dragged to stage pixel `px` is sent as a native pixel within half
      a pixel of `px` scaled from the stage to the native size; when both
      sizes agree, within half a pixel of `px` itself. */
  lemma DragToNativeWithinHalf(px: real, stage: real, natural: nat)
    requires stage != 0.0
    ensures var n := PercentToNative(DragToPercent(px, stage), natural as real) as real;
            n - 0.5 <= px * natural as real / stage < n + 0.5
    ensures stage == natural as real ==>
            var n := PercentToNative(DragToPercent(px, stage), natural as real) as real;
            n - 0.5 <= px < n + 0.5
  {
    var f := PercentToFraction(DragToPercent(px, stage));
    assert f == px / stage;
    assert f * natural as real == px * natural as real / stage;
    if stage == natural as real {
      assert px * natural as real / stage == px;
    }
  }

  /** Percent coordinates are not clamped: dragging past the stage's right
      edge yields more than 100 percent, and past its left edge less than 0;
      for instance twice the stage width is 200 percent. */
  lemma DragNotClamped(px: real, size: real)
    requires size > 0.0
    ensures DragToPercent(px, size) > 100.0 <==> px > size
    ensures DragToPercent(px, size) < 0.0 <==> px < 0.0
    ensures DragToPercent(2.0 * size, size) == 200.0
  {
    assert px / size * size == px;
    assert 2.0 * size / size == 2.0;
  }
}
