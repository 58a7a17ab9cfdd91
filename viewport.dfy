/** The canvas view's fit-to-widget transform: the canvas is scaled to fit
    the widget minus a 20-pixel padding on every side and centred. Scale and
    offsets are exact reals. */
module Viewport {
  import opened Common

  const Padding := 20

  datatype Transform = Transform(scale: real, offsetX: real, offsetY: real)

  /** The transform a new canvas view starts with. */
  const InitialTransform := Transform(1.0, 0.0, 0.0)

  function Min(a: real, b: real): (m: real)
    ensures m <= a && m <= b && (m == a || m == b)
  {
    if a <= b then a else b
  }

  /** What `_update_transform` assigns for a widget `width` x `height` showing
      a `canvasW` x `canvasH` canvas, or `None` when it assigns nothing: the
      space inside the padding is empty on some axis (early return), or a
      canvas dimension is 0 (the division raises before any assignment). */
  function FitTransform(width: int, height: int, canvasW: int, canvasH: int): Option<Transform> {
    var availW := width - Padding * 2;
    var availH := height - Padding * 2;
    if availW <= 0 || availH <= 0 || canvasW == 0 || canvasH == 0 then None
    else
      var scale := Min(availW as real / canvasW as real, availH as real / canvasH as real);
      Some(Transform(scale,
        (width as real - canvasW as real * scale) / 2.0,
        (height as real - canvasH as real * scale) / 2.0))
  }

  /** The fields are assigned exactly when there is room inside the padding
      and the canvas has no zero dimension. */
  lemma FitAssignsIff(width: int, height: int, canvasW: int, canvasH: int)
    ensures FitTransform(width, height, canvasW, canvasH).Some? <==>
      width > 2 * Padding && height > 2 * Padding && canvasW != 0 && canvasH != 0
  {
  }

  /** For a canvas of positive size: the scaled canvas lies inside the padded
      area, exactly fills it on at least one axis, and is centred, so each
      offset is at least the padding. */
  lemma {:induction false} FitFitsAndFills(width: int, height: int, canvasW: int, canvasH: int)
    requires width > 2 * Padding && height > 2 * Padding && canvasW > 0 && canvasH > 0
    ensures var t := FitTransform(width, height, canvasW, canvasH).value;
      var w, h := canvasW as real * t.scale, canvasH as real * t.scale;
      && t.scale > 0.0
      && w <= (width - 2 * Padding) as real && h <= (height - 2 * Padding) as real
      && (w == (width - 2 * Padding) as real || h == (height - 2 * Padding) as real)
      && t.offsetX + w + t.offsetX == width as real && t.offsetY + h + t.offsetY == height as real
      && t.offsetX >= Padding as real && t.offsetY >= Padding as real
  {
    var availW, availH := (width - Padding * 2) as real, (height - Padding * 2) as real;
    var cw, ch := canvasW as real, canvasH as real;
    var sx, sy := availW / cw, availH / ch;
    var s := Min(sx, sy);
    assert cw * sx == availW && ch * sy == availH;
    ScaleBelow(cw, s, sx);
    ScaleBelow(ch, s, sy);
  }

  lemma ScaleBelow(c: real, s: real, t: real)
    requires c > 0.0 && s <= t
    ensures c * s <= c * t
  {
  }

  /** A 1920 x 1080 canvas in a 1000 x 580 widget: scale one half, 20 pixels
      of padding on each side. */
  lemma FitExample()
    ensures FitTransform(1000, 580, 1920, 1080) == Some(Transform(0.5, 20.0, 20.0))
  {
  }
}
