/**
 * The integer clipping that `DrawTextureToRenderTexture` performs before it
 * stamps the footprint sprite onto the track render texture: the scaled
 * sprite, centred at a pixel of an `rtW` x `rtH` canvas, is cut down to the
 * part that lies on the canvas, or the draw is skipped.
 *
 * The sprite size arrives already floored to whole pixels (`scaleWidth`,
 * `scaleHeight`), so both are non-negative and C#'s truncating `/` agrees
 * with Dafny's `/` on them.
 */
module BlitClipper {

  import opened Wrappers

  /** A pixel rectangle: top-left corner and extent (the extent may be non-positive). */
  datatype Rect = Rect(x: int, y: int, width: int, height: int)

  function Min(a: int, b: int): int { if a <= b then a else b }

  function Max(a: int, b: int): int { if a >= b then a else b }

  /** The canvas itself, as a rectangle at the origin. */
  function Canvas(rtW: int, rtH: int): Rect { Rect(0, 0, rtW, rtH) }

  /** Where the whole scaled sprite would land, centred at (centerX, centerY). */
  function SpriteRect(scaleWidth: nat, scaleHeight: nat, centerX: int, centerY: int): Rect
  {
    Rect(centerX - scaleWidth / 2, centerY - scaleHeight / 2, scaleWidth, scaleHeight)
  }

  /**
   * The common part of two rectangles: the larger near edges and the smaller
   * far edges. Its extent is non-positive on an axis where they do not overlap.
   */
  function Intersect(a: Rect, b: Rect): Rect
  {
    var x := Max(a.x, b.x);
    var y := Max(a.y, b.y);
    Rect(x, y, Min(a.x + a.width, b.x + b.width) - x, Min(a.y + a.height, b.y + b.height) - y)
  }

  /** Both rectangles have area and they share at least one pixel. */
  predicate Overlaps(a: Rect, b: Rect)
  {
    a.width > 0 && a.height > 0 && b.width > 0 && b.height > 0 &&
    a.x < b.x + b.width && b.x < a.x + a.width &&
    a.y < b.y + b.height && b.y < a.y + a.height
  }

  /**
   * The clipping of `DrawTextureToRenderTexture`, branch for branch: the
   * horizontal near edge is clipped (or the draw skipped) first, then the
   * vertical one, then the far edges are trimmed. `None` is an early return;
   * `Some(r)` is the destination rectangle handed to the draw call.
   */
  function ClipToCanvas(scaleWidth: nat, scaleHeight: nat, centerX: int, centerY: int, rtW: int, rtH: int)
    : (r: Option<Rect>)
    // what is drawn is exactly the part of the sprite that lies on the canvas
    ensures r.Some? ==>
      r.value == Intersect(SpriteRect(scaleWidth, scaleHeight, centerX, centerY), Canvas(rtW, rtH))
    // on a real canvas the draw is skipped exactly when the sprite starts past the right or bottom edge
    ensures rtW > 0 && rtH > 0 ==>
      (r.None? <==> centerX - scaleWidth / 2 >= rtW || centerY - scaleHeight / 2 >= rtH)
    // the destination origin lies on the canvas
    ensures r.Some? ==> 0 <= r.value.x && 0 <= r.value.y
    ensures r.Some? && rtW > 0 && rtH > 0 ==> r.value.x < rtW && r.value.y < rtH
    // the far edges never pass the canvas, and meet it exactly when the far-edge trim fires
    ensures r.Some? ==> r.value.x + r.value.width <= rtW && r.value.y + r.value.height <= rtH
    ensures r.Some? && centerX - scaleWidth / 2 + scaleWidth >= rtW ==> r.value.x + r.value.width == rtW
    ensures r.Some? && centerY - scaleHeight / 2 + scaleHeight >= rtH ==> r.value.y + r.value.height == rtH
    // clipping only shrinks the sprite
    ensures r.Some? ==> r.value.width <= scaleWidth && r.value.height <= scaleHeight
    // a negative near edge moves to 0 and takes its overhang off the extent
    ensures r.Some? && centerX - scaleWidth / 2 < 0 ==>
      r.value.x == 0 && r.value.width == Min(scaleWidth + (centerX - scaleWidth / 2), rtW)
    ensures r.Some? && centerY - scaleHeight / 2 < 0 ==>
      r.value.y == 0 && r.value.height == Min(scaleHeight + (centerY - scaleHeight / 2), rtH)
    // a sprite that fits on the canvas comes back unchanged
    ensures 0 <= centerX - scaleWidth / 2 && centerX - scaleWidth / 2 + scaleWidth < rtW &&
            0 <= centerY - scaleHeight / 2 && centerY - scaleHeight / 2 + scaleHeight < rtH ==>
      r == Some(SpriteRect(scaleWidth, scaleHeight, centerX, centerY))
  {
    var dstX0 := centerX - scaleWidth / 2;
    if 0 <= dstX0 && rtW <= dstX0 then None
    else
      var dstX := if dstX0 < 0 then 0 else dstX0;
      var srcWidth0 := if dstX0 < 0 then scaleWidth - (-dstX0) else scaleWidth;
      var dstY0 := centerY - scaleHeight / 2;
      if 0 <= dstY0 && rtH <= dstY0 then None
      else
        var dstY := if dstY0 < 0 then 0 else dstY0;
        var srcHeight0 := if dstY0 < 0 then scaleHeight - (-dstY0) else scaleHeight;
        var srcWidth := if dstX + srcWidth0 >= rtW then srcWidth0 - ((dstX + srcWidth0) - rtW) else srcWidth0;
        var srcHeight := if dstY + srcHeight0 >= rtH then srcHeight0 - ((dstY + srcHeight0) - rtH) else srcHeight0;
        Some(Rect(dstX, dstY, srcWidth, srcHeight))
  }

  /**
   * As written, a clipped rectangle without area is still drawn: a sprite
   * narrower than one pixel after scaling comes back as a zero-width
   * rectangle, and the UV rectangle of the draw call then divides 0 by 0.
   */
  lemma ZeroSizeSpriteIsDrawn()
    ensures ClipToCanvas(0, 0, 5, 5, 512, 512) == Some(Rect(5, 5, 0, 0))
  {
    var r := ClipToCanvas(0, 0, 5, 5, 512, 512);
    assert r.Some?;
    assert r.value == Intersect(Rect(5, 5, 0, 0), Canvas(512, 512));
  }

  /**
   * The clipper with the evidently intended guard: a draw whose clipped
   * rectangle has no area is skipped as well, so every rectangle drawn has
   * area and lies wholly on the canvas, and the UV division is never by 0.
   */
  function ClipVisible(scaleWidth: nat, scaleHeight: nat, centerX: int, centerY: int, rtW: int, rtH: int)
    : (r: Option<Rect>)
    ensures r.Some? <==> Overlaps(SpriteRect(scaleWidth, scaleHeight, centerX, centerY), Canvas(rtW, rtH))
    ensures r.Some? ==>
      r.value == Intersect(SpriteRect(scaleWidth, scaleHeight, centerX, centerY), Canvas(rtW, rtH))
    ensures r.Some? ==>
      0 <= r.value.x && 0 < r.value.width && r.value.x + r.value.width <= rtW &&
      0 <= r.value.y && 0 < r.value.height && r.value.y + r.value.height <= rtH
    ensures scaleWidth == 0 || scaleHeight == 0 ==> r.None?
  {
    match ClipToCanvas(scaleWidth, scaleHeight, centerX, centerY, rtW, rtH)
    case None => None
    case Some(rect) => if rect.width > 0 && rect.height > 0 then Some(rect) else None
  }

}
