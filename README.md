# Footprint track: path sampler and blit clipper

`PlayerController` moves an avatar over a snow field and stamps a footprint
sprite into a render texture (the track texture) wherever the avatar has
been. Two pieces of that script do not depend on the engine, and this project
models and proves them:

- **The footprint blit clipper** (`DrawTextureToRenderTexture`). The sprite is
  scaled to `scaleWidth` x `scaleHeight` whole pixels, centred at a pixel of
  the `rtW` x `rtH` track texture, and clipped to the texture. The result is
  either "skip" (an early `return`) or the destination rectangle
  `(dstX, dstY, srcWidth, srcHeight)` handed to the draw call.
  Module `BlitClipper` (`blit_clipper.dfy`) models it as the pure function
  `ClipToCanvas`, which keeps the source's branch order. Its contract ties the
  result to an independent definition: the intersection of the sprite's
  rectangle with the canvas.
- **The path sampler** (`GetLinearPointBetweenTwoPoints` with
  `GetPosInDirectionByDistance`). It refills the caller's point list: first
  the start, then one point every `interval` towards the end while the
  squared distance left is more than `interval` squared, then the end. A
  non-positive interval is logged as an error and the list is left alone.
  Module `PathSampler` (`path_sampler.dfy`) models the list as the class
  `PosList`, whose field `items` is a `seq`. The procedure is a method with
  the source's `while` loop, proved equal to the closed-form function
  `Samples`. The spacing properties are lemmas about `Samples`.

`Wrappers` (`wrappers.dfy`) holds the `Option` type used for "skip".

Points are exact reals on the line through the start and end points (1-D
coordinates). So `normalized` is -1, 0 or 1, `sqrMagnitude` is the square,
and no square root is needed. The loop still compares squared distances,
as the source does. The error log (`Debug.LogError`) becomes the boolean
result `logged`.

Where the documented design and the code differ, the model follows the
code:
- The documented design says the sampler has no side effects. The code clears and
  refills a caller-owned list, and leaves it untouched on error. The model
  does the same.
- The documented design says the sampler spaces points "at most" `interval` apart.
  In exact arithmetic the code spaces them exactly `interval` apart, except
  for the last leg (`SamplesSpacing`).
- The documented design says the draw is skipped whenever `dstX >= canvasW`. The
  code tests this only when `dstX >= 0` (an `else if`). This matters only for
  a canvas with no width, and `ClipToCanvas` keeps the code's test.

## Model

| member | source | states |
|---|---|---|
| `BlitClipper.ClipToCanvas` | Assets/Scripts/PlayerController.cs:157-194 | Whenever the draw is not skipped, the rectangle is exactly the part of the sprite that lies on the canvas (`Intersect(SpriteRect, Canvas)`). On a canvas of positive size, the draw is skipped exactly when the sprite's near edge lies at or beyond the right edge or the bottom edge. The origin lies on the canvas. The far edges never pass the canvas, and they meet it exactly when the far-edge trim fires. Width and height never grow. A negative near edge moves to 0, and its overhang comes off the extent. A sprite that fits comes back unchanged. |
| `BlitClipper.ZeroSizeSpriteIsDrawn` | Assets/Scripts/PlayerController.cs:184-201 | As written, a sprite scaled to 0 x 0 pixels is not skipped. It comes back as a zero-size rectangle, which reaches the UV division at line 200. |
| `BlitClipper.ClipVisible` | Assets/Scripts/PlayerController.cs:160-194 | The corrected clipper draws exactly when the sprite and the canvas share a pixel. When it draws, the rectangle is the intersection, it has positive width and height, and it lies wholly on the canvas. A sprite of zero width or height is always skipped. |
| `PathSampler.GetPosInDirectionByDistance` | Assets/Scripts/PlayerController.cs:148-151 | One step moves exactly `interval` (in absolute value) along a non-zero direction. For `interval >= 0` it moves towards that direction. For a zero direction it does not move. |
| `PathSampler.StepCountLeavesOneLeg` | Assets/Scripts/PlayerController.cs:137-143 | After as many whole steps as the loop takes, between 0 and `interval` of the segment is left. If at least one step was taken, more than 0 is left. So the count is the fewest steps after which the loop condition fails. |
| `PathSampler.Samples` | Assets/Scripts/PlayerController.cs:131-145 | The list has at least two points. It starts with the start point and ends with the end point. When the two coincide, it is exactly `[start, end]`. |
| `PathSampler.SampleAt` | Assets/Scripts/PlayerController.cs:136-142 | The k-th point before the end lies k whole steps from the start, towards the end. Those k steps do not reach past the end. |
| `PathSampler.LegAt` | Assets/Scripts/PlayerController.cs:137-143 | Two consecutive points before the end are exactly `interval` apart. |
| `PathSampler.LastLeg` | Assets/Scripts/PlayerController.cs:137-145 | The last leg, into the end point, is at most `interval` long. It is longer than 0 unless the start and end coincide. |
| `PathSampler.OnSegmentAt` | Assets/Scripts/PlayerController.cs:133-145 | Each sampled point lies on the segment: its distances to the two end points add up to the segment's length. |
| `PathSampler.SamplesSpacing` | Assets/Scripts/PlayerController.cs:131-150 | Over the whole list: consecutive points before the last leg are exactly `interval` apart. The last leg is in (0, `interval`], or 0 for a zero-length segment. Every point lies on the segment. |
| `PathSampler.SamplesExample` | Assets/Scripts/PlayerController.cs:131-145 | From 0 to 10 with interval 3, the list is 0, 3, 6, 9, 10. |
| `PathSampler.RemainingSqr` | Assets/Scripts/PlayerController.cs:133-141 | The squared distance to the end, measured from a point `t` along the segment, is the square of the length left. |
| `PathSampler.LoopStepPosition` | Assets/Scripts/PlayerController.cs:137-142 | While the loop condition holds, more than `interval` is left. The new point lies `interval` further along, and the loop's new squared distance is that of what is left. |
| `PathSampler.LoopStepCount` | Assets/Scripts/PlayerController.cs:139-140 | A turn of the loop appends the next whole-step point and uses up one step of the count. |
| `PathSampler.LoopExit` | Assets/Scripts/PlayerController.cs:137-145 | When the loop condition fails, all whole steps have been taken. The list plus the end point is then `Samples`. |
| `PathSampler.GetLinearPointBetweenTwoPoints` | Assets/Scripts/PlayerController.cs:123-146 | The error is logged exactly when `interval <= 0`, and then the list is exactly as it was (no clear, no add). Otherwise the list becomes `Samples(startPos, endPos, interval)`, and the loop terminates. |

## Left out

- `ControlPlayer` (rotation from mouse movement, movement from the input axes, `Time.deltaTime`): engine input and float vector maths.
- `drawToPosition`: a physics raycast and the float conversion from UV to pixels are engine calls. The clipper takes the resulting centre pixel as an input.
- `SetPosToWhite`: a float `sqrMagnitude > 0.16f` test against the engine transform. It glues the sampler to the stamping loop.
- `Start` and `Update`: engine lifecycle, render-texture creation and material binding.
- The render-state and draw sequence at lines 196-204, including the float UV rectangle at line 200. These are rendering side effects and float division. The zero-size case that reaches that division is the finding below.
- The `Mathf.FloorToInt(src.width * scale)` conversions at lines 155-156 are float maths. The clipper takes their results as the non-negative inputs `scaleWidth` and `scaleHeight`.
- ClipToCanvas: C# `int` is 32 bits and the model's integers are unbounded. The source's inputs (texture sizes and a centre pixel on the texture) lie far inside the 32-bit range, so no sum in the clipper can wrap.
- GetLinearPointBetweenTwoPoints: modelled over exact reals on the line through the two end points, not float `Vector3`s. Float rounding of `normalized` and of the repeated additions is not captured. Neither are NaN or infinite inputs, or a float loop that fails to end within float precision.
- `List<Vector3>` is the host library's list. `PosList` models only its `Clear` and `Add`, as value updates of a `seq`.

## Findings

| source | as written | input that shows it | evidently intended | confidence | as-written member | corrected member |
|---|---|---|---|---|---|---|
| Assets/Scripts/PlayerController.cs:167-200 | The clipper skips only a sprite whose near edge lies at or beyond the right or bottom edge. A clipped rectangle with no area is still drawn. Then line 200 computes the UV extent `srcWidth / (float)scaleWidth` as 0 / 0. A sprite wholly off the left or top edge also gets a non-positive extent. | `scaleWidth = scaleHeight = 0` (a sprite narrower than one pixel after scaling), centre (5, 5), 512 x 512 canvas: the result is `Some(Rect(5, 5, 0, 0))` | Skip every draw whose clipped rectangle has no area, so only rectangles wholly on the canvas, with a non-zero divisor, are drawn | medium; not executed | `BlitClipper.ZeroSizeSpriteIsDrawn` | `BlitClipper.ClipVisible` |
