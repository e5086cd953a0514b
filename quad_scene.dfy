/** The frame renderer of the flat quad (TestGlCanvas2D/draw-scene.ts): a
    module-level rotation angle, read to rotate the quad about Z and then
    advanced by the frame's elapsed time and wrapped by one subtraction of 2π. */
module QuadScene {
  import opened Gl
  import QuadGeometry

  /** The parameters of one drawn frame at rotation `angle`. The projection
      follows the canvas's current size; the square, moved 6 units straight
      back and turned about Z only, stays at depth 6, inside the clipping
      range; all four vertices are drawn as one strip. */
  function FrameAt(clientWidth: nat, clientHeight: nat, angle: real): (f: Frame)
    ensures f.projection == ProjectionFor(clientWidth, clientHeight)
    ensures f.translation == Vec3(0.0, 0.0, -6.0)
    ensures f.projection.zNear < -f.translation.z < f.projection.zFar
    ensures f.rotations == [Rotate(angle, ZAxis)]
    ensures f.draw == DrawArrays(TriangleStrip, 0, QuadGeometry.VertexCount)
  {
    Frame(
      [0.0, 0.0, 0.0, 1.0], 1.0, Lequal,
      ProjectionFor(clientWidth, clientHeight),
      Vec3(0.0, 0.0, -6.0),
      [Rotate(angle, ZAxis)],
      [PackedFloatAttribute(PositionBuffer, 2), PackedFloatAttribute(ColorBuffer, 4)],
      DrawArrays(TriangleStrip, 0, 4))
  }

  /** The end-of-frame update: add the elapsed time, then subtract 2π once if
      the sum reached it, and never a second time. It is
      in [0, 2π) whenever the old angle and the delta are; and it is still at
      least 2π exactly when the sum was at least 4π. */
  function NextRotation(rotation: real, deltaTime: real): (r: real)
    ensures rotation + deltaTime >= TwoPi ==> r == rotation + deltaTime - TwoPi
    ensures rotation + deltaTime < TwoPi ==> r == rotation + deltaTime
    ensures 0.0 <= rotation < TwoPi && 0.0 <= deltaTime < TwoPi ==> 0.0 <= r < TwoPi
    ensures r >= TwoPi <==> rotation + deltaTime >= 2.0 * TwoPi
  {
    var sum := rotation + deltaTime;
    if sum >= TwoPi then sum - TwoPi else sum
  }

  /** One call of `drawScene` on the angle: an aborted frame leaves it alone,
      a drawn one applies the end-of-frame update, which keeps it in [0, 2π)
      when the delta is below 2π. */
  function Advance(rotation: real, input: FrameInput): (r: real)
    ensures !input.canvas.HtmlCanvas? ==> r == rotation
    ensures input.canvas.HtmlCanvas? ==> r == NextRotation(rotation, input.deltaTime)
    ensures 0.0 <= rotation < TwoPi && 0.0 <= input.deltaTime < TwoPi ==> 0.0 <= r < TwoPi
  {
    if input.canvas.HtmlCanvas? then NextRotation(rotation, input.deltaTime) else rotation
  }

  function AfterFrames(rotation: real, inputs: seq<FrameInput>): real
    decreases |inputs|
  {
    if inputs == [] then rotation else AfterFrames(Advance(rotation, inputs[0]), inputs[1..])
  }

  /** The wrap invariant across any run of frames: starting in [0, 2π), the
      angle stays there as long as every delta is in [0, 2π). */
  lemma {:induction false} StaysInRange(rotation: real, inputs: seq<FrameInput>)
    requires 0.0 <= rotation < TwoPi
    requires forall k :: 0 <= k < |inputs| ==> 0.0 <= inputs[k].deltaTime < TwoPi
    ensures 0.0 <= AfterFrames(rotation, inputs) < TwoPi
    decreases |inputs|
  {
    if inputs != [] {
      StaysInRange(Advance(rotation, inputs[0]), inputs[1..]);
    }
  }

  /** The bound on the delta is needed: one delta of 4π from 0 leaves the
      angle at 2π, outside the range. */
  lemma OneSubtractionOnly()
    ensures AfterFrames(0.0, [FrameInput(HtmlCanvas(640, 480), 2.0 * TwoPi)]) == TwoPi
  {
  }

  /** Every frame draws a 4-vertex strip from offset 0 whose attributes agree
      with the tables: 2 position and 4 colour components per vertex, read
      from the start of their buffers. */
  lemma FrameMatchesTables(clientWidth: nat, clientHeight: nat, angle: real)
    ensures var f := FrameAt(clientWidth, clientHeight, angle);
            && f.draw == DrawArrays(TriangleStrip, 0, QuadGeometry.VertexCount)
            && |f.attributes| == 2
            && f.attributes[0].buffer == PositionBuffer
            && f.attributes[0].numComponents * f.draw.count == |QuadGeometry.InitBuffers().position|
            && f.attributes[1].buffer == ColorBuffer
            && f.attributes[1].numComponents * f.draw.count == |QuadGeometry.InitBuffers().color|
            && (forall a :: a in f.attributes ==> a.componentType == Float && a.stride == 0 && a.offset == 0)
            && f.rotations == [Rotate(angle, ZAxis)]
            && f.translation == Vec3(0.0, 0.0, -6.0)
  {
  }

  /** The renderer with its module-level angle. */
  class Renderer {
    var squareRotation: real

    constructor ()
      ensures squareRotation == 0.0
    {
      squareRotation := 0.0;
    }

    /** `drawScene`: a canvas without `clientWidth` aborts the frame with
        the angle unchanged; otherwise the frame is drawn with the angle as it
        was, and only then the angle advances. */
    method DrawScene(canvas: Canvas, deltaTime: real) returns (frame: Option<Frame>)
      modifies this
      ensures !canvas.HtmlCanvas? ==> frame == None && squareRotation == old(squareRotation)
      ensures canvas.HtmlCanvas? ==>
                && frame == Some(FrameAt(canvas.clientWidth, canvas.clientHeight, old(squareRotation)))
                && squareRotation == NextRotation(old(squareRotation), deltaTime)
      ensures squareRotation == Advance(old(squareRotation), FrameInput(canvas, deltaTime))
    {
      if !canvas.HtmlCanvas? {
        return None;
      }
      frame := Some(FrameAt(canvas.clientWidth, canvas.clientHeight, squareRotation));
      squareRotation := squareRotation + deltaTime;
      if squareRotation >= TwoPi {
        squareRotation := squareRotation - TwoPi;
      }
    }
  }
}
