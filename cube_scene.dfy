/** The frame renderer of the textured cube (TestGlCanvas3D/draw-scene.ts): a
    module-level rotation angle, read to rotate the cube about Z, then X (at
    0.3 times the angle), then Y (at 0.7 times), and then advanced by the
    frame's elapsed time with no wrap. */
module CubeScene {
  import opened Gl
  import CubeGeometry
  import TextureLoader

  /** The parameters of one drawn frame at rotation `angle`. The projection
      follows the canvas's current size; the cube is moved 6 units straight
      back, and since no point of it is farther than √3 < 2 from its centre,
      whatever the rotation it stays inside the clipping range; all 36
      indices are drawn as 16-bit triangles. */
  function FrameAt(clientWidth: nat, clientHeight: nat, angle: real): (f: Frame)
    ensures f.projection == ProjectionFor(clientWidth, clientHeight)
    ensures f.translation == Vec3(0.0, 0.0, -6.0)
    ensures f.projection.zNear < -f.translation.z - 2.0 && -f.translation.z + 2.0 < f.projection.zFar
    ensures |f.rotations| == 3
    ensures f.rotations[0].angle == angle && f.rotations[1].angle == 0.3 * angle && f.rotations[2].angle == 0.7 * angle
    ensures f.draw == DrawElements(Triangles, 36, UnsignedShort, 0)
  {
    Frame(
      [0.0, 0.0, 0.0, 1.0], 1.0, Lequal,
      ProjectionFor(clientWidth, clientHeight),
      Vec3(0.0, 0.0, -6.0),
      [Rotate(angle, ZAxis), Rotate(angle * 0.3, XAxis), Rotate(angle * 0.7, YAxis)],
      [PackedFloatAttribute(PositionBuffer, 3), PackedFloatAttribute(TextureCoordBuffer, 2)],
      DrawElements(Triangles, 36, UnsignedShort, 0))
  }

  /** A drawn frame of the cube: the common parameters, the element buffer
      bound for the indexed draw, and the texture bound to unit 0 with the
      sampler pointed at that unit. `sampled` is what the texture held when
      the frame was drawn (nothing for a null handle). */
  datatype CubeFrame = CubeFrame(
    frame: Frame,
    elementArrayBuffer: BufferName,
    activeTextureUnit: nat,
    texture: TextureLoader.Texture?,
    samplerUnit: nat,
    sampled: Option<TextureLoader.TexObject>)

  /** The end-of-frame update: the wrap is commented out in the source, so
      the angle grows by the whole delta and passes 2π unreduced. */
  function NextRotation(rotation: real, deltaTime: real): (r: real)
    ensures r - rotation == deltaTime
    ensures deltaTime >= 0.0 ==> r >= rotation
    ensures rotation + deltaTime >= TwoPi ==> r >= TwoPi
  {
    rotation + deltaTime
  }

  /** One call of `drawScene` on the angle: an aborted frame leaves it alone,
      a drawn one adds its whole delta. */
  function Advance(rotation: real, input: FrameInput): (r: real)
    ensures !input.canvas.HtmlCanvas? ==> r == rotation
    ensures input.canvas.HtmlCanvas? ==> r - rotation == input.deltaTime
    ensures input.deltaTime >= 0.0 ==> r >= rotation
  {
    if input.canvas.HtmlCanvas? then NextRotation(rotation, input.deltaTime) else rotation
  }

  function AfterFrames(rotation: real, inputs: seq<FrameInput>): real
    decreases |inputs|
  {
    if inputs == [] then rotation else AfterFrames(Advance(rotation, inputs[0]), inputs[1..])
  }

  /** Sum of the deltas of the frames that were drawn (not aborted). */
  function DrawnTime(inputs: seq<FrameInput>): real
    decreases |inputs|
  {
    if inputs == [] then 0.0
    else (if inputs[0].canvas.HtmlCanvas? then inputs[0].deltaTime else 0.0) + DrawnTime(inputs[1..])
  }

  /** After any run of frames the angle is the start plus the running sum of
      the drawn frames' deltas; from 0, it is that sum. */
  lemma {:induction false} AngleIsRunningSum(rotation: real, inputs: seq<FrameInput>)
    ensures AfterFrames(rotation, inputs) == rotation + DrawnTime(inputs)
    decreases |inputs|
  {
    if inputs != [] {
      AngleIsRunningSum(Advance(rotation, inputs[0]), inputs[1..]);
    }
  }

  /** With non-negative deltas the angle never decreases, frame after frame. */
  lemma {:induction false} AngleNeverDecreases(rotation: real, inputs: seq<FrameInput>)
    requires forall k :: 0 <= k < |inputs| ==> inputs[k].deltaTime >= 0.0
    ensures AfterFrames(rotation, inputs) >= rotation
    ensures forall n :: 0 <= n < |inputs| ==> AfterFrames(rotation, inputs[..n]) <= AfterFrames(rotation, inputs[..n + 1])
    decreases |inputs|
  {
    if inputs != [] {
      var next := Advance(rotation, inputs[0]);
      AngleNeverDecreases(next, inputs[1..]);
      forall n | 0 <= n < |inputs|
        ensures AfterFrames(rotation, inputs[..n]) <= AfterFrames(rotation, inputs[..n + 1])
      {
        if n > 0 {
          assert inputs[..n][1..] == inputs[1..][..n - 1];
          assert inputs[..n + 1][1..] == inputs[1..][..n];
        } else {
          assert inputs[..1][1..] == [];
        }
      }
    }
  }

  /** The rotations of a frame, in order: the angle about Z, 0.3 times it
      about X, 0.7 times it about Y. */
  lemma RotationOrder(clientWidth: nat, clientHeight: nat, angle: real)
    ensures var r := FrameAt(clientWidth, clientHeight, angle).rotations;
            && |r| == 3
            && r[0].axis == ZAxis && r[1].axis == XAxis && r[2].axis == YAxis
            && r[0].angle == angle && r[1].angle == 0.3 * angle && r[2].angle == 0.7 * angle
  {
  }

  /** Every frame draws all 36 indices of the table as unsigned 16-bit
      values from offset 0, every index addresses one of the 24 vertices, and
      the attributes read 3 position and 2 texture components per vertex,
      which is exactly the length of those tables. */
  lemma FrameMatchesTables(clientWidth: nat, clientHeight: nat, angle: real)
    ensures var f := FrameAt(clientWidth, clientHeight, angle);
            var b := CubeGeometry.InitBuffers();
            && f.draw == DrawElements(Triangles, |b.indices|, UnsignedShort, 0)
            && (forall k :: 0 <= k < |b.indices| ==> 0 <= b.indices[k] < CubeGeometry.VertexCount <= CubeGeometry.MaxUint16)
            && |f.attributes| == 2
            && f.attributes[0].buffer == PositionBuffer
            && f.attributes[0].numComponents * CubeGeometry.VertexCount == |b.position|
            && f.attributes[1].buffer == TextureCoordBuffer
            && f.attributes[1].numComponents * CubeGeometry.VertexCount == |b.textureCoord|
            && (forall a :: a in f.attributes ==> a.componentType == Float && a.stride == 0 && a.offset == 0)
  {
  }

  /** The renderer with its module-level angle. */
  class Renderer {
    var squareRotation: real

    constructor ()
      ensures squareRotation == 0.0
    {
      squareRotation := 0.0;
    }

    /** `drawScene`: a canvas without `clientWidth` aborts the frame with
        the angle unchanged; otherwise the frame is drawn with the angle as it
        was, sampling whatever `texture` holds at that moment, and only then
        the angle advances. */
    method DrawScene(canvas: Canvas, texture: TextureLoader.Texture?, deltaTime: real)
      returns (frame: Option<CubeFrame>)
      modifies this
      ensures !canvas.HtmlCanvas? ==> frame == None && squareRotation == old(squareRotation)
      ensures canvas.HtmlCanvas? ==>
                && frame.Some?
                && frame.value.frame == FrameAt(canvas.clientWidth, canvas.clientHeight, old(squareRotation))
                && frame.value.elementArrayBuffer == IndexBuffer
                && frame.value.activeTextureUnit == 0 && frame.value.samplerUnit == 0
                && frame.value.texture == texture
                && frame.value.sampled == (if texture == null then None else Some(texture.Contents()))
                && squareRotation == old(squareRotation) + deltaTime
      ensures squareRotation == Advance(old(squareRotation), FrameInput(canvas, deltaTime))
    {
      if !canvas.HtmlCanvas? {
        return None;
      }
      var sampled := if texture == null then None else Some(texture.Contents());
      frame := Some(CubeFrame(FrameAt(canvas.clientWidth, canvas.clientHeight, squareRotation),
                              IndexBuffer, 0, texture, 0, sampled));
      squareRotation := squareRotation + deltaTime;
    }
  }

  /** A frame drawn right after `loadTexture` returns, before any of the
      fetch's continuations, samples the opaque-blue placeholder; being the
      first frame, it is drawn at angle 0. */
  method FrameBeforeLoad(canvas: Canvas, url: string, deltaTime: real) returns (frame: Option<CubeFrame>)
    ensures canvas.HtmlCanvas? <==> frame.Some?
    ensures frame.Some? ==> frame.value.sampled == Some(TextureLoader.PlaceholderTexture())
    ensures frame.Some? ==> frame.value.frame == FrameAt(canvas.clientWidth, canvas.clientHeight, 0.0)
  {
    var renderer := new Renderer();
    var texture := TextureLoader.LoadTexture(url);
    frame := renderer.DrawScene(canvas, texture, deltaTime);
  }

  /** A frame drawn after the image has loaded samples the uploaded image,
      mipmapped exactly when both sides pass `IsPowerOf2`. */
  method FrameAfterLoad(canvas: Canvas, url: string, width: nat, height: nat, deltaTime: real)
    returns (frame: Option<CubeFrame>)
    ensures canvas.HtmlCanvas? <==> frame.Some?
    ensures frame.Some? ==> frame.value.sampled.Some?
    ensures frame.Some? ==> frame.value.sampled.value.image == TextureLoader.UploadedImage(width, height)
    ensures frame.Some? ==>
              (frame.value.sampled.value.mipmapped <==> TextureLoader.IsPowerOf2(width) && TextureLoader.IsPowerOf2(height))
  {
    var texture := TextureLoader.LoadTexture(url);
    texture.Deliver(TextureLoader.Response(true));
    texture.Deliver(TextureLoader.BodyRead(true));
    texture.Deliver(TextureLoader.ImageLoaded(width, height));
    TextureLoader.SuccessfulLoad(width, height);
    var renderer := new Renderer();
    frame := renderer.DrawScene(canvas, texture, deltaTime);
  }
}
