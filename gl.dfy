/** Value types shared by the two render pipelines: the parameters the frame
    renderers hand to the graphics context, recorded as data instead of being
    sent to a GPU. */
module Gl {

  datatype Option<T> = None | Some(value: T)

  /** Math.PI as the program writes it; the proofs only rely on it being positive. */
  const Pi: real := 3.141592653589793
  const TwoPi: real := 2.0 * Pi

  datatype Vec3 = Vec3(x: real, y: real, z: real)

  const XAxis: Vec3 := Vec3(1.0, 0.0, 0.0)
  const YAxis: Vec3 := Vec3(0.0, 1.0, 0.0)
  const ZAxis: Vec3 := Vec3(0.0, 0.0, 1.0)

  /** One `mat4.rotate` applied to the model-view matrix: angle in radians about an axis. */
  datatype Rotation = Rotate(angle: real, axis: Vec3)

  /** The surface `gl.canvas` refers to: an on-page canvas element exposes
      `clientWidth`/`clientHeight`, an offscreen canvas does not. */
  datatype Canvas = HtmlCanvas(clientWidth: nat, clientHeight: nat) | OffscreenCanvas

  /** What the animation loop hands one call of a scene's `drawScene`: the
      canvas as it is at that moment and the seconds since the previous frame. */
  datatype FrameInput = FrameInput(canvas: Canvas, deltaTime: real)

  /** Arguments of `mat4.perspective`; the aspect ratio is kept as the pair
      width / height rather than divided out. */
  datatype Perspective = Perspective(fieldOfView: real, aspectWidth: nat, aspectHeight: nat, zNear: real, zFar: real)

  datatype ComponentType = Float | UnsignedShort
  datatype DepthFunc = Lequal
  datatype DrawMode = Triangles | TriangleStrip

  /** The static buffers a scene binds. */
  datatype BufferName = PositionBuffer | ColorBuffer | TextureCoordBuffer | IndexBuffer

  /** One `vertexAttribPointer` call, with the buffer bound just before it. */
  datatype AttribPointer = AttribPointer(buffer: BufferName, numComponents: nat, componentType: ComponentType,
                                         normalize: bool, stride: nat, offset: nat)

  datatype DrawCall =
    | DrawArrays(mode: DrawMode, first: nat, count: nat)
    | DrawElements(mode: DrawMode, count: nat, indexType: ComponentType, offset: nat)

  /** Everything one successful frame passes to the context, in the order the
      renderer issues it. */
  datatype Frame = Frame(
    clearColor: seq<real>,
    clearDepth: real,
    depthFunc: DepthFunc,
    projection: Perspective,
    translation: Vec3,
    rotations: seq<Rotation>,
    attributes: seq<AttribPointer>,
    draw: DrawCall)

  /** The arguments every frame of both scenes uses for the projection, from
      the canvas's current client size. */
  function ProjectionFor(clientWidth: nat, clientHeight: nat): (p: Perspective)
    ensures p.fieldOfView == Pi / 4.0
    ensures p.aspectWidth == clientWidth && p.aspectHeight == clientHeight
    ensures p.zNear == 0.1 && p.zFar == 100.0
  {
    Perspective(45.0 * Pi / 180.0, clientWidth, clientHeight, 0.1, 100.0)
  }

  /** The colour of vertex `i` in a table of RGBA quadruples, one per vertex. */
  function VertexColor(colors: seq<real>, i: nat): seq<real>
    requires 4 * i + 4 <= |colors|
  {
    colors[4 * i..4 * i + 4]
  }

  /** A float attribute read tightly packed from the start of its buffer. */
  function PackedFloatAttribute(buffer: BufferName, numComponents: nat): AttribPointer
  {
    AttribPointer(buffer, numComponents, Float, false, 0, 0)
  }
}
