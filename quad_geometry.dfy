/** The static geometry of the flat quad (TestGlCanvas2D/init-buffers.ts):
    four 2-D vertices drawn as a triangle strip and one RGBA colour per vertex. */
module QuadGeometry {
  import Gl

  const VertexCount: nat := 4
  const PositionComponents: nat := 2
  const ColorComponents: nat := 4

  const Positions: seq<real> := [1.0, 1.0, -1.0, 1.0, 1.0, -1.0, -1.0, -1.0]

  const Colors: seq<real> := [
    1.0, 1.0, 1.0, 1.0,  // white
    1.0, 0.0, 0.0, 1.0,  // red
    0.0, 1.0, 0.0, 1.0,  // green
    0.0, 0.0, 1.0, 1.0   // blue
  ]

  const White: seq<real> := [1.0, 1.0, 1.0, 1.0]
  const Red: seq<real> := [1.0, 0.0, 0.0, 1.0]
  const Green: seq<real> := [0.0, 1.0, 0.0, 1.0]
  const Blue: seq<real> := [0.0, 0.0, 1.0, 1.0]

  /** Vertex `i` of a table of (x, y) pairs. */
  function Corner(positions: seq<real>, i: nat): (real, real)
    requires 2 * i + 1 < |positions|
  {
    (positions[2 * i], positions[2 * i + 1])
  }

  /** The position table: 4 vertices of 2 components, each vertex a corner
      of the square [-1, 1] x [-1, 1] and no corner twice, so all four
      corners appear: top right, top left, bottom right, bottom left. */
  function InitPositionBuffer(): (p: seq<real>)
    ensures |p| == PositionComponents * VertexCount
    ensures Corner(p, 0) == (1.0, 1.0) && Corner(p, 1) == (-1.0, 1.0)
    ensures Corner(p, 2) == (1.0, -1.0) && Corner(p, 3) == (-1.0, -1.0)
    ensures forall k :: 0 <= k < |p| ==> p[k] == 1.0 || p[k] == -1.0
    ensures forall i, j :: 0 <= i < j < VertexCount ==> Corner(p, i) != Corner(p, j)
  {
    Positions
  }

  /** The colour table: 4 vertices of 4 components, white, red, green and
      blue in vertex order, all opaque. */
  function InitColorBuffer(): (c: seq<real>)
    ensures |c| == ColorComponents * VertexCount
    ensures Gl.VertexColor(c, 0) == White && Gl.VertexColor(c, 1) == Red
    ensures Gl.VertexColor(c, 2) == Green && Gl.VertexColor(c, 3) == Blue
    ensures forall i :: 0 <= i < VertexCount ==> c[4 * i + 3] == 1.0
  {
    Colors
  }

  /** What `initBuffers` returns. */
  datatype QuadBuffers = QuadBuffers(position: seq<real>, color: seq<real>)

  /** The record holds the two tables just built, and they describe the same
      number of vertices. */
  function InitBuffers(): (b: QuadBuffers)
    ensures b.position == InitPositionBuffer() && b.color == InitColorBuffer()
    ensures |b.position| / PositionComponents == |b.color| / ColorComponents == VertexCount
  {
    QuadBuffers(InitPositionBuffer(), InitColorBuffer())
  }

  /** Twice the signed area of the triangle (a, b, c). */
  function DoubleArea(a: (real, real), b: (real, real), c: (real, real)): real
  {
    (b.0 - a.0) * (c.1 - a.1) - (c.0 - a.0) * (b.1 - a.1)
  }

  function Abs(x: real): real
  {
    if x < 0.0 then -x else x
  }

  /** Drawn as a strip, the four vertices make the triangles (0, 1, 2) and
      (1, 2, 3); they share the edge from vertex 1 to vertex 2, which is a
      diagonal of the square, neither is degenerate, and together they cover
      the square's area of 4 exactly. */
  lemma StripCoversSquare()
    ensures var p := InitPositionBuffer();
            var (v0, v1, v2, v3) := (Corner(p, 0), Corner(p, 1), Corner(p, 2), Corner(p, 3));
            && v1.0 == -v2.0 && v1.1 == -v2.1
            && DoubleArea(v0, v1, v2) != 0.0 && DoubleArea(v1, v2, v3) != 0.0
            && Abs(DoubleArea(v0, v1, v2)) + Abs(DoubleArea(v1, v2, v3)) == 2.0 * 4.0
  {
  }
}
