/** The static geometry of the textured cube (TestGlCanvas3D/init-buffers.ts):
    24 vertices (four per face, no sharing between faces), 36 16-bit indices
    forming two triangles per face, 48 texture coordinates, and the per-face
    colour table that `initColorBuffer` expands to one colour per vertex. */
module CubeGeometry {
  import Gl

  const FaceCount: nat := 6
  const VerticesPerFace: nat := 4
  const VertexCount: nat := 24
  const PositionComponents: nat := 3
  const TextureCoordComponents: nat := 2
  const ColorComponents: nat := 4
  const MaxUint16: nat := 0xFFFF

  /** The position table, one row of four (x, y, z) vertices per face. */
  const FrontFace: seq<real> := [-1.0, -1.0, 1.0, 1.0, -1.0, 1.0, 1.0, 1.0, 1.0, -1.0, 1.0, 1.0]
  const BackFace: seq<real> := [-1.0, -1.0, -1.0, -1.0, 1.0, -1.0, 1.0, 1.0, -1.0, 1.0, -1.0, -1.0]
  const TopFace: seq<real> := [-1.0, 1.0, -1.0, -1.0, 1.0, 1.0, 1.0, 1.0, 1.0, 1.0, 1.0, -1.0]
  const BottomFace: seq<real> := [-1.0, -1.0, -1.0, 1.0, -1.0, -1.0, 1.0, -1.0, 1.0, -1.0, -1.0, 1.0]
  const RightFace: seq<real> := [1.0, -1.0, -1.0, 1.0, 1.0, -1.0, 1.0, 1.0, 1.0, 1.0, -1.0, 1.0]
  const LeftFace: seq<real> := [-1.0, -1.0, -1.0, -1.0, -1.0, 1.0, -1.0, 1.0, 1.0, -1.0, 1.0, -1.0]

  const Positions: seq<real> := FrontFace + BackFace + TopFace + BottomFace + RightFace + LeftFace

  const Indices: seq<int> :=
    [0, 1, 2, 0, 2, 3] +        // front
    [4, 5, 6, 4, 6, 7] +        // back
    [8, 9, 10, 8, 10, 11] +     // top
    [12, 13, 14, 12, 14, 15] +  // bottom
    [16, 17, 18, 16, 18, 19] +  // right
    [20, 21, 22, 20, 22, 23]    // left

  /** The texture corners (0,0), (1,0), (1,1), (0,1) of one face. */
  const FaceTextureCorners: seq<real> := [0.0, 0.0, 1.0, 0.0, 1.0, 1.0, 0.0, 1.0]

  const TextureCoordinates: seq<real> :=
    [0.0, 0.0, 1.0, 0.0, 1.0, 1.0, 0.0, 1.0] +  // Front
    [0.0, 0.0, 1.0, 0.0, 1.0, 1.0, 0.0, 1.0] +  // Back
    [0.0, 0.0, 1.0, 0.0, 1.0, 1.0, 0.0, 1.0] +  // Top
    [0.0, 0.0, 1.0, 0.0, 1.0, 1.0, 0.0, 1.0] +  // Bottom
    [0.0, 0.0, 1.0, 0.0, 1.0, 1.0, 0.0, 1.0] +  // Right
    [0.0, 0.0, 1.0, 0.0, 1.0, 1.0, 0.0, 1.0]    // Left

  const FaceColors: seq<seq<real>> := [
    [1.0, 1.0, 1.0, 1.0],  // Front face: white
    [1.0, 0.0, 0.0, 1.0],  // Back face: red
    [0.0, 1.0, 0.0, 1.0],  // Top face: green
    [0.0, 0.0, 1.0, 1.0],  // Bottom face: blue
    [1.0, 1.0, 0.0, 1.0],  // Right face: yellow
    [1.0, 0.0, 1.0, 1.0]   // Left face: purple
  ]

  // ---------------------------------------------------------------------
  // Positions
  // ---------------------------------------------------------------------

  datatype Axis = X | Y | Z

  function AxisOffset(a: Axis): nat
  {
    match a
    case X => 0
    case Y => 1
    case Z => 2
  }

  /** Row `f` of the position table. */
  function FacePositions(f: nat): seq<real>
    requires f < FaceCount
  {
    [FrontFace, BackFace, TopFace, BottomFace, RightFace, LeftFace][f]
  }

  /** Coordinate `a` of vertex `i`. */
  function Coord(i: nat, a: Axis): real
    requires i < VertexCount
  {
    Positions[3 * i + AxisOffset(a)]
  }

  function Vertex(i: nat): (real, real, real)
    requires i < VertexCount
  {
    (Coord(i, X), Coord(i, Y), Coord(i, Z))
  }

  /** Vertex `v` (0..3) of face `f` (0..5). */
  function FaceVertex(f: nat, v: nat): nat
  {
    4 * f + v
  }

  /** The axis each face is perpendicular to, and where it sits on it. */
  function FixedAxis(f: nat): Axis
  {
    if f < 2 then Z else if f < 4 then Y else X
  }

  function FixedValue(f: nat): real
  {
    if f % 2 == 0 then 1.0 else -1.0
  }

  /** 72 numbers, three per vertex, each one a corner coordinate of the unit
      cube, laid out face by face. */
  lemma PositionTable()
    ensures |Positions| == PositionComponents * VertexCount
    ensures forall i :: 0 <= i < |Positions| ==> Positions[i] == 1.0 || Positions[i] == -1.0
    ensures forall f, k :: 0 <= f < FaceCount && 0 <= k < 12 ==> Positions[12 * f + k] == FacePositions(f)[k]
  {
    forall f, k | 0 <= f < FaceCount && 0 <= k < 12
      ensures Positions[12 * f + k] == FacePositions(f)[k]
    {
      PositionRow(f);
    }
    forall i | 0 <= i < |Positions|
      ensures Positions[i] == 1.0 || Positions[i] == -1.0
    {
      PositionRow(i / 12);
      FaceRowIsUnit(i / 12);
      assert Positions[i] == FacePositions(i / 12)[i % 12];
    }
  }

  /** Row `f` of the position table sits at offset 12f. */
  lemma PositionRow(f: nat)
    requires f < FaceCount
    ensures |Positions| == 72
    ensures forall k :: 0 <= k < 12 ==> Positions[12 * f + k] == FacePositions(f)[k]
  {
    if f < 3 {
      FirstHalfRows(f);
    } else {
      SecondHalfRows(f);
    }
  }

  /** PositionRow for the front, back and top faces. */
  lemma FirstHalfRows(f: nat)
    requires f < 3
    ensures forall k :: 0 <= k < 12 ==> Positions[12 * f + k] == FacePositions(f)[k]
  {
    if f == 0 {
      assert FacePositions(f) == FrontFace;
    } else if f == 1 {
      assert FacePositions(f) == BackFace;
    } else {
      assert FacePositions(f) == TopFace;
    }
  }

  /** PositionRow for the bottom, right and left faces. */
  lemma SecondHalfRows(f: nat)
    requires 3 <= f < FaceCount
    ensures forall k :: 0 <= k < 12 ==> Positions[12 * f + k] == FacePositions(f)[k]
  {
    if f == 3 {
      assert FacePositions(f) == BottomFace;
    } else if f == 4 {
      assert FacePositions(f) == RightFace;
    } else {
      assert FacePositions(f) == LeftFace;
    }
  }

  /** Every coordinate in a face row is 1 or -1. */
  lemma FaceRowIsUnit(f: nat)
    requires f < FaceCount
    ensures |FacePositions(f)| == 12
    ensures forall k :: 0 <= k < 12 ==> FacePositions(f)[k] == 1.0 || FacePositions(f)[k] == -1.0
  {
    if f == 0 {
      assert FacePositions(f) == FrontFace;
    } else if f == 1 {
      assert FacePositions(f) == BackFace;
    } else if f == 2 {
      assert FacePositions(f) == TopFace;
    } else if f == 3 {
      assert FacePositions(f) == BottomFace;
    } else if f == 4 {
      assert FacePositions(f) == RightFace;
    } else {
      assert FacePositions(f) == LeftFace;
    }
  }

  /** Coordinate `a` of vertex `v` of face `f`, read from the face's row. */
  lemma FaceCoord(f: nat, v: nat, a: Axis)
    requires f < FaceCount && v < VerticesPerFace
    ensures Coord(FaceVertex(f, v), a) == FacePositions(f)[3 * v + AxisOffset(a)]
  {
    var k := 3 * v + AxisOffset(a);
    PositionRow(f);
    assert Coord(FaceVertex(f, v), a) == Positions[12 * f + k];
  }

  /** Every face is planar: its four vertices share the face's fixed coordinate
      (front z=1, back z=-1, top y=1, bottom y=-1, right x=1, left x=-1). */
  lemma FacesArePlanar()
    ensures forall f, v :: 0 <= f < FaceCount && 0 <= v < VerticesPerFace ==>
              Coord(FaceVertex(f, v), FixedAxis(f)) == FixedValue(f)
  {
    forall f, v | 0 <= f < FaceCount && 0 <= v < VerticesPerFace
      ensures Coord(FaceVertex(f, v), FixedAxis(f)) == FixedValue(f)
    {
      FaceCoord(f, v, FixedAxis(f));
      FaceRowFixed(f);
    }
  }

  /** In face row f, every vertex's coordinate on the face's fixed axis is the face's fixed value. */
  lemma FaceRowFixed(f: nat)
    requires f < FaceCount
    ensures forall v :: 0 <= v < VerticesPerFace ==> FacePositions(f)[3 * v + AxisOffset(FixedAxis(f))] == FixedValue(f)
  {
    if f == 0 {
      assert FacePositions(f) == FrontFace;
    } else if f == 1 {
      assert FacePositions(f) == BackFace;
    } else if f == 2 {
      assert FacePositions(f) == TopFace;
    } else if f == 3 {
      assert FacePositions(f) == BottomFace;
    } else if f == 4 {
      assert FacePositions(f) == RightFace;
    } else {
      assert FacePositions(f) == LeftFace;
    }
  }

  /** The four (x, y, z) points of one face row are pairwise distinct. */
  lemma FaceRowDistinct(f: nat, v: nat, w: nat)
    requires f < FaceCount && v < w < VerticesPerFace
    ensures var row := FacePositions(f);
            (row[3 * v], row[3 * v + 1], row[3 * v + 2]) != (row[3 * w], row[3 * w + 1], row[3 * w + 2])
  {
    if f == 0 {} else if f == 1 {} else if f == 2 {} else if f == 3 {} else if f == 4 {} else {}
  }

  lemma VertexOnFace(f: nat, v: nat)
    requires f < FaceCount && v < VerticesPerFace
    ensures var row := FacePositions(f);
            Vertex(FaceVertex(f, v)) == (row[3 * v], row[3 * v + 1], row[3 * v + 2])
  {
    FaceCoord(f, v, X); FaceCoord(f, v, Y); FaceCoord(f, v, Z);
  }

  /** The four vertices of each face are four distinct points. */
  lemma FaceVerticesDistinct()
    ensures forall f, v, w :: 0 <= f < FaceCount && 0 <= v < w < VerticesPerFace ==>
              Vertex(FaceVertex(f, v)) != Vertex(FaceVertex(f, w))
  {
    forall f, v, w | 0 <= f < FaceCount && 0 <= v < w < VerticesPerFace
      ensures Vertex(FaceVertex(f, v)) != Vertex(FaceVertex(f, w))
    {
      VertexOnFace(f, v);
      VertexOnFace(f, w);
      FaceRowDistinct(f, v, w);
    }
  }

  // ---------------------------------------------------------------------
  // Indices
  // ---------------------------------------------------------------------

  /** Two triangles sharing the diagonal from the face's vertex 0 to its vertex 2. */
  function FaceIndexPattern(f: nat): (r: seq<int>)
    ensures |r| == 6
    ensures forall k :: 0 <= k < 6 ==> 4 * f <= r[k] < 4 * f + 4
  {
    var b := 4 * f;
    [b, b + 1, b + 2, b, b + 2, b + 3]
  }

  /** Index lists of faces 0..n-1, one after the other. */
  function AllFaces(n: nat): seq<int>
  {
    if n == 0 then [] else AllFaces(n - 1) + FaceIndexPattern(n - 1)
  }

  lemma {:induction false} AllFacesLayout(n: nat)
    ensures |AllFaces(n)| == 6 * n
    ensures forall k :: 0 <= k < 6 * n ==> AllFaces(n)[k] == FaceIndexPattern(k / 6)[k % 6]
  {
    if n > 0 {
      AllFacesLayout(n - 1);
      forall k | 0 <= k < 6 * n
        ensures AllFaces(n)[k] == FaceIndexPattern(k / 6)[k % 6]
      {
        if k >= 6 * (n - 1) {
          assert k / 6 == n - 1 && k % 6 == k - 6 * (n - 1);
        }
      }
    }
  }

  /** Every index lies in [0, 4n) and every vertex below 4n is used. */
  lemma {:induction false} AllFacesCoverVertices(n: nat)
    ensures forall k :: 0 <= k < |AllFaces(n)| ==> 0 <= AllFaces(n)[k] < 4 * n
    ensures forall i :: 0 <= i < 4 * n ==> i in AllFaces(n)
  {
    if n > 0 {
      AllFacesCoverVertices(n - 1);
      var last := FaceIndexPattern(n - 1);
      assert AllFaces(n) == AllFaces(n - 1) + last;
      forall i | 0 <= i < 4 * n
        ensures i in AllFaces(n)
      {
        if i < 4 * (n - 1) {
          assert i in AllFaces(n - 1);
        } else {
          var j := i - 4 * (n - 1);
          assert last[if j == 3 then 5 else j] == i;
        }
      }
    }
  }

  lemma IndicesAreAllFaces()
    ensures Indices == AllFaces(FaceCount)
  {
    assert AllFaces(1) == [0, 1, 2, 0, 2, 3];
    assert AllFaces(2) == AllFaces(1) + [4, 5, 6, 4, 6, 7];
    assert AllFaces(3) == AllFaces(2) + [8, 9, 10, 8, 10, 11];
    assert AllFaces(4) == AllFaces(3) + [12, 13, 14, 12, 14, 15];
    assert AllFaces(5) == AllFaces(4) + [16, 17, 18, 16, 18, 19];
    assert AllFaces(6) == AllFaces(5) + [20, 21, 22, 20, 22, 23];
  }

  /** 36 indices, all below 24 and so all representable as unsigned 16-bit values. */
  lemma IndexTable()
    ensures |Indices| == 6 * FaceCount
    ensures forall k :: 0 <= k < |Indices| ==> 0 <= Indices[k] < VertexCount <= MaxUint16
  {
    IndicesAreAllFaces();
    AllFacesLayout(FaceCount);
    AllFacesCoverVertices(FaceCount);
  }

  /** Face f's six indices are 4f, 4f+1, 4f+2, 4f, 4f+2, 4f+3. */
  lemma IndicesFollowFacePattern()
    ensures forall k :: 0 <= k < |Indices| ==> Indices[k] == FaceIndexPattern(k / 6)[k % 6]
  {
    IndicesAreAllFaces();
    AllFacesLayout(FaceCount);
  }

  /** Every one of the 24 vertices is referenced by some index. */
  lemma EveryVertexIndexed()
    ensures forall i :: 0 <= i < VertexCount ==> i in Indices
  {
    IndicesAreAllFaces();
    AllFacesCoverVertices(FaceCount);
  }

  /** Triangle t (0..11) of the index table. */
  function Triangle(t: nat): (int, int, int)
    requires t < 12
  {
    (Indices[3 * t], Indices[3 * t + 1], Indices[3 * t + 2])
  }

  /** Index `i` addresses one of the four vertices of face `f`. */
  predicate OnFace(i: int, f: int)
  {
    4 * f <= i < 4 * f + 4
  }

  /** Face f is drawn as the triangles (4f, 4f+1, 4f+2) and (4f, 4f+2, 4f+3). */
  lemma FaceTriangles(f: nat)
    requires f < FaceCount
    ensures Triangle(2 * f) == (4 * f, 4 * f + 1, 4 * f + 2)
    ensures Triangle(2 * f + 1) == (4 * f, 4 * f + 2, 4 * f + 3)
  {
    assert f == 0 || f == 1 || f == 2 || f == 3 || f == 4 || f == 5;
  }

  /** Triangle t is the first or the second half of face t/2's index pattern. */
  lemma TriangleShape(t: nat)
    requires t < 12
    ensures var b := 4 * (t / 2);
            Triangle(t) == if t % 2 == 0 then (b, b + 1, b + 2) else (b, b + 2, b + 3)
  {
    assert t == 0 || t == 1 || t == 2 || t == 3 || t == 4 || t == 5 ||
           t == 6 || t == 7 || t == 8 || t == 9 || t == 10 || t == 11;
  }

  /** Each of the twelve triangles has three distinct corners, all on face t/2. */
  lemma TrianglesStayOnTheirFace()
    ensures forall t :: 0 <= t < 12 ==>
              Triangle(t).0 != Triangle(t).1 && Triangle(t).1 != Triangle(t).2 && Triangle(t).0 != Triangle(t).2
    ensures forall t :: 0 <= t < 12 ==>
              OnFace(Triangle(t).0, t / 2) && OnFace(Triangle(t).1, t / 2) && OnFace(Triangle(t).2, t / 2)
  {
    forall t | 0 <= t < 12
      ensures Triangle(t).0 != Triangle(t).1 && Triangle(t).1 != Triangle(t).2 && Triangle(t).0 != Triangle(t).2
      ensures OnFace(Triangle(t).0, t / 2) && OnFace(Triangle(t).1, t / 2) && OnFace(Triangle(t).2, t / 2)
    {
      TriangleShape(t);
    }
  }

  /** The two triangles of face f share its diagonal from vertex 4f to vertex 4f+2. */
  lemma FaceTrianglesShareDiagonal()
    ensures forall f :: 0 <= f < FaceCount ==>
              Triangle(2 * f).0 == Triangle(2 * f + 1).0 == 4 * f &&
              Triangle(2 * f).2 == Triangle(2 * f + 1).1 == 4 * f + 2
  {
    forall f | 0 <= f < FaceCount
      ensures Triangle(2 * f).0 == Triangle(2 * f + 1).0 == 4 * f
      ensures Triangle(2 * f).2 == Triangle(2 * f + 1).1 == 4 * f + 2
    {
      FaceTriangles(f);
    }
  }

  /** No triangle appears twice among the twelve. */
  lemma TrianglesDistinct()
    ensures forall t, u :: 0 <= t < u < 12 ==> Triangle(t) != Triangle(u)
  {
    forall t, u | 0 <= t < u < 12
      ensures Triangle(t) != Triangle(u)
    {
      TriangleShape(t);
      TriangleShape(u);
    }
  }

  // ---------------------------------------------------------------------
  // Texture coordinates
  // ---------------------------------------------------------------------

  /** `n` copies of `s`, one after the other. */
  function Repeat<T>(s: seq<T>, n: nat): seq<T>
  {
    if n == 0 then [] else Repeat(s, n - 1) + s
  }

  lemma {:induction false} MulMonotone(len: nat, a: int, b: int)
    ensures a <= b ==> a * len <= b * len
    decreases if a <= b then b - a else 0
  {
    if a < b {
      MulMonotone(len, a, b - 1);
      assert b * len == (b - 1) * len + len;
    }
  }

  /** Euclidean division of an offset inside block `q` of blocks of length `len`. */
  lemma ModInBlock(k: int, q: nat, len: nat)
    requires len > 0 && q * len <= k < q * len + len
    ensures k / len == q && k % len == k - q * len
  {
    var d, r := k / len, k % len;
    assert k == d * len + r && 0 <= r < len;
    MulMonotone(len, q + 1, d);
    MulMonotone(len, d + 1, q);
    assert (q + 1) * len == q * len + len && (d + 1) * len == d * len + len;
  }

  lemma {:induction false} RepeatAt<T>(s: seq<T>, n: nat)
    requires |s| > 0
    ensures |Repeat(s, n)| == n * |s|
    ensures forall k :: 0 <= k < n * |s| ==> Repeat(s, n)[k] == s[k % |s|]
  {
    if n > 0 {
      RepeatAt(s, n - 1);
      var p := (n - 1) * |s|;
      assert n * |s| == p + |s|;
      forall k | 0 <= k < n * |s|
        ensures Repeat(s, n)[k] == s[k % |s|]
      {
        if k >= p {
          ModInBlock(k, n - 1, |s|);
        }
      }
    }
  }

  /** 48 numbers, two per vertex: six copies of the same unit-square corners,
      so vertex v of every face gets corner v. */
  lemma TextureCoordinateTable()
    ensures TextureCoordinates == Repeat(FaceTextureCorners, FaceCount)
    ensures |TextureCoordinates| == TextureCoordComponents * VertexCount
    ensures forall k :: 0 <= k < |TextureCoordinates| ==> TextureCoordinates[k] == FaceTextureCorners[k % 8]
  {
    var r := FaceTextureCorners;
    assert Repeat(r, 1) == r;
    assert Repeat(r, 6) == r + r + r + r + r + r;
    RepeatAt(r, FaceCount);
  }

  // ---------------------------------------------------------------------
  // Per-vertex colours
  // ---------------------------------------------------------------------

  /** Reference meaning of the colour loop: every face colour, repeated once
      for each of the face's four vertices. */
  function Expanded(faceColors: seq<seq<real>>): seq<real>
    decreases |faceColors|
  {
    if faceColors == [] then []
    else Expanded(faceColors[..|faceColors| - 1]) + Repeat(faceColors[|faceColors| - 1], VerticesPerFace)
  }

  lemma {:induction false} ExpandedAt(faceColors: seq<seq<real>>)
    requires forall j :: 0 <= j < |faceColors| ==> |faceColors[j]| == 4
    ensures |Expanded(faceColors)| == 16 * |faceColors|
    ensures forall k :: 0 <= k < 16 * |faceColors| ==> Expanded(faceColors)[k] == faceColors[k / 16][k % 4]
    decreases |faceColors|
  {
    var n := |faceColors|;
    if n > 0 {
      var prefix, c := faceColors[..n - 1], faceColors[n - 1];
      ExpandedAt(prefix);
      RepeatAt(c, 4);
      forall k | 0 <= k < 16 * n
        ensures Expanded(faceColors)[k] == faceColors[k / 16][k % 4]
      {
        if k >= 16 * (n - 1) {
          assert k / 16 == n - 1;
          assert (k - 16 * (n - 1)) % 4 == k % 4;
        }
      }
    }
  }

  lemma FaceColorTable()
    ensures |FaceColors| == FaceCount
    ensures forall j :: 0 <= j < |FaceColors| ==> |FaceColors[j]| == ColorComponents && FaceColors[j][3] == 1.0
  {
  }

  /** One more face row appends that row's colour four times. */
  lemma ExpandedExtend(faceColors: seq<seq<real>>, j: nat)
    requires j < |faceColors|
    ensures var c := faceColors[j];
            Expanded(faceColors[..j + 1]) == Expanded(faceColors[..j]) + (c + c + c + c)
  {
    var c := faceColors[j];
    assert faceColors[..j + 1][..j] == faceColors[..j];
    assert Repeat(c, 1) == [] + c == c;
    assert Repeat(c, 2) == c + c;
    assert Repeat(c, 3) == c + c + c;
    assert Repeat(c, 4) == c + c + c + c;
    assert Expanded(faceColors[..j + 1]) == Expanded(faceColors[..j]) + Repeat(c, 4);
  }

  /** In a table laid out as sixteen numbers per face, vertex i's four
      numbers are the colour of face i/4. */
  lemma VertexColors(colors: seq<real>)
    requires |colors| == 16 * |FaceColors|
    requires forall k :: 0 <= k < |colors| ==> colors[k] == FaceColors[k / 16][k % 4]
    ensures forall i :: 0 <= i < VertexCount ==> Gl.VertexColor(colors, i) == FaceColors[i / VerticesPerFace]
  {
    FaceColorTable();
    forall i | 0 <= i < VertexCount
      ensures Gl.VertexColor(colors, i) == FaceColors[i / VerticesPerFace]
    {
      forall c | 0 <= c < 4
        ensures Gl.VertexColor(colors, i)[c] == FaceColors[i / 4][c]
      {
        assert colors[4 * i + c] == FaceColors[(4 * i + c) / 16][(4 * i + c) % 4];
      }
    }
  }

  /** `initColorBuffer`'s loop: each face colour is appended four times, once
      per vertex of the face, so that vertex i gets the colour of face i/4. */
  method InitColorBuffer() returns (colors: seq<real>)
    ensures colors == Expanded(FaceColors)
    ensures |colors| == ColorComponents * VertexCount
    ensures forall k :: 0 <= k < |colors| ==> colors[k] == FaceColors[k / 16][k % 4]
    ensures forall i :: 0 <= i < VertexCount ==> Gl.VertexColor(colors, i) == FaceColors[i / VerticesPerFace]
  {
    colors := [];
    var j := 0;
    while j < |FaceColors|
      invariant 0 <= j <= |FaceColors|
      invariant colors == Expanded(FaceColors[..j])
    {
      var c := FaceColors[j];
      ExpandedExtend(FaceColors, j);
      colors := colors + (c + c + c + c);
      j := j + 1;
    }
    assert FaceColors[..j] == FaceColors;
    FaceColorTable();
    ExpandedAt(FaceColors);
    VertexColors(colors);
  }
  // ---------------------------------------------------------------------
  // The buffer record
  // ---------------------------------------------------------------------

  /** What `initBuffers` returns: the three static tables it uploads. */
  datatype CubeBuffers = CubeBuffers(position: seq<real>, textureCoord: seq<real>, indices: seq<int>)

  /** The record of uploaded tables: exactly the position, texture-coordinate
      and index tables; all three agree on 24 vertices, and every index
      addresses one of them. */
  function InitBuffers(): (b: CubeBuffers)
    ensures b == CubeBuffers(Positions, TextureCoordinates, Indices)
    ensures |b.position| == PositionComponents * VertexCount
    ensures |b.textureCoord| == TextureCoordComponents * VertexCount
    ensures |b.indices| == 36
    ensures forall k :: 0 <= k < |b.indices| ==> 0 <= b.indices[k] < VertexCount
  {
    PositionTable();
    TextureCoordinateTable();
    IndexTable();
    CubeBuffers(Positions, TextureCoordinates, Indices)
  }

  /** Every vertex lies at squared distance 3 from the cube's centre, so
      within √3 < 2 of it. */
  lemma VerticesWithinTwo(v: nat)
    requires v < VertexCount
    ensures Positions[3 * v] * Positions[3 * v] + Positions[3 * v + 1] * Positions[3 * v + 1]
              + Positions[3 * v + 2] * Positions[3 * v + 2] == 3.0
    ensures Positions[3 * v] * Positions[3 * v] + Positions[3 * v + 1] * Positions[3 * v + 1]
              + Positions[3 * v + 2] * Positions[3 * v + 2] < 2.0 * 2.0
  {
    PositionTable();
  }
}
