# WebGL scenes: texture loader, geometry tables and frame renderers in Dafny

This project models the self-contained logic of a small WebGL program. The
program renders two scenes: a flat quad that spins about Z, and a textured
cube that spins about Z, X and Y. Every WebGL, gl-matrix, `fetch`, `Image`
and React call is outside the model. What remains is modelled and proved:

- **Texture loader** (`TestGlCanvas3D/webgl-demo.ts`, module `TextureLoader`).
  `isPowerOf2` is modelled with JavaScript's 32-bit `&`: both operands go
  through ToUint32 and the bits are ANDed one at a time. For 0 < v < 2^32 it
  is proved equal to "v is 2^k". Zero also passes the test, and only the low
  32 bits count. `loadTexture` is a `Texture` class. Its fields are the
  level-0 image, whether mipmaps were generated, the parameters set with
  `texParameteri`, and the stage of the pending fetch. The outcomes of
  `fetch`, `blob()` and image decoding arrive as abstract `LoadEvent`s. A pure
  `Step`/`Run` state machine specifies `Texture.Deliver`. Lemmas over it show
  the following. The handle starts as the 1x1 opaque-blue placeholder. It is
  replaced at most once. A rejected chain leaves the placeholder forever. After
  a load, mipmaps are generated exactly when both sides pass `isPowerOf2`;
  otherwise the texture is clamped to the edge with linear minification.
- **Cube geometry** (`TestGlCanvas3D/init-buffers.ts`, module `CubeGeometry`).
  The position, index, texture-coordinate and face-colour tables. Three
  are proved against an independent reference definition: the index table
  equals `AllFaces(6)`, the texture coordinates equal `Repeat` of the four
  unit-square corners, and the `initColorBuffer` loop, a method, yields
  `Expanded` of the face colours. The position table is checked against its
  own rows (each face planar, four distinct corners, every coordinate ±1);
  the face-colour table only has its shape and opacity stated.
- **Quad geometry** (`TestGlCanvas2D/init-buffers.ts`, module `QuadGeometry`).
  The position and colour tables and the `initBuffers` record.
- **Frame renderers** (both `draw-scene.ts` files, modules `QuadScene` and
  `CubeScene`). Each scene is a `Renderer` class with one mutable field,
  `squareRotation`. `DrawScene` returns the parameters of the frame it draws,
  or nothing when the canvas has no `clientWidth`. Lemmas cover what happens
  to the angle over any sequence of frames. Other lemmas check that the draw
  and attribute parameters agree with the tables.

Three behaviours of the code are easy to misread:

- The 2-D renderer wraps with a single subtraction of 2π, not modulo 2π. The
  angle stays in [0, 2π) if every delta is below 2π (`StaysInRange`); one
  delta of 4π from 0 leaves it at 2π (`OneSubtractionOnly`).
- The power-of-two test is the bit trick, which also accepts 0. It is not an
  exact power-of-two test.
- No cancellation exists for the render loop or for the fetch.

## Model

| member | source | states |
|---|---|---|
| TextureLoader.IsPowerOf2 | src/components/TestGlCanvas3D/webgl-demo.ts:161-163 | `(v & (v-1)) === 0` on the ToUint32 bit patterns; for 0 < v < 2^32 it holds exactly when v is 2^k for some k |
| TextureLoader.ClearLowestBit | src/components/TestGlCanvas3D/webgl-demo.ts:162 | for every v > 0, ANDing v with v-1 gives zero exactly when v is a power of two |
| TextureLoader.ZeroPassesIsPowerOf2 | src/components/TestGlCanvas3D/webgl-demo.ts:161-163 | 0 passes `isPowerOf2` (`0 & -1` is 0) although 0 is not a power of two |
| TextureLoader.IsPowerOf2Wraps | src/components/TestGlCanvas3D/webgl-demo.ts:161-163 | the test only sees the low 32 bits: v and v + 2^32 get the same answer |
| TextureLoader.Texture.constructor | src/components/TestGlCanvas3D/webgl-demo.ts:72-96 | a new handle holds the placeholder and its fetch is pending |
| TextureLoader.LoadTexture | src/components/TestGlCanvas3D/webgl-demo.ts:71-159 | returns a fresh handle that already holds the placeholder, with the fetch pending |
| TextureLoader.PlaceholderBeforeAnyEvent | src/components/TestGlCanvas3D/webgl-demo.ts:78-96 | before any continuation runs, the texture is a level-0 1x1 RGBA image of pixel (0,0,255,255), with no mipmaps and no parameters set |
| TextureLoader.Texture.Deliver | src/components/TestGlCanvas3D/webgl-demo.ts:98-156 | a continuation changes the handle's own state exactly as `Step` prescribes; the upload overwrites this same handle |
| TextureLoader.Step | src/components/TestGlCanvas3D/webgl-demo.ts:98-156 | one continuation of the promise chain: an event changes the state exactly when it fits the stage (`Fits`); a fitting rejection (network error, response or body not ok, image error) ends in `Failed`, any other fitting event moves exactly one stage forward; every change moves the chain strictly forward (fetching, reading the body, decoding, then uploaded or failed), and only `onload` changes the texture, to the decoded image, ending the chain |
| TextureLoader.Run | src/components/TestGlCanvas3D/webgl-demo.ts:98-156 | the chain after any sequence of continuations never moves back, and a run that ends at the rank it began at changed nothing |
| TextureLoader.OnLoad | src/components/TestGlCanvas3D/webgl-demo.ts:112-154 | the decoded image replaces level 0; if both sides pass `isPowerOf2`, mipmaps are generated and no parameter changes; otherwise WRAP_S and WRAP_T become CLAMP_TO_EDGE and MIN_FILTER becomes LINEAR, and the mipmap flag is left as it was |
| TextureLoader.SuccessfulLoad | src/components/TestGlCanvas3D/webgl-demo.ts:98-156 | an ok response, a body and a decoded w x h image, applied in that order, leave the texture uploaded with that image; it is mipmapped iff both sides pass `isPowerOf2`, and then no parameter is set; otherwise exactly the three clamp/linear parameters are set |
| TextureLoader.FailedIsFinal | src/components/TestGlCanvas3D/webgl-demo.ts:98-105 | once the chain has rejected, no later event changes anything |
| TextureLoader.UploadedIsFinal | src/components/TestGlCanvas3D/webgl-demo.ts:112-155 | once the image has been uploaded, no later event changes anything |
| TextureLoader.NotOkResponseKeepsPlaceholder | src/components/TestGlCanvas3D/webgl-demo.ts:99-104 | after a response that is not ok, the texture is the placeholder whatever happens next |
| TextureLoader.PlaceholderUntilUploaded | src/components/TestGlCanvas3D/webgl-demo.ts:78-156 | along any run, the texture is the placeholder until the upload and holds a decoded image afterwards |
| TextureLoader.UploadSettingsHold | src/components/TestGlCanvas3D/webgl-demo.ts:78-156 | along any run from the placeholder, an uploaded texture holds a decoded image and is either mipmapped with no parameter set or not mipmapped with exactly the clamp/linear parameters |
| TextureLoader.AtMostOneUpload | src/components/TestGlCanvas3D/webgl-demo.ts:98-156 | along any run the contents change at most once, and never after upload or failure |
| TextureLoader.ReplacedAtMostOnce | src/components/TestGlCanvas3D/webgl-demo.ts:98-156 | the texture returned by `loadTexture` is replaced at most once, whatever events arrive |
| TextureLoader.TwoByTwoIsMipmapped | src/components/TestGlCanvas3D/webgl-demo.ts:126-135 | a 2x2 image gets mipmaps and no parameters |
| TextureLoader.ThreeByThreeIsClamped | src/components/TestGlCanvas3D/webgl-demo.ts:136-153 | a 3x3 image gets no mipmaps and exactly the clamp/linear parameters |
| TextureLoader.ZeroWidthIsMipmapped | src/components/TestGlCanvas3D/webgl-demo.ts:126-135 | a zero-width image whose height is a power of two takes the mipmap branch |
| CubeGeometry.PositionTable | src/components/TestGlCanvas3D/init-buffers.ts:90-108 | 72 = 24 x 3 numbers, every one ±1.0, laid out face by face in rows of 12 |
| CubeGeometry.FacesArePlanar | src/components/TestGlCanvas3D/init-buffers.ts:91-107 | every vertex of a face has that face's fixed coordinate: front z=1, back z=-1, top y=1, bottom y=-1, right x=1, left x=-1 |
| CubeGeometry.FaceVerticesDistinct | src/components/TestGlCanvas3D/init-buffers.ts:91-107 | the four vertices of every face are pairwise distinct points |
| CubeGeometry.AllFacesLayout | src/components/TestGlCanvas3D/init-buffers.ts:33-70 | the reference list for n faces has 6n entries; entry k is entry k mod 6 of face k/6's pattern |
| CubeGeometry.AllFacesCoverVertices | src/components/TestGlCanvas3D/init-buffers.ts:33-70 | the reference list for n faces only uses vertices below 4n, and uses every one of them |
| CubeGeometry.IndicesAreAllFaces | src/components/TestGlCanvas3D/init-buffers.ts:33-70 | the index table is the reference list for six faces |
| CubeGeometry.IndexTable | src/components/TestGlCanvas3D/init-buffers.ts:33-78 | 36 indices, every one in [0, 24), so every one fits an unsigned 16-bit value |
| CubeGeometry.IndicesFollowFacePattern | src/components/TestGlCanvas3D/init-buffers.ts:33-70 | face f's six indices are 4f, 4f+1, 4f+2, 4f, 4f+2, 4f+3 |
| CubeGeometry.EveryVertexIndexed | src/components/TestGlCanvas3D/init-buffers.ts:33-70 | every vertex 0..23 appears in the index table |
| CubeGeometry.TriangleShape | src/components/TestGlCanvas3D/init-buffers.ts:33-70 | triangle t is (4f, 4f+1, 4f+2) or (4f, 4f+2, 4f+3) for f = t/2, by parity of t |
| CubeGeometry.TrianglesStayOnTheirFace | src/components/TestGlCanvas3D/init-buffers.ts:29-70 | each of the 12 triangles has three distinct corners, all vertices of face t/2 |
| CubeGeometry.FaceTrianglesShareDiagonal | src/components/TestGlCanvas3D/init-buffers.ts:29-70 | the two triangles of face f share the diagonal from vertex 4f to vertex 4f+2 |
| CubeGeometry.TrianglesDistinct | src/components/TestGlCanvas3D/init-buffers.ts:33-70 | no triangle occurs twice among the twelve |
| CubeGeometry.TextureCoordinateTable | src/components/TestGlCanvas3D/init-buffers.ts:149-162 | 48 = 24 x 2 numbers, six copies of (0,0, 1,0, 1,1, 0,1), so vertex v of every face gets corner v |
| CubeGeometry.FaceColorTable | src/components/TestGlCanvas3D/init-buffers.ts:118-125 | six face colours, each four components with alpha 1.0 |
| CubeGeometry.ExpandedAt | src/components/TestGlCanvas3D/init-buffers.ts:129-136 | repeating each of n four-component colours four times gives 16n numbers; entry k is component k mod 4 of colour k/16 |
| CubeGeometry.VertexColors | src/components/TestGlCanvas3D/init-buffers.ts:129-136 | in the expanded table, vertex i's four numbers are the colour of face i/4 |
| CubeGeometry.InitColorBuffer | src/components/TestGlCanvas3D/init-buffers.ts:116-143 | the loop yields 96 numbers; entry 16j+4v+c is `faceColors[j][c]`, so each vertex gets its face's colour |
| CubeGeometry.InitBuffers | src/components/TestGlCanvas3D/init-buffers.ts:8-23 | the record holds exactly the position, texture-coordinate and index tables (`Positions`, `TextureCoordinates`, `Indices`, whose contents `PositionTable`, `TextureCoordinateTable` and `IndexTable` state); they agree on 24 vertices, and every index addresses one of them |
| CubeGeometry.VerticesWithinTwo | src/components/TestGlCanvas3D/init-buffers.ts:90-108 | every one of the 24 vertices is at squared distance 3 from the cube's centre, so within √3 < 2 of it |
| QuadGeometry.InitPositionBuffer | src/components/TestGlCanvas2D/init-buffers.ts:18-32 | 8 = 4 x 2 numbers, each ±1.0; vertex 0 is (1, 1), vertex 1 (-1, 1), vertex 2 (1, -1) and vertex 3 (-1, -1), four pairwise distinct corners of the square |
| QuadGeometry.InitColorBuffer | src/components/TestGlCanvas2D/init-buffers.ts:34-59 | 16 = 4 x 4 numbers: white, red, green, blue in vertex order, all with alpha 1.0 |
| QuadGeometry.InitBuffers | src/components/TestGlCanvas2D/init-buffers.ts:6-16 | the record's `position` and `color` are the two tables just built, describing the same 4 vertices |
| QuadGeometry.StripCoversSquare | src/components/TestGlCanvas2D/init-buffers.ts:26 | drawn as a strip, the two triangles share the diagonal from vertex 1 to vertex 2; neither is degenerate, and together their areas are the square's area |
| Gl.ProjectionFor | src/components/TestGlCanvas3D/draw-scene.ts:36-46 | the projection uses a 45° (π/4) field of view, the canvas's client width over height, zNear 0.1 and zFar 100.0 |
| QuadScene.FrameAt | src/components/TestGlCanvas2D/draw-scene.ts:19-106 | a frame's projection follows the canvas's current size; the square is translated by exactly (0, 0, -6), inside the near/far range; it is turned about Z only, by the angle; the draw call is a TRIANGLE_STRIP of all 4 vertices from offset 0 |
| QuadScene.Advance | src/components/TestGlCanvas2D/draw-scene.ts:14-113 | a call on a canvas without `clientWidth` leaves the angle as it was; a drawn frame sets it to `NextRotation` of the old angle and the frame's delta, which keeps it in [0, 2π) when the old angle and the delta are in [0, 2π) |
| QuadScene.NextRotation | src/components/TestGlCanvas2D/draw-scene.ts:109-113 | the new angle is the old angle plus the delta when that sum is below 2π, and the sum minus 2π (once) when it is at least 2π; from [0, 2π) with a delta in [0, 2π) it stays in [0, 2π); it is still ≥ 2π exactly when the sum was ≥ 4π |
| QuadScene.StaysInRange | src/components/TestGlCanvas2D/draw-scene.ts:109-113 | over any run of frames whose deltas lie in [0, 2π), an angle that starts in [0, 2π) stays there |
| QuadScene.OneSubtractionOnly | src/components/TestGlCanvas2D/draw-scene.ts:111-113 | a single delta of 4π from 0 leaves the angle at 2π: without the delta bound the range is lost |
| QuadScene.FrameMatchesTables | src/components/TestGlCanvas2D/draw-scene.ts:67-171 | each frame draws a 4-vertex TRIANGLE_STRIP from offset 0; position reads 2 and colour 4 float components, matching the 8- and 16-entry tables; it rotates by the angle about Z only, after translating by (0,0,-6) |
| QuadScene.Renderer.constructor | src/components/TestGlCanvas2D/draw-scene.ts:5 | the angle starts at 0 |
| QuadScene.Renderer.DrawScene | src/components/TestGlCanvas2D/draw-scene.ts:7-114 | with no `clientWidth` nothing is drawn and the angle is unchanged; otherwise the frame uses the pre-update angle and the angle is then wrapped-advanced |
| CubeScene.FrameAt | src/components/TestGlCanvas3D/draw-scene.ts:20-137 | a frame's projection follows the canvas's current size; the cube is translated by exactly (0, 0, -6), and depth 6 ± 2 lies inside (0.1, 100), so with every vertex within 2 of the centre (`VerticesWithinTwo`) and rotations keeping distances, the cube stays inside the near/far range; it is turned by 1, 0.3 and 0.7 times the angle; all 36 indices are drawn as 16-bit triangles from offset 0 |
| CubeScene.NextRotation | src/components/TestGlCanvas3D/draw-scene.ts:141-144 | the angle grows by exactly the delta, never decreases for a non-negative delta, and passes 2π unreduced (the wrap is commented out) |
| CubeScene.Advance | src/components/TestGlCanvas3D/draw-scene.ts:15-144 | a call on a canvas without `clientWidth` leaves the angle as it was; a drawn frame adds the whole delta, so a non-negative delta never lowers it |
| CubeScene.AngleIsRunningSum | src/components/TestGlCanvas3D/draw-scene.ts:141-144 | after any run of frames, the angle is its start plus the sum of the drawn frames' deltas; from 0 it is that sum, with no wrap |
| CubeScene.AngleNeverDecreases | src/components/TestGlCanvas3D/draw-scene.ts:141-144 | with non-negative deltas the angle never decreases from one frame to the next |
| CubeScene.RotationOrder | src/components/TestGlCanvas3D/draw-scene.ts:75-92 | a frame rotates by θ about Z, then 0.3θ about X, then 0.7θ about Y, in that order |
| CubeScene.FrameMatchesTables | src/components/TestGlCanvas3D/draw-scene.ts:96-225 | each frame draws all 36 indices as UNSIGNED_SHORT from offset 0, each below 24; position reads 3 and texture coordinates 2 float components, matching the 72- and 48-entry tables |
| CubeScene.Renderer.constructor | src/components/TestGlCanvas3D/draw-scene.ts:5 | the angle starts at 0 |
| CubeScene.Renderer.DrawScene | src/components/TestGlCanvas3D/draw-scene.ts:7-145 | with no `clientWidth` nothing is drawn and the angle is unchanged; otherwise the frame uses the pre-update angle, binds the index buffer and the texture on unit 0 with the sampler on unit 0, and then the angle grows by exactly the delta |
| CubeScene.FrameBeforeLoad | src/components/TestGlCanvas3D/draw-scene.ts:120-127 | a frame drawn before any fetch continuation samples the opaque-blue placeholder, at angle 0 |
| CubeScene.FrameAfterLoad | src/components/TestGlCanvas3D/draw-scene.ts:120-127 | a frame drawn after a successful load samples the uploaded image, mipmapped iff both sides pass `isPowerOf2` |

## Left out

- CubeScene.FrameAt: gl-matrix's rotation matrices are not modelled, so that a
  rotation keeps every vertex within 2 of the centre is not proved; the contract
  states the translation and the depth margin, and `VerticesWithinTwo` the
  vertices' distance before rotation.
- Shader compilation and linking (`initShaderProgram`, `loadShader` in both
  `webgl-demo.ts` files) are not modelled. Their outcome depends entirely on
  the GL compiler. `TestGlCanvas2D/webgl-demo.ts` holds nothing else.
- GPU effects of `clear`, `bufferData`, `bindBuffer`, `vertexAttribPointer`,
  `enableVertexAttribArray`, `useProgram`, `uniformMatrix4fv`, `uniform1i`,
  `drawArrays` and `drawElements` are not modelled. Frames record only the
  arguments these calls receive. Buffers are the tables they would hold, not
  GPU handles. Attribute and uniform locations are not modelled.
- gl-matrix (`mat4.perspective`, `translate`, `rotate`) is not modelled; it is
  an external library using floating-point trigonometry. Frames keep its
  arguments: field of view, width and height, near and far planes,
  translation, and rotation angles with their axes. The width/height division
  is not performed, so a zero `clientHeight` is not an issue in the model.
- Floating point is not modelled. Angles, deltas and table entries are reals.
  Math.PI is the real 3.141592653589793, and the proofs only use its sign.
  Every table entry is exactly representable as a 32-bit float.
- The network, blob and image-decoding work of `loadTexture` arrives as
  `LoadEvent`s; the `url` only reaches that fetch. The source installs no
  `onerror` handler, so an image that fails to decode never fires `onload`.
  The model sends it to the final `Failed` stage, where the texture also never
  changes. A null `createTexture` result is not modelled.
- Texture parameters hold only the values the loader sets explicitly. WebGL's
  defaults (REPEAT wrapping, mipmapped minification) are not modelled.
- `isPowerOf2` only takes integer arguments. Image dimensions are always
  integers.
- `alert` calls are not modelled. They are user-visible messages with no
  effect on state.
- React components, the `requestAnimationFrame` loop and the delta
  computation in `index.tsx` are not modelled; each delta is an input to
  `DrawScene`. The first delta is the page's timestamp divided by 1000. After
  about 6.3 s on the page it is 2π or more, which the `StaysInRange`
  precondition already excludes. After about 12.6 s it is 4π or more, and
  the source itself then leaves [0, 2π) on the first frame.
- `gl.pixelStorei(UNPACK_FLIP_Y_WEBGL)` in `index.tsx` is not modelled. It
  only changes pixel row order.
- The 3-D `initBuffers` does not call `initColorBuffer` (that call is
  commented out). It is modelled anyway, since its loop is part of the file.
