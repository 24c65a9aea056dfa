# Terrain viewer geometry core, in Dafny

A model of the integer and real-arithmetic geometry of a small heightmap
terrain viewer (a single C++ file, `main.cpp`):

- **Grid** (`grid.dfy`): the row-major addressing `z * W + x` every mesh in
  the program uses, proved to be a bijection between the grid and
  `[0, W * H)`.
- **MeshIndices** (`terrain_indices.dfy`): `generateTerrainIndices`, which
  turns a W×H vertex grid into a triangle list of six indices per quad.
- **TerrainMesh** (`terrain_mesh.dfy`): `generateTerrainVertices` after the
  image is decoded: one vertex per pixel at index `z * W + x`, placed at
  `(x, pixel / 255 * heightScale, z)` with texture coordinates
  `(x / W, z / H) * texRepeat`, and a second pass that gives each vertex the
  central-difference normal of its four neighbours, clamped at the edges.
- **HeightSampler** (`height_sampler.dfy`): `getTerrainHeight`, the bilinear
  height query the camera uses to follow the ground.
- **SphereMesh** (`sphere_mesh.dfy`): the index loops of `generateSphere`
  and the grid coordinates of the sphere's vertices.
- **CameraModel** (`camera.dfy`): the yaw/pitch state of `Camera` and
  `ProcessMouseMovement`, with pitch clamped to [-89, 89] degrees.
- **FlatExample** (`examples_flat.dfy`): the 3×3 flat heightmap worked through
  the whole pipeline.

Floating-point values are modelled as `real` (exact arithmetic). The decoded
heightmap is an input (`TerrainMesh.Heightmap`: width, height and `W * H`
grey levels in `[0, 255]`). The `(int)` cast in the sampler becomes `Floor`.
The two agree there because the clamped coordinates are never negative.

Beyond the properties the code states directly, the model proves:

- every triangle of the terrain has the same winding;
- the sphere's index buffer is exactly the terrain index buffer of its
  (sectors + 1) × (stacks + 1) vertex grid;
- the sampler and the mesh agree on every grid point;
- along a row, the sampler moves monotonically between adjacent samples.

## Model

| member | source | states |
|---|---|---|
| Grid.CoordinatesOfIndex | main.cpp:71 | the column and row decoded from index z * W + x are x and z again |
| Grid.IndexOfCoordinates | main.cpp:63-67 | every index below W * H decodes to an in-grid (x, z) that encodes back to it, so one vertex per pixel fills the buffer exactly |
| Grid.IndexInBounds | main.cpp:63-71 | every in-grid (x, z) addresses a slot of the W * H buffer |
| MeshIndices.GenerateTerrainIndices | main.cpp:103-124 | the nested loops build exactly the quad-by-quad buffer, of length 6 (W-1)(H-1), with every index in [0, W * H) |
| MeshIndices.AppendQuadRow | main.cpp:107-121 | one pass of the inner loop appends exactly the six indices of each quad of row z, left to right, 6 (W-1) in all |
| MeshIndices.TerrainIndicesCount | main.cpp:106-107 | for W, H >= 1 the buffer holds (W-1)(H-1)*6 indices, and it is empty exactly when W or H is 1 |
| MeshIndices.RowsIndicesLength | main.cpp:106-122 | after m outer iterations the buffer holds 6 (W-1) m indices |
| MeshIndices.TerrainIndicesInBounds | main.cpp:108-111 | every emitted index is in [0, W * H) |
| MeshIndices.QuadSlice | main.cpp:106-120 | quad (x, z), in z-then-x order, contributes exactly [tl, bl, tr, tr, bl, br] at slot 6 (z (W-1) + x), where tl = z W + x, tr = tl + 1, bl = (z+1) W + x, br = bl + 1 |
| MeshIndices.SlotAt | main.cpp:106-121 | slot 6 (z (W-1) + x) + j lies inside the buffer and holds corner j of quad (x, z) |
| MeshIndices.TerrainIndicesQuads | main.cpp:106-121 | the buffer has six slots per quad and slot 6 (z (W-1) + x) + j holds corner j of quad (x, z) |
| MeshIndices.TerrainIndicesAt | main.cpp:106-121 | every slot k of the buffer is corner k % 6 of quad number k / 6 in row-major order |
| MeshIndices.RowIndicesAt | main.cpp:107-120 | within one quad row, corner j of quad x sits at position 6x + j |
| MeshIndices.RowsIndicesPrefix | main.cpp:106-122 | each further outer-loop iteration only appends to the buffer |
| MeshIndices.QuadWinding | main.cpp:113-120 | both triangles of a quad have the same orientation in the (x, z) plane |
| MeshIndices.TerrainWindingConsistent | main.cpp:106-121 | every triangle of the terrain buffer has that same orientation |
| TerrainMesh.PixelHeight | main.cpp:69 | a grey level becomes a height in [0, heightScale] when heightScale >= 0, 0 for black and heightScale for white |
| TerrainMesh.TexCoord | main.cpp:73 | texture coordinates lie in [0, texRepeat] and start at 0 |
| TerrainMesh.LaidOutVertices | main.cpp:63-77 | the first pass yields W * H vertices |
| TerrainMesh.LaidOutAt | main.cpp:66-76 | the first pass stores pixel (x, z)'s vertex at index z * W + x |
| TerrainMesh.LaidOutHeight | main.cpp:69-71 | after the first pass the vertex at index z * W + x has the height of pixel (x, z) |
| TerrainMesh.NeighbourIndices | main.cpp:83-86 | the four neighbour indices lie in [0, W * H); left and right stay in row z, down and up stay in column x; each moves one sample, except at its own edge, where it stays |
| TerrainMesh.SecondPassAt | main.cpp:80-95 | the normal pass changes only the normal of each vertex |
| TerrainMesh.CentralDifferenceOfPixels | main.cpp:83-91 | the normal is (h(x-1) - h(x+1), 2, h(z-1) - h(z+1)) over the clamped neighbouring pixels |
| TerrainMesh.VertexLayout | main.cpp:63-95 | the vertex at index z * W + x has position (x, pixel / 255 * heightScale, z), texture coordinates (x / W, z / H) * texRepeat and the central-difference normal of its clamped neighbours |
| TerrainMesh.TerrainVertices | main.cpp:54-99 | the vertex buffer has exactly W * H vertices |
| TerrainMesh.HeightsInRange | main.cpp:69-71 | every vertex height lies in [0, heightScale] for heightScale >= 0 |
| TerrainMesh.FlatTerrainNormals | main.cpp:83-93 | on a flat heightmap every normal, border vertices included, is (0, 2, 0) |
| HeightSampler.Clamp | main.cpp:138-141 | the clamped coordinate lies in [lo, hi], equals the input inside, and snaps to the nearer end outside |
| HeightSampler.Locate | main.cpp:138-150 | the cell corners lie in the grid, the upper corner is at most one past the lower, the fractions lie in [0, 1), corner plus fraction is the clamped point, and the upper corner collapses only on the last sample with fraction 0 |
| HeightSampler.ReadIndices | main.cpp:152-155 | for any real x, z the four vertex indices read are in [0, W * H) |
| HeightSampler.LerpBetween | main.cpp:158-160 | interpolation with t in [0, 1] stays between its end points, giving a at t = 0 and b at t = 1 |
| HeightSampler.LerpMonotone | main.cpp:158 | between a <= b the interpolant does not decrease in t |
| HeightSampler.LerpFalling | main.cpp:158 | between a >= b the interpolant does not increase in t |
| HeightSampler.TerrainHeight | main.cpp:136-161 | the sampled height lies between the lowest and highest of the four corner heights h00, h10, h01, h11 |
| HeightSampler.ClampedQuery | main.cpp:137-141 | a query outside [0, W-1] × [0, H-1] returns the same height as the query at the clamped point |
| HeightSampler.SampleAtGridPoint | main.cpp:143-160 | at an integer in-grid (x, z) the result is exactly the stored height of vertex z * W + x |
| HeightSampler.RowSegment | main.cpp:146-160 | along an integer row, between samples ix and ix + 1 (both ends included) the result is the straight line between their heights |
| HeightSampler.RowMonotone | main.cpp:146-160 | between two adjacent samples of a row the result lies between their heights and moves monotonically from one to the other |
| HeightSampler.SamplerMatchesMesh | main.cpp:152-155 | over the mesh built from a heightmap, every query lies in [0, heightScale] and a grid-point query returns that pixel's height |
| HeightSampler.SamplerInRange | main.cpp:136-161 | over a heightmap's mesh every query, inside or outside the grid, lies in [0, heightScale] |
| HeightSampler.SamplerAtPixel | main.cpp:143-160 | a query at pixel (x, z) over the heightmap's mesh returns that pixel's height |
| HeightSampler.FlatTerrainHeight | main.cpp:136-161 | over a flat heightmap every query returns the common height |
| HeightSampler.FlatVertexHeight | main.cpp:69-71 | over a flat heightmap every vertex has the common height |
| SphereMesh.SphereVertexGrid | main.cpp:265-278 | the vertex loops push (stacks + 1)(sectors + 1) vertices, and none when either count is negative |
| SphereMesh.SphereVertexAt | main.cpp:265-276 | vertex (stack i, sector j) is pushed at index i (sectors + 1) + j |
| SphereMesh.GenerateSphereIndices | main.cpp:280-293 | the k1/k2 loops emit exactly the terrain index buffer of the (sectors + 1) × (stacks + 1) grid, 6 × sectors × stacks indices, each naming an existing sphere vertex |
| SphereMesh.AppendStackCells | main.cpp:281-292 | one pass of the inner loop, with k1 and k2 stepping along stacks i and i + 1, appends exactly the six indices of each cell of stack i |
| SphereMesh.SphereCellIndices | main.cpp:281-291 | cell (i, j) contributes [k1, k2, k1+1, k1+1, k2, k2+1] at slot 6 (i sectors + j), with k1 = i (sectors + 1) + j and k2 = k1 + sectors + 1 |
| SphereMesh.SphereIndexInBounds | main.cpp:280-293 | every sphere index is below the number of sphere vertices |
| SphereMesh.SphereSize | main.cpp:265-293 | a sphere of sectors × stacks cells has (stacks + 1)(sectors + 1) vertices and 6 × sectors × stacks indices |
| SphereMesh.LightSphereSize | main.cpp:418 | the light sphere (32 sectors, 16 stacks) has 561 vertices and 3072 indices |
| CameraModel.NewCamera | main.cpp:176-181 | a new camera starts at the given position with pitch in range |
| CameraModel.ProcessMouseMovement | main.cpp:198-209 | after any movement pitch lies in [-89, 89]; yaw grows by exactly xoffset * sensitivity; pitch is the scaled sum when that is in range and the nearer limit otherwise; position, speed and sensitivity are unchanged |
| CameraModel.ProcessAllInvariants | main.cpp:198-206 | over any sequence of movements pitch ends in range, yaw moves by sensitivity times the sum of the x offsets, and nothing else changes |
| CameraModel.RepeatedUpward | main.cpp:203-205 | repeating an upward movement raises pitch by the same step each time until it reaches 89, and then holds it there |
| CameraModel.UpwardConvergesToLimit | main.cpp:203-205 | once the accumulated scaled upward offset reaches 178 degrees (twice the limit), pitch is exactly 89, whatever in-range pitch it started from |
| CameraModel.TimesIsProduct | main.cpp:199-203 | n equal steps of size s accumulate to n * s |
| FlatExample.FlatThreeByThree | main.cpp:54-161 | a flat 3 × 3 heightmap gives 9 vertices, 24 indices and height 0 for every query |

## Left out

- Image decoding (`stbi_load`, `stbi_image_free`, main.cpp:58, 97, 390-394). It is a foreign library, so the decoded pixels are an input. The missing null check on a failed decode is not modelled.
- All OpenGL, GLFW and GLAD calls: shaders, vertex arrays and buffers, texture upload, draw calls and the render loop (main.cpp:311-535). They wrap graphics APIs that are not part of this model.
- `glm::normalize`, `cross`, `lookAt`, `updateCameraVectors` and the sphere vertex positions (main.cpp:93, 183-185, 212-220, 263-278). They need square roots and trigonometry, so only the index selection around them is modelled.
- TerrainMesh.VertexLayout: states the normal before `glm::normalize` (main.cpp:93). The stored normal is that vector scaled to unit length, which has the same direction.
- `Camera::ProcessKeyboard` and `mouse_callback` (main.cpp:187-196, 230-245). They read polled window state and process-wide globals. `CameraModel.ProcessAll` stands in for a stream of mouse events.
- The per-frame horizontal clamp of the camera position and the ground-following interpolation (main.cpp:457-465). The interpolation depends on wall-clock frame time; the clamp is the same one `HeightSampler.Clamp` models inside the sampler.
- HeightSampler.TerrainHeight: requires a grid of at least one sample each way. On an empty terrain the source clamps to -1 and reads outside its vertex vector, which is undefined behaviour rather than a result to model.
- IEEE float rounding. All properties are stated over exact real arithmetic.
- 32-bit integer width. `z * width + x` and the unsigned index buffer are unbounded integers here. Grids beyond about 46000 × 46000 samples would overflow `int` in the source.
- Yaw is not wrapped into a range, and neither is it in the source.
- `generateSphere` appends to vectors the caller passes in. The model starts from empty vectors, as the only call (main.cpp:418) does.
