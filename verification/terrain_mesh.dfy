/** Vertex buffer of the terrain mesh (generateTerrainVertices in main.cpp).

    Each pixel of a W×H single-channel heightmap becomes the vertex at index
    z * W + x, placed at (x, pixel / 255 * heightScale, z). A second pass gives
    each vertex a central-difference normal read from its four neighbours,
    clamped at the grid's edges. Decoding the image is not part of this
    model: the decoded pixels are an input.
 */
module TerrainMesh {
  import opened Grid

  /** One 8-bit grayscale sample, as stbi_load returns it with one channel. */
  type Byte = b: int | 0 <= b < 256

  datatype Vec3 = Vec3(x: real, y: real, z: real)
  datatype Vec2 = Vec2(u: real, v: real)

  datatype Vertex = Vertex(position: Vec3, normal: Vec3, texCoords: Vec2)

  /** A decoded heightmap: `pixels` holds `width` × `height` samples in row-major order. */
  datatype Heightmap = Heightmap(width: nat, height: nat, pixels: seq<Byte>) {
    predicate Valid() {
      |pixels| == width * height
    }
  }

  /** Default arguments of generateTerrainVertices. */
  const DefaultHeightScale: real := 20.0
  const DefaultTexRepeat: real := 10.0

  /** Vertical component of the unnormalised central-difference normal; it
      sets the steepness of the normal against the horizontal spacing of one
      world unit between samples. */
  const NormalRise: real := 2.0

  /** Normal every vertex carries after the first pass. */
  const UpNormal: Vec3 := Vec3(0.0, 1.0, 0.0)

  /** Scaling by a fraction in [0, 1] keeps a non-negative scale's range. */
  lemma ScaleFraction(f: real, scale: real)
    requires 0.0 <= f <= 1.0
    ensures 0.0 <= scale ==> 0.0 <= f * scale <= scale
  {
    if 0.0 <= scale {
      MulNonNegative(f, scale);
      MulNonNegative(1.0 - f, scale);
    }
  }

  /** World height of a sample: the grey level normalised to [0, 1], scaled. */
  function PixelHeight(p: Byte, heightScale: real): (y: real)
    ensures 0.0 <= heightScale ==> 0.0 <= y <= heightScale
    ensures p == 0 ==> y == 0.0
    ensures p == 255 ==> y == heightScale
  {
    var level := p as real / 255.0;
    ScaleFraction(level, heightScale);
    level * heightScale
  }

  /** Texture coordinate of column x in a grid `width` samples wide. */
  function TexCoord(x: int, width: int, texRepeat: real): (t: real)
    requires 0 <= x < width
    ensures 0.0 <= texRepeat ==> 0.0 <= t <= texRepeat
    ensures x == 0 ==> t == 0.0
  {
    var fraction := x as real / width as real;
    ScaleFraction(fraction, texRepeat);
    fraction * texRepeat
  }

  /** The vertex the first pass stores for the sample in column x, row z. */
  function LaidOutVertex(hm: Heightmap, heightScale: real, texRepeat: real, x: int, z: int): Vertex
    requires hm.Valid() && InGrid(hm.width, hm.height, x, z)
  {
    IndexInBounds(hm.width, hm.height, x, z);
    var y := PixelHeight(hm.pixels[Index(hm.width, x, z)], heightScale);
    Vertex(Vec3(x as real, y, z as real),
           UpNormal,
           Vec2(TexCoord(x, hm.width, texRepeat), TexCoord(z, hm.height, texRepeat)))
  }

  /** The vertex buffer after the first pass: positions and texture
      coordinates set, every normal pointing straight up. */
  function LaidOutVertices(hm: Heightmap, heightScale: real, texRepeat: real): (vs: seq<Vertex>)
    requires hm.Valid()
    ensures |vs| == hm.width * hm.height
  {
    seq(hm.width * hm.height, i requires 0 <= i < hm.width * hm.height =>
      IndexOfCoordinates(hm.width, hm.height, i);
      LaidOutVertex(hm, heightScale, texRepeat, Column(hm.width, i), Row(hm.width, i)))
  }

  /** Indices of the four samples the normal of (x, z) is computed from. */
  datatype Neighbours = Neighbours(left: int, right: int, down: int, up: int)

  /** The neighbours of (x, z), with the coordinates clamped into the grid. */
  function NeighbourIndices(width: int, height: int, x: int, z: int): (n: Neighbours)
    requires InGrid(width, height, x, z)
    ensures 0 <= n.left < width * height && 0 <= n.right < width * height
    ensures 0 <= n.down < width * height && 0 <= n.up < width * height
    // left and right stay in row z, down and up stay in column x
    ensures Row(width, n.left) == z && Row(width, n.right) == z
    ensures Column(width, n.down) == x && Column(width, n.up) == x
    // each moves at most one sample, and only stays put at the matching edge
    ensures Column(width, n.left) == (if x == 0 then x else x - 1)
    ensures Column(width, n.right) == (if x == width - 1 then x else x + 1)
    ensures Row(width, n.down) == (if z == 0 then z else z - 1)
    ensures Row(width, n.up) == (if z == height - 1 then z else z + 1)
  {
    var xl, xr := Max(x - 1, 0), Min(x + 1, width - 1);
    var zd, zu := Max(z - 1, 0), Min(z + 1, height - 1);
    IndexInBounds(width, height, xl, z);
    IndexInBounds(width, height, xr, z);
    IndexInBounds(width, height, x, zd);
    IndexInBounds(width, height, x, zu);
    CoordinatesOfIndex(width, xl, z);
    CoordinatesOfIndex(width, xr, z);
    CoordinatesOfIndex(width, x, zd);
    CoordinatesOfIndex(width, x, zu);
    Neighbours(Index(width, xl, z), Index(width, xr, z), Index(width, x, zd), Index(width, x, zu))
  }

  /** The unnormalised central-difference normal of (x, z), read from the
      heights of the first-pass vertices. */
  function CentralDifference(vs: seq<Vertex>, width: int, height: int, x: int, z: int): Vec3
    requires |vs| == width * height && InGrid(width, height, x, z)
  {
    var n := NeighbourIndices(width, height, x, z);
    Vec3(vs[n.left].position.y - vs[n.right].position.y,
         NormalRise,
         vs[n.down].position.y - vs[n.up].position.y)
  }

  /** The second pass: every vertex gets the normal of its position in the grid. */
  function WithNormals(vs: seq<Vertex>, width: nat, height: nat): (r: seq<Vertex>)
    requires |vs| == width * height
    ensures |r| == |vs|
  {
    seq(|vs|, i requires 0 <= i < |vs| =>
      IndexOfCoordinates(width, height, i);
      vs[i].(normal := CentralDifference(vs, width, height, Column(width, i), Row(width, i))))
  }

  /** generateTerrainVertices after decoding: both passes. */
  function TerrainVertices(hm: Heightmap, heightScale: real, texRepeat: real): (vs: seq<Vertex>)
    requires hm.Valid()
    ensures |vs| == hm.width * hm.height
  {
    WithNormals(LaidOutVertices(hm, heightScale, texRepeat), hm.width, hm.height)
  }

  /** Height of the sample in column x, row z. */
  function SampleHeight(hm: Heightmap, heightScale: real, x: int, z: int): real
    requires hm.Valid() && InGrid(hm.width, hm.height, x, z)
  {
    IndexInBounds(hm.width, hm.height, x, z);
    PixelHeight(hm.pixels[Index(hm.width, x, z)], heightScale)
  }

  /** Normal of the vertex at (x, z) in terms of the heightmap: the
      difference of the clamped left and right samples, NormalRise, and the
      difference of the clamped lower and upper samples. */
  function PixelNormal(hm: Heightmap, heightScale: real, x: int, z: int): Vec3
    requires hm.Valid() && InGrid(hm.width, hm.height, x, z)
  {
    var w, h := hm.width, hm.height;
    Vec3(SampleHeight(hm, heightScale, Max(x - 1, 0), z) - SampleHeight(hm, heightScale, Min(x + 1, w - 1), z),
         NormalRise,
         SampleHeight(hm, heightScale, x, Max(z - 1, 0)) - SampleHeight(hm, heightScale, x, Min(z + 1, h - 1)))
  }

  /** The central difference over the first-pass vertices reads exactly the
      clamped neighbouring pixels. */
  lemma CentralDifferenceOfPixels(hm: Heightmap, heightScale: real, texRepeat: real, x: int, z: int)
    requires hm.Valid() && InGrid(hm.width, hm.height, x, z)
    ensures CentralDifference(LaidOutVertices(hm, heightScale, texRepeat), hm.width, hm.height, x, z)
            == PixelNormal(hm, heightScale, x, z)
  {
    var w, h := hm.width, hm.height;
    var n := NeighbourIndices(w, h, x, z);
    assert n == Neighbours(Index(w, Max(x - 1, 0), z), Index(w, Min(x + 1, w - 1), z),
                           Index(w, x, Max(z - 1, 0)), Index(w, x, Min(z + 1, h - 1)));
    LaidOutHeight(hm, heightScale, texRepeat, Max(x - 1, 0), z);
    LaidOutHeight(hm, heightScale, texRepeat, Min(x + 1, w - 1), z);
    LaidOutHeight(hm, heightScale, texRepeat, x, Max(z - 1, 0));
    LaidOutHeight(hm, heightScale, texRepeat, x, Min(z + 1, h - 1));
  }

  /** The first pass gives the vertex at index z * W + x the height of pixel (x, z). */
  lemma LaidOutHeight(hm: Heightmap, heightScale: real, texRepeat: real, x: int, z: int)
    requires hm.Valid() && InGrid(hm.width, hm.height, x, z)
    ensures 0 <= Index(hm.width, x, z) < hm.width * hm.height
    ensures LaidOutVertices(hm, heightScale, texRepeat)[Index(hm.width, x, z)].position.y
            == SampleHeight(hm, heightScale, x, z)
  {
    LaidOutAt(hm, heightScale, texRepeat, x, z);
  }

  /** The vertex stored at index z * W + x is the one for pixel (x, z): it sits
      at X = x, Z = z, height pixel / 255 * heightScale, with texture
      coordinates x / W and z / H times the repeat factor, and its normal is
      the central difference of the clamped neighbouring pixels. */
  lemma VertexLayout(hm: Heightmap, heightScale: real, texRepeat: real, x: int, z: int)
    requires hm.Valid() && InGrid(hm.width, hm.height, x, z)
    ensures 0 <= Index(hm.width, x, z) < |TerrainVertices(hm, heightScale, texRepeat)|
    ensures TerrainVertices(hm, heightScale, texRepeat)[Index(hm.width, x, z)] ==
            Vertex(Vec3(x as real, SampleHeight(hm, heightScale, x, z), z as real),
                   PixelNormal(hm, heightScale, x, z),
                   Vec2(TexCoord(x, hm.width, texRepeat), TexCoord(z, hm.height, texRepeat)))
  {
    var vs0 := LaidOutVertices(hm, heightScale, texRepeat);
    var i := Index(hm.width, x, z);
    SecondPassAt(vs0, hm.width, hm.height, x, z);
    LaidOutAt(hm, heightScale, texRepeat, x, z);
    CentralDifferenceOfPixels(hm, heightScale, texRepeat, x, z);
    assert TerrainVertices(hm, heightScale, texRepeat)[i]
        == vs0[i].(normal := PixelNormal(hm, heightScale, x, z));
    assert vs0[i] == LaidOutVertex(hm, heightScale, texRepeat, x, z);
  }

  /** The second pass replaces only the normal of the vertex at z * W + x. */
  lemma SecondPassAt(vs: seq<Vertex>, width: nat, height: nat, x: int, z: int)
    requires |vs| == width * height && InGrid(width, height, x, z)
    ensures 0 <= Index(width, x, z) < |vs|
    ensures WithNormals(vs, width, height)[Index(width, x, z)]
            == vs[Index(width, x, z)].(normal := CentralDifference(vs, width, height, x, z))
  {
    IndexInBounds(width, height, x, z);
    CoordinatesOfIndex(width, x, z);
  }

  /** The first pass stores pixel (x, z)'s vertex at index z * W + x. */
  lemma LaidOutAt(hm: Heightmap, heightScale: real, texRepeat: real, x: int, z: int)
    requires hm.Valid() && InGrid(hm.width, hm.height, x, z)
    ensures 0 <= Index(hm.width, x, z) < hm.width * hm.height
    ensures LaidOutVertices(hm, heightScale, texRepeat)[Index(hm.width, x, z)]
            == LaidOutVertex(hm, heightScale, texRepeat, x, z)
  {
    IndexInBounds(hm.width, hm.height, x, z);
    CoordinatesOfIndex(hm.width, x, z);
  }

  /** Every vertex height lies in [0, heightScale]. */
  lemma HeightsInRange(hm: Heightmap, heightScale: real, texRepeat: real, i: int)
    requires hm.Valid() && 0.0 <= heightScale
    requires 0 <= i < hm.width * hm.height
    ensures 0.0 <= TerrainVertices(hm, heightScale, texRepeat)[i].position.y <= heightScale
  {
    IndexOfCoordinates(hm.width, hm.height, i);
  }

  /** A flat heightmap (all pixels equal) gives every vertex the straight-up
      normal (0, NormalRise, 0), including the vertices on the border. */
  lemma FlatTerrainNormals(hm: Heightmap, heightScale: real, texRepeat: real, i: int)
    requires hm.Valid() && 0 <= i < hm.width * hm.height
    requires forall k | 0 <= k < |hm.pixels| :: hm.pixels[k] == hm.pixels[0]
    ensures TerrainVertices(hm, heightScale, texRepeat)[i].normal == Vec3(0.0, NormalRise, 0.0)
  {
    IndexOfCoordinates(hm.width, hm.height, i);
    VertexLayout(hm, heightScale, texRepeat, Column(hm.width, i), Row(hm.width, i));
  }
}
