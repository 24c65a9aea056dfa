/** Continuous terrain-height queries (getTerrainHeight in main.cpp).

    A query (x, z) is clamped into [0, W-1] × [0, H-1], split into an integer
    cell (ix, iz) and a fraction (fx, fz), and answered by bilinear
    interpolation of the heights of the cell's four corner vertices. The
    heights are read from the same vertex buffer the mesh builder produces.
    Arithmetic is exact: the (int) cast of the source becomes Floor, which
    agrees with truncation because the clamped coordinates are non-negative.
 */
module HeightSampler {
  import opened Grid
  import opened TerrainMesh

  function MinReal(a: real, b: real): real {
    if a <= b then a else b
  }

  function MaxReal(a: real, b: real): real {
    if a >= b then a else b
  }

  /** The clamp of getTerrainHeight: values below lo snap to lo, then values
      above hi snap to hi. */
  function Clamp(v: real, lo: real, hi: real): (c: real)
    requires lo <= hi
    ensures lo <= c <= hi
    ensures lo <= v <= hi ==> c == v
    ensures v < lo ==> c == lo
    ensures v > hi ==> c == hi
  {
    var low := if v < lo then lo else v;
    if low > hi then hi else low
  }

  /** The cell a query falls in: its lower corner (ix, iz), its upper corner
      (ix1, iz1) clamped to the last sample, and the fractional offsets. */
  datatype Cell = Cell(ix: int, iz: int, ix1: int, iz1: int, fx: real, fz: real)

  /** The clamped x coordinate of a query. */
  function ClampX(width: int, x: real): real
    requires width >= 1
  {
    Clamp(x, 0.0, (width - 1) as real)
  }

  /** The clamped z coordinate of a query. */
  function ClampZ(height: int, z: real): real
    requires height >= 1
  {
    Clamp(z, 0.0, (height - 1) as real)
  }

  /** Locates the cell of query (x, z). */
  function Locate(width: int, height: int, x: real, z: real): (c: Cell)
    requires width >= 1 && height >= 1
    ensures InGrid(width, height, c.ix, c.iz) && InGrid(width, height, c.ix1, c.iz1)
    ensures c.ix <= c.ix1 <= c.ix + 1 && c.iz <= c.iz1 <= c.iz + 1
    ensures 0.0 <= c.fx < 1.0 && 0.0 <= c.fz < 1.0
    // the clamped point is the cell corner plus the fraction
    ensures c.ix as real + c.fx == ClampX(width, x) && c.iz as real + c.fz == ClampZ(height, z)
    // the upper corner collapses onto the lower one only on the last sample
    ensures c.ix1 == c.ix ==> c.ix == width - 1 && c.fx == 0.0
    ensures c.iz1 == c.iz ==> c.iz == height - 1 && c.fz == 0.0
  {
    var cx, cz := ClampX(width, x), ClampZ(height, z);
    var ix, iz := cx.Floor, cz.Floor;
    Cell(ix, iz, Min(ix + 1, width - 1), Min(iz + 1, height - 1), cx - ix as real, cz - iz as real)
  }

  /** Buffer indices of the four corners the sampler reads: h00, h10, h01, h11. */
  datatype Reads = Reads(i00: int, i10: int, i01: int, i11: int)

  /** The four vertex indices read for query (x, z). */
  function ReadIndices(width: int, height: int, x: real, z: real): (r: Reads)
    requires width >= 1 && height >= 1
    ensures 0 <= r.i00 < width * height && 0 <= r.i10 < width * height
    ensures 0 <= r.i01 < width * height && 0 <= r.i11 < width * height
  {
    var c := Locate(width, height, x, z);
    IndexInBounds(width, height, c.ix, c.iz);
    IndexInBounds(width, height, c.ix1, c.iz);
    IndexInBounds(width, height, c.ix, c.iz1);
    IndexInBounds(width, height, c.ix1, c.iz1);
    Reads(Index(width, c.ix, c.iz), Index(width, c.ix1, c.iz),
          Index(width, c.ix, c.iz1), Index(width, c.ix1, c.iz1))
  }

  /** Linear interpolation as the source writes it: a * (1 - t) + b * t. */
  function Lerp(a: real, b: real, t: real): real {
    a * (1.0 - t) + b * t
  }

  /** For t in [0, 1] the interpolant stays between its end points, and it
      starts at a and ends at b. */
  lemma LerpBetween(a: real, b: real, t: real)
    requires 0.0 <= t <= 1.0
    ensures MinReal(a, b) <= Lerp(a, b, t) <= MaxReal(a, b)
    ensures t == 0.0 ==> Lerp(a, b, t) == a
    ensures t == 1.0 ==> Lerp(a, b, t) == b
  {
    assert Lerp(a, b, t) == a + (b - a) * t;
    var d := if a <= b then b - a else a - b;
    MulNonNegative(d, t);
    MulNonNegative(d, 1.0 - t);
    assert d * t + d * (1.0 - t) == d;
  }

  /** Between a <= b the interpolant grows with t. */
  lemma LerpMonotone(a: real, b: real, s: real, t: real)
    requires a <= b && s <= t
    ensures Lerp(a, b, s) <= Lerp(a, b, t)
  {
    assert Lerp(a, b, t) - Lerp(a, b, s) == (b - a) * (t - s);
  }

  /** From a higher to a lower end point the interpolant does not increase. */
  lemma LerpFalling(a: real, b: real, s: real, t: real)
    requires b <= a && s <= t
    ensures Lerp(a, b, t) <= Lerp(a, b, s)
  {
    assert Lerp(a, b, s) - Lerp(a, b, t) == (a - b) * (t - s);
    MulNonNegative(a - b, t - s);
  }

  function Lowest(a: real, b: real, c: real, d: real): real {
    MinReal(MinReal(a, b), MinReal(c, d))
  }

  function Highest(a: real, b: real, c: real, d: real): real {
    MaxReal(MaxReal(a, b), MaxReal(c, d))
  }

  /** Height stored in vertex i of the buffer. */
  function HeightAt(vs: seq<Vertex>, i: int): real
    requires 0 <= i < |vs|
  {
    vs[i].position.y
  }

  /** getTerrainHeight: the height at (x, z) lies between the lowest and the
      highest of the four corner heights it is interpolated from. */
  function TerrainHeight(vs: seq<Vertex>, width: int, height: int, x: real, z: real): (h: real)
    requires width >= 1 && height >= 1 && |vs| == width * height
    ensures var r := ReadIndices(width, height, x, z);
            var h00, h10, h01, h11 := HeightAt(vs, r.i00), HeightAt(vs, r.i10), HeightAt(vs, r.i01), HeightAt(vs, r.i11);
            Lowest(h00, h10, h01, h11) <= h <= Highest(h00, h10, h01, h11)
  {
    var c := Locate(width, height, x, z);
    var r := ReadIndices(width, height, x, z);
    var h00, h10 := HeightAt(vs, r.i00), HeightAt(vs, r.i10);
    var h01, h11 := HeightAt(vs, r.i01), HeightAt(vs, r.i11);
    var h0 := Lerp(h00, h10, c.fx);
    var h1 := Lerp(h01, h11, c.fx);
    LerpBetween(h00, h10, c.fx);
    LerpBetween(h01, h11, c.fx);
    LerpBetween(h0, h1, c.fz);
    Lerp(h0, h1, c.fz)
  }

  /** A query outside [0, W-1] × [0, H-1] answers the same as the query at
      the nearest point of the grid. */
  lemma ClampedQuery(vs: seq<Vertex>, width: int, height: int, x: real, z: real)
    requires width >= 1 && height >= 1 && |vs| == width * height
    ensures TerrainHeight(vs, width, height, x, z)
            == TerrainHeight(vs, width, height, ClampX(width, x), ClampZ(height, z))
  {
    assert Locate(width, height, x, z)
        == Locate(width, height, ClampX(width, x), ClampZ(height, z));
  }

  /** At an integer grid point the sampler returns the stored height of that
      sample, with no contribution from the neighbours. */
  lemma SampleAtGridPoint(vs: seq<Vertex>, width: int, height: int, x: int, z: int)
    requires |vs| == width * height && InGrid(width, height, x, z)
    ensures 0 <= Index(width, x, z) < |vs|
    ensures TerrainHeight(vs, width, height, x as real, z as real) == vs[Index(width, x, z)].position.y
  {
    IndexInBounds(width, height, x, z);
    var c := Locate(width, height, x as real, z as real);
    assert c.ix == x && c.iz == z && c.fx == 0.0 && c.fz == 0.0;
    var r := ReadIndices(width, height, x as real, z as real);
    var h00, h10 := HeightAt(vs, r.i00), HeightAt(vs, r.i10);
    var h01, h11 := HeightAt(vs, r.i01), HeightAt(vs, r.i11);
    LerpBetween(h00, h10, 0.0);
    LerpBetween(h01, h11, 0.0);
    LerpBetween(Lerp(h00, h10, 0.0), Lerp(h01, h11, 0.0), 0.0);
  }

  /** Along an integer row z, between adjacent samples ix and ix + 1 the
      sampler is the straight line from the height of (ix, z) to the height
      of (ix + 1, z), both end points included. */
  lemma RowSegment(vs: seq<Vertex>, width: int, height: int, ix: int, z: int, x: real)
    requires |vs| == width * height && 0 <= ix < width - 1 && 0 <= z < height
    requires ix as real <= x <= (ix + 1) as real
    ensures 0 <= Index(width, ix, z) && Index(width, ix + 1, z) < |vs|
    ensures TerrainHeight(vs, width, height, x, z as real)
            == Lerp(vs[Index(width, ix, z)].position.y, vs[Index(width, ix + 1, z)].position.y, x - ix as real)
  {
    IndexInBounds(width, height, ix, z);
    IndexInBounds(width, height, ix + 1, z);
    var a, b := vs[Index(width, ix, z)].position.y, vs[Index(width, ix + 1, z)].position.y;
    if x == (ix + 1) as real {
      SampleAtGridPoint(vs, width, height, ix + 1, z);
      LerpBetween(a, b, 1.0);
    } else {
      var c := Locate(width, height, x, z as real);
      assert c.ix == ix && c.ix1 == ix + 1 && c.iz == z && c.fz == 0.0;
      var r := ReadIndices(width, height, x, z as real);
      assert HeightAt(vs, r.i00) == a && HeightAt(vs, r.i10) == b;
      LerpBetween(a, b, c.fx);
      LerpBetween(HeightAt(vs, r.i01), HeightAt(vs, r.i11), c.fx);
      LerpBetween(Lerp(a, b, c.fx), Lerp(HeightAt(vs, r.i01), HeightAt(vs, r.i11), c.fx), 0.0);
    }
  }

  /** Between two adjacent samples of a row the sampled height lies between
      their heights and moves monotonically from one to the other. */
  lemma RowMonotone(vs: seq<Vertex>, width: int, height: int, ix: int, z: int, x1: real, x2: real)
    requires |vs| == width * height && 0 <= ix < width - 1 && 0 <= z < height
    requires ix as real <= x1 <= x2 <= (ix + 1) as real
    ensures 0 <= Index(width, ix, z) && Index(width, ix + 1, z) < |vs|
    ensures var a, b := vs[Index(width, ix, z)].position.y, vs[Index(width, ix + 1, z)].position.y;
            var h1, h2 := TerrainHeight(vs, width, height, x1, z as real), TerrainHeight(vs, width, height, x2, z as real);
            && MinReal(a, b) <= h1 <= MaxReal(a, b)
            && (a <= b ==> h1 <= h2)
            && (b <= a ==> h2 <= h1)
  {
    RowSegment(vs, width, height, ix, z, x1);
    RowSegment(vs, width, height, ix, z, x2);
    var a, b := vs[Index(width, ix, z)].position.y, vs[Index(width, ix + 1, z)].position.y;
    var t1, t2 := x1 - ix as real, x2 - ix as real;
    LerpBetween(a, b, t1);
    if a <= b {
      LerpMonotone(a, b, t1, t2);
    }
    if b <= a {
      LerpFalling(a, b, t1, t2);
    }
  }

  /** The sampler and the mesh agree on the terrain: over the vertices built
      from a heightmap, every query lies in [0, heightScale] and a grid-point
      query returns that pixel's height. */
  lemma SamplerMatchesMesh(hm: Heightmap, heightScale: real, texRepeat: real, x: real, z: real)
    requires hm.Valid() && hm.width >= 1 && hm.height >= 1 && 0.0 <= heightScale
    ensures var vs := TerrainVertices(hm, heightScale, texRepeat);
            0.0 <= TerrainHeight(vs, hm.width, hm.height, x, z) <= heightScale
    ensures var vs := TerrainVertices(hm, heightScale, texRepeat);
            x.Floor as real == x && z.Floor as real == z && InGrid(hm.width, hm.height, x.Floor, z.Floor) ==>
              TerrainHeight(vs, hm.width, hm.height, x, z) == SampleHeight(hm, heightScale, x.Floor, z.Floor)
  {
    SamplerInRange(hm, heightScale, texRepeat, x, z);
    if x.Floor as real == x && z.Floor as real == z && InGrid(hm.width, hm.height, x.Floor, z.Floor) {
      SamplerAtPixel(hm, heightScale, texRepeat, x.Floor, z.Floor);
    }
  }

  /** Every query over a heightmap's mesh lies in [0, heightScale]. */
  lemma SamplerInRange(hm: Heightmap, heightScale: real, texRepeat: real, x: real, z: real)
    requires hm.Valid() && hm.width >= 1 && hm.height >= 1 && 0.0 <= heightScale
    ensures 0.0 <= TerrainHeight(TerrainVertices(hm, heightScale, texRepeat), hm.width, hm.height, x, z) <= heightScale
  {
    var r := ReadIndices(hm.width, hm.height, x, z);
    HeightsInRange(hm, heightScale, texRepeat, r.i00);
    HeightsInRange(hm, heightScale, texRepeat, r.i10);
    HeightsInRange(hm, heightScale, texRepeat, r.i01);
    HeightsInRange(hm, heightScale, texRepeat, r.i11);
  }

  /** A query at pixel (x, z) over a heightmap's mesh returns that pixel's height. */
  lemma SamplerAtPixel(hm: Heightmap, heightScale: real, texRepeat: real, x: int, z: int)
    requires hm.Valid() && InGrid(hm.width, hm.height, x, z)
    ensures TerrainHeight(TerrainVertices(hm, heightScale, texRepeat), hm.width, hm.height, x as real, z as real)
            == SampleHeight(hm, heightScale, x, z)
  {
    SampleAtGridPoint(TerrainVertices(hm, heightScale, texRepeat), hm.width, hm.height, x, z);
    VertexLayout(hm, heightScale, texRepeat, x, z);
  }

  /** Over a flat heightmap (every pixel the same grey level) every query,
      inside the grid or not, returns that level's height. */
  lemma FlatTerrainHeight(hm: Heightmap, heightScale: real, texRepeat: real, x: real, z: real)
    requires hm.Valid() && hm.width >= 1 && hm.height >= 1
    requires forall k | 0 <= k < |hm.pixels| :: hm.pixels[k] == hm.pixels[0]
    ensures TerrainHeight(TerrainVertices(hm, heightScale, texRepeat), hm.width, hm.height, x, z)
            == PixelHeight(hm.pixels[0], heightScale)
  {
    var vs := TerrainVertices(hm, heightScale, texRepeat);
    var r := ReadIndices(hm.width, hm.height, x, z);
    FlatVertexHeight(hm, heightScale, texRepeat, r.i00);
    FlatVertexHeight(hm, heightScale, texRepeat, r.i10);
    FlatVertexHeight(hm, heightScale, texRepeat, r.i01);
    FlatVertexHeight(hm, heightScale, texRepeat, r.i11);
  }

  /** On a flat heightmap every vertex has the common height. */
  lemma FlatVertexHeight(hm: Heightmap, heightScale: real, texRepeat: real, i: int)
    requires hm.Valid() && 0 <= i < hm.width * hm.height
    requires forall k | 0 <= k < |hm.pixels| :: hm.pixels[k] == hm.pixels[0]
    ensures HeightAt(TerrainVertices(hm, heightScale, texRepeat), i) == PixelHeight(hm.pixels[0], heightScale)
  {
    IndexOfCoordinates(hm.width, hm.height, i);
    VertexLayout(hm, heightScale, texRepeat, Column(hm.width, i), Row(hm.width, i));
  }
}
