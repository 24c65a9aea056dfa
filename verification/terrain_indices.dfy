/** Index buffer of the terrain mesh (generateTerrainIndices in main.cpp).

    A W×H row-major vertex grid has (W-1)×(H-1) quads. The generator visits
    them row by row (z outer, x inner) and emits two triangles per quad,
    (topLeft, bottomLeft, topRight) and (topRight, bottomLeft, bottomRight).
 */
module MeshIndices {
  import opened Grid

  /** Number of quads in one row of a grid `width` samples wide (the inner
      loop runs x from 0 while x < width - 1). */
  function QuadsAlong(width: int): nat {
    if width > 1 then width - 1 else 0
  }

  /** The six indices emitted for the quad whose top-left sample is (x, z). */
  function QuadIndices(width: int, x: int, z: int): (q: seq<int>)
    ensures |q| == 6
  {
    var topLeft := Index(width, x, z);
    var topRight := topLeft + 1;
    var bottomLeft := Index(width, x, z + 1);
    var bottomRight := bottomLeft + 1;
    [topLeft, bottomLeft, topRight, topRight, bottomLeft, bottomRight]
  }

  /** Indices emitted by the first n iterations of the inner loop for quad row z. */
  function RowIndices(width: int, z: int, n: nat): (r: seq<int>)
    ensures |r| == 6 * n
  {
    if n == 0 then [] else RowIndices(width, z, n - 1) + QuadIndices(width, n - 1, z)
  }

  /** Indices emitted by the first m iterations of the outer loop. */
  function RowsIndices(width: int, m: nat): seq<int> {
    if m == 0 then []
    else RowsIndices(width, m - 1) + RowIndices(width, m - 1, QuadsAlong(width))
  }

  /** Each complete quad row contributes six indices per quad. */
  lemma {:induction false} RowsIndicesLength(width: int, m: nat)
    ensures |RowsIndices(width, m)| == 6 * (QuadsAlong(width) * m)
  {
    if m > 0 {
      RowsIndicesLength(width, m - 1);
      assert QuadsAlong(width) * m == QuadsAlong(width) * (m - 1) + QuadsAlong(width);
    }
  }

  /** The whole index buffer of a width × height terrain. */
  function TerrainIndices(width: int, height: int): seq<int> {
    RowsIndices(width, QuadsAlong(height))
  }

  /** Position in the buffer of corner j of quad (x, z). */
  function Slot(width: int, x: int, z: int, j: int): int {
    6 * Index(QuadsAlong(width), x, z) + j
  }

  /** Within one quad row, corner j of quad x sits at slot 6x + j. */
  lemma {:induction false} RowIndicesAt(width: int, z: int, n: nat, x: int, j: int)
    requires 0 <= x < n && 0 <= j < 6
    ensures RowIndices(width, z, n)[6 * x + j] == QuadIndices(width, x, z)[j]
  {
    if x < n - 1 {
      RowIndicesAt(width, z, n - 1, x, j);
    }
  }

  /** Growing the outer loop only appends: the first m rows are a prefix of
      the first m' rows. */
  lemma {:induction false} RowsIndicesPrefix(width: int, m: nat, m': nat)
    requires m <= m'
    ensures RowsIndices(width, m) <= RowsIndices(width, m')
  {
    if m < m' {
      RowsIndicesPrefix(width, m, m' - 1);
    }
  }

  /** Corner j of quad (x, z) follows the z complete rows before it. */
  lemma RowsIndicesAt(width: int, m: nat, x: int, z: int, j: int)
    requires 0 <= x < QuadsAlong(width) && 0 <= z < m && 0 <= j < 6
    ensures |RowsIndices(width, z)| + 6 * x + j < |RowsIndices(width, m)|
    ensures RowsIndices(width, m)[|RowsIndices(width, z)| + 6 * x + j] == QuadIndices(width, x, z)[j]
  {
    var prefix := RowsIndices(width, z + 1);
    assert prefix == RowsIndices(width, z) + RowIndices(width, z, QuadsAlong(width));
    RowsIndicesPrefix(width, z + 1, m);
    RowIndicesAt(width, z, QuadsAlong(width), x, j);
    assert prefix[|RowsIndices(width, z)| + 6 * x + j] == QuadIndices(width, x, z)[j];
  }

  /** Corner j of quad (x, z) sits at Slot(width, x, z, j). */
  lemma SlotAt(width: int, height: int, x: int, z: int, j: int)
    requires InGrid(QuadsAlong(width), QuadsAlong(height), x, z) && 0 <= j < 6
    ensures 0 <= Slot(width, x, z, j) < |TerrainIndices(width, height)|
    ensures TerrainIndices(width, height)[Slot(width, x, z, j)] == QuadIndices(width, x, z)[j]
  {
    RowsIndicesAt(width, QuadsAlong(height), x, z, j);
    RowsIndicesLength(width, z);
    assert |RowsIndices(width, z)| + 6 * x + j == Slot(width, x, z, j);
  }

  /** Reference definition of the buffer, quad by quad: corner j of quad
      (x, z) of the generated buffer is corner j of QuadIndices(width, x, z),
      and the buffer holds exactly six slots per quad. */
  lemma TerrainIndicesQuads(width: int, height: int)
    ensures |TerrainIndices(width, height)| == 6 * (QuadsAlong(width) * QuadsAlong(height))
    ensures forall x, z, j | InGrid(QuadsAlong(width), QuadsAlong(height), x, z) && 0 <= j < 6 ::
              0 <= Slot(width, x, z, j) < |TerrainIndices(width, height)|
    ensures forall x, z, j | InGrid(QuadsAlong(width), QuadsAlong(height), x, z) && 0 <= j < 6 ::
              TerrainIndices(width, height)[Slot(width, x, z, j)] == QuadIndices(width, x, z)[j]
  {
    RowsIndicesLength(width, QuadsAlong(height));
    forall x, z, j | InGrid(QuadsAlong(width), QuadsAlong(height), x, z) && 0 <= j < 6
      ensures 0 <= Slot(width, x, z, j) < |TerrainIndices(width, height)|
      ensures TerrainIndices(width, height)[Slot(width, x, z, j)] == QuadIndices(width, x, z)[j]
    {
      SlotAt(width, height, x, z, j);
    }
  }

  /** Quad (x, z) contributes exactly its six indices, contiguously, at slot
      6 * (z * (W-1) + x): topLeft, bottomLeft, topRight, then topRight,
      bottomLeft, bottomRight. */
  lemma QuadSlice(width: int, height: int, x: int, z: int)
    requires InGrid(QuadsAlong(width), QuadsAlong(height), x, z)
    ensures 0 <= Slot(width, x, z, 0) && Slot(width, x, z, 6) <= |TerrainIndices(width, height)|
    ensures TerrainIndices(width, height)[Slot(width, x, z, 0)..Slot(width, x, z, 6)]
            == [Index(width, x, z), Index(width, x, z + 1), Index(width, x + 1, z),
                Index(width, x + 1, z), Index(width, x, z + 1), Index(width, x + 1, z + 1)]
  {
    var r := TerrainIndices(width, height);
    var s := Slot(width, x, z, 0);
    SlotAt(width, height, x, z, 5);
    forall c | 0 <= c < 6
      ensures r[s..s + 6][c] == QuadIndices(width, x, z)[c]
    {
      SlotAt(width, height, x, z, c);
    }
    assert r[s..s + 6] == QuadIndices(width, x, z);
  }

  /** Every slot k of the buffer belongs to exactly the quad and corner that
      Slot assigns to it: quad number k / 6 in row-major order, corner k % 6. */
  lemma TerrainIndicesAt(width: int, height: int, k: int)
    requires 0 <= k < |TerrainIndices(width, height)|
    ensures width > 1 && height > 1 && 0 <= k / 6 < (width - 1) * (height - 1)
    ensures TerrainIndices(width, height)[k] ==
            QuadIndices(width, Column(width - 1, k / 6), Row(width - 1, k / 6))[k % 6]
  {
    TerrainIndicesQuads(width, height);
    var w, h := QuadsAlong(width), QuadsAlong(height);
    var q := k / 6;
    assert 0 <= q < w * h;
    IndexOfCoordinates(w, h, q);
    var x, z := Column(w, q), Row(w, q);
    assert Slot(width, x, z, k % 6) == k;
  }

  /** Size of the buffer: (W-1)(H-1) quads of six indices, none for a grid
      one sample wide or high. */
  lemma TerrainIndicesCount(width: int, height: int)
    requires width >= 1 && height >= 1
    ensures |TerrainIndices(width, height)| == (width - 1) * (height - 1) * 6
    ensures TerrainIndices(width, height) == [] <==> width == 1 || height == 1
  {
    TerrainIndicesQuads(width, height);
    if width > 1 && height > 1 {
      MulMonotone(1, width - 1, height - 1);
    }
  }

  /** Every corner of an in-range quad is a vertex of the W×H grid. */
  lemma QuadIndicesInBounds(width: int, height: int, x: int, z: int)
    requires InGrid(QuadsAlong(width), QuadsAlong(height), x, z)
    ensures forall j | 0 <= j < 6 :: 0 <= QuadIndices(width, x, z)[j] < width * height
  {
    IndexInBounds(width, height, x, z);
    IndexInBounds(width, height, x + 1, z + 1);
    assert Index(width, x + 1, z + 1) == Index(width, x, z + 1) + 1;
  }

  /** No index of the buffer reaches past the W×H vertex array. */
  lemma TerrainIndicesInBounds(width: int, height: int)
    ensures forall k | 0 <= k < |TerrainIndices(width, height)| ::
              0 <= TerrainIndices(width, height)[k] < width * height
  {
    forall k | 0 <= k < |TerrainIndices(width, height)|
      ensures 0 <= TerrainIndices(width, height)[k] < width * height
    {
      TerrainIndicesAt(width, height, k);
      var q := k / 6;
      IndexOfCoordinates(width - 1, height - 1, q);
      QuadIndicesInBounds(width, height, Column(width - 1, q), Row(width - 1, q));
    }
  }

  /** Twice the signed area of the triangle (a, b, c) in grid coordinates,
      measured in the (x, z) plane. */
  function Winding(width: int, a: int, b: int, c: int): int
    requires width > 0
  {
    (Column(width, b) - Column(width, a)) * (Row(width, c) - Row(width, a))
    - (Row(width, b) - Row(width, a)) * (Column(width, c) - Column(width, a))
  }

  /** Both triangles of a quad are unit right triangles with the same winding. */
  lemma QuadWinding(width: int, x: int, z: int)
    requires 0 <= x < width - 1
    ensures var q := QuadIndices(width, x, z);
            Winding(width, q[0], q[1], q[2]) == -1 && Winding(width, q[3], q[4], q[5]) == -1
  {
    assert Index(width, x, z) + 1 == Index(width, x + 1, z);
    assert Index(width, x, z + 1) + 1 == Index(width, x + 1, z + 1);
    CoordinatesOfIndex(width, x, z);
    CoordinatesOfIndex(width, x + 1, z);
    CoordinatesOfIndex(width, x, z + 1);
    CoordinatesOfIndex(width, x + 1, z + 1);
  }

  /** Every triangle of the buffer has the same winding, so back-face culling
      treats the whole terrain alike. */
  lemma TerrainWindingConsistent(width: int, height: int, t: int)
    requires 0 <= t && 3 * t + 2 < |TerrainIndices(width, height)|
    ensures width > 1
    ensures var r := TerrainIndices(width, height);
            Winding(width, r[3 * t], r[3 * t + 1], r[3 * t + 2]) == -1
  {
    var q, j := t / 2, 3 * (t % 2);
    DivModUnique(3 * t, 6, q, j);
    DivModUnique(3 * t + 1, 6, q, j + 1);
    DivModUnique(3 * t + 2, 6, q, j + 2);
    TerrainIndicesAt(width, height, 3 * t);
    TerrainIndicesAt(width, height, 3 * t + 1);
    TerrainIndicesAt(width, height, 3 * t + 2);
    IndexOfCoordinates(width - 1, height - 1, q);
    QuadWinding(width, Column(width - 1, q), Row(width - 1, q));
  }

  /** The nested loops of generateTerrainIndices, appending to the buffer. */
  method GenerateTerrainIndices(width: int, height: int) returns (indices: seq<int>)
    ensures indices == TerrainIndices(width, height)
    ensures |indices| == 6 * (QuadsAlong(width) * QuadsAlong(height))
    ensures forall k | 0 <= k < |indices| :: 0 <= indices[k] < width * height
  {
    indices := [];
    var z := 0;
    while z < height - 1
      invariant 0 <= z <= QuadsAlong(height)
      invariant indices == RowsIndices(width, z)
    {
      indices := AppendQuadRow(width, z, indices);
      z := z + 1;
    }
    RowsIndicesLength(width, QuadsAlong(height));
    TerrainIndicesInBounds(width, height);
  }

  /** One pass of the inner loop: appends the quads of row z, left to right. */
  method AppendQuadRow(width: int, z: int, prefix: seq<int>) returns (indices: seq<int>)
    ensures indices == prefix + RowIndices(width, z, QuadsAlong(width))
    ensures |indices| == |prefix| + 6 * QuadsAlong(width)
  {
    indices := prefix;
    var x := 0;
    while x < width - 1
      invariant 0 <= x <= QuadsAlong(width)
      invariant indices == prefix + RowIndices(width, z, x)
    {
      var topLeft := z * width + x;
      var topRight := topLeft + 1;
      var bottomLeft := (z + 1) * width + x;
      var bottomRight := bottomLeft + 1;
      ghost var before := indices;
      indices := indices + [topLeft, bottomLeft, topRight];
      indices := indices + [topRight, bottomLeft, bottomRight];
      assert indices == before + QuadIndices(width, x, z);
      x := x + 1;
    }
  }
}
