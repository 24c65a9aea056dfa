/** Index buffer of the light sphere (generateSphere in main.cpp).

    The sphere's vertices form a (stacks + 1) × (sectors + 1) grid, stack by
    stack; their positions come from sine and cosine and are not part of this
    model, only their grid coordinates are. Each of the stacks × sectors cells
    contributes two triangles, (k1, k2, k1 + 1) and (k1 + 1, k2, k2 + 1), where
    k1 is the cell's vertex on stack i and k2 the one below it on stack i + 1.
 */
module SphereMesh {
  import opened Grid
  import opened MeshIndices

  /** The parameters main.cpp builds the light sphere with. */
  const LightSectors: int := 32
  const LightStacks: int := 16

  /** Number of iterations of a loop `for (n = 0; n <= last; ++n)`. */
  function Through(last: int): nat {
    if last >= 0 then last + 1 else 0
  }

  /** Grid coordinates (stack, sector) of the sphere's vertices, in the order
      the vertex loops push them. */
  function SphereVertexGrid(sectors: int, stacks: int): (g: seq<(int, int)>)
    ensures |g| == Through(stacks) * Through(sectors)
  {
    if Through(sectors) == 0 then []
    else
      var n := Through(stacks) * Through(sectors);
      seq(n, k requires 0 <= k < n => (Row(sectors + 1, k), Column(sectors + 1, k)))
  }

  /** Vertex (stack i, sector j) is pushed at index i * (sectors + 1) + j. */
  lemma SphereVertexAt(sectors: int, stacks: int, i: int, j: int)
    requires 0 <= i <= stacks && 0 <= j <= sectors
    ensures 0 <= Index(sectors + 1, j, i) < |SphereVertexGrid(sectors, stacks)|
    ensures SphereVertexGrid(sectors, stacks)[Index(sectors + 1, j, i)] == (i, j)
  {
    IndexInBounds(sectors + 1, stacks + 1, j, i);
    CoordinatesOfIndex(sectors + 1, j, i);
  }

  /** The index loops of generateSphere, with k1 and k2 stepping along the
      two stacks. Their output is exactly the terrain index buffer of the
      (sectors + 1) × (stacks + 1) vertex grid, and it never refers past the
      vertices the sphere has. */
  method GenerateSphereIndices(sectors: int, stacks: int) returns (indices: seq<int>)
    ensures indices == TerrainIndices(sectors + 1, stacks + 1)
    ensures |indices| == 6 * (QuadsAlong(sectors + 1) * QuadsAlong(stacks + 1))
    ensures forall k | 0 <= k < |indices| :: 0 <= indices[k] < |SphereVertexGrid(sectors, stacks)|
  {
    indices := [];
    var i := 0;
    while i < stacks
      invariant 0 <= i <= QuadsAlong(stacks + 1)
      invariant indices == RowsIndices(sectors + 1, i)
    {
      indices := AppendStackCells(sectors, i, indices);
      i := i + 1;
    }
    RowsIndicesLength(sectors + 1, QuadsAlong(stacks + 1));
    forall k | 0 <= k < |indices|
      ensures 0 <= indices[k] < |SphereVertexGrid(sectors, stacks)|
    {
      SphereIndexInBounds(sectors, stacks, k);
    }
  }

  /** One pass of the inner loop: k1 runs along stack i and k2 along stack
      i + 1, one cell per step. */
  method AppendStackCells(sectors: int, i: int, prefix: seq<int>) returns (indices: seq<int>)
    ensures indices == prefix + RowIndices(sectors + 1, i, QuadsAlong(sectors + 1))
  {
    indices := prefix;
    var k1 := i * (sectors + 1);
    var k2 := k1 + sectors + 1;
    var j := 0;
    while j < sectors
      invariant 0 <= j <= QuadsAlong(sectors + 1)
      invariant k1 == Index(sectors + 1, j, i) && k2 == Index(sectors + 1, j, i + 1)
      invariant indices == prefix + RowIndices(sectors + 1, i, j)
    {
      ghost var before := indices;
      indices := indices + [k1, k2, k1 + 1];
      indices := indices + [k1 + 1, k2, k2 + 1];
      assert indices == before + QuadIndices(sectors + 1, j, i);
      j, k1, k2 := j + 1, k1 + 1, k2 + 1;
    }
  }

  /** The six indices the inner loop pushes for cell (i, j), written the way
      generateSphere computes them. */
  function CellIndices(sectors: int, i: int, j: int): seq<int> {
    var k1 := i * (sectors + 1) + j;
    var k2 := k1 + sectors + 1;
    [k1, k2, k1 + 1, k1 + 1, k2, k2 + 1]
  }

  /** Cell (i, j) of the sphere, in stack-major order, contributes
      [k1, k2, k1 + 1, k1 + 1, k2, k2 + 1] with k1 = i * (sectors + 1) + j and
      k2 = k1 + sectors + 1, contiguously at slot 6 * (i * sectors + j). */
  lemma SphereCellIndices(sectors: int, stacks: int, i: int, j: int)
    requires 0 <= i < stacks && 0 <= j < sectors
    ensures 0 <= 6 * (i * sectors + j) && 6 * (i * sectors + j) + 6 <= |TerrainIndices(sectors + 1, stacks + 1)|
    ensures TerrainIndices(sectors + 1, stacks + 1)[6 * (i * sectors + j)..6 * (i * sectors + j) + 6]
            == CellIndices(sectors, i, j)
  {
    QuadSlice(sectors + 1, stacks + 1, j, i);
    assert Index(sectors + 1, j, i + 1) == Index(sectors + 1, j, i) + sectors + 1 by {
      assert (i + 1) * (sectors + 1) == i * (sectors + 1) + (sectors + 1);
    }
    assert QuadsAlong(sectors + 1) == sectors;
  }

  /** Every index of the sphere's buffer names one of its vertices. */
  lemma SphereIndexInBounds(sectors: int, stacks: int, k: int)
    requires 0 <= k < |TerrainIndices(sectors + 1, stacks + 1)|
    ensures 0 <= TerrainIndices(sectors + 1, stacks + 1)[k] < |SphereVertexGrid(sectors, stacks)|
  {
    TerrainIndicesQuads(sectors + 1, stacks + 1);
    TerrainIndicesInBounds(sectors + 1, stacks + 1);
    assert sectors > 0 && stacks > 0;
    assert |SphereVertexGrid(sectors, stacks)| == (sectors + 1) * (stacks + 1);
  }

  /** A sphere of sectors × stacks cells has (stacks + 1)(sectors + 1)
      vertices and six indices per cell. */
  lemma SphereSize(sectors: int, stacks: int)
    requires 0 <= sectors && 0 <= stacks
    ensures |SphereVertexGrid(sectors, stacks)| == (stacks + 1) * (sectors + 1)
    ensures |TerrainIndices(sectors + 1, stacks + 1)| == 6 * (sectors * stacks)
  {
    RowsIndicesLength(sectors + 1, stacks);
  }

  /** The light sphere main.cpp builds has 17 × 33 vertices and 16 × 32 cells
      of six indices. */
  lemma LightSphereSize()
    ensures |SphereVertexGrid(LightSectors, LightStacks)| == 561
    ensures |TerrainIndices(LightSectors + 1, LightStacks + 1)| == 3072
  {
    SphereSize(LightSectors, LightStacks);
  }
}
