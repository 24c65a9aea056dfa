/** A worked instance of the terrain pipeline: a 3 × 3 heightmap of black
    pixels. */
module FlatExample {
  import opened Grid
  import opened MeshIndices
  import opened TerrainMesh
  import opened HeightSampler

  const FlatMap: Heightmap := Heightmap(3, 3, [0, 0, 0, 0, 0, 0, 0, 0, 0])

  /** The flat 3 × 3 grid has 9 vertices and 4 quads of 6 indices, and the
      sampler answers 0 for every query. */
  lemma FlatThreeByThree(x: real, z: real)
    ensures |TerrainVertices(FlatMap, DefaultHeightScale, DefaultTexRepeat)| == 9
    ensures |TerrainIndices(3, 3)| == 24
    ensures TerrainHeight(TerrainVertices(FlatMap, DefaultHeightScale, DefaultTexRepeat), 3, 3, x, z) == 0.0
  {
    TerrainIndicesCount(3, 3);
    FlatTerrainHeight(FlatMap, DefaultHeightScale, DefaultTexRepeat, x, z);
  }
}
