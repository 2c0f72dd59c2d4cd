/**
 * createVertexStore: every vertex of the merged skinned geometry gets a
 * fragment index (its own vertex index) that picks the texel of the
 * position map its world position is rendered to. The map is 512 texels
 * wide and as high as the next power of two of the rows it needs.
 */
module VertexStore {
  import opened TexelMath

  /** Width of the position map. */
  const PositionMapWidth: nat := 512

  /** The integer part of what createVertexStore hands to the history pass. */
  datatype VertexStoreLayout = VertexStoreLayout(numVertices: nat, mapWidth: nat, mapHeight: nat)

  /**
   * Fills fragIndices[i] = i for every vertex and sizes the position map.
   * Every vertex's fragment is a texel inside the map, and no two vertices
   * share a texel.
   */
  method CreateVertexStore(numVertices: nat) returns (store: VertexStoreLayout, fragIndices: array<int>)
    ensures store.numVertices == numVertices && store.mapWidth == PositionMapWidth
    ensures store.mapHeight == MapHeight(numVertices, PositionMapWidth)
    ensures fresh(fragIndices)
    ensures fragIndices.Length == numVertices
    ensures forall i :: 0 <= i < numVertices ==> fragIndices[i] == i
    ensures numVertices <= store.mapWidth * store.mapHeight
    ensures forall i :: 0 <= i < numVertices ==>
              TexCoordAt(i, store.mapWidth).y < store.mapHeight
    ensures forall i, j :: 0 <= i < j < numVertices ==>
              TexCoordAt(fragIndices[i], store.mapWidth) != TexCoordAt(fragIndices[j], store.mapWidth)
  {
    fragIndices := new int[numVertices];
    var i := 0;
    while i < numVertices
      invariant 0 <= i <= numVertices
      invariant forall k :: 0 <= k < i ==> fragIndices[k] == k
    {
      fragIndices[i] := i;
      i := i + 1;
    }

    var mapWidth := PositionMapWidth;
    var mapHeight := MapHeight(numVertices, mapWidth);
    store := VertexStoreLayout(numVertices, mapWidth, mapHeight);

    MapHeightFits(numVertices, mapWidth);
    forall i | 0 <= i < numVertices
      ensures TexCoordAt(i, mapWidth).y < mapHeight
    {
      TexelInMap(i, mapWidth, mapHeight);
    }
    forall i, j | 0 <= i < j < numVertices
      ensures TexCoordAt(fragIndices[i], mapWidth) != TexCoordAt(fragIndices[j], mapWidth)
    {
      TexelsDistinct(i, j, mapWidth);
    }
  }
}
