# carla-trail: the CPU-side bookkeeping of the trail effect, in Dafny

carla-trail draws ribbons that trail behind an animated skinned mesh. The
GPU does all the drawing. The CPU side does exact integer and array work
around it, and that work is what this project models:

- **Position map** (`createVertexStore`). Every vertex gets a fragment
  index equal to its own index. The map is 512 texels wide and
  `ceilPowerOfTwo(ceil(numVertices / 512))` texels high.
- **Position history** (`createHistoryPass`). A texture holds `numFrames`
  frames for every vertex, at texel `vertexIndex * numFrames + frame`.
  - It is `mapWidth` wide (1024 by default) and
    `ceilPowerOfTwo(ceil(numVertices * numFrames / mapWidth))` high.
  - Each `update` runs the rotate pass, which works like `unshift()`: the
    newest position goes in at offset 0 and older entries move up and are
    shifted.
  - The `shouldReset` flag starts true and `setNeedsReset` sets it again.
    When it is set, `update` first runs the init shader on both render
    targets, then clears the flag. The model takes the init shader's output
    to be the current position at every frame offset (`Baseline`).
- **Edge selection** (`getIndicesForRandomEdges`, `shuffle`). The filtered
  edge list is shuffled in place by Fisher–Yates, then cut to
  `floor(reduceRate * n)` edges.
- **Ribbon geometry** (`createRibbonsGeometry`, `setDrawDensity`). The
  `position` attribute holds history indices, not coordinates.
  - Every selected edge `(v0, v1)` and frame pair `f` gets two triangles
    over `i0 = v0*F + f`, `i1 = v1*F + f`, `i2 = i0 + 1`, `i3 = i1 + 1`.
  - Each triangle vertex stores its own index first, then the other two
    corners in cyclic order.
  - A parallel uv buffer copies the uv of a source vertex.
  - `setDrawDensity` narrows the draw range to the segments of the first
    `floor(numEdges * value)` edges.
- **Texel addressing** (the integer part of the shader helper
  `texCoordAt`): an index maps to column `index % width` and row
  `index / width`.

Modules, one file each:

- `TexelMath` (texel_math.dfy): power-of-two map heights, texel
  addressing, the flattened history index.
- `FisherYates` (shuffle.dfy): the in-place shuffle. `Math.random()` is a
  parameter: `random[k]` is the value of the k-th call.
- `RandomEdges` (random_edges.dfy): edge selection.
- `VertexStore` (vertex_store.dfy): the fragment-index loop and the
  position-map size.
- `HistoryPass` (history_pass.dfy): the reset flag and the two render
  targets, plus a value model of the rotate pass.
- `Ribbons` (ribbons.dfy): the buffer builder and the draw range.

The ribbon buffers have two descriptions that are proved to agree:

- `RibbonVertices` is recursive and lists the vertices in the order the
  nested loop writes them.
- `VertexAt` computes vertex `q` directly from its index: edge, frame
  pair, triangle and corner.

`BuildRibbonBuffers` is proved to write `RibbonVertices`. `RibbonVerticesAt`
proves it equal to `VertexAt`. The geometric properties (rotations, index
blocks, uv owners) are proved about `VertexAt`.

The ribbon geometry starts at draw density 1, as `createRibbonsGeometry`
initialises it (src/script.ts:615). The caller sets 0.5 right after
(src/script.ts:202-203), which is outside this model.

## Model

| member | source | states |
|---|---|---|
| TexelMath.CeilPowerOfTwo | src/script.ts:356-358 | ceilPowerOfTwo(0) is 0; for x ≥ 1 the result is a power of two with x ≤ r < 2x |
| TexelMath.CeilPowerOfTwoIsLeast | src/script.ts:356-358 | no power of two that is at least x is smaller than ceilPowerOfTwo(x) |
| TexelMath.MapHeight | src/script.ts:355-358 | ceilPowerOfTwo(ceil(count / width)): the map holds every texel (count ≤ width·height), and the height is 0 exactly when count is 0 |
| TexelMath.CeilDiv | src/script.ts:357 | Math.ceil(a / b) is the least r with a ≤ b·r, since b·r < a + b |
| TexelMath.MapHeightFits | src/script.ts:430-433 | the map holds every texel (count ≤ width·height); the height is a power of two, or 0 when count is 0; half the height would not hold them all |
| TexelMath.TexCoordAt | src/script.ts:641-646 | the column is below the width, and column + width·row gives back the index |
| TexelMath.TexelRoundTrip | src/script.ts:641-646 | texCoordAt and its inverse IndexAt round-trip in both directions |
| TexelMath.TexelsDistinct | src/script.ts:641-646 | distinct indices read distinct texels |
| TexelMath.TexelInMap | src/script.ts:641-646 | an index below width·height lies on a row of the map |
| TexelMath.FlatIndex | src/script.ts:546-547 | vertexIndex·numFrames + f decodes to the vertex (quotient) and the frame (remainder) when f < numFrames |
| TexelMath.HistoryTexelInMap | src/script.ts:430-433 | every [vertex][frame] entry of the history lands on a row of the history map |
| VertexStore.CreateVertexStore | src/script.ts:346-358 | fragIndices[i] == i for every vertex; the map is 512 wide and ceilPowerOfTwo(ceil(n/512)) high; every fragment lies inside the map; no two vertices share a texel |
| HistoryPass.Rotate | src/script.ts:406-410 | one rotate pass keeps the numVertices × numFrames shape (its contents are stated by RunSlot) |
| HistoryPass.Baseline | src/script.ts:490-497 | the init pass's assumed output has the numVertices × numFrames shape of the history |
| HistoryPass.Run | src/script.ts:499-506 | a series of update passes, one rotate per tick, keeps the numVertices × numFrames shape (the contents are stated by RunSlot) |
| HistoryPass.RunSlot | src/script.ts:406-410 | after t passes, offset j < t holds the position read j passes ago plus every shift since; offset j ≥ t holds the initial entry at j − t plus all t shifts |
| HistoryPass.ResetThenTicks | src/script.ts:406-410 | after a reset and t zero-shift passes, offset j holds the position read j passes ago, or the first pass's position once j ≥ t |
| HistoryPass.HistoryPassState.constructor | src/script.ts:422-433 | numFrames, numVertices and mapWidth (1024 by default) as given; the map holds numVertices·numFrames texels; shouldReset starts true; both targets start zero-filled |
| HistoryPass.HistoryPassState.GetCurrentMap | src/script.ts:508-510 | the current render target, of shape numVertices × numFrames |
| HistoryPass.HistoryPassState.GetAlternateMap | src/script.ts:493-494 | the alternate render target, of shape numVertices × numFrames |
| HistoryPass.HistoryPassState.Init | src/script.ts:490-497 | both render targets hold the baseline (current position at every offset) |
| HistoryPass.HistoryPassState.Compute | src/script.ts:505 | the rotate pass of the current target becomes current; the old current target becomes the alternate |
| HistoryPass.HistoryPassState.Update | src/script.ts:499-506 | the flag is clear afterwards; the pass rotates the baseline when the flag was set, otherwise the current map |
| HistoryPass.HistoryPassState.SetNeedsReset | src/script.ts:512-514 | the flag is set (again, when it already was) |
| FisherYates.Pick | src/scene/utils/shuffle.ts:4 | floor(r·(index + 1)) lies in [0, index] when r is in [0, 1) |
| FisherYates.Swap | src/scene/utils/shuffle.ts:5 | the destructuring swap keeps the length and exchanges entries i and j |
| FisherYates.SwapKeepsOthers | src/scene/utils/shuffle.ts:5 | the swap changes no entry other than the two it exchanges |
| FisherYates.SwapPermutes | src/scene/utils/shuffle.ts:5 | a swap keeps the multiset of elements |
| FisherYates.SwapAt | src/scene/utils/shuffle.ts:5 | the destructuring swap on the array is Swap on its contents |
| FisherYates.ShuffleDown | src/scene/utils/shuffle.ts:3-6 | the loop iterations from index down to 1, each swapping index with floor(random·(index+1)), keep the length |
| FisherYates.ShuffleDownPermutes | src/scene/utils/shuffle.ts:3-6 | the remaining iterations keep the length and the multiset |
| FisherYates.Shuffled | src/scene/utils/shuffle.ts:3-6 | the whole loop, from index length − 1, keeps the length |
| FisherYates.ShuffleDownKeepsSuffix | src/scene/utils/shuffle.ts:3-5 | a position whose iteration has run is never touched again |
| FisherYates.ShuffleStep | src/scene/utils/shuffle.ts:3-5 | one iteration is the first step of the rest of the shuffle; positions from index up already hold their final values |
| FisherYates.ShuffledIsPermutation | src/scene/utils/shuffle.ts:3-6 | the shuffle has the same length and multiset as its input |
| FisherYates.ShuffledShortUnchanged | src/scene/utils/shuffle.ts:3 | arrays of length 0 or 1 come back unchanged |
| FisherYates.ShuffleIteration | src/scene/utils/shuffle.ts:4-5 | one loop body swaps index with floor(random·(index+1)) and leaves the rest of the shuffle unchanged |
| FisherYates.Shuffle | src/scene/utils/shuffle.ts:2-8 | returns the array it was given, whose contents are Shuffled(old contents, draws): a permutation |
| RandomEdges.KeepCount | src/scene/utils/getIndicesForRandomEdges.ts:12 | floor(reduceRate·n) is at most n, is 0 at rate 0 and n at rate 1 |
| RandomEdges.Selected | src/scene/utils/getIndicesForRandomEdges.ts:10-13 | the selection has floor(reduceRate·n) edges and is a sub-multiset of the filtered edges |
| RandomEdges.SelectedExtremes | src/scene/utils/getIndicesForRandomEdges.ts:11-12 | rate 0 keeps nothing; rate 1 keeps a permutation of every edge |
| RandomEdges.GetIndicesForRandomEdges | src/scene/utils/getIndicesForRandomEdges.ts:5-14 | the result is the first floor(reduceRate·n) edges of the shuffled filtered list (threshold 1 by default), a sub-multiset of it |
| Ribbons.Flatten | src/script.ts:530 | edges.flat(): entries 2e and 2e + 1 are the endpoints of edge e |
| Ribbons.Locate | src/script.ts:539-541 | every mesh vertex lies in segment e·(F−1) + f of a valid edge e and frame pair f, at a corner below 6 |
| Ribbons.LocateOf | src/script.ts:539-541 | Locate inverts the segIndex layout |
| Ribbons.SegmentVerticesAreCorners | src/script.ts:542-602 | the six vertices written for a segment are its six corners: each triangle's rotations, with the uv of the vertex owning the first index |
| Ribbons.SegmentVertices | src/script.ts:559-602 | the literal block writes six vertices per segment, in builder order (what they are is stated by SegmentVerticesAreCorners) |
| Ribbons.EdgeVerticesAt | src/script.ts:540-602 | within one edge, entry r is corner r % 6 of frame pair r / 6 |
| Ribbons.EdgeVertices | src/script.ts:540-602 | the inner loop's output for one edge: six vertices per frame pair (what they are is stated by EdgeVerticesAt) |
| Ribbons.RibbonVertices | src/script.ts:539-602 | every mesh vertex in the order the nested loop writes them: 6·numEdges·(F−1) of them (equal to VertexAt by RibbonVerticesAt) |
| Ribbons.RibbonVerticesExtend | src/script.ts:539-540 | one more edge appends that edge's vertices |
| Ribbons.VertexAtOfPrefix | src/script.ts:539-541 | the reference places a prefix of the edges as it does for all of them |
| Ribbons.VertexAtLastEdge | src/script.ts:539-541 | after all edges but the last come the last edge's segments |
| Ribbons.RibbonVerticesAt | src/script.ts:539-602 | the vertices in builder order equal the reference VertexAt at every index |
| Ribbons.RibbonVerticesPrefix | src/script.ts:539-541 | the vertices of the first n edges are the first 6·n·(F−1) vertices |
| Ribbons.CornersRotate | src/script.ts:559-593 | corners k, k+1, k+2 of a segment carry rotations of one triple |
| Ribbons.TriangleCornersRotate | src/script.ts:559-593 | the three vertices of every triangle carry (a, b, c), (b, c, a) and (c, a, b) |
| Ribbons.HistoryIndexInEdgeBlock | src/script.ts:542-549 | every stored index decodes to an endpoint of the vertex's edge at offset f or f + 1, never spills into another vertex's block, and is below numVertices·F |
| Ribbons.UvFromOwnEdge | src/script.ts:551-554 | every vertex copies the uv of an endpoint of its own edge |
| Ribbons.UvOfOwnIndex | src/script.ts:571-602 | every vertex copies the uv of the source vertex its own first index belongs to (i0, i2 → v0; i1, i3 → v1) |
| Ribbons.Strokes | src/script.ts:626 | floor(numEdges·value) lies in [0, numEdges] for value in [0, 1], and is numEdges at 1 |
| Ribbons.StrokesMonotone | src/script.ts:626 | a larger density never draws fewer edges |
| Ribbons.DrawCount | src/script.ts:626-627 | the draw count never exceeds the 6·numEdges·(F−1) vertices, and equals it at density 1 |
| Ribbons.DrawCountMonotone | src/script.ts:626-627 | a larger density never draws fewer vertices |
| Ribbons.DrawnVerticesAreFirstEdges | src/script.ts:622-629 | the vertices drawn at a density are exactly the ribbons of the first floor(numEdges·value) edges |
| Ribbons.WriteTrianglePositions | src/script.ts:559-593 | three vertices get a triple and its two rotations; no other entry changes |
| Ribbons.WriteTriangleUvs | src/script.ts:571-602 | three vertices get their uv pairs; no other entry changes |
| Ribbons.WriteSegment | src/script.ts:541-602 | one inner iteration keeps what was written and appends the segment's six vertices |
| Ribbons.WriteEdge | src/script.ts:540-602 | the inner loop keeps what was written and appends all of the edge's segments |
| Ribbons.BuildRibbonBuffers | src/script.ts:527-603 | positions has 18·numEdges·(F−1) entries and uvs 12·numEdges·(F−1); every mesh vertex holds RibbonVertices(edges)[q] |
| Ribbons.RibbonsGeometry.constructor | src/script.ts:606-620 | the geometry over the buffers, density 1, whole draw range |
| Ribbons.RibbonsGeometry.SetDrawDensity | src/script.ts:622-629 | an unchanged value changes nothing; a new value is recorded and the draw range becomes (0, floor(numEdges·value)·(F−1)·6) |
| Ribbons.CreateRibbonsGeometry | src/script.ts:523-620 | selects 35% of the filtered edges, and the buffers hold the ribbons of exactly those edges, at density 1 |

## Left out

- GPU execution is not modelled:
  - the skinned-mesh, init and rotate shaders;
  - `GPUComputationRenderer` and its render targets;
  - `renderer.render`.

- `HistoryPass.Baseline`: the init shader's output is assumed to replicate
  the current position at every frame offset. The init shader's text is not
  part of this model, so `Init` and `ResetThenTicks` rest on that assumption.

  The rotate pass is modelled on values (`Rotate`) from the doc comment at
  src/script.ts:406-410, because the shader text is not part of this model.
  The ping-pong swap is modelled as `Compute`.
- Floating point is replaced by exact reals:
  - Positions and uvs are exact reals. Float32 rounding is not modelled.
  - History indices and fragment indices (`fragIndices`, a `Float32Array`) are exact integers. Float32 exactness ends at 2^24 and is not modelled.
  - The shift scaling and `normalize(cross(...))` are left out.
  - The float division at the end of `texCoordAt` is left out. Only its integer column and row are modelled.
- `RandomEdges.KeepCount`: the program rounds `reduceRate * edges.length` to a double before `Math.floor`, so its count can be one below the model's. The literal 0.35 is a double just below 0.35: with 180 filtered edges the program computes `Math.floor(62.99999999999999)` = 62, while `KeepCount(0.35, 180)` is 63.
- `Ribbons.Strokes`: the program rounds `numEdges * value` to a double before `Math.floor`, so its count can be one below the model's. With 180 edges at density 0.35 it draws 62 strokes where the model says 63; `100 * 0.29` is 28.999999999999996, so 28 strokes where the model says 29.
- `TexelMath.CeilPowerOfTwo` is the exact least power of two. The library computes `2^ceil(log(x)/LN2)` in floating point, and that rounding is not modelled.
- `Math.random()` is a parameter sequence of draws in [0, 1). The uniformity of the shuffle is a statistical property and is not stated.
- `getIndicesForEdges` (the dihedral-angle filter) is not part of this model. It is the parameter `edgesOf`.
- `RandomEdges.GetIndicesForRandomEdges` requires `reduceRate` in [0, 1]. The source only calls it with 0.35. Other rates would make `edges.length = ...` throw or leave holes, and that is not modelled.
- A source geometry without a uv attribute makes `createRibbonsGeometry` throw. `Ribbons.CreateRibbonsGeometry` instead requires a uv pair for every edge endpoint.
- `Ribbons.CreateRibbonsGeometry` requires `numFrames ≥ 1`. With 0 frames and at least one edge the source allocates negative-sized buffers and throws, and that is not modelled.
- `HistoryPass.HistoryPassState.constructor`: the compute helper's `init()` error path (a logged message) and the WebGL1 half-float fallback are not modelled.
- The rest of the scene is not modelled, because none of it is integer bookkeeping:
  - `createMouse3D`;
  - `prepareSkinnedMeshSampler`;
  - `lerpDelta`;
  - src/scene/lights.ts;
  - renderer, camera and GUI setup;
  - the main loop, with its constants `numFrames = 60` and `drawAmount = 0.5`.
