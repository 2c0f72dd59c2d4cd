/**
 * createRibbonsGeometry: a triangle mesh whose "position" attribute holds
 * no coordinates but flattened indices into the position history
 * (vertexIndex * numFrames + frameOffset). For every selected edge
 * (v0, v1) and every frame pair f in [0, numFrames - 1) it emits two
 * triangles over the history entries of v0 and v1 at offsets f and f + 1.
 * Each triangle vertex stores three indices: its own first, then the other
 * two corners of its triangle in cyclic order, so that the vertex shader
 * can rebuild a face normal. A parallel uv attribute copies the uv of a
 * source vertex. setDrawDensity later narrows the draw range to the
 * segments of a prefix of the (already shuffled) edges.
 */
module Ribbons {
  import opened TexelMath
  import opened FisherYates
  import opened RandomEdges

  /** The fraction of filtered edges kept by createRibbonsGeometry. */
  const ReduceRate: real := 0.35

  /** edges.flat(): [v0, v1, v0', v1', ...]. */
  function Flatten(edges: seq<Edge>): (r: seq<nat>)
    ensures |r| == 2 * |edges|
    ensures forall e :: 0 <= e < |edges| ==> r[2 * e] == edges[e].v0 && r[2 * e + 1] == edges[e].v1
  {
    if edges == [] then []
    else
      var rest := Flatten(edges[1..]);
      assert forall e :: 1 <= e < |edges| ==> rest[2 * (e - 1)] == edges[e].v0 && rest[2 * (e - 1) + 1] == edges[e].v1;
      [edges[0].v0, edges[0].v1] + rest
  }

  /** Every endpoint of every edge has a uv pair in srcUvs. */
  predicate EdgesHaveUvs(edges: seq<Edge>, srcUvs: seq<real>)
  {
    forall e :: 0 <= e < |edges| ==> 2 * edges[e].v0 + 1 < |srcUvs| && 2 * edges[e].v1 + 1 < |srcUvs|
  }

  /** Every endpoint of every edge is one of the first numVertices vertices. */
  predicate EdgesWithin(edges: seq<Edge>, numVertices: nat)
  {
    forall e :: 0 <= e < |edges| ==> edges[e].v0 < numVertices && edges[e].v1 < numVertices
  }

  /** Number of ribbon segments: one per edge and frame pair. */
  function SegmentCount(numEdges: nat, numFrames: nat): nat
    requires numFrames >= 1
  {
    numEdges * (numFrames - 1)
  }

  // ---------------------------------------------------------------------
  // What a mesh vertex carries
  // ---------------------------------------------------------------------

  /** Three history indices: the vertex's own, then the two others of its triangle. */
  datatype Triple = Triple(own: nat, next: nat, last: nat)

  function Slot(t: Triple, c: nat): nat
    requires c < 3
  {
    if c == 0 then t.own else if c == 1 then t.next else t.last
  }

  /** The r-th cyclic rotation of a triple. */
  function Rotation(t: Triple, r: nat): Triple
    requires r < 3
  {
    if r == 0 then t
    else if r == 1 then Triple(t.next, t.last, t.own)
    else Triple(t.last, t.own, t.next)
  }

  /**
   * The two triangles of a segment, with i0, i1 the entries of v0, v1 at
   * offset f and i2 = i0 + 1, i3 = i1 + 1 at offset f + 1:
   * (i0, i1, i2) and (i1, i3, i2).
   */
  function SegmentTriangle(i0: nat, i1: nat, tri: nat): Triple
    requires tri < 2
  {
    if tri == 0 then Triple(i0, i1, i0 + 1) else Triple(i1, i1 + 1, i0 + 1)
  }

  /** A mesh vertex: the history indices it carries, and the source vertex whose uv it copies. */
  datatype RibbonVertex = RibbonVertex(triple: Triple, endpoint: nat)

  // ---------------------------------------------------------------------
  // The buffers as the builder lays them out: edge by edge, frame pair by
  // frame pair, six vertices per segment.
  // ---------------------------------------------------------------------

  /**
   * The six vertices of segment (edge, f), in the order the builder writes
   * them: triangle (i0, i1, i2) with the uvs of v0, v1, v0, then triangle
   * (i1, i3, i2) with the uvs of v1, v1, v0.
   */
  function SegmentVertices(edge: Edge, numFrames: nat, f: nat): (r: seq<RibbonVertex>)
    ensures |r| == 6
  {
    var i0, i1 := FlatIndex(edge.v0, f, numFrames), FlatIndex(edge.v1, f, numFrames);
    var i2, i3 := i0 + 1, i1 + 1;
    [RibbonVertex(Triple(i0, i1, i2), edge.v0),
     RibbonVertex(Triple(i1, i2, i0), edge.v1),
     RibbonVertex(Triple(i2, i0, i1), edge.v0),
     RibbonVertex(Triple(i1, i3, i2), edge.v1),
     RibbonVertex(Triple(i3, i2, i1), edge.v1),
     RibbonVertex(Triple(i2, i1, i3), edge.v0)]
  }

  /** The vertices of one edge's first `count` segments (frame pairs 0 .. count - 1). */
  function EdgeVertices(edge: Edge, numFrames: nat, count: nat): (r: seq<RibbonVertex>)
    ensures |r| == 6 * count
  {
    if count == 0 then [] else EdgeVertices(edge, numFrames, count - 1) + SegmentVertices(edge, numFrames, count - 1)
  }

  /** Every vertex of the ribbon mesh, in buffer order. */
  function RibbonVertices(edges: seq<Edge>, numFrames: nat): (r: seq<RibbonVertex>)
    requires numFrames >= 1
    ensures |r| == 6 * SegmentCount(|edges|, numFrames)
  {
    if edges == [] then []
    else
      var n := |edges| - 1;
      assert SegmentCount(|edges|, numFrames) == SegmentCount(n, numFrames) + (numFrames - 1);
      RibbonVertices(edges[..n], numFrames) + EdgeVertices(edges[n], numFrames, numFrames - 1)
  }

  /** One more edge appends that edge's vertices. */
  lemma RibbonVerticesExtend(edges: seq<Edge>, numFrames: nat, e: nat)
    requires numFrames >= 1 && e < |edges|
    ensures RibbonVertices(edges[..e + 1], numFrames)
              == RibbonVertices(edges[..e], numFrames) + EdgeVertices(edges[e], numFrames, numFrames - 1)
  {
    assert edges[..e + 1][..e] == edges[..e];
  }

  // ---------------------------------------------------------------------
  // A reference definition by index arithmetic: vertex q belongs to
  // segment q / 6 = e * (numFrames - 1) + f, and is corner q % 6 of it.
  // ---------------------------------------------------------------------

  /** Where a mesh vertex sits: its edge, its frame pair and its corner (0..5) in the segment. */
  datatype Location = Location(edge: nat, frame: nat, corner: nat)

  function Locate(numEdges: nat, numFrames: nat, q: nat): (l: Location)
    requires numFrames >= 1 && q < 6 * SegmentCount(numEdges, numFrames)
    ensures l.edge < numEdges && l.frame < numFrames - 1 && l.corner < 6
    ensures q == 6 * (l.edge * (numFrames - 1) + l.frame) + l.corner
  {
    var segments := numFrames - 1;
    var seg := q / 6;
    DivBelow(q, SegmentCount(numEdges, numFrames), 6);
    DivBelow(seg, numEdges, segments);
    Location(seg / segments, seg % segments, q % 6)
  }

  /** Locate inverts the layout. */
  lemma LocateOf(numEdges: nat, numFrames: nat, e: nat, f: nat, k: nat)
    requires numFrames >= 1 && e < numEdges && f < numFrames - 1 && k < 6
    ensures 6 * (e * (numFrames - 1) + f) + k < 6 * SegmentCount(numEdges, numFrames)
    ensures Locate(numEdges, numFrames, 6 * (e * (numFrames - 1) + f) + k) == Location(e, f, k)
  {
    var segments := numFrames - 1;
    var seg := e * segments + f;
    FlatBelow(e, f, numEdges, segments);
    DivModOf(6 * seg + k, seg, k, 6);
    DivModOf(seg, e, f, segments);
  }

  /**
   * Corner k of segment (edge, f): corner r of triangle t carries the r-th
   * rotation of the triangle, and copies the uv of the source vertex its
   * own history index belongs to.
   */
  function CornerVertex(edge: Edge, numFrames: nat, f: nat, k: nat): RibbonVertex
    requires numFrames >= 1 && k < 6
  {
    var i0, i1 := FlatIndex(edge.v0, f, numFrames), FlatIndex(edge.v1, f, numFrames);
    var t := Rotation(SegmentTriangle(i0, i1, k / 3), k % 3);
    RibbonVertex(t, t.own / numFrames)
  }

  /** The reference: mesh vertex q is corner q % 6 of its segment. */
  function VertexAt(edges: seq<Edge>, numFrames: nat, q: nat): RibbonVertex
    requires numFrames >= 1 && q < 6 * SegmentCount(|edges|, numFrames)
  {
    var l := Locate(|edges|, numFrames, q);
    CornerVertex(edges[l.edge], numFrames, l.frame, l.corner)
  }

  // ---------------------------------------------------------------------
  // The builder's layout agrees with the reference
  // ---------------------------------------------------------------------

  /** The six vertices the builder writes for a segment are its six corners. */
  lemma SegmentVerticesAreCorners(edge: Edge, numFrames: nat, f: nat, k: nat)
    requires numFrames >= 1 && f < numFrames - 1 && k < 6
    ensures SegmentVertices(edge, numFrames, f)[k] == CornerVertex(edge, numFrames, f, k)
  {
    var _ := FlatIndex(edge.v0, f, numFrames);
    var _ := FlatIndex(edge.v0, f + 1, numFrames);
    var _ := FlatIndex(edge.v1, f, numFrames);
    var _ := FlatIndex(edge.v1, f + 1, numFrames);
  }

  /** Entry r of an edge's vertices is corner r % 6 of segment r / 6. */
  lemma {:induction false} EdgeVerticesAt(edge: Edge, numFrames: nat, count: nat, r: nat)
    requires numFrames >= 1 && count <= numFrames - 1 && r < 6 * count
    ensures r / 6 < numFrames - 1
    ensures EdgeVertices(edge, numFrames, count)[r] == CornerVertex(edge, numFrames, r / 6, r % 6)
  {
    var front, back := EdgeVertices(edge, numFrames, count - 1), SegmentVertices(edge, numFrames, count - 1);
    assert EdgeVertices(edge, numFrames, count) == front + back;
    if r < 6 * (count - 1) {
      assert (front + back)[r] == front[r];
      EdgeVerticesAt(edge, numFrames, count - 1, r);
    } else {
      var k := r - 6 * (count - 1);
      assert (front + back)[r] == back[k];
      DivModOf(r, count - 1, k, 6);
      SegmentVerticesAreCorners(edge, numFrames, count - 1, k);
    }
  }

  /** The reference places the vertices of a prefix of the edges as it does for all of them. */
  lemma VertexAtOfPrefix(edges: seq<Edge>, numFrames: nat, n: nat, q: nat)
    requires numFrames >= 1 && n <= |edges| && q < 6 * SegmentCount(n, numFrames)
    ensures q < 6 * SegmentCount(|edges|, numFrames)
    ensures VertexAt(edges[..n], numFrames, q) == VertexAt(edges, numFrames, q)
  {
    MulMonotone(n, |edges|, numFrames - 1);
    var l := Locate(n, numFrames, q);
    assert Locate(|edges|, numFrames, q) == l;
    assert edges[..n][l.edge] == edges[l.edge];
  }

  /** Past the vertices of all edges but the last, the reference walks the last edge's segments. */
  lemma VertexAtLastEdge(edges: seq<Edge>, numFrames: nat, r: nat)
    requires numFrames >= 1 && |edges| >= 1 && r < 6 * (numFrames - 1)
    ensures 6 * SegmentCount(|edges| - 1, numFrames) + r < 6 * SegmentCount(|edges|, numFrames)
    ensures VertexAt(edges, numFrames, 6 * SegmentCount(|edges| - 1, numFrames) + r)
              == CornerVertex(edges[|edges| - 1], numFrames, r / 6, r % 6)
  {
    var n := |edges| - 1;
    var f, k := r / 6, r % 6;
    assert 6 * SegmentCount(n, numFrames) + r == 6 * (n * (numFrames - 1) + f) + k;
    LocateOf(|edges|, numFrames, n, f, k);
  }

  /** The buffers the builder fills hold, at every vertex, what the reference says. */
  lemma {:induction false} RibbonVerticesAt(edges: seq<Edge>, numFrames: nat, q: nat)
    requires numFrames >= 1 && q < 6 * SegmentCount(|edges|, numFrames)
    ensures RibbonVertices(edges, numFrames)[q] == VertexAt(edges, numFrames, q)
    decreases |edges|
  {
    var n := |edges| - 1;
    var init := edges[..n];
    var base := 6 * SegmentCount(n, numFrames);
    var front, back := RibbonVertices(init, numFrames), EdgeVertices(edges[n], numFrames, numFrames - 1);
    assert RibbonVertices(edges, numFrames) == front + back;
    if q < base {
      assert (front + back)[q] == front[q];
      RibbonVerticesAt(init, numFrames, q);
      VertexAtOfPrefix(edges, numFrames, n, q);
    } else {
      assert (front + back)[q] == back[q - base];
      EdgeVerticesAt(edges[n], numFrames, numFrames - 1, q - base);
      VertexAtLastEdge(edges, numFrames, q - base);
    }
  }

  /** The vertices of a prefix of the edges are a prefix of the vertices. */
  lemma {:induction false} RibbonVerticesPrefix(edges: seq<Edge>, numFrames: nat, n: nat)
    requires numFrames >= 1 && n <= |edges|
    ensures 6 * SegmentCount(n, numFrames) <= |RibbonVertices(edges, numFrames)|
    ensures RibbonVertices(edges, numFrames)[..6 * SegmentCount(n, numFrames)] == RibbonVertices(edges[..n], numFrames)
    decreases |edges|
  {
    MulMonotone(n, |edges|, numFrames - 1);
    if n == |edges| {
      assert edges[..n] == edges;
    } else {
      var m := |edges| - 1;
      var init := edges[..m];
      var k := 6 * SegmentCount(n, numFrames);
      MulMonotone(n, m, numFrames - 1);
      RibbonVerticesPrefix(init, numFrames, n);
      var whole := RibbonVertices(edges, numFrames);
      assert whole == RibbonVertices(init, numFrames) + EdgeVertices(edges[m], numFrames, numFrames - 1);
      assert whole[..k] == RibbonVertices(init, numFrames)[..k];
      assert init[..n] == edges[..n];
    }
  }

  // ---------------------------------------------------------------------
  // Properties of the reference layout
  // ---------------------------------------------------------------------

  /** Within a segment, corners k, k + 1, k + 2 of a triangle carry rotations of one triple. */
  lemma CornersRotate(edge: Edge, numFrames: nat, f: nat, k: nat, r: nat)
    requires numFrames >= 1 && (k == 0 || k == 3) && r < 3
    ensures CornerVertex(edge, numFrames, f, k + r).triple == Rotation(CornerVertex(edge, numFrames, f, k).triple, r)
  {
    assert (k + r) / 3 == k / 3 && (k + r) % 3 == r && k % 3 == 0;
  }

  /** A vertex whose index is a multiple of 3 starts one of the two triangles of its segment. */
  lemma TriangleStart(m: nat, seg: nat, corner: nat)
    requires 3 * m == 6 * seg + corner && corner < 6
    ensures corner == 0 || corner == 3
  {
  }

  /** The three vertices of a triangle carry rotations of one triple. */
  lemma TriangleCornersRotate(edges: seq<Edge>, numFrames: nat, m: nat, r: nat)
    requires numFrames >= 1 && 3 * m + 2 < 6 * SegmentCount(|edges|, numFrames) && r < 3
    ensures VertexAt(edges, numFrames, 3 * m + r).triple == Rotation(VertexAt(edges, numFrames, 3 * m).triple, r)
  {
    var l := Locate(|edges|, numFrames, 3 * m);
    var seg := l.edge * (numFrames - 1) + l.frame;
    TriangleStart(m, seg, l.corner);
    assert 3 * m + r == 6 * seg + (l.corner + r);
    LocateOf(|edges|, numFrames, l.edge, l.frame, l.corner + r);
    CornersRotate(edges[l.edge], numFrames, l.frame, l.corner, r);
  }

  /**
   * Every index a vertex carries decodes, under the history layout, to an
   * endpoint of the vertex's edge at frame offset f or f + 1: it never
   * spills into another vertex's block of frames, and it stays below
   * numVertices * numFrames.
   */
  lemma HistoryIndexInEdgeBlock(edges: seq<Edge>, numFrames: nat, numVertices: nat, q: nat, c: nat)
    requires numFrames >= 1 && q < 6 * SegmentCount(|edges|, numFrames) && c < 3
    requires EdgesWithin(edges, numVertices)
    ensures var x, l := Slot(VertexAt(edges, numFrames, q).triple, c), Locate(|edges|, numFrames, q);
            && (x / numFrames == edges[l.edge].v0 || x / numFrames == edges[l.edge].v1)
            && (x % numFrames == l.frame || x % numFrames == l.frame + 1)
            && x < numVertices * numFrames
  {
    var l := Locate(|edges|, numFrames, q);
    var v0, v1, f := edges[l.edge].v0, edges[l.edge].v1, l.frame;
    var _ := FlatIndex(v0, f, numFrames);
    var _ := FlatIndex(v0, f + 1, numFrames);
    var _ := FlatIndex(v1, f, numFrames);
    var _ := FlatIndex(v1, f + 1, numFrames);
    FlatBelow(v0, f + 1, numVertices, numFrames);
    FlatBelow(v1, f + 1, numVertices, numFrames);
  }

  /** The uv a vertex copies is that of an endpoint of its own edge. */
  lemma UvFromOwnEdge(edges: seq<Edge>, numFrames: nat, q: nat)
    requires numFrames >= 1 && q < 6 * SegmentCount(|edges|, numFrames)
    ensures var w, l := VertexAt(edges, numFrames, q).endpoint, Locate(|edges|, numFrames, q);
            w == edges[l.edge].v0 || w == edges[l.edge].v1
  {
    var l := Locate(|edges|, numFrames, q);
    var v0, v1, f := edges[l.edge].v0, edges[l.edge].v1, l.frame;
    var _ := FlatIndex(v0, f, numFrames);
    var _ := FlatIndex(v0, f + 1, numFrames);
    var _ := FlatIndex(v1, f, numFrames);
    var _ := FlatIndex(v1, f + 1, numFrames);
  }

  /**
   * Every mesh vertex the builder writes copies the uv of the source vertex
   * its own (first) history index belongs to: i0, i2 take the uv of v0 and
   * i1, i3 that of v1.
   */
  lemma UvOfOwnIndex(edges: seq<Edge>, numFrames: nat, q: nat)
    requires numFrames >= 1 && q < |RibbonVertices(edges, numFrames)|
    ensures var v := RibbonVertices(edges, numFrames)[q];
            v.endpoint == v.triple.own / numFrames
  {
    RibbonVerticesAt(edges, numFrames, q);
  }

  // ---------------------------------------------------------------------
  // The draw range
  // ---------------------------------------------------------------------

  /** Math.floor(numEdges * value): the number of edges drawn at a density. */
  function Strokes(numEdges: nat, value: real): (r: int)
    ensures 0.0 <= value <= 1.0 ==> 0 <= r <= numEdges
    ensures value == 1.0 ==> r == numEdges
  {
    var x := numEdges as real * value;
    assert 0.0 <= value <= 1.0 ==> 0.0 <= x <= numEdges as real by {
      if 0.0 <= value <= 1.0 {
        RealProductNonNegative(numEdges as real, value);
        RealProductNonNegative(numEdges as real, 1.0 - value);
        assert numEdges as real - x == numEdges as real * (1.0 - value);
      }
    }
    x.Floor
  }

  /** A larger density never draws fewer edges. */
  lemma StrokesMonotone(numEdges: nat, a: real, b: real)
    requires a <= b
    ensures Strokes(numEdges, a) <= Strokes(numEdges, b)
  {
    RealProductNonNegative(numEdges as real, b - a);
    assert numEdges as real * b - numEdges as real * a == numEdges as real * (b - a);
  }

  /** Number of vertices drawn at a density: floor(numEdges * value) * numSegments * 6. */
  function DrawCount(numEdges: nat, numSegments: nat, value: real): (r: int)
    ensures 0.0 <= value <= 1.0 ==> 0 <= r <= 6 * (numEdges * numSegments)
    ensures value == 1.0 ==> r == 6 * (numEdges * numSegments)
  {
    var strokes := Strokes(numEdges, value);
    assert 0 <= strokes <= numEdges ==> 0 <= strokes * numSegments <= numEdges * numSegments by {
      if 0 <= strokes <= numEdges {
        MulMonotone(0, strokes, numSegments);
        MulMonotone(strokes, numEdges, numSegments);
      }
    }
    strokes * numSegments * 6
  }

  /** A larger density never draws fewer vertices. */
  lemma DrawCountMonotone(numEdges: nat, numSegments: nat, a: real, b: real)
    requires a <= b
    ensures DrawCount(numEdges, numSegments, a) <= DrawCount(numEdges, numSegments, b)
  {
    StrokesMonotone(numEdges, a, b);
    MulMonotone(Strokes(numEdges, a), Strokes(numEdges, b), numSegments);
  }

  /**
   * What a density draws is exactly the ribbons of the first
   * floor(numEdges * value) edges.
   */
  lemma DrawnVerticesAreFirstEdges(edges: seq<Edge>, numFrames: nat, value: real)
    requires numFrames >= 1 && 0.0 <= value <= 1.0
    ensures 0 <= DrawCount(|edges|, numFrames - 1, value) <= |RibbonVertices(edges, numFrames)|
    ensures RibbonVertices(edges, numFrames)[..DrawCount(|edges|, numFrames - 1, value)]
              == RibbonVertices(edges[..Strokes(|edges|, value)], numFrames)
  {
    var strokes := Strokes(|edges|, value);
    assert DrawCount(|edges|, numFrames - 1, value) == 6 * SegmentCount(strokes, numFrames);
    RibbonVerticesPrefix(edges, numFrames, strokes);
  }

  datatype DrawCountLimit = Unlimited | Limited(count: int)

  /** BufferGeometry.drawRange: the first vertex drawn and how many. */
  datatype DrawRange = DrawRange(start: int, count: DrawCountLimit)

  // ---------------------------------------------------------------------
  // Filling the buffers
  // ---------------------------------------------------------------------

  /** Mesh vertex q's three position entries hold t. */
  ghost predicate Holds(positions: array<int>, q: nat, t: Triple)
    reads positions
  {
    3 * q + 2 < positions.Length
    && positions[3 * q] == t.own && positions[3 * q + 1] == t.next && positions[3 * q + 2] == t.last
  }

  /** Mesh vertex q's two uv entries hold (u, v). */
  ghost predicate HoldsUv(uvs: array<real>, q: nat, u: real, v: real)
    reads uvs
  {
    2 * q + 1 < uvs.Length && uvs[2 * q] == u && uvs[2 * q + 1] == v
  }

  /** Mesh vertex q's entries in both buffers hold vertex v. */
  ghost predicate VertexWritten(positions: array<int>, uvs: array<real>, srcUvs: seq<real>, q: nat, v: RibbonVertex)
    reads positions, uvs
  {
    && 2 * v.endpoint + 1 < |srcUvs|
    && Holds(positions, q, v.triple)
    && HoldsUv(uvs, q, srcUvs[2 * v.endpoint], srcUvs[2 * v.endpoint + 1])
  }

  /**
   * The position half of one "triangle" block of the builder: vertices
   * q, q + 1, q + 2 get t and its two rotations; nothing else changes.
   */
  method WriteTrianglePositions(positions: array<int>, q: nat, t: Triple)
    requires 3 * q + 9 <= positions.Length
    modifies positions
    ensures Holds(positions, q, t) && Holds(positions, q + 1, Rotation(t, 1)) && Holds(positions, q + 2, Rotation(t, 2))
    ensures forall p :: 0 <= p < positions.Length && !(3 * q <= p < 3 * q + 9) ==> positions[p] == old(positions[p])
  {
    var base := 3 * q;
    positions[base + 0] := t.own;
    positions[base + 1] := t.next;
    positions[base + 2] := t.last;

    positions[base + 3] := t.next;
    positions[base + 4] := t.last;
    positions[base + 5] := t.own;

    positions[base + 6] := t.last;
    positions[base + 7] := t.own;
    positions[base + 8] := t.next;

    assert 3 * (q + 1) == base + 3 && 3 * (q + 2) == base + 6;
  }

  /**
   * The uv half of one "triangle" block: vertices q, q + 1, q + 2 get
   * (ua, va), (ub, vb), (uc, vc); nothing else changes.
   */
  method WriteTriangleUvs(uvs: array<real>, q: nat, ua: real, va: real, ub: real, vb: real, uc: real, vc: real)
    requires 2 * q + 6 <= uvs.Length
    modifies uvs
    ensures HoldsUv(uvs, q, ua, va) && HoldsUv(uvs, q + 1, ub, vb) && HoldsUv(uvs, q + 2, uc, vc)
    ensures forall p :: 0 <= p < uvs.Length && !(2 * q <= p < 2 * q + 6) ==> uvs[p] == old(uvs[p])
  {
    var uvBase := 2 * q;
    uvs[uvBase + 0] := ua;
    uvs[uvBase + 1] := va;

    uvs[uvBase + 2] := ub;
    uvs[uvBase + 3] := vb;

    uvs[uvBase + 4] := uc;
    uvs[uvBase + 5] := vc;

    assert 2 * (q + 1) == uvBase + 2 && 2 * (q + 2) == uvBase + 4;
  }

  /**
   * The body of the builder's inner loop for segment number segIndex, the
   * segment (edge, f): triangle 1, then triangle 2. The vertices written
   * before are kept, and the six new ones are SegmentVertices(edge, f).
   */
  method WriteSegment(positions: array<int>, uvs: array<real>, srcUvs: seq<real>, ghost before: seq<RibbonVertex>,
                      edge: Edge, numFrames: nat, f: nat, segIndex: nat,
                      i0: nat, i1: nat, u0: real, v0: real, u1: real, v1: real)
    requires |before| == 6 * segIndex
    requires 18 * segIndex + 18 <= positions.Length && 12 * segIndex + 12 <= uvs.Length
    requires 2 * edge.v0 + 1 < |srcUvs| && 2 * edge.v1 + 1 < |srcUvs|
    requires i0 == FlatIndex(edge.v0, f, numFrames) && i1 == FlatIndex(edge.v1, f, numFrames)
    requires u0 == srcUvs[2 * edge.v0] && v0 == srcUvs[2 * edge.v0 + 1]
    requires u1 == srcUvs[2 * edge.v1] && v1 == srcUvs[2 * edge.v1 + 1]
    requires forall q :: 0 <= q < |before| ==> VertexWritten(positions, uvs, srcUvs, q, before[q])
    modifies positions, uvs
    ensures forall q :: 0 <= q < |before| + 6 ==>
              VertexWritten(positions, uvs, srcUvs, q, (before + SegmentVertices(edge, numFrames, f))[q])
  {
    var i2 := i0 + 1;
    var i3 := i1 + 1;
    var first := 6 * segIndex;

    // Triangle 1
    WriteTrianglePositions(positions, first, Triple(i0, i1, i2));
    WriteTriangleUvs(uvs, first, u0, v0, u1, v1, u0, v0);
    // Triangle 2
    WriteTrianglePositions(positions, first + 3, Triple(i1, i3, i2));
    WriteTriangleUvs(uvs, first + 3, u1, v1, u1, v1, u0, v0);

    ghost var after := before + SegmentVertices(edge, numFrames, f);
    forall q | 0 <= q < |before| + 6
      ensures VertexWritten(positions, uvs, srcUvs, q, after[q])
    {
      if q < first {
        assert after[q] == before[q];
        assert 3 * q + 2 < 3 * first && 2 * q + 1 < 2 * first;
      } else if q < first + 3 {
        assert q == first || q == first + 1 || q == first + 2;
      } else {
        assert q == first + 3 || q == first + 3 + 1 || q == first + 3 + 2;
      }
    }
  }

  /**
   * The builder's inner loop for edge number e, (v0, v1): its segments for
   * frame pairs 0 .. numFrames - 2, each SegmentVertices(edge, f), after the
   * vertices already written.
   */
  method WriteEdge(positions: array<int>, uvs: array<real>, srcUvs: seq<real>, ghost before: seq<RibbonVertex>,
                   edge: Edge, numFrames: nat, numSegments: nat, e: nat, vertexIndex0: nat, vertexIndex1: nat)
    requires numSegments == numFrames - 1 && |before| == 6 * (e * numSegments)
    requires vertexIndex0 == edge.v0 && vertexIndex1 == edge.v1
    requires 18 * (e * numSegments + numSegments) <= positions.Length
    requires 12 * (e * numSegments + numSegments) <= uvs.Length
    requires 2 * edge.v0 + 1 < |srcUvs| && 2 * edge.v1 + 1 < |srcUvs|
    requires forall q :: 0 <= q < |before| ==> VertexWritten(positions, uvs, srcUvs, q, before[q])
    modifies positions, uvs
    ensures forall q :: 0 <= q < |before| + 6 * numSegments ==>
              VertexWritten(positions, uvs, srcUvs, q, (before + EdgeVertices(edge, numFrames, numSegments))[q])
  {
    var f := 0;
    while f < numSegments
      invariant 0 <= f <= numSegments
      invariant forall q :: 0 <= q < |before| + 6 * f ==>
                  VertexWritten(positions, uvs, srcUvs, q, (before + EdgeVertices(edge, numFrames, f))[q])
    {
      var segIndex := e * numSegments + f;

      var i0 := vertexIndex0 * numFrames + f;
      var i1 := vertexIndex1 * numFrames + f;

      var u0 := srcUvs[2 * vertexIndex0 + 0];
      var v0 := srcUvs[2 * vertexIndex0 + 1];
      var u1 := srcUvs[2 * vertexIndex1 + 0];
      var v1 := srcUvs[2 * vertexIndex1 + 1];

      WriteSegment(positions, uvs, srcUvs, before + EdgeVertices(edge, numFrames, f),
                   edge, numFrames, f, segIndex, i0, i1, u0, v0, u1, v1);
      assert before + EdgeVertices(edge, numFrames, f + 1)
          == (before + EdgeVertices(edge, numFrames, f)) + SegmentVertices(edge, numFrames, f);
      f := f + 1;
    }
  }

  /**
   * The buffer-filling part of createRibbonsGeometry for the given (already
   * selected) edges: numVertices = 3 * numEdges * 2 * (numFrames - 1) mesh
   * vertices, three position entries and two uv entries each, mesh vertex
   * q holding RibbonVertices(edges)[q] (which RibbonVerticesAt relates to
   * the reference VertexAt).
   */
  method BuildRibbonBuffers(srcUvs: seq<real>, edges: seq<Edge>, numFrames: nat)
    returns (positions: array<int>, uvs: array<real>)
    requires numFrames >= 1 && EdgesHaveUvs(edges, srcUvs)
    ensures fresh(positions) && fresh(uvs)
    ensures positions.Length == 18 * (|edges| * (numFrames - 1)) && uvs.Length == 12 * (|edges| * (numFrames - 1))
    ensures positions.Length == 3 * |RibbonVertices(edges, numFrames)| && uvs.Length == 2 * |RibbonVertices(edges, numFrames)|
    ensures forall q :: 0 <= q < |RibbonVertices(edges, numFrames)| ==>
              VertexWritten(positions, uvs, srcUvs, q, RibbonVertices(edges, numFrames)[q])
  {
    var edgesIndices := Flatten(edges);
    var numEdges := |edgesIndices| / 2;
    assert numEdges == |edges|;
    var numSegments := numFrames - 1;
    var numTriangles := numEdges * 2 * numSegments;
    var numVertices := 3 * numTriangles;
    assert numVertices == 6 * (numEdges * numSegments);
    positions := new int[numVertices * 3];
    uvs := new real[numVertices * 2];

    var e := 0;
    while e < numEdges
      invariant 0 <= e <= numEdges
      invariant e * numSegments <= numEdges * numSegments
      invariant forall q :: 0 <= q < 6 * (e * numSegments) ==>
                  VertexWritten(positions, uvs, srcUvs, q, RibbonVertices(edges[..e], numFrames)[q])
    {
      ghost var done := RibbonVertices(edges[..e], numFrames);
      var vertexIndex0 := edgesIndices[2 * e + 0];
      var vertexIndex1 := edgesIndices[2 * e + 1];
      assert e * numSegments + numSegments == (e + 1) * numSegments;
      MulMonotone(e + 1, numEdges, numSegments);
      WriteEdge(positions, uvs, srcUvs, done, edges[e], numFrames, numSegments, e, vertexIndex0, vertexIndex1);
      RibbonVerticesExtend(edges, numFrames, e);
      e := e + 1;
    }
    assert edges[..numEdges] == edges;
  }

  /**
   * What createRibbonsGeometry returns: the geometry (its two attribute
   * buffers and its draw range) and setDrawDensity, whose closure keeps
   * numEdges, numSegments and the current density.
   */
  class RibbonsGeometry {
    const numFrames: nat
    const edges: seq<Edge>
    const numEdges: nat
    const numSegments: nat
    const positions: array<int>
    const uvs: array<real>
    var drawDensity: real
    var drawRange: DrawRange

    /** A new geometry over the built buffers draws everything, at density 1. */
    constructor (edges: seq<Edge>, numFrames: nat, positions: array<int>, uvs: array<real>)
      requires numFrames >= 1
      ensures this.numFrames == numFrames && this.edges == edges && this.positions == positions && this.uvs == uvs
      ensures numEdges == |edges| && numSegments == numFrames - 1
      ensures drawDensity == 1.0 && drawRange == DrawRange(0, Unlimited)
    {
      this.numFrames := numFrames;
      this.edges := edges;
      this.numEdges := |edges|;
      this.numSegments := numFrames - 1;
      this.positions := positions;
      this.uvs := uvs;
      drawDensity := 1.0;
      drawRange := DrawRange(0, Unlimited);
    }

    /**
     * setDrawDensity: when the value differs from the current density,
     * record it and draw the first floor(numEdges * value) edges' segments;
     * the same value again changes nothing.
     */
    method SetDrawDensity(value: real)
      modifies this`drawDensity, this`drawRange
      ensures old(drawDensity) == value ==> drawDensity == old(drawDensity) && drawRange == old(drawRange)
      ensures old(drawDensity) != value ==>
                drawDensity == value && drawRange == DrawRange(0, Limited(DrawCount(numEdges, numSegments, value)))
    {
      if drawDensity != value {
        drawDensity := value;

        var numStrokes := (numEdges as real * value).Floor;
        drawRange := DrawRange(0, Limited(numStrokes * numSegments * 6));
      }
    }
  }

  /** A sub-multiset of edges with uvs has uvs for every edge. */
  lemma SubMultisetHasUvs(sel: seq<Edge>, all: seq<Edge>, srcUvs: seq<real>)
    requires multiset(sel) <= multiset(all) && EdgesHaveUvs(all, srcUvs)
    ensures EdgesHaveUvs(sel, srcUvs)
  {
    forall e | 0 <= e < |sel|
      ensures 2 * sel[e].v0 + 1 < |srcUvs| && 2 * sel[e].v1 + 1 < |srcUvs|
    {
      assert sel[e] in multiset(sel);
      assert sel[e] in all;
    }
  }

  /**
   * createRibbonsGeometry(srcGeometry, numFrames): selects 35% of the
   * filtered edges at random, then builds the ribbon buffers over them.
   */
  method CreateRibbonsGeometry<G>(srcGeometry: G, srcUvs: seq<real>, edgesOf: (G, real) -> seq<Edge>,
                                 random: seq<real>, numFrames: nat)
    returns (ribbons: RibbonsGeometry)
    requires numFrames >= 1
    requires ValidDraws(random, |edgesOf(srcGeometry, DefaultThresholdAngle)|)
    requires EdgesHaveUvs(edgesOf(srcGeometry, DefaultThresholdAngle), srcUvs)
    ensures fresh(ribbons) && fresh(ribbons.positions) && fresh(ribbons.uvs)
    ensures ribbons.edges == Selected(edgesOf(srcGeometry, DefaultThresholdAngle), ReduceRate, random)
    ensures ribbons.numFrames == numFrames && ribbons.numEdges == |ribbons.edges| && ribbons.numSegments == numFrames - 1
    ensures var vertices := RibbonVertices(ribbons.edges, numFrames);
            && ribbons.positions.Length == 3 * |vertices| && ribbons.uvs.Length == 2 * |vertices|
            && forall q :: 0 <= q < |vertices| ==> VertexWritten(ribbons.positions, ribbons.uvs, srcUvs, q, vertices[q])
    ensures ribbons.drawDensity == 1.0 && ribbons.drawRange == DrawRange(0, Unlimited)
  {
    var edges := GetIndicesForRandomEdges(srcGeometry, ReduceRate, edgesOf, random);
    SubMultisetHasUvs(edges, edgesOf(srcGeometry, DefaultThresholdAngle), srcUvs);
    var positions, uvs := BuildRibbonBuffers(srcUvs, edges, numFrames);
    ribbons := new RibbonsGeometry(edges, numFrames, positions, uvs);
  }

}
