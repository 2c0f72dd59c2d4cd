/**
 * Integer arithmetic behind the two float textures of the trail effect:
 * the power-of-two map heights, the split of a texel index into a
 * (column, row) pair done by the ribbon shader, and the flattened
 * [vertex][frame] index of the position history.
 */
module TexelMath {

  // ---------------------------------------------------------------------
  // Division helpers (Dafny's / and % on nat agree with the source's
  // Math.floor / GLSL int division, since every operand here is >= 0).
  // ---------------------------------------------------------------------

  /** The quotient and remainder of q * d + r are q and r when 0 <= r < d. */
  lemma {:induction false} DivModOf(x: int, q: int, r: int, d: int)
    requires d > 0 && 0 <= r < d && x == q * d + r
    ensures x / d == q && x % d == r
  {
    var q', r' := x / d, x % d;
    assert x == q' * d + r';
    if q' < q {
      assert (q' + 1) * d == q' * d + d;
      MulMonotone(q' + 1, q, d);
    } else if q < q' {
      assert (q + 1) * d == q * d + d;
      MulMonotone(q + 1, q', d);
    }
  }

  /** Multiplying by a positive factor keeps the order. */
  lemma MulMonotone(a: int, b: int, d: int)
    requires a <= b && d >= 0
    ensures a * d <= b * d
  {
  }

  /** A number below n * d has a quotient below n. */
  lemma DivBelow(x: nat, n: nat, d: nat)
    requires d > 0 && x < n * d
    ensures x / d < n
  {
    var q := x / d;
    if q >= n {
      MulMonotone(n, q, d);
    }
  }

  /** v * F + j is below n * F when v < n and j < F. */
  lemma FlatBelow(v: nat, j: nat, n: nat, f: nat)
    requires v < n && j < f
    ensures v * f + j < n * f
  {
    MulMonotone(v + 1, n, f);
  }

  // ---------------------------------------------------------------------
  // Powers of two and THREE.MathUtils.ceilPowerOfTwo
  // ---------------------------------------------------------------------

  ghost predicate IsPowerOfTwo(n: nat)
    decreases n
  {
    n == 1 || (n >= 2 && n % 2 == 0 && IsPowerOfTwo(n / 2))
  }

  /** A power of two strictly below another power of two is at most its half. */
  lemma {:induction false} PowerOfTwoBelow(p: nat, q: nat)
    requires IsPowerOfTwo(p) && IsPowerOfTwo(q) && p < q
    ensures q >= 2 && p <= q / 2
    decreases q
  {
    if p > 1 {
      PowerOfTwoBelow(p / 2, q / 2);
    }
  }

  /** Doubling p until it reaches x; p stays below 2 * x. */
  function CeilPowerOfTwoFrom(x: nat, p: nat): (r: nat)
    requires IsPowerOfTwo(p) && p < 2 * x
    ensures IsPowerOfTwo(r) && x <= r < 2 * x
    decreases x - p
  {
    if p >= x then p else CeilPowerOfTwoFrom(x, 2 * p)
  }

  /**
   * THREE.MathUtils.ceilPowerOfTwo: 2 ^ ceil(log2 x). For x >= 1 this is the
   * least power of two that is at least x; for x == 0 the library computes
   * 2 ^ -Infinity, which is 0.
   */
  function CeilPowerOfTwo(x: nat): (r: nat)
    ensures x == 0 ==> r == 0
    ensures x >= 1 ==> IsPowerOfTwo(r) && x <= r < 2 * x
  {
    if x == 0 then 0 else CeilPowerOfTwoFrom(x, 1)
  }

  /** No power of two at least x is smaller than CeilPowerOfTwo(x). */
  lemma CeilPowerOfTwoIsLeast(x: nat, q: nat)
    requires x >= 1 && IsPowerOfTwo(q) && x <= q
    ensures CeilPowerOfTwo(x) <= q
  {
    var r := CeilPowerOfTwo(x);
    if q < r {
      PowerOfTwoBelow(q, r);
    }
  }

  /** Math.ceil(a / b) for a non-negative a and a positive b. */
  function CeilDiv(a: nat, b: nat): (r: nat)
    requires b > 0
    ensures a <= b * r && b * r < a + b
  {
    var q := a / b;
    assert b * (q + 1) == b * q + b;
    if a % b == 0 then q else q + 1
  }

  /**
   * Height of a float texture of the given width holding count texels:
   * ceilPowerOfTwo(ceil(count / width)).
   */
  function MapHeight(count: nat, width: nat): (h: nat)
    requires width > 0
    ensures count <= width * h
    ensures count == 0 <==> h == 0
  {
    var c := CeilDiv(count, width);
    var h := CeilPowerOfTwo(c);
    MulMonotone(c, h, width);
    assert c * width == width * c && h * width == width * h;
    h
  }

  /**
   * The map holds every texel, and it is the least power-of-two height that
   * does: half of it would be too small.
   */
  lemma MapHeightFits(count: nat, width: nat)
    requires width > 0
    ensures count <= width * MapHeight(count, width)
    ensures count == 0 ==> MapHeight(count, width) == 0
    ensures count > 0 ==> IsPowerOfTwo(MapHeight(count, width))
    ensures MapHeight(count, width) >= 2 ==> width * (MapHeight(count, width) / 2) < count
  {
    var c := CeilDiv(count, width);
    var h := MapHeight(count, width);
    MulMonotone(c, h, width);
    assert c * width == width * c && h * width == width * h;
    if h >= 2 {
      assert h / 2 < c;
      MulMonotone(h / 2 + 1, c, width);
      assert (h / 2 + 1) * width == (h / 2) * width + width;
    }
  }

  // ---------------------------------------------------------------------
  // Texel addressing
  // ---------------------------------------------------------------------

  /** A texel of a width-wide map: column and row. */
  datatype Texel = Texel(x: nat, y: nat)

  /**
   * Integer part of the ribbon shader's texCoordAt: an index goes to column
   * index % width and row index / width (before both are divided by the
   * map size to give a float coordinate).
   */
  function TexCoordAt(index: nat, width: nat): (t: Texel)
    requires width > 0
    ensures t.x < width
    ensures index == t.x + width * t.y
  {
    Texel(index % width, index / width)
  }

  /** The index a texel of a width-wide map stands for. */
  function IndexAt(t: Texel, width: nat): nat
  {
    t.x + width * t.y
  }

  /** TexCoordAt and IndexAt are inverse to each other. */
  lemma TexelRoundTrip(index: nat, t: Texel, width: nat)
    requires width > 0 && t.x < width
    ensures IndexAt(TexCoordAt(index, width), width) == index
    ensures TexCoordAt(IndexAt(t, width), width) == t
  {
    DivModOf(t.x + width * t.y, t.y, t.x, width);
  }

  /** Distinct indices are read from distinct texels. */
  lemma TexelsDistinct(i: nat, j: nat, width: nat)
    requires width > 0 && i != j
    ensures TexCoordAt(i, width) != TexCoordAt(j, width)
  {
  }

  /** An index below width * height lies on a row of the map. */
  lemma TexelInMap(index: nat, width: nat, height: nat)
    requires width > 0 && index < width * height
    ensures TexCoordAt(index, width).y < height
  {
    DivBelow(index, height, width);
  }

  // ---------------------------------------------------------------------
  // Flattened history index: vertexIndex * numFrames + frameOffset
  // ---------------------------------------------------------------------

  /**
   * The history entry of `vertex` at `frame`. The layout decodes: a
   * flattened index gives back its vertex and frame.
   */
  function FlatIndex(vertex: nat, frame: nat, numFrames: nat): (i: nat)
    ensures frame < numFrames ==> i / numFrames == vertex && i % numFrames == frame
  {
    var i := vertex * numFrames + frame;
    assert frame < numFrames ==> i / numFrames == vertex && i % numFrames == frame by {
      if frame < numFrames {
        DivModOf(i, vertex, frame, numFrames);
      }
    }
    i
  }

  /**
   * Every [vertex][frame] entry of a history map sized for numVertices
   * vertices and numFrames frames lands on a texel inside that map.
   */
  lemma HistoryTexelInMap(vertex: nat, frame: nat, numVertices: nat, numFrames: nat, width: nat)
    requires width > 0 && vertex < numVertices && frame < numFrames
    ensures TexCoordAt(FlatIndex(vertex, frame, numFrames), width).y
              < MapHeight(numVertices * numFrames, width)
  {
    FlatBelow(vertex, frame, numVertices, numFrames);
    MapHeightFits(numVertices * numFrames, width);
    TexelInMap(FlatIndex(vertex, frame, numFrames), width, MapHeight(numVertices * numFrames, width));
  }
}
