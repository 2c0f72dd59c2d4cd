/**
 * createHistoryPass: a float texture that keeps every vertex's position for
 * the last numFrames ticks, [vertex][frame offset], offset 0 the newest.
 * Each tick a rotate pass acts like JavaScript's unshift(): the newest
 * position goes to offset 0 and every older entry moves one offset up,
 * translated by the tick's shift; the entry at offset numFrames - 1 drops
 * out. The texture is a pair of render targets of the GPU compute helper,
 * which renders into the alternate one and then swaps them. A reset flag,
 * set at creation and by setNeedsReset, makes the next update first run
 * the init pass on both targets. The init shader's output is taken to be
 * the current position at every offset (Baseline); the shader's text is
 * not part of this model.
 *
 * Positions are vectors of reals: the model is exact where the GPU
 * computes in floating point.
 */
module HistoryPass {
  import opened TexelMath

  datatype Vec3 = Vec3(x: real, y: real, z: real)

  const Origin := Vec3(0.0, 0.0, 0.0)

  function Add(a: Vec3, b: Vec3): Vec3
  {
    Vec3(a.x + b.x, a.y + b.y, a.z + b.z)
  }

  /** The position of every vertex read from the position map this tick. */
  type PositionMap = seq<Vec3>

  /** History contents: h[v][j] is vertex v as it was j ticks ago. */
  type History = seq<seq<Vec3>>

  /** numVertices rows of numFrames entries each. */
  predicate Shaped(h: History, numVertices: nat, numFrames: nat)
  {
    |h| == numVertices && forall v :: 0 <= v < |h| ==> |h[v]| == numFrames
  }

  /** A history holding the same value everywhere (the library's zero-filled initial texture). */
  function Filled(value: Vec3, numVertices: nat, numFrames: nat): (h: History)
    ensures Shaped(h, numVertices, numFrames)
  {
    seq(numVertices, v => seq(numFrames, j => value))
  }

  /** The reset baseline: every frame offset holds the current position. */
  function Baseline(src: PositionMap, numFrames: nat): (h: History)
    ensures Shaped(h, |src|, numFrames)
  {
    seq(|src|, v requires 0 <= v < |src| => seq(numFrames, j => src[v]))
  }

  /** One rotate pass: newest position at offset 0, older entries move up by one and are shifted. */
  function Rotate(prev: History, src: PositionMap, shift: Vec3, numFrames: nat): (h: History)
    requires Shaped(prev, |src|, numFrames)
    ensures Shaped(h, |src|, numFrames)
  {
    seq(|src|, v requires 0 <= v < |src| =>
      seq(numFrames, j requires 0 <= j < numFrames =>
        if j == 0 then src[v] else Add(prev[v][j - 1], shift)))
  }

  /** The sum of a sequence of shifts. */
  function ShiftSum(shifts: seq<Vec3>): Vec3
  {
    if shifts == [] then Origin else Add(ShiftSum(shifts[..|shifts| - 1]), shifts[|shifts| - 1])
  }

  predicate ShapedMaps(srcs: seq<PositionMap>, numVertices: nat)
  {
    forall t :: 0 <= t < |srcs| ==> |srcs[t]| == numVertices
  }

  /** The history after one rotate pass per tick, tick t reading srcs[t] and shifts[t]. */
  function Run(h0: History, srcs: seq<PositionMap>, shifts: seq<Vec3>, numVertices: nat, numFrames: nat): (h: History)
    requires Shaped(h0, numVertices, numFrames) && ShapedMaps(srcs, numVertices) && |shifts| == |srcs|
    ensures Shaped(h, numVertices, numFrames)
    decreases |srcs|
  {
    if srcs == [] then h0
    else
      var t := |srcs| - 1;
      Rotate(Run(h0, srcs[..t], shifts[..t], numVertices, numFrames), srcs[t], shifts[t], numFrames)
  }

  /**
   * After t ticks, offset j < t holds the position read j ticks ago plus
   * every shift applied since (the shift compounds over the window); an
   * offset j >= t still holds the entry that started at offset j - t, plus
   * all t shifts.
   */
  lemma {:induction false} RunSlot(h0: History, srcs: seq<PositionMap>, shifts: seq<Vec3>,
                                   numVertices: nat, numFrames: nat, v: nat, j: nat)
    requires Shaped(h0, numVertices, numFrames) && ShapedMaps(srcs, numVertices) && |shifts| == |srcs|
    requires v < numVertices && j < numFrames
    ensures var h, t := Run(h0, srcs, shifts, numVertices, numFrames), |srcs|;
            h[v][j] == if j < t then Add(srcs[t - 1 - j][v], ShiftSum(shifts[t - j..]))
                       else Add(h0[v][j - t], ShiftSum(shifts))
    decreases |srcs|
  {
    var t := |srcs|;
    if t == 0 {
      assert shifts == [];
    } else {
      var srcs', shifts' := srcs[..t - 1], shifts[..t - 1];
      assert ShapedMaps(srcs', numVertices);
      var h' := Run(h0, srcs', shifts', numVertices, numFrames);
      var h := Run(h0, srcs, shifts, numVertices, numFrames);
      assert h == Rotate(h', srcs[t - 1], shifts[t - 1], numFrames);
      if j == 0 {
        assert shifts[t..] == [];
      } else {
        assert h[v][j] == Add(h'[v][j - 1], shifts[t - 1]);
        RunSlot(h0, srcs', shifts', numVertices, numFrames, v, j - 1);
        if j < t {
          var tail := shifts[t - j..];
          assert srcs'[t - 2 - (j - 1)] == srcs[t - 1 - j];
          assert tail[..|tail| - 1] == shifts'[t - 1 - (j - 1)..];
          assert ShiftSum(tail) == Add(ShiftSum(shifts'[t - 1 - (j - 1)..]), shifts[t - 1]);
        } else {
          assert ShiftSum(shifts) == Add(ShiftSum(shifts'), shifts[t - 1]);
        }
      }
    }
  }

  /** Shifts that are all zero add up to zero. */
  lemma {:induction false} ShiftSumZero(shifts: seq<Vec3>)
    requires forall t :: 0 <= t < |shifts| ==> shifts[t] == Origin
    ensures ShiftSum(shifts) == Origin
  {
    if shifts != [] {
      ShiftSumZero(shifts[..|shifts| - 1]);
    }
  }

  /**
   * A reset followed by t >= 1 ticks with zero shift: offset j holds the
   * position read j ticks ago when j < t, and the reset baseline (the
   * positions of the first tick) when j >= t.
   */
  lemma ResetThenTicks(srcs: seq<PositionMap>, shifts: seq<Vec3>, numVertices: nat, numFrames: nat, v: nat, j: nat)
    requires |srcs| >= 1 && ShapedMaps(srcs, numVertices) && |shifts| == |srcs|
    requires forall t :: 0 <= t < |shifts| ==> shifts[t] == Origin
    requires v < numVertices && j < numFrames
    ensures var t := |srcs|;
            Run(Baseline(srcs[0], numFrames), srcs, shifts, numVertices, numFrames)[v][j]
              == if j < t then srcs[t - 1 - j][v] else srcs[0][v]
  {
    var t := |srcs|;
    var h0 := Baseline(srcs[0], numFrames);
    assert |srcs[0]| == numVertices;
    RunSlot(h0, srcs, shifts, numVertices, numFrames, v, j);
    if j < t {
      ShiftSumZero(shifts[t - j..]);
      var x := srcs[t - 1 - j][v];
      assert Add(x, Origin) == x;
    } else {
      ShiftSumZero(shifts);
      assert h0[v][j - t] == srcs[0][v];
      assert Add(srcs[0][v], Origin) == srcs[0][v];
    }
  }

  /**
   * The history pass of createHistoryPass: the reset flag, the two render
   * targets of the compute helper and which of them is current.
   */
  class HistoryPassState {
    const numFrames: nat
    const numVertices: nat
    const mapWidth: nat
    const mapHeight: nat

    var shouldReset: bool
    var renderTarget0: History
    var renderTarget1: History
    var currentTextureIndex: nat

    ghost predicate Valid()
      reads this
    {
      && numFrames >= 1 && mapWidth >= 1
      && mapHeight == MapHeight(numVertices * numFrames, mapWidth)
      && currentTextureIndex < 2
      && Shaped(renderTarget0, numVertices, numFrames)
      && Shaped(renderTarget1, numVertices, numFrames)
    }

    /** getCurrentMap: the render target the last pass wrote. */
    function GetCurrentMap(): (h: History)
      reads this
      requires Valid()
      ensures Shaped(h, numVertices, numFrames)
    {
      if currentTextureIndex == 0 then renderTarget0 else renderTarget1
    }

    /** The other render target, the one the next pass writes. */
    function GetAlternateMap(): (h: History)
      reads this
      requires Valid()
      ensures Shaped(h, numVertices, numFrames)
    {
      if currentTextureIndex == 0 then renderTarget1 else renderTarget0
    }

    /**
     * createHistoryPass: the map is mapWidth texels wide (1024 unless
     * given) and tall enough for numVertices * numFrames texels; both
     * targets start zero-filled, and the first update resets.
     */
    constructor (numFrames: nat, numVertices: nat, mapWidth: nat := 1024)
      requires numFrames >= 1 && mapWidth >= 1
      ensures Valid()
      ensures this.numFrames == numFrames && this.numVertices == numVertices && this.mapWidth == mapWidth
      ensures numVertices * numFrames <= mapWidth * mapHeight
      ensures shouldReset
      ensures GetCurrentMap() == Filled(Origin, numVertices, numFrames)
      ensures GetAlternateMap() == Filled(Origin, numVertices, numFrames)
    {
      this.numFrames := numFrames;
      this.numVertices := numVertices;
      this.mapWidth := mapWidth;
      this.mapHeight := MapHeight(numVertices * numFrames, mapWidth);
      MapHeightFits(numVertices * numFrames, mapWidth);
      shouldReset := true;
      renderTarget0 := Filled(Origin, numVertices, numFrames);
      renderTarget1 := Filled(Origin, numVertices, numFrames);
      currentTextureIndex := 0;
    }

    /** init: the init pass renders the baseline into both render targets. */
    method Init(src: PositionMap)
      requires Valid() && |src| == numVertices
      modifies this`renderTarget0, this`renderTarget1
      ensures Valid()
      ensures GetCurrentMap() == Baseline(src, numFrames)
      ensures GetAlternateMap() == Baseline(src, numFrames)
    {
      renderTarget0 := Baseline(src, numFrames);
      renderTarget1 := Baseline(src, numFrames);
    }

    /**
     * The compute helper's compute(): the rotate pass reads the current
     * target and writes the alternate one, which then becomes current.
     */
    method Compute(src: PositionMap, shift: Vec3)
      requires Valid() && |src| == numVertices
      modifies this`renderTarget0, this`renderTarget1, this`currentTextureIndex
      ensures Valid()
      ensures GetCurrentMap() == Rotate(old(GetCurrentMap()), src, shift, numFrames)
      ensures GetAlternateMap() == old(GetCurrentMap())
    {
      var next := Rotate(GetCurrentMap(), src, shift, numFrames);
      if currentTextureIndex == 0 {
        renderTarget1 := next;
        currentTextureIndex := 1;
      } else {
        renderTarget0 := next;
        currentTextureIndex := 0;
      }
    }

    /**
     * update: when the reset flag is set, clear it and initialise both
     * targets; then run the rotate pass.
     */
    method Update(src: PositionMap, shift: Vec3)
      requires Valid() && |src| == numVertices
      modifies this
      ensures Valid()
      ensures !shouldReset
      ensures var prev := if old(shouldReset) then Baseline(src, numFrames) else old(GetCurrentMap());
              GetCurrentMap() == Rotate(prev, src, shift, numFrames) && GetAlternateMap() == prev
    {
      if shouldReset {
        shouldReset := false;
        Init(src);
      }
      Compute(src, shift);
    }

    /** setNeedsReset: the next update initialises the targets again. */
    method SetNeedsReset()
      modifies this`shouldReset
      ensures shouldReset
    {
      shouldReset := true;
    }
  }
}
