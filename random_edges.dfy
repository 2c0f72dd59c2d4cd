/**
 * getIndicesForRandomEdges: the edge list of the mesh, filtered by a
 * dihedral-angle threshold, is shuffled in place and then truncated to a
 * fraction of its length. The filter itself (getIndicesForEdges) is not
 * part of this model: it is the parameter `edgesOf`.
 */
module RandomEdges {
  import opened FisherYates

  /** A mesh edge as the pair of its two vertex indices. */
  datatype Edge = Edge(v0: nat, v1: nat)

  /** The default dihedral-angle threshold of getIndicesForRandomEdges. */
  const DefaultThresholdAngle: real := 1.0

  /** Math.floor(reduceRate * n): how many edges are kept. */
  function KeepCount(reduceRate: real, n: nat): (k: nat)
    requires 0.0 <= reduceRate <= 1.0
    ensures k <= n
    ensures k as real <= reduceRate * n as real < k as real + 1.0
    ensures reduceRate == 0.0 ==> k == 0
    ensures reduceRate == 1.0 ==> k == n
  {
    var x := reduceRate * n as real;
    RealProductNonNegative(reduceRate, n as real);
    RealProductNonNegative(1.0 - reduceRate, n as real);
    assert n as real - x == (1.0 - reduceRate) * n as real;
    x.Floor
  }

  /**
   * The selection: the first KeepCount entries of the shuffled edge list.
   * It has floor(reduceRate * n) edges, all taken from the filtered list
   * without repetition beyond its own: it is a sub-multiset.
   */
  function Selected(edges: seq<Edge>, reduceRate: real, random: seq<real>): (r: seq<Edge>)
    requires 0.0 <= reduceRate <= 1.0 && ValidDraws(random, |edges|)
    ensures |r| == KeepCount(reduceRate, |edges|)
    ensures multiset(r) <= multiset(edges)
  {
    var shuffled := Shuffled(edges, random);
    ShuffledIsPermutation(edges, random);
    PrefixSubMultiset(shuffled, KeepCount(reduceRate, |edges|));
    shuffled[..KeepCount(reduceRate, |edges|)]
  }

  /** A prefix of a sequence is a sub-multiset of it. */
  lemma PrefixSubMultiset<T>(s: seq<T>, k: nat)
    requires k <= |s|
    ensures multiset(s[..k]) <= multiset(s)
  {
    assert s == s[..k] + s[k..];
  }

  /** A rate of 0 keeps nothing; a rate of 1 keeps a permutation of every edge. */
  lemma SelectedExtremes(edges: seq<Edge>, random: seq<real>)
    requires ValidDraws(random, |edges|)
    ensures Selected(edges, 0.0, random) == []
    ensures |Selected(edges, 1.0, random)| == |edges|
    ensures multiset(Selected(edges, 1.0, random)) == multiset(edges)
  {
    var shuffled := Shuffled(edges, random);
    ShuffledIsPermutation(edges, random);
    assert shuffled[..|edges|] == shuffled;
  }

  /**
   * getIndicesForRandomEdges(geometry, reduceRate, thresholdAngle = 1):
   * the filtered edges are put in a fresh array, shuffled in place, and the
   * array is cut down to floor(reduceRate * length) entries.
   */
  method GetIndicesForRandomEdges<G>(geometry: G, reduceRate: real, edgesOf: (G, real) -> seq<Edge>,
                                    random: seq<real>, thresholdAngle: real := DefaultThresholdAngle)
    returns (edges: seq<Edge>)
    requires 0.0 <= reduceRate <= 1.0
    requires ValidDraws(random, |edgesOf(geometry, thresholdAngle)|)
    ensures edges == Selected(edgesOf(geometry, thresholdAngle), reduceRate, random)
    ensures |edges| == KeepCount(reduceRate, |edgesOf(geometry, thresholdAngle)|)
    ensures multiset(edges) <= multiset(edgesOf(geometry, thresholdAngle))
  {
    var found := edgesOf(geometry, thresholdAngle);
    var a := new Edge[|found|](i requires 0 <= i < |found| => found[i]);
    assert a[..] == found;
    var _ := Shuffle(a, random);
    edges := a[..KeepCount(reduceRate, a.Length)];
  }
}
