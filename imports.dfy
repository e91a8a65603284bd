/** Geometry helpers of imports.py: coordinate rows and the angle-pair index set. */
module Imports {

  /** One atom position (x, y, z): one row of a conformation table. */
  datatype Vec3 = Vec3(x: real, y: real, z: real) {
    function Plus(o: Vec3): Vec3 { Vec3(x + o.x, y + o.y, z + o.z) }
    function Scale(s: real): Vec3 { Vec3(s * x, s * y, s * z) }
  }

  const Zero := Vec3(0.0, 0.0, 0.0)

  /** A pair of row indices, as produced by `itertools.combinations`. */
  type Pair = (nat, nat)

  /** `angles_between(vec1, vec2)`: the angle in degrees between two vectors.
      Its arccos/degrees arithmetic is floating point and is not modelled;
      the model takes the function as a parameter. */
  type AngleFn = (Vec3, Vec3) -> real

  /** Strict lexicographic order on index pairs. */
  predicate LexLess(a: Pair, b: Pair) {
    a.0 < b.0 || (a.0 == b.0 && a.1 < b.1)
  }

  /** The pairs (lo, j) for lo < j < hi, in increasing j. */
  function Row(lo: nat, hi: nat): (r: seq<Pair>)
    ensures |r| == if lo < hi then hi - lo - 1 else 0
    ensures forall p :: p in r <==> p.0 == lo && lo < p.1 < hi
    ensures forall a, b :: 0 <= a < b < |r| ==> r[a].0 == r[b].0 == lo && r[a].1 < r[b].1
  {
    if lo < hi then
      var r: seq<Pair> := seq(hi - lo - 1, k => (lo, lo + 1 + k));
      assert forall k :: 0 <= k < |r| ==> r[k] == (lo, lo + 1 + k);
      assert forall p: Pair :: p.0 == lo && lo < p.1 < hi ==> r[p.1 - lo - 1] == p;
      r
    else
      []
  }

  /** `itertools.combinations(range(lo, hi), 2)`: one row per first index,
      rows in increasing first index. */
  function Combinations(lo: nat, hi: nat): (c: seq<Pair>)
    ensures forall k :: 0 <= k < |c| ==> lo <= c[k].0 < c[k].1 < hi
    decreases hi - lo
  {
    if lo + 1 >= hi then [] else Row(lo, hi) + Combinations(lo + 1, hi)
  }

  lemma {:induction false} CombinationsMembers(lo: nat, hi: nat)
    ensures forall p :: p in Combinations(lo, hi) <==> lo <= p.0 < p.1 < hi
    decreases hi - lo
  {
    if lo + 1 < hi {
      CombinationsMembers(lo + 1, hi);
      forall p: Pair | lo <= p.0 < p.1 < hi && p.0 == lo
        ensures p in Combinations(lo, hi)
      {
        assert p in Row(lo, hi);
      }
    }
  }

  lemma {:induction false} CombinationsCount(lo: nat, hi: nat)
    ensures lo <= hi ==> 2 * |Combinations(lo, hi)| == (hi - lo) * (hi - lo - 1)
    decreases hi - lo
  {
    if lo + 1 < hi {
      CombinationsCount(lo + 1, hi);
      var m := hi - lo;
      assert |Combinations(lo, hi)| == (m - 1) + |Combinations(lo + 1, hi)|;
      assert (m - 1) * (m - 2) + 2 * (m - 1) == m * (m - 1);
    }
  }

  lemma {:induction false} CombinationsSorted(lo: nat, hi: nat)
    ensures forall a, b :: 0 <= a < b < |Combinations(lo, hi)| ==>
      LexLess(Combinations(lo, hi)[a], Combinations(lo, hi)[b])
    decreases hi - lo
  {
    if lo + 1 < hi {
      CombinationsSorted(lo + 1, hi);
      var row, rest := Row(lo, hi), Combinations(lo + 1, hi);
      var c := row + rest;
      assert Combinations(lo, hi) == c;
      forall a, b | 0 <= a < b < |c| ensures LexLess(c[a], c[b]) {
        if b < |row| {
          assert c[a] == row[a] && c[b] == row[b];
        } else if a < |row| {
          assert c[a] == row[a] && c[b] == rest[b - |row|];
        } else {
          assert c[a] == rest[a - |row|] && c[b] == rest[b - |row|];
        }
      }
    }
  }

  /** `get_pair_idx(conformation_info)`: all 2-combinations of the row indices
      1 .. n-1 of an n-row table, skipping the origin row 0. Only the row
      count of the table matters. */
  function GetPairIdx(conformation: seq<Vec3>): (r: seq<Pair>)
    ensures forall p :: p in r <==> 1 <= p.0 < p.1 < |conformation|
    ensures forall p :: p in r ==> p.0 != 0 && p.1 != 0
    ensures |conformation| >= 1 ==> |r| == (|conformation| - 1) * (|conformation| - 2) / 2
    ensures |conformation| <= 2 ==> r == []
    ensures forall a, b :: 0 <= a < b < |r| ==> LexLess(r[a], r[b]) && r[a] != r[b]
  {
    CombinationsMembers(1, |conformation|);
    CombinationsSorted(1, |conformation|);
    CombinationsCount(1, |conformation|);
    Combinations(1, |conformation|)
  }

  /** Only the row count of the table matters, not its coordinates. */
  lemma PairIdxRowCountOnly(a: seq<Vec3>, b: seq<Vec3>)
    requires |a| == |b|
    ensures GetPairIdx(a) == GetPairIdx(b)
  {
  }

  /** The default argument of `get_pair_idx`: a 5 x 3 table of zeros. */
  function DefaultConformation(): (t: seq<Vec3>)
    ensures |t| == 5
  {
    [Zero, Zero, Zero, Zero, Zero]
  }

  lemma DefaultPairIdx()
    ensures GetPairIdx(DefaultConformation()) == [(1, 2), (1, 3), (1, 4), (2, 3), (2, 4), (3, 4)]
  {
  }
}
