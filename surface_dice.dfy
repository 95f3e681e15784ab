/**
 * The counting in `normalized_surface_dice`: the two arrays of surface
 * distances (a to b and b to a) are inputs, since they come from medpy's
 * surface-distance routine; what remains is splitting each array at the
 * threshold and one ratio.
 */
module SurfaceDice {
  import opened Wrappers

  /** `np.sum(d <= threshold)`: the distances within the threshold (a tie counts). */
  function CountWithin(d: seq<real>, threshold: real): (n: nat)
    ensures n <= |d|
  {
    if d == [] then 0
    else CountWithin(d[..|d| - 1], threshold) + (if d[|d| - 1] <= threshold then 1 else 0)
  }

  /** `np.sum(d > threshold)`: the distances beyond the threshold. */
  function CountBeyond(d: seq<real>, threshold: real): (n: nat)
    ensures n <= |d|
  {
    if d == [] then 0
    else CountBeyond(d[..|d| - 1], threshold) + (if d[|d| - 1] > threshold then 1 else 0)
  }

  /** The positions of the distances within the threshold. */
  function WithinIndices(d: seq<real>, threshold: real): set<nat> {
    set i: nat | i < |d| && d[i] <= threshold
  }

  /** The count is the number of positions whose distance is within the threshold. */
  lemma {:induction false} CountWithinIsCardinality(d: seq<real>, threshold: real)
    ensures CountWithin(d, threshold) == |WithinIndices(d, threshold)|
  {
    if d != [] {
      var init := d[..|d| - 1];
      CountWithinIsCardinality(init, threshold);
      var last: nat := |d| - 1;
      if d[last] <= threshold {
        assert WithinIndices(d, threshold) == WithinIndices(init, threshold) + {last};
      } else {
        assert WithinIndices(d, threshold) == WithinIndices(init, threshold);
      }
    }
  }

  /** Every distance is counted exactly once: as within the threshold or as beyond it. */
  lemma {:induction false} CountsPartition(d: seq<real>, threshold: real)
    ensures CountWithin(d, threshold) + CountBeyond(d, threshold) == |d|
  {
    if d != [] {
      CountsPartition(d[..|d| - 1], threshold);
    }
  }

  /** All distances are within the threshold exactly when the count is the whole array. */
  lemma {:induction false} AllWithin(d: seq<real>, threshold: real)
    ensures CountWithin(d, threshold) == |d| <==> forall i :: 0 <= i < |d| ==> d[i] <= threshold
  {
    if d != [] {
      var init := d[..|d| - 1];
      AllWithin(init, threshold);
      assert forall i :: 0 <= i < |init| ==> init[i] == d[i];
    }
  }

  /** No distance is within the threshold exactly when the count is zero. */
  lemma {:induction false} NoneWithin(d: seq<real>, threshold: real)
    ensures CountWithin(d, threshold) == 0 <==> forall i :: 0 <= i < |d| ==> d[i] > threshold
  {
    if d != [] {
      var init := d[..|d| - 1];
      NoneWithin(init, threshold);
      assert forall i :: 0 <= i < |init| ==> init[i] == d[i];
    }
  }

  /** Raising the threshold never lowers the count. */
  lemma {:induction false} CountWithinMonotone(d: seq<real>, t1: real, t2: real)
    requires t1 <= t2
    ensures CountWithin(d, t1) <= CountWithin(d, t2)
  {
    if d != [] {
      CountWithinMonotone(d[..|d| - 1], t1, t2);
    }
  }

  /** `tp_a`, `tp_b`, `fp` and `fn`. */
  datatype SurfaceCounts = SurfaceCounts(tpA: nat, tpB: nat, fp: nat, fn: nat)

  function Counts(aToB: seq<real>, bToA: seq<real>, threshold: real): (c: SurfaceCounts)
    ensures c.tpA + c.fp == |aToB| && c.tpB + c.fn == |bToA|
  {
    CountsPartition(aToB, threshold);
    CountsPartition(bToA, threshold);
    SurfaceCounts(CountWithin(aToB, threshold), CountWithin(bToA, threshold),
                  CountBeyond(aToB, threshold), CountBeyond(bToA, threshold))
  }

  /**
   * `normalized_surface_dice` given the two distance arrays. With both arrays
   * empty numpy divides 0 by 0 and returns NaN, written here as `None`.
   */
  function NormalizedSurfaceDice(aToB: seq<real>, bToA: seq<real>, threshold: real): (dc: Option<real>)
    ensures dc.None? <==> aToB == [] && bToA == []
    ensures dc.Some? ==> 0.0 <= dc.value <= 1.0
  {
    var c := Counts(aToB, bToA, threshold);
    var total := c.tpA + c.tpB + c.fp + c.fn;
    if total == 0 then None
    else
      var dc := (c.tpA + c.tpB) as real / total as real;
      RatioBounds(c.tpA + c.tpB, total);
      Some(dc)
  }

  lemma RatioBounds(n: nat, total: nat)
    requires 0 < total && n <= total
    ensures 0.0 <= n as real / total as real <= 1.0
  {
    assert n as real / total as real * total as real == n as real;
  }

  lemma RatioOneIff(n: nat, total: nat)
    requires 0 < total && n <= total
    ensures n as real / total as real == 1.0 <==> n == total
  {
    assert n as real / total as real * total as real == n as real;
  }

  lemma RatioZeroIff(n: nat, total: nat)
    requires 0 < total
    ensures n as real / total as real == 0.0 <==> n == 0
  {
    assert n as real / total as real * total as real == n as real;
  }

  lemma RatioMonotone(n1: nat, n2: nat, total: nat)
    requires 0 < total && n1 <= n2
    ensures n1 as real / total as real <= n2 as real / total as real
  {
    var q1 := n1 as real / total as real;
    var q2 := n2 as real / total as real;
    assert q1 * total as real == n1 as real;
    assert q2 * total as real == n2 as real;
    assert (q2 - q1) * total as real == (n2 - n1) as real;
  }

  /** The result is the fraction of all surface distances that lie within the threshold. */
  lemma SurfaceDiceIsWithinFraction(aToB: seq<real>, bToA: seq<real>, threshold: real)
    requires aToB != [] || bToA != []
    ensures NormalizedSurfaceDice(aToB, bToA, threshold)
         == Some((|WithinIndices(aToB, threshold)| + |WithinIndices(bToA, threshold)|) as real
                 / (|aToB| + |bToA|) as real)
  {
    CountWithinIsCardinality(aToB, threshold);
    CountWithinIsCardinality(bToA, threshold);
  }

  /** Swapping the images swaps tp_a with tp_b and fp with fn, and leaves the value unchanged. */
  lemma SurfaceDiceSymmetric(aToB: seq<real>, bToA: seq<real>, threshold: real)
    ensures var c := Counts(aToB, bToA, threshold);
            Counts(bToA, aToB, threshold) == SurfaceCounts(c.tpB, c.tpA, c.fn, c.fp)
    ensures NormalizedSurfaceDice(aToB, bToA, threshold) == NormalizedSurfaceDice(bToA, aToB, threshold)
  {
    var c := Counts(aToB, bToA, threshold);
    assert c.tpA + c.tpB + c.fp + c.fn == c.tpB + c.tpA + c.fn + c.fp;
  }

  /** The value is 1 exactly when no distance in either direction exceeds the threshold. */
  lemma SurfaceDiceOneIff(aToB: seq<real>, bToA: seq<real>, threshold: real)
    requires aToB != [] || bToA != []
    ensures NormalizedSurfaceDice(aToB, bToA, threshold) == Some(1.0) <==>
      (forall i :: 0 <= i < |aToB| ==> aToB[i] <= threshold) && (forall i :: 0 <= i < |bToA| ==> bToA[i] <= threshold)
  {
    AllWithin(aToB, threshold);
    AllWithin(bToA, threshold);
    var n := CountWithin(aToB, threshold) + CountWithin(bToA, threshold);
    var total := |aToB| + |bToA|;
    assert NormalizedSurfaceDice(aToB, bToA, threshold) == Some(n as real / total as real);
    RatioOneIff(n, total);
  }

  /** The value is 0 exactly when no distance in either direction is within the threshold. */
  lemma SurfaceDiceZeroIff(aToB: seq<real>, bToA: seq<real>, threshold: real)
    requires aToB != [] || bToA != []
    ensures NormalizedSurfaceDice(aToB, bToA, threshold) == Some(0.0) <==>
      (forall i :: 0 <= i < |aToB| ==> aToB[i] > threshold) && (forall i :: 0 <= i < |bToA| ==> bToA[i] > threshold)
  {
    NoneWithin(aToB, threshold);
    NoneWithin(bToA, threshold);
    var n := CountWithin(aToB, threshold) + CountWithin(bToA, threshold);
    var total := |aToB| + |bToA|;
    assert NormalizedSurfaceDice(aToB, bToA, threshold) == Some(n as real / total as real);
    RatioZeroIff(n, total);
  }

  /** A larger threshold never gives a smaller value. */
  lemma SurfaceDiceMonotone(aToB: seq<real>, bToA: seq<real>, t1: real, t2: real)
    requires aToB != [] || bToA != []
    requires t1 <= t2
    ensures NormalizedSurfaceDice(aToB, bToA, t1).value <= NormalizedSurfaceDice(aToB, bToA, t2).value
  {
    CountWithinMonotone(aToB, t1, t2);
    CountWithinMonotone(bToA, t1, t2);
    var n1 := CountWithin(aToB, t1) + CountWithin(bToA, t1);
    var n2 := CountWithin(aToB, t2) + CountWithin(bToA, t2);
    var total := |aToB| + |bToA|;
    assert NormalizedSurfaceDice(aToB, bToA, t1).value == n1 as real / total as real;
    assert NormalizedSurfaceDice(aToB, bToA, t2).value == n2 as real / total as real;
    RatioMonotone(n1, n2, total);
  }

  /** `spacing = None` becomes one 1 per axis of `a`; a given spacing is used as is. */
  function EffectiveSpacing(spacing: Option<seq<real>>, shape: seq<nat>): (r: seq<real>)
    ensures spacing.Some? ==> r == spacing.value
    ensures spacing.None? ==> |r| == |shape| && forall i :: 0 <= i < |r| ==> r[i] == 1.0
  {
    if spacing.Some? then spacing.value else seq(|shape|, _ => 1.0)
  }
}
