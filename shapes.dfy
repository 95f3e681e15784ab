/**
 * Spatial shapes and the resolution schedule of the NexToU encoder and decoder.
 *
 * Both constructors start from the patch size and divide it, axis by axis, by
 * every pooling kernel `strides[1:]` in turn, recording each stage's shape in
 * `img_shape_list` and its node count (the product of the shape) in
 * `n_size_list`. Shapes are sequences of naturals and kernels are positive, so
 * Python's floor division `//` is Dafny's `/`.
 */
module Shapes {

  /** The convolution the network is built from; it fixes the number of spatial axes. */
  datatype ConvOp = Conv2d | Conv3d

  /** Number of spatial axes: (h, w) for 2-d convolutions, (h, w, d) for 3-d ones. */
  function Rank(conv: ConvOp): nat {
    if conv == Conv2d then 2 else 3
  }

  /** Product of the entries, accumulated left to right as the source's `n = n * h` loops do. */
  function Prod(s: seq<int>): int {
    if s == [] then 1 else Prod(s[..|s| - 1]) * s[|s| - 1]
  }

  lemma MulMonotone(a: int, b: int, c: int, d: int)
    requires 0 <= a <= b && 0 <= c <= d
    ensures a * c <= b * d
  {
    assert a * c <= b * c;
    assert b * c <= b * d;
  }

  /** A non-zero multiple of a positive `b` is at least `b` away from zero. */
  lemma MulSignBound(x: int, b: int)
    requires b > 0
    ensures x >= 1 ==> x * b >= b
    ensures x <= -1 ==> x * b <= -b
  {
  }

  /** The product of a shape is never negative. */
  lemma {:induction false} ProdNonNegative(s: seq<nat>)
    ensures Prod(s) >= 0
  {
    if s != [] {
      ProdNonNegative(s[..|s| - 1]);
      MulMonotone(0, Prod(s[..|s| - 1]), 0, s[|s| - 1]);
    }
  }

  /** Products split over concatenation. */
  lemma {:induction false} ProdAppend(s: seq<int>, t: seq<int>)
    ensures Prod(s + t) == Prod(s) * Prod(t)
    decreases |t|
  {
    if t == [] {
      assert s + t == s;
    } else {
      var u := t[..|t| - 1];
      assert (s + t)[..|s + t| - 1] == s + u;
      ProdAppend(s, u);
      assert Prod(s + t) == Prod(s + u) * t[|t| - 1];
    }
  }

  /** A shape that is no larger on any axis has no larger product. */
  lemma {:induction false} ProdMonotone(s: seq<nat>, t: seq<nat>)
    requires |s| == |t|
    requires forall a :: 0 <= a < |s| ==> s[a] <= t[a]
    ensures Prod(s) <= Prod(t)
  {
    if s != [] {
      var n := |s| - 1;
      ProdMonotone(s[..n], t[..n]);
      ProdNonNegative(s[..n]);
      MulMonotone(Prod(s[..n]), Prod(t[..n]), s[n], t[n]);
    }
  }

  /** The pooling kernels the schedule divides by: Python's `strides[1:]`, empty for empty `strides`. */
  function PoolKernels(strides: seq<seq<int>>): (k: seq<seq<int>>)
    ensures |k| == if strides == [] then 0 else |strides| - 1
    ensures forall i :: 0 <= i < |k| ==> k[i] == strides[i + 1]
  {
    if strides == [] then [] else strides[1..]
  }

  /** Every kernel has one positive entry per spatial axis (the tuple unpacking `h_k, w_k(, d_k)`). */
  predicate PositiveKernels(rank: nat, kernels: seq<seq<int>>) {
    forall i :: 0 <= i < |kernels| ==>
      |kernels[i]| == rank && forall a :: 0 <= a < rank ==> kernels[i][a] > 0
  }

  /** One stage of the schedule: every axis floor-divided by the kernel's entry for it. */
  function DivAxes(shape: seq<nat>, kernel: seq<int>): (r: seq<nat>)
    requires |kernel| == |shape|
    requires forall a :: 0 <= a < |kernel| ==> kernel[a] > 0
    ensures |r| == |shape|
  {
    seq(|shape|, a requires 0 <= a < |shape| => shape[a] / kernel[a])
  }

  /** Each axis of `DivAxes` is the floor of the quotient: the largest `q` with `q * k <= h`. */
  lemma DivAxesIsFloor(shape: seq<nat>, kernel: seq<int>, a: nat)
    requires |kernel| == |shape| && a < |shape|
    requires forall a :: 0 <= a < |kernel| ==> kernel[a] > 0
    ensures DivAxes(shape, kernel)[a] * kernel[a] <= shape[a] < (DivAxes(shape, kernel)[a] + 1) * kernel[a]
  {
  }

  /** Entry `i` of `img_shape_list`: the patch after the first `i` pooling kernels. */
  function ShapeAt(patch: seq<nat>, kernels: seq<seq<int>>, i: nat): (r: seq<nat>)
    requires i <= |kernels| && PositiveKernels(|patch|, kernels)
    ensures |r| == |patch|
  {
    if i == 0 then patch else DivAxes(ShapeAt(patch, kernels, i - 1), kernels[i - 1])
  }

  /** The first `n + 1` entries of `img_shape_list`. */
  function Schedule(patch: seq<nat>, kernels: seq<seq<int>>, n: nat): (r: seq<seq<nat>>)
    requires n <= |kernels| && PositiveKernels(|patch|, kernels)
    ensures |r| == n + 1
    ensures forall i :: 0 <= i <= n ==> r[i] == ShapeAt(patch, kernels, i)
  {
    seq(n + 1, i requires 0 <= i <= n => ShapeAt(patch, kernels, i))
  }

  /**
   * The schedule loop of `NexToU_Encoder.__init__` (and, identically, of
   * `NexToU_Decoder.__init__`): one entry for the patch and one per pooling kernel;
   * `n_size_list[i]` is the node count of entry `i`.
   */
  method ComputeSchedule(conv: ConvOp, patchSize: seq<nat>, strides: seq<seq<int>>)
    returns (imgShapeList: seq<seq<nat>>, nSizeList: seq<int>)
    requires |patchSize| >= Rank(conv)
    requires PositiveKernels(Rank(conv), PoolKernels(strides))
    ensures imgShapeList == Schedule(patchSize[..Rank(conv)], PoolKernels(strides), |PoolKernels(strides)|)
    ensures |nSizeList| == |imgShapeList|
    ensures forall i :: 0 <= i < |nSizeList| ==> nSizeList[i] == Prod(imgShapeList[i])
  {
    var kernels := PoolKernels(strides);
    var patch := patchSize[..Rank(conv)];
    assert PositiveKernels(|patch|, kernels);
    var shape := patch;
    imgShapeList := [shape];
    nSizeList := [Prod(shape)];
    var i := 0;
    while i < |kernels|
      invariant 0 <= i <= |kernels|
      invariant shape == ShapeAt(patch, kernels, i)
      invariant imgShapeList == Schedule(patch, kernels, i)
      invariant |nSizeList| == i + 1
      invariant forall j :: 0 <= j <= i ==> nSizeList[j] == Prod(imgShapeList[j])
    {
      shape := DivAxes(shape, kernels[i]);
      assert shape == ShapeAt(patch, kernels, i + 1);
      imgShapeList := imgShapeList + [shape];
      assert imgShapeList == Schedule(patch, kernels, i + 1);
      nSizeList := nSizeList + [Prod(shape)];
      i := i + 1;
    }
  }

  /** Entry `i + 1` is entry `i` floor-divided, axis by axis, by kernel `i`. */
  lemma ScheduleStep(patch: seq<nat>, kernels: seq<seq<int>>, i: nat, a: nat)
    requires i < |kernels| && PositiveKernels(|patch|, kernels) && a < |patch|
    ensures ShapeAt(patch, kernels, i + 1)[a] == ShapeAt(patch, kernels, i)[a] / kernels[i][a]
  {
  }

  /** Later stages are no larger on any axis; in particular `img_min_shape`, the last entry, is the smallest. */
  lemma {:induction false} ScheduleNonIncreasing(patch: seq<nat>, kernels: seq<seq<int>>, i: nat, j: nat, a: nat)
    requires i <= j <= |kernels| && PositiveKernels(|patch|, kernels) && a < |patch|
    ensures ShapeAt(patch, kernels, j)[a] <= ShapeAt(patch, kernels, i)[a]
    decreases j - i
  {
    if i < j {
      ScheduleNonIncreasing(patch, kernels, i + 1, j, a);
      var r := ShapeAt(patch, kernels, i + 1)[a];
      var k := kernels[i][a];
      DivAxesIsFloor(ShapeAt(patch, kernels, i), kernels[i], a);
      MulMonotone(r, r, 1, k);
    }
  }

  /** The node counts `n_size_list` never grow from one stage to a later one. */
  lemma NodeCountsNonIncreasing(patch: seq<nat>, kernels: seq<seq<int>>, i: nat, j: nat)
    requires i <= j <= |kernels| && PositiveKernels(|patch|, kernels)
    ensures Prod(ShapeAt(patch, kernels, j)) <= Prod(ShapeAt(patch, kernels, i))
  {
    forall a | 0 <= a < |patch|
      ensures ShapeAt(patch, kernels, j)[a] <= ShapeAt(patch, kernels, i)[a]
    {
      ScheduleNonIncreasing(patch, kernels, i, j, a);
    }
    ProdMonotone(ShapeAt(patch, kernels, j), ShapeAt(patch, kernels, i));
  }
}
