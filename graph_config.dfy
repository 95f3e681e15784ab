/**
 * Hyper-parameter selection of the NexToU graph blocks: the settings of
 * `OptInit`, the pooling size chosen by `PoolDyGraphConv` and `PoolGrapher`,
 * and the k-list, dilation and shift chosen by `SwinGNNBlocks` and
 * `PoolGNNBlocks`. Only the integer bookkeeping is modelled; the modules these
 * settings configure (convolutions, KNN graphs, embeddings) are not.
 */
module GraphConfig {
  import opened Wrappers
  import opened Shapes

  /** Floor division by a positive divisor no larger than the dividend is at least 1 and does not overshoot. */
  lemma DivAtLeastOne(a: int, b: int)
    requires 0 < b <= a
    ensures a / b >= 1 && (a / b) * b <= a
  {
  }

  /** Dividing an exact multiple gives the other factor back. */
  lemma DivExact(q: int, b: int)
    requires b > 0
    ensures (q * b) / b == q
  {
    var d := (q * b) / b;
    var m := (q * b) % b;
    assert (q - d) * b == m;
    MulSignBound(q - d, b);
  }

  function Min(a: int, b: int): int {
    if a <= b then a else b
  }

  /** Sum of the entries (Python's `sum`). */
  function Sum(s: seq<int>): int {
    if s == [] then 0 else Sum(s[..|s| - 1]) + s[|s| - 1]
  }

  // ---------------------------------------------------------------------------
  // OptInit

  /**
   * The integer settings of `OptInit`, together with the two lists the encoder
   * and decoder attach to it afterwards (`img_min_shape`, `n_size_list`).
   */
  datatype Opt = Opt(
    poolOpKernelSizesLen: nat,
    blocks: seq<int>,
    reduceRatios: seq<int>,
    imgMinShape: seq<nat>,
    nSizeList: seq<int>)

  /**
   * `OptInit(pool_op_kernel_sizes_len=len)`: one block per stage, and reduce
   * ratios 16, 8, 4, 2 followed by ones. Python's `[1] * m` is empty for a
   * negative `m`, so there are always at least four reduce ratios.
   */
  function OptInit(poolOpKernelSizesLen: nat): (o: Opt)
    ensures o.poolOpKernelSizesLen == poolOpKernelSizesLen
    ensures |o.blocks| == poolOpKernelSizesLen
    ensures forall i :: 0 <= i < |o.blocks| ==> o.blocks[i] == 1
    ensures |o.reduceRatios| == if poolOpKernelSizesLen < 4 then 4 else poolOpKernelSizesLen
    ensures o.reduceRatios[0] == 16
    ensures forall i :: 0 <= i < |o.reduceRatios| ==> o.reduceRatios[i] >= 1
    ensures forall i, j :: 0 <= i <= j < |o.reduceRatios| ==> o.reduceRatios[j] <= o.reduceRatios[i]
    ensures forall i :: 0 <= i < |o.reduceRatios| - 1 && i < 3 ==> o.reduceRatios[i] == 2 * o.reduceRatios[i + 1]
    ensures forall i :: 4 <= i < |o.reduceRatios| ==> o.reduceRatios[i] == 1
  {
    var extra := if poolOpKernelSizesLen < 4 then 0 else poolOpKernelSizesLen - 4;
    Opt(poolOpKernelSizesLen,
        seq(poolOpKernelSizesLen, _ => 1),
        [16, 8, 4, 2] + seq(extra, _ => 1),
        [],
        [])
  }

  // ---------------------------------------------------------------------------
  // k-list, maximum dilation, shift

  function Distance(x: int, y: int): nat {
    if x >= y then x - y else y - x
  }

  /**
   * The index picked by `min(cands, key=lambda x: abs(x - target))`: a candidate
   * at least distance, and, because Python's `min` keeps the first of equal
   * keys, no earlier candidate is as near.
   */
  function FirstClosestIndex(cands: seq<int>, target: int): (i: nat)
    requires |cands| > 0
    ensures i < |cands|
    ensures forall j :: 0 <= j < |cands| ==> Distance(cands[i], target) <= Distance(cands[j], target)
    ensures forall j :: 0 <= j < i ==> Distance(cands[j], target) > Distance(cands[i], target)
    decreases |cands|
  {
    if |cands| == 1 then 0
    else
      var rest := FirstClosestIndex(cands[1..], target);
      if Distance(cands[0], target) <= Distance(cands[1..][rest], target) then 0 else rest + 1
  }

  /** `k_candidate_list`. */
  const KCandidates: seq<int> := [2, 4, 8, 16, 32]

  /** `max_k`: the candidate nearest to `max_num`. */
  function MaxK(maxNum: int): int {
    KCandidates[FirstClosestIndex(KCandidates, maxNum)]
  }

  /** `max_k` is a candidate no farther from `max_num` than any other, and the smaller one on a tie. */
  lemma MaxKIsNearestSmallerOnTie(maxNum: int)
    ensures MaxK(maxNum) in KCandidates
    ensures forall c :: c in KCandidates ==> Distance(MaxK(maxNum), maxNum) <= Distance(c, maxNum)
    ensures forall c :: c in KCandidates && Distance(c, maxNum) == Distance(MaxK(maxNum), maxNum) ==> MaxK(maxNum) <= c
  {
    var i := FirstClosestIndex(KCandidates, maxNum);
    var k := KCandidates[i];
    assert MaxK(maxNum) == k;
    forall c | c in KCandidates
      ensures Distance(k, maxNum) <= Distance(c, maxNum)
      ensures Distance(c, maxNum) == Distance(k, maxNum) ==> k <= c
    {
      var j :| 0 <= j < |KCandidates| && KCandidates[j] == c;
      if Distance(c, maxNum) == Distance(k, maxNum) {
        assert i <= j;
        KCandidatesIncreasing(i, j);
      }
    }
  }

  lemma KCandidatesIncreasing(i: nat, j: nat)
    requires i <= j < |KCandidates|
    ensures KCandidates[i] <= KCandidates[j]
  {
  }

  /** The candidate each range of `max_num` selects. */
  function ClosedFormK(maxNum: int): int {
    if maxNum <= 3 then 2 else if maxNum <= 6 then 4 else if maxNum <= 12 then 8 else if maxNum <= 24 then 16 else 32
  }

  /** The candidate `ClosedFormK` picks is no farther than any candidate, and strictly nearer than every smaller one. */
  lemma ClosedFormKNearest(maxNum: int, j: nat)
    requires j < |KCandidates|
    ensures Distance(ClosedFormK(maxNum), maxNum) <= Distance(KCandidates[j], maxNum)
    ensures KCandidates[j] < ClosedFormK(maxNum) ==> Distance(ClosedFormK(maxNum), maxNum) < Distance(KCandidates[j], maxNum)
  {
    var c := KCandidates[j];
    assert c == 2 || c == 4 || c == 8 || c == 16 || c == 32;
  }

  /** `max_k` in closed form: the ranges of `max_num` that select each candidate. */
  lemma MaxKClosedForm(maxNum: int)
    ensures MaxK(maxNum) == if maxNum <= 3 then 2 else if maxNum <= 6 then 4
                            else if maxNum <= 12 then 8 else if maxNum <= 24 then 16 else 32
  {
    var e := if maxNum <= 3 then 0 else if maxNum <= 6 then 1 else if maxNum <= 12 then 2 else if maxNum <= 24 then 3 else 4;
    assert KCandidates[e] == ClosedFormK(maxNum);
    var i := FirstClosestIndex(KCandidates, maxNum);
    ClosedFormKNearest(maxNum, i);
    if i <= e {
      KCandidatesIncreasing(i, e);
    }
  }

  /** Once `max_num` is at least 2, `max_k` is at most twice `max_num`. */
  lemma MaxKAtMostTwiceTarget(maxNum: int)
    requires maxNum >= 2
    ensures 2 <= MaxK(maxNum) <= 2 * maxNum
  {
    MaxKClosedForm(maxNum);
  }

  /** `max_num`: `H_min * W_min // 2` for 2-d networks, `H_min * W_min * D_min // 3` for 3-d ones. */
  function MaxNum(conv: ConvOp, imgMinShape: seq<nat>): int {
    if conv == Conv2d then Prod(imgMinShape) / 2 else Prod(imgMinShape) / 3
  }

  /** `min_k`: `max_num // 4` for 2-d networks, `max_num // 8` for 3-d ones. */
  function MinK(conv: ConvOp, imgMinShape: seq<nat>): int {
    if conv == Conv2d then MaxNum(conv, imgMinShape) / 4 else MaxNum(conv, imgMinShape) / 8
  }

  /** The multiple of `min_k` the k-list asks for at stage `i`: 1, 2, 2, 4, 8, then 16. */
  function KFactor(i: nat): nat {
    if i == 0 then 1 else if i <= 2 then 2 else if i == 3 then 4 else if i == 4 then 8 else 16
  }

  /**
   * `k_list`: five entries (or the first `len` of them) followed by `len - 5`
   * copies of the sixth; either way one entry per stage, each capped at `max_k`.
   */
  function KList(len: nat, minK: int, maxK: int): (ks: seq<int>)
    ensures |ks| == len
    ensures forall i :: 0 <= i < len ==> ks[i] == Min(minK * KFactor(i), maxK)
    ensures forall i :: 0 <= i < len ==> ks[i] <= maxK
    ensures minK >= 0 ==> forall i, j :: 0 <= i <= j < len ==> ks[i] <= ks[j]
  {
    var head := [Min(minK, maxK), Min(minK * 2, maxK), Min(minK * 2, maxK), Min(minK * 4, maxK), Min(minK * 8, maxK)];
    var ks := if len >= 5 then head + seq(len - 5, _ => Min(minK * 16, maxK)) else head[..len];
    assert forall i :: 0 <= i < len ==> ks[i] == Min(minK * KFactor(i), maxK);
    ScaledKFactorMonotone(minK);
    ks
  }

  /** With a non-negative `min_k`, the multiples the k-list asks for never decrease along the stages. */
  lemma ScaledKFactorMonotone(minK: int)
    ensures minK >= 0 ==> forall i: nat, j: nat :: i <= j ==> minK * KFactor(i) <= minK * KFactor(j)
  {
    if minK >= 0 {
      forall i: nat, j: nat | i <= j
        ensures minK * KFactor(i) <= minK * KFactor(j)
      {
        assert KFactor(i) <= KFactor(j);
        MulLeft(minK, KFactor(i), KFactor(j));
      }
    }
  }

  lemma MulLeft(m: int, x: int, y: int)
    requires m >= 0 && x <= y
    ensures m * x <= m * y
  {
    assert m * y - m * x == m * (y - x);
  }

  /** The k-list a block derives from `img_min_shape` and the stage count. */
  function KListFor(conv: ConvOp, imgMinShape: seq<nat>, len: nat): seq<int> {
    KList(len, MinK(conv, imgMinShape), MaxK(MaxNum(conv, imgMinShape)))
  }

  /** Python's `max` of a non-empty list. */
  function SeqMax(s: seq<int>): (m: int)
    requires |s| > 0
    ensures m in s
    ensures forall i :: 0 <= i < |s| ==> s[i] <= m
  {
    if |s| == 1 then s[0]
    else
      var m := SeqMax(s[..|s| - 1]);
      if s[|s| - 1] > m then s[|s| - 1] else m
  }

  /**
   * `max_dilation = prod(img_min_shape) // max(k_list)`: `max` of an empty list
   * raises ValueError, and a largest k of 0 (which happens exactly when
   * `min_k` is 0) raises ZeroDivisionError.
   */
  function MaxDilation(conv: ConvOp, imgMinShape: seq<nat>, len: nat): (r: Result<int>)
    requires |imgMinShape| == Rank(conv)
    ensures r.Err? <==> len == 0 || MinK(conv, imgMinShape) == 0
    ensures len == 0 ==> r == Err(ValueError)
    ensures len > 0 && MinK(conv, imgMinShape) == 0 ==> r == Err(ZeroDivisionError)
    ensures r.Ok? ==> r.value >= 1
    ensures r.Ok? ==> r.value * SeqMax(KListFor(conv, imgMinShape, len)) <= Prod(imgMinShape)
  {
    var ks := KListFor(conv, imgMinShape, len);
    if |ks| == 0 then Err(ValueError)
    else
      var top := SeqMax(ks);
      KListLargestEntry(conv, imgMinShape, len);
      if top == 0 then Err(ZeroDivisionError)
      else
        DivAtLeastOne(Prod(imgMinShape), top);
        Ok(Prod(imgMinShape) / top)
  }

  /**
   * The largest k is 0 exactly when `min_k` is 0, and never exceeds the node
   * count of `img_min_shape`, so a successful `max_dilation` is at least 1.
   */
  lemma KListLargestEntry(conv: ConvOp, imgMinShape: seq<nat>, len: nat)
    requires |imgMinShape| == Rank(conv) && len > 0
    ensures SeqMax(KListFor(conv, imgMinShape, len)) == 0 <==> MinK(conv, imgMinShape) == 0
    ensures 0 <= SeqMax(KListFor(conv, imgMinShape, len)) <= Prod(imgMinShape)
  {
    var ks := KListFor(conv, imgMinShape, len);
    var maxNum := MaxNum(conv, imgMinShape);
    var minK := MinK(conv, imgMinShape);
    var top := SeqMax(ks);
    ProdNonNegative(imgMinShape);
    MaxKClosedForm(maxNum);
    assert top >= ks[0] == Min(minK, MaxK(maxNum));
    if minK == 0 {
      assert forall i :: 0 <= i < len ==> ks[i] == 0;
    } else {
      MaxKAtMostTwiceTarget(maxNum);
    }
  }

  /** `shift_size`: every window axis halved (rounded down). */
  function ShiftSize(windowSize: seq<nat>): (s: seq<nat>)
    ensures |s| == |windowSize|
    ensures forall a :: 0 <= a < |s| ==> 2 * s[a] <= windowSize[a] <= 2 * s[a] + 1
    ensures forall a :: 0 <= a < |s| ==> windowSize[a] > 0 ==> s[a] < windowSize[a]
  {
    seq(|windowSize|, a requires 0 <= a < |windowSize| => windowSize[a] / 2)
  }

  // ---------------------------------------------------------------------------
  // Pooling size (PoolDyGraphConv, PoolGrapher)

  /** `n_small`: the product of `h_small * 4` over `img_min_shape`, accumulated as the loop does. */
  function QuadrupledProd(s: seq<int>): int {
    if s == [] then 1 else QuadrupledProd(s[..|s| - 1]) * s[|s| - 1] * 4
  }

  function Pow4(n: nat): int {
    if n == 0 then 1 else 4 * Pow4(n - 1)
  }

  /** `n_small` is `4 ** rank` times the node count of `img_min_shape`. */
  lemma {:induction false} QuadrupledProdIsScaled(s: seq<int>)
    ensures QuadrupledProd(s) == Pow4(|s|) * Prod(s)
  {
    if s != [] {
      var init := s[..|s| - 1];
      QuadrupledProdIsScaled(init);
      calc {
        QuadrupledProd(s);
        QuadrupledProd(init) * s[|s| - 1] * 4;
        Pow4(|init|) * Prod(init) * s[|s| - 1] * 4;
        { assert Prod(s) == Prod(init) * s[|s| - 1]; }
        (4 * Pow4(|init|)) * Prod(s);
      }
    }
  }

  /**
   * The `pool_size` comprehension: when the stage is large enough (`shrink`),
   * 2 on every even axis and 1 on every odd one; otherwise 1 everywhere.
   */
  function PoolSizeRule(imgShape: seq<nat>, shrink: bool): (p: seq<nat>)
    ensures |p| == |imgShape|
    ensures forall a :: 0 <= a < |p| ==> p[a] == 1 || p[a] == 2
    ensures forall a :: 0 <= a < |p| ==> (p[a] == 2 <==> shrink && imgShape[a] % 2 == 0)
  {
    if shrink then seq(|imgShape|, a requires 0 <= a < |imgShape| => if imgShape[a] % 2 == 0 then 2 else 1)
    else seq(|imgShape|, _ => 1)
  }

  /** Dividing every axis by a kernel entry that divides it exactly divides the node count by the kernel's product. */
  lemma {:induction false} ExactDivAxesProd(shape: seq<nat>, kernel: seq<nat>)
    requires |kernel| == |shape|
    requires forall a :: 0 <= a < |kernel| ==> kernel[a] > 0 && shape[a] % kernel[a] == 0
    ensures Prod(DivAxes(shape, kernel)) * Prod(kernel) == Prod(shape)
  {
    if shape != [] {
      var n := |shape| - 1;
      var q := DivAxes(shape, kernel);
      assert DivAxes(shape[..n], kernel[..n]) == q[..n];
      ExactDivAxesProd(shape[..n], kernel[..n]);
      assert q[n] * kernel[n] == shape[n];
      calc {
        Prod(q) * Prod(kernel);
        (Prod(q[..n]) * q[n]) * (Prod(kernel[..n]) * kernel[n]);
        (Prod(q[..n]) * Prod(kernel[..n])) * (q[n] * kernel[n]);
        Prod(shape[..n]) * shape[n];
      }
    }
  }

  /** Every pooling entry divides its axis, so the pooled node count is exact. */
  lemma PoolSizeDividesShape(imgShape: seq<nat>, shrink: bool)
    ensures Prod(DivAxes(imgShape, PoolSizeRule(imgShape, shrink))) * Prod(PoolSizeRule(imgShape, shrink)) == Prod(imgShape)
  {
    ExactDivAxesProd(imgShape, PoolSizeRule(imgShape, shrink));
  }

  /** A pooling size of ones and twos has a positive product. */
  lemma {:induction false} PoolSizeProdPositive(p: seq<nat>)
    requires forall a :: 0 <= a < |p| ==> p[a] == 1 || p[a] == 2
    ensures Prod(p) >= 1
  {
    if p != [] {
      PoolSizeProdPositive(p[..|p| - 1]);
    }
  }

  /** The `n = n * h` loop. */
  method ProductLoop(s: seq<int>) returns (p: int)
    ensures p == Prod(s)
  {
    p := 1;
    var i := 0;
    while i < |s|
      invariant 0 <= i <= |s|
      invariant p == Prod(s[..i])
    {
      assert s[..i + 1][..i] == s[..i];
      p := p * s[i];
      i := i + 1;
    }
    assert s[..|s|] == s;
  }

  /** The `n_small = n_small * h_small * 4` loop. */
  method QuadrupledProductLoop(s: seq<int>) returns (p: int)
    ensures p == QuadrupledProd(s)
  {
    p := 1;
    var i := 0;
    while i < |s|
      invariant 0 <= i <= |s|
      invariant p == QuadrupledProd(s[..i])
    {
      assert s[..i + 1][..i] == s[..i];
      p := p * s[i] * 4;
      i := i + 1;
    }
    assert s[..|s|] == s;
  }

  /**
   * `PoolDyGraphConv.__init__`'s choice of `pool_size`: pool by 2 on the even
   * axes only when the stage has more nodes than `4 ** rank` times the smallest
   * stage. The pooling size then divides the node count.
   */
  method PoolSize(imgShape: seq<nat>, imgMinShape: seq<nat>) returns (poolSize: seq<nat>)
    ensures poolSize == PoolSizeRule(imgShape, Prod(imgShape) > Pow4(|imgMinShape|) * Prod(imgMinShape))
    ensures Prod(DivAxes(imgShape, poolSize)) * Prod(poolSize) == Prod(imgShape)
  {
    var n := ProductLoop(imgShape);
    var nSmall := QuadrupledProductLoop(imgMinShape);
    QuadrupledProdIsScaled(imgMinShape);
    poolSize := PoolSizeRule(imgShape, n > nSmall);
    PoolSizeDividesShape(imgShape, n > nSmall);
  }

  /**
   * `PoolGrapher.__init__`: the same `pool_size`, and `self.n = n // p_num`,
   * which is exact and equals the node count of the pooled input that
   * `PoolGrapher.forward` computes, so `_get_relative_pos` keeps the stored
   * embedding instead of interpolating it.
   */
  method PoolGrapherNodes(imgShape: seq<nat>, imgMinShape: seq<nat>) returns (poolSize: seq<nat>, n: int)
    ensures poolSize == PoolSizeRule(imgShape, Prod(imgShape) > Pow4(|imgMinShape|) * Prod(imgMinShape))
    ensures n * Prod(poolSize) == Prod(imgShape)
    ensures n == Prod(DivAxes(imgShape, poolSize))
  {
    poolSize := PoolSize(imgShape, imgMinShape);
    n := ProductLoop(imgShape);
    var pNum := ProductLoop(poolSize);
    PoolSizeProdPositive(poolSize);
    PoolSizeDividesShape(imgShape, Prod(imgShape) > Pow4(|imgMinShape|) * Prod(imgMinShape));
    var q := Prod(DivAxes(imgShape, poolSize));
    assert n == q * pNum;
    DivExact(q, pNum);
    n := n / pNum;
  }

  // ---------------------------------------------------------------------------
  // SwinGNNBlocks and PoolGNNBlocks

  /** The arguments one `SwinGNNBlocks` block passes to its `SwinGrapher`. */
  datatype SwinGrapherArgs = SwinGrapherArgs(
    imgShape: seq<nat>,
    k: int,
    dilation: int,
    r: int,
    n: int,
    windowSize: seq<nat>,
    shiftSize: seq<nat>)

  /** The arguments one `PoolGNNBlocks` block passes to its `PoolGrapher`, with the pooling it derives. */
  datatype PoolGrapherArgs = PoolGrapherArgs(
    imgShape: seq<nat>,
    k: int,
    dilation: int,
    r: int,
    nArg: int,
    poolSize: seq<nat>,
    n: int)

  /** `img_min_shape` has one entry per spatial axis and block counts are not negative (OptInit sets them all to 1). */
  predicate WellFormedOpt(conv: ConvOp, opt: Opt) {
    && |opt.imgMinShape| == Rank(conv)
    && forall t :: 0 <= t < |opt.blocks| ==> opt.blocks[t] >= 0
  }

  lemma {:induction false} SumNonNegative(s: seq<int>)
    requires forall t :: 0 <= t < |s| ==> s[t] >= 0
    ensures Sum(s) >= 0
  {
    if s != [] {
      SumNonNegative(s[..|s| - 1]);
    }
  }

  /** What `SwinGNNBlocks(..., index, opt)` needs to index `blocks` and `k_list` without IndexError. */
  predicate SwinIndexInRange(opt: Opt, index: int) {
    0 <= index < |opt.blocks| && index < opt.poolOpKernelSizesLen
  }

  /** What `PoolGNNBlocks(..., index, stage_num, opt)` needs to index its lists without IndexError. */
  predicate PoolIndexInRange(opt: Opt, index: int, stageNum: int) {
    && 0 <= index < |opt.blocks|
    && 0 <= index + stageNum
    && index + stageNum < opt.poolOpKernelSizesLen
    && index + stageNum < |opt.reduceRatios|
    && index + stageNum < |opt.nSizeList|
  }

  /** The arguments block `j` of stage `index` passes to `SwinGrapher`, given the stage's `max_dilation`. */
  predicate SwinBlock(b: SwinGrapherArgs, conv: ConvOp, imgShape: seq<nat>, index: int, opt: Opt, j: int, maxDilation: int)
    requires WellFormedOpt(conv, opt) && SwinIndexInRange(opt, index)
  {
    && b.imgShape == imgShape
    && b.k == KListFor(conv, opt.imgMinShape, opt.poolOpKernelSizesLen)[index]
    && b.dilation == Min((Sum(opt.blocks[..index]) + j) / 4 + 1, maxDilation)
    && 1 <= b.dilation <= maxDilation
    && b.r == 1
    && b.windowSize == opt.imgMinShape
    && b.n == Prod(opt.imgMinShape)
    && b.shiftSize == ShiftSize(opt.imgMinShape)
  }

  /** The loop body of `SwinGNNBlocks.__init__`: the `SwinGrapher` of block `j`, windowed on `img_min_shape`. */
  method NewSwinBlock(conv: ConvOp, imgShape: seq<nat>, index: int, opt: Opt, j: nat, maxDilation: int)
    returns (block: SwinGrapherArgs)
    requires WellFormedOpt(conv, opt) && SwinIndexInRange(opt, index)
    requires maxDilation >= 1
    ensures SwinBlock(block, conv, imgShape, index, opt, j, maxDilation)
  {
    var sumBlocks := Sum(opt.blocks[..index]);
    SumNonNegative(opt.blocks[..index]);
    var kList := KListFor(conv, opt.imgMinShape, opt.poolOpKernelSizesLen);
    var windowSize := opt.imgMinShape;
    var idx := sumBlocks + j;
    var dilation := Min(idx / 4 + 1, maxDilation);
    assert 1 <= dilation <= maxDilation;
    block := SwinGrapherArgs(imgShape, kList[index], dilation, 1,
                             Prod(windowSize), windowSize, ShiftSize(windowSize));
  }

  /** `SwinGNNBlocks.__init__`: one `SwinGrapher` per block of stage `index`. */
  method SwinGnnBlocks(conv: ConvOp, imgShape: seq<nat>, index: int, opt: Opt)
    returns (r: Result<seq<SwinGrapherArgs>>)
    requires WellFormedOpt(conv, opt)
    requires SwinIndexInRange(opt, index)
    ensures r.Err? <==> MaxDilation(conv, opt.imgMinShape, opt.poolOpKernelSizesLen).Err?
    ensures r.Err? ==> r.error == MaxDilation(conv, opt.imgMinShape, opt.poolOpKernelSizesLen).error
    ensures r.Ok? ==> |r.value| == opt.blocks[index]
    ensures r.Ok? ==> forall j :: 0 <= j < |r.value| ==>
      SwinBlock(r.value[j], conv, imgShape, index, opt, j, MaxDilation(conv, opt.imgMinShape, opt.poolOpKernelSizesLen).value)
  {
    var maxDilation :- MaxDilation(conv, opt.imgMinShape, opt.poolOpKernelSizesLen);
    var blocks: seq<SwinGrapherArgs> := [];
    var j := 0;
    while j < opt.blocks[index]
      invariant 0 <= j <= opt.blocks[index] && |blocks| == j
      invariant forall t :: 0 <= t < j ==> SwinBlock(blocks[t], conv, imgShape, index, opt, t, maxDilation)
    {
      var block := NewSwinBlock(conv, imgShape, index, opt, j, maxDilation);
      blocks := blocks + [block];
      j := j + 1;
    }
    r := Ok(blocks);
  }

  /** The arguments block `j` of stage `index` passes to `PoolGrapher`, given the stage's `max_dilation`. */
  predicate PoolBlock(b: PoolGrapherArgs, conv: ConvOp, imgShape: seq<nat>, index: int, stageNum: int, opt: Opt,
                      j: int, maxDilation: int)
    requires WellFormedOpt(conv, opt) && PoolIndexInRange(opt, index, stageNum)
  {
    && b.imgShape == imgShape
    && b.k == KListFor(conv, opt.imgMinShape, opt.poolOpKernelSizesLen)[index + stageNum]
    && b.dilation == Min((Sum(opt.blocks[..index]) + j) / 4 + 1, maxDilation)
    && 1 <= b.dilation <= maxDilation
    && b.r == opt.reduceRatios[index + stageNum]
    && b.nArg == opt.nSizeList[index + stageNum]
    && b.poolSize == PoolSizeRule(imgShape, Prod(imgShape) > Pow4(|opt.imgMinShape|) * Prod(opt.imgMinShape))
    && b.n * Prod(b.poolSize) == Prod(imgShape)
  }

  /** The loop body of `PoolGNNBlocks.__init__`: the `PoolGrapher` of block `j`. */
  method NewPoolBlock(conv: ConvOp, imgShape: seq<nat>, index: int, stageNum: int, opt: Opt, j: nat, maxDilation: int)
    returns (block: PoolGrapherArgs)
    requires WellFormedOpt(conv, opt) && PoolIndexInRange(opt, index, stageNum)
    requires maxDilation >= 1
    ensures PoolBlock(block, conv, imgShape, index, stageNum, opt, j, maxDilation)
  {
    var sumBlocks := Sum(opt.blocks[..index]);
    SumNonNegative(opt.blocks[..index]);
    var kList := KListFor(conv, opt.imgMinShape, opt.poolOpKernelSizesLen);
    var idx := sumBlocks + j;
    var dilation := Min(idx / 4 + 1, maxDilation);
    assert 1 <= dilation <= maxDilation;
    var poolSize, n := PoolGrapherNodes(imgShape, opt.imgMinShape);
    block := PoolGrapherArgs(imgShape, kList[index + stageNum], dilation,
                             opt.reduceRatios[index + stageNum], opt.nSizeList[index + stageNum], poolSize, n);
  }

  /**
   * `PoolGNNBlocks.__init__`: one `PoolGrapher` per block of stage `index`,
   * reading `k_list`, `reduce_ratios` and `n_size_list` at `index + stage_num`.
   */
  method PoolGnnBlocks(conv: ConvOp, imgShape: seq<nat>, index: int, stageNum: int, opt: Opt)
    returns (r: Result<seq<PoolGrapherArgs>>)
    requires WellFormedOpt(conv, opt)
    requires PoolIndexInRange(opt, index, stageNum)
    ensures r.Err? <==> MaxDilation(conv, opt.imgMinShape, opt.poolOpKernelSizesLen).Err?
    ensures r.Err? ==> r.error == MaxDilation(conv, opt.imgMinShape, opt.poolOpKernelSizesLen).error
    ensures r.Ok? ==> |r.value| == opt.blocks[index]
    ensures r.Ok? ==> forall j :: 0 <= j < |r.value| ==>
      PoolBlock(r.value[j], conv, imgShape, index, stageNum, opt, j, MaxDilation(conv, opt.imgMinShape, opt.poolOpKernelSizesLen).value)
  {
    var maxDilation :- MaxDilation(conv, opt.imgMinShape, opt.poolOpKernelSizesLen);
    var blocks: seq<PoolGrapherArgs> := [];
    var j := 0;
    while j < opt.blocks[index]
      invariant 0 <= j <= opt.blocks[index] && |blocks| == j
      invariant forall t :: 0 <= t < j ==> PoolBlock(blocks[t], conv, imgShape, index, stageNum, opt, t, maxDilation)
    {
      var block := NewPoolBlock(conv, imgShape, index, stageNum, opt, j, maxDilation);
      blocks := blocks + [block];
      j := j + 1;
    }
    r := Ok(blocks);
  }
}
