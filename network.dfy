/**
 * Layout of the NexToU encoder and decoder: which stages are plain residual
 * stacks and which append PoolGNN and SwinGNN blocks, what each block is
 * given (channels, stage shape, block index, stage offset), and how channels
 * and strides are wired from stage to stage. Each stage is recorded by its
 * channel, kernel, stride, block-count, pooling and GNN arguments; the GNN
 * blocks' own hyper-parameters are derived from those in `GraphConfig`.
 */
module Network {
  import opened Wrappers
  import opened Shapes
  import opened GraphConfig

  /** `pool_type`: 'conv' downsamples with the strided convolution, 'avg' and 'max' with a pooling op. */
  datatype PoolType = ConvPooling | AvgPooling | MaxPooling

  /** A `PoolGNNBlocks` or `SwinGNNBlocks` module, by the constructor arguments the layout depends on. */
  datatype GnnBlocks =
    | PoolGnn(channels: int, imgShape: seq<nat>, index: int, stageNum: int)
    | SwinGnn(channels: int, imgShape: seq<nat>, index: int)

  /** The default stem: one conv block from the input channels to `stem_channels`, without stride. */
  datatype Stem = Stem(inChannels: int, outChannels: int, kernelSize: seq<int>)

  /** One encoder stage: an optional pooling op, a `StackedResidualBlocks`, then its GNN blocks. */
  datatype EncoderStage = EncoderStage(
    pooling: Option<seq<int>>,
    residualBlocks: int,
    inChannels: int,
    outChannels: int,
    kernelSize: seq<int>,
    convStride: seq<int>,
    gnn: seq<GnnBlocks>)

  /** The constructor arguments of `NexToU_Encoder` that the layout depends on (lists given per stage). */
  datatype EncoderArgs = EncoderArgs(
    inputChannels: int,
    patchSize: seq<nat>,
    nStages: nat,
    featuresPerStage: seq<int>,
    conv: ConvOp,
    kernelSizes: seq<seq<int>>,
    strides: seq<seq<int>>,
    nBlocksPerStage: seq<int>,
    returnSkips: bool,
    disableDefaultStem: bool,
    stemChannels: Option<int>,
    poolType: PoolType)

  datatype Encoder = Encoder(
    conv: ConvOp,
    stem: Option<Stem>,
    stages: seq<EncoderStage>,
    outputChannels: seq<int>,
    strides: seq<seq<int>>,
    kernelSizes: seq<seq<int>>,
    returnSkips: bool,
    imgShapeList: seq<seq<nat>>,
    opt: Opt)

  /**
   * What the encoder constructor needs to build a network with GNN stages: its
   * length asserts, a patch and pooling kernels it can unpack, and at least four
   * stages. Below four stages `opt.blocks` has `n_stages` entries while stage `s`
   * reads entry `s + 4 - n_stages`: with no stage the default stem's
   * `kernel_sizes[0]` raises IndexError (a disabled stem gives an empty encoder);
   * with one or two stages the first stage reads past `blocks` (IndexError); with
   * three stages the first stage may raise the ZeroDivisionError of `max_dilation`
   * and otherwise the third reads past `blocks` (IndexError).
   */
  predicate ValidEncoderArgs(a: EncoderArgs) {
    && a.nStages >= 4
    && |a.kernelSizes| == a.nStages
    && |a.nBlocksPerStage| == a.nStages
    && |a.featuresPerStage| == a.nStages
    && |a.strides| == a.nStages
    && |a.patchSize| >= Rank(a.conv)
    && PositiveKernels(Rank(a.conv), PoolKernels(a.strides))
  }

  /** `n_size_list` as a function of `img_shape_list`. */
  function NodeCounts(shapes: seq<seq<nat>>): (ns: seq<int>)
    ensures |ns| == |shapes|
  {
    seq(|shapes|, i requires 0 <= i < |shapes| => Prod(shapes[i]))
  }

  /** The GNN blocks of encoder stage `s` of `n`: none below `n - 4`, else PoolGNN then SwinGNN. */
  function EncoderGnn(channels: int, imgShape: seq<nat>, n: int, s: int): (g: seq<GnnBlocks>)
    ensures g == [] <==> s < n - 4
    ensures g != [] ==> |g| == 2 && g[0].PoolGnn? && g[1].SwinGnn? && g[0].index == g[1].index == s - (n - 4)
  {
    if s < n - 4 then []
    else [PoolGnn(channels, imgShape, s - (n - 4), n - 4), SwinGnn(channels, imgShape, s - (n - 4))]
  }

  /** The scalar stride 1, broadcast to every spatial axis. */
  function Ones(rank: nat): (r: seq<int>)
    ensures |r| == rank && forall a :: 0 <= a < rank ==> r[a] == 1
  {
    seq(rank, _ => 1)
  }

  /** The channels stage 0 receives: the stem's output, or the network input when there is no stem. */
  function FirstInChannels(a: EncoderArgs): int
    requires |a.featuresPerStage| > 0
  {
    if a.disableDefaultStem then a.inputChannels
    else if a.stemChannels.Some? then a.stemChannels.value
    else a.featuresPerStage[0]
  }

  /** Encoder stage `s` in closed form. */
  function EncoderStageAt(a: EncoderArgs, imgShapeList: seq<seq<nat>>, s: nat): (st: EncoderStage)
    requires ValidEncoderArgs(a) && |imgShapeList| == a.nStages && s < a.nStages
    ensures st.gnn == [] <==> s < a.nStages - 4
    ensures st.residualBlocks == a.nBlocksPerStage[s] - (if st.gnn == [] then 0 else 1)
    ensures st.inChannels == if s == 0 then FirstInChannels(a) else a.featuresPerStage[s - 1]
    ensures st.outChannels == a.featuresPerStage[s]
  {
    var gnn := EncoderGnn(a.featuresPerStage[s], imgShapeList[s], a.nStages, s);
    EncoderStage(
      if a.poolType == ConvPooling then None else Some(a.strides[s]),
      a.nBlocksPerStage[s] - (if gnn == [] then 0 else 1),
      if s == 0 then FirstInChannels(a) else a.featuresPerStage[s - 1],
      a.featuresPerStage[s],
      a.kernelSizes[s],
      if a.poolType == ConvPooling then a.strides[s] else Ones(Rank(a.conv)),
      gnn)
  }

  /** What every encoder built by `NewEncoder` satisfies, stated on the encoder alone. */
  predicate EncoderInvariant(e: Encoder) {
    var n := |e.stages|;
    && n >= 4
    && |e.outputChannels| == n && |e.strides| == n && |e.kernelSizes| == n && |e.imgShapeList| == n
    && (forall i :: 0 <= i < n ==> |e.imgShapeList[i]| == Rank(e.conv))
    && e.opt == OptInit(n).(imgMinShape := e.imgShapeList[n - 1], nSizeList := NodeCounts(e.imgShapeList))
    && (forall s :: 0 <= s < n ==> e.stages[s].outChannels == e.outputChannels[s])
    && (forall s :: 0 <= s < n ==> e.stages[s].gnn == EncoderGnn(e.outputChannels[s], e.imgShapeList[s], n, s))
  }

  /**
   * The `opt` the constructor hands to every GNN block: `OptInit(len(strides))`
   * with the smallest shape of the schedule and its node counts.
   */
  predicate ScheduleOpt(conv: ConvOp, imgShapeList: seq<seq<nat>>, len: nat, opt: Opt) {
    && |imgShapeList| > 0
    && (forall i :: 0 <= i < |imgShapeList| ==> |imgShapeList[i]| == Rank(conv))
    && opt == OptInit(len).(imgMinShape := imgShapeList[|imgShapeList| - 1], nSizeList := NodeCounts(imgShapeList))
  }

  /** What the stage builders read of `opt`: the list lengths and `img_min_shape`'s rank. */
  predicate StageOpt(conv: ConvOp, len: nat, opt: Opt) {
    && |opt.imgMinShape| == Rank(conv)
    && opt.poolOpKernelSizesLen == len
    && |opt.blocks| == len
    && (forall t :: 0 <= t < len ==> opt.blocks[t] >= 0)
    && |opt.reduceRatios| >= len
    && |opt.nSizeList| == len
  }

  /**
   * The opening of both constructors: `img_shape_list` and `n_size_list` from
   * `patch_size` and `strides[1:]`, then `OptInit(len(strides))` given
   * `img_min_shape` and `n_size_list`.
   */
  method ScheduleAndOpt(conv: ConvOp, patchSize: seq<nat>, strides: seq<seq<int>>)
    returns (imgShapeList: seq<seq<nat>>, opt: Opt)
    requires |patchSize| >= Rank(conv) && PositiveKernels(Rank(conv), PoolKernels(strides)) && |strides| > 0
    ensures imgShapeList == Schedule(patchSize[..Rank(conv)], PoolKernels(strides), |PoolKernels(strides)|)
    ensures |imgShapeList| == |strides|
    ensures ScheduleOpt(conv, imgShapeList, |strides|, opt)
    ensures StageOpt(conv, |strides|, opt)
    ensures opt.imgMinShape == ShapeAt(patchSize[..Rank(conv)], PoolKernels(strides), |strides| - 1)
  {
    var nSizeList;
    imgShapeList, nSizeList := ComputeSchedule(conv, patchSize, strides);
    assert nSizeList == NodeCounts(imgShapeList);
    opt := OptInit(|strides|);
    opt := opt.(imgMinShape := imgShapeList[|imgShapeList| - 1]);
    opt := opt.(nSizeList := nSizeList);
  }

  /**
   * A GNN stage's `PoolGNNBlocks` followed by its `SwinGNNBlocks`. Both compute
   * the same `max_dilation`, so the pair raises exactly when `min_k` is 0, and
   * once `PoolGNNBlocks` is built `SwinGNNBlocks` cannot fail.
   */
  method BuildGnnPair(conv: ConvOp, len: nat, opt: Opt, channels: int, imgShape: seq<nat>,
                      poolIndex: int, stageNum: int, swinIndex: int)
    returns (r: Result<seq<GnnBlocks>>)
    requires StageOpt(conv, len, opt) && len > 0
    requires PoolIndexInRange(opt, poolIndex, stageNum) && SwinIndexInRange(opt, swinIndex)
    ensures r.Err? <==> MinK(conv, opt.imgMinShape) == 0
    ensures r.Err? ==> r.error == ZeroDivisionError
    ensures r.Ok? ==> r.value == [PoolGnn(channels, imgShape, poolIndex, stageNum), SwinGnn(channels, imgShape, swinIndex)]
  {
    var poolBlocks :- PoolGnnBlocks(conv, imgShape, poolIndex, stageNum, opt);
    var swinBlocks := SwinGnnBlocks(conv, imgShape, swinIndex, opt);
    assert swinBlocks.Ok?;
    r := Ok([PoolGnn(channels, imgShape, poolIndex, stageNum), SwinGnn(channels, imgShape, swinIndex)]);
  }

  /**
   * One pass of the constructor's stage loop: the branch on `n_conv_stages` and
   * `no_pool_gnn_stage_num`, and the pooling op in front when `pool_type` is not 'conv'.
   * With `n_swin_gnn_stages` fixed at 0 the SwinGNN-only branch cannot be taken.
   * A GNN stage constructs its `PoolGNNBlocks` and `SwinGNNBlocks`, which raise
   * when `max_dilation` cannot be computed.
   */
  method BuildEncoderStage(a: EncoderArgs, imgShapeList: seq<seq<nat>>, opt: Opt, inputChannels: int, s: nat)
    returns (r: Result<EncoderStage>)
    requires ValidEncoderArgs(a) && |imgShapeList| == a.nStages && s < a.nStages
    requires StageOpt(a.conv, a.nStages, opt)
    requires inputChannels == if s == 0 then FirstInChannels(a) else a.featuresPerStage[s - 1]
    ensures r.Err? <==> s >= a.nStages - 4 && MinK(a.conv, opt.imgMinShape) == 0
    ensures r.Err? ==> r.error == ZeroDivisionError
    ensures r.Ok? ==> r.value == EncoderStageAt(a, imgShapeList, s)
  {
    var nSwinGnnStages := 0;
    var noPoolGnnStageNum := a.nStages - 4;
    var nConvStages := noPoolGnnStageNum - nSwinGnnStages;
    var pooling := if a.poolType == ConvPooling then None else Some(a.strides[s]);
    var strideForConv := if a.poolType == ConvPooling then a.strides[s] else Ones(Rank(a.conv));
    var residualBlocks := a.nBlocksPerStage[s];
    var gnn: seq<GnnBlocks> := [];
    if s < nConvStages {
      // a plain StackedResidualBlocks
    } else if s < noPoolGnnStageNum {
      // residual blocks followed by SwinGNNBlocks only: no stage gets here
      assert false;
    } else {
      residualBlocks := a.nBlocksPerStage[s] - 1;
      gnn :- BuildGnnPair(a.conv, a.nStages, opt, a.featuresPerStage[s], imgShapeList[s],
                          s - noPoolGnnStageNum, noPoolGnnStageNum, s - nConvStages);
    }
    assert gnn == EncoderGnn(a.featuresPerStage[s], imgShapeList[s], a.nStages, s);
    r := Ok(EncoderStage(pooling, residualBlocks, inputChannels, a.featuresPerStage[s], a.kernelSizes[s], strideForConv, gnn));
  }

  /**
   * The constructor's stage loop, starting from the channels the stem (or the
   * input) provides. Stage `n_stages - 4` is always a GNN stage, so the loop
   * fails exactly when `max_dilation` does.
   */
  method BuildEncoderStages(a: EncoderArgs, imgShapeList: seq<seq<nat>>, opt: Opt, firstInChannels: int)
    returns (r: Result<seq<EncoderStage>>)
    requires ValidEncoderArgs(a) && |imgShapeList| == a.nStages
    requires StageOpt(a.conv, a.nStages, opt)
    requires firstInChannels == FirstInChannels(a)
    ensures r.Err? <==> MinK(a.conv, opt.imgMinShape) == 0
    ensures r.Err? ==> r.error == ZeroDivisionError
    ensures r.Ok? ==> |r.value| == a.nStages
    ensures r.Ok? ==> forall s :: 0 <= s < a.nStages ==> r.value[s] == EncoderStageAt(a, imgShapeList, s)
  {
    var inputChannels := firstInChannels;
    var stages: seq<EncoderStage> := [];
    var s := 0;
    while s < a.nStages
      invariant 0 <= s <= a.nStages && |stages| == s
      invariant s > a.nStages - 4 ==> MinK(a.conv, opt.imgMinShape) != 0
      invariant inputChannels == if s == 0 then FirstInChannels(a) else a.featuresPerStage[s - 1]
      invariant forall t :: 0 <= t < s ==> stages[t] == EncoderStageAt(a, imgShapeList, t)
    {
      var stage :- BuildEncoderStage(a, imgShapeList, opt, inputChannels, s);
      stages := stages + [stage];
      inputChannels := a.featuresPerStage[s];
      s := s + 1;
    }
    r := Ok(stages);
  }

  /**
   * The default stem, unless disabled: one conv block from the input channels
   * to `stem_channels` (by default `features_per_stage[0]`) with kernel
   * `kernel_sizes[0]`; stage 0 then reads the stem's output channels.
   */
  method BuildStem(a: EncoderArgs) returns (stem: Option<Stem>, inputChannels: int)
    requires |a.featuresPerStage| > 0 && |a.kernelSizes| > 0
    ensures stem.None? <==> a.disableDefaultStem
    ensures stem.Some? ==> stem.value.inChannels == a.inputChannels && stem.value.outChannels == inputChannels
    ensures stem == if a.disableDefaultStem then None else Some(Stem(a.inputChannels, FirstInChannels(a), a.kernelSizes[0]))
    ensures inputChannels == FirstInChannels(a)
  {
    stem := None;
    inputChannels := a.inputChannels;
    if !a.disableDefaultStem {
      var stemChannels := if a.stemChannels.Some? then a.stemChannels.value else a.featuresPerStage[0];
      stem := Some(Stem(a.inputChannels, stemChannels, a.kernelSizes[0]));
      inputChannels := stemChannels;
    }
  }

  /**
   * `e` is what the encoder constructor builds from `a`: the schedule of the
   * patch under `strides[1:]`, the stem (absent iff disabled), stage `s` in
   * closed form for every `s`, the arguments it keeps, and `OptInit(n_stages)`
   * given the smallest shape and the node counts.
   */
  predicate BuiltFrom(a: EncoderArgs, e: Encoder)
    requires ValidEncoderArgs(a)
  {
    && e.imgShapeList == Schedule(a.patchSize[..Rank(a.conv)], PoolKernels(a.strides), a.nStages - 1)
    && e.stem == (if a.disableDefaultStem then None else Some(Stem(a.inputChannels, FirstInChannels(a), a.kernelSizes[0])))
    && |e.stages| == a.nStages
    && (forall s :: 0 <= s < a.nStages ==> e.stages[s] == EncoderStageAt(a, e.imgShapeList, s))
    && e.conv == a.conv && e.outputChannels == a.featuresPerStage && e.strides == a.strides
    && e.kernelSizes == a.kernelSizes && e.returnSkips == a.returnSkips
    && e.opt == OptInit(a.nStages).(imgMinShape := e.imgShapeList[a.nStages - 1], nSizeList := NodeCounts(e.imgShapeList))
  }

  /**
   * `NexToU_Encoder.__init__`: the shape schedule, `OptInit` with the smallest
   * shape and the node counts, the optional stem, then one stage per entry.
   * The first GNN stage raises ZeroDivisionError when `min_k` of the smallest
   * shape is 0, and nothing else fails.
   */
  method NewEncoder(a: EncoderArgs) returns (r: Result<Encoder>)
    requires ValidEncoderArgs(a)
    ensures r.Err? <==> MinK(a.conv, ShapeAt(a.patchSize[..Rank(a.conv)], PoolKernels(a.strides), a.nStages - 1)) == 0
    ensures r.Err? ==> r.error == ZeroDivisionError
    ensures r.Ok? ==> BuiltFrom(a, r.value)
  {
    var imgShapeList, opt := ScheduleAndOpt(a.conv, a.patchSize, a.strides);

    var stem, inputChannels := BuildStem(a);

    var stages :- BuildEncoderStages(a, imgShapeList, opt, inputChannels);
    r := Ok(Encoder(a.conv, stem, stages, a.featuresPerStage, a.strides, a.kernelSizes, a.returnSkips, imgShapeList, opt));
  }

  /** Every encoder the constructor builds satisfies `EncoderInvariant`. */
  lemma EncoderStagesKeepInvariant(a: EncoderArgs, e: Encoder)
    requires ValidEncoderArgs(a) && BuiltFrom(a, e)
    ensures EncoderInvariant(e)
  {
  }

  /**
   * In an encoder the constructor builds every stage reads the channels the
   * previous one outputs, and a stage has either no GNN blocks or a PoolGNN and
   * a SwinGNN block, never a lone one.
   */
  lemma EncoderChainsChannels(a: EncoderArgs, e: Encoder)
    requires ValidEncoderArgs(a) && BuiltFrom(a, e)
    ensures forall s :: 1 <= s < |e.stages| ==> e.stages[s].inChannels == e.stages[s - 1].outChannels
    ensures forall s :: 0 <= s < |e.stages| ==> |e.stages[s].gnn| == 0 || |e.stages[s].gnn| == 2
  {
    forall s | 1 <= s < |e.stages|
      ensures e.stages[s].inChannels == e.stages[s - 1].outChannels
    {
      assert e.stages[s] == EncoderStageAt(a, e.imgShapeList, s);
      assert e.stages[s - 1] == EncoderStageAt(a, e.imgShapeList, s - 1);
    }
    forall s | 0 <= s < |e.stages|
      ensures |e.stages[s].gnn| == 0 || |e.stages[s].gnn| == 2
    {
      assert e.stages[s] == EncoderStageAt(a, e.imgShapeList, s);
    }
  }

  /**
   * Every GNN block of a built encoder indexes `blocks`, `k_list`,
   * `reduce_ratios` and `n_size_list` within bounds: the PoolGNN blocks read
   * position `index + stage_num`, which is the stage number itself.
   */
  lemma EncoderGnnIndicesInRange(e: Encoder, s: nat)
    requires EncoderInvariant(e) && s < |e.stages|
    ensures WellFormedOpt(e.conv, e.opt)
    ensures forall g :: g in e.stages[s].gnn && g.PoolGnn? ==>
      PoolIndexInRange(e.opt, g.index, g.stageNum) && g.index + g.stageNum == s && 0 <= g.index < 4
    ensures forall g :: g in e.stages[s].gnn && g.SwinGnn? ==> SwinIndexInRange(e.opt, g.index) && 0 <= g.index < 4
  {
    var n := |e.stages|;
    assert |e.opt.imgMinShape| == Rank(e.conv);
  }

  // ---------------------------------------------------------------------------
  // Decoder

  datatype TransposedConv = TransposedConv(inChannels: int, outChannels: int, kernelSize: seq<int>, stride: seq<int>)

  /** The 1x1 segmentation head of a decoder stage. */
  datatype SegLayer = SegLayer(inChannels: int, numClasses: int)

  /** One decoder stage: transposed conv up, then residual blocks (and GNN blocks) on the concatenation. */
  datatype DecoderStage = DecoderStage(
    transpConv: TransposedConv,
    residualBlocks: int,
    inChannels: int,
    outChannels: int,
    kernelSize: seq<int>,
    gnn: seq<GnnBlocks>,
    segLayer: SegLayer)

  datatype Decoder = Decoder(
    stages: seq<DecoderStage>,
    deepSupervision: bool,
    numClasses: int,
    imgShapeList: seq<seq<nat>>,
    opt: Opt)

  /** The parts of an encoder the decoder constructor reads, with at least four stages. */
  predicate DecodableEncoder(e: Encoder) {
    var n := |e.outputChannels|;
    n >= 4 && |e.strides| == n && |e.kernelSizes| == n
  }

  /** The GNN blocks of decoder stage `s` (1-based, as in the constructor's loop). */
  function DecoderGnn(channels: int, imgShape: seq<nat>, n: int, s: int): (g: seq<GnnBlocks>)
    ensures g == [] <==> s >= 4
  {
    if s < 4 then [PoolGnn(channels, imgShape, 3 - s, n - 4), SwinGnn(channels, imgShape, 3 - s)]
    else []
  }

  /** Decoder stage `s` (1-based) in closed form. */
  function DecoderStageAt(e: Encoder, imgShapeList: seq<seq<nat>>, nConvPerStage: seq<int>, numClasses: int, s: nat): (st: DecoderStage)
    requires DecodableEncoder(e) && 1 <= s < |e.outputChannels|
    requires |nConvPerStage| == |e.outputChannels| - 1 && |imgShapeList| >= |e.outputChannels| - 1
    ensures st.gnn == [] <==> s >= 4
  {
    var n := |e.outputChannels|;
    var skip := e.outputChannels[n - (s + 1)];
    var gnn := DecoderGnn(skip, imgShapeList[n - (s + 1)], n, s);
    DecoderStage(
      TransposedConv(e.outputChannels[n - s], skip, e.strides[n - s], e.strides[n - s]),
      nConvPerStage[s - 1] - (if gnn == [] then 0 else 1),
      2 * skip,
      skip,
      e.kernelSizes[n - (s + 1)],
      gnn,
      SegLayer(skip, numClasses))
  }

  /**
   * The loop body of `NexToU_Decoder.__init__`: decoder stage `s`. While `s < 4`
   * the stage constructs its `PoolGNNBlocks` and `SwinGNNBlocks`, which raise
   * when `max_dilation` cannot be computed.
   */
  method BuildDecoderStage(encoder: Encoder, imgShapeList: seq<seq<nat>>, opt: Opt, nConvPerStage: seq<int>,
                           numClasses: int, s: nat)
    returns (r: Result<DecoderStage>)
    requires DecodableEncoder(encoder) && 1 <= s < |encoder.outputChannels|
    requires |nConvPerStage| == |encoder.outputChannels| - 1 && |imgShapeList| >= |encoder.outputChannels| - 1
    requires StageOpt(encoder.conv, |imgShapeList|, opt)
    ensures r.Err? <==> s < 4 && MinK(encoder.conv, opt.imgMinShape) == 0
    ensures r.Err? ==> r.error == ZeroDivisionError
    ensures r.Ok? ==> r.value == DecoderStageAt(encoder, imgShapeList, nConvPerStage, numClasses, s)
  {
    var nStagesEncoder := |encoder.outputChannels|;
    var nSwinGnnStages := 0;
    var noPoolGnnStageNum := nStagesEncoder - 4;
    var nConvStages := noPoolGnnStageNum - nSwinGnnStages;
    var inputFeaturesBelow := encoder.outputChannels[nStagesEncoder - s];
    var inputFeaturesSkip := encoder.outputChannels[nStagesEncoder - (s + 1)];
    var strideForTranspconv := encoder.strides[nStagesEncoder - s];
    var transpconv := TransposedConv(inputFeaturesBelow, inputFeaturesSkip, strideForTranspconv, strideForTranspconv);
    var shape := imgShapeList[nStagesEncoder - (s + 1)];
    var residualBlocks := nConvPerStage[s - 1];
    var gnn: seq<GnnBlocks> := [];
    if s < nStagesEncoder - noPoolGnnStageNum {
      residualBlocks := nConvPerStage[s - 1] - 1;
      gnn :- BuildGnnPair(encoder.conv, |imgShapeList|, opt, inputFeaturesSkip, shape,
                          nStagesEncoder - noPoolGnnStageNum - (s + 1), noPoolGnnStageNum, nStagesEncoder - nConvStages - (s + 1));
    } else if s < nStagesEncoder - nConvStages {
      // residual blocks followed by SwinGNNBlocks only: no stage gets here
      assert false;
    }
    r := Ok(DecoderStage(transpconv, residualBlocks, 2 * inputFeaturesSkip, inputFeaturesSkip,
                         encoder.kernelSizes[nStagesEncoder - (s + 1)], gnn, SegLayer(inputFeaturesSkip, numClasses)));
  }

  /**
   * The loop of `NexToU_Decoder.__init__` over `s` in 1 .. n-1. Stage 1 is
   * always a GNN stage, so the loop fails exactly when `max_dilation` does.
   */
  method BuildDecoderStages(encoder: Encoder, imgShapeList: seq<seq<nat>>, opt: Opt, nConvPerStage: seq<int>,
                            numClasses: int)
    returns (r: Result<seq<DecoderStage>>)
    requires DecodableEncoder(encoder)
    requires |nConvPerStage| == |encoder.outputChannels| - 1 && |imgShapeList| >= |encoder.outputChannels| - 1
    requires StageOpt(encoder.conv, |imgShapeList|, opt)
    ensures r.Err? <==> MinK(encoder.conv, opt.imgMinShape) == 0
    ensures r.Err? ==> r.error == ZeroDivisionError
    ensures r.Ok? ==> |r.value| == |encoder.outputChannels| - 1
    ensures r.Ok? ==> forall s :: 1 <= s < |encoder.outputChannels| ==>
      r.value[s - 1] == DecoderStageAt(encoder, imgShapeList, nConvPerStage, numClasses, s)
  {
    var nStagesEncoder := |encoder.outputChannels|;
    var stages: seq<DecoderStage> := [];
    var s := 1;
    while s < nStagesEncoder
      invariant 1 <= s <= nStagesEncoder && |stages| == s - 1
      invariant s > 1 ==> MinK(encoder.conv, opt.imgMinShape) != 0
      invariant forall t :: 1 <= t < s ==> stages[t - 1] == DecoderStageAt(encoder, imgShapeList, nConvPerStage, numClasses, t)
    {
      var stage :- BuildDecoderStage(encoder, imgShapeList, opt, nConvPerStage, numClasses, s);
      stages := stages + [stage];
      s := s + 1;
    }
    r := Ok(stages);
  }

  /**
   * `NexToU_Decoder.__init__`: the same shape schedule from its own `patch_size`
   * and `strides`, then for `s` in 1 .. n-1 a transposed conv from
   * `output_channels[-s]` to `output_channels[-(s+1)]` with stride `strides[-s]`,
   * GNN blocks while `s < 4`, and a segmentation head. Stage 1 always has GNN
   * blocks: it reads `img_shape_list[n - 2]`, which raises IndexError when
   * `strides` has fewer than `n - 1` entries, and otherwise the constructor
   * raises ZeroDivisionError exactly when `min_k` of its smallest shape is 0.
   * Before all this, a `n_conv_per_stage` of the wrong length fails its assert.
   */
  method NewDecoder(encoder: Encoder, patchSize: seq<nat>, strides: seq<seq<int>>, numClasses: int,
                    nConvPerStage: seq<int>, deepSupervision: bool) returns (r: Result<Decoder>)
    requires DecodableEncoder(encoder)
    requires |patchSize| >= Rank(encoder.conv)
    requires PositiveKernels(Rank(encoder.conv), PoolKernels(strides))
    ensures |nConvPerStage| != |encoder.outputChannels| - 1 ==> r == Err(AssertionError)
    ensures |nConvPerStage| == |encoder.outputChannels| - 1 && |strides| < |encoder.outputChannels| - 1 ==> r == Err(IndexError)
    ensures r.Err? <==> || |nConvPerStage| != |encoder.outputChannels| - 1
                        || |strides| < |encoder.outputChannels| - 1
                        || MinK(encoder.conv, ShapeAt(patchSize[..Rank(encoder.conv)], PoolKernels(strides), |PoolKernels(strides)|)) == 0
    ensures |nConvPerStage| == |encoder.outputChannels| - 1 && |strides| >= |encoder.outputChannels| - 1 && r.Err? ==>
      r.error == ZeroDivisionError
    ensures r.Ok? ==> r.value.imgShapeList == Schedule(patchSize[..Rank(encoder.conv)], PoolKernels(strides), |PoolKernels(strides)|)
    ensures r.Ok? ==> r.value.opt == OptInit(|strides|).(imgMinShape := r.value.imgShapeList[|r.value.imgShapeList| - 1],
                                                      nSizeList := NodeCounts(r.value.imgShapeList))
    ensures r.Ok? ==> |r.value.stages| == |encoder.outputChannels| - 1
    ensures r.Ok? ==> forall s :: 1 <= s < |encoder.outputChannels| ==>
      r.value.stages[s - 1] == DecoderStageAt(encoder, r.value.imgShapeList, nConvPerStage, numClasses, s)
    ensures r.Ok? ==> r.value.deepSupervision == deepSupervision && r.value.numClasses == numClasses
  {
    if |nConvPerStage| != |encoder.outputChannels| - 1 {
      return Err(AssertionError);
    }
    if |strides| < |encoder.outputChannels| - 1 {
      return Err(IndexError);
    }
    var imgShapeList, opt := ScheduleAndOpt(encoder.conv, patchSize, strides);
    var stages :- BuildDecoderStages(encoder, imgShapeList, opt, nConvPerStage, numClasses);
    r := Ok(Decoder(stages, deepSupervision, numClasses, imgShapeList, opt));
  }

  /**
   * Decoder stage `s` mirrors encoder stage `n - 1 - s`: the same output
   * channels, and, when both are built from the same schedule, the very same
   * GNN blocks (same shape, block index `3 - s` and stage offset), so a stage is
   * a GNN stage in the decoder exactly when its partner is one in the encoder.
   * Its transposed conv takes the channels of the stage below and undoes the
   * stride encoder stage `n - s` downsampled by.
   */
  lemma DecoderMirrorsEncoder(e: Encoder, d: Decoder, nConvPerStage: seq<int>, s: nat)
    requires EncoderInvariant(e)
    requires |nConvPerStage| == |e.stages| - 1 && 1 <= s < |e.stages|
    requires |d.imgShapeList| >= |e.stages| - 1
    requires |d.stages| == |e.stages| - 1
    requires forall t :: 1 <= t < |e.stages| ==> d.stages[t - 1] == DecoderStageAt(e, d.imgShapeList, nConvPerStage, d.numClasses, t)
    requires d.imgShapeList[|e.stages| - 1 - s] == e.imgShapeList[|e.stages| - 1 - s]
    ensures d.stages[s - 1].outChannels == e.stages[|e.stages| - 1 - s].outChannels
    ensures d.stages[s - 1].gnn == e.stages[|e.stages| - 1 - s].gnn
    ensures d.stages[s - 1].transpConv.inChannels == e.stages[|e.stages| - s].outChannels
    ensures d.stages[s - 1].transpConv.stride == e.strides[|e.stages| - s]
  {
    assert d.stages[s - 1] == DecoderStageAt(e, d.imgShapeList, nConvPerStage, d.numClasses, s);
  }

  /**
   * End to end: for an encoder `NewEncoder` builds and a decoder `NewDecoder`
   * builds from it with the same patch size and strides, the two schedules
   * agree, so decoder stage `s` (at position `s - 1`) mirrors encoder stage `n - 1 - s`
   * for every `s`.
   */
  lemma BuiltDecoderMirrorsBuiltEncoder(a: EncoderArgs, e: Encoder, d: Decoder, nConvPerStage: seq<int>)
    requires ValidEncoderArgs(a) && BuiltFrom(a, e)
    requires |nConvPerStage| == a.nStages - 1
    requires d.imgShapeList == Schedule(a.patchSize[..Rank(a.conv)], PoolKernels(a.strides), |PoolKernels(a.strides)|)
    requires |d.stages| == a.nStages - 1
    requires forall s :: 1 <= s < a.nStages ==> d.stages[s - 1] == DecoderStageAt(e, d.imgShapeList, nConvPerStage, d.numClasses, s)
    ensures forall t :: 0 <= t < |d.stages| ==>
      && d.stages[t].outChannels == e.stages[|e.stages| - 2 - t].outChannels
      && d.stages[t].gnn == e.stages[|e.stages| - 2 - t].gnn
      && d.stages[t].transpConv.inChannels == e.stages[|e.stages| - 1 - t].outChannels
      && d.stages[t].transpConv.stride == e.strides[|e.stages| - 1 - t]
  {
    EncoderStagesKeepInvariant(a, e);
    assert |PoolKernels(a.strides)| == a.nStages - 1;
    DecoderMirrorsEncoderEverywhere(e, d, nConvPerStage);
  }

  /** `DecoderMirrorsEncoder` at every stage, when the decoder's schedule is the encoder's. */
  lemma DecoderMirrorsEncoderEverywhere(e: Encoder, d: Decoder, nConvPerStage: seq<int>)
    requires EncoderInvariant(e)
    requires |nConvPerStage| == |e.stages| - 1
    requires d.imgShapeList == e.imgShapeList
    requires |d.stages| == |e.stages| - 1
    requires forall s :: 1 <= s < |e.stages| ==> d.stages[s - 1] == DecoderStageAt(e, d.imgShapeList, nConvPerStage, d.numClasses, s)
    ensures forall t :: 0 <= t < |d.stages| ==>
      && d.stages[t].outChannels == e.stages[|e.stages| - 2 - t].outChannels
      && d.stages[t].gnn == e.stages[|e.stages| - 2 - t].gnn
      && d.stages[t].transpConv.inChannels == e.stages[|e.stages| - 1 - t].outChannels
      && d.stages[t].transpConv.stride == e.strides[|e.stages| - 1 - t]
  {
    forall t | 0 <= t < |d.stages|
      ensures && d.stages[t].outChannels == e.stages[|e.stages| - 2 - t].outChannels
              && d.stages[t].gnn == e.stages[|e.stages| - 2 - t].gnn
              && d.stages[t].transpConv.inChannels == e.stages[|e.stages| - 1 - t].outChannels
              && d.stages[t].transpConv.stride == e.strides[|e.stages| - 1 - t]
    {
      DecoderMirrorsEncoder(e, d, nConvPerStage, t + 1);
    }
  }

  /** Each decoder stage's transposed conv upsamples the output of the stage before it (the bottleneck for the first). */
  lemma DecoderChannelsChain(e: Encoder, d: Decoder, nConvPerStage: seq<int>)
    requires DecodableEncoder(e)
    requires |nConvPerStage| == |e.outputChannels| - 1 && |d.imgShapeList| >= |e.outputChannels| - 1
    requires |d.stages| == |e.outputChannels| - 1
    requires forall t :: 1 <= t < |e.outputChannels| ==> d.stages[t - 1] == DecoderStageAt(e, d.imgShapeList, nConvPerStage, d.numClasses, t)
    ensures d.stages[0].transpConv.inChannels == e.outputChannels[|e.outputChannels| - 1]
    ensures forall t :: 1 <= t < |d.stages| ==> d.stages[t].transpConv.inChannels == d.stages[t - 1].outChannels
    ensures forall t :: 0 <= t < |d.stages| ==> d.stages[t].inChannels == 2 * d.stages[t].transpConv.outChannels
    ensures d.stages[|d.stages| - 1].outChannels == e.outputChannels[0]
  {
    forall t | 1 <= t < |d.stages|
      ensures d.stages[t].transpConv.inChannels == d.stages[t - 1].outChannels
    {
      assert d.stages[t] == DecoderStageAt(e, d.imgShapeList, nConvPerStage, d.numClasses, t + 1);
      assert d.stages[t - 1] == DecoderStageAt(e, d.imgShapeList, nConvPerStage, d.numClasses, t);
    }
    forall t | 0 <= t < |d.stages|
      ensures d.stages[t].inChannels == 2 * d.stages[t].transpConv.outChannels
    {
      assert d.stages[t] == DecoderStageAt(e, d.imgShapeList, nConvPerStage, d.numClasses, t + 1);
    }
    assert d.stages[0] == DecoderStageAt(e, d.imgShapeList, nConvPerStage, d.numClasses, 1);
    assert d.stages[|d.stages| - 1] == DecoderStageAt(e, d.imgShapeList, nConvPerStage, d.numClasses, |d.stages|);
  }

  /** Every GNN block of a built decoder indexes its lists within bounds. */
  lemma DecoderGnnIndicesInRange(e: Encoder, d: Decoder, nConvPerStage: seq<int>, strides: seq<seq<int>>, s: nat)
    requires DecodableEncoder(e)
    requires |nConvPerStage| == |e.outputChannels| - 1
    requires |strides| >= |e.outputChannels| - 1
    requires |d.imgShapeList| == |PoolKernels(strides)| + 1
    requires forall i :: 0 <= i < |d.imgShapeList| ==> |d.imgShapeList[i]| == Rank(e.conv)
    requires d.opt == OptInit(|strides|).(imgMinShape := d.imgShapeList[|d.imgShapeList| - 1], nSizeList := NodeCounts(d.imgShapeList))
    requires |d.stages| == |e.outputChannels| - 1 && 1 <= s < |e.outputChannels|
    requires forall t :: 1 <= t < |e.outputChannels| ==> d.stages[t - 1] == DecoderStageAt(e, d.imgShapeList, nConvPerStage, d.numClasses, t)
    ensures WellFormedOpt(e.conv, d.opt)
    ensures forall g :: g in d.stages[s - 1].gnn && g.PoolGnn? ==>
      PoolIndexInRange(d.opt, g.index, g.stageNum) && g.index + g.stageNum == |e.outputChannels| - 1 - s
    ensures forall g :: g in d.stages[s - 1].gnn && g.SwinGnn? ==> SwinIndexInRange(d.opt, g.index)
  {
    assert d.stages[s - 1] == DecoderStageAt(e, d.imgShapeList, nConvPerStage, d.numClasses, s);
  }
}
