/**
 * Output ordering of `NexToU_Encoder.forward` and `NexToU_Decoder.forward`.
 * The stem, the stages, the transposed convolutions, the channel concatenation
 * and the segmentation heads are given as functions on feature maps; what is
 * modelled is which map each of them is applied to and in which order the
 * results are returned.
 */
module Forward {
  import opened Wrappers

  /** The encoder returns every stage's output (`return_skips`) or only the last one. */
  datatype EncoderOutput<X> = Skips(skips: seq<X>) | Last(last: X)

  /** The decoder returns one segmentation per stage (deep supervision) or only the final one. */
  datatype DecoderOutput<Y> = Deep(outputs: seq<Y>) | Single(output: Y)

  /** The result of running `x` through `stages` in order. */
  function Apply<X>(x: X, stages: seq<X -> X>): X {
    if stages == [] then x else stages[|stages| - 1](Apply(x, stages[..|stages| - 1]))
  }

  /** What the first stage receives: the stem's output when there is a stem. */
  function EncoderInput<X>(stem: Option<X -> X>, x: X): X {
    if stem.Some? then stem.value(x) else x
  }

  /** Output `i` of the encoder: the input after the stem and stages `0 .. i`. */
  function EncoderOutputs<X>(stem: Option<X -> X>, stages: seq<X -> X>, x: X): (r: seq<X>)
    ensures |r| == |stages|
  {
    seq(|stages|, i requires 0 <= i < |stages| => Apply(EncoderInput(stem, x), stages[..i + 1]))
  }

  /**
   * Each encoder output is the next stage applied to the previous output, the
   * first is stage 0 applied to the stem's output, and the last is the result of
   * the whole encoder.
   */
  lemma EncoderOutputsChain<X>(stem: Option<X -> X>, stages: seq<X -> X>, x: X)
    ensures stages != [] ==> EncoderOutputs(stem, stages, x)[0] == stages[0](EncoderInput(stem, x))
    ensures forall i :: 0 <= i < |stages| - 1 ==>
      EncoderOutputs(stem, stages, x)[i + 1] == stages[i + 1](EncoderOutputs(stem, stages, x)[i])
    ensures stages != [] ==> EncoderOutputs(stem, stages, x)[|stages| - 1] == Apply(EncoderInput(stem, x), stages)
  {
    var r := EncoderOutputs(stem, stages, x);
    if stages != [] {
      EncoderOutputStep(stem, stages, x, 0);
      assert stages[..0] == [];
      EncoderOutputLast(stem, stages, x);
    }
    forall i | 0 <= i < |stages| - 1
      ensures r[i + 1] == stages[i + 1](r[i])
    {
      EncoderOutputStep(stem, stages, x, i + 1);
    }
  }

  /** The last encoder output is the result of the whole encoder. */
  lemma EncoderOutputLast<X>(stem: Option<X -> X>, stages: seq<X -> X>, x: X)
    requires stages != []
    ensures EncoderOutputs(stem, stages, x)[|stages| - 1] == Apply(EncoderInput(stem, x), stages)
  {
    assert stages[..|stages|] == stages;
  }

  /** Output `i` is stage `i` applied to what stages `0 .. i-1` produced. */
  lemma EncoderOutputStep<X>(stem: Option<X -> X>, stages: seq<X -> X>, x: X, i: nat)
    requires i < |stages|
    ensures EncoderOutputs(stem, stages, x)[i] == stages[i](Apply(EncoderInput(stem, x), stages[..i]))
    ensures i > 0 ==> EncoderOutputs(stem, stages, x)[i - 1] == Apply(EncoderInput(stem, x), stages[..i])
  {
    assert stages[..i + 1][..i] == stages[..i];
  }

  /** `NexToU_Encoder.forward`: `ret[-1]` of an encoder without stages raises IndexError. */
  method EncoderForward<X>(stem: Option<X -> X>, stages: seq<X -> X>, returnSkips: bool, x: X)
    returns (out: Result<EncoderOutput<X>>)
    ensures returnSkips ==> out == Ok(Skips(EncoderOutputs(stem, stages, x)))
    ensures !returnSkips && stages == [] ==> out == Err(IndexError)
    ensures !returnSkips && stages != [] ==> out == Ok(Last(EncoderOutputs(stem, stages, x)[|stages| - 1]))
  {
    var y := x;
    if stem.Some? {
      y := stem.value(y);
    }
    var ret: seq<X> := [];
    var i := 0;
    while i < |stages|
      invariant 0 <= i <= |stages| && |ret| == i
      invariant y == Apply(EncoderInput(stem, x), stages[..i])
      invariant forall j :: 0 <= j < i ==> ret[j] == EncoderOutputs(stem, stages, x)[j]
    {
      EncoderOutputStep(stem, stages, x, i);
      y := stages[i](y);
      ret := ret + [y];
      i := i + 1;
    }
    assert ret == EncoderOutputs(stem, stages, x);
    if returnSkips {
      out := Ok(Skips(ret));
    } else if ret == [] {
      out := Err(IndexError);
    } else {
      out := Ok(Last(ret[|ret| - 1]));
    }
  }

  /** The feature map decoder stage `s` produces: transposed conv of the map below, concatenated with `skips[-(s+2)]`. */
  function DecoderFeature<X>(transpConvs: seq<X -> X>, cat: (X, X) -> X, stages: seq<X -> X>, skips: seq<X>, s: nat): X
    requires |transpConvs| == |stages| && s < |stages| && |skips| >= |stages| + 1
  {
    var below := if s == 0 then skips[|skips| - 1] else DecoderFeature(transpConvs, cat, stages, skips, s - 1);
    stages[s](cat(transpConvs[s](below), skips[|skips| - (s + 2)]))
  }

  /** The segmentation of every decoder stage, in stage order (lowest resolution first). */
  function SegOutputs<X, Y>(transpConvs: seq<X -> X>, cat: (X, X) -> X, stages: seq<X -> X>, segLayers: seq<X -> Y>,
                            skips: seq<X>): (r: seq<Y>)
    requires |transpConvs| == |stages| == |segLayers| && |skips| >= |stages| + 1
    ensures |r| == |stages|
  {
    seq(|stages|, s requires 0 <= s < |stages| => segLayers[s](DecoderFeature(transpConvs, cat, stages, skips, s)))
  }

  /** `seg_outputs[::-1]`. */
  function Reversed<Y>(s: seq<Y>): (r: seq<Y>)
    ensures |r| == |s| && forall i :: 0 <= i < |s| ==> r[i] == s[|s| - 1 - i]
  {
    if s == [] then [] else [s[|s| - 1]] + Reversed(s[..|s| - 1])
  }

  /**
   * `NexToU_Decoder.forward(skips)`: `skips[-1]` or `skips[-(s+2)]` out of range
   * raise IndexError, as does `seg_outputs[0]` of a decoder without stages when
   * deep supervision is off.
   */
  method DecoderForward<X, Y>(transpConvs: seq<X -> X>, cat: (X, X) -> X, stages: seq<X -> X>, segLayers: seq<X -> Y>,
                              deepSupervision: bool, skips: seq<X>) returns (out: Result<DecoderOutput<Y>>)
    requires |transpConvs| == |stages| == |segLayers|
    ensures |skips| < |stages| + 1 ==> out == Err(IndexError)
    ensures |skips| >= |stages| + 1 && deepSupervision ==>
      out == Ok(Deep(Reversed(SegOutputs(transpConvs, cat, stages, segLayers, skips))))
    ensures |skips| >= |stages| + 1 && !deepSupervision && stages == [] ==> out == Err(IndexError)
    ensures |skips| >= |stages| + 1 && !deepSupervision && stages != [] ==>
      out == Ok(Single(segLayers[|stages| - 1](DecoderFeature(transpConvs, cat, stages, skips, |stages| - 1))))
  {
    if skips == [] {
      return Err(IndexError);
    }
    var lresInput := skips[|skips| - 1];
    var segOutputs: seq<Y> := [];
    var s := 0;
    while s < |stages|
      invariant 0 <= s <= |stages| && |skips| >= s + 1
      invariant s > 0 && |skips| >= |stages| + 1 ==> lresInput == DecoderFeature(transpConvs, cat, stages, skips, s - 1)
      invariant s == 0 ==> lresInput == skips[|skips| - 1]
      invariant deepSupervision && |skips| >= |stages| + 1 ==>
        segOutputs == SegOutputs(transpConvs, cat, stages, segLayers, skips)[..s]
      invariant !deepSupervision && |skips| >= |stages| + 1 ==>
        segOutputs == if s == |stages| && s > 0
                      then [segLayers[s - 1](DecoderFeature(transpConvs, cat, stages, skips, s - 1))]
                      else []
    {
      if |skips| < s + 2 {
        return Err(IndexError);
      }
      var x := transpConvs[s](lresInput);
      x := cat(x, skips[|skips| - (s + 2)]);
      x := stages[s](x);
      if deepSupervision {
        segOutputs := segOutputs + [segLayers[s](x)];
      } else if s == |stages| - 1 {
        segOutputs := segOutputs + [segLayers[|segLayers| - 1](x)];
      }
      lresInput := x;
      s := s + 1;
    }
    assert deepSupervision && |skips| >= |stages| + 1 ==>
      segOutputs == SegOutputs(transpConvs, cat, stages, segLayers, skips);
    segOutputs := Reversed(segOutputs);
    if !deepSupervision {
      if segOutputs == [] {
        return Err(IndexError);
      }
      out := Ok(Single(segOutputs[0]));
    } else {
      out := Ok(Deep(segOutputs));
    }
  }

  /**
   * With deep supervision the first output is the last stage's (the highest
   * resolution) and the last output is the first stage's; the single output
   * without deep supervision is exactly the first deep-supervision output.
   */
  lemma DeepSupervisionOrder<X, Y>(transpConvs: seq<X -> X>, cat: (X, X) -> X, stages: seq<X -> X>,
                                   segLayers: seq<X -> Y>, skips: seq<X>)
    requires |transpConvs| == |stages| == |segLayers| && |skips| >= |stages| + 1 && stages != []
    ensures Reversed(SegOutputs(transpConvs, cat, stages, segLayers, skips))[0]
         == segLayers[|stages| - 1](DecoderFeature(transpConvs, cat, stages, skips, |stages| - 1))
    ensures Reversed(SegOutputs(transpConvs, cat, stages, segLayers, skips))[|stages| - 1]
         == segLayers[0](DecoderFeature(transpConvs, cat, stages, skips, 0))
    ensures forall i :: 0 <= i < |stages| ==>
      Reversed(SegOutputs(transpConvs, cat, stages, segLayers, skips))[i]
      == segLayers[|stages| - 1 - i](DecoderFeature(transpConvs, cat, stages, skips, |stages| - 1 - i))
  {
  }

  /**
   * Fed the encoder's outputs, decoder stage `s` starts from the bottleneck
   * (`s = 0`) or from stage `s - 1`, and concatenates the output of encoder
   * stage `n - 2 - s` (for `n` encoder stages): the skip at the same resolution.
   */
  lemma DecoderUsesMirroredSkips<X>(stem: Option<X -> X>, encoderStages: seq<X -> X>, x: X,
                                    transpConvs: seq<X -> X>, cat: (X, X) -> X, stages: seq<X -> X>, s: nat)
    requires |transpConvs| == |stages| && |encoderStages| == |stages| + 1 && s < |stages|
    ensures DecoderFeature(transpConvs, cat, stages, EncoderOutputs(stem, encoderStages, x), s)
         == stages[s](cat(transpConvs[s](
              if s == 0 then Apply(EncoderInput(stem, x), encoderStages)
              else DecoderFeature(transpConvs, cat, stages, EncoderOutputs(stem, encoderStages, x), s - 1)),
            EncoderOutputs(stem, encoderStages, x)[|encoderStages| - 2 - s]))
  {
    EncoderOutputsChain(stem, encoderStages, x);
  }
}
