# NexToU network bookkeeping and normalized surface Dice, in Dafny

This project models the integer bookkeeping that sizes and wires the NexToU
encoder/decoder network of nnU-Net v2
(`NexToU_Encoder_Decoder.py`), and the counting behind nnU-Net's
`normalized_surface_dice`. It proves properties of both.

- **Shapes** (`shapes.dfy`). The resolution schedule `img_shape_list` / `n_size_list`: repeated per-axis floor
  division of the patch by the pooling kernels `strides[1:]`, with node counts as products.
- **GraphConfig** (`graph_config.dfy`). `OptInit`'s block counts and reduce ratios, the `k_list`, `max_k`,
  `max_dilation` and `shift_size` rules of `SwinGNNBlocks` and `PoolGNNBlocks`, the `pool_size` rule
  and node count of `PoolDyGraphConv` / `PoolGrapher`, and the arguments each GNN block passes to its grapher.
- **Network** (`network.dfy`). The stage layout built by `NexToU_Encoder.__init__` and `NexToU_Decoder.__init__`:
  which stages carry PoolGNN/SwinGNN blocks, channel chaining, and how decoder stage `s` mirrors encoder
  stage `n-1-s`.
- **Layout** and **Windows** (`layout.dfy`, `windows.dfy`). Tensors as a shape plus row-major data.
  `permute`, `einops.rearrange` and `torch.roll` are index maps. `window_partition` and `window_reverse` are
  inverse to each other, and the cyclic shift in `SwinGrapher.forward` is undone by the reverse shift.
- **Forward** (`forward.dfy`). Which value every stage is applied to in `NexToU_Encoder.forward` and
  `NexToU_Decoder.forward`, and the order of the returned skips and segmentation outputs. The layers
  themselves are abstract functions.
- **SurfaceDice** (`surface_dice.dfy`). `normalized_surface_dice` with the two surface-distance arrays as
  inputs: the true-positive / false-positive / false-negative counts, the ratio, its bounds, symmetry,
  extreme values and monotonicity in the threshold.
- **Wrappers** (`wrappers.dfy`). `Option`, `Result`, and the Python exceptions the code can raise.

Python exceptions are modelled as `Err(...)` results: `IndexError` for an out-of-range list index,
`ZeroDivisionError` for `// 0`, `ValueError` for a failed tuple unpacking or `max([])`,
`NotImplementedError` and `AssertionError` as raised, and `RuntimeError` for an `einops` shape error.

The docstring of `normalized_surface_dice` says distances "below" the threshold count as true positives.
The code counts `<=`, so a distance equal to the threshold counts, and the model follows the code.

## Model

| member | source | states |
|---|---|---|
| Shapes.ComputeSchedule | nnunetv2/training/nnUNetTrainer/variants/network_architecture/NexToU_Encoder_Decoder.py:109-140 | the loop builds `img_shape_list` as the schedule of `patch_size` under `strides[1:]` (one entry for the patch plus one per kernel), and `n_size_list[i]` is the product of entry `i` |
| Shapes.PoolKernels | nnunetv2/training/nnUNetTrainer/variants/network_architecture/NexToU_Encoder_Decoder.py:111 | `strides[1:]` has one entry fewer than `strides` (none when `strides` is empty), and entry `i` is `strides[i+1]` |
| Shapes.DivAxesIsFloor | nnunetv2/training/nnUNetTrainer/variants/network_architecture/NexToU_Encoder_Decoder.py:118-120 | `h //= h_k` gives the largest `q` with `q * h_k <= h` on every axis |
| Shapes.Schedule | nnunetv2/training/nnUNetTrainer/variants/network_architecture/NexToU_Encoder_Decoder.py:109-135 | the schedule has `n + 1` entries, and entry `i` is the patch after the first `i` kernels |
| Shapes.ScheduleStep | nnunetv2/training/nnUNetTrainer/variants/network_architecture/NexToU_Encoder_Decoder.py:129-134 | entry `i+1` is entry `i` floor-divided axis by axis by kernel `i` |
| Shapes.ScheduleNonIncreasing | nnunetv2/training/nnUNetTrainer/variants/network_architecture/NexToU_Encoder_Decoder.py:117-140 | later entries are no larger on any axis, so `img_min_shape = img_shape_list[-1]` is the smallest |
| Shapes.NodeCountsNonIncreasing | nnunetv2/training/nnUNetTrainer/variants/network_architecture/NexToU_Encoder_Decoder.py:115-135 | the node counts never grow from one stage to a later one |
| Shapes.ProdMonotone | nnunetv2/training/nnUNetTrainer/variants/network_architecture/NexToU_Encoder_Decoder.py:546-548 | a shape no larger on any axis has no larger node count |
| GraphConfig.OptInit | nnunetv2/training/nnUNetTrainer/variants/network_architecture/NexToU_Encoder_Decoder.py:20-35 | `blocks` is `len` ones; `reduce_ratios` starts 16, 8, 4, 2 (halving), is 1 from index 4 on, is non-increasing and at least 1, and has `max(len, 4)` entries |
| GraphConfig.FirstClosestIndex | nnunetv2/training/nnUNetTrainer/variants/network_architecture/NexToU_Encoder_Decoder.py:1020 | Python's `min(..., key=abs(x - t))`: the chosen candidate is at least as close as every other, and strictly closer than every earlier one |
| GraphConfig.MaxKIsNearestSmallerOnTie | nnunetv2/training/nnUNetTrainer/variants/network_architecture/NexToU_Encoder_Decoder.py:1019-1020 | `max_k` is in `[2, 4, 8, 16, 32]`, is nearest to `max_num`, and is the smaller candidate on a tie |
| GraphConfig.MaxKClosedForm | nnunetv2/training/nnUNetTrainer/variants/network_architecture/NexToU_Encoder_Decoder.py:1099-1100 | the `max_num` ranges that select each candidate (≤3→2, ≤6→4, ≤12→8, ≤24→16, else 32) |
| GraphConfig.MaxKAtMostTwiceTarget | nnunetv2/training/nnUNetTrainer/variants/network_architecture/NexToU_Encoder_Decoder.py:1033-1034 | for `max_num >= 2`, `max_k` lies between 2 and `2 * max_num` |
| GraphConfig.KList | nnunetv2/training/nnUNetTrainer/variants/network_architecture/NexToU_Encoder_Decoder.py:1022-1025 | `k_list` has `len` entries, entry `i` is `min(min_k * factor(i), max_k)` with factors 1, 2, 2, 4, 8, 16, ..., every entry is at most `max_k`, and the list is non-decreasing |
| GraphConfig.SeqMax | nnunetv2/training/nnUNetTrainer/variants/network_architecture/NexToU_Encoder_Decoder.py:1027 | Python's `max` of a non-empty list is an element and an upper bound |
| GraphConfig.MaxDilation | nnunetv2/training/nnUNetTrainer/variants/network_architecture/NexToU_Encoder_Decoder.py:1027-1041 | `max_dilation` raises `ValueError` for an empty `k_list` and `ZeroDivisionError` when `min_k` is 0 (exactly those cases); otherwise it is at least 1 and `max_dilation * max(k_list)` fits in the node count of `img_min_shape` |
| GraphConfig.KListLargestEntry | nnunetv2/training/nnUNetTrainer/variants/network_architecture/NexToU_Encoder_Decoder.py:1101-1121 | `max(k_list)` is 0 exactly when `min_k` is 0, and never exceeds the node count of `img_min_shape` |
| GraphConfig.ShiftSize | nnunetv2/training/nnUNetTrainer/variants/network_architecture/NexToU_Encoder_Decoder.py:1051-1053 | `shift_size` is every window axis halved and rounded down, hence below a positive window axis |
| GraphConfig.QuadrupledProdIsScaled | nnunetv2/training/nnUNetTrainer/variants/network_architecture/NexToU_Encoder_Decoder.py:550-552 | `n_small` is `4 ** rank` times the node count of `img_min_shape` |
| GraphConfig.PoolSizeRule | nnunetv2/training/nnUNetTrainer/variants/network_architecture/NexToU_Encoder_Decoder.py:554-557 | `pool_size` has one entry per axis, each 1 or 2, and an entry is 2 exactly when the node count exceeds `n_small` and that axis is even |
| GraphConfig.PoolSizeDividesShape | nnunetv2/training/nnUNetTrainer/variants/network_architecture/NexToU_Encoder_Decoder.py:909-920 | every pooling entry divides its axis, so the pooled node count times `prod(pool_size)` is the node count exactly |
| GraphConfig.ExactDivAxesProd | nnunetv2/training/nnUNetTrainer/variants/network_architecture/NexToU_Encoder_Decoder.py:916-920 | dividing axes by exact divisors divides the node count by the divisors' product |
| GraphConfig.PoolSizeProdPositive | nnunetv2/training/nnUNetTrainer/variants/network_architecture/NexToU_Encoder_Decoder.py:916-918 | `p_num` is at least 1, so `n // p_num` never divides by zero |
| GraphConfig.ProductLoop | nnunetv2/training/nnUNetTrainer/variants/network_architecture/NexToU_Encoder_Decoder.py:546-548 | the `n = n * h` loop computes the product of the shape |
| GraphConfig.QuadrupledProductLoop | nnunetv2/training/nnUNetTrainer/variants/network_architecture/NexToU_Encoder_Decoder.py:550-552 | the `n_small = n_small * h_small * 4` loop computes `n_small` |
| GraphConfig.PoolSize | nnunetv2/training/nnUNetTrainer/variants/network_architecture/NexToU_Encoder_Decoder.py:546-559 | `PoolDyGraphConv`'s `pool_size` follows the rule with `n > n_small`, and pooling by it divides the node count exactly |
| GraphConfig.PoolGrapherNodes | nnunetv2/training/nnUNetTrainer/variants/network_architecture/NexToU_Encoder_Decoder.py:901-921 | `PoolGrapher`'s `n = n // p_num` is exact (`n * p_num` is the node count) and equals the node count of the pooled shape |
| GraphConfig.NewSwinBlock | nnunetv2/training/nnUNetTrainer/variants/network_architecture/NexToU_Encoder_Decoder.py:1047-1061 | the grapher of block `j` reads `k_list[index]`, has dilation `min((sum(blocks[:index]) + j) // 4 + 1, max_dilation)` within `[1, max_dilation]`, `r = 1`, windows of `img_min_shape` with their node count, and half the window as shift |
| GraphConfig.SwinGnnBlocks | nnunetv2/training/nnUNetTrainer/variants/network_architecture/NexToU_Encoder_Decoder.py:1003-1060 | fails exactly when `max_dilation` fails, with the same error; otherwise there are `blocks[index]` graphers, block `j` gets `k_list[index]`, dilation `min((sum(blocks[:index]) + j) // 4 + 1, max_dilation)` within `[1, max_dilation]`, `r = 1`, `n = prod(window_size)`, `window_size = img_min_shape` and the halved shift |
| GraphConfig.PoolGnnBlocks | nnunetv2/training/nnUNetTrainer/variants/network_architecture/NexToU_Encoder_Decoder.py:1085-1140 | as for SwinGNNBlocks, but `k`, `r` and `n` are read at `index + stage_num`, and each grapher pools with the `pool_size` rule so that its node count is exact |
| GraphConfig.NewPoolBlock | nnunetv2/training/nnUNetTrainer/variants/network_architecture/NexToU_Encoder_Decoder.py:1127-1136 | the grapher of block `j` reads `k_list`, `reduce_ratios` and `n_size_list` at `index + stage_num`, has dilation `min((sum(blocks[:index]) + j) // 4 + 1, max_dilation)` within `[1, max_dilation]`, and pools with the `pool_size` rule so that its node count is exact |
| Network.NodeCounts | nnunetv2/training/nnUNetTrainer/variants/network_architecture/NexToU_Encoder_Decoder.py:148 | `n_size_list` has one node count per schedule entry |
| Network.EncoderGnn | nnunetv2/training/nnUNetTrainer/variants/network_architecture/NexToU_Encoder_Decoder.py:145-193 | encoder stage `s` has no GNN blocks iff `s < n_stages - 4`; otherwise it has PoolGNNBlocks then SwinGNNBlocks, both with index `s - (n_stages - 4)` |
| Network.EncoderStageAt | nnunetv2/training/nnUNetTrainer/variants/network_architecture/NexToU_Encoder_Decoder.py:164-199 | stage `s` has `n_blocks_per_stage[s]` residual blocks without GNN and one fewer with it, reads the previous stage's (or the stem's) channels, and outputs `features_per_stage[s]` |
| Network.ScheduleAndOpt | nnunetv2/training/nnUNetTrainer/variants/network_architecture/NexToU_Encoder_Decoder.py:109-148 | the schedule is the per-axis floor division of the patch by `strides[1:]`, one shape per entry of `strides`; `opt` is `OptInit(len(strides))` with the last shape as `img_min_shape` and the schedule's node counts |
| Network.BuildStem | nnunetv2/training/nnUNetTrainer/variants/network_architecture/NexToU_Encoder_Decoder.py:153-160 | the stem is absent iff the default stem is disabled; otherwise it maps `input_channels` to `stem_channels` (default `features_per_stage[0]`) with `kernel_sizes[0]`; the channels the first stage reads are the stem's output, or `input_channels` without a stem |
| Network.BuildGnnPair | nnunetv2/training/nnUNetTrainer/variants/network_architecture/NexToU_Encoder_Decoder.py:184-193 | a GNN stage's PoolGNNBlocks then SwinGNNBlocks; it raises `ZeroDivisionError` exactly when `min_k` of `img_min_shape` is 0, and otherwise returns the two blocks with their closed-form arguments |
| Network.BuildEncoderStage | nnunetv2/training/nnUNetTrainer/variants/network_architecture/NexToU_Encoder_Decoder.py:164-197 | one pass of the stage loop fails exactly when stage `s` carries GNN blocks and `max_dilation` fails, with its error; otherwise it builds exactly the closed-form stage `s` (the SwinGNN-only branch never runs) |
| Network.BuildEncoderStages | nnunetv2/training/nnUNetTrainer/variants/network_architecture/NexToU_Encoder_Decoder.py:163-200 | the stage loop fails exactly when `max_dilation` fails, with its error (there is always a GNN stage); otherwise, with `input_channels` carried from one stage to the next, it builds `n_stages` stages equal to the closed form |
| Network.NewEncoder | nnunetv2/training/nnUNetTrainer/variants/network_architecture/NexToU_Encoder_Decoder.py:105-215 | the constructor raises `ZeroDivisionError` exactly when `min_k` of the smallest scheduled shape is 0; otherwise it returns exactly the encoder `BuiltFrom` describes: the schedule, the stem (absent iff disabled, `stem_channels` defaulting to `features_per_stage[0]`), `n_stages` stages in closed form, the argument lists it keeps, and `opt` with the smallest shape and the node counts |
| Network.EncoderStagesKeepInvariant | nnunetv2/training/nnUNetTrainer/variants/network_architecture/NexToU_Encoder_Decoder.py:140-200 | every encoder the constructor builds has four or more stages, list fields of one entry per stage, `opt` set from the last schedule entry, and stage `s` outputting `output_channels[s]` with the GNN blocks of its stage number |
| Network.EncoderChainsChannels | nnunetv2/training/nnUNetTrainer/variants/network_architecture/NexToU_Encoder_Decoder.py:163-199 | in every encoder the constructor builds, each stage reads the channels the stage before it outputs, and each stage has no GNN block or a PoolGNN and a SwinGNN block, never one alone |
| Network.EncoderGnnIndicesInRange | nnunetv2/training/nnUNetTrainer/variants/network_architecture/NexToU_Encoder_Decoder.py:181-192 | every GNN block of a built encoder indexes `blocks`, `k_list`, `reduce_ratios` and `n_size_list` within bounds, with index in `0..3` |
| Network.DecoderGnn | nnunetv2/training/nnUNetTrainer/variants/network_architecture/NexToU_Encoder_Decoder.py:335-356 | decoder stage `s` has GNN blocks iff `s < 4`, with block index `3 - s` |
| Network.DecoderStageAt | nnunetv2/training/nnUNetTrainer/variants/network_architecture/NexToU_Encoder_Decoder.py:325-361 | decoder stage `s` in closed form: the transposed conv from `output_channels[-s]` to `output_channels[-(s+1)]` with stride `strides[-s]`, input channels twice the skip's, and GNN blocks iff `s < 4` |
| Network.BuildDecoderStage | nnunetv2/training/nnUNetTrainer/variants/network_architecture/NexToU_Encoder_Decoder.py:324-361 | one pass of the decoder loop fails exactly when `s < 4` and `max_dilation` fails, with its error; otherwise it builds exactly the closed-form stage `s` (the SwinGNN-only branch never runs) |
| Network.BuildDecoderStages | nnunetv2/training/nnUNetTrainer/variants/network_architecture/NexToU_Encoder_Decoder.py:324-363 | the decoder loop raises `ZeroDivisionError` exactly when `min_k` of `img_min_shape` is 0 (stage 1 always has GNN blocks); otherwise it builds one stage per encoder stage but the first, stage `s` equal to the closed form |
| Network.NewDecoder | nnunetv2/training/nnUNetTrainer/variants/network_architecture/NexToU_Encoder_Decoder.py:266-365 | a `n_conv_per_stage` of the wrong length fails the assert (`AssertionError`); otherwise `strides` shorter than `n - 1` raises `IndexError` at stage 1's `img_shape_list[n - 2]`; otherwise the constructor raises `ZeroDivisionError` exactly when `min_k` of the smallest scheduled shape is 0, and nothing else fails; on success it recomputes the schedule from the patch and strides, builds one stage per encoder stage but the first, and stage `s` is the closed form |
| Network.DecoderMirrorsEncoder | nnunetv2/training/nnUNetTrainer/variants/network_architecture/NexToU_Encoder_Decoder.py:325-343 | decoder stage `s` outputs the channels of encoder stage `n-1-s`, carries the same GNN blocks (same shape and index), and upsamples the output of encoder stage `n-s` with its stride |
| Network.DecoderMirrorsEncoderEverywhere | nnunetv2/training/nnUNetTrainer/variants/network_architecture/NexToU_Encoder_Decoder.py:325-343 | when the decoder's schedule is the encoder's, every decoder stage mirrors its encoder partner: same output channels, same GNN blocks, and a transposed conv from the stage below with that stage's stride |
| Network.BuiltDecoderMirrorsBuiltEncoder | nnunetv2/training/nnUNetTrainer/variants/network_architecture/NexToU_Encoder_Decoder.py:279-343 | for an encoder the constructor builds and a decoder built from it with the same `patch_size` and `strides`, the two schedules agree and every decoder stage `s` mirrors encoder stage `n-1-s` |
| Network.DecoderChannelsChain | nnunetv2/training/nnUNetTrainer/variants/network_architecture/NexToU_Encoder_Decoder.py:325-337 | the first transposed conv reads the bottleneck's channels, each later one the previous decoder stage's, every stage reads twice its transposed conv's output (the concatenation), and the last stage outputs `features_per_stage[0]` |
| Network.DecoderGnnIndicesInRange | nnunetv2/training/nnUNetTrainer/variants/network_architecture/NexToU_Encoder_Decoder.py:340-342 | every GNN block of a built decoder indexes its lists within bounds |
| Layout.Coord | nnunetv2/training/nnUNetTrainer/variants/network_architecture/NexToU_Encoder_Decoder.py:702 | every flat position of a contiguous tensor has a coordinate that maps back to it |
| Layout.CoordOffset | nnunetv2/training/nnUNetTrainer/variants/network_architecture/NexToU_Encoder_Decoder.py:702 | the row-major position of a coordinate determines the coordinate |
| Layout.PermuteInverse | nnunetv2/training/nnUNetTrainer/variants/network_architecture/NexToU_Encoder_Decoder.py:702-705 | permuting axes by a permutation and then its inverse restores the axes |
| Layout.TransposeMoves | nnunetv2/training/nnUNetTrainer/variants/network_architecture/NexToU_Encoder_Decoder.py:702 | `x.permute(p)` moves the element at coordinate `c` to the permuted coordinate |
| Layout.TransposeRoundTrip | nnunetv2/training/nnUNetTrainer/variants/network_architecture/NexToU_Encoder_Decoder.py:702-736 | permuting a tensor and permuting back restores its shape and elements |
| Layout.Roll | nnunetv2/training/nnUNetTrainer/variants/network_architecture/NexToU_Encoder_Decoder.py:838 | `torch.roll` keeps the number of elements |
| Layout.RollMoves | nnunetv2/training/nnUNetTrainer/variants/network_architecture/NexToU_Encoder_Decoder.py:838-840 | `torch.roll` moves the element at `c` to `c + shifts`, wrapping on every axis |
| Layout.ShiftBack | nnunetv2/training/nnUNetTrainer/variants/network_architecture/NexToU_Encoder_Decoder.py:838-867 | on an axis of length `n`, shifting by `-a` and then by `a` restores a position |
| Layout.ShiftCoordBack | nnunetv2/training/nnUNetTrainer/variants/network_architecture/NexToU_Encoder_Decoder.py:838-867 | shifting a coordinate by `shifts` and then by `-shifts` restores it on every axis |
| Layout.RollRoundTrip | nnunetv2/training/nnUNetTrainer/variants/network_architecture/NexToU_Encoder_Decoder.py:837-871 | rolling by `-shift_size` and then by `shift_size` restores the tensor |
| Layout.TransposeMap | nnunetv2/training/nnUNetTrainer/variants/network_architecture/NexToU_Encoder_Decoder.py:702-712 | permuting axes commutes with an element-wise map |
| Layout.RollMap | nnunetv2/training/nnUNetTrainer/variants/network_architecture/NexToU_Encoder_Decoder.py:838-840 | rolling commutes with an element-wise map |
| Windows.ChannelsPerms | nnunetv2/training/nnUNetTrainer/variants/network_architecture/NexToU_Encoder_Decoder.py:702-712 | the channels-last and channels-first permutations are inverse to each other |
| Windows.ChannelsPermsAsWritten | nnunetv2/training/nnUNetTrainer/variants/network_architecture/NexToU_Encoder_Decoder.py:702-712 | the permutations are `(0,2,3,1)`, `(0,3,1,2)`, `(0,2,3,4,1)` and `(0,4,1,2,3)` |
| Windows.WindowsPerms | nnunetv2/training/nnUNetTrainer/variants/network_architecture/NexToU_Encoder_Decoder.py:703-734 | the axis orders of the two `rearrange` patterns are inverse to each other |
| Windows.WindowsFirstShape | nnunetv2/training/nnUNetTrainer/variants/network_architecture/NexToU_Encoder_Decoder.py:703-710 | the pattern moves the window-grid axes ahead of the in-window axes |
| Windows.GroupAxes | nnunetv2/training/nnUNetTrainer/variants/network_architecture/NexToU_Encoder_Decoder.py:703-710 | the pattern `b (h p1) (w p2) c -> (b h w) p1 p2 c` brings the axes into the order `b, grid..., window..., c` |
| Windows.UngroupAxes | nnunetv2/training/nnUNetTrainer/variants/network_architecture/NexToU_Encoder_Decoder.py:734-743 | the reverse pattern restores the interleaved order `b, h, p1, w, p2, c` |
| Windows.SplitKeepsCount | nnunetv2/training/nnUNetTrainer/variants/network_architecture/NexToU_Encoder_Decoder.py:703-710 | splitting `(h p1)` into `h, p1` keeps the number of elements |
| Windows.MergeKeepsCount | nnunetv2/training/nnUNetTrainer/variants/network_architecture/NexToU_Encoder_Decoder.py:703-710 | merging `(b h w)` keeps the number of elements |
| Windows.ChannelsRoundTrip | nnunetv2/training/nnUNetTrainer/variants/network_architecture/NexToU_Encoder_Decoder.py:702-736 | channels last, then channels first, restores the data |
| Windows.ChannelsRoundTripBack | nnunetv2/training/nnUNetTrainer/variants/network_architecture/NexToU_Encoder_Decoder.py:705-733 | channels first, then channels last, restores the data |
| Windows.GroupRoundTrip | nnunetv2/training/nnUNetTrainer/variants/network_architecture/NexToU_Encoder_Decoder.py:703-734 | grouping into windows and ungrouping restores the data |
| Windows.GroupRoundTripBack | nnunetv2/training/nnUNetTrainer/variants/network_architecture/NexToU_Encoder_Decoder.py:703-734 | ungrouping windows and grouping again restores the data |
| Windows.WindowGrid | nnunetv2/training/nnUNetTrainer/variants/network_architecture/NexToU_Encoder_Decoder.py:735-744 | the window grid is `(H // p1, W // p2[, ...])` |
| Windows.DivisibleSplits | nnunetv2/training/nnUNetTrainer/variants/network_architecture/NexToU_Encoder_Decoder.py:703-710 | an axis that is a whole number of windows is the grid times the window |
| Windows.WindowPartition | nnunetv2/training/nnUNetTrainer/variants/network_architecture/NexToU_Encoder_Decoder.py:690-716 | `NotImplementedError` for ranks other than 4 and 5, `IndexError` for a short `window_size`, `RuntimeError` when an axis is not a whole number of windows, and no other failure; the result has shape `(B * prod(grid), C, *window)` |
| Windows.WindowReverse | nnunetv2/training/nnUNetTrainer/variants/network_architecture/NexToU_Encoder_Decoder.py:718-749 | `NotImplementedError` for ranks other than 4 and 5, `ValueError` when `size_tuple` has the wrong length, `IndexError` for a short `window_size`, `ZeroDivisionError` for a zero-volume `size_tuple`, and otherwise `RuntimeError` (from `einops`) unless `windows.shape[0] == B * prod(grid)` and `windows.shape[2:] == window_size`; it succeeds exactly then, with result `(B, C, *grid*window)` |
| Windows.ReverseSized | nnunetv2/training/nnUNetTrainer/variants/network_architecture/NexToU_Encoder_Decoder.py:730-745 | once the rank and lengths match, `ZeroDivisionError` for a zero-volume `size_tuple`, `RuntimeError` for any other failure, success exactly when `windows.shape[0] == B * prod(grid)` and the windows have the window's shape, and then the reassembled shape |
| Windows.InferredBatch | nnunetv2/training/nnUNetTrainer/variants/network_architecture/NexToU_Encoder_Decoder.py:731-739 | `B = int(M / (prod(size) / prod(window)))` is the largest `b` with `b * prod(size) <= M * prod(window)` |
| Windows.WholeImagesBatch | nnunetv2/training/nnUNetTrainer/variants/network_architecture/NexToU_Encoder_Decoder.py:731-739 | when every axis of `size_tuple` is a whole number of windows, `B` is `M // prod(grid)`, and `M == B * prod(grid)` iff `prod(grid)` divides `M` |
| Windows.ReverseWholeImages | nnunetv2/training/nnUNetTrainer/variants/network_architecture/NexToU_Encoder_Decoder.py:718-745 | when every axis of `size_tuple` is a whole number of windows, `window_reverse` succeeds exactly when the windows have the window's shape and their number is a multiple of the windows per image |
| Windows.Partition | nnunetv2/training/nnUNetTrainer/variants/network_architecture/NexToU_Encoder_Decoder.py:700-712 | the windows of a divisible tensor have shape `(B * prod(grid), C, *window)` |
| Windows.Unpartition | nnunetv2/training/nnUNetTrainer/variants/network_architecture/NexToU_Encoder_Decoder.py:730-745 | reassembled windows have shape `(B, C, *grid*window)` |
| Windows.UnpartitionPartition | nnunetv2/training/nnUNetTrainer/variants/network_architecture/NexToU_Encoder_Decoder.py:700-745 | reassembling the windows of a tensor restores it |
| Windows.PartitionUnpartition | nnunetv2/training/nnUNetTrainer/variants/network_architecture/NexToU_Encoder_Decoder.py:700-745 | partitioning reassembled windows restores them |
| Windows.GridOfSplit | nnunetv2/training/nnUNetTrainer/variants/network_architecture/NexToU_Encoder_Decoder.py:735-744 | an axis made of whole windows divides exactly and gives back the window count |
| Windows.BatchRecovered | nnunetv2/training/nnUNetTrainer/variants/network_architecture/NexToU_Encoder_Decoder.py:732-740 | the division `windows.shape[0] / (H * W / p1 / p2)`, done exactly, gives back `B` |
| Windows.ReverseSizedOfPartition | nnunetv2/training/nnUNetTrainer/variants/network_architecture/NexToU_Encoder_Decoder.py:700-745 | on the windows of a non-empty divisible tensor, `window_reverse` recomputes the original batch size and reassembles them |
| Windows.ReverseAfterPartition | nnunetv2/training/nnUNetTrainer/variants/network_architecture/NexToU_Encoder_Decoder.py:690-749 | `window_reverse(window_partition(x, ws), ws, x.shape[2:])` is `x` whenever the partition succeeds on a non-empty image |
| Windows.PartitionAfterReverse | nnunetv2/training/nnUNetTrainer/variants/network_architecture/NexToU_Encoder_Decoder.py:690-749 | `window_partition(window_reverse(w, ws, size), ws)` is `w` whenever the reverse succeeds |
| Windows.PartitionMap | nnunetv2/training/nnUNetTrainer/variants/network_architecture/NexToU_Encoder_Decoder.py:690-716 | partitioning commutes with an element-wise map |
| Windows.RollTensor | nnunetv2/training/nnUNetTrainer/variants/network_architecture/NexToU_Encoder_Decoder.py:838-840 | rolling keeps the tensor's shape |
| Windows.SpatialShifts | nnunetv2/training/nnUNetTrainer/variants/network_architecture/NexToU_Encoder_Decoder.py:838-840 | the shifts act on `dims=(2, 3[, 4])` only: batch and channel axes get 0 |
| Windows.ResidualAdd | nnunetv2/training/nnUNetTrainer/variants/network_architecture/NexToU_Encoder_Decoder.py:873 | `x + _tmp` succeeds exactly for equal shapes and adds element by element |
| Windows.WindowStage | nnunetv2/training/nnUNetTrainer/variants/network_architecture/NexToU_Encoder_Decoder.py:846-863 | partition, window layers and reverse give a well-formed tensor of rank `len(size_tuple) + 2` |
| Windows.SwinGrapherForward | nnunetv2/training/nnUNetTrainer/variants/network_architecture/NexToU_Encoder_Decoder.py:822-874 | a wrong rank or `img_shape` length fails the tuple unpacking (`ValueError`), a spatial size other than `img_shape` fails the assert (`AssertionError`), an empty `shift_size` fails `max` (`ValueError`), a positive shift with fewer entries than axes raises `IndexError`, and a success keeps the input's shape |
| Windows.WindowStagePointwise | nnunetv2/training/nnUNetTrainer/variants/network_architecture/NexToU_Encoder_Decoder.py:846-863 | with element-wise window layers, partition, layers and reverse are the element-wise map itself |
| Windows.SwinGrapherPointwise | nnunetv2/training/nnUNetTrainer/variants/network_architecture/NexToU_Encoder_Decoder.py:837-873 | with element-wise window layers the shift, partition, reverse and unshift cancel: the forward is `g(x) + x` element by element and succeeds |
| Forward.EncoderForward | nnunetv2/training/nnUNetTrainer/variants/network_architecture/NexToU_Encoder_Decoder.py:217-229 | returns the output of every stage in stage order with `return_skips`, otherwise only the last stage's output (`IndexError` with no stages) |
| Forward.EncoderOutputsChain | nnunetv2/training/nnUNetTrainer/variants/network_architecture/NexToU_Encoder_Decoder.py:218-225 | the first skip is stage 0 applied to the stem's output, each later skip is the next stage applied to the previous skip, and the last skip is the whole encoder's result |
| Forward.EncoderOutputStep | nnunetv2/training/nnUNetTrainer/variants/network_architecture/NexToU_Encoder_Decoder.py:222-225 | skip `i` is stage `i` applied to the result of stages `0..i-1` |
| Forward.EncoderOutputLast | nnunetv2/training/nnUNetTrainer/variants/network_architecture/NexToU_Encoder_Decoder.py:222-229 | the last skip is the result of running the stem and every stage |
| Forward.DecoderForward | nnunetv2/training/nnUNetTrainer/variants/network_architecture/NexToU_Encoder_Decoder.py:367-393 | fails with `IndexError` iff there are fewer than `len(stages) + 1` skips (or, without deep supervision, no stages); otherwise returns every stage's segmentation, last stage first, or only the last stage's |
| Forward.Reversed | nnunetv2/training/nnUNetTrainer/variants/network_architecture/NexToU_Encoder_Decoder.py:387 | `seg_outputs[::-1]` puts element `len-1-i` at position `i` |
| Forward.DeepSupervisionOrder | nnunetv2/training/nnUNetTrainer/variants/network_architecture/NexToU_Encoder_Decoder.py:380-392 | with deep supervision output `i` is stage `len-1-i`'s segmentation, so the highest resolution comes first, and it equals the single output returned without deep supervision |
| Forward.DecoderUsesMirroredSkips | nnunetv2/training/nnUNetTrainer/variants/network_architecture/NexToU_Encoder_Decoder.py:374-379 | fed the encoder's skips, decoder stage 0 upsamples the bottleneck, later stages the previous stage, and stage `s` concatenates the output of encoder stage `n-2-s` |
| SurfaceDice.CountsPartition | nnunet/evaluation/surface_dice.py:39-43 | every distance is counted exactly once, as within the threshold (`<=`) or beyond it (`>`) |
| SurfaceDice.Counts | nnunet/evaluation/surface_dice.py:39-43 | `tp_a + fp` is the number of a→b distances and `tp_b + fn` the number of b→a distances |
| SurfaceDice.CountWithinIsCardinality | nnunet/evaluation/surface_dice.py:39-40 | `np.sum(d <= t)` is the number of positions whose distance is at most `t` |
| SurfaceDice.AllWithin | nnunet/evaluation/surface_dice.py:39-40 | the within-count is the full length iff every distance is at most the threshold |
| SurfaceDice.NoneWithin | nnunet/evaluation/surface_dice.py:39-40 | the within-count is 0 iff every distance exceeds the threshold |
| SurfaceDice.CountWithinMonotone | nnunet/evaluation/surface_dice.py:39-40 | a larger threshold never lowers the within-count |
| SurfaceDice.NormalizedSurfaceDice | nnunet/evaluation/surface_dice.py:20-46 | the result is undefined (NaN) iff both distance arrays are empty, and otherwise lies in `[0, 1]` |
| SurfaceDice.SurfaceDiceIsWithinFraction | nnunet/evaluation/surface_dice.py:39-45 | the result is the number of distances within the threshold over the total number of distances |
| SurfaceDice.SurfaceDiceSymmetric | nnunet/evaluation/surface_dice.py:22-46 | swapping the images swaps `tp_a` with `tp_b` and `fp` with `fn`, and leaves the value unchanged |
| SurfaceDice.SurfaceDiceOneIff | nnunet/evaluation/surface_dice.py:39-45 | the value is 1 iff no distance in either direction exceeds the threshold |
| SurfaceDice.SurfaceDiceZeroIff | nnunet/evaluation/surface_dice.py:39-45 | the value is 0 iff no distance in either direction is within the threshold |
| SurfaceDice.SurfaceDiceMonotone | nnunet/evaluation/surface_dice.py:39-45 | the value never decreases as the threshold grows |
| SurfaceDice.EffectiveSpacing | nnunet/evaluation/surface_dice.py:34-35 | `spacing=None` becomes one `1` per axis of `a`; a given spacing is used unchanged |

## Left out

- Tensor numerics are not modelled; the layers they come from are abstract functions. This covers convolutions, normalisation, activations, the FFN, MRConv aggregation, the KNN graph, pooling values, relative position embeddings and their interpolation, and DropPath (taken as the identity in the residual add).
- The stochastic-depth schedule `torch.linspace` (`dpr`) is floating-point numerics, so it is not modelled.
- `compute_conv_feature_map_size` is not modelled. It delegates to `StackedResidualBlocks`, which is not part of this model.
- The trainer file `nnUNetTrainer_NexToU.py` is not modelled. It is framework glue over classes that are not part of this model.
- medpy's `__surface_distances` is a foreign call. Its two outputs are inputs to the model, and the `spacing` passed to it only feeds that call.
- Numpy float dtypes and NaN distances are not modelled; distances are exact reals.
- Windows.WindowReverse: `B = int(N / (H * W / p1 / p2))` is float arithmetic in the source. The model uses exact real division, so rounding error for very large sizes is not captured.
- Windows.WindowPartition, Windows.WindowReverse and Windows.SwinGrapherForward require positive window sizes. A zero window axis raises inside `einops` in the source, and that error path is not modelled.
- Windows.ResidualAdd: torch broadcasting of unequal shapes is treated as an error, though broadcastable shapes would succeed in torch.
- Shapes.ComputeSchedule, Network.NewEncoder and Network.NewDecoder require a `patch_size` with at least one entry per spatial axis and pooling kernels of exactly one positive entry per axis. The source's other outcomes are not modelled: a short `patch_size` raises `IndexError`, a kernel of the wrong length raises `ValueError` when it is unpacked, a zero kernel entry raises `ZeroDivisionError`, and a negative one is accepted and floor-divides to negative shape entries.
- Network.NewEncoder requires `n_stages >= 4` and list arguments of the right lengths (the source's `assert`s). Below four stages `opt.blocks` has `n_stages` entries while stage `s` reads entry `s + 4 - n_stages`, and none of these outcomes is modelled: with no stage the default stem raises `IndexError` on `kernel_sizes[0]`, and a disabled stem gives an empty encoder; with one or two stages the first stage raises `IndexError`; with three stages the first stage may raise the `ZeroDivisionError` of `max_dilation`, and otherwise the third raises `IndexError`.
- Network.NewEncoder takes per-stage lists and 2-d/3-d convolutions only. Scalar-to-list broadcasting (`maybe_convert_scalar_to_list`) and the `ValueError` for other convolution types are not modelled.
- Network.NewDecoder takes `n_conv_per_stage` as a list; the broadcast of a single int to `n - 1` copies is not modelled. It also requires an encoder with at least four stages and list fields of one entry per stage (`DecodableEncoder`), although the source accepts any encoder: with three stages the decoder builds GNN blocks with stage offset -1, and with two it raises `IndexError` on `blocks_num_list[2]`; neither outcome is modelled.
- GraphConfig.PoolGnnBlocks: the `window_size` and `shift_size` that `PoolGNNBlocks` computes but never passes on are not modelled.
- A stage layout records only its channel, kernel, stride, block-count, pooling and GNN arguments, and the error a GNN block's constructor raises. The remaining constructor arguments of the residual stacks and transposed convs are not modelled: `conv_bias`, the norm, dropout and nonlinearity ops with their kwargs, `block`, `bottleneck_channels[s]`, `stochastic_depth_p` and the squeeze-excitation options. Neither are the torch modules themselves.
