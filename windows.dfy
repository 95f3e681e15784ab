/**
 * `window_partition`, `window_reverse` and the reshaping in
 * `SwinGrapher.forward`. A tensor is its shape and its elements in row-major
 * order; each `permute` and each `einops.rearrange` is an axis permutation of
 * the elements (`Layout.Transpose`), and the splitting `(h p1)` or merging
 * `(b h w)` of axes leaves the flat order unchanged and only renames the shape.
 */
module Windows {
  import opened Wrappers
  import opened Shapes
  import opened Layout
  import GraphConfig

  datatype Tensor<T> = Tensor(shape: seq<nat>, data: seq<T>) {
    predicate Valid() {
      |data| == Prod(shape)
    }
  }

  // ---------------------------------------------------------------------------
  // Shapes of the intermediate views

  /** `(n p)` on every axis: the size of an axis made of `n[a]` windows of `p[a]`. */
  function MulAxes(n: seq<nat>, p: seq<nat>): (h: seq<nat>)
    requires |n| == |p|
    ensures |h| == |n| && forall a :: 0 <= a < |n| ==> h[a] == n[a] * p[a]
  {
    seq(|n|, a requires 0 <= a < |n| => n[a] * p[a])
  }

  /** The split axes `n[0], p[0], n[1], p[1], ...` of the pattern `(h p1) (w p2)`. */
  function Interleave(n: seq<nat>, p: seq<nat>): (r: seq<nat>)
    requires |n| == |p|
    ensures |r| == 2 * |n|
    ensures forall a :: 0 <= a < |n| ==> r[2 * a] == n[a] && r[2 * a + 1] == p[a]
  {
    if n == [] then []
    else
      var k := |n| - 1;
      Interleave(n[..k], p[..k]) + [n[k], p[k]]
  }

  lemma Regroup(a: int, b: int, x: int, y: int)
    ensures (a * b) * x * y == (a * x) * (b * y) && (a * b) * (x * y) == (a * x) * (b * y)
  {
  }

  lemma ProdCons(a: nat, s: seq<nat>)
    ensures Prod([a] + s) == a * Prod(s)
  {
    ProdAppend([a], s);
    assert Prod([a]) == Prod([]) * a;
  }

  lemma ProdSnoc(s: seq<nat>, c: nat)
    ensures Prod(s + [c]) == Prod(s) * c
  {
    assert (s + [c])[..|s|] == s;
  }

  /** The product of the merged axes is the product of the windows per axis times the window volume. */
  lemma {:induction false} ProdMulAxes(n: seq<nat>, p: seq<nat>)
    requires |n| == |p|
    ensures Prod(MulAxes(n, p)) == Prod(n) * Prod(p)
  {
    if n != [] {
      var k := |n| - 1;
      ProdMulAxes(n[..k], p[..k]);
      assert MulAxes(n, p)[..k] == MulAxes(n[..k], p[..k]);
      Regroup(Prod(n[..k]), Prod(p[..k]), n[k], p[k]);
    }
  }

  /** Splitting every axis into (windows, window) keeps the number of elements. */
  lemma {:induction false} ProdInterleave(n: seq<nat>, p: seq<nat>)
    requires |n| == |p|
    ensures Prod(Interleave(n, p)) == Prod(n) * Prod(p)
  {
    if n != [] {
      var k := |n| - 1;
      var i := Interleave(n[..k], p[..k]);
      ProdInterleave(n[..k], p[..k]);
      ProdSnoc(i, n[k]);
      ProdSnoc(i + [n[k]], p[k]);
      assert i + [n[k], p[k]] == (i + [n[k]]) + [p[k]];
      assert Prod(Interleave(n, p)) == Prod(i) * n[k] * p[k];
      Regroup(Prod(n[..k]), Prod(p[..k]), n[k], p[k]);
    }
  }

  /** The number of elements of `[b] + middle + [c]`. */
  lemma ProdFramed(b: nat, middle: seq<nat>, c: nat)
    ensures Prod([b] + middle + [c]) == b * Prod(middle) * c
    ensures Prod([b, c] + middle) == b * Prod(middle) * c
  {
    ProdSnoc([b] + middle, c);
    ProdCons(b, middle);
    ProdAppend([b, c], middle);
    ProdCons(c, []);
    ProdCons(b, [c]);
    assert [b] + [c] == [b, c];
  }

  // ---------------------------------------------------------------------------
  // The axis permutations

  /** `permute(0, 2, ..., n-1, 1)`: channels moved from axis 1 to the last axis. */
  function ChannelsLast(n: nat): (p: seq<nat>)
    requires n >= 2
    ensures |p| == n
  {
    seq(n, i requires 0 <= i < n => if i == 0 then 0 else if i == n - 1 then 1 else i + 1)
  }

  /** `permute(0, n-1, 1, ..., n-2)`: channels moved from the last axis back to axis 1. */
  function ChannelsFirst(n: nat): (p: seq<nat>)
    requires n >= 2
    ensures |p| == n
  {
    seq(n, j requires 0 <= j < n => if j == 0 then 0 else if j == 1 then n - 1 else j - 1)
  }

  lemma ChannelsPerms(n: nat)
    requires n >= 2
    ensures InversePerms(ChannelsLast(n), ChannelsFirst(n), n)
    ensures InversePerms(ChannelsFirst(n), ChannelsLast(n), n)
  {
  }

  /** The permutations are the ones written in the source for 4- and 5-dimensional tensors. */
  lemma ChannelsPermsAsWritten()
    ensures ChannelsLast(4) == [0, 2, 3, 1] && ChannelsFirst(4) == [0, 3, 1, 2]
    ensures ChannelsLast(5) == [0, 2, 3, 4, 1] && ChannelsFirst(5) == [0, 4, 1, 2, 3]
  {
  }

  /** `b (h p1) (w p2) c -> b h w p1 p2 c` on the split axes, for `r` spatial axes. */
  function WindowsFirst(r: nat): (p: seq<nat>)
    ensures |p| == 2 * r + 2
  {
    seq(2 * r + 2, i requires 0 <= i < 2 * r + 2 =>
      if i == 0 then 0
      else if i <= r then 2 * i - 1
      else if i <= 2 * r then 2 * (i - r)
      else 2 * r + 1)
  }

  /** `b h w p1 p2 c -> b (h p1) (w p2) c` on the split axes: the inverse of `WindowsFirst`. */
  function WindowsBack(r: nat): (p: seq<nat>)
    ensures |p| == 2 * r + 2
  {
    seq(2 * r + 2, j requires 0 <= j < 2 * r + 2 =>
      if j == 0 then 0
      else if j == 2 * r + 1 then 2 * r + 1
      else if j % 2 == 1 then (j + 1) / 2
      else r + j / 2)
  }

  lemma WindowsPerms(r: nat)
    ensures InversePerms(WindowsFirst(r), WindowsBack(r), 2 * r + 2)
    ensures InversePerms(WindowsBack(r), WindowsFirst(r), 2 * r + 2)
  {
    forall i | 0 <= i < 2 * r + 2
      ensures WindowsFirst(r)[i] < 2 * r + 2 && WindowsBack(r)[WindowsFirst(r)[i]] == i
    {
      FirstThenBack(r, i);
    }
    forall j | 0 <= j < 2 * r + 2
      ensures WindowsBack(r)[j] < 2 * r + 2 && WindowsFirst(r)[WindowsBack(r)[j]] == j
    {
      BackThenFirst(r, j);
    }
  }

  lemma FirstThenBack(r: nat, i: nat)
    requires i < 2 * r + 2
    ensures WindowsFirst(r)[i] < 2 * r + 2 && WindowsBack(r)[WindowsFirst(r)[i]] == i
  {
    if 1 <= i <= r {
      WindowsBackOdd(r, i - 1);
    } else if r < i <= 2 * r {
      WindowsBackEven(r, i - r - 1);
    }
  }

  lemma BackThenFirst(r: nat, j: nat)
    requires j < 2 * r + 2
    ensures WindowsBack(r)[j] < 2 * r + 2 && WindowsFirst(r)[WindowsBack(r)[j]] == j
  {
    if 1 <= j <= 2 * r {
      Parity(j);
      if j % 2 == 1 {
        WindowsBackOdd(r, j / 2);
      } else {
        WindowsBackEven(r, j / 2 - 1);
      }
    }
  }

  lemma ChannelsLastShape(b: nat, c: nat, h: seq<nat>)
    ensures InversePerms(ChannelsLast(|h| + 2), ChannelsFirst(|h| + 2), |[b, c] + h|)
    ensures Permute([b, c] + h, ChannelsLast(|h| + 2)) == [b] + h + [c]
    ensures Permute([b] + h + [c], ChannelsFirst(|h| + 2)) == [b, c] + h
  {
    ChannelsPerms(|h| + 2);
  }

  lemma WindowsFirstShape(b: nat, c: nat, n: seq<nat>, p: seq<nat>)
    requires |n| == |p|
    ensures InversePerms(WindowsFirst(|n|), WindowsBack(|n|), |[b] + Interleave(n, p) + [c]|)
    ensures Permute([b] + Interleave(n, p) + [c], WindowsFirst(|n|)) == [b] + n + p + [c]
    ensures Permute([b] + n + p + [c], WindowsBack(|n|)) == [b] + Interleave(n, p) + [c]
  {
    WindowsPerms(|n|);
    GroupAxes(b, c, n, p);
    UngroupAxes(b, c, n, p);
  }

  /** Every entry of an axis order of length `m` names one of the `m` axes. */
  predicate WindowsBounded(p: seq<nat>) {
    forall i :: 0 <= i < |p| ==> p[i] < |p|
  }

  lemma WindowsBoundedHolds(r: nat)
    ensures WindowsBounded(WindowsFirst(r)) && WindowsBounded(WindowsBack(r))
  {
  }

  /** `WindowsFirst` brings the split axes into the order `b, n..., p..., c`. */
  lemma GroupAxes(b: nat, c: nat, n: seq<nat>, p: seq<nat>)
    requires |n| == |p|
    ensures Permute([b] + Interleave(n, p) + [c], WindowsFirst(|n|)) == [b] + n + p + [c]
  {
    WindowsBoundedHolds(|n|);
    forall i | 0 <= i < 2 * |n| + 2
      ensures Permute([b] + Interleave(n, p) + [c], WindowsFirst(|n|))[i] == ([b] + n + p + [c])[i]
    {
      GroupAt(b, c, n, p, i);
    }
  }

  lemma GroupAt(b: nat, c: nat, n: seq<nat>, p: seq<nat>, i: nat)
    requires |n| == |p| && i < 2 * |n| + 2
    ensures WindowsFirst(|n|)[i] < 2 * |n| + 2
    ensures ([b] + Interleave(n, p) + [c])[WindowsFirst(|n|)[i]] == ([b] + n + p + [c])[i]
  {
    var r := |n|;
    var k := WindowsFirst(r)[i];
    if 1 <= i <= r {
      assert k == 2 * (i - 1) + 1;
      FramedAt(b, c, Interleave(n, p), k);
      GroupedAt(b, c, n, p, i);
    } else if r < i <= 2 * r {
      assert k == 2 * (i - r - 1) + 2;
      FramedAt(b, c, Interleave(n, p), k);
      GroupedAt(b, c, n, p, i);
    }
  }

  /** `WindowsBack` restores the interleaved order `b, n[0], p[0], ..., c`. */
  lemma UngroupAxes(b: nat, c: nat, n: seq<nat>, p: seq<nat>)
    requires |n| == |p|
    ensures Permute([b] + n + p + [c], WindowsBack(|n|)) == [b] + Interleave(n, p) + [c]
  {
    WindowsBoundedHolds(|n|);
    forall j | 0 <= j < 2 * |n| + 2
      ensures Permute([b] + n + p + [c], WindowsBack(|n|))[j] == ([b] + Interleave(n, p) + [c])[j]
    {
      UngroupAt(b, c, n, p, j);
    }
  }

  lemma UngroupAt(b: nat, c: nat, n: seq<nat>, p: seq<nat>, j: nat)
    requires |n| == |p| && j < 2 * |n| + 2
    ensures WindowsBack(|n|)[j] < 2 * |n| + 2
    ensures ([b] + n + p + [c])[WindowsBack(|n|)[j]] == ([b] + Interleave(n, p) + [c])[j]
  {
    var r := |n|;
    if 1 <= j <= 2 * r {
      Parity(j);
      FramedAt(b, c, Interleave(n, p), j);
      if j % 2 == 1 {
        WindowsBackOdd(r, j / 2);
        GroupedAt(b, c, n, p, j / 2 + 1);
      } else {
        WindowsBackEven(r, j / 2 - 1);
        GroupedAt(b, c, n, p, r + j / 2);
      }
    }
  }

  /** Position `k` of `[b] + s + [c]`, for `1 <= k <= |s|`, is `s[k - 1]`. */
  lemma FramedAt<X>(b: X, c: X, s: seq<X>, k: nat)
    requires 1 <= k <= |s|
    ensures ([b] + s + [c])[k] == s[k - 1]
  {
  }

  /** Position `i` of `[b] + n + p + [c]` for `1 <= i <= 2 * |n|`. */
  lemma GroupedAt<X>(b: X, c: X, n: seq<X>, p: seq<X>, i: nat)
    requires |n| == |p| && 1 <= i <= 2 * |n|
    ensures i <= |n| ==> ([b] + n + p + [c])[i] == n[i - 1]
    ensures |n| < i ==> ([b] + n + p + [c])[i] == p[i - |n| - 1]
  {
    assert [b] + n + p + [c] == [b] + (n + p) + [c];
  }

  lemma Parity(j: nat)
    ensures j % 2 == 1 ==> j == 2 * (j / 2) + 1
    ensures j % 2 == 0 ==> j == 2 * (j / 2)
  {
  }

  lemma WindowsBackOdd(r: nat, a: nat)
    requires a < r
    ensures WindowsBack(r)[2 * a + 1] == a + 1
  {
    assert (2 * a + 1) % 2 == 1 && (2 * a + 2) / 2 == a + 1;
  }

  lemma WindowsBackEven(r: nat, a: nat)
    requires a < r
    ensures WindowsBack(r)[2 * a + 2] == r + a + 1
  {
    assert (2 * a + 2) % 2 == 0 && (2 * a + 2) / 2 == a + 1;
  }

  /** Splitting each spatial axis `(h p1)` into `h, p1` keeps the number of elements. */
  lemma SplitKeepsCount(b: nat, c: nat, n: seq<nat>, p: seq<nat>)
    requires |n| == |p|
    ensures Prod([b] + MulAxes(n, p) + [c]) == Prod([b] + Interleave(n, p) + [c])
  {
    ProdFramed(b, MulAxes(n, p), c);
    ProdFramed(b, Interleave(n, p), c);
    ProdMulAxes(n, p);
    ProdInterleave(n, p);
  }

  /** Merging the batch and window-grid axes `(b h w)` keeps the number of elements. */
  lemma MergeKeepsCount(b: nat, c: nat, n: seq<nat>, p: seq<nat>)
    ensures Prod([b] + n + p + [c]) == Prod([b * Prod(n)] + p + [c])
  {
    ProdNonNegative(n);
    ProdGrouped(b, c, n, p);
    ProdFramed(b * Prod(n), p, c);
    Reassociate(b, Prod(n), Prod(p), c);
  }

  lemma ProdGrouped(b: nat, c: nat, n: seq<nat>, p: seq<nat>)
    ensures Prod([b] + n + p + [c]) == b * (Prod(n) * Prod(p)) * c
  {
    assert [b] + n + p + [c] == [b] + (n + p) + [c];
    ProdFramed(b, n + p, c);
    ProdAppend(n, p);
  }

  lemma Reassociate(b: int, x: int, y: int, c: int)
    ensures b * (x * y) * c == (b * x) * y * c
  {
  }

  // ---------------------------------------------------------------------------
  // The element moves of each step

  /** `permute(0, 2, ..., 1)` on a contiguous `(b, c, *h)` tensor. */
  function ToChannelsLast<T>(data: seq<T>, b: nat, c: nat, h: seq<nat>): (r: seq<T>)
    requires |data| == Prod([b, c] + h)
    ensures |r| == Prod([b] + h + [c])
  {
    ChannelsLastShape(b, c, h);
    Transpose(data, [b, c] + h, ChannelsLast(|h| + 2), ChannelsFirst(|h| + 2))
  }

  /** `permute(0, n-1, 1, ...)` on a contiguous `(b, *h, c)` tensor. */
  function ToChannelsFirst<T>(data: seq<T>, b: nat, c: nat, h: seq<nat>): (r: seq<T>)
    requires |data| == Prod([b] + h + [c])
    ensures |r| == Prod([b, c] + h)
  {
    ChannelsLastShape(b, c, h);
    ChannelsPerms(|h| + 2);
    Transpose(data, [b] + h + [c], ChannelsFirst(|h| + 2), ChannelsLast(|h| + 2))
  }

  /** `rearrange('b (h p1) (w p2) c -> (b h w) p1 p2 c')` with `n` windows of `p` per axis. */
  function GroupWindows<T>(data: seq<T>, b: nat, c: nat, n: seq<nat>, p: seq<nat>): (r: seq<T>)
    requires |n| == |p| && |data| == Prod([b] + MulAxes(n, p) + [c])
    ensures |r| == Prod([b * Prod(n)] + p + [c])
  {
    SplitKeepsCount(b, c, n, p);
    MergeKeepsCount(b, c, n, p);
    WindowsFirstShape(b, c, n, p);
    Transpose(data, [b] + Interleave(n, p) + [c], WindowsFirst(|n|), WindowsBack(|n|))
  }

  /** `rearrange('(b h w) p1 p2 c -> b (h p1) (w p2) c')` with `b`, `n` and `p` given. */
  function UngroupWindows<T>(data: seq<T>, b: nat, c: nat, n: seq<nat>, p: seq<nat>): (r: seq<T>)
    requires |n| == |p| && |data| == Prod([b * Prod(n)] + p + [c])
    ensures |r| == Prod([b] + MulAxes(n, p) + [c])
  {
    SplitKeepsCount(b, c, n, p);
    MergeKeepsCount(b, c, n, p);
    WindowsFirstShape(b, c, n, p);
    WindowsPerms(|n|);
    Transpose(data, [b] + n + p + [c], WindowsBack(|n|), WindowsFirst(|n|))
  }

  lemma ChannelsRoundTrip<T>(data: seq<T>, b: nat, c: nat, h: seq<nat>)
    requires |data| == Prod([b, c] + h)
    ensures ToChannelsFirst(ToChannelsLast(data, b, c, h), b, c, h) == data
  {
    ChannelsLastShape(b, c, h);
    TransposeRoundTrip(data, [b, c] + h, ChannelsLast(|h| + 2), ChannelsFirst(|h| + 2));
  }

  lemma ChannelsRoundTripBack<T>(data: seq<T>, b: nat, c: nat, h: seq<nat>)
    requires |data| == Prod([b] + h + [c])
    ensures ToChannelsLast(ToChannelsFirst(data, b, c, h), b, c, h) == data
  {
    ChannelsLastShape(b, c, h);
    ChannelsPerms(|h| + 2);
    TransposeRoundTrip(data, [b] + h + [c], ChannelsFirst(|h| + 2), ChannelsLast(|h| + 2));
  }

  lemma GroupRoundTrip<T>(data: seq<T>, b: nat, c: nat, n: seq<nat>, p: seq<nat>)
    requires |n| == |p| && |data| == Prod([b] + MulAxes(n, p) + [c])
    ensures UngroupWindows(GroupWindows(data, b, c, n, p), b, c, n, p) == data
  {
    SplitKeepsCount(b, c, n, p);
    WindowsFirstShape(b, c, n, p);
    TransposeRoundTrip(data, [b] + Interleave(n, p) + [c], WindowsFirst(|n|), WindowsBack(|n|));
  }

  lemma GroupRoundTripBack<T>(data: seq<T>, b: nat, c: nat, n: seq<nat>, p: seq<nat>)
    requires |n| == |p| && |data| == Prod([b * Prod(n)] + p + [c])
    ensures GroupWindows(UngroupWindows(data, b, c, n, p), b, c, n, p) == data
  {
    MergeKeepsCount(b, c, n, p);
    WindowsFirstShape(b, c, n, p);
    WindowsPerms(|n|);
    TransposeRoundTrip(data, [b] + n + p + [c], WindowsBack(|n|), WindowsFirst(|n|));
  }

  // ---------------------------------------------------------------------------
  // window_partition and window_reverse

  /** The number of windows along each axis, `(h // p1, w // p2, ...)`. */
  function WindowGrid(spatial: seq<nat>, window: seq<nat>): (g: seq<nat>)
    requires |window| == |spatial| && PositiveWindow(window)
    ensures |g| == |spatial| && forall a :: 0 <= a < |g| ==> g[a] == spatial[a] / window[a]
  {
    DivAxes(spatial, window)
  }

  /** `window_size[:r]`: the window of the first `r` spatial axes. */
  function WindowAxes(windowSize: seq<nat>, r: nat): (p: seq<nat>)
    requires PositiveWindow(windowSize) && r <= |windowSize|
    ensures p == windowSize[..r] && PositiveWindow(p)
  {
    windowSize[..r]
  }

  predicate PositiveWindow(window: seq<nat>) {
    forall a :: 0 <= a < |window| ==> window[a] > 0
  }

  /** Every spatial axis is a whole number of windows, which `einops` demands of `(h p1)`. */
  predicate Divisible(spatial: seq<nat>, window: seq<nat>)
    requires |window| >= |spatial| && PositiveWindow(window)
  {
    forall a :: 0 <= a < |spatial| ==> spatial[a] % window[a] == 0
  }

  lemma DivisibleSplits(spatial: seq<nat>, window: seq<nat>)
    requires |window| == |spatial| && PositiveWindow(window) && Divisible(spatial, window)
    ensures MulAxes(WindowGrid(spatial, window), window) == spatial
  {
  }

  /**
   * `window_partition(x, window_size)` for `x` of shape `(B, C, *spatial)` with two
   * or three spatial axes: `permute` channels last, `rearrange` the split axes
   * into `(b h w) p1 p2 c`, `permute` channels back to axis 1. The result holds
   * `B * prod(spatial // window)` windows of shape `(C, *window)`.
   */
  function WindowPartition<T>(x: Tensor<T>, windowSize: seq<nat>): (res: Result<Tensor<T>>)
    requires x.Valid() && PositiveWindow(windowSize)
    ensures res.Err? <==>
      || (|x.shape| != 4 && |x.shape| != 5)
      || |windowSize| < |x.shape| - 2
      || !Divisible(x.shape[2..], windowSize)
    ensures res.Err? ==> res.error == if |x.shape| != 4 && |x.shape| != 5 then NotImplementedError
                                    else if |windowSize| < |x.shape| - 2 then IndexError
                                    else RuntimeError
    ensures res.Ok? ==> res.value.Valid()
    ensures res.Ok? ==>
      res.value.shape == [x.shape[0] * Prod(WindowGrid(x.shape[2..], WindowAxes(windowSize, |x.shape| - 2))), x.shape[1]]
                         + WindowAxes(windowSize, |x.shape| - 2)
  {
    if |x.shape| != 4 && |x.shape| != 5 then Err(NotImplementedError)
    else
      var r := |x.shape| - 2;
      if |windowSize| < r then Err(IndexError)
      else if !Divisible(x.shape[2..], windowSize) then Err(RuntimeError)
      else
        var b, c, spatial := x.shape[0], x.shape[1], x.shape[2..];
        var p := windowSize[..r];
        var n := WindowGrid(spatial, p);
        assert x.shape == [b, c] + spatial;
        DivisibleSplits(spatial, p);
        Ok(Partition(x, n, p))
  }

  /** The elements of `window_partition` once the grid `n` of windows of shape `p` is known. */
  function Partition<T>(x: Tensor<T>, n: seq<nat>, p: seq<nat>): (w: Tensor<T>)
    requires x.Valid() && |n| == |p| && |x.shape| == |p| + 2 && x.shape[2..] == MulAxes(n, p)
    ensures w.Valid() && w.shape == [x.shape[0] * Prod(n), x.shape[1]] + p
  {
    var b, c, spatial := x.shape[0], x.shape[1], x.shape[2..];
    assert x.shape == [b, c] + spatial;
    ProdNonNegative(n);
    var m := b * Prod(n);
    Tensor([m, c] + p, ToChannelsFirst(GroupWindows(ToChannelsLast(x.data, b, c, spatial), b, c, n, p), m, c, p))
  }

  /**
   * `window_reverse(windows, window_size, size_tuple)`: the batch size is
   * `int(M / (prod(size) / prod(window)))`, computed in floating point in the
   * source and exactly here; then the inverse `permute`s and `rearrange` with
   * `b`, `h // p1`, `w // p2` given.
   */
  function WindowReverse<T>(windows: Tensor<T>, windowSize: seq<nat>, size: seq<nat>): (res: Result<Tensor<T>>)
    requires windows.Valid() && PositiveWindow(windowSize)
    ensures res.Ok? ==> res.value.Valid()
    ensures res.Ok? ==> |size| == |windows.shape| - 2 && (|size| == 2 || |size| == 3) && |windowSize| >= |size|
    ensures res.Ok? ==> |res.value.shape| == |windows.shape| && res.value.shape[1] == windows.shape[1]
    ensures res.Ok? ==> res.value.shape[2..] == MulAxes(WindowGrid(size, WindowAxes(windowSize, |size|)), WindowAxes(windowSize, |size|))
    ensures res.Ok? ==> windows.shape[0] == res.value.shape[0] * Prod(WindowGrid(size, WindowAxes(windowSize, |size|)))
    ensures res.Ok? ==> windows.shape[2..] == WindowAxes(windowSize, |size|)
    ensures |windows.shape| != 4 && |windows.shape| != 5 ==> res == Err(NotImplementedError)
    ensures (|windows.shape| == 4 || |windows.shape| == 5) && |size| != |windows.shape| - 2 ==> res == Err(ValueError)
    ensures |size| == |windows.shape| - 2 && (|size| == 2 || |size| == 3) && |windowSize| < |size| ==> res == Err(IndexError)
    ensures Prod(size) == 0 && |size| == |windows.shape| - 2 && (|size| == 2 || |size| == 3) && |windowSize| >= |size| ==>
      res == Err(ZeroDivisionError)
    ensures Prod(size) != 0 && |size| == |windows.shape| - 2 && (|size| == 2 || |size| == 3) && |windowSize| >= |size| && res.Err? ==>
      res == Err(RuntimeError)
    ensures res.Ok? <==>
      && |size| == |windows.shape| - 2 && (|size| == 2 || |size| == 3) && |windowSize| >= |size| && Prod(size) != 0
      && windows.shape[2..] == WindowAxes(windowSize, |size|)
      && windows.shape[0] == InferredBatch(windows.shape[0], size, WindowAxes(windowSize, |size|))
                             * Prod(WindowGrid(size, WindowAxes(windowSize, |size|)))
  {
    if |windows.shape| != 4 && |windows.shape| != 5 then Err(NotImplementedError)
    else
      var r := |windows.shape| - 2;
      if |size| != r then Err(ValueError)
      else if |windowSize| < r then Err(IndexError)
      else ReverseSized(windows, windowSize[..r], size)
  }

  /** `window_reverse` once the rank, `size` and the window have been matched up. */
  function ReverseSized<T>(windows: Tensor<T>, p: seq<nat>, size: seq<nat>): (res: Result<Tensor<T>>)
    requires windows.Valid() && PositiveWindow(p) && |p| == |size| == |windows.shape| - 2
    ensures res.Ok? ==> res.value.Valid()
    ensures res.Ok? ==> |res.value.shape| == |windows.shape| && res.value.shape[1] == windows.shape[1]
    ensures res.Ok? ==> res.value.shape[2..] == MulAxes(WindowGrid(size, p), p)
    ensures res.Ok? ==> windows.shape[0] == res.value.shape[0] * Prod(WindowGrid(size, p))
    ensures res.Ok? ==> windows.shape[2..] == p
    ensures Prod(size) == 0 ==> res == Err(ZeroDivisionError)
    ensures Prod(size) != 0 && res.Err? ==> res == Err(RuntimeError)
    ensures res.Ok? <==>
      && Prod(size) != 0 && windows.shape[2..] == p
      && windows.shape[0] == InferredBatch(windows.shape[0], size, p) * Prod(WindowGrid(size, p))
  {
    if WindowsPerImage(size, p) == 0.0 then Err(ZeroDivisionError)
    else
      var m := windows.shape[0];
      var b := InferredBatch(m, size, p);
      var n := WindowGrid(size, p);
      if m != b * Prod(n) || windows.shape[2..] != p then Err(RuntimeError)
      else Ok(Unpartition(windows, b, n, p))
  }

  /** `H * W / p1 / p2` in `window_reverse`, done exactly: zero only for an empty image. */
  function WindowsPerImage(size: seq<nat>, p: seq<nat>): (q: real)
    requires PositiveWindow(p)
    ensures q >= 0.0 && (q == 0.0 <==> Prod(size) == 0)
  {
    ProdNonNegative(size);
    PoolVolumePositive(p);
    (Prod(size) as real) / (Prod(p) as real)
  }

  /**
   * `B = int(M / (H * W / p1 / p2))`: on these non-negative operands `int` is the
   * floor, so `B` is the largest batch size whose images hold no more elements
   * than `M` windows do.
   */
  function InferredBatch(m: nat, size: seq<nat>, p: seq<nat>): (b: nat)
    requires Prod(size) != 0 && PositiveWindow(p)
    ensures b * Prod(size) <= m * Prod(p) < (b + 1) * Prod(size)
  {
    ProdNonNegative(size);
    PoolVolumePositive(p);
    var b := ((m as real) / WindowsPerImage(size, p)).Floor;
    FloorOfRatio(m, Prod(p), Prod(size));
    b
  }

  /** The exact `M / (S / P)` rounds down to the integer quotient `(M * P) // S`. */
  lemma FloorOfRatio(m: nat, vol: nat, pixels: nat)
    requires vol > 0 && pixels > 0
    ensures ((m as real) / ((pixels as real) / (vol as real))).Floor == (m * vol) / pixels
    ensures ((m * vol) / pixels) * pixels <= m * vol < ((m * vol) / pixels + 1) * pixels
  {
    var d, r := (m * vol) / pixels, (m * vol) % pixels;
    var q := (pixels as real) / (vol as real);
    var x := (m as real) / q;
    assert q * (vol as real) == pixels as real;
    assert x * q == m as real;
    assert x * (pixels as real) == x * q * (vol as real);
    assert x * (pixels as real) == (m * vol) as real;
    assert (m * vol) as real == (d as real) * (pixels as real) + r as real;
    FloorBetween(x, d, r, pixels);
  }

  lemma FloorBetween(x: real, d: int, r: int, pixels: int)
    requires 0 <= r < pixels && x * (pixels as real) == (d as real) * (pixels as real) + r as real
    ensures x.Floor == d
  {
    var e := x - d as real;
    assert e * (pixels as real) == r as real;
  }

  /**
   * For an image made of whole windows, `window_reverse` succeeds exactly when
   * the windows have the window's shape and their number is a multiple of the
   * number of windows per image.
   */
  lemma ReverseWholeImages<T>(w: Tensor<T>, n: seq<nat>, p: seq<nat>)
    requires w.Valid() && PositiveWindow(p) && |n| == |p| == |w.shape| - 2 && Prod(n) > 0
    ensures ReverseSized(w, p, MulAxes(n, p)).Ok? <==> w.shape[2..] == p && w.shape[0] % Prod(n) == 0
  {
    var size := MulAxes(n, p);
    GridOfSplit(n, p);
    WholeImagesBatch(w.shape[0], n, p);
  }

  /** With whole windows per axis, the inferred batch size is the window count over the windows per image. */
  lemma WholeImagesBatch(m: nat, n: seq<nat>, p: seq<nat>)
    requires PositiveWindow(p) && |n| == |p| && Prod(n) > 0
    ensures Prod(MulAxes(n, p)) != 0
    ensures InferredBatch(m, MulAxes(n, p), p) == m / Prod(n)
    ensures m == InferredBatch(m, MulAxes(n, p), p) * Prod(n) <==> m % Prod(n) == 0
  {
    ProdMulAxes(n, p);
    PoolVolumePositive(p);
    var k, vol, pixels := Prod(n), Prod(p), Prod(MulAxes(n, p));
    MulSignBound(k, vol);
    var b := InferredBatch(m, MulAxes(n, p), p);
    assert b * pixels <= m * vol < (b + 1) * pixels;
    BatchIsQuotient(m, k, vol, pixels, b);
  }

  lemma BatchIsQuotient(m: nat, k: nat, vol: nat, pixels: nat, b: nat)
    requires k > 0 && vol > 0 && pixels == k * vol && b * pixels <= m * vol < (b + 1) * pixels
    ensures b == m / k && (m == b * k <==> m % k == 0)
  {
    assert (b * k) * vol <= m * vol < ((b + 1) * k) * vol;
    if b * k > m {
      MulSignBound(b * k - m, vol);
    }
    if (b + 1) * k <= m {
      MulSignBound(m - (b + 1) * k + 1, vol);
    }
    DivModUnique(b, m - b * k, k);
  }

  /** The elements of `window_reverse` once the batch size `b` and the grid `n` are known. */
  function Unpartition<T>(windows: Tensor<T>, b: nat, n: seq<nat>, p: seq<nat>): (x: Tensor<T>)
    requires windows.Valid() && |n| == |p| && |windows.shape| == |p| + 2
    requires windows.shape[0] == b * Prod(n) && windows.shape[2..] == p
    ensures x.Valid() && x.shape == [b, windows.shape[1]] + MulAxes(n, p)
  {
    var m, c := windows.shape[0], windows.shape[1];
    assert windows.shape == [m, c] + p;
    var spatial := MulAxes(n, p);
    Tensor([b, c] + spatial, ToChannelsFirst(UngroupWindows(ToChannelsLast(windows.data, m, c, p), b, c, n, p), b, c, spatial))
  }

  lemma {:induction false} PoolVolumePositive(p: seq<nat>)
    requires PositiveWindow(p)
    ensures Prod(p) > 0
  {
    if p != [] {
      PoolVolumePositive(p[..|p| - 1]);
      MulSignBound(p[|p| - 1], Prod(p[..|p| - 1]));
    }
  }

  lemma UnpartitionPartition<T>(x: Tensor<T>, n: seq<nat>, p: seq<nat>)
    requires x.Valid() && |n| == |p| && |x.shape| == |p| + 2 && x.shape[2..] == MulAxes(n, p)
    ensures Unpartition(Partition(x, n, p), x.shape[0], n, p) == x
  {
    var b, c, spatial := x.shape[0], x.shape[1], x.shape[2..];
    assert x.shape == [b, c] + spatial;
    ProdNonNegative(n);
    var m := b * Prod(n);
    var last := ToChannelsLast(x.data, b, c, spatial);
    var grouped := GroupWindows(last, b, c, n, p);
    ChannelsRoundTripBack(grouped, m, c, p);
    GroupRoundTrip(last, b, c, n, p);
    ChannelsRoundTrip(x.data, b, c, spatial);
  }

  lemma PartitionUnpartition<T>(w: Tensor<T>, b: nat, n: seq<nat>, p: seq<nat>)
    requires w.Valid() && |n| == |p| && |w.shape| == |p| + 2
    requires w.shape[0] == b * Prod(n) && w.shape[2..] == p
    ensures Partition(Unpartition(w, b, n, p), n, p) == w
  {
    var m, c := w.shape[0], w.shape[1];
    assert w.shape == [m, c] + p;
    var spatial := MulAxes(n, p);
    var last := ToChannelsLast(w.data, m, c, p);
    var ungrouped := UngroupWindows(last, b, c, n, p);
    ChannelsRoundTripBack(ungrouped, b, c, spatial);
    GroupRoundTripBack(last, b, c, n, p);
    ChannelsRoundTrip(w.data, m, c, p);
  }

  /** A spatial axis made of whole windows gives back its window count. */
  lemma GridOfSplit(n: seq<nat>, p: seq<nat>)
    requires |n| == |p| && PositiveWindow(p)
    ensures Divisible(MulAxes(n, p), p) && WindowGrid(MulAxes(n, p), p) == n
  {
    forall a | 0 <= a < |n|
      ensures MulAxes(n, p)[a] / p[a] == n[a] && MulAxes(n, p)[a] % p[a] == 0
    {
      DivModUnique(n[a], 0, p[a]);
    }
  }

  /**
   * `window_reverse(window_partition(x, ws), ws, (H, W))` gives back `x` whenever
   * the partition succeeds and no spatial axis is empty (with an empty axis the
   * reverse divides by zero).
   */
  lemma ReverseAfterPartition<T>(x: Tensor<T>, windowSize: seq<nat>)
    requires x.Valid() && PositiveWindow(windowSize)
    requires WindowPartition(x, windowSize).Ok?
    requires Prod(x.shape[2..]) > 0
    ensures WindowReverse(WindowPartition(x, windowSize).value, windowSize, x.shape[2..]) == Ok(x)
  {
    var r := |x.shape| - 2;
    var spatial := x.shape[2..];
    var p := windowSize[..r];
    var n := WindowGrid(spatial, p);
    DivisibleSplits(spatial, p);
    var w := Partition(x, n, p);
    assert WindowPartition(x, windowSize) == Ok(w);
    assert WindowReverse(w, windowSize, spatial) == ReverseSized(w, p, spatial);
    ReverseSizedOfPartition(x, n, p);
    UnpartitionPartition(x, n, p);
  }

  /** On a partitioned tensor the batch size `window_reverse` computes is the original one. */
  lemma ReverseSizedOfPartition<T>(x: Tensor<T>, n: seq<nat>, p: seq<nat>)
    requires x.Valid() && |n| == |p| && |x.shape| == |p| + 2 && x.shape[2..] == MulAxes(n, p)
    requires PositiveWindow(p) && Prod(x.shape[2..]) > 0
    ensures ReverseSized(Partition(x, n, p), p, x.shape[2..]) == Ok(Unpartition(Partition(x, n, p), x.shape[0], n, p))
  {
    var b, spatial := x.shape[0], x.shape[2..];
    var w := Partition(x, n, p);
    GridOfSplit(n, p);
    ProdMulAxes(n, p);
    PoolVolumePositive(p);
    ProdNonNegative(n);
    var cells, volume := Prod(n), Prod(p);
    assert Prod(spatial) == cells * volume;
    FactorPositive(cells, volume);
    BatchRecovered(b, cells, volume);
    var windowsPerImage := (Prod(spatial) as real) / (volume as real);
    assert windowsPerImage == cells as real;
    assert w.shape[0] == b * cells;
    assert ((w.shape[0] as real) / windowsPerImage).Floor == b;
  }

  lemma FactorPositive(a: nat, b: nat)
    requires a * b > 0
    ensures a > 0
  {
  }

  /** The float computation of `B` in `window_reverse`, done exactly, recovers the batch size. */
  lemma BatchRecovered(b: nat, windowsPerImage: nat, volume: nat)
    requires windowsPerImage > 0 && volume > 0
    ensures ((windowsPerImage * volume) as real) / (volume as real) == windowsPerImage as real
    ensures (((b * windowsPerImage) as real) / (windowsPerImage as real)).Floor == b
  {
    assert (windowsPerImage * volume) as real == (windowsPerImage as real) * (volume as real);
    var w := windowsPerImage as real;
    assert (b * windowsPerImage) as real == (b as real) * w;
    assert (b as real) * w / w == b as real;
    assert (b as real).Floor == b;
  }

  /**
   * `window_partition(window_reverse(w, ws, size), ws)` gives back `w` whenever
   * the reverse succeeds.
   */
  lemma PartitionAfterReverse<T>(w: Tensor<T>, windowSize: seq<nat>, size: seq<nat>)
    requires w.Valid() && PositiveWindow(windowSize)
    requires WindowReverse(w, windowSize, size).Ok?
    ensures WindowPartition(WindowReverse(w, windowSize, size).value, windowSize) == Ok(w)
  {
    var r := |size|;
    var p := windowSize[..r];
    var n := WindowGrid(size, p);
    assert WindowReverse(w, windowSize, size) == ReverseSized(w, p, size);
    var x := ReverseSized(w, p, size).value;
    ReverseSizedIsUnpartition(w, p, size);
    GridOfSplit(n, p);
    PartitionUnpartition(w, x.shape[0], n, p);
    assert x.shape[2..] == MulAxes(n, p);
    assert WindowPartition(x, windowSize) == Ok(Partition(x, n, p));
  }

  lemma ReverseSizedIsUnpartition<T>(w: Tensor<T>, p: seq<nat>, size: seq<nat>)
    requires w.Valid() && PositiveWindow(p) && |p| == |size| == |w.shape| - 2
    requires ReverseSized(w, p, size).Ok?
    ensures w.shape[0] == ReverseSized(w, p, size).value.shape[0] * Prod(WindowGrid(size, p)) && w.shape[2..] == p
    ensures ReverseSized(w, p, size).value
         == Unpartition(w, ReverseSized(w, p, size).value.shape[0], WindowGrid(size, p), p)
  {
  }

  // ---------------------------------------------------------------------------
  // Elementwise maps commute with the reshaping

  function MapTensor<T>(f: T -> T, x: Tensor<T>): (y: Tensor<T>)
    ensures y.shape == x.shape && y.data == MapSeq(f, x.data)
  {
    Tensor(x.shape, MapSeq(f, x.data))
  }

  lemma ToChannelsLastMap<T>(f: T -> T, data: seq<T>, b: nat, c: nat, h: seq<nat>)
    requires |data| == Prod([b, c] + h)
    ensures ToChannelsLast(MapSeq(f, data), b, c, h) == MapSeq(f, ToChannelsLast(data, b, c, h))
  {
    ChannelsLastShape(b, c, h);
    TransposeMap(f, data, [b, c] + h, ChannelsLast(|h| + 2), ChannelsFirst(|h| + 2));
  }

  lemma ToChannelsFirstMap<T>(f: T -> T, data: seq<T>, b: nat, c: nat, h: seq<nat>)
    requires |data| == Prod([b] + h + [c])
    ensures ToChannelsFirst(MapSeq(f, data), b, c, h) == MapSeq(f, ToChannelsFirst(data, b, c, h))
  {
    ChannelsLastShape(b, c, h);
    ChannelsPerms(|h| + 2);
    TransposeMap(f, data, [b] + h + [c], ChannelsFirst(|h| + 2), ChannelsLast(|h| + 2));
  }

  lemma GroupWindowsMap<T>(f: T -> T, data: seq<T>, b: nat, c: nat, n: seq<nat>, p: seq<nat>)
    requires |n| == |p| && |data| == Prod([b] + MulAxes(n, p) + [c])
    ensures GroupWindows(MapSeq(f, data), b, c, n, p) == MapSeq(f, GroupWindows(data, b, c, n, p))
  {
    SplitKeepsCount(b, c, n, p);
    WindowsFirstShape(b, c, n, p);
    TransposeMap(f, data, [b] + Interleave(n, p) + [c], WindowsFirst(|n|), WindowsBack(|n|));
  }

  /** Partitioning a mapped tensor gives the mapped windows. */
  lemma PartitionMap<T>(f: T -> T, x: Tensor<T>, n: seq<nat>, p: seq<nat>)
    requires x.Valid() && |n| == |p| && |x.shape| == |p| + 2 && x.shape[2..] == MulAxes(n, p)
    ensures Partition(MapTensor(f, x), n, p) == MapTensor(f, Partition(x, n, p))
  {
    var b, c, spatial := x.shape[0], x.shape[1], x.shape[2..];
    assert x.shape == [b, c] + spatial;
    ProdNonNegative(n);
    var m := b * Prod(n);
    ToChannelsLastMap(f, x.data, b, c, spatial);
    var last := ToChannelsLast(x.data, b, c, spatial);
    GroupWindowsMap(f, last, b, c, n, p);
    ToChannelsFirstMap(f, GroupWindows(last, b, c, n, p), m, c, p);
  }

  // ---------------------------------------------------------------------------
  // SwinGrapher.forward

  function RollTensor<T>(x: Tensor<T>, shifts: seq<int>): (y: Tensor<T>)
    requires x.Valid() && |shifts| == |x.shape|
    ensures y.Valid() && y.shape == x.shape
  {
    Tensor(x.shape, Roll(x.data, x.shape, shifts))
  }

  /** `shifts=(s0, s1[, s2])` on `dims=(2, 3[, 4])`: batch and channel axes stay put. */
  function SpatialShifts(shiftSize: seq<int>, r: nat): (s: seq<int>)
    requires |shiftSize| >= r
    ensures |s| == r + 2 && s[0] == 0 && s[1] == 0 && s[2..] == shiftSize[..r]
  {
    [0, 0] + shiftSize[..r]
  }

  /** Partition into windows, apply the window-level layers, and reverse the partition. */
  function WindowStage<T(!new)>(x: Tensor<T>, windowSize: seq<nat>, windowOp: Tensor<T> -> Tensor<T>, size: seq<nat>): (res: Result<Tensor<T>>)
    requires x.Valid() && PositiveWindow(windowSize)
    requires forall w: Tensor<T> :: w.Valid() ==> windowOp(w).Valid()
    ensures res.Ok? ==> res.value.Valid()
    ensures res.Ok? ==> |res.value.shape| == |size| + 2
  {
    var windows :- WindowPartition(x, windowSize);
    WindowReverse(windowOp(windows), windowSize, size)
  }

  /** `x = drop_path(x) + _tmp` with drop-path the identity: the elementwise sum of equal-shaped tensors. */
  function ResidualAdd<T>(y: Tensor<T>, x: Tensor<T>, add: (T, T) -> T): (res: Result<Tensor<T>>)
    requires x.Valid() && y.Valid()
    ensures res.Ok? <==> y.shape == x.shape
    ensures res.Ok? ==> res.value.shape == x.shape && |res.value.data| == |x.data|
    ensures res.Ok? ==> forall i :: 0 <= i < |x.data| ==> res.value.data[i] == add(y.data[i], x.data[i])
  {
    if y.shape != x.shape then Err(RuntimeError)
    else Ok(Tensor(x.shape, seq(|x.data|, i requires 0 <= i < |x.data| => add(y.data[i], x.data[i]))))
  }

  /**
   * `SwinGrapher.forward(x)` with the window-level layers (`fc1`, the graph
   * convolution, `fc2`) given as `windowOp` and drop-path as the identity:
   * check the input shape, shift by `-shift_size` when `max(shift_size) > 0`,
   * partition, apply `windowOp`, reverse, shift back, and add the input.
   */
  function SwinGrapherForward<T(!new)>(conv: ConvOp, imgShape: seq<nat>, windowSize: seq<nat>, shiftSize: seq<int>,
                                 windowOp: Tensor<T> -> Tensor<T>, add: (T, T) -> T, x: Tensor<T>): (res: Result<Tensor<T>>)
    requires x.Valid() && PositiveWindow(windowSize)
    requires forall w: Tensor<T> :: w.Valid() ==> windowOp(w).Valid()
    ensures |x.shape| != Rank(conv) + 2 || |imgShape| != Rank(conv) ==> res == Err(ValueError)
    ensures |x.shape| == Rank(conv) + 2 && |imgShape| == Rank(conv) && imgShape != x.shape[2..] ==> res == Err(AssertionError)
    ensures |x.shape| == Rank(conv) + 2 && imgShape == x.shape[2..] && shiftSize == [] ==> res == Err(ValueError)
    ensures (&& |x.shape| == Rank(conv) + 2 && imgShape == x.shape[2..] && shiftSize != []
             && GraphConfig.SeqMax(shiftSize) > 0 && |shiftSize| < Rank(conv)) ==> res == Err(IndexError)
    ensures res.Ok? ==> res.value.Valid() && res.value.shape == x.shape
  {
    var r := Rank(conv);
    if |x.shape| != r + 2 || |imgShape| != r then Err(ValueError)
    else if x.shape[2..] != imgShape then Err(AssertionError)
    else if shiftSize == [] then Err(ValueError)
    else
      var shift := GraphConfig.SeqMax(shiftSize) > 0;
      if shift && |shiftSize| < r then Err(IndexError)
      else
        var shifted := if shift then RollTensor(x, Negated(SpatialShifts(shiftSize, r))) else x;
        var unshifted :- WindowStage(shifted, windowSize, windowOp, x.shape[2..]);
        var back := if shift then RollTensor(unshifted, SpatialShifts(shiftSize, r)) else unshifted;
        ResidualAdd(back, x, add)
  }

  /** With element-wise window layers, the window stage is the element-wise map itself. */
  lemma WindowStagePointwise<T(!new)>(g: T -> T, windowOp: Tensor<T> -> Tensor<T>, y: Tensor<T>, windowSize: seq<nat>)
    requires y.Valid() && PositiveWindow(windowSize)
    requires forall w: Tensor<T> :: windowOp(w) == MapTensor(g, w)
    requires (|y.shape| == 4 || |y.shape| == 5) && |windowSize| >= |y.shape| - 2
    requires Divisible(y.shape[2..], windowSize) && Prod(y.shape[2..]) > 0
    ensures forall w: Tensor<T> :: w.Valid() ==> windowOp(w).Valid()
    ensures WindowStage(y, windowSize, windowOp, y.shape[2..]) == Ok(MapTensor(g, y))
  {
    var r := |y.shape| - 2;
    var p := windowSize[..r];
    var n := WindowGrid(y.shape[2..], p);
    DivisibleSplits(y.shape[2..], p);
    var windows := Partition(y, n, p);
    assert WindowPartition(y, windowSize) == Ok(windows);
    PartitionMap(g, y, n, p);
    assert WindowPartition(MapTensor(g, y), windowSize) == Ok(MapTensor(g, windows));
    ReverseAfterPartition(MapTensor(g, y), windowSize);
  }

  /**
   * The shift, the partition and their inverses only move elements: when the
   * window layers act on each element alone (`windowOp` maps `g` over the
   * elements), every output element is `g` of the input element at the same
   * position, plus that input element.
   */
  lemma SwinGrapherPointwise<T(!new)>(conv: ConvOp, windowSize: seq<nat>, shiftSize: seq<int>,
                                g: T -> T, windowOp: Tensor<T> -> Tensor<T>, add: (T, T) -> T, x: Tensor<T>)
    requires x.Valid() && PositiveWindow(windowSize)
    requires forall w: Tensor<T> :: windowOp(w) == MapTensor(g, w)
    requires |x.shape| == Rank(conv) + 2 && |windowSize| >= Rank(conv) && |shiftSize| >= Rank(conv)
    requires Divisible(x.shape[2..], windowSize) && Prod(x.shape[2..]) > 0
    ensures forall w: Tensor<T> :: w.Valid() ==> windowOp(w).Valid()
    ensures SwinGrapherForward(conv, x.shape[2..], windowSize, shiftSize, windowOp, add, x)
         == ResidualAdd(MapTensor(g, x), x, add)
    ensures SwinGrapherForward(conv, x.shape[2..], windowSize, shiftSize, windowOp, add, x).Ok?
  {
    var r := Rank(conv);
    var shift := GraphConfig.SeqMax(shiftSize) > 0;
    var shifted := if shift then RollTensor(x, Negated(SpatialShifts(shiftSize, r))) else x;
    WindowStagePointwise(g, windowOp, shifted, windowSize);
    var back := if shift then RollTensor(MapTensor(g, shifted), SpatialShifts(shiftSize, r)) else MapTensor(g, shifted);
    if shift {
      var s := SpatialShifts(shiftSize, r);
      RollMap(g, Roll(x.data, x.shape, Negated(s)), x.shape, s);
      RollRoundTrip(x.data, x.shape, s);
    }
    assert back == MapTensor(g, x);
  }
}
