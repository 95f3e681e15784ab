/**
 * Row-major (C-contiguous) tensor layout: the flat offset of a coordinate,
 * the coordinate of a flat offset, axis permutation (`Tensor.permute` and the
 * axis reordering of `einops.rearrange`) and the cyclic shift `torch.roll`.
 * A tensor's elements are a flat sequence; every reshaping of the window code
 * is a gather from that sequence through these index maps.
 */
module Layout {
  import opened Shapes

  /** Euclidean division of `q * m + r` by `m` gives back `q` and `r` when `0 <= r < m`. */
  lemma DivModUnique(q: int, r: int, m: int)
    requires 0 <= r < m
    ensures (q * m + r) / m == q && (q * m + r) % m == r
  {
    var k := q * m + r;
    var d := k / m;
    assert (q - d) * m == k % m - r;
    MulSignBound(q - d, m);
  }

  /** `c` addresses an element of a tensor of shape `s`. */
  predicate ValidCoord(s: seq<nat>, c: seq<int>) {
    |c| == |s| && forall i :: 0 <= i < |s| ==> 0 <= c[i] < s[i]
  }

  /** Flat position of coordinate `c`: the last axis varies fastest. */
  function Offset(s: seq<nat>, c: seq<int>): (k: nat)
    requires ValidCoord(s, c)
    ensures k < Prod(s)
  {
    if s == [] then 0
    else
      var n := |s| - 1;
      var o := Offset(s[..n], c[..n]);
      MulMonotone(o, Prod(s[..n]) - 1, s[n], s[n]);
      o * s[n] + c[n]
  }

  /** The coordinate stored at flat position `k`; it addresses an element and `Offset` maps it back to `k`. */
  function Coord(s: seq<nat>, k: int): (c: seq<int>)
    requires 0 <= k < Prod(s)
    ensures ValidCoord(s, c) && Offset(s, c) == k
  {
    if s == [] then []
    else
      var n := |s| - 1;
      var m := s[n];
      assert m > 0;
      assert k / m < Prod(s[..n]) by {
        if k / m >= Prod(s[..n]) {
          MulMonotone(Prod(s[..n]), k / m, m, m);
        }
      }
      var c := Coord(s[..n], k / m) + [k % m];
      assert c[..n] == Coord(s[..n], k / m);
      c
  }

  /** Distinct coordinates are stored at distinct positions: `Coord` undoes `Offset`. */
  lemma {:induction false} CoordOffset(s: seq<nat>, c: seq<int>)
    requires ValidCoord(s, c)
    ensures Coord(s, Offset(s, c)) == c
  {
    if s != [] {
      var n := |s| - 1;
      var o := Offset(s[..n], c[..n]);
      CoordOffset(s[..n], c[..n]);
      DivModUnique(o, c[n], s[n]);
      assert c == c[..n] + [c[n]];
    }
  }

  /** Axis `i` of the result is axis `p[i]` of `v` (the meaning of `permute(p)` on shapes and coordinates). */
  function Permute<X>(v: seq<X>, p: seq<nat>): (r: seq<X>)
    requires forall i :: 0 <= i < |p| ==> p[i] < |v|
    ensures |r| == |p| && forall i :: 0 <= i < |p| ==> r[i] == v[p[i]]
  {
    seq(|p|, i requires 0 <= i < |p| => v[p[i]])
  }

  /** `p` and `q` are mutually inverse permutations of `0 .. n-1`. */
  predicate InversePerms(p: seq<nat>, q: seq<nat>, n: nat) {
    && |p| == n && |q| == n
    && (forall i :: 0 <= i < n ==> p[i] < n && q[p[i]] == i)
    && (forall j :: 0 <= j < n ==> q[j] < n && p[q[j]] == j)
  }

  /** Permuting by `p` and then by its inverse `q` restores any sequence. */
  lemma PermuteInverse<X>(v: seq<X>, p: seq<nat>, q: seq<nat>)
    requires InversePerms(p, q, |v|)
    ensures Permute(Permute(v, p), q) == v
  {
  }

  /**
   * The elements of a contiguous tensor of shape `s` after `permute(p)`: the
   * element at coordinate `c` moves to coordinate `Permute(c, p)`; `q` names the
   * inverse of `p`, which is how each result position finds its source.
   */
  function Transpose<T>(x: seq<T>, s: seq<nat>, p: seq<nat>, q: seq<nat>): (y: seq<T>)
    requires |x| == Prod(s) && InversePerms(p, q, |s|)
    ensures |y| == Prod(Permute(s, p))
  {
    var t := Permute(s, p);
    ProdNonNegative(t);
    seq(Prod(t), k requires 0 <= k < Prod(t) =>
      var d := Coord(t, k);
      assert ValidCoord(s, Permute(d, q)) by {
        forall j | 0 <= j < |s|
          ensures 0 <= Permute(d, q)[j] < s[j]
        {
          assert t[q[j]] == s[p[q[j]]];
        }
      }
      x[Offset(s, Permute(d, q))])
  }

  /** A coordinate of `s`, permuted by `p`, is a coordinate of the permuted shape. */
  lemma PermuteCoord(s: seq<nat>, c: seq<int>, p: seq<nat>, q: seq<nat>)
    requires ValidCoord(s, c) && InversePerms(p, q, |s|)
    ensures ValidCoord(Permute(s, p), Permute(c, p))
  {
  }

  /** `Transpose` moves the element at coordinate `c` to coordinate `Permute(c, p)`. */
  lemma TransposeMoves<T>(x: seq<T>, s: seq<nat>, p: seq<nat>, q: seq<nat>, c: seq<int>)
    requires |x| == Prod(s) && InversePerms(p, q, |s|) && ValidCoord(s, c)
    ensures ValidCoord(Permute(s, p), Permute(c, p))
    ensures Transpose(x, s, p, q)[Offset(Permute(s, p), Permute(c, p))] == x[Offset(s, c)]
  {
    var t := Permute(s, p);
    var d := Permute(c, p);
    PermuteCoord(s, c, p, q);
    CoordOffset(t, d);
    PermuteInverse(c, p, q);
  }

  /** Permuting by `p` and then by the inverse `q` gives back the elements unchanged. */
  lemma TransposeRoundTrip<T>(x: seq<T>, s: seq<nat>, p: seq<nat>, q: seq<nat>)
    requires |x| == Prod(s) && InversePerms(p, q, |s|)
    ensures Permute(Permute(s, p), q) == s
    ensures Transpose(Transpose(x, s, p, q), Permute(s, p), q, p) == x
  {
    var t := Permute(s, p);
    PermuteInverse(s, p, q);
    var y := Transpose(x, s, p, q);
    var z := Transpose(y, t, q, p);
    forall k | 0 <= k < |x|
      ensures z[k] == x[k]
    {
      TransposeRoundTripAt(x, s, p, q, k);
    }
  }

  lemma TransposeRoundTripAt<T>(x: seq<T>, s: seq<nat>, p: seq<nat>, q: seq<nat>, k: nat)
    requires |x| == Prod(s) && InversePerms(p, q, |s|) && k < |x|
    requires Permute(Permute(s, p), q) == s
    ensures |Transpose(Transpose(x, s, p, q), Permute(s, p), q, p)| == |x|
    ensures Transpose(Transpose(x, s, p, q), Permute(s, p), q, p)[k] == x[k]
  {
    var t := Permute(s, p);
    var y := Transpose(x, s, p, q);
    var c := Coord(s, k);
    TransposeMoves(x, s, p, q, c);
    TransposeMoves(y, t, q, p, Permute(c, p));
    PermuteInverse(c, p, q);
  }

  /** Coordinate `c` moved cyclically by `shifts` along every axis. */
  function ShiftCoord(s: seq<nat>, c: seq<int>, shifts: seq<int>): (r: seq<int>)
    requires ValidCoord(s, c) && |shifts| == |s|
    ensures ValidCoord(s, r)
  {
    seq(|s|, i requires 0 <= i < |s| => (c[i] + shifts[i]) % s[i])
  }

  function Negated(v: seq<int>): (r: seq<int>)
    ensures |r| == |v| && forall i :: 0 <= i < |v| ==> r[i] == -v[i]
  {
    seq(|v|, i requires 0 <= i < |v| => -v[i])
  }

  /** `torch.roll(x, shifts)`: the element at coordinate `c` moves to `c + shifts`, wrapping around each axis. */
  function Roll<T>(x: seq<T>, s: seq<nat>, shifts: seq<int>): (y: seq<T>)
    requires |x| == Prod(s) && |shifts| == |s|
    ensures |y| == |x|
  {
    seq(|x|, k requires 0 <= k < |x| => x[Offset(s, ShiftCoord(s, Coord(s, k), Negated(shifts)))])
  }

  /** Rolling moves the element at `c` to `ShiftCoord(s, c, shifts)`. */
  lemma RollMoves<T>(x: seq<T>, s: seq<nat>, shifts: seq<int>, c: seq<int>)
    requires |x| == Prod(s) && |shifts| == |s| && ValidCoord(s, c)
    ensures Roll(x, s, shifts)[Offset(s, ShiftCoord(s, c, shifts))] == x[Offset(s, c)]
  {
    var d := ShiftCoord(s, c, shifts);
    CoordOffset(s, d);
    ShiftCoordBack(s, c, shifts);
  }

  /** Shifting a coordinate by `shifts` and then by `-shifts` restores it. */
  lemma ShiftCoordBack(s: seq<nat>, c: seq<int>, shifts: seq<int>)
    requires ValidCoord(s, c) && |shifts| == |s|
    ensures ShiftCoord(s, ShiftCoord(s, c, shifts), Negated(shifts)) == c
  {
    var d := ShiftCoord(s, c, shifts);
    forall i | 0 <= i < |s|
      ensures ShiftCoord(s, d, Negated(shifts))[i] == c[i]
    {
      ShiftBack(c[i], shifts[i], s[i]);
    }
  }

  /** Moving a position forward by `a` and back by `a` on a cycle of length `n` restores it. */
  lemma ShiftBack(c: int, a: int, n: int)
    requires 0 <= c < n
    ensures ((c + a) % n + -a) % n == c
  {
    var q := (c + a) / n;
    assert (c + a) % n + -a == -q * n + c;
    DivModUnique(-q, c, n);
  }

  /** Rolling by `-shifts` and then by `shifts` restores the tensor. */
  lemma RollRoundTrip<T>(x: seq<T>, s: seq<nat>, shifts: seq<int>)
    requires |x| == Prod(s) && |shifts| == |s|
    ensures Roll(Roll(x, s, Negated(shifts)), s, shifts) == x
  {
    var y := Roll(x, s, Negated(shifts));
    var z := Roll(y, s, shifts);
    forall k | 0 <= k < |x|
      ensures z[k] == x[k]
    {
      RollRoundTripAt(x, s, shifts, k);
    }
  }

  lemma RollRoundTripAt<T>(x: seq<T>, s: seq<nat>, shifts: seq<int>, k: nat)
    requires |x| == Prod(s) && |shifts| == |s| && k < |x|
    ensures Roll(Roll(x, s, Negated(shifts)), s, shifts)[k] == x[k]
  {
    var y := Roll(x, s, Negated(shifts));
    var c := Coord(s, k);
    var d := ShiftCoord(s, c, Negated(shifts));
    RollMoves(x, s, Negated(shifts), c);
    RollMoves(y, s, shifts, d);
    ShiftCoordInverse(s, c, shifts);
  }

  /** Shifting a coordinate by `-shifts` and then by `shifts` restores it. */
  lemma ShiftCoordInverse(s: seq<nat>, c: seq<int>, shifts: seq<int>)
    requires ValidCoord(s, c) && |shifts| == |s|
    ensures ShiftCoord(s, ShiftCoord(s, c, Negated(shifts)), shifts) == c
  {
    var d := ShiftCoord(s, c, Negated(shifts));
    forall i | 0 <= i < |s|
      ensures ShiftCoord(s, d, shifts)[i] == c[i]
    {
      ShiftBack(c[i], -shifts[i], s[i]);
    }
  }

  /** Applying `f` to every element. */
  function MapSeq<T, U>(f: T -> U, s: seq<T>): (r: seq<U>)
    ensures |r| == |s| && forall i :: 0 <= i < |s| ==> r[i] == f(s[i])
  {
    seq(|s|, i requires 0 <= i < |s| => f(s[i]))
  }

  /** A permutation of positions commutes with an elementwise map. */
  lemma TransposeMap<T, U>(f: T -> U, x: seq<T>, s: seq<nat>, p: seq<nat>, q: seq<nat>)
    requires |x| == Prod(s) && InversePerms(p, q, |s|)
    ensures Transpose(MapSeq(f, x), s, p, q) == MapSeq(f, Transpose(x, s, p, q))
  {
  }

  lemma RollMap<T, U>(f: T -> U, x: seq<T>, s: seq<nat>, shifts: seq<int>)
    requires |x| == Prod(s) && |shifts| == |s|
    ensures Roll(MapSeq(f, x), s, shifts) == MapSeq(f, Roll(x, s, shifts))
  {
  }
}
