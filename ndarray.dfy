/**
 * An N-dimensional numpy array of integer voxels, held as its row-major
 * (C order) flattening together with its shape.
 */
module NdArray {

  /** A volume: the flat voxel sequence and the extent of each axis. */
  datatype Volume = Volume(data: seq<int>, shape: seq<nat>)

  /** Number of elements of an array of this shape; 1 for the 0-d shape. */
  function Product(shape: seq<nat>): nat
  {
    if |shape| == 0 then 1 else shape[0] * Product(shape[1..])
  }

  /** The flat sequence has exactly as many voxels as the shape describes. */
  predicate WellFormed(v: Volume)
  {
    |v.data| == Product(v.shape)
  }

  /** `idx` addresses a voxel of an array of this shape. */
  predicate ValidIndex(shape: seq<nat>, idx: seq<nat>)
  {
    |idx| == |shape| && forall a :: 0 <= a < |shape| ==> idx[a] < shape[a]
  }

  lemma StrideBound(i: nat, d: nat, stride: nat, inner: nat)
    requires i < d && inner < stride
    ensures i * stride + inner < d * stride
  {
    calc {
      i * stride + inner;
    <  i * stride + stride;
    == (i + 1) * stride;
    <= { MulMonotone(i + 1, d, stride); }
      d * stride;
    }
  }

  lemma MulMonotone(a: nat, b: nat, c: nat)
    requires a <= b
    ensures a * c <= b * c
  {
    var k := b - a;
    assert b * c == a * c + k * c;
  }

  /** Euclidean division undoes `i * stride + inner` when `inner < stride`. */
  lemma DivModOfStride(i: nat, stride: nat, inner: nat)
    requires inner < stride
    ensures (i * stride + inner) / stride == i
    ensures (i * stride + inner) % stride == inner
  {
    var n := i * stride + inner;
    var q, r := n / stride, n % stride;
    assert n == q * stride + r;
    if q < i {
      MulMonotone(q + 1, i, stride);
    } else if q > i {
      MulMonotone(i + 1, q, stride);
    }
  }

  /** Row-major flat position of a multi-index: the last axis varies fastest. */
  function Offset(shape: seq<nat>, idx: seq<nat>): (p: nat)
    requires ValidIndex(shape, idx)
    ensures p < Product(shape)
  {
    if |shape| == 0 then 0
    else
      assert ValidIndex(shape[1..], idx[1..]);
      var inner := Offset(shape[1..], idx[1..]);
      StrideBound(idx[0], shape[0], Product(shape[1..]), inner);
      idx[0] * Product(shape[1..]) + inner
  }

  /** The multi-index of a flat position: the inverse of Offset. */
  function Unflatten(shape: seq<nat>, p: nat): (idx: seq<nat>)
    requires p < Product(shape)
    ensures ValidIndex(shape, idx)
    ensures Offset(shape, idx) == p
  {
    if |shape| == 0 then []
    else
      var stride := Product(shape[1..]);
      SplitPosition(p, shape[0], stride);
      var i: nat, inner: nat := p / stride, p % stride;
      var rest := Unflatten(shape[1..], inner);
      ConsIndex(shape, i, rest);
      [i] + rest
  }

  lemma ConsIndex(shape: seq<nat>, i: nat, rest: seq<nat>)
    requires |shape| > 0 && i < shape[0] && ValidIndex(shape[1..], rest)
    ensures ValidIndex(shape, [i] + rest)
    ensures Offset(shape, [i] + rest) == i * Product(shape[1..]) + Offset(shape[1..], rest)
  {
    var idx := [i] + rest;
    assert idx[1..] == rest;
    forall a | 0 <= a < |shape| ensures idx[a] < shape[a] {
      if a > 0 {
        assert idx[a] == rest[a - 1];
      }
    }
  }

  /** A flat position below `d * stride` splits into a leading index below `d` and a remainder. */
  lemma SplitPosition(p: nat, d: nat, stride: nat)
    requires p < d * stride
    ensures stride > 0
    ensures p / stride < d && p % stride < stride
    ensures (p / stride) * stride + p % stride == p
  {
    if p / stride >= d {
      MulMonotone(d, p / stride, stride);
    }
  }

  /** Offset is injective: the multi-index is recovered from its flat position. */
  lemma {:induction false} UnflattenOffset(shape: seq<nat>, idx: seq<nat>)
    requires ValidIndex(shape, idx)
    ensures Unflatten(shape, Offset(shape, idx)) == idx
  {
    if |shape| > 0 {
      assert ValidIndex(shape[1..], idx[1..]);
      var stride := Product(shape[1..]);
      var inner := Offset(shape[1..], idx[1..]);
      DivModOfStride(idx[0], stride, inner);
      UnflattenOffset(shape[1..], idx[1..]);
      assert idx == [idx[0]] + idx[1..];
    }
  }

  /** The voxel at a multi-index. */
  function Get(v: Volume, idx: seq<nat>): int
    requires WellFormed(v) && ValidIndex(v.shape, idx)
  {
    v.data[Offset(v.shape, idx)]
  }
}
