/**
 * Volume preparation of an MRI experiment: removal of the zero padding
 * around the non-zero voxels (MRImateExperiment.removing_unwanted_zeros)
 * and the reshape to (rows, columns, slices, dynamics)
 * (MRImateExperiment.resize_data).
 */
module Preparation {
  import opened Wrappers
  import opened NdArray

  /** The ways preparing a volume fails. */
  datatype Error =
    | EmptyVolume     // min/max reduction over the empty set of non-zero indices
    | MissingAxis     // the volume has fewer axes than the operation indexes
    | ShapeMismatch   // the reshape target does not hold the voxel count
    | Unloaded        // an attribute of the experiment read before load assigned it
    | MissingEntry    // a header list indexed past its end

  /** Inclusive per-axis index bounds, one entry per axis of the volume. */
  datatype Box = Box(lo: seq<nat>, hi: seq<nat>)

  /** Both bounds name a real index of every axis, low before high. */
  predicate BoxFits(shape: seq<nat>, b: Box)
  {
    && |b.lo| == |shape|
    && |b.hi| == |shape|
    && forall a :: 0 <= a < |shape| ==> b.lo[a] <= b.hi[a] < shape[a]
  }

  function MinEach(x: seq<nat>, y: seq<nat>): seq<nat>
    requires |x| == |y|
  {
    seq(|x|, k requires 0 <= k < |x| => if x[k] <= y[k] then x[k] else y[k])
  }

  function MaxEach(x: seq<nat>, y: seq<nat>): seq<nat>
    requires |x| == |y|
  {
    seq(|x|, k requires 0 <= k < |x| => if x[k] >= y[k] then x[k] else y[k])
  }

  /**
   * Per-axis minimum and maximum of the coordinates of the non-zero voxels
   * among the flat positions [0, n); None when all of them are zero.
   */
  function BoxUpTo(v: Volume, n: nat): (r: Option<Box>)
    requires WellFormed(v) && n <= |v.data|
    ensures r.Some? ==> BoxFits(v.shape, r.value)
  {
    if n == 0 then None
    else
      var prev := BoxUpTo(v, n - 1);
      if v.data[n - 1] == 0 then prev
      else
        var c := Unflatten(v.shape, n - 1);
        match prev
        case None => Some(Box(c, c))
        case Some(b) => Some(Box(MinEach(b.lo, c), MaxEach(b.hi, c)))
  }

  /** The bounding box of every non-zero voxel of the volume. */
  function BoundingBox(v: Volume): Option<Box>
    requires WellFormed(v)
  {
    BoxUpTo(v, |v.data|)
  }

  /** Every non-zero voxel among the first n lies inside the box on every axis. */
  ghost predicate Encloses(v: Volume, n: nat, b: Box)
    requires WellFormed(v) && n <= |v.data| && BoxFits(v.shape, b)
  {
    forall q, a :: 0 <= q < n && v.data[q] != 0 && 0 <= a < |v.shape| ==>
      b.lo[a] <= Unflatten(v.shape, q)[a] <= b.hi[a]
  }

  /** On every axis both bounds are the coordinate of some non-zero voxel among the first n. */
  ghost predicate Attained(v: Volume, n: nat, b: Box)
    requires WellFormed(v) && n <= |v.data| && BoxFits(v.shape, b)
  {
    forall a :: 0 <= a < |v.shape| ==>
      && (exists q :: 0 <= q < n && v.data[q] != 0 && Unflatten(v.shape, q)[a] == b.lo[a])
      && (exists q :: 0 <= q < n && v.data[q] != 0 && Unflatten(v.shape, q)[a] == b.hi[a])
  }

  /** BoxUpTo is None exactly when the first n voxels are all zero. */
  lemma {:induction false} BoxUpToNone(v: Volume, n: nat)
    requires WellFormed(v) && n <= |v.data|
    ensures BoxUpTo(v, n).None? <==> forall q :: 0 <= q < n ==> v.data[q] == 0
  {
    if n > 0 {
      BoxUpToNone(v, n - 1);
    }
  }

  /** The box BoxUpTo computes encloses every non-zero voxel it has seen. */
  lemma {:induction false} BoxUpToEncloses(v: Volume, n: nat)
    requires WellFormed(v) && n <= |v.data|
    ensures BoxUpTo(v, n).Some? ==> Encloses(v, n, BoxUpTo(v, n).value)
  {
    if n > 0 {
      BoxUpToEncloses(v, n - 1);
      var prev := BoxUpTo(v, n - 1);
      if v.data[n - 1] == 0 {
        assert BoxUpTo(v, n) == prev;
        if prev.Some? {
          EnclosesExtend(v, n, prev.value);
        }
      } else {
        BoxUpToNone(v, n - 1);
        EnclosesStep(v, n);
      }
    }
  }

  lemma EnclosesExtend(v: Volume, n: nat, b: Box)
    requires WellFormed(v) && 0 < n <= |v.data| && BoxFits(v.shape, b)
    requires Encloses(v, n - 1, b) && v.data[n - 1] == 0
    ensures Encloses(v, n, b)
  {
  }

  lemma EnclosesStep(v: Volume, n: nat)
    requires WellFormed(v) && 0 < n <= |v.data| && v.data[n - 1] != 0
    requires BoxUpTo(v, n - 1).Some? ==> Encloses(v, n - 1, BoxUpTo(v, n - 1).value)
    requires BoxUpTo(v, n - 1).None? ==> forall q :: 0 <= q < n - 1 ==> v.data[q] == 0
    ensures Encloses(v, n, BoxUpTo(v, n).value)
  {
    var prev := BoxUpTo(v, n - 1);
    var c := Unflatten(v.shape, n - 1);
    var b := BoxUpTo(v, n).value;
    forall q, a | 0 <= q < n && v.data[q] != 0 && 0 <= a < |v.shape|
      ensures b.lo[a] <= Unflatten(v.shape, q)[a] <= b.hi[a]
    {
      if q < n - 1 {
        assert prev.Some?;
        assert prev.value.lo[a] <= Unflatten(v.shape, q)[a] <= prev.value.hi[a];
      }
    }
  }

  lemma AttainedExtend(v: Volume, n: nat, b: Box)
    requires WellFormed(v) && 0 < n <= |v.data| && BoxFits(v.shape, b)
    requires Attained(v, n - 1, b)
    ensures Attained(v, n, b)
  {
    forall a | 0 <= a < |v.shape|
      ensures exists q :: 0 <= q < n && v.data[q] != 0 && Unflatten(v.shape, q)[a] == b.lo[a]
      ensures exists q :: 0 <= q < n && v.data[q] != 0 && Unflatten(v.shape, q)[a] == b.hi[a]
    {
      var q :| 0 <= q < n - 1 && v.data[q] != 0 && Unflatten(v.shape, q)[a] == b.lo[a];
      var q' :| 0 <= q' < n - 1 && v.data[q'] != 0 && Unflatten(v.shape, q')[a] == b.hi[a];
    }
  }

  /** Each bound BoxUpTo computes is the coordinate of a non-zero voxel it has seen. */
  lemma {:induction false} BoxUpToAttained(v: Volume, n: nat)
    requires WellFormed(v) && n <= |v.data|
    ensures BoxUpTo(v, n).Some? ==> Attained(v, n, BoxUpTo(v, n).value)
  {
    if n == 0 {
    } else if v.data[n - 1] == 0 {
      BoxUpToAttained(v, n - 1);
      var prev := BoxUpTo(v, n - 1);
      assert BoxUpTo(v, n) == prev;
      if prev.Some? {
        AttainedExtend(v, n, prev.value);
      }
    } else {
      BoxUpToAttained(v, n - 1);
      AttainedStep(v, n);
    }
  }

  lemma AttainedStep(v: Volume, n: nat)
    requires WellFormed(v) && 0 < n <= |v.data| && v.data[n - 1] != 0
    requires BoxUpTo(v, n - 1).Some? ==> Attained(v, n - 1, BoxUpTo(v, n - 1).value)
    ensures Attained(v, n, BoxUpTo(v, n).value)
  {
    var prev := BoxUpTo(v, n - 1);
    var c := Unflatten(v.shape, n - 1);
    var b := BoxUpTo(v, n).value;
    forall a | 0 <= a < |v.shape|
      ensures exists q :: 0 <= q < n && v.data[q] != 0 && Unflatten(v.shape, q)[a] == b.lo[a]
      ensures exists q :: 0 <= q < n && v.data[q] != 0 && Unflatten(v.shape, q)[a] == b.hi[a]
    {
      if prev.None? || c[a] < prev.value.lo[a] {
        assert Unflatten(v.shape, n - 1)[a] == b.lo[a];
      } else {
        var q :| 0 <= q < n - 1 && v.data[q] != 0 && Unflatten(v.shape, q)[a] == prev.value.lo[a];
        assert Unflatten(v.shape, q)[a] == b.lo[a];
      }
      if prev.None? || c[a] > prev.value.hi[a] {
        assert Unflatten(v.shape, n - 1)[a] == b.hi[a];
      } else {
        var q :| 0 <= q < n - 1 && v.data[q] != 0 && Unflatten(v.shape, q)[a] == prev.value.hi[a];
        assert Unflatten(v.shape, q)[a] == b.hi[a];
      }
    }
  }

  /** Shape after cropping axes 0, 1 and 2 to the box; later axes keep their extent. */
  function CroppedShape(shape: seq<nat>, b: Box): (s: seq<nat>)
    requires |shape| >= 3 && BoxFits(shape, b)
    ensures |s| == |shape| && s[3..] == shape[3..]
    ensures forall a :: 0 <= a < 3 ==> s[a] == b.hi[a] - b.lo[a] + 1 <= shape[a]
  {
    [b.hi[0] - b.lo[0] + 1, b.hi[1] - b.lo[1] + 1, b.hi[2] - b.lo[2] + 1] + shape[3..]
  }

  /** The input position of a voxel of the cropped volume. */
  function Shift(b: Box, idx: seq<nat>): seq<nat>
    requires |idx| >= 3 && |b.lo| >= 3
  {
    [b.lo[0] + idx[0], b.lo[1] + idx[1], b.lo[2] + idx[2]] + idx[3..]
  }

  /** The cropped position of an input voxel that lies inside the box on axes 0, 1 and 2. */
  function Unshift(b: Box, idx: seq<nat>): seq<nat>
    requires |idx| >= 3 && |b.lo| >= 3
    requires forall a :: 0 <= a < 3 ==> b.lo[a] <= idx[a]
  {
    [idx[0] - b.lo[0], idx[1] - b.lo[1], idx[2] - b.lo[2]] + idx[3..]
  }

  lemma ShiftValid(shape: seq<nat>, b: Box, idx: seq<nat>)
    requires |shape| >= 3 && BoxFits(shape, b)
    requires ValidIndex(CroppedShape(shape, b), idx)
    ensures ValidIndex(shape, Shift(b, idx))
  {
    var s := Shift(b, idx);
    forall a | 3 <= a < |shape| ensures s[a] < shape[a] {
      assert s[a] == idx[a];
      assert CroppedShape(shape, b)[a] == shape[a];
    }
  }

  /**
   * The volume restricted to the box on axes 0, 1 and 2 (the slice
   * data[lo0:hi0+1, lo1:hi1+1, lo2:hi2+1]), in row-major order.
   */
  function CropTo(v: Volume, b: Box): (c: Volume)
    requires WellFormed(v) && |v.shape| >= 3 && BoxFits(v.shape, b)
    ensures WellFormed(c) && c.shape == CroppedShape(v.shape, b)
  {
    var s := CroppedShape(v.shape, b);
    var data := seq(Product(s), p requires 0 <= p < Product(s) =>
      ShiftValid(v.shape, b, Unflatten(s, p));
      v.data[Offset(v.shape, Shift(b, Unflatten(s, p)))]);
    Volume(data, s)
  }

  /**
   * removing_unwanted_zeros: crop to the bounding box of the non-zero voxels.
   * An all-zero volume fails in the min/max reduction; a volume with fewer
   * than three axes fails when the three-axis slice is taken.
   */
  function CropPadding(v: Volume): (r: Result<Volume, Error>)
    requires WellFormed(v)
    ensures r.Ok? ==> WellFormed(r.value) && |r.value.shape| == |v.shape| >= 3
  {
    match BoundingBox(v)
    case None => Err(EmptyVolume)
    case Some(b) => if |v.shape| < 3 then Err(MissingAxis) else Ok(CropTo(v, b))
  }

  /** Cropping fails with EmptyVolume exactly when every voxel is zero, and with MissingAxis exactly when some voxel is non-zero but there are fewer than three axes. */
  lemma CropErrors(v: Volume)
    requires WellFormed(v)
    ensures CropPadding(v) == Err(EmptyVolume) <==> forall q :: 0 <= q < |v.data| ==> v.data[q] == 0
    ensures CropPadding(v) == Err(MissingAxis) <==>
      (exists q :: 0 <= q < |v.data| && v.data[q] != 0) && |v.shape| < 3
  {
    BoxUpToNone(v, |v.data|);
  }

  lemma UnshiftValid(shape: seq<nat>, b: Box, idx: seq<nat>)
    requires |shape| >= 3 && BoxFits(shape, b) && ValidIndex(shape, idx)
    requires forall a :: 0 <= a < 3 ==> b.lo[a] <= idx[a] <= b.hi[a]
    ensures ValidIndex(CroppedShape(shape, b), Unshift(b, idx))
    ensures Shift(b, Unshift(b, idx)) == idx
  {
    var u := Unshift(b, idx);
    var s := CroppedShape(shape, b);
    forall a | 3 <= a < |s| ensures u[a] < s[a] {
      assert u[a] == idx[a];
    }
    assert Shift(b, u) == idx;
  }

  /** Each voxel of the cropped volume is the input voxel at the shifted position. */
  lemma CropValueAt(v: Volume, b: Box, idx: seq<nat>)
    requires WellFormed(v) && |v.shape| >= 3 && BoxFits(v.shape, b)
    requires ValidIndex(CroppedShape(v.shape, b), idx)
    ensures ValidIndex(v.shape, Shift(b, idx))
    ensures Get(CropTo(v, b), idx) == Get(v, Shift(b, idx))
  {
    ShiftValid(v.shape, b, idx);
    UnflattenOffset(CroppedShape(v.shape, b), idx);
  }

  /** A non-zero input voxel lies in the bounding box on every axis. */
  lemma NonZeroInBox(v: Volume, idx: seq<nat>)
    requires WellFormed(v) && ValidIndex(v.shape, idx) && Get(v, idx) != 0
    ensures BoundingBox(v).Some?
    ensures forall a :: 0 <= a < |v.shape| ==>
      BoundingBox(v).value.lo[a] <= idx[a] <= BoundingBox(v).value.hi[a]
  {
    var q := Offset(v.shape, idx);
    BoxUpToNone(v, |v.data|);
    BoxUpToEncloses(v, |v.data|);
    UnflattenOffset(v.shape, idx);
    assert Unflatten(v.shape, q) == idx;
  }

  /**
   * Cropping loses no non-zero voxel: each one lies inside the box on axes
   * 0, 1 and 2 and reappears in the result at the shifted-back position.
   */
  lemma CropKeepsNonZero(v: Volume, idx: seq<nat>)
    requires WellFormed(v) && ValidIndex(v.shape, idx) && Get(v, idx) != 0
    requires |v.shape| >= 3
    ensures CropPadding(v).Ok?
    ensures var b := BoundingBox(v).value;
      && (forall a :: 0 <= a < 3 ==> b.lo[a] <= idx[a] <= b.hi[a])
      && ValidIndex(CropPadding(v).value.shape, Unshift(b, idx))
      && Shift(b, Unshift(b, idx)) == idx
      && Get(CropPadding(v).value, Unshift(b, idx)) == Get(v, idx)
  {
    NonZeroInBox(v, idx);
    var b := BoundingBox(v).value;
    assert CropPadding(v) == Ok(CropTo(v, b));
    var u := Unshift(b, idx);
    UnshiftValid(v.shape, b, idx);
    CropValueAt(v, b, u);
  }

  /** The voxel of the cropped volume that an attained bound of axis a maps to. */
  lemma BoundPlane(v: Volume, q: nat, a: nat) returns (u: seq<nat>)
    requires WellFormed(v) && |v.shape| >= 3 && a < 3
    requires q < |v.data| && v.data[q] != 0
    ensures BoundingBox(v).Some? && CropPadding(v) == Ok(CropTo(v, BoundingBox(v).value))
    ensures ValidIndex(CropTo(v, BoundingBox(v).value).shape, u)
    ensures Get(CropTo(v, BoundingBox(v).value), u) != 0
    ensures u[a] + BoundingBox(v).value.lo[a] == Unflatten(v.shape, q)[a]
  {
    var idx := Unflatten(v.shape, q);
    assert Get(v, idx) == v.data[q];
    NonZeroInBox(v, idx);
    var b := BoundingBox(v).value;
    assert CropPadding(v) == Ok(CropTo(v, b));
    UnshiftValid(v.shape, b, idx);
    u := Unshift(b, idx);
    assert u[a] + b.lo[a] == idx[a];
    CropValueAt(v, b, u);
    assert Get(CropTo(v, b), u) == Get(v, idx);
  }

  /**
   * A volume with at least 3 axes and a non-zero voxel crops successfully, and
   * the crop box is tight: on each of axes 0, 1 and 2 the first and the last
   * index plane of the result hold a non-zero voxel.
   */
  lemma CropIsTight(v: Volume, a: nat)
    requires WellFormed(v) && |v.shape| >= 3 && a < 3
    requires exists q :: 0 <= q < |v.data| && v.data[q] != 0
    ensures CropPadding(v).Ok?
    ensures var c := CropPadding(v).value;
      && (exists idx :: ValidIndex(c.shape, idx) && idx[a] == 0 && Get(c, idx) != 0)
      && (exists idx :: ValidIndex(c.shape, idx) && idx[a] == c.shape[a] - 1 && Get(c, idx) != 0)
  {
    CropErrors(v);
    var b := BoundingBox(v).value;
    BoxUpToAttained(v, |v.data|);
    var qlo :| 0 <= qlo < |v.data| && v.data[qlo] != 0 && Unflatten(v.shape, qlo)[a] == b.lo[a];
    var qhi :| 0 <= qhi < |v.data| && v.data[qhi] != 0 && Unflatten(v.shape, qhi)[a] == b.hi[a];
    var ulo := BoundPlane(v, qlo, a);
    var uhi := BoundPlane(v, qhi, a);
    var c := CropTo(v, b);
    assert c.shape[a] == b.hi[a] - b.lo[a] + 1;
    assert ValidIndex(c.shape, ulo) && ulo[a] == 0 && Get(c, ulo) != 0;
    assert ValidIndex(c.shape, uhi) && uhi[a] == c.shape[a] - 1 && Get(c, uhi) != 0;
  }

  /** On each of axes 0, 1 and 2 the first and the last index plane hold a non-zero voxel. */
  ghost predicate NoZeroBorder(v: Volume)
    requires WellFormed(v)
  {
    && |v.shape| >= 3
    && forall a :: 0 <= a < 3 ==>
      && (exists idx :: ValidIndex(v.shape, idx) && idx[a] == 0 && Get(v, idx) != 0)
      && (exists idx :: ValidIndex(v.shape, idx) && idx[a] == v.shape[a] - 1 && Get(v, idx) != 0)
  }

  /** Without a zero border the bounding box spans axes 0, 1 and 2 completely. */
  lemma BorderlessBox(v: Volume)
    requires WellFormed(v) && NoZeroBorder(v)
    ensures BoundingBox(v).Some?
    ensures forall a :: 0 <= a < 3 ==>
      BoundingBox(v).value.lo[a] == 0 && BoundingBox(v).value.hi[a] == v.shape[a] - 1
  {
    var i0 :| ValidIndex(v.shape, i0) && i0[0] == 0 && Get(v, i0) != 0;
    NonZeroInBox(v, i0);
    var b := BoundingBox(v).value;
    forall a | 0 <= a < 3 ensures b.lo[a] == 0 && b.hi[a] == v.shape[a] - 1 {
      var first :| ValidIndex(v.shape, first) && first[a] == 0 && Get(v, first) != 0;
      var last :| ValidIndex(v.shape, last) && last[a] == v.shape[a] - 1 && Get(v, last) != 0;
      NonZeroInBox(v, first);
      NonZeroInBox(v, last);
    }
  }

  lemma FullBoxShape(shape: seq<nat>, b: Box)
    requires |shape| >= 3 && BoxFits(shape, b)
    requires forall a :: 0 <= a < 3 ==> b.lo[a] == 0 && b.hi[a] == shape[a] - 1
    ensures CroppedShape(shape, b) == shape
  {
    var s := CroppedShape(shape, b);
    assert s[0] == shape[0] && s[1] == shape[1] && s[2] == shape[2];
    assert s[3..] == shape[3..];
    assert s == s[..3] + s[3..] && shape == shape[..3] + shape[3..];
  }

  lemma FullBoxShift(shape: seq<nat>, b: Box, idx: seq<nat>)
    requires |shape| >= 3 && BoxFits(shape, b) && |idx| == |shape|
    requires forall a :: 0 <= a < 3 ==> b.lo[a] == 0
    ensures Shift(b, idx) == idx
  {
    var s := Shift(b, idx);
    assert s[0] == idx[0] && s[1] == idx[1] && s[2] == idx[2];
    assert s == s[..3] + s[3..] && idx == idx[..3] + idx[3..];
  }

  /** Cropping to a box that spans axes 0, 1 and 2 completely is the identity. */
  lemma FullBoxCrop(v: Volume, b: Box)
    requires WellFormed(v) && |v.shape| >= 3 && BoxFits(v.shape, b)
    requires forall a :: 0 <= a < 3 ==> b.lo[a] == 0 && b.hi[a] == v.shape[a] - 1
    ensures CropTo(v, b) == v
  {
    FullBoxShape(v.shape, b);
    var c := CropTo(v, b);
    forall p | 0 <= p < |v.data| ensures c.data[p] == v.data[p] {
      FullBoxShift(v.shape, b, Unflatten(v.shape, p));
    }
    assert c.data == v.data;
  }

  /** Cropping a volume that has no zero border returns it unchanged, shape and voxels. */
  lemma BorderlessUnchanged(v: Volume)
    requires WellFormed(v) && NoZeroBorder(v)
    ensures CropPadding(v) == Ok(v)
  {
    BorderlessBox(v);
    FullBoxCrop(v, BoundingBox(v).value);
  }

  /** removing_unwanted_zeros is idempotent on every volume it accepts. */
  lemma CropIdempotent(v: Volume)
    requires WellFormed(v) && |v.shape| >= 3
    requires exists q :: 0 <= q < |v.data| && v.data[q] != 0
    ensures CropPadding(v).Ok?
    ensures CropPadding(CropPadding(v).value) == CropPadding(v)
  {
    CropErrors(v);
    var c := CropPadding(v).value;
    forall a | 0 <= a < 3
      ensures exists idx :: ValidIndex(c.shape, idx) && idx[a] == 0 && Get(c, idx) != 0
      ensures exists idx :: ValidIndex(c.shape, idx) && idx[a] == c.shape[a] - 1 && Get(c, idx) != 0
    {
      CropIsTight(v, a);
    }
    assert NoZeroBorder(c);
    BorderlessUnchanged(c);
  }

  /**
   * resize_data: reshape to (d0, d1, slices, dynamics), keeping the first two
   * extents. np.reshape keeps the row-major element order, so only the shape
   * changes; it fails unless the target holds exactly the voxel count.
   */
  function Reshape(v: Volume, slices: int, dynamics: int): (r: Result<Volume, Error>)
    requires WellFormed(v)
  {
    if |v.shape| < 2 then Err(MissingAxis)
    else if slices < 0 || dynamics < 0 then Err(ShapeMismatch)
    else
      var target := [v.shape[0], v.shape[1], slices as nat, dynamics as nat];
      if Product(target) == |v.data| then Ok(Volume(v.data, target)) else Err(ShapeMismatch)
  }

  /** The reshape succeeds exactly when d0*d1*slices*dynamics is the voxel count; it keeps the flat data and the first two extents. */
  lemma ReshapeSpec(v: Volume, slices: int, dynamics: int)
    requires WellFormed(v)
    ensures Reshape(v, slices, dynamics).Ok? <==>
      |v.shape| >= 2 && slices >= 0 && dynamics >= 0 &&
      v.shape[0] * v.shape[1] * slices * dynamics == |v.data|
    ensures Reshape(v, slices, dynamics).Ok? ==>
      var w := Reshape(v, slices, dynamics).value;
      && WellFormed(w)
      && w.shape == [v.shape[0], v.shape[1], slices as nat, dynamics as nat]
      && w.data == v.data
    ensures |v.shape| < 2 ==> Reshape(v, slices, dynamics) == Err(MissingAxis)
    ensures |v.shape| >= 2 && !Reshape(v, slices, dynamics).Ok? ==> Reshape(v, slices, dynamics) == Err(ShapeMismatch)
  {
    if |v.shape| >= 2 && slices >= 0 && dynamics >= 0 {
      var target := [v.shape[0], v.shape[1], slices as nat, dynamics as nat];
      ProductOfFour(target);
    }
  }

  lemma ProductOfFour(s: seq<nat>)
    requires |s| == 4
    ensures Product(s) == s[0] * s[1] * s[2] * s[3]
  {
    assert s[1..] == [s[1], s[2], s[3]] && s[2..] == [s[2], s[3]] && s[3..] == [s[3]];
    assert [s[3]][1..] == [] && [s[2], s[3]][1..] == [s[3]] && [s[1], s[2], s[3]][1..] == [s[2], s[3]];
    assert Product([s[3]]) == s[3];
    assert Product([s[2], s[3]]) == s[2] * s[3];
    assert Product([s[1], s[2], s[3]]) == s[1] * (s[2] * s[3]);
  }

  /**
   * Row-major order of the reshaped volume: voxel (i, j, k, t) is flat element
   * ((i*d1 + j)*slices + k)*dynamics + t of the unchanged data.
   */
  lemma ReshapedVoxel(v: Volume, slices: int, dynamics: int, i: nat, j: nat, k: nat, t: nat)
    requires WellFormed(v) && Reshape(v, slices, dynamics).Ok?
    requires ValidIndex(Reshape(v, slices, dynamics).value.shape, [i, j, k, t])
    ensures var p := ((i * v.shape[1] + j) * slices + k) * dynamics + t;
      p < |v.data| && Get(Reshape(v, slices, dynamics).value, [i, j, k, t]) == v.data[p]
  {
    ReshapeSpec(v, slices, dynamics);
    assert Reshape(v, slices, dynamics).value.shape == [v.shape[0], v.shape[1], slices as nat, dynamics as nat];
    OffsetOfFour(v.shape[0], v.shape[1], slices as nat, dynamics as nat, i, j, k, t);
  }

  /** Offset of a four-axis index, written out in Horner form. */
  lemma OffsetOfFour(a: nat, b: nat, c: nat, d: nat, i: nat, j: nat, k: nat, t: nat)
    requires ValidIndex([a, b, c, d], [i, j, k, t])
    ensures Offset([a, b, c, d], [i, j, k, t]) == ((i * b + j) * c + k) * d + t
  {
    assert [a, b, c, d][1..] == [b, c, d] && [i, j, k, t][1..] == [j, k, t];
    assert [b, c, d][1..] == [c, d] && [j, k, t][1..] == [k, t];
    assert [c, d][1..] == [d] && [k, t][1..] == [t];
    assert [d][1..] == [] && [t][1..] == [];
    assert Product([d]) == d;
    assert Product([c, d]) == c * d;
    assert Product([b, c, d]) == b * (c * d);
    assert Offset([d], [t]) == t;
    assert Offset([c, d], [k, t]) == k * d + t;
    assert Offset([b, c, d], [j, k, t]) == j * (c * d) + (k * d + t);
    Horner(b, c, d, i, j, k, t);
  }

  lemma Horner(b: int, c: int, d: int, i: int, j: int, k: int, t: int)
    ensures i * (b * (c * d)) + (j * (c * d) + (k * d + t)) == ((i * b + j) * c + k) * d + t
  {
    calc {
      ((i * b + j) * c + k) * d + t;
      == (i * b * c + j * c + k) * d + t;
      == i * b * c * d + j * c * d + k * d + t;
    }
  }
}
