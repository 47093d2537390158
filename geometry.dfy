/** Scan geometry: how the alarm node turns the angular metadata of a laser
    scan into the array index of each monitored bearing.

    Angles are radians, modelled as `real`. The node converts the quotients
    below to `int` with C++ casts, which truncate toward zero; `Trunc` is that
    conversion. */
module LidarGeometry {

  /** The bearings hard-coded in the index formulas (0 is straight ahead,
      negative is to the right, positive to the left). */
  const Right90Bearing: real := -1.5708
  const Right45Bearing: real := -0.785398
  const Right30Bearing: real := -0.523599
  const Left90Bearing: real := 1.5708
  const Left45Bearing: real := 0.785398
  const Left30Bearing: real := 0.523599

  /** Conversion of a real number to an integer by truncation toward zero,
      as the C++ `(int)` cast and the implicit double-to-int conversion do. */
  function Trunc(x: real): (r: int)
    ensures 0.0 <= x ==> 0 <= r && r as real <= x < r as real + 1.0
    ensures x < 0.0 ==> r <= 0 && r as real - 1.0 < x <= r as real
  {
    if x >= 0.0 then x.Floor else -((-x).Floor)
  }

  /** Truncation toward zero never decreases when its argument grows. */
  lemma TruncMonotone(x: real, y: real)
    requires x <= y
    ensures Trunc(x) <= Trunc(y)
  {
  }

  /** Truncating `n - x` for an integer `n` and a non-negative `x` gives the
      mirror `n - Trunc(x)` or one less. */
  lemma TruncMirror(n: int, x: real)
    requires 0.0 <= x
    ensures n - Trunc(x) - 1 <= Trunc(n as real - x) <= n - Trunc(x)
  {
  }

  /** For a non-negative `y`, truncating `2 * y` gives twice the truncation
      of `y`, or one more. */
  lemma TruncDouble(y: real)
    requires 0.0 <= y
    ensures 2 * Trunc(y) <= Trunc(2.0 * y) <= 2 * Trunc(y) + 1
  {
  }

  /** Index of `bearing` counted in whole increments from `angleMin`: the
      formula of the front and right-hand sectors. */
  function IndexFromMin(bearing: real, angleMin: real, angleIncrement: real): int
    requires angleIncrement != 0.0
  {
    Trunc((bearing - angleMin) / angleIncrement)
  }

  /** `index_size`: the number of whole increments between the two ends of
      the scan. */
  function IndexSize(angleMin: real, angleMax: real, angleIncrement: real): int
    requires angleIncrement != 0.0
  {
    Trunc((angleMax - angleMin) / angleIncrement)
  }

  /** Index of `bearing` counted back from the last index `size`, using the
      angular distance from `bearing` to `angleMax`: the formula of the
      left-hand sectors. */
  function IndexFromMax(size: int, bearing: real, angleMax: real, angleIncrement: real): int
    requires angleIncrement != 0.0
  {
    Trunc(size as real - (angleMax - bearing) / angleIncrement)
  }

  /** The indices the node caches on set-up, one field per global. */
  datatype SectorIndices = SectorIndices(
    front: int, size: int,
    right90: int, right45: int, right30: int,
    left90: int, left45: int, left30: int)
  {
    /** Every monitored index can be used to read a scan of `n` ranges
        (`size` is never used as an index). */
    predicate InBounds(n: int) {
      0 <= front < n &&
      0 <= right90 < n && 0 <= right45 < n && 0 <= right30 < n &&
      0 <= left90 < n && 0 <= left45 < n && 0 <= left30 < n
    }
  }

  /** The indices computed from one scan's geometry. */
  function ComputeIndices(angleMin: real, angleMax: real, angleIncrement: real): SectorIndices
    requires angleIncrement != 0.0
  {
    var size := IndexSize(angleMin, angleMax, angleIncrement);
    SectorIndices(
      IndexFromMin(0.0, angleMin, angleIncrement),
      size,
      IndexFromMin(Right90Bearing, angleMin, angleIncrement),
      IndexFromMin(Right45Bearing, angleMin, angleIncrement),
      IndexFromMin(Right30Bearing, angleMin, angleIncrement),
      IndexFromMax(size, Left90Bearing, angleMax, angleIncrement),
      IndexFromMax(size, Left45Bearing, angleMax, angleIncrement),
      IndexFromMax(size, Left30Bearing, angleMax, angleIncrement))
  }

  /** With a positive increment, an index computed from `angleMin` is the
      number of whole increments that fit between `angleMin` and the bearing
      (or, for a bearing before `angleMin`, minus the number that fit between
      them, which makes it zero or negative). */
  lemma IndexFromMinCountsIncrements(bearing: real, angleMin: real, angleIncrement: real)
    requires 0.0 < angleIncrement
    ensures var i := IndexFromMin(bearing, angleMin, angleIncrement);
      (angleMin <= bearing ==>
         0 <= i && i as real * angleIncrement <= bearing - angleMin < (i + 1) as real * angleIncrement) &&
      (bearing < angleMin ==>
         i <= 0 && (i - 1) as real * angleIncrement < bearing - angleMin <= i as real * angleIncrement)
  {
    var x := (bearing - angleMin) / angleIncrement;
    var i := Trunc(x);
    assert x * angleIncrement == bearing - angleMin;
    if angleMin <= bearing {
      assert 0.0 <= x;
      MultiplyMonotone(i as real, x, angleIncrement);
      MultiplyStrict(x, (i + 1) as real, angleIncrement);
      assert bearing - angleMin < (i + 1) as real * angleIncrement;
    } else {
      assert x < 0.0;
      MultiplyStrict((i - 1) as real, x, angleIncrement);
      MultiplyMonotone(x, i as real, angleIncrement);
    }
  }

  lemma MultiplyMonotone(a: real, b: real, c: real)
    requires a <= b && 0.0 < c
    ensures a * c <= b * c
  {
  }

  lemma MultiplyStrict(a: real, b: real, c: real)
    requires a < b && 0.0 < c
    ensures a * c < b * c
  {
  }

  lemma DivideMonotone(a: real, b: real, c: real)
    requires a <= b && 0.0 < c
    ensures a / c <= b / c
  {
  }

  /** With a positive increment the right-hand indices and the front index
      follow the order of their bearings, from the right edge to straight
      ahead. */
  lemma RightIndicesOrdered(angleMin: real, angleMax: real, angleIncrement: real)
    requires 0.0 < angleIncrement
    ensures var g := ComputeIndices(angleMin, angleMax, angleIncrement);
      g.right90 <= g.right45 <= g.right30 <= g.front
  {
    DivideMonotone(Right90Bearing - angleMin, Right45Bearing - angleMin, angleIncrement);
    DivideMonotone(Right45Bearing - angleMin, Right30Bearing - angleMin, angleIncrement);
    DivideMonotone(Right30Bearing - angleMin, 0.0 - angleMin, angleIncrement);
    TruncMonotone((Right90Bearing - angleMin) / angleIncrement, (Right45Bearing - angleMin) / angleIncrement);
    TruncMonotone((Right45Bearing - angleMin) / angleIncrement, (Right30Bearing - angleMin) / angleIncrement);
    TruncMonotone((Right30Bearing - angleMin) / angleIncrement, (0.0 - angleMin) / angleIncrement);
  }

  /** With a positive increment the left-hand indices follow the order of
      their bearings, from 30 degrees to the left edge. */
  lemma LeftIndicesOrdered(angleMin: real, angleMax: real, angleIncrement: real)
    requires 0.0 < angleIncrement
    ensures var g := ComputeIndices(angleMin, angleMax, angleIncrement);
      g.left30 <= g.left45 <= g.left90
  {
    var n := IndexSize(angleMin, angleMax, angleIncrement) as real;
    DivideMonotone(angleMax - Left45Bearing, angleMax - Left30Bearing, angleIncrement);
    DivideMonotone(angleMax - Left90Bearing, angleMax - Left45Bearing, angleIncrement);
    TruncMonotone(n - (angleMax - Left30Bearing) / angleIncrement, n - (angleMax - Left45Bearing) / angleIncrement);
    TruncMonotone(n - (angleMax - Left45Bearing) / angleIncrement, n - (angleMax - Left90Bearing) / angleIncrement);
  }

  /** For a symmetric scan (`angleMin == -angleMax`) and any bearing, the
      index computed from `angleMax` is the mirror `size - i` of the index `i`
      of the opposite bearing computed from `angleMin`, or one less. */
  lemma MirroredIndex(angleMax: real, angleIncrement: real, bearing: real)
    requires 0.0 < angleIncrement && 0.0 <= angleMax
    ensures var size := IndexSize(-angleMax, angleMax, angleIncrement);
      var mirror := size - IndexFromMin(-bearing, -angleMax, angleIncrement);
      mirror - 1 <= IndexFromMax(size, bearing, angleMax, angleIncrement) <= mirror
  {
  }

  /** For a symmetric scan every left-hand index is the mirror of its
      right-hand counterpart, `size - right`, or one less. */
  lemma LeftMirrorsRight(angleMax: real, angleIncrement: real)
    requires 0.0 < angleIncrement && 0.0 <= angleMax
    ensures var g := ComputeIndices(-angleMax, angleMax, angleIncrement);
      g.size - g.right90 - 1 <= g.left90 <= g.size - g.right90 &&
      g.size - g.right45 - 1 <= g.left45 <= g.size - g.right45 &&
      g.size - g.right30 - 1 <= g.left30 <= g.size - g.right30
  {
  }

  /** For a symmetric scan the front index lies in the middle of the scan:
      `size` is twice the front index, or one more. */
  lemma FrontIsMidpoint(angleMax: real, angleIncrement: real)
    requires 0.0 < angleIncrement && 0.0 <= angleMax
    ensures var g := ComputeIndices(-angleMax, angleMax, angleIncrement);
      2 * g.front <= g.size <= 2 * g.front + 1
  {
    var y := angleMax / angleIncrement;
    DivideMonotone(0.0, angleMax, angleIncrement);
    assert (0.0 - -angleMax) / angleIncrement == y;
    assert (angleMax - -angleMax) / angleIncrement == 2.0 * y;
    TruncDouble(y);
  }

  /** The "or one less" of `LeftMirrorsRight` does occur: for a scan from
      -1.5708 to 1.5708 in steps of 0.0174533 (181 samples), the 45-degree
      right index is 45 but the 45-degree left index is 134, not 180 - 45
      (likewise 60 and 119 at 30 degrees). */
  lemma LeftMirrorCanBeOneShort()
    ensures var g := ComputeIndices(-1.5708, 1.5708, 0.0174533);
      g.size == 180 && g.front == 90 &&
      g.right90 == 0 && g.right45 == 45 && g.right30 == 60 &&
      g.left90 == 180 && g.left45 == 134 && g.left30 == 119
  {
  }

  /** A scan from -1.5707963 to 1.5707963 in steps of 0.0174533, whose ends
      lie just inside the 1.5708 bearings: the 90-degree indices mirror each
      other exactly (0 and 179), the 45- and 30-degree ones are one short. */
  lemma HalfPiScanIndices()
    ensures var g := ComputeIndices(-1.5707963, 1.5707963, 0.0174533);
      g.size == 179 && g.front == 89 &&
      g.right90 == 0 && g.right45 == 44 && g.right30 == 59 &&
      g.left90 == 179 && g.left45 == 134 && g.left30 == 119
  {
  }
}
