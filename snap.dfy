/** Grid snapping (src/utils/snap.ts). */
module Snap {
  import opened Numeric
  import opened Types

  const DEFAULT_SNAP_SIZE: real := 300.0
  const SECONDARY_SNAP_SIZE: real := 150.0

  /** `Math.round(value / snapSize) * snapSize`, or `value` itself for a non-positive size. */
  function SnapToGrid(value: real, snapSize: real): (r: real)
    ensures snapSize <= 0.0 ==> r == value
    ensures snapSize > 0.0 ==> IsInteger(r / snapSize)
    ensures snapSize > 0.0 ==> value - snapSize / 2.0 < r <= value + snapSize / 2.0
  {
    if snapSize <= 0.0 then value
    else
      var k := JsRound(value / snapSize);
      ScaledWindow(value, k, snapSize);
      k as real * snapSize
  }

  /** Scaling the rounding window of `q` by a positive size. */
  lemma ScaledWindow(value: real, k: int, size: real)
    requires size > 0.0
    requires value / size - 0.5 < k as real <= value / size + 0.5
    ensures (k as real * size) / size == k as real
    ensures value - size / 2.0 < k as real * size <= value + size / 2.0
  {
    var q := value / size;
    assert q * size == value;
    MulStrict(q - 0.5, k as real, size);
    MulWeak(k as real, q + 0.5, size);
    assert (q - 0.5) * size == value - size / 2.0;
    assert (q + 0.5) * size == value + size / 2.0;
  }

  /** A snapped value is a fixed point: snapping it again returns it. */
  lemma SnapIdempotent(value: real, snapSize: real)
    ensures SnapToGrid(SnapToGrid(value, snapSize), snapSize) == SnapToGrid(value, snapSize)
  {
    if snapSize > 0.0 {
      var r := SnapToGrid(value, snapSize);
      var k := JsRound(value / snapSize);
      ScaledWindow(value, k, snapSize);
      assert r / snapSize == k as real;
      JsRoundUnique(k as real, k);
    }
  }

  /** The grid point is exactly `snapSize` times the rounded quotient. */
  lemma SnapIsMultiple(value: real, snapSize: real)
    requires snapSize > 0.0
    ensures SnapToGrid(value, snapSize) == JsRound(value / snapSize) as real * snapSize
  {
  }

  /** Worked values: halves round up, negative values round symmetrically. */
  lemma SnapExamples()
    ensures SnapToGrid(149.0, 150.0) == 150.0
    ensures SnapToGrid(225.0, 150.0) == 300.0
    ensures SnapToGrid(299.0, 300.0) == 300.0
    ensures SnapToGrid(451.0, 300.0) == 600.0
    ensures SnapToGrid(123.0, 0.0) == 123.0
    ensures SnapToGrid(123.0, -100.0) == 123.0
    ensures SnapToGrid(-74.0, 150.0) == 0.0
    ensures SnapToGrid(-226.0, 150.0) == -300.0
  {
    JsRoundUnique(149.0 / 150.0, 1);
    JsRoundUnique(225.0 / 150.0, 2);
    JsRoundUnique(299.0 / 300.0, 1);
    JsRoundUnique(451.0 / 300.0, 2);
    JsRoundUnique(-74.0 / 150.0, 0);
    JsRoundUnique(-226.0 / 150.0, -2);
  }

  /** Both coordinates snapped with the same size. */
  function SnapPointToGrid(p: Point, snapSize: real): (r: Point)
    ensures r.x == SnapToGrid(p.x, snapSize) && r.y == SnapToGrid(p.y, snapSize)
  {
    Point(SnapToGrid(p.x, snapSize), SnapToGrid(p.y, snapSize))
  }

  lemma SnapPointExample()
    ensures SnapPointToGrid(Point(212.0, -148.0), 150.0) == Point(150.0, -150.0)
  {
    JsRoundUnique(212.0 / 150.0, 1);
    JsRoundUnique(-148.0 / 150.0, -1);
  }
}
