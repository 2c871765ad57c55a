/**
  Screen geometry used by the drag gesture: points with exact real
  coordinates and the proximity test that decides whether the pointer
  collects an icon.
 */
module Geometry {

  /** A point in screen coordinates (CGPoint in the app). */
  datatype Point = Point(x: real, y: real)

  /** CGPoint.zero: where an icon sits until its layout has been reported. */
  const Origin: Point := Point(0.0, 0.0)

  /** The pointer collects an icon whose centre is strictly closer than this. */
  const CollectRadius: real := 35.0

  /** The square of the Euclidean distance between two points. */
  function SquaredDistance(a: Point, b: Point): (d: real)
    ensures d >= 0.0
    ensures a == b ==> d == 0.0
  {
    var dx := a.x - b.x;
    var dy := a.y - b.y;
    dx * dx + dy * dy
  }

  /**
    The collection test of the drag handler, written without a square root:
    the distance is below the radius exactly when its square is below the
    radius squared (see WithinReachIffDistanceBelowRadius).
   */
  predicate WithinReach(pointer: Point, center: Point)
  {
    SquaredDistance(pointer, center) < CollectRadius * CollectRadius
  }

  /**
    The squared test agrees with the app's `sqrt(dx² + dy²) < 35` test: for
    the non-negative number `d` whose square is the squared distance (the
    Euclidean distance), the centre is within reach exactly when `d` is below
    the radius. So the threshold is exact: a distance just below the radius
    collects, the radius itself and anything above it does not.
   */
  lemma WithinReachIffDistanceBelowRadius(pointer: Point, center: Point, d: real)
    requires d >= 0.0 && d * d == SquaredDistance(pointer, center)
    ensures WithinReach(pointer, center) <==> d < CollectRadius
  {
    if d < CollectRadius {
      assert d * d <= d * CollectRadius;
      assert d * CollectRadius < CollectRadius * CollectRadius;
    } else {
      assert d * d >= d * CollectRadius;
      assert d * CollectRadius >= CollectRadius * CollectRadius;
    }
  }

  /** Proximity does not depend on which of the two points is the pointer. */
  lemma WithinReachSymmetric(a: Point, b: Point)
    ensures WithinReach(a, b) <==> WithinReach(b, a)
  {
    var dx, dy := a.x - b.x, a.y - b.y;
    assert (-dx) * (-dx) == dx * dx;
    assert (-dy) * (-dy) == dy * dy;
  }
}
