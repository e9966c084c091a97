/**
  Eye and mouth aspect ratios over dlib's 68-point landmarks.

  The distance function is a parameter: the model does not take square
  roots, it only asks that `dist` be the Euclidean distance, which it pins
  down by `dist(p, q) >= 0` and `dist(p, q)^2 == (px - qx)^2 + (py - qy)^2`.
 */
module AspectRatios {

  /** A landmark, in integer pixel coordinates. */
  datatype Point = Point(x: int, y: int)

  function SquaredDistance(p: Point, q: Point): int {
    (p.x - q.x) * (p.x - q.x) + (p.y - q.y) * (p.y - q.y)
  }

  /** `dist` is the Euclidean distance between points. */
  ghost predicate IsEuclidean(dist: (Point, Point) -> real) {
    forall p, q :: dist(p, q) >= 0.0 && dist(p, q) * dist(p, q) == SquaredDistance(p, q) as real
  }

  /** Two distinct landmarks are a positive distance apart. */
  lemma DistinctPointsApart(dist: (Point, Point) -> real, p: Point, q: Point)
    requires IsEuclidean(dist)
    requires p != q
    ensures dist(p, q) > 0.0
  {
    assert (p.x - q.x) * (p.x - q.x) > 0 || (p.y - q.y) * (p.y - q.y) > 0;
    assert dist(p, q) * dist(p, q) > 0.0;
  }

  /** Two vertical spans over twice the horizontal span. */
  function AspectRatio(vertical1: real, vertical2: real, horizontal: real): (r: real)
    requires vertical1 >= 0.0 && vertical2 >= 0.0 && horizontal > 0.0
    ensures r >= 0.0
    ensures r * (2.0 * horizontal) == vertical1 + vertical2
  {
    (vertical1 + vertical2) / (2.0 * horizontal)
  }

  /** The ratio is below a threshold exactly when the vertical spans are below threshold times twice the horizontal one. */
  lemma AspectRatioBelow(vertical1: real, vertical2: real, horizontal: real, threshold: real)
    requires vertical1 >= 0.0 && vertical2 >= 0.0 && horizontal > 0.0
    ensures AspectRatio(vertical1, vertical2, horizontal) < threshold
        <==> vertical1 + vertical2 < threshold * (2.0 * horizontal)
  {
    var r := AspectRatio(vertical1, vertical2, horizontal);
    var h2 := 2.0 * horizontal;
    if r < threshold {
      assert r * h2 < threshold * h2;
    } else {
      assert r * h2 >= threshold * h2;
    }
  }

  /**
    EAR of one eye: points ordered outer corner, two upper-lid points, inner
    corner, two lower-lid points; pairs (1, 5) and (2, 4) are vertical,
    (0, 3) is horizontal. The source does not guard a zero horizontal span,
    so the two corners must differ.
   */
  function EyeAspectRatio(eye: seq<Point>, dist: (Point, Point) -> real): (ear: real)
    requires |eye| == 6 && IsEuclidean(dist)
    requires eye[0] != eye[3]
    ensures ear >= 0.0
    ensures ear * (2.0 * dist(eye[0], eye[3])) == dist(eye[1], eye[5]) + dist(eye[2], eye[4])
  {
    DistinctPointsApart(dist, eye[0], eye[3]);
    AspectRatio(dist(eye[1], eye[5]), dist(eye[2], eye[4]), dist(eye[0], eye[3]))
  }

  /**
    MAR over the 20 mouth points 48..67: pairs (2, 10) and (4, 8), that is
    landmarks 50/58 and 52/56, are vertical, (0, 6), the mouth corners 48/54,
    is horizontal.
   */
  function MouthAspectRatio(mouth: seq<Point>, dist: (Point, Point) -> real): (mar: real)
    requires |mouth| == 20 && IsEuclidean(dist)
    requires mouth[0] != mouth[6]
    ensures mar >= 0.0
    ensures mar * (2.0 * dist(mouth[0], mouth[6])) == dist(mouth[2], mouth[10]) + dist(mouth[4], mouth[8])
  {
    DistinctPointsApart(dist, mouth[0], mouth[6]);
    AspectRatio(dist(mouth[2], mouth[10]), dist(mouth[4], mouth[8]), dist(mouth[0], mouth[6]))
  }

  /** The EAR the detector thresholds: the mean of both eyes. */
  function MeanEar(leftEar: real, rightEar: real): (ear: real)
    ensures leftEar <= rightEar ==> leftEar <= ear <= rightEar
    ensures rightEar <= leftEar ==> rightEar <= ear <= leftEar
  {
    (leftEar + rightEar) / 2.0
  }

  /** A mean below the threshold means at least one eye is below it; both below means the mean is. */
  lemma MeanEarBelow(leftEar: real, rightEar: real, threshold: real)
    ensures MeanEar(leftEar, rightEar) < threshold ==> leftEar < threshold || rightEar < threshold
    ensures leftEar < threshold && rightEar < threshold ==> MeanEar(leftEar, rightEar) < threshold
  {
  }

  function Shift(p: Point, dx: int, dy: int): Point {
    Point(p.x + dx, p.y + dy)
  }

  function ShiftAll(s: seq<Point>, dx: int, dy: int): (r: seq<Point>)
    ensures |r| == |s| && forall k :: 0 <= k < |s| ==> r[k] == Shift(s[k], dx, dy)
  {
    seq(|s|, k requires 0 <= k < |s| => Shift(s[k], dx, dy))
  }

  lemma SquareStrictlyIncreasing(x: real, y: real)
    requires 0.0 <= x < y
    ensures x * x < y * y
  {
    var xx, xy, yy := x * x, x * y, y * y;
    assert xx <= xy;
    assert xy < yy;
  }

  lemma NonNegativeRoot(a: real, b: real)
    requires a >= 0.0 && b >= 0.0 && a * a == b * b
    ensures a == b
  {
    if a < b {
      SquareStrictlyIncreasing(a, b);
    } else if b < a {
      SquareStrictlyIncreasing(b, a);
    }
  }

  /** The Euclidean distance does not change when both points are moved by the same offset. */
  lemma DistanceShift(dist: (Point, Point) -> real, p: Point, q: Point, dx: int, dy: int)
    requires IsEuclidean(dist)
    ensures dist(Shift(p, dx, dy), Shift(q, dx, dy)) == dist(p, q)
  {
    var p', q' := Shift(p, dx, dy), Shift(q, dx, dy);
    assert SquaredDistance(p', q') == SquaredDistance(p, q);
    NonNegativeRoot(dist(p', q'), dist(p, q));
  }

  /** An aspect ratio depends on the shape of the eye, not on where it is in the frame. */
  lemma {:induction false} EyeAspectRatioShift(eye: seq<Point>, dist: (Point, Point) -> real, dx: int, dy: int)
    requires |eye| == 6 && IsEuclidean(dist)
    requires eye[0] != eye[3]
    ensures ShiftAll(eye, dx, dy)[0] != ShiftAll(eye, dx, dy)[3]
    ensures EyeAspectRatio(ShiftAll(eye, dx, dy), dist) == EyeAspectRatio(eye, dist)
  {
    var moved := ShiftAll(eye, dx, dy);
    DistanceShift(dist, eye[1], eye[5], dx, dy);
    DistanceShift(dist, eye[2], eye[4], dx, dy);
    DistanceShift(dist, eye[0], eye[3], dx, dy);
  }

  lemma {:induction false} MouthAspectRatioShift(mouth: seq<Point>, dist: (Point, Point) -> real, dx: int, dy: int)
    requires |mouth| == 20 && IsEuclidean(dist)
    requires mouth[0] != mouth[6]
    ensures ShiftAll(mouth, dx, dy)[0] != ShiftAll(mouth, dx, dy)[6]
    ensures MouthAspectRatio(ShiftAll(mouth, dx, dy), dist) == MouthAspectRatio(mouth, dist)
  {
    DistanceShift(dist, mouth[2], mouth[10], dx, dy);
    DistanceShift(dist, mouth[4], mouth[8], dx, dy);
    DistanceShift(dist, mouth[0], mouth[6], dx, dy);
  }

}
