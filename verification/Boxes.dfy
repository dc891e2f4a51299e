/**
  The decoded detection box (`BoundingBox.kt`) and the two overlap measures
  the detector uses on it: intersection-over-union (`calculateIoU`) and the
  containment test (`isBox1InsideBox2`). Coordinates and areas are exact reals;
  Kotlin's `Float` rounding is not modelled.
 */
module Boxes {

  /** A detection in coordinates normalised to the detector's square input frame. */
  datatype BoundingBox = BoundingBox(
    x1: real, y1: real, x2: real, y2: real,
    cx: real, cy: real, w: real, h: real,
    conf: real, cls: int, clsName: string)

  /** Suppression threshold: a box whose IoU with a kept box reaches it is dropped. */
  const IouThreshold: real := 0.5
  /** Fraction of a digit's area that must lie inside a value marker. */
  const ContainmentThreshold: real := 0.75

  /** The corners are derived from the centre and the size, as the decoder derives them. */
  predicate CornersFromCentre(b: BoundingBox) {
    && b.x1 == b.cx - b.w / 2.0
    && b.y1 == b.cy - b.h / 2.0
    && b.x2 == b.cx + b.w / 2.0
    && b.y2 == b.cy + b.h / 2.0
  }

  predicate InUnitSquare(b: BoundingBox) {
    && 0.0 <= b.x1 <= 1.0 && 0.0 <= b.y1 <= 1.0
    && 0.0 <= b.x2 <= 1.0 && 0.0 <= b.y2 <= 1.0
  }

  /** A box whose corners match its size and whose size is not negative. */
  predicate WellShaped(b: BoundingBox) {
    CornersFromCentre(b) && b.w >= 0.0 && b.h >= 0.0
  }

  function Max(a: real, b: real): real { if a >= b then a else b }
  function Min(a: real, b: real): real { if a <= b then a else b }

  function Area(b: BoundingBox): real {
    b.w * b.h
  }

  /** Area of the intersection of two boxes, each axis clamped at zero. */
  function IntersectionArea(a: BoundingBox, b: BoundingBox): (r: real)
    ensures r >= 0.0
  {
    var ix := Max(0.0, Min(a.x2, b.x2) - Max(a.x1, b.x1));
    var iy := Max(0.0, Min(a.y2, b.y2) - Max(a.y1, b.y1));
    NonNegativeProduct(ix, iy);
    ix * iy
  }

  lemma NonNegativeProduct(a: real, b: real)
    requires a >= 0.0 && b >= 0.0
    ensures a * b >= 0.0
  {
  }

  lemma MonotoneProduct(a: real, b: real, c: real, d: real)
    requires 0.0 <= a <= c && 0.0 <= b <= d
    ensures a * b <= c * d
  {
    assert a * b <= c * b;
    assert c * b <= c * d;
  }

  lemma ScaleStrict(p: real, q: real, a: real)
    requires p < q && a > 0.0
    ensures p * a < q * a
  {
    assert (q - p) * a > 0.0;
  }

  lemma RatioAtMostOne(x: real, y: real)
    requires 0.0 <= x <= y && y > 0.0
    ensures x / y <= 1.0
  {
  }

  /** A well-shaped box's intersection with anything lies within its own area. */
  lemma IntersectionWithinArea(a: BoundingBox, b: BoundingBox)
    requires WellShaped(a)
    ensures IntersectionArea(a, b) <= Area(a)
  {
    var ix := Max(0.0, Min(a.x2, b.x2) - Max(a.x1, b.x1));
    var iy := Max(0.0, Min(a.y2, b.y2) - Max(a.y1, b.y1));
    assert a.x2 - a.x1 == a.w && a.y2 - a.y1 == a.h;
    MonotoneProduct(ix, iy, a.w, a.h);
  }

  lemma IntersectionSymmetric(a: BoundingBox, b: BoundingBox)
    ensures IntersectionArea(a, b) == IntersectionArea(b, a)
  {
  }

  /** Intersection over union. Where the union is not positive, Kotlin's float division
      gives NaN or a non-positive ratio, and neither reaches the suppression threshold;
      the model returns 0 there, which makes the same decision. */
  function IoU(a: BoundingBox, b: BoundingBox): (r: real)
    ensures r >= 0.0
    ensures r > 0.0 ==> IntersectionArea(a, b) > 0.0
    ensures WellShaped(a) && WellShaped(b) ==> r <= 1.0
  {
    var inter := IntersectionArea(a, b);
    var union := Area(a) + Area(b) - inter;
    if union > 0.0 then
      if WellShaped(a) && WellShaped(b) then
        IntersectionWithinArea(a, b);
        IntersectionWithinArea(b, a);
        IntersectionSymmetric(a, b);
        RatioAtMostOne(inter, union);
        inter / union
      else
        inter / union
    else 0.0
  }

  /** IoU does not depend on the order of its arguments. */
  lemma IoUSymmetric(a: BoundingBox, b: BoundingBox)
    ensures IoU(a, b) == IoU(b, a)
  {
    IntersectionSymmetric(a, b);
  }

  /** A well-shaped box of positive area has IoU 1 with itself, so an exact duplicate
      is always suppressed; a box of zero area never is. */
  lemma IoUSelf(a: BoundingBox)
    requires WellShaped(a)
    ensures Area(a) > 0.0 ==> IoU(a, a) == 1.0
    ensures Area(a) == 0.0 ==> IoU(a, a) == 0.0
  {
    assert a.x2 - a.x1 == a.w && a.y2 - a.y1 == a.h;
    assert IntersectionArea(a, a) == Area(a);
  }

  /** `kept` suppresses `other` (the test `iou >= IOU_THRESHOLD` of `applyNMS`). */
  predicate Suppresses(kept: BoundingBox, other: BoundingBox) {
    IoU(kept, other) >= IouThreshold
  }

  /** `isBox1InsideBox2(digit, marker)`: at least 75% of the digit's area lies inside the
      marker. A digit of zero area gives 0/0 = NaN in Kotlin, and is never inside. */
  predicate Inside(digit: BoundingBox, marker: BoundingBox)
  {
    Area(digit) > 0.0 && IntersectionArea(digit, marker) / Area(digit) >= ContainmentThreshold
  }

  /** The containment test stated without division. */
  lemma InsideIff(digit: BoundingBox, marker: BoundingBox)
    ensures Inside(digit, marker) <==>
              Area(digit) > 0.0 && 4.0 * IntersectionArea(digit, marker) >= 3.0 * Area(digit)
  {
    var a := Area(digit);
    if a > 0.0 {
      RatioAtLeastThreeQuarters(IntersectionArea(digit, marker), a);
    }
  }

  lemma RatioAtLeastThreeQuarters(i: real, a: real)
    requires a > 0.0
    ensures i / a >= 0.75 <==> 4.0 * i >= 3.0 * a
  {
    var ratio := i / a;
    assert ratio * a == i;
    if ratio >= 0.75 {
      MonotoneProduct(0.75, a, ratio, a);
    } else {
      ScaleStrict(ratio, 0.75, a);
    }
  }
}
