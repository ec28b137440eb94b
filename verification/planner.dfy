/**
  The single-obstacle path planner: whether the straight walk to a clicked
  ground point is blocked by the item's bounding box, and which of two
  side points the player detours through when it is.

  The ray-box intersection itself is the geometry library's; the planner
  receives its outcome as the distance `t` from the start to the hit point,
  or `None` when the ray misses the box.
 */
module Planner {
  import opened Wrappers
  import opened Geometry

  /** Hits closer than this to either end of the segment are ignored. */
  const Clearance: real := 0.2
  /** The detour point lies `width * DetourScale + DetourMargin` from the box centre. */
  const DetourScale: real := 0.7
  const DetourMargin: real := 0.3

  /**
    The walk of length `dist` is blocked when the ray hits the box at a
    distance `t` that keeps the clearance from both ends.
   */
  function PathIntersectsBox(hit: Option<real>, dist: real): (blocked: bool)
    ensures blocked <==> hit.Some? && Clearance < hit.value && hit.value + Clearance < dist
    ensures blocked ==> 0.0 < hit.value < dist
    ensures hit.None? ==> !blocked
    ensures dist <= 2.0 * Clearance ==> !blocked
  {
    match hit
    case None => false
    case Some(t) => t > Clearance && t < dist - Clearance
  }

  /** The library's perpendicular in the ground plane, before normalising. */
  function PerpRaw(ab: Vec3): Vec3 {
    Vec3(-ab.z, 0.0, ab.x)
  }

  /**
    The lengths the library reports for the walk `b - a` and for the raw
    perpendicular of its direction.
   */
  predicate DetourFits(a: Vec3, b: Vec3, segLen: real, perpLen: real) {
    && IsLength(Sub(b, a), segLen)
    && IsLength(PerpRaw(Normalize(Sub(b, a), segLen)), perpLen)
  }

  /** Unit vector across the walk, in the ground plane. */
  function Across(a: Vec3, b: Vec3, segLen: real, perpLen: real): (perp: Vec3)
    requires DetourFits(a, b, segLen, perpLen)
    ensures perp.y == 0.0
  {
    Normalize(PerpRaw(Normalize(Sub(b, a), segLen)), perpLen)
  }

  /** The perpendicular is orthogonal to the walk and, unless degenerate, of length 1. */
  lemma AcrossFacts(a: Vec3, b: Vec3, segLen: real, perpLen: real)
    requires DetourFits(a, b, segLen, perpLen)
    ensures FlatDot(Across(a, b, segLen, perpLen), Sub(b, a)) == 0.0
    ensures perpLen > 0.0 ==> NormSq(Across(a, b, segLen, perpLen)) == 1.0
  {
    var w := Sub(b, a);
    PerpDotZero(w, NormalizeFactor(segLen), NormalizeFactor(perpLen));
    NormalizeLength(PerpRaw(Normalize(w, segLen)), perpLen);
  }

  lemma PerpDotZero(w: Vec3, f1: real, f2: real)
    ensures FlatDot(Scale(PerpRaw(Scale(w, f1)), f2), w) == 0.0
  {
    var p := Scale(PerpRaw(Scale(w, f1)), f2);
    assert p.x * w.x == -(w.z * w.x * f1 * f2);
    assert p.z * w.z == w.x * w.z * f1 * f2;
  }

  function DetourOffset(width: real): real {
    width * DetourScale + DetourMargin
  }

  /** The two side points, before they are lowered to the ground. */
  function LeftCandidate(a: Vec3, b: Vec3, center: Vec3, width: real, segLen: real, perpLen: real): Vec3
    requires DetourFits(a, b, segLen, perpLen)
  {
    Add(center, Scale(Across(a, b, segLen, perpLen), DetourOffset(width)))
  }

  function RightCandidate(a: Vec3, b: Vec3, center: Vec3, width: real, segLen: real, perpLen: real): Vec3
    requires DetourFits(a, b, segLen, perpLen)
  {
    Add(center, Scale(Across(a, b, segLen, perpLen), -DetourOffset(width)))
  }

  /** A point `center + perp * c` lowered to the ground lies across the walk, `|c|` from the centre. */
  lemma OffsetAcross(center: Vec3, perp: Vec3, w: Vec3, c: real)
    requires perp.y == 0.0 && FlatDot(perp, w) == 0.0
    ensures FlatDot(Sub(WithY(Add(center, Scale(perp, c)), 0.0), center), w) == 0.0
    ensures FlatDistSq(WithY(Add(center, Scale(perp, c)), 0.0), center) == c * c * NormSq(perp)
  {
    var d := WithY(Add(center, Scale(perp, c)), 0.0);
    assert d.x - center.x == perp.x * c;
    assert d.z - center.z == perp.z * c;
    assert FlatDot(Sub(d, center), w) == c * FlatDot(perp, w);
    ScaleNormSq(perp, c);
  }

  /**
    The detour point: the left candidate if it is strictly closer to the
    destination `b`, otherwise the right one, lowered to the ground.
   */
  function GetDetourPoint(a: Vec3, b: Vec3, center: Vec3, width: real, segLen: real, perpLen: real): (d: Vec3)
    requires DetourFits(a, b, segLen, perpLen)
    ensures d.y == 0.0
    ensures var l := LeftCandidate(a, b, center, width, segLen, perpLen);
            var r := RightCandidate(a, b, center, width, segLen, perpLen);
            || (d == WithY(l, 0.0) && DistSq(l, b) < DistSq(r, b))
            || (d == WithY(r, 0.0) && DistSq(r, b) <= DistSq(l, b))
  {
    var l := LeftCandidate(a, b, center, width, segLen, perpLen);
    var r := RightCandidate(a, b, center, width, segLen, perpLen);
    if DistSq(l, b) < DistSq(r, b) then WithY(l, 0.0) else WithY(r, 0.0)
  }

  /**
    The choice in terms of the distances the library measures: with `dl`
    and `dr` the lengths from the left and right candidates to `b`, the
    left point is taken exactly when `dl < dr`, so a tie goes right.
   */
  lemma DetourPicksCloser(a: Vec3, b: Vec3, center: Vec3, width: real, segLen: real, perpLen: real,
                          dl: real, dr: real)
    requires DetourFits(a, b, segLen, perpLen)
    requires IsLength(Sub(LeftCandidate(a, b, center, width, segLen, perpLen), b), dl)
    requires IsLength(Sub(RightCandidate(a, b, center, width, segLen, perpLen), b), dr)
    ensures GetDetourPoint(a, b, center, width, segLen, perpLen)
            == WithY(if dl < dr then LeftCandidate(a, b, center, width, segLen, perpLen)
                     else RightCandidate(a, b, center, width, segLen, perpLen), 0.0)
  {
    SquareLess(dl, dr);
  }

  /**
    The detour point lies across the walk from the box centre (its offset
    from the centre is perpendicular to `b - a` in the ground plane), and,
    whenever the walk has a horizontal direction, exactly `DetourOffset`
    from the centre.
   */
  lemma DetourGeometry(a: Vec3, b: Vec3, center: Vec3, width: real, segLen: real, perpLen: real)
    requires DetourFits(a, b, segLen, perpLen)
    ensures var d := GetDetourPoint(a, b, center, width, segLen, perpLen);
            && FlatDot(Sub(d, center), Sub(b, a)) == 0.0
            && (perpLen > 0.0 ==> FlatDistSq(d, center) == DetourOffset(width) * DetourOffset(width))
  {
    var d := GetDetourPoint(a, b, center, width, segLen, perpLen);
    var perp := Across(a, b, segLen, perpLen);
    var off := DetourOffset(width);
    AcrossFacts(a, b, segLen, perpLen);
    if d == WithY(LeftCandidate(a, b, center, width, segLen, perpLen), 0.0) {
      OffsetAcross(center, perp, Sub(b, a), off);
    } else {
      OffsetAcross(center, perp, Sub(b, a), -off);
      assert (-off) * (-off) == off * off;
    }
  }
}
