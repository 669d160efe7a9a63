/** Axis-aligned bounding boxes (`tool/aabb.rs`). */
module Aabbs {
  import opened Geometry

  datatype AABB = AABB(start: Vec3, end: Vec3)

  /** The result of `AABB::intersect`: `Intersects` carries the box the
      routine builds, documented as the box of the intersection. */
  datatype IntersectType = DoesNotIntersect | Intersects(box: AABB) | Contains

  /** The per-axis classification `AxisIntersectType`. */
  datatype AxisIntersectType = AxisDoesNotIntersect | AxisIntersects(lo: real, hi: real) | AxisContains

  const ONE_CUBIC_METER: AABB := AABB(ZERO, ONE)

  /** `size`: the extent `end - start`. */
  function Size(b: AABB): Vec3 {
    Sub(b.end, b.start)
  }

  /** The precondition the source asserts before using a box: no component
      of its size is negative. */
  predicate Valid(b: AABB) {
    NonNegative(Size(b))
  }

  /** `contains`: every component of the point lies within the box. */
  predicate Contains(b: AABB, p: Vec3) {
    forall i :: 0 <= i < 3 ==> Axis(b.start, i) <= Axis(p, i) <= Axis(b.end, i)
  }

  /** `contains` spelled out axis by axis. */
  lemma ContainsSpec(b: AABB, p: Vec3)
    ensures Contains(b, p) <==>
      (b.start.x <= p.x <= b.end.x && b.start.y <= p.y <= b.end.y && b.start.z <= p.z <= b.end.z)
  {
    if b.start.x <= p.x <= b.end.x && b.start.y <= p.y <= b.end.y && b.start.z <= p.z <= b.end.z {
      forall i | 0 <= i < 3
        ensures Axis(b.start, i) <= Axis(p, i) <= Axis(b.end, i)
      {
      }
    }
    if Contains(b, p) {
      assert Axis(b.start, 0) <= Axis(p, 0) <= Axis(b.end, 0);
      assert Axis(b.start, 1) <= Axis(p, 1) <= Axis(b.end, 1);
      assert Axis(b.start, 2) <= Axis(p, 2) <= Axis(b.end, 2);
    }
  }

  /** `expand`, which updates the box in place; here it returns the new box. */
  function Expand(b: AABB, v: Vec3): AABB {
    AABB(Min(b.start, v), Max(b.end, v))
  }

  /** After `expand(v)` the box contains `v` and every point it contained. */
  lemma ExpandSpec(b: AABB, v: Vec3, p: Vec3)
    ensures Contains(Expand(b, v), v)
    ensures Contains(b, p) ==> Contains(Expand(b, v), p)
  {
    ContainsSpec(Expand(b, v), v);
    ContainsSpec(b, p);
    ContainsSpec(Expand(b, v), p);
  }

  /** The expanded box is the smallest one holding both the old box's corners
      and `v`. */
  lemma ExpandIsSmallest(b: AABB, v: Vec3, c: AABB)
    requires Contains(c, b.start) && Contains(c, b.end) && Contains(c, v)
    ensures Contains(c, Expand(b, v).start) && Contains(c, Expand(b, v).end)
  {
    ContainsSpec(c, b.start);
    ContainsSpec(c, b.end);
    ContainsSpec(c, v);
    ContainsSpec(c, Expand(b, v).start);
    ContainsSpec(c, Expand(b, v).end);
  }

  /** `from_extents`: the box of the given extents centred on `pos`. */
  function FromExtents(pos: Vec3, extents: Vec3): AABB {
    var halfExtents := Div(extents, 2.0);
    AABB(Sub(pos, halfExtents), Add(pos, halfExtents))
  }

  lemma FromExtentsSpec(pos: Vec3, extents: Vec3)
    ensures Size(FromExtents(pos, extents)) == extents
    ensures Scale(Add(FromExtents(pos, extents).start, FromExtents(pos, extents).end), 0.5) == pos
    ensures Contains(FromExtents(pos, extents), pos) <==> NonNegative(extents)
  {
    ContainsSpec(FromExtents(pos, extents), pos);
  }

  /** `from_radius`: the cube reaching `radius` from `pos` along each axis. */
  function FromRadius(pos: Vec3, radius: real): AABB {
    AABB(Sub(pos, Splat(radius)), Add(pos, Splat(radius)))
  }

  lemma FromRadiusSpec(pos: Vec3, radius: real, p: Vec3)
    ensures Size(FromRadius(pos, radius)) == Splat(2.0 * radius)
    ensures Contains(FromRadius(pos, radius), p) <==>
      (-radius <= p.x - pos.x <= radius && -radius <= p.y - pos.y <= radius && -radius <= p.z - pos.z <= radius)
  {
    ContainsSpec(FromRadius(pos, radius), p);
  }

  /** `calculate_corners`: `start + end * offset` for each unit-cube corner. */
  function CalculateCorners(b: AABB): (corners: seq<Vec3>)
    requires Valid(b)
    ensures |corners| == 8
  {
    seq(8, i requires 0 <= i < 8 => Add(b.start, Mul(b.end, CUBE_CORNERS[i])))
  }

  /** The true corners of a box: `start + size * offset`. */
  function TrueCorner(b: AABB, i: nat): Vec3
    requires i < 8
  {
    Add(b.start, Mul(Size(b), CUBE_CORNERS[i]))
  }

  /** `calculate_corners` yields the box's corners exactly when the box starts
      at the origin; otherwise corner 7 is `start + end`, not `end`. */
  lemma CalculateCornersSpec(b: AABB)
    requires Valid(b)
    ensures CalculateCorners(b)[0] == b.start
    ensures (forall i :: 0 <= i < 8 ==> CalculateCorners(b)[i] == TrueCorner(b, i)) <==> b.start == ZERO
  {
    assert CUBE_CORNERS[0] == ZERO;
    CornerSeven(b);
    if b.start == ZERO {
      CornersAtOrigin(b);
    }
  }

  lemma CornersAtOrigin(b: AABB)
    requires Valid(b) && b.start == ZERO
    ensures forall i :: 0 <= i < 8 ==> CalculateCorners(b)[i] == TrueCorner(b, i)
  {
    assert Size(b) == b.end;
  }

  /** Corner 7 is `start + end` as computed and `end` as it should be. */
  lemma CornerSeven(b: AABB)
    requires Valid(b)
    ensures CalculateCorners(b)[7] == Add(b.start, b.end)
    ensures TrueCorner(b, 7) == b.end
  {
    assert CUBE_CORNERS[7] == ONE;
    assert Mul(b.end, ONE) == b.end;
    assert Mul(Size(b), ONE) == Size(b);
  }

  /** `intersect_axis`, classifying `range1` against `range2`. */
  function IntersectAxis(range1: (real, real), range2: (real, real)): AxisIntersectType {
    if range1.0 <= range2.0 then
      if range1.1 >= range2.1 then AxisContains else AxisIntersects(range2.0, range1.1)
    else if range1.0 < range2.1 then
      AxisIntersects(range1.0, MinR(range1.1, range2.1))
    else
      AxisDoesNotIntersect
  }

  /** What each outcome of `intersect_axis` means. An `Intersects` range is
      always (larger start, smaller end), but it is a genuine range only when
      `range1` does not end before `range2` starts: a `range1` lying wholly
      below `range2` comes back as an inverted range, not as disjoint. */
  lemma IntersectAxisSpec(range1: (real, real), range2: (real, real))
    requires range1.0 <= range1.1 && range2.0 <= range2.1
    ensures IntersectAxis(range1, range2) == AxisContains <==> range1.0 <= range2.0 && range2.1 <= range1.1
    ensures IntersectAxis(range1, range2) == AxisDoesNotIntersect <==> range2.0 < range1.0 && range2.1 <= range1.0
    ensures IntersectAxis(range1, range2).AxisIntersects? ==>
      IntersectAxis(range1, range2).lo == MaxR(range1.0, range2.0) &&
      IntersectAxis(range1, range2).hi == MinR(range1.1, range2.1) &&
      (IntersectAxis(range1, range2).lo <= IntersectAxis(range1, range2).hi <==> range2.0 <= range1.1)
  {
  }

  /** A range wholly below the other is classified as an inverted
      intersection. */
  lemma IntersectAxisBelow(range1: (real, real), range2: (real, real))
    requires range1.0 <= range1.1 < range2.0 <= range2.1
    ensures IntersectAxis(range1, range2) == AxisIntersects(range2.0, range1.1)
    ensures range2.0 > range1.1
  {
  }

  /** The three per-axis classifications of `self` against `other`. */
  function Axes(a: AABB, b: AABB): (axes: seq<AxisIntersectType>)
    ensures |axes| == 3
  {
    [ IntersectAxis((a.start.x, a.end.x), (b.start.x, b.end.x)),
      IntersectAxis((a.start.y, a.end.y), (b.start.y, b.end.y)),
      IntersectAxis((a.start.z, a.end.z), (b.start.z, b.end.z)) ]
  }

  /** The start and end the loop of `intersect` copies for one axis: a
      containing axis copies the other box's x range, whatever the axis. */
  function AxisStart(axis: AxisIntersectType, other: AABB): real {
    match axis
    case AxisContains => other.start.x
    case AxisIntersects(lo, _) => lo
    case AxisDoesNotIntersect => 0.0
  }

  function AxisEnd(axis: AxisIntersectType, other: AABB): real {
    match axis
    case AxisContains => other.end.x
    case AxisIntersects(_, hi) => hi
    case AxisDoesNotIntersect => 0.0
  }

  predicate AnyDisjoint(axes: seq<AxisIntersectType>) {
    exists i :: 0 <= i < |axes| && axes[i] == AxisDoesNotIntersect
  }

  predicate AllContain(axes: seq<AxisIntersectType>) {
    forall i :: 0 <= i < |axes| ==> axes[i] == AxisContains
  }

  /** The value `intersect` computes. */
  function Intersection(a: AABB, b: AABB): IntersectType
    requires Valid(a) && Valid(b)
  {
    var axes := Axes(a, b);
    if AnyDisjoint(axes) then DoesNotIntersect
    else if AllContain(axes) then IntersectType.Contains
    else Intersects(AABB(
      Vec3(AxisStart(axes[0], b), AxisStart(axes[1], b), AxisStart(axes[2], b)),
      Vec3(AxisEnd(axes[0], b), AxisEnd(axes[1], b), AxisEnd(axes[2], b))))
  }

  /** `intersect`: classify each axis, then fill the start and end arrays in a
      loop when the boxes neither miss nor contain one another. */
  method Intersect(a: AABB, b: AABB) returns (r: IntersectType)
    requires Valid(a) && Valid(b)
    ensures r == Intersection(a, b)
  {
    var axes := Axes(a, b);
    if exists i | 0 <= i < 3 :: axes[i] == AxisDoesNotIntersect {
      return DoesNotIntersect;
    } else if forall i | 0 <= i < 3 :: axes[i] == AxisContains {
      return IntersectType.Contains;
    }
    var startnums := new real[3](_ => 0.0);
    var endnums := new real[3](_ => 0.0);
    for i := 0 to 3
      invariant forall j :: 0 <= j < i ==> startnums[j] == AxisStart(axes[j], b)
      invariant forall j :: 0 <= j < i ==> endnums[j] == AxisEnd(axes[j], b)
    {
      match axes[i]
      case AxisContains =>
        startnums[i] := b.start.x;
        endnums[i] := b.end.x;
      case AxisIntersects(lo, hi) =>
        startnums[i] := lo;
        endnums[i] := hi;
      case AxisDoesNotIntersect =>
        assert false;
    }
    r := Intersects(AABB(
      Vec3(startnums[0], startnums[1], startnums[2]),
      Vec3(endnums[0], endnums[1], endnums[2])));
  }

  /** The boxes are classified disjoint exactly when, on some axis, `a` starts
      after `b` starts and no earlier than `b` ends. */
  lemma IntersectionDisjointIff(a: AABB, b: AABB)
    requires Valid(a) && Valid(b)
    ensures Intersection(a, b) == DoesNotIntersect <==>
      ((b.start.x < a.start.x && b.end.x <= a.start.x) ||
       (b.start.y < a.start.y && b.end.y <= a.start.y) ||
       (b.start.z < a.start.z && b.end.z <= a.start.z))
  {
    var axes := Axes(a, b);
    IntersectAxisSpec((a.start.x, a.end.x), (b.start.x, b.end.x));
    IntersectAxisSpec((a.start.y, a.end.y), (b.start.y, b.end.y));
    IntersectAxisSpec((a.start.z, a.end.z), (b.start.z, b.end.z));
    if (b.start.x < a.start.x && b.end.x <= a.start.x) {
      assert axes[0] == AxisDoesNotIntersect;
    } else if (b.start.y < a.start.y && b.end.y <= a.start.y) {
      assert axes[1] == AxisDoesNotIntersect;
    } else if (b.start.z < a.start.z && b.end.z <= a.start.z) {
      assert axes[2] == AxisDoesNotIntersect;
    }
  }

  /** The result is `Contains` exactly when `a` contains both corners of `b`. */
  lemma IntersectionContainsIff(a: AABB, b: AABB)
    requires Valid(a) && Valid(b)
    ensures Intersection(a, b) == IntersectType.Contains <==> Contains(a, b.start) && Contains(a, b.end)
  {
    var axes := Axes(a, b);
    IntersectAxisSpec((a.start.x, a.end.x), (b.start.x, b.end.x));
    IntersectAxisSpec((a.start.y, a.end.y), (b.start.y, b.end.y));
    IntersectAxisSpec((a.start.z, a.end.z), (b.start.z, b.end.z));
    ContainsSpec(a, b.start);
    ContainsSpec(a, b.end);
    if Contains(a, b.start) && Contains(a, b.end) {
      assert !AnyDisjoint(axes);
      assert AllContain(axes);
    }
    if Intersection(a, b) == IntersectType.Contains {
      assert !AnyDisjoint(axes);
      assert axes[0] == AxisContains && axes[1] == AxisContains && axes[2] == AxisContains;
    }
  }

  /** A valid box contains itself. */
  lemma IntersectionSelf(a: AABB)
    requires Valid(a)
    ensures Intersection(a, a) == IntersectType.Contains
  {
    IntersectionContainsIff(a, a);
    ContainsSpec(a, a.start);
    ContainsSpec(a, a.end);
  }

  /** The true overlap of two boxes. */
  function Overlap(a: AABB, b: AABB): AABB {
    AABB(Max(a.start, b.start), Min(a.end, b.end))
  }

  /** The box of an `Intersects` result is the true overlap exactly when every
      axis other than x on which `a` contains `b` has the same range as `b`'s x
      axis, because the loop copies `other.start.x` and `other.end.x` there. */
  lemma IntersectionBoxIff(a: AABB, b: AABB)
    requires Valid(a) && Valid(b) && Intersection(a, b).Intersects?
    ensures Intersection(a, b).box == Overlap(a, b) <==>
      ((Axes(a, b)[1] == AxisContains ==> b.start.y == b.start.x && b.end.y == b.end.x) &&
       (Axes(a, b)[2] == AxisContains ==> b.start.z == b.start.x && b.end.z == b.end.x))
  {
    var axes := Axes(a, b);
    IntersectAxisSpec((a.start.x, a.end.x), (b.start.x, b.end.x));
    IntersectAxisSpec((a.start.y, a.end.y), (b.start.y, b.end.y));
    IntersectAxisSpec((a.start.z, a.end.z), (b.start.z, b.end.z));
    assert axes[0] != AxisDoesNotIntersect && axes[1] != AxisDoesNotIntersect && axes[2] != AxisDoesNotIntersect;
  }

  /** Two boxes in which the result is not the overlap: `a` contains `b` on y
      and z, and the result takes its y and z ranges from `b`'s x range. */
  lemma IntersectionWrongAxisExample()
    ensures Valid(AABB(Splat(0.0), Splat(10.0))) && Valid(AABB(Vec3(5.0, 1.0, 1.0), Vec3(20.0, 2.0, 2.0)))
    ensures Intersection(AABB(Splat(0.0), Splat(10.0)), AABB(Vec3(5.0, 1.0, 1.0), Vec3(20.0, 2.0, 2.0)))
      == Intersects(AABB(Vec3(5.0, 5.0, 5.0), Vec3(10.0, 20.0, 20.0)))
    ensures Overlap(AABB(Splat(0.0), Splat(10.0)), AABB(Vec3(5.0, 1.0, 1.0), Vec3(20.0, 2.0, 2.0)))
      == AABB(Vec3(5.0, 1.0, 1.0), Vec3(10.0, 2.0, 2.0))
  {
    var a := AABB(Splat(0.0), Splat(10.0));
    var b := AABB(Vec3(5.0, 1.0, 1.0), Vec3(20.0, 2.0, 2.0));
    var axes := Axes(a, b);
    assert axes == [AxisIntersects(5.0, 10.0), AxisContains, AxisContains];
    assert !AllContain(axes) by {
      assert axes[0] != AxisContains;
    }
    forall i | 0 <= i < 3
      ensures axes[i] != AxisDoesNotIntersect
    {
    }
  }

  /** Two disjoint boxes in which the first lies below the second: they are
      not classified as disjoint, and the box returned is inverted. */
  lemma IntersectionBelowExample()
    ensures Valid(AABB(Splat(0.0), Splat(1.0))) && Valid(AABB(Splat(2.0), Splat(3.0)))
    ensures Intersection(AABB(Splat(0.0), Splat(1.0)), AABB(Splat(2.0), Splat(3.0)))
      == Intersects(AABB(Splat(2.0), Splat(1.0)))
    ensures forall p :: !(Contains(AABB(Splat(0.0), Splat(1.0)), p) && Contains(AABB(Splat(2.0), Splat(3.0)), p))
  {
    var a := AABB(Splat(0.0), Splat(1.0));
    var b := AABB(Splat(2.0), Splat(3.0));
    var axes := Axes(a, b);
    assert axes == [AxisIntersects(2.0, 1.0), AxisIntersects(2.0, 1.0), AxisIntersects(2.0, 1.0)];
    assert !AllContain(axes) by {
      assert axes[0] != AxisContains;
    }
    forall i | 0 <= i < 3
      ensures axes[i] != AxisDoesNotIntersect
    {
    }
    forall p
      ensures !(Contains(a, p) && Contains(b, p))
    {
      ContainsSpec(a, p);
      ContainsSpec(b, p);
    }
  }

  /** The eight octants `octree_subdivide` produces, in Z-order. */
  function Octants(b: AABB): (cells: seq<AABB>)
    ensures |cells| == 8
  {
    var halfSize := Div(Size(b), 2.0);
    seq(8, i requires 0 <= i < 8 =>
      AABB(Add(b.start, Mul(halfSize, CUBE_CORNERS[i])), Add(Add(b.start, Mul(halfSize, CUBE_CORNERS[i])), halfSize)))
  }

  /** `octree_subdivide`: push one box per unit-cube corner, then check that
      all of them have the same size. */
  method OctreeSubdivide(b: AABB) returns (cells: seq<AABB>)
    ensures cells == Octants(b)
  {
    var halfSize := Div(Size(b), 2.0);
    cells := [];
    for i := 0 to 8
      invariant cells == Octants(b)[..i]
    {
      var start := Add(b.start, Mul(halfSize, CUBE_CORNERS[i]));
      var end := Add(start, halfSize);
      cells := cells + [AABB(start, end)];
    }
    assert forall i :: 0 < i < |cells| ==> Size(cells[i - 1]) == Size(cells[i]);
  }

  /** Every octant has half the parent's size; the first starts where the
      parent starts, the last ends where it ends, and every octant of a valid
      box is a valid box inside it. */
  lemma OctantsSpec(b: AABB)
    ensures forall i :: 0 <= i < 8 ==> Size(Octants(b)[i]) == Div(Size(b), 2.0)
    ensures Octants(b)[0].start == b.start && Octants(b)[7].end == b.end
    ensures Valid(b) ==> forall i :: 0 <= i < 8 ==>
      Valid(Octants(b)[i]) && Contains(b, Octants(b)[i].start) && Contains(b, Octants(b)[i].end)
  {
    assert CUBE_CORNERS[0] == ZERO && CUBE_CORNERS[7] == ONE;
    forall i | 0 <= i < 8
      ensures Size(Octants(b)[i]) == Div(Size(b), 2.0)
      ensures Valid(b) ==> Valid(Octants(b)[i]) && Contains(b, Octants(b)[i].start) && Contains(b, Octants(b)[i].end)
    {
      OctantInside(b, i);
    }
  }

  lemma OctantInside(b: AABB, i: nat)
    requires i < 8
    ensures Size(Octants(b)[i]) == Div(Size(b), 2.0)
    ensures Valid(b) ==> Valid(Octants(b)[i]) && Contains(b, Octants(b)[i].start) && Contains(b, Octants(b)[i].end)
  {
    var half := Div(Size(b), 2.0);
    var c := CUBE_CORNERS[i];
    var start := Add(b.start, Mul(half, c));
    var end := Add(start, half);
    assert Octants(b)[i] == AABB(start, end);
    if Valid(b) {
      assert c == Vec3(CornerBit(i, 0), CornerBit(i, 1), CornerBit(i, 2)) by {
        CubeCornersZOrder();
      }
      OctantBox(b, c, start, end);
    }
  }

  /** The octant at unit-cube corner `c` of a valid box is a valid box
      inside it. */
  lemma OctantBox(b: AABB, c: Vec3, start: Vec3, end: Vec3)
    requires Valid(b)
    requires (c.x == 0.0 || c.x == 1.0) && (c.y == 0.0 || c.y == 1.0) && (c.z == 0.0 || c.z == 1.0)
    requires start == Add(b.start, Mul(Div(Size(b), 2.0), c)) && end == Add(start, Div(Size(b), 2.0))
    ensures Valid(AABB(start, end)) && Contains(b, start) && Contains(b, end)
  {
    OctantAxis(b.start.x, b.end.x, c.x, start.x, end.x);
    OctantAxis(b.start.y, b.end.y, c.y, start.y, end.y);
    OctantAxis(b.start.z, b.end.z, c.z, start.z, end.z);
    ContainsSpec(b, start);
    ContainsSpec(b, end);
  }

  /** One axis of an octant: it starts at `lo` or at the midpoint, and ends
      half the range later, within `[lo, hi]`. */
  lemma OctantAxis(lo: real, hi: real, t: real, s: real, e: real)
    requires lo <= hi && (t == 0.0 || t == 1.0)
    requires s == lo + ((hi - lo) / 2.0) * t && e == s + (hi - lo) / 2.0
    ensures lo <= s <= e <= hi
  {
    if t == 0.0 {
      assert ((hi - lo) / 2.0) * t == 0.0;
    } else {
      assert ((hi - lo) / 2.0) * t == (hi - lo) / 2.0;
    }
  }

  /** The octant number of a point: bit `k` is set when the point lies in the
      upper half of axis `k`. */
  function OctantOf(b: AABB, p: Vec3): (i: nat)
    ensures i < 8
  {
    var mid := Add(b.start, Div(Size(b), 2.0));
    (if p.x >= mid.x then 1 else 0) + (if p.y >= mid.y then 2 else 0) + (if p.z >= mid.z then 4 else 0)
  }

  /** The octants cover the box: every point of it lies in the octant
      `OctantOf` names. */
  lemma OctantsCover(b: AABB, p: Vec3)
    requires Contains(b, p)
    ensures Contains(Octants(b)[OctantOf(b, p)], p)
  {
    ContainsSpec(b, p);
    ContainsSpec(Octants(b)[OctantOf(b, p)], p);
  }
}
