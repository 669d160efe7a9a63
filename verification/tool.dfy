/** The `Tool` trait (`tool/mod.rs`) and the four-valued box classification
    the sculpting code matches on. */
module Tools {
  import opened Geometry
  import opened Actions
  import Aabbs

  /** A sculpting tool: its density at a grid corner for a cube of the given
      edge length, its tool and area-of-effect boxes, and its concavity. */
  datatype Tool = Tool(
    value: (Vec3, real) -> real,
    toolAabb: Aabbs.AABB,
    aoeAabb: Aabbs.AABB,
    isConcave: bool)

  /** `is_convex`, the trait's default method: not concave. */
  predicate IsConvex(tool: Tool) {
    !tool.isConcave
  }

  /** How the sculpting code classifies one box against another. It matches
      on a `ContainedBy` case that the `IntersectType` of `tool/aabb.rs` does
      not have, so the classification is a parameter of the sculpting
      operations rather than `Aabbs.Intersect`. */
  datatype Relation = DoesNotIntersect | Intersects(box: Aabbs.AABB) | Contains | ContainedBy

  /** The corner densities after one stroke: the action combines each old
      value with the tool's value at the matching corner, for a cube whose
      edge is `scale` long. Place only raises densities and Remove only
      lowers them. */
  function ApplyAtCorners(values: seq<real>, tool: Tool, action: Action, corners: seq<Vec3>, scale: real): (r: seq<real>)
    requires |values| == 8 && |corners| == 8
    ensures |r| == 8
    ensures action == Place ==> forall i :: 0 <= i < 8 ==> r[i] >= values[i] && r[i] >= tool.value(corners[i], scale)
    ensures action == Remove ==> forall i :: 0 <= i < 8 ==> r[i] <= values[i] && r[i] <= -tool.value(corners[i], scale)
  {
    var r := seq(8, i requires 0 <= i < 8 => ApplyValue(action, values[i], tool.value(corners[i], scale)));
    assert forall i :: 0 <= i < 8 ==> r[i] == ApplyValue(action, values[i], tool.value(corners[i], scale));
    r
  }

  /** The box the subdivision test classifies: the area of effect when
      removing, the tool box when placing. */
  function CheckBox(action: Action, toolBox: Aabbs.AABB, aoeBox: Aabbs.AABB): Aabbs.AABB {
    if action == Remove then aoeBox else toolBox
  }
}
