/** `NaiveOctreeCell` and `NaiveOctree` (`naive_octree.rs`): an octree of
    boxed cells, each holding the densities at its 8 corners. */
module NaiveOctrees {
  import opened Geometry
  import opened Aabbs
  import opened Actions
  import Tools
  import opened Subdivision
  import opened Surfaces

  /** A cell: 8 corner densities in Z-order, optionally 8 children, and its
      depth below the root. */
  datatype Cell = Cell(values: seq<real>, children: Children, depth: nat)

  /** `Option<Box<[NaiveOctreeCell; 8]>>`, declared alongside `Cell` so that
      Dafny sees a child as smaller than its parent. */
  datatype Children = None | Some(value: seq<Cell>)

  /** Every cell has 8 values, and every cell with children has 8 of them,
      one level deeper. */
  predicate WellFormed(c: Cell)
    decreases c
  {
    |c.values| == 8 &&
    (c.children.Some? ==>
      |c.children.value| == 8 &&
      forall i :: 0 <= i < 8 ==> c.children.value[i].depth == c.depth + 1 && WellFormed(c.children.value[i]))
  }

  predicate IsLeaf(c: Cell) {
    c.children.None?
  }

  /** `has_children`. */
  predicate HasChildren(c: Cell) {
    c.children.Some?
  }

  /** `intersects_surface`. */
  predicate IntersectsSurface(c: Cell) {
    SignumChange(c.values)
  }

  /** `NaiveOctreeCell::default`: a leaf at the root with every density -1
      (empty space). */
  function Default(): (c: Cell)
    ensures WellFormed(c) && IsLeaf(c) && c.depth == 0
    ensures forall i :: 0 <= i < 8 ==> c.values[i] == -1.0
    ensures !IntersectsSurface(c)
  {
    Cell([-1.0, -1.0, -1.0, -1.0, -1.0, -1.0, -1.0, -1.0], None, 0)
  }

  /** `subdivide_cell`: a cell that already has children is left alone; a
      leaf gets 8 leaf children one level deeper whose values are
      `subdivide_values` of its own, which it keeps. */
  function SubdivideCell(c: Cell): (r: Cell)
    requires |c.values| == 8
    ensures r.values == c.values && r.depth == c.depth && HasChildren(r)
    ensures HasChildren(c) ==> r == c
    ensures IsLeaf(c) ==> |r.children.value| == 8
    ensures IsLeaf(c) ==> forall i :: 0 <= i < 8 ==> r.children.value[i] == Cell(SubdivideValues(c.values)[i], None, c.depth + 1)
  {
    if c.children.Some? then c
    else
      var points := SubdivideValues(c.values);
      Cell(c.values, Some(seq(8, i requires 0 <= i < 8 => Cell(points[i], None, c.depth + 1))), c.depth)
  }

  /** Subdividing keeps a cell well-formed; child `i` starts from the
      parent's corner `i`, and all children meet at the interpolated
      centre. */
  lemma SubdivideCellSpec(c: Cell)
    requires WellFormed(c) && IsLeaf(c)
    ensures WellFormed(SubdivideCell(c))
    ensures forall i :: 0 <= i < 8 ==> SubdivideCell(c).children.value[i].values[i] == c.values[i]
    ensures forall i :: 0 <= i < 8 ==> SubdivideCell(c).children.value[i].values[7 - i] == Grid(c.values)[13]
  {
    forall i | 0 <= i < 8
      ensures SubdivideCell(c).children.value[i].values[i] == c.values[i]
      ensures SubdivideCell(c).children.value[i].values[7 - i] == Grid(c.values)[13]
    {
      ChildCorners(c.values, i);
    }
  }

  /** `collapse_cell`: drop the children, keep the values. */
  function CollapseCell(c: Cell): (r: Cell)
    ensures IsLeaf(r) && r.values == c.values && r.depth == c.depth
    ensures WellFormed(c) ==> WellFormed(r)
  {
    c.(children := None)
  }

  /** The corner densities after applying `tool` with `action` to a cell with
      box `box`: the cube scale is the box's x size (`cell_aabb.size.x`). */
  function NewValues(values: seq<real>, tool: Tools.Tool, action: Action, box: AABB): (r: seq<real>)
    requires |values| == 8 && Valid(box)
    ensures |r| == 8
  {
    Tools.ApplyAtCorners(values, tool, action, CalculateCorners(box), Size(box).x)
  }

  /** The subdivision test of `apply_tool`: a leaf shallower than
      `maxDepth`, and either a convex tool whose new values change sign or
      whose check box is contained by the cell, or a concave tool whose area
      of effect meets the cell. */
  predicate SubdivideGuard(c: Cell, newvals: seq<real>, tool: Tools.Tool, action: Action, box: AABB,
                           maxDepth: nat, classify: (AABB, AABB) -> Tools.Relation)
  {
    IsLeaf(c) && c.depth < maxDepth &&
    ((Tools.IsConvex(tool) && (SignumChange(newvals) || classify(Tools.CheckBox(action, tool.toolAabb, tool.aoeAabb), box) == Tools.ContainedBy)) ||
     (tool.isConcave && classify(tool.aoeAabb, box) != Tools.DoesNotIntersect))
  }

  /** The collapse test: all 8 children are leaves without a sign change. */
  predicate Collapsible(kids: seq<Cell>)
    requires |kids| == 8
  {
    forall i :: 0 <= i < 8 ==> IsLeaf(kids[i]) && !IntersectsSurface(kids[i])
  }

  /** The children a cell has when `apply_tool` recurses: its own, or those
      of its subdivision. */
  function ChildrenBefore(c: Cell): (kids: seq<Cell>)
    requires WellFormed(c)
    ensures |kids| == 8
    ensures forall i :: 0 <= i < 8 ==> WellFormed(kids[i]) && kids[i].depth == c.depth + 1
    ensures HasChildren(c) ==> kids == c.children.value
  {
    SubdivideCellSpec2(c);
    SubdivideCell(c).children.value
  }

  lemma SubdivideCellSpec2(c: Cell)
    requires WellFormed(c)
    ensures WellFormed(SubdivideCell(c))
  {
    if IsLeaf(c) {
      SubdivideCellSpec(c);
    }
  }

  /** `NaiveOctreeCell::apply_tool` on a cell with box `box`. The new values
      are computed first; a leaf passing the subdivision test is subdivided
      from its old values; the cell takes the new values; the tool is applied
      to each child with its octant box; and the children are dropped again
      if all are leaves without a sign change. */
  function ApplyToolCell(c: Cell, tool: Tools.Tool, action: Action, box: AABB, maxDepth: nat,
                         classify: (AABB, AABB) -> Tools.Relation): (r: Cell)
    requires WellFormed(c) && Valid(box)
    ensures WellFormed(r) && r.depth == c.depth
    ensures r.values == NewValues(c.values, tool, action, box)
    decreases if c.depth < maxDepth then maxDepth - c.depth else 0, c
  {
    var newvals := NewValues(c.values, tool, action, box);
    if IsLeaf(c) && !SubdivideGuard(c, newvals, tool, action, box, maxDepth, classify) then
      Cell(newvals, None, c.depth)
    else
      var kids := ChildrenBefore(c);
      OctantsValid(box);
      var boxes := Octants(box);
      var updated := seq(8, i requires 0 <= i < 8 => ApplyToolCell(kids[i], tool, action, boxes[i], maxDepth, classify));
      if Collapsible(updated) then Cell(newvals, None, c.depth)
      else Cell(newvals, Some(updated), c.depth)
  }

  /** After `apply_tool` a cell keeps children only if it had them or passed
      the subdivision test, and only if they are not all leaves without a
      sign change; each child holds the tool applied to the values it had
      before, which for new children are the interpolated old values of the
      parent. */
  lemma ApplyToolCellChildren(c: Cell, tool: Tools.Tool, action: Action, box: AABB, maxDepth: nat,
                              classify: (AABB, AABB) -> Tools.Relation)
    requires WellFormed(c) && Valid(box)
    ensures var r := ApplyToolCell(c, tool, action, box, maxDepth, classify);
      HasChildren(r) ==>
        (HasChildren(c) || SubdivideGuard(c, r.values, tool, action, box, maxDepth, classify)) &&
        !Collapsible(r.children.value) &&
        forall i :: 0 <= i < 8 ==>
          r.children.value[i].values == NewValues(ChildrenBefore(c)[i].values, tool, action, Octants(box)[i])
  {
    var r := ApplyToolCell(c, tool, action, box, maxDepth, classify);
    if HasChildren(r) {
      var kids := ChildrenBefore(c);
      OctantsValid(box);
      var boxes := Octants(box);
      forall i | 0 <= i < 8
        ensures r.children.value[i].values == NewValues(kids[i].values, tool, action, boxes[i])
      {
        assert r.children.value[i] == ApplyToolCell(kids[i], tool, action, boxes[i], maxDepth, classify);
      }
    }
  }

  /** No cell of the tree is deeper than `bound`. */
  predicate Bounded(c: Cell, bound: nat)
    decreases c
  {
    c.depth <= bound &&
    (c.children.Some? ==> forall i :: 0 <= i < |c.children.value| ==> Bounded(c.children.value[i], bound))
  }

  /** `apply_tool` only subdivides leaves shallower than `maxDepth`, so a
      tree no deeper than `maxDepth` stays that way. */
  lemma {:induction false} ApplyToolKeepsBound(c: Cell, tool: Tools.Tool, action: Action, box: AABB, maxDepth: nat,
                                               classify: (AABB, AABB) -> Tools.Relation)
    requires WellFormed(c) && Valid(box) && Bounded(c, maxDepth)
    ensures Bounded(ApplyToolCell(c, tool, action, box, maxDepth, classify), maxDepth)
    decreases if c.depth < maxDepth then maxDepth - c.depth else 0, c
  {
    var r := ApplyToolCell(c, tool, action, box, maxDepth, classify);
    if HasChildren(r) {
      var kids := ChildrenBefore(c);
      OctantsSpec(box);
      var boxes := Octants(box);
      forall i | 0 <= i < 8
        ensures Bounded(r.children.value[i], maxDepth)
      {
        assert r.children.value[i] == ApplyToolCell(kids[i], tool, action, boxes[i], maxDepth, classify);
        if HasChildren(c) {
          assert Bounded(kids[i], maxDepth);
        } else {
          ApplyToolCellChildren(c, tool, action, box, maxDepth, classify);
        }
        ApplyToolKeepsBound(kids[i], tool, action, boxes[i], maxDepth, classify);
      }
    }
  }

  /** A leaf at or below `maxDepth` is never subdivided: it stays a leaf and
      only takes the new values. */
  lemma ApplyToolLeafAtMaxDepth(c: Cell, tool: Tools.Tool, action: Action, box: AABB, maxDepth: nat,
                                classify: (AABB, AABB) -> Tools.Relation)
    requires WellFormed(c) && Valid(box) && IsLeaf(c) && c.depth >= maxDepth
    ensures ApplyToolCell(c, tool, action, box, maxDepth, classify) == Cell(NewValues(c.values, tool, action, box), None, c.depth)
  {
  }

  /** The cells `generate_mesh` marches, with their boxes, in the order it
      visits them: a cell shallower than `maxDepth` that has children
      contributes its children's cells in index order, with their octant
      boxes; any other cell is marched itself. */
  function MarchedCells(c: Cell, maxDepth: nat, box: AABB): (cells: seq<(Cell, AABB)>)
    requires WellFormed(c) && Valid(box)
    ensures forall p :: p in cells ==> (IsLeaf(p.0) || p.0.depth >= maxDepth) && WellFormed(p.0) && Valid(p.1) && p.0.depth >= c.depth
    ensures (c, box) in cells <==> IsLeaf(c) || c.depth >= maxDepth
    decreases c, 1, 0
  {
    if c.depth < maxDepth && HasChildren(c) then ChildCells(c, maxDepth, box, 8) else [(c, box)]
  }

  /** The cells marched for the first `n` children of `c`, each with its
      octant of `box`. */
  function ChildCells(c: Cell, maxDepth: nat, box: AABB, n: nat): (cells: seq<(Cell, AABB)>)
    requires WellFormed(c) && Valid(box) && HasChildren(c) && n <= 8
    ensures forall p :: p in cells ==> (IsLeaf(p.0) || p.0.depth >= maxDepth) && WellFormed(p.0) && Valid(p.1) && p.0.depth > c.depth
    decreases c, 0, n
  {
    if n == 0 then []
    else
      OctantsValid(box);
      var kid := c.children.value[n - 1];
      ChildCells(c, maxDepth, box, n - 1) + MarchedCells(kid, maxDepth, Octants(box)[n - 1])
  }

  /** The vertices marching cubes emits for the given cells, in order;
      `march` stands for `march_cube`. */
  function MarchAll(cells: seq<(Cell, AABB)>, march: (seq<Vec3>, seq<real>) -> seq<Vec3>): seq<Vec3>
    requires forall p :: p in cells ==> Valid(p.1)
  {
    if cells == [] then []
    else march(CalculateCorners(cells[0].1), cells[0].0.values) + MarchAll(cells[1..], march)
  }

  lemma {:induction false} MarchAllAppend(a: seq<(Cell, AABB)>, b: seq<(Cell, AABB)>, march: (seq<Vec3>, seq<real>) -> seq<Vec3>)
    requires forall p :: p in a ==> Valid(p.1)
    requires forall p :: p in b ==> Valid(p.1)
    ensures MarchAll(a + b, march) == MarchAll(a, march) + MarchAll(b, march)
  {
    if a == [] {
      assert a + b == b;
    } else {
      assert (a + b)[1..] == a[1..] + b;
      MarchAllAppend(a[1..], b, march);
    }
  }

  /** `NaiveOctreeCell::generate_mesh`: append to `vertices` the output of
      `march` for every cell `MarchedCells` selects, in order. */
  method GenerateMeshCell(c: Cell, vertices: seq<Vec3>, maxDepth: nat, box: AABB,
                          march: (seq<Vec3>, seq<real>) -> seq<Vec3>) returns (out: seq<Vec3>)
    requires WellFormed(c) && Valid(box)
    ensures out == vertices + MarchAll(MarchedCells(c, maxDepth, box), march)
    decreases c, 1
  {
    if c.depth < maxDepth && HasChildren(c) {
      out := GenerateMeshChildren(c, vertices, maxDepth, box, march);
    } else {
      var corners := CalculateCorners(box);
      out := vertices + march(corners, c.values);
      MarchAllSingle(c, box, march);
    }
  }

  /** The recursion of `generate_mesh` over the children, with the boxes of
      `octree_subdivide`, in index order. */
  method GenerateMeshChildren(c: Cell, vertices: seq<Vec3>, maxDepth: nat, box: AABB,
                              march: (seq<Vec3>, seq<real>) -> seq<Vec3>) returns (out: seq<Vec3>)
    requires WellFormed(c) && Valid(box) && HasChildren(c)
    ensures out == vertices + MarchAll(ChildCells(c, maxDepth, box, 8), march)
    decreases c, 0
  {
    var kids := c.children.value;
    var boxes := OctreeSubdivide(box);
    OctantsValid(box);
    out := vertices;
    for i := 0 to 8
      invariant out == vertices + MarchAll(ChildCells(c, maxDepth, box, i), march)
    {
      ChildCellsStep(c, maxDepth, box, i);
      var before := MarchAll(ChildCells(c, maxDepth, box, i), march);
      var mine := MarchAll(MarchedCells(kids[i], maxDepth, boxes[i]), march);
      MarchAllAppend(ChildCells(c, maxDepth, box, i), MarchedCells(kids[i], maxDepth, boxes[i]), march);
      out := GenerateMeshCell(kids[i], out, maxDepth, boxes[i], march);
      AppendAssoc(vertices, before, mine);
    }
  }

  lemma ChildCellsStep(c: Cell, maxDepth: nat, box: AABB, i: nat)
    requires WellFormed(c) && Valid(box) && HasChildren(c) && i < 8
    ensures Valid(Octants(box)[i])
    ensures ChildCells(c, maxDepth, box, i + 1) ==
      ChildCells(c, maxDepth, box, i) + MarchedCells(c.children.value[i], maxDepth, Octants(box)[i])
  {
    OctantsValid(box);
  }

  lemma OctantsValid(box: AABB)
    requires Valid(box)
    ensures forall i :: 0 <= i < 8 ==> Valid(Octants(box)[i])
  {
    OctantsSpec(box);
  }

  lemma AppendAssoc<T>(a: seq<T>, b: seq<T>, c: seq<T>)
    ensures (a + b) + c == a + (b + c)
  {
  }

  lemma MarchAllSingle(c: Cell, box: AABB, march: (seq<Vec3>, seq<real>) -> seq<Vec3>)
    requires Valid(box)
    ensures MarchAll([(c, box)], march) == march(CalculateCorners(box), c.values)
  {
    assert [(c, box)][1..] == [];
  }

  /** The box of the root cell: from the origin, `scale` along every axis. */
  function RootBox(scale: real): (b: AABB)
    requires scale >= 0.0
    ensures Valid(b) && Size(b) == Splat(scale)
  {
    AABB(ZERO, Splat(scale))
  }

  /** `NaiveOctree`: the root cell and the edge length of its cube. */
  class NaiveOctree {
    var root: Cell
    var scale: real

    predicate WellFormedTree()
      reads this
    {
      WellFormed(root)
    }

    /** `NaiveOctree::new`: a default root cell. */
    constructor (scale: real)
      ensures WellFormedTree()
      ensures root == Default() && this.scale == scale
    {
      root := Default();
      this.scale := scale;
    }

    /** `NaiveOctree::apply_tool`: apply the tool to the root cell with the
        root box. */
    method ApplyTool(tool: Tools.Tool, action: Action, maxDepth: nat, classify: (AABB, AABB) -> Tools.Relation)
      requires WellFormedTree() && scale >= 0.0
      modifies this
      ensures WellFormedTree() && scale == old(scale)
      ensures root == ApplyToolCell(old(root), tool, action, RootBox(scale), maxDepth, classify)
    {
      root := ApplyToolCell(root, tool, action, RootBox(scale), maxDepth, classify);
    }

    /** `NaiveOctree::generate_mesh`: the vertices of the unindexed mesh. */
    method GenerateMesh(maxDepth: nat, march: (seq<Vec3>, seq<real>) -> seq<Vec3>) returns (vertices: seq<Vec3>)
      requires WellFormedTree() && scale >= 0.0
      ensures vertices == MarchAll(MarchedCells(root, maxDepth, RootBox(scale)), march)
    {
      vertices := GenerateMeshCell(root, [], maxDepth, RootBox(scale), march);
    }
  }
}
