/** `utils::subdivide_values`: refine the 8 corner densities of a cube into
    the 8 corner densities of each of its 8 octants. */
module Subdivision {
  /** `f32::lerp` from the `lerp` crate: `a * (1 - t) + b * t`. */
  function Lerp(a: real, b: real, t: real): real {
    a * (1.0 - t) + b * t
  }

  function Mid(a: real, b: real): (m: real)
    ensures m == (a + b) / 2.0
  {
    Lerp(a, b, 0.5)
  }

  /** The 3x3x3 grid of `subdivide_values`, point `x + 3y + 9z`: the cube's
      corners at the even positions, edge midpoints, face centres, and the
      centre, each a 0.5-lerp of points computed before it. */
  function Grid(cube: seq<real>): (points: seq<real>)
    requires |cube| == 8
    ensures |points| == 27
  {
    var p0 := cube[0]; var p2 := cube[1]; var p6 := cube[2]; var p8 := cube[3];
    var p18 := cube[4]; var p20 := cube[5]; var p24 := cube[6]; var p26 := cube[7];
    var p1 := Mid(p0, p2); var p3 := Mid(p0, p6); var p5 := Mid(p2, p8); var p7 := Mid(p6, p8);
    var p9 := Mid(p0, p18); var p11 := Mid(p2, p20); var p15 := Mid(p6, p24); var p17 := Mid(p8, p26);
    var p19 := Mid(p18, p20); var p21 := Mid(p18, p24); var p23 := Mid(p20, p26); var p25 := Mid(p24, p26);
    var p4 := Mid(p1, p7); var p10 := Mid(p9, p11); var p12 := Mid(p3, p21);
    var p14 := Mid(p5, p23); var p16 := Mid(p7, p25); var p22 := Mid(p19, p25);
    var p13 := Mid(p4, p22);
    [p0, p1, p2, p3, p4, p5, p6, p7, p8,
     p9, p10, p11, p12, p13, p14, p15, p16, p17,
     p18, p19, p20, p21, p22, p23, p24, p25, p26]
  }

  /** Grid offsets of the corners of a cube in Z-order; they are also the
      grid points where the octants start. */
  const OFFSETS: seq<nat> := [0, 1, 3, 4, 9, 10, 12, 13]

  /** The `make_cell` closure: the 8 corners of the grid cell starting at
      grid point `start`. */
  function MakeCell(points: seq<real>, start: nat): (cell: seq<real>)
    requires |points| == 27 && start <= 13
    ensures |cell| == 8
  {
    [points[start], points[start + 1], points[start + 3], points[start + 4],
     points[start + 9], points[start + 10], points[start + 12], points[start + 13]]
  }

  /** `subdivide_values`: child `i` holds the corners of the grid cell
      starting at offset `OFFSETS[i]`. */
  function SubdivideValues(cube: seq<real>): (cells: seq<seq<real>>)
    requires |cube| == 8
    ensures |cells| == 8 && forall i :: 0 <= i < 8 ==> |cells[i]| == 8
  {
    var points := Grid(cube);
    [MakeCell(points, 0), MakeCell(points, 1), MakeCell(points, 3), MakeCell(points, 4),
     MakeCell(points, 9), MakeCell(points, 10), MakeCell(points, 12), MakeCell(points, 13)]
  }

  /** Bit `b` of corner number `c`, as 0 or 1. */
  function Bit(c: nat, b: nat): nat {
    if b == 0 then c % 2 else if b == 1 then (c / 2) % 2 else (c / 4) % 2
  }

  /** Corner `c`'s offset is `x + 3y + 9z` of its Z-order bits. */
  lemma OffsetsZOrder()
    ensures |OFFSETS| == 8
    ensures forall c :: 0 <= c < 8 ==> OFFSETS[c] == Bit(c, 0) + 3 * Bit(c, 1) + 9 * Bit(c, 2)
  {
    forall c | 0 <= c < 8
      ensures OFFSETS[c] == Bit(c, 0) + 3 * Bit(c, 1) + 9 * Bit(c, 2)
    {
      if c == 0 {
      } else if c == 1 {
      } else if c == 2 {
      } else if c == 3 {
      } else if c == 4 {
      } else if c == 5 {
      } else if c == 6 {
      } else {
      }
    }
  }

  /** Corner `k` of child `c` is grid point `OFFSETS[c] + OFFSETS[k]`, so two
      children read the same value wherever their corners meet. */
  lemma ChildCornerIsGridPoint(cube: seq<real>, c: nat, k: nat)
    requires |cube| == 8 && c < 8 && k < 8
    ensures OFFSETS[c] + OFFSETS[k] < 27
    ensures SubdivideValues(cube)[c][k] == Grid(cube)[OFFSETS[c] + OFFSETS[k]]
  {
    var cells := SubdivideValues(cube);
    var points := Grid(cube);
    assert cells[c] == MakeCell(points, OFFSETS[c]) by {
      if c == 0 {
      } else if c == 1 {
      } else if c == 2 {
      } else if c == 3 {
      } else if c == 4 {
      } else if c == 5 {
      } else if c == 6 {
      } else {
      }
    }
  }

  /** Trilinear interpolation of the corner values `cube` (Z-order) at the
      point `(x, y, z)` of the unit cube. */
  function Trilinear(cube: seq<real>, x: real, y: real, z: real): real
    requires |cube| == 8
  {
    cube[0] * (1.0 - x) * (1.0 - y) * (1.0 - z) + cube[1] * x * (1.0 - y) * (1.0 - z)
    + cube[2] * (1.0 - x) * y * (1.0 - z) + cube[3] * x * y * (1.0 - z)
    + cube[4] * (1.0 - x) * (1.0 - y) * z + cube[5] * x * (1.0 - y) * z
    + cube[6] * (1.0 - x) * y * z + cube[7] * x * y * z
  }

  /** Every grid point is the trilinear interpolation of the cube's corners at
      its position: grid point `x + 3y + 9z` sits at `(x/2, y/2, z/2)`. */
  lemma GridIsTrilinear(cube: seq<real>, x: nat, y: nat, z: nat)
    requires |cube| == 8 && x < 3 && y < 3 && z < 3
    ensures Grid(cube)[x + 3 * y + 9 * z] == Trilinear(cube, x as real / 2.0, y as real / 2.0, z as real / 2.0)
  {
    if z == 0 {
      GridLayer0(cube, x, y);
    } else if z == 1 {
      GridLayer1(cube, x, y);
    } else {
      GridLayer2(cube, x, y);
    }
  }

  lemma GridLayer0(cube: seq<real>, x: nat, y: nat)
    requires |cube| == 8 && x < 3 && y < 3
    ensures x + 3 * y < 27
    ensures Grid(cube)[x + 3 * y] == Trilinear(cube, x as real / 2.0, y as real / 2.0, 0.0)
  {
    var g := Grid(cube);
    if y == 0 {
      if x == 0 { assert g[0] == cube[0]; }
      else if x == 1 { assert g[1] == (cube[0] + cube[1]) / 2.0; }
      else { assert g[2] == cube[1]; }
    } else if y == 1 {
      if x == 0 { assert g[3] == (cube[0] + cube[2]) / 2.0; }
      else if x == 1 { assert g[4] == (cube[0] + cube[1] + cube[2] + cube[3]) / 4.0; }
      else { assert g[5] == (cube[1] + cube[3]) / 2.0; }
    } else {
      if x == 0 { assert g[6] == cube[2]; }
      else if x == 1 { assert g[7] == (cube[2] + cube[3]) / 2.0; }
      else { assert g[8] == cube[3]; }
    }
  }

  lemma GridLayer1(cube: seq<real>, x: nat, y: nat)
    requires |cube| == 8 && x < 3 && y < 3
    ensures x + 3 * y + 9 < 27
    ensures Grid(cube)[x + 3 * y + 9] == Trilinear(cube, x as real / 2.0, y as real / 2.0, 0.5)
  {
    var g := Grid(cube);
    if y == 0 {
      if x == 0 { assert g[9] == (cube[0] + cube[4]) / 2.0; }
      else if x == 1 { assert g[10] == (cube[0] + cube[1] + cube[4] + cube[5]) / 4.0; }
      else { assert g[11] == (cube[1] + cube[5]) / 2.0; }
    } else if y == 1 {
      if x == 0 { assert g[12] == (cube[0] + cube[2] + cube[4] + cube[6]) / 4.0; }
      else if x == 1 { assert g[13] == (cube[0] + cube[1] + cube[2] + cube[3] + cube[4] + cube[5] + cube[6] + cube[7]) / 8.0; }
      else { assert g[14] == (cube[1] + cube[3] + cube[5] + cube[7]) / 4.0; }
    } else {
      if x == 0 { assert g[15] == (cube[2] + cube[6]) / 2.0; }
      else if x == 1 { assert g[16] == (cube[2] + cube[3] + cube[6] + cube[7]) / 4.0; }
      else { assert g[17] == (cube[3] + cube[7]) / 2.0; }
    }
  }

  lemma GridLayer2(cube: seq<real>, x: nat, y: nat)
    requires |cube| == 8 && x < 3 && y < 3
    ensures x + 3 * y + 18 < 27
    ensures Grid(cube)[x + 3 * y + 18] == Trilinear(cube, x as real / 2.0, y as real / 2.0, 1.0)
  {
    var g := Grid(cube);
    if y == 0 {
      if x == 0 { assert g[18] == cube[4]; }
      else if x == 1 { assert g[19] == (cube[4] + cube[5]) / 2.0; }
      else { assert g[20] == cube[5]; }
    } else if y == 1 {
      if x == 0 { assert g[21] == (cube[4] + cube[6]) / 2.0; }
      else if x == 1 { assert g[22] == (cube[4] + cube[5] + cube[6] + cube[7]) / 4.0; }
      else { assert g[23] == (cube[5] + cube[7]) / 2.0; }
    } else {
      if x == 0 { assert g[24] == cube[6]; }
      else if x == 1 { assert g[25] == (cube[6] + cube[7]) / 2.0; }
      else { assert g[26] == cube[7]; }
    }
  }

  /** Corner `k` of child `c` holds the trilinear interpolation of the parent
      at that corner's position, `(bits of c + bits of k) / 2`. */
  lemma ChildCornerIsTrilinear(cube: seq<real>, c: nat, k: nat)
    requires |cube| == 8 && c < 8 && k < 8
    ensures SubdivideValues(cube)[c][k] == Trilinear(cube,
      (Bit(c, 0) + Bit(k, 0)) as real / 2.0,
      (Bit(c, 1) + Bit(k, 1)) as real / 2.0,
      (Bit(c, 2) + Bit(k, 2)) as real / 2.0)
  {
    ChildCornerIsGridPoint(cube, c, k);
    OffsetsZOrder();
    var x, y, z := Bit(c, 0) + Bit(k, 0), Bit(c, 1) + Bit(k, 1), Bit(c, 2) + Bit(k, 2);
    assert OFFSETS[c] + OFFSETS[k] == x + 3 * y + 9 * z;
    GridIsTrilinear(cube, x, y, z);
  }

  /** Child `c` keeps the parent's corner `c`, and its opposite corner
      `7 - c` is the grid centre shared by all eight children. */
  lemma ChildCorners(cube: seq<real>, c: nat)
    requires |cube| == 8 && c < 8
    ensures SubdivideValues(cube)[c][c] == cube[c]
    ensures SubdivideValues(cube)[c][7 - c] == Grid(cube)[13]
  {
    ChildCornerIsGridPoint(cube, c, c);
    ChildCornerIsGridPoint(cube, c, 7 - c);
    var g := Grid(cube);
    assert g[0] == cube[0] && g[2] == cube[1] && g[6] == cube[2] && g[8] == cube[3];
    assert g[18] == cube[4] && g[20] == cube[5] && g[24] == cube[6] && g[26] == cube[7];
    if c == 0 {
    } else if c == 1 {
    } else if c == 2 {
    } else if c == 3 {
    } else if c == 4 {
    } else if c == 5 {
    } else if c == 6 {
    } else {
    }
  }

  /** The centre is the mean of the eight corners, and grid point 4, the
      centre of the bottom face, the mean of corners 0 to 3. */
  lemma CentreIsMean(cube: seq<real>)
    requires |cube| == 8
    ensures Grid(cube)[13] == (cube[0] + cube[1] + cube[2] + cube[3] + cube[4] + cube[5] + cube[6] + cube[7]) / 8.0
    ensures Grid(cube)[4] == (cube[0] + cube[1] + cube[2] + cube[3]) / 4.0
  {
    GridLayer0(cube, 1, 1);
    GridLayer1(cube, 1, 1);
  }

  /** Only 0.5-lerps are used, so every grid point lies between the least and
      the greatest corner value. */
  lemma GridBounds(cube: seq<real>, lo: real, hi: real)
    requires |cube| == 8
    requires forall i :: 0 <= i < 8 ==> lo <= cube[i] <= hi
    ensures forall j :: 0 <= j < 27 ==> lo <= Grid(cube)[j] <= hi
  {
    var g := Grid(cube);
    assert lo <= cube[0] <= hi && lo <= cube[1] <= hi && lo <= cube[2] <= hi && lo <= cube[3] <= hi;
    assert lo <= cube[4] <= hi && lo <= cube[5] <= hi && lo <= cube[6] <= hi && lo <= cube[7] <= hi;
  }

  /** Every output value lies between the least and the greatest input. */
  lemma SubdivideBounds(cube: seq<real>, lo: real, hi: real)
    requires |cube| == 8
    requires forall i :: 0 <= i < 8 ==> lo <= cube[i] <= hi
    ensures forall c, k :: 0 <= c < 8 && 0 <= k < 8 ==> lo <= SubdivideValues(cube)[c][k] <= hi
  {
    GridBounds(cube, lo, hi);
    forall c, k | 0 <= c < 8 && 0 <= k < 8
      ensures lo <= SubdivideValues(cube)[c][k] <= hi
    {
      ChildCornerIsGridPoint(cube, c, k);
    }
  }

  /** A cube whose corners all hold `v` refines into 64 copies of `v`. */
  lemma SubdivideConstant(cube: seq<real>, v: real)
    requires |cube| == 8
    requires forall i :: 0 <= i < 8 ==> cube[i] == v
    ensures forall c, k :: 0 <= c < 8 && 0 <= k < 8 ==> SubdivideValues(cube)[c][k] == v
  {
    SubdivideBounds(cube, v, v);
  }
}
