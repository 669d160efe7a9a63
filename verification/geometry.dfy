/** Real triples standing for `glam::Vec3`, and the unit-cube corner table
    `CUBE_CORNERS` of `lib.rs`. */
module Geometry {
  datatype Vec3 = Vec3(x: real, y: real, z: real)

  const ZERO: Vec3 := Vec3(0.0, 0.0, 0.0)
  const ONE: Vec3 := Vec3(1.0, 1.0, 1.0)

  function Splat(s: real): Vec3 {
    Vec3(s, s, s)
  }

  function Add(a: Vec3, b: Vec3): Vec3 {
    Vec3(a.x + b.x, a.y + b.y, a.z + b.z)
  }

  function Sub(a: Vec3, b: Vec3): Vec3 {
    Vec3(a.x - b.x, a.y - b.y, a.z - b.z)
  }

  /** Component-wise product (`Vec3 * Vec3`). */
  function Mul(a: Vec3, b: Vec3): Vec3 {
    Vec3(a.x * b.x, a.y * b.y, a.z * b.z)
  }

  /** `Vec3 * f32`. */
  function Scale(a: Vec3, s: real): Vec3 {
    Vec3(a.x * s, a.y * s, a.z * s)
  }

  /** `Vec3 / f32`. */
  function Div(a: Vec3, s: real): Vec3
    requires s != 0.0
  {
    Vec3(a.x / s, a.y / s, a.z / s)
  }

  function MinR(a: real, b: real): real {
    if a <= b then a else b
  }

  function MaxR(a: real, b: real): real {
    if a >= b then a else b
  }

  /** Component-wise minimum (`Vec3::min`). */
  function Min(a: Vec3, b: Vec3): Vec3 {
    Vec3(MinR(a.x, b.x), MinR(a.y, b.y), MinR(a.z, b.z))
  }

  /** Component-wise maximum (`Vec3::max`). */
  function Max(a: Vec3, b: Vec3): Vec3 {
    Vec3(MaxR(a.x, b.x), MaxR(a.y, b.y), MaxR(a.z, b.z))
  }

  /** Component `i` of a vector: 0 is x, 1 is y, 2 is z (`to_array()[i]`). */
  function Axis(v: Vec3, i: nat): real
    requires i < 3
  {
    if i == 0 then v.x else if i == 1 then v.y else v.z
  }

  /** `is_negative_bitmask() == 0`: no component is negative. */
  predicate NonNegative(v: Vec3) {
    v.x >= 0.0 && v.y >= 0.0 && v.z >= 0.0
  }

  /** The corners of a unit cube in Z-order: bit 0 of the index is x, bit 1
      is y and bit 2 is z. */
  const CUBE_CORNERS: seq<Vec3> := [
    Vec3(0.0, 0.0, 0.0),
    Vec3(1.0, 0.0, 0.0),
    Vec3(0.0, 1.0, 0.0),
    Vec3(1.0, 1.0, 0.0),
    Vec3(0.0, 0.0, 1.0),
    Vec3(1.0, 0.0, 1.0),
    Vec3(0.0, 1.0, 1.0),
    Vec3(1.0, 1.0, 1.0)
  ]

  /** Bit `b` of corner number `c`, as 0.0 or 1.0. */
  function CornerBit(c: nat, b: nat): real {
    if b == 0 then (if c % 2 == 1 then 1.0 else 0.0)
    else if b == 1 then (if (c / 2) % 2 == 1 then 1.0 else 0.0)
    else (if (c / 4) % 2 == 1 then 1.0 else 0.0)
  }

  /** The corner table is in Z-order: corner `c` has the bits of `c` as its
      coordinates. */
  lemma CubeCornersZOrder()
    ensures |CUBE_CORNERS| == 8
    ensures forall c :: 0 <= c < 8 ==>
      CUBE_CORNERS[c] == Vec3(CornerBit(c, 0), CornerBit(c, 1), CornerBit(c, 2))
  {
    forall c | 0 <= c < 8
      ensures CUBE_CORNERS[c] == Vec3(CornerBit(c, 0), CornerBit(c, 1), CornerBit(c, 2))
    {
      if c == 0 {
      } else if c == 1 {
      } else if c == 2 {
      } else if c == 3 {
      } else if c == 4 {
      } else if c == 5 {
      } else if c == 6 {
      } else {
      }
    }
  }
}
