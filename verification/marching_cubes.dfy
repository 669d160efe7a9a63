/** The marching-cubes lookup tables and `vert_interp` of `marching_cubes.rs`.

    `EDGE_TABLE[i]` is the set of cube edges (bit e for edge e) that the
    surface crosses when the corners of the cube carry sign pattern `i`;
    `TRI_TABLE[i]` lists, three edges per triangle, the triangles to emit for
    that pattern, padded with -1. Both tables are written out here in blocks
    of 16 sign patterns, row for row as in the source; the lemmas check their
    consistency entry by entry. */
module MarchingCubes {
  import opened Geometry
  import Subdivision

  /** `EDGE_TABLE[i]`. The entries are `usize` in the source; all of them fit
      in 12 bits (`EdgeTableSymmetric`), so a 16-bit vector holds them. */
  function EdgeTable(i: nat): bv16
    requires i < 256
  {
    if i < 16 then EdgeTableBlock0(i - 0)
    else if i < 32 then EdgeTableBlock1(i - 16)
    else if i < 48 then EdgeTableBlock2(i - 32)
    else if i < 64 then EdgeTableBlock3(i - 48)
    else if i < 80 then EdgeTableBlock4(i - 64)
    else if i < 96 then EdgeTableBlock5(i - 80)
    else if i < 112 then EdgeTableBlock6(i - 96)
    else if i < 128 then EdgeTableBlock7(i - 112)
    else if i < 144 then EdgeTableBlock8(i - 128)
    else if i < 160 then EdgeTableBlock9(i - 144)
    else if i < 176 then EdgeTableBlock10(i - 160)
    else if i < 192 then EdgeTableBlock11(i - 176)
    else if i < 208 then EdgeTableBlock12(i - 192)
    else if i < 224 then EdgeTableBlock13(i - 208)
    else if i < 240 then EdgeTableBlock14(i - 224)
    else EdgeTableBlock15(i - 240)
  }

  /** `TRI_TABLE[i][c]`: edge number `c` of the triangle list of pattern `i`,
      or -1 past its end. */
  function TriTable(i: nat, c: nat): int
    requires i < 256 && c < 15
  {
    if i < 16 then TriTableBlock0(i - 0, c)
    else if i < 32 then TriTableBlock1(i - 16, c)
    else if i < 48 then TriTableBlock2(i - 32, c)
    else if i < 64 then TriTableBlock3(i - 48, c)
    else if i < 80 then TriTableBlock4(i - 64, c)
    else if i < 96 then TriTableBlock5(i - 80, c)
    else if i < 112 then TriTableBlock6(i - 96, c)
    else if i < 128 then TriTableBlock7(i - 112, c)
    else if i < 144 then TriTableBlock8(i - 128, c)
    else if i < 160 then TriTableBlock9(i - 144, c)
    else if i < 176 then TriTableBlock10(i - 160, c)
    else if i < 192 then TriTableBlock11(i - 176, c)
    else if i < 208 then TriTableBlock12(i - 192, c)
    else if i < 224 then TriTableBlock13(i - 208, c)
    else if i < 240 then TriTableBlock14(i - 224, c)
    else TriTableBlock15(i - 240, c)
  }

  /** Entry `c` of a 15-entry table row. */
  function Row(c: nat, e0: int, e1: int, e2: int, e3: int, e4: int, e5: int, e6: int, e7: int, e8: int, e9: int, e10: int, e11: int, e12: int, e13: int, e14: int): int
    requires c < 15
  {
    if c == 0 then e0
    else if c == 1 then e1
    else if c == 2 then e2
    else if c == 3 then e3
    else if c == 4 then e4
    else if c == 5 then e5
    else if c == 6 then e6
    else if c == 7 then e7
    else if c == 8 then e8
    else if c == 9 then e9
    else if c == 10 then e10
    else if c == 11 then e11
    else if c == 12 then e12
    else if c == 13 then e13
    else e14
  }

  /** `EDGE_TABLE[0..16]`. */
  function EdgeTableBlock0(j: nat): bv16
    requires j < 16
  {
    match j
      case 0 => 0x0
      case 1 => 0x103
      case 2 => 0x809
      case 3 => 0x90a
      case 4 => 0x130
      case 5 => 0x33
      case 6 => 0x939
      case 7 => 0x83a
      case 8 => 0x890
      case 9 => 0x993
      case 10 => 0x99
      case 11 => 0x19a
      case 12 => 0x9a0
      case 13 => 0x8a3
      case 14 => 0x1a9
      case _ => 0xaa
  }

  /** `EDGE_TABLE[16..32]`. */
  function EdgeTableBlock1(j: nat): bv16
    requires j < 16
  {
    match j
      case 0 => 0x206
      case 1 => 0x305
      case 2 => 0xa0f
      case 3 => 0xb0c
      case 4 => 0x336
      case 5 => 0x235
      case 6 => 0xb3f
      case 7 => 0xa3c
      case 8 => 0xa96
      case 9 => 0xb95
      case 10 => 0x29f
      case 11 => 0x39c
      case 12 => 0xba6
      case 13 => 0xaa5
      case 14 => 0x3af
      case _ => 0x2ac
  }

  /** `EDGE_TABLE[32..48]`. */
  function EdgeTableBlock2(j: nat): bv16
    requires j < 16
  {
    match j
      case 0 => 0x40c
      case 1 => 0x50f
      case 2 => 0xc05
      case 3 => 0xd06
      case 4 => 0x53c
      case 5 => 0x43f
      case 6 => 0xd35
      case 7 => 0xc36
      case 8 => 0xc9c
      case 9 => 0xd9f
      case 10 => 0x495
      case 11 => 0x596
      case 12 => 0xdac
      case 13 => 0xcaf
      case 14 => 0x5a5
      case _ => 0x4a6
  }

  /** `EDGE_TABLE[48..64]`. */
  function EdgeTableBlock3(j: nat): bv16
    requires j < 16
  {
    match j
      case 0 => 0x60a
      case 1 => 0x709
      case 2 => 0xe03
      case 3 => 0xf00
      case 4 => 0x73a
      case 5 => 0x639
      case 6 => 0xf33
      case 7 => 0xe30
      case 8 => 0xe9a
      case 9 => 0xf99
      case 10 => 0x693
      case 11 => 0x790
      case 12 => 0xfaa
      case 13 => 0xea9
      case 14 => 0x7a3
      case _ => 0x6a0
  }

  /** `EDGE_TABLE[64..80]`. */
  function EdgeTableBlock4(j: nat): bv16
    requires j < 16
  {
    match j
      case 0 => 0x260
      case 1 => 0x363
      case 2 => 0xa69
      case 3 => 0xb6a
      case 4 => 0x350
      case 5 => 0x253
      case 6 => 0xb59
      case 7 => 0xa5a
      case 8 => 0xaf0
      case 9 => 0xbf3
      case 10 => 0x2f9
      case 11 => 0x3fa
      case 12 => 0xbc0
      case 13 => 0xac3
      case 14 => 0x3c9
      case _ => 0x2ca
  }

  /** `EDGE_TABLE[80..96]`. */
  function EdgeTableBlock5(j: nat): bv16
    requires j < 16
  {
    match j
      case 0 => 0x66
      case 1 => 0x165
      case 2 => 0x86f
      case 3 => 0x96c
      case 4 => 0x156
      case 5 => 0x55
      case 6 => 0x95f
      case 7 => 0x85c
      case 8 => 0x8f6
      case 9 => 0x9f5
      case 10 => 0xff
      case 11 => 0x1fc
      case 12 => 0x9c6
      case 13 => 0x8c5
      case 14 => 0x1cf
      case _ => 0xcc
  }

  /** `EDGE_TABLE[96..112]`. */
  function EdgeTableBlock6(j: nat): bv16
    requires j < 16
  {
    match j
      case 0 => 0x66c
      case 1 => 0x76f
      case 2 => 0xe65
      case 3 => 0xf66
      case 4 => 0x75c
      case 5 => 0x65f
      case 6 => 0xf55
      case 7 => 0xe56
      case 8 => 0xefc
      case 9 => 0xfff
      case 10 => 0x6f5
      case 11 => 0x7f6
      case 12 => 0xfcc
      case 13 => 0xecf
      case 14 => 0x7c5
      case _ => 0x6c6
  }

  /** `EDGE_TABLE[112..128]`. */
  function EdgeTableBlock7(j: nat): bv16
    requires j < 16
  {
    match j
      case 0 => 0x46a
      case 1 => 0x569
      case 2 => 0xc63
      case 3 => 0xd60
      case 4 => 0x55a
      case 5 => 0x459
      case 6 => 0xd53
      case 7 => 0xc50
      case 8 => 0xcfa
      case 9 => 0xdf9
      case 10 => 0x4f3
      case 11 => 0x5f0
      case 12 => 0xdca
      case 13 => 0xcc9
      case 14 => 0x5c3
      case _ => 0x4c0
  }

  /** `EDGE_TABLE[128..144]`. */
  function EdgeTableBlock8(j: nat): bv16
    requires j < 16
  {
    match j
      case 0 => 0x4c0
      case 1 => 0x5c3
      case 2 => 0xcc9
      case 3 => 0xdca
      case 4 => 0x5f0
      case 5 => 0x4f3
      case 6 => 0xdf9
      case 7 => 0xcfa
      case 8 => 0xc50
      case 9 => 0xd53
      case 10 => 0x459
      case 11 => 0x55a
      case 12 => 0xd60
      case 13 => 0xc63
      case 14 => 0x569
      case _ => 0x46a
  }

  /** `EDGE_TABLE[144..160]`. */
  function EdgeTableBlock9(j: nat): bv16
    requires j < 16
  {
    match j
      case 0 => 0x6c6
      case 1 => 0x7c5
      case 2 => 0xecf
      case 3 => 0xfcc
      case 4 => 0x7f6
      case 5 => 0x6f5
      case 6 => 0xfff
      case 7 => 0xefc
      case 8 => 0xe56
      case 9 => 0xf55
      case 10 => 0x65f
      case 11 => 0x75c
      case 12 => 0xf66
      case 13 => 0xe65
      case 14 => 0x76f
      case _ => 0x66c
  }

  /** `EDGE_TABLE[160..176]`. */
  function EdgeTableBlock10(j: nat): bv16
    requires j < 16
  {
    match j
      case 0 => 0xcc
      case 1 => 0x1cf
      case 2 => 0x8c5
      case 3 => 0x9c6
      case 4 => 0x1fc
      case 5 => 0xff
      case 6 => 0x9f5
      case 7 => 0x8f6
      case 8 => 0x85c
      case 9 => 0x95f
      case 10 => 0x55
      case 11 => 0x156
      case 12 => 0x96c
      case 13 => 0x86f
      case 14 => 0x165
      case _ => 0x66
  }

  /** `EDGE_TABLE[176..192]`. */
  function EdgeTableBlock11(j: nat): bv16
    requires j < 16
  {
    match j
      case 0 => 0x2ca
      case 1 => 0x3c9
      case 2 => 0xac3
      case 3 => 0xbc0
      case 4 => 0x3fa
      case 5 => 0x2f9
      case 6 => 0xbf3
      case 7 => 0xaf0
      case 8 => 0xa5a
      case 9 => 0xb59
      case 10 => 0x253
      case 11 => 0x350
      case 12 => 0xb6a
      case 13 => 0xa69
      case 14 => 0x363
      case _ => 0x260
  }

  /** `EDGE_TABLE[192..208]`. */
  function EdgeTableBlock12(j: nat): bv16
    requires j < 16
  {
    match j
      case 0 => 0x6a0
      case 1 => 0x7a3
      case 2 => 0xea9
      case 3 => 0xfaa
      case 4 => 0x790
      case 5 => 0x693
      case 6 => 0xf99
      case 7 => 0xe9a
      case 8 => 0xe30
      case 9 => 0xf33
      case 10 => 0x639
      case 11 => 0x73a
      case 12 => 0xf00
      case 13 => 0xe03
      case 14 => 0x709
      case _ => 0x60a
  }

  /** `EDGE_TABLE[208..224]`. */
  function EdgeTableBlock13(j: nat): bv16
    requires j < 16
  {
    match j
      case 0 => 0x4a6
      case 1 => 0x5a5
      case 2 => 0xcaf
      case 3 => 0xdac
      case 4 => 0x596
      case 5 => 0x495
      case 6 => 0xd9f
      case 7 => 0xc9c
      case 8 => 0xc36
      case 9 => 0xd35
      case 10 => 0x43f
      case 11 => 0x53c
      case 12 => 0xd06
      case 13 => 0xc05
      case 14 => 0x50f
      case _ => 0x40c
  }

  /** `EDGE_TABLE[224..240]`. */
  function EdgeTableBlock14(j: nat): bv16
    requires j < 16
  {
    match j
      case 0 => 0x2ac
      case 1 => 0x3af
      case 2 => 0xaa5
      case 3 => 0xba6
      case 4 => 0x39c
      case 5 => 0x29f
      case 6 => 0xb95
      case 7 => 0xa96
      case 8 => 0xa3c
      case 9 => 0xb3f
      case 10 => 0x235
      case 11 => 0x336
      case 12 => 0xb0c
      case 13 => 0xa0f
      case 14 => 0x305
      case _ => 0x206
  }

  /** `EDGE_TABLE[240..256]`. */
  function EdgeTableBlock15(j: nat): bv16
    requires j < 16
  {
    match j
      case 0 => 0xaa
      case 1 => 0x1a9
      case 2 => 0x8a3
      case 3 => 0x9a0
      case 4 => 0x19a
      case 5 => 0x99
      case 6 => 0x993
      case 7 => 0x890
      case 8 => 0x83a
      case 9 => 0x939
      case 10 => 0x33
      case 11 => 0x130
      case 12 => 0x90a
      case 13 => 0x809
      case 14 => 0x103
      case _ => 0x0
  }

  /** `TRI_TABLE[0..16]`. */
  function TriTableBlock0(j: nat, c: nat): int
    requires j < 16 && c < 15
  {
    match j
      case 0 => Row(c, -1, -1, -1, -1, -1, -1, -1, -1, -1, -1, -1, -1, -1, -1, -1)
      case 1 => Row(c,  1,  8,  0, -1, -1, -1, -1, -1, -1, -1, -1, -1, -1, -1, -1)
      case 2 => Row(c,  3,  0, 11, -1, -1, -1, -1, -1, -1, -1, -1, -1, -1, -1, -1)
      case 3 => Row(c,  1, 11,  3,  8, 11,  1, -1, -1, -1, -1, -1, -1, -1, -1, -1)
      case 4 => Row(c,  5,  4,  8, -1, -1, -1, -1, -1, -1, -1, -1, -1, -1, -1, -1)
      case 5 => Row(c,  5,  0,  1,  4,  0,  5, -1, -1, -1, -1, -1, -1, -1, -1, -1)
      case 6 => Row(c, 11,  3,  0,  4,  8,  5, -1, -1, -1, -1, -1, -1, -1, -1, -1)
      case 7 => Row(c, 11,  5,  4, 11,  3,  5,  3,  1,  5, -1, -1, -1, -1, -1, -1)
      case 8 => Row(c, 11,  4,  7, -1, -1, -1, -1, -1, -1, -1, -1, -1, -1, -1, -1)
      case 9 => Row(c,  0,  1,  8, 11,  4,  7, -1, -1, -1, -1, -1, -1, -1, -1, -1)
      case 10 => Row(c,  3,  4,  7,  0,  4,  3, -1, -1, -1, -1, -1, -1, -1, -1, -1)
      case 11 => Row(c,  4,  1,  8,  4,  7,  1,  7,  3,  1, -1, -1, -1, -1, -1, -1)
      case 12 => Row(c,  8,  7, 11,  5,  7,  8, -1, -1, -1, -1, -1, -1, -1, -1, -1)
      case 13 => Row(c,  0,  7, 11,  0,  1,  7,  1,  5,  7, -1, -1, -1, -1, -1, -1)
      case 14 => Row(c,  8,  3,  0,  8,  5,  3,  5,  7,  3, -1, -1, -1, -1, -1, -1)
      case _ => Row(c,  3,  1,  7,  1,  5,  7, -1, -1, -1, -1, -1, -1, -1, -1, -1)
  }

  /** `TRI_TABLE[16..32]`. */
  function TriTableBlock1(j: nat, c: nat): int
    requires j < 16 && c < 15
  {
    match j
      case 0 => Row(c,  2,  9,  1, -1, -1, -1, -1, -1, -1, -1, -1, -1, -1, -1, -1)
      case 1 => Row(c,  2,  8,  0,  9,  8,  2, -1, -1, -1, -1, -1, -1, -1, -1, -1)
      case 2 => Row(c,  2,  9,  1,  3,  0, 11, -1, -1, -1, -1, -1, -1, -1, -1, -1)
      case 3 => Row(c,  2, 11,  3,  2,  9, 11,  9,  8, 11, -1, -1, -1, -1, -1, -1)
      case 4 => Row(c,  1,  2,  9,  8,  5,  4, -1, -1, -1, -1, -1, -1, -1, -1, -1)
      case 5 => Row(c,  5,  2,  9,  5,  4,  2,  4,  0,  2, -1, -1, -1, -1, -1, -1)
      case 6 => Row(c,  3,  0, 11,  1,  2,  9,  4,  8,  5, -1, -1, -1, -1, -1, -1)
      case 7 => Row(c, 11,  5,  4,  3,  5, 11,  3,  9,  5,  3,  2,  9, -1, -1, -1)
      case 8 => Row(c,  2,  9,  1,  7, 11,  4, -1, -1, -1, -1, -1, -1, -1, -1, -1)
      case 9 => Row(c,  8,  2,  9,  8,  0,  2, 11,  4,  7, -1, -1, -1, -1, -1, -1)
      case 10 => Row(c,  3,  4,  7,  3,  0,  4,  1,  2,  9, -1, -1, -1, -1, -1, -1)
      case 11 => Row(c,  2,  9,  8,  2,  8,  7,  2,  7,  3,  7,  8,  4, -1, -1, -1)
      case 12 => Row(c,  8,  7, 11,  8,  5,  7,  9,  1,  2, -1, -1, -1, -1, -1, -1)
      case 13 => Row(c,  9,  0,  2,  9,  7,  0,  9,  5,  7, 11,  0,  7, -1, -1, -1)
      case 14 => Row(c,  2,  9,  1,  3,  0,  5,  3,  5,  7,  5,  0,  8, -1, -1, -1)
      case _ => Row(c,  2,  9,  5,  2,  5,  3,  3,  5,  7, -1, -1, -1, -1, -1, -1)
  }

  /** `TRI_TABLE[32..48]`. */
  function TriTableBlock2(j: nat, c: nat): int
    requires j < 16 && c < 15
  {
    match j
      case 0 => Row(c,  2,  3, 10, -1, -1, -1, -1, -1, -1, -1, -1, -1, -1, -1, -1)
      case 1 => Row(c,  3, 10,  2,  0,  1,  8, -1, -1, -1, -1, -1, -1, -1, -1, -1)
      case 2 => Row(c, 10,  0, 11,  2,  0, 10, -1, -1, -1, -1, -1, -1, -1, -1, -1)
      case 3 => Row(c,  1, 10,  2,  1,  8, 10,  8, 11, 10, -1, -1, -1, -1, -1, -1)
      case 4 => Row(c,  2,  3, 10,  8,  5,  4, -1, -1, -1, -1, -1, -1, -1, -1, -1)
      case 5 => Row(c,  0,  5,  4,  0,  1,  5,  2,  3, 10, -1, -1, -1, -1, -1, -1)
      case 6 => Row(c,  0, 10,  2,  0, 11, 10,  4,  8,  5, -1, -1, -1, -1, -1, -1)
      case 7 => Row(c,  2,  1,  5,  2,  5, 11,  2, 11, 10,  4, 11,  5, -1, -1, -1)
      case 8 => Row(c, 10,  2,  3,  7, 11,  4, -1, -1, -1, -1, -1, -1, -1, -1, -1)
      case 9 => Row(c,  2,  3, 10,  0,  1,  8,  7, 11,  4, -1, -1, -1, -1, -1, -1)
      case 10 => Row(c, 10,  4,  7, 10,  2,  4,  2,  0,  4, -1, -1, -1, -1, -1, -1)
      case 11 => Row(c,  1,  8,  4,  2,  1,  4,  2,  4,  7,  2,  7, 10, -1, -1, -1)
      case 12 => Row(c,  7,  8,  5,  7, 11,  8,  3, 10,  2, -1, -1, -1, -1, -1, -1)
      case 13 => Row(c, 10,  2,  3,  7, 11,  1,  7,  1,  5,  1, 11,  0, -1, -1, -1)
      case 14 => Row(c, 10,  5,  7, 10,  0,  5, 10,  2,  0,  0,  8,  5, -1, -1, -1)
      case _ => Row(c, 10,  2,  1, 10,  1,  7,  7,  1,  5, -1, -1, -1, -1, -1, -1)
  }

  /** `TRI_TABLE[48..64]`. */
  function TriTableBlock3(j: nat, c: nat): int
    requires j < 16 && c < 15
  {
    match j
      case 0 => Row(c,  3,  9,  1, 10,  9,  3, -1, -1, -1, -1, -1, -1, -1, -1, -1)
      case 1 => Row(c,  3,  8,  0,  3, 10,  8, 10,  9,  8, -1, -1, -1, -1, -1, -1)
      case 2 => Row(c,  0,  9,  1,  0, 11,  9, 11, 10,  9, -1, -1, -1, -1, -1, -1)
      case 3 => Row(c, 10,  9, 11, 11,  9,  8, -1, -1, -1, -1, -1, -1, -1, -1, -1)
      case 4 => Row(c,  9,  3, 10,  9,  1,  3,  8,  5,  4, -1, -1, -1, -1, -1, -1)
      case 5 => Row(c,  3,  4,  0,  3,  9,  4,  3, 10,  9,  9,  5,  4, -1, -1, -1)
      case 6 => Row(c,  4,  8,  5,  0, 11,  1, 11,  9,  1, 11, 10,  9, -1, -1, -1)
      case 7 => Row(c,  5,  4, 11,  5, 11,  9,  9, 11, 10, -1, -1, -1, -1, -1, -1)
      case 8 => Row(c,  3,  9,  1,  3, 10,  9,  7, 11,  4, -1, -1, -1, -1, -1, -1)
      case 9 => Row(c,  7, 11,  4,  3, 10,  0, 10,  8,  0, 10,  9,  8, -1, -1, -1)
      case 10 => Row(c,  7, 10,  9,  7,  9,  0,  7,  0,  4,  1,  0,  9, -1, -1, -1)
      case 11 => Row(c,  4,  7, 10,  4, 10,  8,  8, 10,  9, -1, -1, -1, -1, -1, -1)
      case 12 => Row(c, 11,  5,  7, 11,  8,  5, 10,  9,  3,  9,  1,  3, -1, -1, -1)
      case 13 => Row(c, 10,  9,  0, 10,  0,  3,  9,  5,  0, 11,  0,  7,  5,  7,  0)
      case 14 => Row(c,  5,  7,  0,  5,  0,  8,  7, 10,  0,  1,  0,  9, 10,  9,  0)
      case _ => Row(c, 10,  9,  5,  7, 10,  5, -1, -1, -1, -1, -1, -1, -1, -1, -1)
  }

  /** `TRI_TABLE[64..80]`. */
  function TriTableBlock4(j: nat, c: nat): int
    requires j < 16 && c < 15
  {
    match j
      case 0 => Row(c,  6,  5,  9, -1, -1, -1, -1, -1, -1, -1, -1, -1, -1, -1, -1)
      case 1 => Row(c,  9,  6,  5,  1,  8,  0, -1, -1, -1, -1, -1, -1, -1, -1, -1)
      case 2 => Row(c,  3,  0, 11,  9,  6,  5, -1, -1, -1, -1, -1, -1, -1, -1, -1)
      case 3 => Row(c,  1, 11,  3,  1,  8, 11,  5,  9,  6, -1, -1, -1, -1, -1, -1)
      case 4 => Row(c,  4,  9,  6,  8,  9,  4, -1, -1, -1, -1, -1, -1, -1, -1, -1)
      case 5 => Row(c,  9,  0,  1,  9,  6,  0,  6,  4,  0, -1, -1, -1, -1, -1, -1)
      case 6 => Row(c,  4,  9,  6,  4,  8,  9,  0, 11,  3, -1, -1, -1, -1, -1, -1)
      case 7 => Row(c,  9,  3,  1,  9,  4,  3,  9,  6,  4,  4, 11,  3, -1, -1, -1)
      case 8 => Row(c,  7, 11,  4,  6,  5,  9, -1, -1, -1, -1, -1, -1, -1, -1, -1)
      case 9 => Row(c,  1,  8,  0,  5,  9,  6, 11,  4,  7, -1, -1, -1, -1, -1, -1)
      case 10 => Row(c,  4,  3,  0,  4,  7,  3,  6,  5,  9, -1, -1, -1, -1, -1, -1)
      case 11 => Row(c,  9,  6,  5,  1,  8,  7,  1,  7,  3,  7,  8,  4, -1, -1, -1)
      case 12 => Row(c,  7,  9,  6,  7, 11,  9, 11,  8,  9, -1, -1, -1, -1, -1, -1)
      case 13 => Row(c,  0,  7, 11,  1,  7,  0,  1,  6,  7,  1,  9,  6, -1, -1, -1)
      case 14 => Row(c,  0,  7,  3,  0,  9,  7,  0,  8,  9,  6,  7,  9, -1, -1, -1)
      case _ => Row(c,  9,  6,  7,  9,  7,  1,  1,  7,  3, -1, -1, -1, -1, -1, -1)
  }

  /** `TRI_TABLE[80..96]`. */
  function TriTableBlock5(j: nat, c: nat): int
    requires j < 16 && c < 15
  {
    match j
      case 0 => Row(c,  6,  1,  2,  5,  1,  6, -1, -1, -1, -1, -1, -1, -1, -1, -1)
      case 1 => Row(c,  8,  6,  5,  8,  0,  6,  0,  2,  6, -1, -1, -1, -1, -1, -1)
      case 2 => Row(c,  1,  6,  5,  1,  2,  6,  3,  0, 11, -1, -1, -1, -1, -1, -1)
      case 3 => Row(c,  3,  8, 11,  3,  6,  8,  3,  2,  6,  5,  8,  6, -1, -1, -1)
      case 4 => Row(c,  1,  4,  8,  1,  2,  4,  2,  6,  4, -1, -1, -1, -1, -1, -1)
      case 5 => Row(c,  2,  6,  0,  6,  4,  0, -1, -1, -1, -1, -1, -1, -1, -1, -1)
      case 6 => Row(c,  3,  0, 11,  1,  2,  8,  2,  4,  8,  2,  6,  4, -1, -1, -1)
      case 7 => Row(c, 11,  3,  2, 11,  2,  4,  4,  2,  6, -1, -1, -1, -1, -1, -1)
      case 8 => Row(c,  6,  1,  2,  6,  5,  1,  4,  7, 11, -1, -1, -1, -1, -1, -1)
      case 9 => Row(c,  7, 11,  4,  6,  5,  0,  6,  0,  2,  0,  5,  8, -1, -1, -1)
      case 10 => Row(c,  3,  0,  7,  7,  0,  4,  1,  2,  6,  1,  6,  5, -1, -1, -1)
      case 11 => Row(c,  7,  3,  8,  7,  8,  4,  3,  2,  8,  5,  8,  6,  2,  6,  8)
      case 12 => Row(c,  7,  2,  6,  7,  8,  2,  7, 11,  8,  8,  1,  2, -1, -1, -1)
      case 13 => Row(c,  7, 11,  0,  7,  0,  6,  6,  0,  2, -1, -1, -1, -1, -1, -1)
      case 14 => Row(c,  2,  6,  8,  2,  8,  1,  6,  7,  8,  0,  8,  3,  7,  3,  8)
      case _ => Row(c,  2,  6,  7,  3,  2,  7, -1, -1, -1, -1, -1, -1, -1, -1, -1)
  }

  /** `TRI_TABLE[96..112]`. */
  function TriTableBlock6(j: nat, c: nat): int
    requires j < 16 && c < 15
  {
    match j
      case 0 => Row(c,  2,  3, 10,  9,  6,  5, -1, -1, -1, -1, -1, -1, -1, -1, -1)
      case 1 => Row(c, 10,  2,  3,  9,  6,  5,  0,  1,  8, -1, -1, -1, -1, -1, -1)
      case 2 => Row(c, 10,  0, 11, 10,  2,  0,  9,  6,  5, -1, -1, -1, -1, -1, -1)
      case 3 => Row(c,  6,  5,  9, 10,  2,  8, 10,  8, 11,  8,  2,  1, -1, -1, -1)
      case 4 => Row(c,  9,  4,  8,  9,  6,  4, 10,  2,  3, -1, -1, -1, -1, -1, -1)
      case 5 => Row(c,  3, 10,  2,  0,  1,  6,  0,  6,  4,  6,  1,  9, -1, -1, -1)
      case 6 => Row(c,  6,  8,  9,  6,  4,  8,  2,  0, 10,  0, 11, 10, -1, -1, -1)
      case 7 => Row(c,  6,  4,  1,  6,  1,  9,  4, 11,  1,  2,  1, 10, 11, 10,  1)
      case 8 => Row(c,  3, 10,  2,  7, 11,  4,  9,  6,  5, -1, -1, -1, -1, -1, -1)
      case 9 => Row(c,  2,  3, 10,  6,  5,  9,  0,  1,  8,  7, 11,  4, -1, -1, -1)
      case 10 => Row(c,  9,  6,  5, 10,  2,  7,  2,  4,  7,  2,  0,  4, -1, -1, -1)
      case 11 => Row(c,  2,  7, 10,  2,  4,  7,  2,  1,  4,  8,  4,  1,  9,  6,  5)
      case 12 => Row(c,  2,  3, 10,  9,  6, 11,  9, 11,  8, 11,  6,  7, -1, -1, -1)
      case 13 => Row(c,  1, 11,  0,  1,  7, 11,  1,  9,  7,  6,  7,  9,  2,  3, 10)
      case 14 => Row(c,  2,  0,  7,  2,  7, 10,  0,  8,  7,  6,  7,  9,  8,  9,  7)
      case _ => Row(c,  9,  6,  7,  9,  7,  1, 10,  2,  7,  2,  1,  7, -1, -1, -1)
  }

  /** `TRI_TABLE[112..128]`. */
  function TriTableBlock7(j: nat, c: nat): int
    requires j < 16 && c < 15
  {
    match j
      case 0 => Row(c,  6,  3, 10,  6,  5,  3,  5,  1,  3, -1, -1, -1, -1, -1, -1)
      case 1 => Row(c,  6,  5,  8, 10,  6,  8, 10,  8,  0, 10,  0,  3, -1, -1, -1)
      case 2 => Row(c,  0, 11, 10,  0, 10,  5,  0,  5,  1,  5, 10,  6, -1, -1, -1)
      case 3 => Row(c,  6,  5,  8,  6,  8, 10, 10,  8, 11, -1, -1, -1, -1, -1, -1)
      case 4 => Row(c, 10,  6,  4, 10,  4,  1, 10,  1,  3,  8,  1,  4, -1, -1, -1)
      case 5 => Row(c,  3, 10,  6,  3,  6,  0,  0,  6,  4, -1, -1, -1, -1, -1, -1)
      case 6 => Row(c, 11, 10,  1, 11,  1,  0, 10,  6,  1,  8,  1,  4,  6,  4,  1)
      case 7 => Row(c, 11, 10,  6,  4, 11,  6, -1, -1, -1, -1, -1, -1, -1, -1, -1)
      case 8 => Row(c, 11,  4,  7,  3, 10,  5,  3,  5,  1,  5, 10,  6, -1, -1, -1)
      case 9 => Row(c, 10,  0,  3, 10,  8,  0, 10,  6,  8,  5,  8,  6,  7, 11,  4)
      case 10 => Row(c,  5,  1, 10,  5, 10,  6,  1,  0, 10,  7, 10,  4,  0,  4, 10)
      case 11 => Row(c,  4,  7, 10,  4, 10,  8,  6,  5, 10,  5,  8, 10, -1, -1, -1)
      case 12 => Row(c, 11,  8,  6, 11,  6,  7,  8,  1,  6, 10,  6,  3,  1,  3,  6)
      case 13 => Row(c,  7, 11,  0,  7,  0,  6,  3, 10,  0, 10,  6,  0, -1, -1, -1)
      case 14 => Row(c, 10,  6,  7,  0,  8,  1, -1, -1, -1, -1, -1, -1, -1, -1, -1)
      case _ => Row(c, 10,  6,  7, -1, -1, -1, -1, -1, -1, -1, -1, -1, -1, -1, -1)
  }

  /** `TRI_TABLE[128..144]`. */
  function TriTableBlock8(j: nat, c: nat): int
    requires j < 16 && c < 15
  {
    match j
      case 0 => Row(c, 10,  7,  6, -1, -1, -1, -1, -1, -1, -1, -1, -1, -1, -1, -1)
      case 1 => Row(c, 10,  7,  6,  0,  1,  8, -1, -1, -1, -1, -1, -1, -1, -1, -1)
      case 2 => Row(c,  3,  0, 11, 10,  7,  6, -1, -1, -1, -1, -1, -1, -1, -1, -1)
      case 3 => Row(c, 11,  1,  8, 11,  3,  1, 10,  7,  6, -1, -1, -1, -1, -1, -1)
      case 4 => Row(c,  6, 10,  7,  5,  4,  8, -1, -1, -1, -1, -1, -1, -1, -1, -1)
      case 5 => Row(c,  5,  0,  1,  5,  4,  0,  7,  6, 10, -1, -1, -1, -1, -1, -1)
      case 6 => Row(c, 10,  7,  6, 11,  3,  0,  5,  4,  8, -1, -1, -1, -1, -1, -1)
      case 7 => Row(c, 10,  7,  6, 11,  3,  4,  3,  5,  4,  3,  1,  5, -1, -1, -1)
      case 8 => Row(c, 11,  6, 10,  4,  6, 11, -1, -1, -1, -1, -1, -1, -1, -1, -1)
      case 9 => Row(c, 11,  6, 10, 11,  4,  6,  8,  0,  1, -1, -1, -1, -1, -1, -1)
      case 10 => Row(c,  3,  6, 10,  3,  0,  6,  0,  4,  6, -1, -1, -1, -1, -1, -1)
      case 11 => Row(c, 10,  4,  6, 10,  1,  4, 10,  3,  1,  8,  4,  1, -1, -1, -1)
      case 12 => Row(c,  6,  8,  5,  6, 10,  8, 10, 11,  8, -1, -1, -1, -1, -1, -1)
      case 13 => Row(c,  0, 10, 11,  0,  5, 10,  0,  1,  5,  5,  6, 10, -1, -1, -1)
      case 14 => Row(c,  6,  8,  5, 10,  8,  6, 10,  0,  8, 10,  3,  0, -1, -1, -1)
      case _ => Row(c,  6, 10,  3,  6,  3,  5,  5,  3,  1, -1, -1, -1, -1, -1, -1)
  }

  /** `TRI_TABLE[144..160]`. */
  function TriTableBlock9(j: nat, c: nat): int
    requires j < 16 && c < 15
  {
    match j
      case 0 => Row(c, 10,  7,  6,  2,  9,  1, -1, -1, -1, -1, -1, -1, -1, -1, -1)
      case 1 => Row(c,  2,  8,  0,  2,  9,  8,  6, 10,  7, -1, -1, -1, -1, -1, -1)
      case 2 => Row(c,  1,  2,  9,  3,  0, 11,  6, 10,  7, -1, -1, -1, -1, -1, -1)
      case 3 => Row(c,  6, 10,  7,  2,  9,  3,  9, 11,  3,  9,  8, 11, -1, -1, -1)
      case 4 => Row(c,  2,  9,  1,  6, 10,  7,  8,  5,  4, -1, -1, -1, -1, -1, -1)
      case 5 => Row(c, 10,  7,  6,  2,  9,  4,  2,  4,  0,  4,  9,  5, -1, -1, -1)
      case 6 => Row(c,  4,  8,  5,  3,  0, 11,  2,  9,  1,  6, 10,  7, -1, -1, -1)
      case 7 => Row(c,  3,  4, 11,  3,  5,  4,  3,  2,  5,  9,  5,  2, 10,  7,  6)
      case 8 => Row(c,  6, 11,  4,  6, 10, 11,  2,  9,  1, -1, -1, -1, -1, -1, -1)
      case 9 => Row(c,  2,  9,  0,  0,  9,  8,  6, 10, 11,  6, 11,  4, -1, -1, -1)
      case 10 => Row(c,  1,  2,  9,  3,  0, 10,  0,  6, 10,  0,  4,  6, -1, -1, -1)
      case 11 => Row(c,  9,  8,  3,  9,  3,  2,  8,  4,  3, 10,  3,  6,  4,  6,  3)
      case 12 => Row(c,  2,  9,  1,  6, 10,  5, 10,  8,  5, 10, 11,  8, -1, -1, -1)
      case 13 => Row(c, 10, 11,  5, 10,  5,  6, 11,  0,  5,  9,  5,  2,  0,  2,  5)
      case 14 => Row(c, 10,  5,  6, 10,  8,  5, 10,  3,  8,  0,  8,  3,  2,  9,  1)
      case _ => Row(c,  6, 10,  3,  6,  3,  5,  2,  9,  3,  9,  5,  3, -1, -1, -1)
  }

  /** `TRI_TABLE[160..176]`. */
  function TriTableBlock10(j: nat, c: nat): int
    requires j < 16 && c < 15
  {
    match j
      case 0 => Row(c,  2,  7,  6,  3,  7,  2, -1, -1, -1, -1, -1, -1, -1, -1, -1)
      case 1 => Row(c,  2,  7,  6,  2,  3,  7,  0,  1,  8, -1, -1, -1, -1, -1, -1)
      case 2 => Row(c,  7,  0, 11,  7,  6,  0,  6,  2,  0, -1, -1, -1, -1, -1, -1)
      case 3 => Row(c,  7,  6,  2,  7,  2,  8,  7,  8, 11,  8,  2,  1, -1, -1, -1)
      case 4 => Row(c,  7,  2,  3,  7,  6,  2,  5,  4,  8, -1, -1, -1, -1, -1, -1)
      case 5 => Row(c,  1,  4,  0,  1,  5,  4,  3,  7,  2,  7,  6,  2, -1, -1, -1)
      case 6 => Row(c,  5,  4,  8,  7,  6, 11,  6,  0, 11,  6,  2,  0, -1, -1, -1)
      case 7 => Row(c,  6,  2, 11,  6, 11,  7,  2,  1, 11,  4, 11,  5,  1,  5, 11)
      case 8 => Row(c, 11,  2,  3, 11,  4,  2,  4,  6,  2, -1, -1, -1, -1, -1, -1)
      case 9 => Row(c,  1,  8,  0,  2,  3,  4,  2,  4,  6,  4,  3, 11, -1, -1, -1)
      case 10 => Row(c,  2,  0,  6,  6,  0,  4, -1, -1, -1, -1, -1, -1, -1, -1, -1)
      case 11 => Row(c,  1,  8,  4,  1,  4,  2,  2,  4,  6, -1, -1, -1, -1, -1, -1)
      case 12 => Row(c,  3, 11,  8,  3,  8,  6,  3,  6,  2,  5,  6,  8, -1, -1, -1)
      case 13 => Row(c,  1,  5, 11,  1, 11,  0,  5,  6, 11,  3, 11,  2,  6,  2, 11)
      case 14 => Row(c,  8,  5,  6,  8,  6,  0,  0,  6,  2, -1, -1, -1, -1, -1, -1)
      case _ => Row(c,  6,  2,  1,  5,  6,  1, -1, -1, -1, -1, -1, -1, -1, -1, -1)
  }

  /** `TRI_TABLE[176..192]`. */
  function TriTableBlock11(j: nat, c: nat): int
    requires j < 16 && c < 15
  {
    match j
      case 0 => Row(c,  9,  7,  6,  9,  1,  7,  1,  3,  7, -1, -1, -1, -1, -1, -1)
      case 1 => Row(c,  0,  3,  7,  0,  7,  9,  0,  9,  8,  6,  9,  7, -1, -1, -1)
      case 2 => Row(c,  0, 11,  7,  1,  0,  7,  1,  7,  6,  1,  6,  9, -1, -1, -1)
      case 3 => Row(c,  7,  6,  9,  7,  9, 11, 11,  9,  8, -1, -1, -1, -1, -1, -1)
      case 4 => Row(c,  8,  5,  4,  9,  1,  6,  1,  7,  6,  1,  3,  7, -1, -1, -1)
      case 5 => Row(c,  4,  0,  9,  4,  9,  5,  0,  3,  9,  6,  9,  7,  3,  7,  9)
      case 6 => Row(c,  1,  6,  9,  1,  7,  6,  1,  0,  7, 11,  7,  0,  8,  5,  4)
      case 7 => Row(c,  5,  4, 11,  5, 11,  9,  7,  6, 11,  6,  9, 11, -1, -1, -1)
      case 8 => Row(c,  9,  1,  3,  9,  3,  4,  9,  4,  6,  4,  3, 11, -1, -1, -1)
      case 9 => Row(c,  4,  6,  3,  4,  3, 11,  6,  9,  3,  0,  3,  8,  9,  8,  3)
      case 10 => Row(c,  9,  1,  0,  9,  0,  6,  6,  0,  4, -1, -1, -1, -1, -1, -1)
      case 11 => Row(c,  4,  6,  9,  8,  4,  9, -1, -1, -1, -1, -1, -1, -1, -1, -1)
      case 12 => Row(c,  1,  3,  6,  1,  6,  9,  3, 11,  6,  5,  6,  8, 11,  8,  6)
      case 13 => Row(c,  3, 11,  0,  9,  5,  6, -1, -1, -1, -1, -1, -1, -1, -1, -1)
      case 14 => Row(c,  8,  5,  6,  8,  6,  0,  9,  1,  6,  1,  0,  6, -1, -1, -1)
      case _ => Row(c,  6,  9,  5, -1, -1, -1, -1, -1, -1, -1, -1, -1, -1, -1, -1)
  }

  /** `TRI_TABLE[192..208]`. */
  function TriTableBlock12(j: nat, c: nat): int
    requires j < 16 && c < 15
  {
    match j
      case 0 => Row(c, 10,  5,  9,  7,  5, 10, -1, -1, -1, -1, -1, -1, -1, -1, -1)
      case 1 => Row(c,  5, 10,  7,  5,  9, 10,  1,  8,  0, -1, -1, -1, -1, -1, -1)
      case 2 => Row(c, 10,  5,  9, 10,  7,  5, 11,  3,  0, -1, -1, -1, -1, -1, -1)
      case 3 => Row(c, 10,  7,  9,  9,  7,  5, 11,  3,  1, 11,  1,  8, -1, -1, -1)
      case 4 => Row(c,  4, 10,  7,  4,  8, 10,  8,  9, 10, -1, -1, -1, -1, -1, -1)
      case 5 => Row(c,  7,  9, 10,  7,  0,  9,  7,  4,  0,  1,  9,  0, -1, -1, -1)
      case 6 => Row(c,  3,  0, 11, 10,  7,  8, 10,  8,  9,  8,  7,  4, -1, -1, -1)
      case 7 => Row(c,  3,  1,  4,  3,  4, 11,  1,  9,  4,  7,  4, 10,  9, 10,  4)
      case 8 => Row(c,  5, 11,  4,  5,  9, 11,  9, 10, 11, -1, -1, -1, -1, -1, -1)
      case 9 => Row(c,  0,  1,  8, 11,  4,  9, 11,  9, 10,  9,  4,  5, -1, -1, -1)
      case 10 => Row(c,  3,  0,  4,  3,  4,  9,  3,  9, 10,  9,  4,  5, -1, -1, -1)
      case 11 => Row(c,  9, 10,  4,  9,  4,  5, 10,  3,  4,  8,  4,  1,  3,  1,  4)
      case 12 => Row(c, 10, 11,  9, 11,  8,  9, -1, -1, -1, -1, -1, -1, -1, -1, -1)
      case 13 => Row(c,  0,  1,  9,  0,  9, 11, 11,  9, 10, -1, -1, -1, -1, -1, -1)
      case 14 => Row(c,  3,  0,  8,  3,  8, 10, 10,  8,  9, -1, -1, -1, -1, -1, -1)
      case _ => Row(c,  3,  1,  9, 10,  3,  9, -1, -1, -1, -1, -1, -1, -1, -1, -1)
  }

  /** `TRI_TABLE[208..224]`. */
  function TriTableBlock13(j: nat, c: nat): int
    requires j < 16 && c < 15
  {
    match j
      case 0 => Row(c, 10,  1,  2, 10,  7,  1,  7,  5,  1, -1, -1, -1, -1, -1, -1)
      case 1 => Row(c, 10,  7,  5, 10,  5,  0, 10,  0,  2,  0,  5,  8, -1, -1, -1)
      case 2 => Row(c, 11,  3,  0, 10,  7,  2,  7,  1,  2,  7,  5,  1, -1, -1, -1)
      case 3 => Row(c,  7,  5,  2,  7,  2, 10,  5,  8,  2,  3,  2, 11,  8, 11,  2)
      case 4 => Row(c,  1,  4,  8,  2,  4,  1,  2,  7,  4,  2, 10,  7, -1, -1, -1)
      case 5 => Row(c, 10,  7,  4, 10,  4,  2,  2,  4,  0, -1, -1, -1, -1, -1, -1)
      case 6 => Row(c,  2,  8,  1,  2,  4,  8,  2, 10,  4,  7,  4, 10,  3,  0, 11)
      case 7 => Row(c, 11,  3,  2, 11,  2,  4, 10,  7,  2,  7,  4,  2, -1, -1, -1)
      case 8 => Row(c,  2,  5,  1,  2, 11,  5,  2, 10, 11,  4,  5, 11, -1, -1, -1)
      case 9 => Row(c,  0,  2,  5,  0,  5,  8,  2, 10,  5,  4,  5, 11, 10, 11,  5)
      case 10 => Row(c,  0,  4, 10,  0, 10,  3,  4,  5, 10,  2, 10,  1,  5,  1, 10)
      case 11 => Row(c,  2, 10,  3,  8,  4,  5, -1, -1, -1, -1, -1, -1, -1, -1, -1)
      case 12 => Row(c,  1,  2, 10,  1, 10,  8,  8, 10, 11, -1, -1, -1, -1, -1, -1)
      case 13 => Row(c, 10, 11,  0,  2, 10,  0, -1, -1, -1, -1, -1, -1, -1, -1, -1)
      case 14 => Row(c,  1,  2, 10,  1, 10,  8,  3,  0, 10,  0,  8, 10, -1, -1, -1)
      case _ => Row(c,  2, 10,  3, -1, -1, -1, -1, -1, -1, -1, -1, -1, -1, -1, -1)
  }

  /** `TRI_TABLE[224..240]`. */
  function TriTableBlock14(j: nat, c: nat): int
    requires j < 16 && c < 15
  {
    match j
      case 0 => Row(c,  2,  5,  9,  2,  3,  5,  3,  7,  5, -1, -1, -1, -1, -1, -1)
      case 1 => Row(c,  0,  1,  8,  2,  3,  9,  3,  5,  9,  3,  7,  5, -1, -1, -1)
      case 2 => Row(c,  9,  2,  0,  9,  0,  7,  9,  7,  5, 11,  7,  0, -1, -1, -1)
      case 3 => Row(c,  8, 11,  2,  8,  2,  1, 11,  7,  2,  9,  2,  5,  7,  5,  2)
      case 4 => Row(c,  2,  8,  9,  2,  7,  8,  2,  3,  7,  7,  4,  8, -1, -1, -1)
      case 5 => Row(c,  3,  7,  9,  3,  9,  2,  7,  4,  9,  1,  9,  0,  4,  0,  9)
      case 6 => Row(c,  8,  9,  7,  8,  7,  4,  9,  2,  7, 11,  7,  0,  2,  0,  7)
      case 7 => Row(c,  2,  1,  9,  7,  4, 11, -1, -1, -1, -1, -1, -1, -1, -1, -1)
      case 8 => Row(c, 11,  4,  5,  3, 11,  5,  3,  5,  9,  3,  9,  2, -1, -1, -1)
      case 9 => Row(c,  3,  9,  2,  3,  5,  9,  3, 11,  5,  4,  5, 11,  0,  1,  8)
      case 10 => Row(c,  5,  9,  2,  5,  2,  4,  4,  2,  0, -1, -1, -1, -1, -1, -1)
      case 11 => Row(c,  5,  9,  2,  5,  2,  4,  1,  8,  2,  8,  4,  2, -1, -1, -1)
      case 12 => Row(c,  2,  3, 11,  2, 11,  9,  9, 11,  8, -1, -1, -1, -1, -1, -1)
      case 13 => Row(c,  0,  1,  9,  0,  9, 11,  2,  3,  9,  3, 11,  9, -1, -1, -1)
      case 14 => Row(c,  2,  0,  8,  9,  2,  8, -1, -1, -1, -1, -1, -1, -1, -1, -1)
      case _ => Row(c,  2,  1,  9, -1, -1, -1, -1, -1, -1, -1, -1, -1, -1, -1, -1)
  }

  /** `TRI_TABLE[240..256]`. */
  function TriTableBlock15(j: nat, c: nat): int
    requires j < 16 && c < 15
  {
    match j
      case 0 => Row(c,  3,  7,  1,  1,  7,  5, -1, -1, -1, -1, -1, -1, -1, -1, -1)
      case 1 => Row(c,  8,  0,  3,  8,  3,  5,  5,  3,  7, -1, -1, -1, -1, -1, -1)
      case 2 => Row(c,  0, 11,  7,  0,  7,  1,  1,  7,  5, -1, -1, -1, -1, -1, -1)
      case 3 => Row(c,  8, 11,  7,  5,  8,  7, -1, -1, -1, -1, -1, -1, -1, -1, -1)
      case 4 => Row(c,  4,  8,  1,  4,  1,  7,  7,  1,  3, -1, -1, -1, -1, -1, -1)
      case 5 => Row(c,  3,  7,  4,  0,  3,  4, -1, -1, -1, -1, -1, -1, -1, -1, -1)
      case 6 => Row(c,  4,  8,  1,  4,  1,  7,  0, 11,  1, 11,  7,  1, -1, -1, -1)
      case 7 => Row(c, 11,  7,  4, -1, -1, -1, -1, -1, -1, -1, -1, -1, -1, -1, -1)
      case 8 => Row(c, 11,  4,  5, 11,  5,  3,  3,  5,  1, -1, -1, -1, -1, -1, -1)
      case 9 => Row(c,  8,  0,  3,  8,  3,  5, 11,  4,  3,  4,  5,  3, -1, -1, -1)
      case 10 => Row(c,  5,  1,  0,  4,  5,  0, -1, -1, -1, -1, -1, -1, -1, -1, -1)
      case 11 => Row(c,  5,  8,  4, -1, -1, -1, -1, -1, -1, -1, -1, -1, -1, -1, -1)
      case 12 => Row(c,  1,  3, 11,  8,  1, 11, -1, -1, -1, -1, -1, -1, -1, -1, -1)
      case 13 => Row(c,  3, 11,  0, -1, -1, -1, -1, -1, -1, -1, -1, -1, -1, -1, -1)
      case 14 => Row(c,  1,  0,  8, -1, -1, -1, -1, -1, -1, -1, -1, -1, -1, -1, -1)
      case _ => Row(c, -1, -1, -1, -1, -1, -1, -1, -1, -1, -1, -1, -1, -1, -1, -1)
  }

  /** The bit of edge `e` in an `EDGE_TABLE` entry; no bit for a number that
      is not an edge. */
  function EdgeBit(e: int): bv16 {
    if e == 0 then 0x1 else if e == 1 then 0x2 else if e == 2 then 0x4 else if e == 3 then 0x8
    else if e == 4 then 0x10 else if e == 5 then 0x20 else if e == 6 then 0x40 else if e == 7 then 0x80
    else if e == 8 then 0x100 else if e == 9 then 0x200 else if e == 10 then 0x400 else if e == 11 then 0x800
    else 0x0
  }

  /** Edge `e` is among the crossed edges of `mask`. */
  predicate Crossed(mask: bv16, e: int) {
    mask & EdgeBit(e) != 0
  }

  /** Every entry of row `i` of `TRI_TABLE` is an edge number 0..11 or -1. */
  predicate RowEntriesAreEdges(i: nat)
    requires i < 256
  {
    forall c :: 0 <= c < 15 ==> -1 <= TriTable(i, c) < 12
  }

  /** Once row `i` reaches -1 it holds only -1. */
  predicate RowPaddedAtEnd(i: nat)
    requires i < 256
  {
    forall c :: 0 < c < 15 && TriTable(i, c - 1) == -1 ==> TriTable(i, c) == -1
  }

  /** The edges of row `i` come in whole triangles: triangle `q` (entries
      3q, 3q + 1, 3q + 2) is either complete or absent. */
  predicate RowWholeTriangles(i: nat)
    requires i < 256
  {
    forall q :: 0 <= q < 5 && TriTable(i, 3 * q) != -1 ==>
      TriTable(i, 3 * q + 1) != -1 && TriTable(i, 3 * q + 2) != -1
  }

  /** Row `i` of `TRI_TABLE` is a run of edge numbers followed only by -1,
      and the run is made of whole triangles. */
  predicate RowIsTriangleRun(i: nat)
    requires i < 256
  {
    RowEntriesAreEdges(i) && RowPaddedAtEnd(i) && RowWholeTriangles(i)
  }

  /** Every edge the triangles of row `i` use is crossed in `EDGE_TABLE[i]`. */
  predicate RowUsesCrossedEdges(i: nat)
    requires i < 256
  {
    forall c :: 0 <= c < 15 && TriTable(i, c) != -1 ==> Crossed(EdgeTable(i), TriTable(i, c))
  }

  lemma EdgeTableSymmetric0()
    ensures forall i :: 0 <= i < 16 ==> EdgeTable(i) == EdgeTable(255 - i) && EdgeTable(i) < 0x1000
  {
  }

  lemma EdgeTableSymmetric1()
    ensures forall i :: 16 <= i < 32 ==> EdgeTable(i) == EdgeTable(255 - i) && EdgeTable(i) < 0x1000
  {
  }

  lemma EdgeTableSymmetric2()
    ensures forall i :: 32 <= i < 48 ==> EdgeTable(i) == EdgeTable(255 - i) && EdgeTable(i) < 0x1000
  {
  }

  lemma EdgeTableSymmetric3()
    ensures forall i :: 48 <= i < 64 ==> EdgeTable(i) == EdgeTable(255 - i) && EdgeTable(i) < 0x1000
  {
  }

  lemma EdgeTableSymmetric4()
    ensures forall i :: 64 <= i < 80 ==> EdgeTable(i) == EdgeTable(255 - i) && EdgeTable(i) < 0x1000
  {
  }

  lemma EdgeTableSymmetric5()
    ensures forall i :: 80 <= i < 96 ==> EdgeTable(i) == EdgeTable(255 - i) && EdgeTable(i) < 0x1000
  {
  }

  lemma EdgeTableSymmetric6()
    ensures forall i :: 96 <= i < 112 ==> EdgeTable(i) == EdgeTable(255 - i) && EdgeTable(i) < 0x1000
  {
  }

  lemma EdgeTableSymmetric7()
    ensures forall i :: 112 <= i < 128 ==> EdgeTable(i) == EdgeTable(255 - i) && EdgeTable(i) < 0x1000
  {
  }

  /** Complementing the sign pattern crosses the same edges, and every entry
      fits in 12 bits, one per cube edge. */
  lemma EdgeTableSymmetric()
    ensures forall i :: 0 <= i < 256 ==> EdgeTable(i) == EdgeTable(255 - i) && EdgeTable(i) < 0x1000
  {
    EdgeTableSymmetric0();
    EdgeTableSymmetric1();
    EdgeTableSymmetric2();
    EdgeTableSymmetric3();
    EdgeTableSymmetric4();
    EdgeTableSymmetric5();
    EdgeTableSymmetric6();
    EdgeTableSymmetric7();
    forall i | 128 <= i < 256
      ensures EdgeTable(i) == EdgeTable(255 - i) && EdgeTable(i) < 0x1000
    {
      assert EdgeTable(255 - i) == EdgeTable(255 - (255 - i));
    }
  }

  lemma TriTableEntries0()
    ensures forall i :: 0 <= i < 16 ==> RowEntriesAreEdges(i)
  {
  }

  lemma TriTablePadded0()
    ensures forall i :: 0 <= i < 16 ==> RowPaddedAtEnd(i)
  {
  }

  lemma TriTableTriangles0()
    ensures forall i :: 0 <= i < 16 ==> RowWholeTriangles(i)
  {
  }

  lemma TriTableCrossed0()
    ensures forall i :: 0 <= i < 16 ==> RowUsesCrossedEdges(i)
  {
  }

  lemma TriTableEntries1()
    ensures forall i :: 16 <= i < 32 ==> RowEntriesAreEdges(i)
  {
  }

  lemma TriTablePadded1()
    ensures forall i :: 16 <= i < 32 ==> RowPaddedAtEnd(i)
  {
  }

  lemma TriTableTriangles1()
    ensures forall i :: 16 <= i < 32 ==> RowWholeTriangles(i)
  {
  }

  lemma TriTableCrossed1()
    ensures forall i :: 16 <= i < 32 ==> RowUsesCrossedEdges(i)
  {
  }

  lemma TriTableEntries2()
    ensures forall i :: 32 <= i < 48 ==> RowEntriesAreEdges(i)
  {
  }

  lemma TriTablePadded2()
    ensures forall i :: 32 <= i < 48 ==> RowPaddedAtEnd(i)
  {
  }

  lemma TriTableTriangles2()
    ensures forall i :: 32 <= i < 48 ==> RowWholeTriangles(i)
  {
  }

  lemma TriTableCrossed2()
    ensures forall i :: 32 <= i < 48 ==> RowUsesCrossedEdges(i)
  {
  }

  lemma TriTableEntries3()
    ensures forall i :: 48 <= i < 64 ==> RowEntriesAreEdges(i)
  {
  }

  lemma TriTablePadded3()
    ensures forall i :: 48 <= i < 64 ==> RowPaddedAtEnd(i)
  {
  }

  lemma TriTableTriangles3()
    ensures forall i :: 48 <= i < 64 ==> RowWholeTriangles(i)
  {
  }

  lemma TriTableCrossed3()
    ensures forall i :: 48 <= i < 64 ==> RowUsesCrossedEdges(i)
  {
  }

  lemma TriTableEntries4()
    ensures forall i :: 64 <= i < 80 ==> RowEntriesAreEdges(i)
  {
  }

  lemma TriTablePadded4()
    ensures forall i :: 64 <= i < 80 ==> RowPaddedAtEnd(i)
  {
  }

  lemma TriTableTriangles4()
    ensures forall i :: 64 <= i < 80 ==> RowWholeTriangles(i)
  {
  }

  lemma TriTableCrossed4()
    ensures forall i :: 64 <= i < 80 ==> RowUsesCrossedEdges(i)
  {
  }

  lemma TriTableEntries5()
    ensures forall i :: 80 <= i < 96 ==> RowEntriesAreEdges(i)
  {
  }

  lemma TriTablePadded5()
    ensures forall i :: 80 <= i < 96 ==> RowPaddedAtEnd(i)
  {
  }

  lemma TriTableTriangles5()
    ensures forall i :: 80 <= i < 96 ==> RowWholeTriangles(i)
  {
  }

  lemma TriTableCrossed5()
    ensures forall i :: 80 <= i < 96 ==> RowUsesCrossedEdges(i)
  {
  }

  lemma TriTableEntries6()
    ensures forall i :: 96 <= i < 112 ==> RowEntriesAreEdges(i)
  {
  }

  lemma TriTablePadded6()
    ensures forall i :: 96 <= i < 112 ==> RowPaddedAtEnd(i)
  {
  }

  lemma TriTableTriangles6()
    ensures forall i :: 96 <= i < 112 ==> RowWholeTriangles(i)
  {
  }

  lemma TriTableCrossed6()
    ensures forall i :: 96 <= i < 112 ==> RowUsesCrossedEdges(i)
  {
  }

  lemma TriTableEntries7()
    ensures forall i :: 112 <= i < 128 ==> RowEntriesAreEdges(i)
  {
  }

  lemma TriTablePadded7()
    ensures forall i :: 112 <= i < 128 ==> RowPaddedAtEnd(i)
  {
  }

  lemma TriTableTriangles7()
    ensures forall i :: 112 <= i < 128 ==> RowWholeTriangles(i)
  {
  }

  lemma TriTableCrossed7()
    ensures forall i :: 112 <= i < 128 ==> RowUsesCrossedEdges(i)
  {
  }

  lemma TriTableEntries8()
    ensures forall i :: 128 <= i < 144 ==> RowEntriesAreEdges(i)
  {
  }

  lemma TriTablePadded8()
    ensures forall i :: 128 <= i < 144 ==> RowPaddedAtEnd(i)
  {
  }

  lemma TriTableTriangles8()
    ensures forall i :: 128 <= i < 144 ==> RowWholeTriangles(i)
  {
  }

  lemma TriTableCrossed8()
    ensures forall i :: 128 <= i < 144 ==> RowUsesCrossedEdges(i)
  {
  }

  lemma TriTableEntries9()
    ensures forall i :: 144 <= i < 160 ==> RowEntriesAreEdges(i)
  {
  }

  lemma TriTablePadded9()
    ensures forall i :: 144 <= i < 160 ==> RowPaddedAtEnd(i)
  {
  }

  lemma TriTableTriangles9()
    ensures forall i :: 144 <= i < 160 ==> RowWholeTriangles(i)
  {
  }

  lemma TriTableCrossed9()
    ensures forall i :: 144 <= i < 160 ==> RowUsesCrossedEdges(i)
  {
  }

  lemma TriTableEntries10()
    ensures forall i :: 160 <= i < 176 ==> RowEntriesAreEdges(i)
  {
  }

  lemma TriTablePadded10()
    ensures forall i :: 160 <= i < 176 ==> RowPaddedAtEnd(i)
  {
  }

  lemma TriTableTriangles10()
    ensures forall i :: 160 <= i < 176 ==> RowWholeTriangles(i)
  {
  }

  lemma TriTableCrossed10()
    ensures forall i :: 160 <= i < 176 ==> RowUsesCrossedEdges(i)
  {
  }

  lemma TriTableEntries11()
    ensures forall i :: 176 <= i < 192 ==> RowEntriesAreEdges(i)
  {
  }

  lemma TriTablePadded11()
    ensures forall i :: 176 <= i < 192 ==> RowPaddedAtEnd(i)
  {
  }

  lemma TriTableTriangles11()
    ensures forall i :: 176 <= i < 192 ==> RowWholeTriangles(i)
  {
  }

  lemma TriTableCrossed11()
    ensures forall i :: 176 <= i < 192 ==> RowUsesCrossedEdges(i)
  {
  }

  lemma TriTableEntries12()
    ensures forall i :: 192 <= i < 208 ==> RowEntriesAreEdges(i)
  {
  }

  lemma TriTablePadded12()
    ensures forall i :: 192 <= i < 208 ==> RowPaddedAtEnd(i)
  {
  }

  lemma TriTableTriangles12()
    ensures forall i :: 192 <= i < 208 ==> RowWholeTriangles(i)
  {
  }

  lemma TriTableCrossed12()
    ensures forall i :: 192 <= i < 208 ==> RowUsesCrossedEdges(i)
  {
  }

  lemma TriTableEntries13()
    ensures forall i :: 208 <= i < 224 ==> RowEntriesAreEdges(i)
  {
  }

  lemma TriTablePadded13()
    ensures forall i :: 208 <= i < 224 ==> RowPaddedAtEnd(i)
  {
  }

  lemma TriTableTriangles13()
    ensures forall i :: 208 <= i < 224 ==> RowWholeTriangles(i)
  {
  }

  lemma TriTableCrossed13()
    ensures forall i :: 208 <= i < 224 ==> RowUsesCrossedEdges(i)
  {
  }

  lemma TriTableEntries14()
    ensures forall i :: 224 <= i < 240 ==> RowEntriesAreEdges(i)
  {
  }

  lemma TriTablePadded14()
    ensures forall i :: 224 <= i < 240 ==> RowPaddedAtEnd(i)
  {
  }

  lemma TriTableTriangles14()
    ensures forall i :: 224 <= i < 240 ==> RowWholeTriangles(i)
  {
  }

  lemma TriTableCrossed14()
    ensures forall i :: 224 <= i < 240 ==> RowUsesCrossedEdges(i)
  {
  }

  lemma TriTableEntries15()
    ensures forall i :: 240 <= i < 256 ==> RowEntriesAreEdges(i)
  {
  }

  lemma TriTablePadded15()
    ensures forall i :: 240 <= i < 256 ==> RowPaddedAtEnd(i)
  {
  }

  lemma TriTableTriangles15()
    ensures forall i :: 240 <= i < 256 ==> RowWholeTriangles(i)
  {
  }

  lemma TriTableCrossed15()
    ensures forall i :: 240 <= i < 256 ==> RowUsesCrossedEdges(i)
  {
  }

  /** Every `TRI_TABLE` row is a run of whole triangles, so it yields at most
      five. */
  lemma TriTableRowsAreTriangleRuns()
    ensures forall i :: 0 <= i < 256 ==> RowIsTriangleRun(i)
  {
    TriTableEntries0();
    TriTablePadded0();
    TriTableTriangles0();
    TriTableEntries1();
    TriTablePadded1();
    TriTableTriangles1();
    TriTableEntries2();
    TriTablePadded2();
    TriTableTriangles2();
    TriTableEntries3();
    TriTablePadded3();
    TriTableTriangles3();
    TriTableEntries4();
    TriTablePadded4();
    TriTableTriangles4();
    TriTableEntries5();
    TriTablePadded5();
    TriTableTriangles5();
    TriTableEntries6();
    TriTablePadded6();
    TriTableTriangles6();
    TriTableEntries7();
    TriTablePadded7();
    TriTableTriangles7();
    TriTableEntries8();
    TriTablePadded8();
    TriTableTriangles8();
    TriTableEntries9();
    TriTablePadded9();
    TriTableTriangles9();
    TriTableEntries10();
    TriTablePadded10();
    TriTableTriangles10();
    TriTableEntries11();
    TriTablePadded11();
    TriTableTriangles11();
    TriTableEntries12();
    TriTablePadded12();
    TriTableTriangles12();
    TriTableEntries13();
    TriTablePadded13();
    TriTableTriangles13();
    TriTableEntries14();
    TriTablePadded14();
    TriTableTriangles14();
    TriTableEntries15();
    TriTablePadded15();
    TriTableTriangles15();
  }

  /** The triangles only use edges that the edge table marks as crossed. */
  lemma TriTableUsesCrossedEdges()
    ensures forall i :: 0 <= i < 256 ==> RowUsesCrossedEdges(i)
  {
    TriTableCrossed0();
    TriTableCrossed1();
    TriTableCrossed2();
    TriTableCrossed3();
    TriTableCrossed4();
    TriTableCrossed5();
    TriTableCrossed6();
    TriTableCrossed7();
    TriTableCrossed8();
    TriTableCrossed9();
    TriTableCrossed10();
    TriTableCrossed11();
    TriTableCrossed12();
    TriTableCrossed13();
    TriTableCrossed14();
    TriTableCrossed15();
  }

  /** A cube whose corners all have the same sign crosses no edge and emits
      no triangle. */
  lemma UniformCellsEmitNothing()
    ensures EdgeTable(0) == 0 && EdgeTable(255) == 0
    ensures forall c :: 0 <= c < 15 ==> TriTable(0, c) == -1 && TriTable(255, c) == -1
  {
    TriTableCrossed0();
    TriTableCrossed15();
    assert RowUsesCrossedEdges(0) && RowUsesCrossedEdges(255);
    forall c | 0 <= c < 15
      ensures TriTable(0, c) == -1 && TriTable(255, c) == -1
    {
      assert forall e :: !Crossed(0, e);
    }
  }

  const EPSILON: real := 0.00001

  function Abs(x: real): real {
    if x < 0.0 then -x else x
  }

  /** `f32::clamp(x, 0.0, 1.0)`. */
  function Clamp01(x: real): (r: real)
    ensures 0.0 <= r <= 1.0
    ensures 0.0 <= x <= 1.0 ==> r == x
  {
    if x < 0.0 then 0.0 else if x > 1.0 then 1.0 else x
  }

  /** `Lerp::lerp` on vectors: `a * (1 - t) + b * t`, component by component. */
  function VecLerp(a: Vec3, b: Vec3, t: real): Vec3 {
    Vec3(Subdivision.Lerp(a.x, b.x, t), Subdivision.Lerp(a.y, b.y, t), Subdivision.Lerp(a.z, b.z, t))
  }

  /** `vert_interp`: where the surface crosses the edge from `p1` (density
      `v1`) to `p2` (density `v2`). A density near zero snaps to its end, as
      does a nearly flat edge; otherwise the zero of the linear interpolation
      of the densities, clamped to the edge. */
  function VertInterp(p1: Vec3, v1: real, p2: Vec3, v2: real): Vec3 {
    if Abs(v1) < EPSILON then p1
    else if Abs(v2) < EPSILON then p2
    else if Abs(v1 - v2) < EPSILON then p1
    else VecLerp(p1, p2, Clamp01(-v1 / (v2 - v1)))
  }

  lemma MulNonNegative(x: real, y: real)
    requires 0.0 <= x && 0.0 <= y
    ensures 0.0 <= x * y
  {
  }

  /** A lerp with `t` in [0, 1] lies between its ends. */
  lemma LerpBetween(a: real, b: real, t: real)
    requires 0.0 <= t <= 1.0
    ensures MinR(a, b) <= Subdivision.Lerp(a, b, t) <= MaxR(a, b)
    ensures t == 0.0 ==> Subdivision.Lerp(a, b, t) == a
    ensures t == 1.0 ==> Subdivision.Lerp(a, b, t) == b
  {
    var d := b - a;
    assert Subdivision.Lerp(a, b, t) == a + d * t;
    if a <= b {
      assert 0.0 <= d * t by { MulNonNegative(d, t); }
      assert d * t <= d by { MulNonNegative(d, 1.0 - t); }
    } else {
      assert d * t <= 0.0 by { MulNonNegative(-d, t); }
      assert d <= d * t by { MulNonNegative(-d, 1.0 - t); }
    }
  }

  /** The result of `vert_interp` lies on the segment from `p1` to `p2`. */
  lemma VertInterpOnSegment(p1: Vec3, v1: real, p2: Vec3, v2: real)
    ensures exists t :: 0.0 <= t <= 1.0 && VertInterp(p1, v1, p2, v2) == VecLerp(p1, p2, t)
    ensures MinR(p1.x, p2.x) <= VertInterp(p1, v1, p2, v2).x <= MaxR(p1.x, p2.x)
    ensures MinR(p1.y, p2.y) <= VertInterp(p1, v1, p2, v2).y <= MaxR(p1.y, p2.y)
    ensures MinR(p1.z, p2.z) <= VertInterp(p1, v1, p2, v2).z <= MaxR(p1.z, p2.z)
  {
    var t: real;
    if Abs(v1) < EPSILON || (Abs(v2) >= EPSILON && Abs(v1 - v2) < EPSILON) {
      t := 0.0;
    } else if Abs(v2) < EPSILON {
      t := 1.0;
    } else {
      t := Clamp01(-v1 / (v2 - v1));
    }
    LerpBetween(p1.x, p2.x, t);
    LerpBetween(p1.y, p2.y, t);
    LerpBetween(p1.z, p2.z, t);
    assert VertInterp(p1, v1, p2, v2) == VecLerp(p1, p2, t);
  }

  /** On an edge whose end densities have opposite signs and are not near
      zero, `vert_interp` returns the point where the linear interpolation of
      the densities is exactly zero; no clamping happens. */
  lemma VertInterpFindsZero(p1: Vec3, v1: real, p2: Vec3, v2: real)
    requires Abs(v1) >= EPSILON && Abs(v2) >= EPSILON && Abs(v1 - v2) >= EPSILON
    requires (v1 < 0.0 < v2) || (v2 < 0.0 < v1)
    ensures var t := -v1 / (v2 - v1);
      && 0.0 < t < 1.0
      && VertInterp(p1, v1, p2, v2) == VecLerp(p1, p2, t)
      && Subdivision.Lerp(v1, v2, t) == 0.0
  {
    var d := v2 - v1;
    var t := -v1 / d;
    assert t * d == -v1;
    if v1 < 0.0 {
      assert 0.0 < -v1 < d;
    } else {
      assert d < -v1 < 0.0;
    }
    assert 0.0 < t < 1.0;
    assert Subdivision.Lerp(v1, v2, t) == v1 + t * d;
  }
}
