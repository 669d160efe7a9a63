# pie-crust core, modelled in Dafny

pie-crust is a sparse voxel terrain. The terrain stores signed densities at the
corners of octree cells. Sculpting tools place or remove material, cells are
subdivided where the surface passes and collapsed where it does not, and
marching cubes turns the cells into a triangle mesh. Several prototype
containers sit side by side, and each is modelled as written:

- `bits.dfy` (module `Bits`): little-endian (`LocalBits`) bit views of machine
  words, as sequences of booleans where bit k weighs 2^k. It models `load`,
  `store`, `fill` and `not_any` of the `bitvec` crate.
- `octant_key.dfy` (`OctantKeys`): the 64-bit `OctantKey`. The depth is in
  bits 59-63, the nineteen 3-bit child indices in bits 0-56, and bits 57-58
  are the "funny bits". The key is a class whose methods rewrite the word in
  place; each method is specified by a function on the word.
- `tree_key.dfy` (`TreeKeys`): the 64-bit `TreeKey`. The depth is in bits 0-4,
  the indices start at bit 5, and the corner field is in bits 61-63.
  `from_u64`, `from_iter` and `corner_keys` are included.
- `linear_octree.dfy` (`LinearOctrees`): `LinearOctree::new`, which seeds a
  map with the corner keys of the root.
- `morton_key.dfy` (`MortonKeys`): the 32-bit Morton key with three
  interleaved 10-bit fields, and the `MortonOctantKey` built on it.
- `geometry.dfy` (`Geometry`): `Vec3` over reals and `CUBE_CORNERS`.
- `subdivide.dfy` (`Subdivision`): `subdivide_values`. It builds the 3x3x3
  grid of 0.5-lerps and regroups it into 8 child cubes.
- `action.dfy` (`Actions`): `Action::apply_value`.
- `aabb.dfy` (`Aabbs`): the axis-aligned boxes, per-axis classification,
  `intersect` and `octree_subdivide`.
- `surface.dfy` (`Surfaces`): the sign-change tests of `intersects_surface`.
- `tool.dfy` (`Tools`): the `Tool` trait as a record of function values, and
  the four-valued box classification the sculpting code matches on.
- `naive_octree.dfy` (`NaiveOctrees`): the pointer tree `NaiveOctreeCell`
  (subdivide, collapse, `apply_tool`, `generate_mesh`) and the `NaiveOctree`
  wrapper class.
- `octant_map.dfy` (`OctantMaps`): the flat `OctantMap`. It is a class whose
  `octants` map and `leaves` set are updated in place. Modelled operations:
  subdivision, collapse, the recursive `apply_tool_recurse` and
  `generate_mesh`.
- `marching_cubes.dfy` (`MarchingCubes`): `EDGE_TABLE` and `TRI_TABLE` entry
  for entry, their consistency, and `vert_interp`.
- `mesh.dfy` (`Meshes`): the `Mesh` class and `Mesh::index`, which
  deduplicates vertices into an index buffer.

Floating-point values (`f32`, `Vec3`) are reals, and zero counts as
non-negative. Integer widths are modelled explicitly where they matter: the
u8 indices truncated by `store`, the 64- and 32-bit words, and the 5-bit depth
fields. Source assertions on a caller's input become `requires`. A panic that
a recursion can reach is modelled as an error result.

Where the code and its documentation disagree, the model follows the code:

- The `Intersects` box of `AABB::intersect` is documented as the overlap
  box. On a `Contains` axis, however, the code copies `other.start.x` and
  `other.end.x` whatever the axis.
- `intersect_axis` reports a range that ends below the other as an inverted
  `Intersects` rather than `DoesNotIntersect`.
- The `TreeKey` layout comment places the funny bits at 60-61 and the corner
  at 62-64. The code writes the corner into 61-63, and the nineteenth index
  into 59-61.
- `set_depth(0)` skips the clearing of stale index bits in both key types.
- The sculpting code matches on an `IntersectType::ContainedBy` that
  `tool/aabb.rs` does not define, so the box classification is a parameter.
- `NaiveOctree` builds its root box as `AABB { start, size }` and reads
  `cell_aabb.size.x`, while `AABB` has fields `start` and `end`. The model
  reads these as the box from the origin with edge `scale`, and as that
  box's x extent.

## Model

| member | source | states |
|---|---|---|
| Bits.Load | src/octant_map/octant_key.rs:69 | `load` reads a bit slice as an unsigned number, least-significant bit first, below 2^width |
| Bits.Store | src/octant_map/octant_key.rs:78 | `store` writes the low bits of the value into the slice and changes no bit outside it |
| Bits.Fill | src/octant_map/octant_key.rs:83-85 | `fill` sets exactly the bits of the range |
| Bits.LoadFromNat | src/octant_map/octant_key.rs:112 | loading back a stored value gives it modulo 2^width, so `store` truncates |
| Bits.FromNatLoad | src/octant_map/octant_key.rs:112 | storing a loaded value rewrites the same bits |
| Bits.LoadStore | src/octant_map/octant_key.rs:112 | storing into a field changes the word's value by the field weight times the change of the field |
| Bits.LoadZeroIffNotAny | src/octant_map/octant_key.rs:59 | a slice is `not_any` exactly when it loads as 0 |
| Bits.LoadAppend | src/octant_map/octant_key.rs:69 | the value of a concatenation weighs the high part by 2^(length of the low part) |
| Bits.LoadInjective | src/octant_map/octant_key.rs:69 | two slices of one width with the same value are the same bits |
| OctantKeys.Depth | src/octant_map/octant_key.rs:68-70 | the depth is bits 59-63, below 32 |
| OctantKeys.WithDepth | src/octant_map/octant_key.rs:72-88 | `set_depth` makes the depth read back as the new depth |
| OctantKeys.WithIndex | src/octant_map/octant_key.rs:103-113 | `set_index` keeps the depth |
| OctantKeys.Pushed | src/octant_map/octant_key.rs:120-131 | `push` raises the depth by one |
| OctantKeys.OctantKey.constructor | src/octant_map/octant_key.rs:31-32 | the default key is the zero word, at depth 0, and passes the sanity check |
| OctantKeys.OctantKey.SetDepth | src/octant_map/octant_key.rs:72-88 | rewrites the word in place to the `set_depth` result |
| OctantKeys.OctantKey.SetIndex | src/octant_map/octant_key.rs:103-113 | rewrites the word in place to the `set_index` result |
| OctantKeys.OctantKey.Push | src/octant_map/octant_key.rs:120-131 | rewrites the word in place to the `push` result; requires depth below 19, the source's overflow assertion |
| OctantKeys.OctantKey.Pop | src/octant_map/octant_key.rs:133-139 | returns the deepest index and leaves the key one level up; requires depth above 0, the source's assertion |
| OctantKeys.RootIsWellFormed | src/octant_map/octant_key.rs:46-66 | the default key passes `_sanity_check` |
| OctantKeys.HighIndexBitClear | src/octant_map/octant_key.rs:53-60 | in a key that passes the check, every index bit from 3·depth to 56 is clear |
| OctantKeys.NoIndexBitsWellFormed | src/octant_map/octant_key.rs:46-66 | a key of depth at most 19 with no index or funny bit set passes the check |
| OctantKeys.RootKeyUnique | src/octant_map/octant_key.rs:46-66 | exactly one word of depth 0 passes the check, the zero word |
| OctantKeys.WithDepthSpec | src/octant_map/octant_key.rs:72-88 | `set_depth(n)` stores n and clears index bits 3n..56 exactly when n is below the old depth and n ≠ 0; other index bits and the funny bits are kept |
| OctantKeys.TruncateKeepsWellFormed | src/octant_map/octant_key.rs:80-86 | truncating a valid key to a nonzero depth keeps it valid and keeps the indices above the new depth |
| OctantKeys.PopToRootLeavesStaleIndex | src/octant_map/octant_key.rs:82 | push(i) then pop from the root returns i but leaves i in bits 0-2 at depth 0, so the key fails the sanity check |
| OctantKeys.PushSpec | src/octant_map/octant_key.rs:120-131 | `push(i)` sets depth d+1, makes `get_index(d+1)` read i mod 8, and changes no other bit below the depth field |
| OctantKeys.PushNewIndex | src/octant_map/octant_key.rs:128-130 | the pushed index is read back at the new depth, truncated to three bits |
| OctantKeys.PushKeepsIndices | src/octant_map/octant_key.rs:128-130 | `push` leaves every index above the new one unchanged |
| OctantKeys.PushKeepsWellFormed | src/octant_map/octant_key.rs:120-131 | `push` keeps a valid key valid |
| OctantKeys.PushPopRoundTrip | src/octant_map/octant_key.rs:133-139 | on a valid key of depth ≥ 1, pop after push(i) returns i mod 8 and restores the key bit for bit |
| OctantKeys.SiblingsDistinct | src/octant_map/octant_key.rs:120-131 | pushing two different indices below 8 onto one key gives two different keys |
| OctantKeys.PushInjective | src/octant_map/octant_key.rs:120-131 | on valid keys, equal pushes come from equal keys and equal indices |
| OctantKeys.SetIndexSpec | src/octant_map/octant_key.rs:103-113 | `set_index(d, v)` makes `get_index(d)` read v mod 8, keeps the depth, the other indices and the funny bits, and keeps a valid key valid |
| OctantKeys.PushValue | src/octant_map/octant_key.rs:120-131 | on a valid key, `push(i)` adds 2^59 plus (i mod 8)·2^(3d) to the word |
| OctantKeys.SetIndexValue | src/octant_map/octant_key.rs:103-113 | `set_index(d, v)` replaces the old index at weight 2^(3(d-1)) by v mod 8 |
| OctantKeys.PopValue | src/octant_map/octant_key.rs:133-139 | on a valid key of depth ≥ 2, `pop` subtracts 2^59 and the deepest index at its weight |
| OctantKeys.EncodingExampleDepth | src/octant_map/octant_key.rs:146-149 | `set_depth(1)` on the default key gives 1<<59, a valid key |
| OctantKeys.EncodingExamplePush | src/octant_map/octant_key.rs:151-154 | then `push(4)` gives 2<<59 \| 4<<3 |
| OctantKeys.EncodingExampleSetIndex | src/octant_map/octant_key.rs:156-159 | then `set_index(1, 7)` adds 7 |
| OctantKeys.EncodingExamplePop | src/octant_map/octant_key.rs:161-165 | then `pop` returns 4 and leaves 1<<59 \| 7, whose first index is 7 |
| TreeKeys.Depth | src/linear_octree/tree_key.rs:98-100 | the depth is bits 0-4, below 32 |
| TreeKeys.FromU64 | src/linear_octree/tree_key.rs:44-47 | `from_u64` returns the word itself when it accepts it |
| TreeKeys.FromU64Spec | src/linear_octree/tree_key.rs:44-47 | `from_u64(n)` is Some exactly when the depth is at most 19, no index bit from 5+3·depth to 59 is set, and bits 60-61 are clear |
| TreeKeys.WellFormedIffHighBitsClear | src/linear_octree/tree_key.rs:68-96 | the chunk-by-chunk sanity check equals "depth ≤ 19, no index bit past the depth, funny bits clear" |
| TreeKeys.HighBitsClearIsWellFormed | src/linear_octree/tree_key.rs:68-96 | a key with clear bits past its depth and clear funny bits passes the check |
| TreeKeys.HighIndexBitClear | src/linear_octree/tree_key.rs:77-87 | in a key that passes the check, every index bit from 5+3·depth to 59 is clear |
| TreeKeys.WithDepth | src/linear_octree/tree_key.rs:102-116 | `set_depth` makes the depth read back as the new depth |
| TreeKeys.WithIndex | src/linear_octree/tree_key.rs:131-141 | `set_index` keeps the depth |
| TreeKeys.WithCorner | src/linear_octree/tree_key.rs:143-149 | `set_corner` keeps the depth |
| TreeKeys.Pushed | src/linear_octree/tree_key.rs:162-171 | `push` raises the depth by one |
| TreeKeys.TreeKey.constructor | src/linear_octree/tree_key.rs:37-41 | the default key is the zero word, at depth 0, and passes the check |
| TreeKeys.TreeKey.SetDepth | src/linear_octree/tree_key.rs:102-116 | rewrites the word in place to the `set_depth` result |
| TreeKeys.TreeKey.SetIndex | src/linear_octree/tree_key.rs:131-141 | rewrites the word in place to the `set_index` result |
| TreeKeys.TreeKey.SetCorner | src/linear_octree/tree_key.rs:143-149 | rewrites the word in place to the `set_corner` result; requires a corner below 8, as the source asserts |
| TreeKeys.TreeKey.Push | src/linear_octree/tree_key.rs:162-171 | rewrites the word in place to the `push` result; requires depth below 19, the source's overflow assertion |
| TreeKeys.TreeKey.Pop | src/linear_octree/tree_key.rs:173-179 | returns the deepest index and leaves the key one level up |
| TreeKeys.TreeKey.CornerKeys | src/linear_octree/tree_key.rs:60-66 | 8 copies differing only in the corner field, copy i with corner i, pairwise distinct; from a valid key, exactly the even corners give valid keys |
| TreeKeys.FromIter | src/linear_octree/tree_key.rs:49-58 | depth = path length, corner = c, `get_index(k)` = path[k-1] mod 8 below depth 19; at depth 19 the corner's low bit overwrites the index's top bit; the key is valid iff c is even and, at depth 19, the last index mod 4 < 2 |
| TreeKeys.PushPathStep | src/linear_octree/tree_key.rs:52-54 | one step of the `from_iter` loop extends the pushed prefix by one index |
| TreeKeys.CornerAfterPath | src/linear_octree/tree_key.rs:55-57 | what `from_iter` reads back once the path is pushed and the corner set |
| TreeKeys.LastPathIndex | src/linear_octree/tree_key.rs:55 | at depth 19 the last index after the corner store is index mod 4 + 4·(corner mod 2) |
| TreeKeys.RootIsWellFormed | src/linear_octree/tree_key.rs:200-203 | the default key passes the check |
| TreeKeys.FromU64Examples | src/linear_octree/tree_key.rs:205-221 | word 0 is accepted; words with a funny bit set, with an index past depth 4, or with depth 20 are rejected |
| TreeKeys.WithDepthSpec | src/linear_octree/tree_key.rs:102-116 | `set_depth(n)` stores n and clears index bits 5+3n .. 4+3·old exactly when n is below the old depth and n ≠ 0, and changes nothing else |
| TreeKeys.TruncateKeepsWellFormed | src/linear_octree/tree_key.rs:110-115 | truncating a valid key to a nonzero depth keeps it valid and keeps the indices above the new depth |
| TreeKeys.PopToRootLeavesStaleIndex | src/linear_octree/tree_key.rs:112 | push(i) then pop from the root leaves i in bits 5-7 at depth 0, so the key fails the check |
| TreeKeys.PushSpec | src/linear_octree/tree_key.rs:162-171 | `push(i)` sets depth d+1, stores i mod 8 in bits 5+3d..7+3d, and changes no other bit above the depth field |
| TreeKeys.PushOntoClearTail | src/linear_octree/tree_key.rs:162-171 | pushing onto a key whose bits past the depth are clear keeps them clear past the new depth and keeps the earlier indices |
| TreeKeys.PushKeepsWellFormed | src/linear_octree/tree_key.rs:162-171 | below depth 18, `push` keeps a valid key valid |
| TreeKeys.DeepestFieldFunnyBits | src/linear_octree/tree_key.rs:169-170 | the nineteenth index field, bits 59-61, covers both funny bits; a store there leaves them clear iff the index mod 8 < 2 |
| TreeKeys.DeepestPushFunnyBits | src/linear_octree/tree_key.rs:169-170 | pushing onto depth 18 gives a valid key iff the index mod 8 < 2 |
| TreeKeys.DeepestIndexSharesCornerBit | src/linear_octree/tree_key.rs:147 | at depth 19 the top bit of the last index is the low bit of the corner (bit 61) |
| TreeKeys.PushPopRoundTrip | src/linear_octree/tree_key.rs:173-179 | on a valid key of depth ≥ 1, pop after push(i) returns i mod 8 and restores the key |
| TreeKeys.PopAfterPushBits | src/linear_octree/tree_key.rs:173-179 | above the depth field, popping a pushed index restores every bit |
| TreeKeys.SetIndexSpec | src/linear_octree/tree_key.rs:131-141 | `set_index(d, v)` makes `get_index(d)` read v mod 8 and changes no other bit; a valid key stays valid unless d = 19 and v mod 8 ≥ 2 |
| TreeKeys.SetCornerSpec | src/linear_octree/tree_key.rs:143-155 | `corner()` reads c after `set_corner(c)` and bits 0-60 are kept; the result is valid iff the key was and c is even |
| TreeKeys.ModifyExample | src/linear_octree/tree_key.rs:182-198 | the test's sequence from_u64, set_depth(1), push(4), set_index(1, 7), pop keeps the key valid, pop returns 4, and `get_index(1)` is then 7 |
| TreeKeys.ExampleKeyAccepted | src/linear_octree/tree_key.rs:184-187 | the test's word is accepted and stays valid after `set_depth(1)` |
| TreeKeys.ExampleSteps | src/linear_octree/tree_key.rs:188-197 | from a valid key of depth 1, the test's remaining steps keep it valid, and pop returns 4 |
| TreeKeys.ExampleSetIndex | src/linear_octree/tree_key.rs:191-193 | `set_index(1, 7)` at depth 2 keeps the key valid and keeps index 2 |
| TreeKeys.ExamplePop | src/linear_octree/tree_key.rs:194-197 | `pop` returns 4 and leaves a valid key whose first index is 7 |
| LinearOctrees.LinearOctree.constructor | src/linear_octree/mod.rs:12-21 | `new` stores exactly 8 entries: the 8 corner keys of the default key (the words with nothing set below the corner field), each mapped to -1 |
| LinearOctrees.RootCornerKeys | src/linear_octree/mod.rs:14 | the root's corner keys are the 8 corner stores into the zero word, pairwise distinct |
| LinearOctrees.RootCornerKeysSpec | src/linear_octree/mod.rs:14 | keys that agree with the zero word below the corner field and carry corners 0..7 are the corner stores, and they are all words with nothing set below the corner field |
| LinearOctrees.SameFieldsSameKey | src/linear_octree/mod.rs:16 | two keys with the same low bits and the same corner are equal, so the no-duplicate insert assertion holds |
| MortonKeys.RootKey | src/morton/key.rs:40-42 | the root Morton word has no bit set |
| MortonKeys.Position | src/morton/key.rs:44-52 | the three 10-bit fields are each at most `MAX_POSITION` = 1023 |
| MortonKeys.Root | src/morton/key.rs:70-75 | the root key is the zero word at depth 0 |
| MortonKeys.RootSpec | src/morton/key.rs:122-128 | the root is at position (0, 0, 0), at the root and not at the maximum depth |
| MortonKeys.Sibling | src/morton/key.rs:91-101 | `sibling(c)` writes bits 0, 1, 2 of c at offset depth in the x, y and z fields and keeps every other bit and the depth |
| MortonKeys.Child | src/morton/key.rs:77-82 | `child(c)` is one level deeper |
| MortonKeys.Parent | src/morton/key.rs:84-89 | `parent` is one level up |
| MortonKeys.ChildSpec | src/morton/key.rs:77-82 | `child(c)` writes c's bits at offset depth+1 of the three fields and keeps all other bits |
| MortonKeys.ParentChildRoundTrip | src/morton/key.rs:77-89 | `parent(child(k, c))` = k exactly when k's bits at offset depth(k)+1 are clear |
| MortonKeys.SiblingSameParent | src/morton/key.rs:84-101 | siblings share their parent |
| MortonKeys.Children | src/morton/key.rs:130-141 | `children()` has 8 entries |
| MortonKeys.ChildrenSpec | src/morton/key.rs:130-141 | all children are one level deeper, keep every other bit, and are pairwise distinct |
| MortonKeys.ChildrenDiffer | src/morton/key.rs:130-141 | children with different corner numbers below 8 differ |
| MortonKeys.Corners | src/morton/key.rs:143-154 | `corners()` has 8 entries |
| MortonKeys.CornerSpec | src/morton/key.rs:103-116 | `corner(c)` keeps field bits below the depth, sets field bits depth..8 to c's bit for that axis, and leaves bits 9, 19, 29 and the top bits untouched |
| MortonKeys.CornersAtMaxDepth | src/morton/key.rs:143-154 | at depth 9 every fill range is empty, so all corners are the key itself |
| Geometry.CubeCornersZOrder | src/lib.rs:12-22 | corner c of the unit cube has the bits of c as its x, y, z coordinates |
| Subdivision.Mid | src/utils.rs:95 | a 0.5-lerp is the mean of its ends |
| Subdivision.Grid | src/utils.rs:52-141 | the grid has 27 points |
| Subdivision.MakeCell | src/utils.rs:143-154 | a `make_cell` result has 8 values |
| Subdivision.SubdivideValues | src/utils.rs:156-165 | 8 children of 8 values each |
| Subdivision.OffsetsZOrder | src/utils.rs:143-154 | the `make_cell` offsets are x + 3y + 9z of the Z-order bits |
| Subdivision.ChildCornerIsGridPoint | src/utils.rs:143-165 | corner k of child c is grid point off(c) + off(k), so neighbouring children agree on shared corners |
| Subdivision.GridIsTrilinear | src/utils.rs:52-141 | grid point x + 3y + 9z is the trilinear interpolation of the corners at (x/2, y/2, z/2) |
| Subdivision.ChildCornerIsTrilinear | src/utils.rs:41-165 | every output value is the trilinear interpolation of the parent corners at its position |
| Subdivision.ChildCorners | src/utils.rs:141-165 | child c keeps parent corner c, and its corner 7-c is the centre `points[13]` |
| Subdivision.CentreIsMean | src/utils.rs:129-141 | the centre is the mean of the 8 corners; grid point 4 is the mean of corners 0-3 |
| Subdivision.GridBounds | src/utils.rs:95-141 | every grid point lies between bounds of the 8 inputs |
| Subdivision.SubdivideBounds | src/utils.rs:41-165 | every one of the 64 outputs lies between bounds of the 8 inputs |
| Subdivision.SubdivideConstant | src/utils.rs:52-165 | 8 equal inputs v give 64 outputs equal to v |
| Actions.ApplyValue | src/tool/action.rs:10-20 | Place gives max(point, val), which is ≥ both; Remove gives min(point, -val), which is ≤ both |
| Actions.ApplyValueIdempotent | src/tool/action.rs:10-20 | applying the same action with the same value twice equals applying it once |
| Actions.ApplyValueMonotone | src/tool/action.rs:10-20 | both actions are monotone in the density; Place never lowers it and Remove never raises it |
| Actions.ApplyValueUnchangedIff | src/tool/action.rs:10-20 | the density is unchanged exactly when point ≥ val (Place) or point ≤ -val (Remove) |
| Actions.RemoveZeroCaps | src/tool/action.rs:17 | Remove with val = 0 caps positive densities at 0 |
| Aabbs.ContainsSpec | src/tool/aabb.rs:35-44 | `contains(p)` iff start ≤ p ≤ end on every axis |
| Aabbs.ExpandSpec | src/tool/aabb.rs:24-28 | after `expand(v)` the box contains v and every point it contained |
| Aabbs.ExpandIsSmallest | src/tool/aabb.rs:24-28 | any box holding the old corners and v holds the expanded box's corners |
| Aabbs.FromExtentsSpec | src/tool/aabb.rs:46-52 | the box has size `extents` and centre `pos`, and contains `pos` iff the extents are non-negative |
| Aabbs.FromRadiusSpec | src/tool/aabb.rs:54-59 | the box has size 2r on each axis and contains p iff p is within r of pos on each axis |
| Aabbs.CalculateCorners | src/tool/aabb.rs:61-68 | 8 corners; requires a non-negative size |
| Aabbs.CalculateCornersSpec | src/tool/aabb.rs:61-68 | corner 0 is start; the results are the true corners start + size·offset exactly when start = 0 |
| Aabbs.CornersAtOrigin | src/tool/aabb.rs:61-68 | for a box at the origin the computed corners are the true ones |
| Aabbs.CornerSeven | src/tool/aabb.rs:63-65 | corner 7 is computed as start + end, while the true corner 7 is end |
| Aabbs.IntersectAxisSpec | src/tool/aabb.rs:75-95 | `Contains` iff range1 covers range2; `DoesNotIntersect` iff range2 starts strictly below range1 and ends at or before range1's start; otherwise `Intersects` carries [larger start, smaller end], a proper range iff range2 starts at or before range1's end |
| Aabbs.IntersectAxisBelow | src/tool/aabb.rs:85 | a range1 wholly below range2 gives `Intersects(start2, end1)`, an inverted range |
| Aabbs.Axes | src/tool/aabb.rs:100-113 | one classification per axis |
| Aabbs.Intersect | src/tool/aabb.rs:97-147 | the loop of `intersect` computes the `Intersection` value |
| Aabbs.IntersectionDisjointIff | src/tool/aabb.rs:115-117 | `DoesNotIntersect` exactly when on some axis b starts strictly below a and ends at or before a's start |
| Aabbs.IntersectionContainsIff | src/tool/aabb.rs:118-120 | `Contains` exactly when a contains both corners of b |
| Aabbs.IntersectionSelf | src/tool/aabb.rs:97-120 | a valid box contains itself |
| Aabbs.IntersectionBoxIff | src/tool/aabb.rs:121-146 | the `Intersects` box is the true overlap exactly when every `Contains` axis has the same bounds as b's x axis |
| Aabbs.IntersectionWrongAxisExample | src/tool/aabb.rs:128-131 | concrete boxes for which the `Intersects` box is not the overlap |
| Aabbs.IntersectionBelowExample | src/tool/aabb.rs:85 | two disjoint boxes, the first below the second, classified `Intersects` |
| Aabbs.Octants | src/tool/aabb.rs:149-165 | `octree_subdivide` yields 8 boxes |
| Aabbs.OctreeSubdivide | src/tool/aabb.rs:149-165 | the push loop computes the `Octants` value |
| Aabbs.OctantsSpec | src/tool/aabb.rs:149-165 | every octant has half the parent's size; octant 0 starts at start and octant 7 ends at end; octants of a valid box are valid and inside it |
| Aabbs.OctantInside | src/tool/aabb.rs:153-161 | octant i has half the size and lies inside a valid parent |
| Aabbs.OctantBox | src/tool/aabb.rs:153-161 | the box at a unit-cube corner offset is valid and inside the parent |
| Aabbs.OctantOf | src/tool/aabb.rs:153-155 | proof helper for `OctantsCover`, not a source function: it picks, per axis, the lower or upper half of the box that holds a point, and numbers the octant like the `octree_subdivide` loop (a number below 8) |
| Aabbs.OctantsCover | src/tool/aabb.rs:149-165 | every point of the box lies in some octant |
| Surfaces.Signum | src/naive_octree.rs:71 | `signum` is 1 for values ≥ 0 and -1 for negative values |
| Surfaces.SignTestsAgree | src/naive_octree.rs:70-72 | the signum test and the `is_sign_negative` test find the same sign changes |
| Surfaces.NegativityChangeIff | src/octant_map/mod.rs:49-52 | the windowed test fires exactly when some value's sign differs from the first value's |
| Surfaces.NoChangeSameSign | src/octant_map/mod.rs:51 | without a change between neighbours, every value has the first value's sign |
| Tools.ApplyAtCorners | src/naive_octree.rs:80-85 | Place raises every corner to at least the tool's value there; Remove lowers every corner to at most its negation |
| NaiveOctrees.Default | src/naive_octree.rs:15-23 | a leaf at depth 0 with all 8 values -1, not intersecting the surface |
| NaiveOctrees.SubdivideCell | src/naive_octree.rs:26-56 | no-op with children; otherwise child i is a leaf at depth+1 holding `subdivide_values(values)[i]`, and the values are kept |
| NaiveOctrees.SubdivideCellSpec | src/naive_octree.rs:26-56 | subdividing a leaf keeps the cell well-formed; child i keeps parent corner i and shares the centre |
| NaiveOctrees.SubdivideCellSpec2 | src/naive_octree.rs:26-56 | subdividing any well-formed cell keeps it well-formed |
| NaiveOctrees.CollapseCell | src/naive_octree.rs:58-60 | the result is a leaf with the same values and depth |
| NaiveOctrees.NewValues | src/naive_octree.rs:80-85 | 8 new values |
| NaiveOctrees.ChildrenBefore | src/naive_octree.rs:97-105 | the children `apply_tool` recurses into: 8 well-formed cells one level deeper, the cell's own when it has them |
| NaiveOctrees.ApplyToolCell | src/naive_octree.rs:74-121 | the result is well-formed, keeps the depth, and holds the new values computed from the old ones |
| NaiveOctrees.ApplyToolCellChildren | src/naive_octree.rs:103-120 | a result with children had them or passed the guard; its children are not 8 leaves all free of the surface; child i holds the new values of the old child i over octant box i |
| NaiveOctrees.ApplyToolKeepsBound | src/naive_octree.rs:97-105 | a tree with no cell deeper than max_depth stays so |
| NaiveOctrees.ApplyToolLeafAtMaxDepth | src/naive_octree.rs:97 | a leaf at or below max_depth stays a leaf and only takes the new values |
| NaiveOctrees.MarchedCells | src/naive_octree.rs:123-138 | every marched cell is a leaf or at least max_depth deep, and the cell itself is marched iff it is a leaf or at depth ≥ max_depth |
| NaiveOctrees.ChildCells | src/naive_octree.rs:126-133 | the cells marched under the first n children lie strictly below the cell |
| NaiveOctrees.MarchAllAppend | src/naive_octree.rs:137 | the emitted vertices of two lists of cells concatenate |
| NaiveOctrees.GenerateMeshCell | src/naive_octree.rs:123-138 | appends the marching-cubes output of the marched cells, in child order with the `octree_subdivide` boxes |
| NaiveOctrees.GenerateMeshChildren | src/naive_octree.rs:127-132 | the recursion over the children appends their marched cells in index order |
| NaiveOctrees.RootBox | src/naive_octree.rs:176 | the root box is valid with size `scale` on every axis |
| NaiveOctrees.NaiveOctree.constructor | src/naive_octree.rs:168-173 | a default root cell and the given scale |
| NaiveOctrees.NaiveOctree.ApplyTool | src/naive_octree.rs:175-177 | the root becomes `apply_tool` of the old root with the root box |
| NaiveOctrees.NaiveOctree.GenerateMesh | src/naive_octree.rs:179-187 | the vertices are the marching-cubes output of the marched cells |
| OctantMaps.LeavesHaveNoChildren | src/octant_map/mod.rs:283-285 | under the map invariant no leaf below the maximum key depth has children |
| OctantMaps.ChildrenPresent | src/octant_map/mod.rs:40-43 | a key whose child 0 is present has all 8 children present |
| OctantMaps.NoChildrenAtAll | src/octant_map/mod.rs:40-43 | without child 0 a valid key has no children in the map at all |
| OctantMaps.ChildEntriesKeys | src/octant_map/mod.rs:85-90 | inserting the first n children adds exactly their keys |
| OctantMaps.ChildEntriesValues | src/octant_map/mod.rs:85-90 | each inserted child holds its own values |
| OctantMaps.ChildEntriesFrame | src/octant_map/mod.rs:85-90 | inserting children leaves every other entry alone |
| OctantMaps.SubdividedSpec | src/octant_map/mod.rs:81-92 | subdivision keeps the invariant and every old entry; when it acts it adds exactly the 8 children as leaves holding the `subdivide_values` output and takes the cell out of the leaf set |
| OctantMaps.SubdividedFrame | src/octant_map/mod.rs:81-92 | subdivision changes nothing at or above the cell's depth and adds keys only one level below it |
| OctantMaps.CollapsibleFacts | src/octant_map/mod.rs:54-60 | a collapsible cell is present, one level above its children, and none of its children has children |
| OctantMaps.CollapsedSpec | src/octant_map/mod.rs:64-74 | collapse keeps the invariant and the surviving values; when the cell is collapsible it removes exactly its 8 children and makes the cell a leaf |
| OctantMaps.CollapsedFrame | src/octant_map/mod.rs:64-74 | collapse changes nothing at or above the cell's depth and only removes keys |
| OctantMaps.CollapsedLeaves | src/octant_map/mod.rs:67-73 | removing the 8 children and adding the cell to the leaves keeps the exact leaf set |
| OctantMaps.ChildStepFrame | src/octant_map/mod.rs:141 | one child's stroke leaves the parent's entry, its child 0 and everything no deeper than the parent as they were |
| OctantMaps.ChildDepths | src/octant_map/mod.rs:58 | every child key is one level deeper than its parent |
| OctantMaps.RootKey | src/octant_map/mod.rs:28 | the default key is valid at depth 0 |
| OctantMaps.NewMapValid | src/octant_map/mod.rs:27-38 | the root alone, as a leaf, satisfies the map invariant |
| OctantMaps.StoreKeepsValid | src/octant_map/mod.rs:134 | overwriting a present key's values keeps the keys and the invariant |
| OctantMaps.StrokeValues | src/octant_map/mod.rs:110-115 | 8 new values |
| OctantMaps.SubdivideGuard | src/octant_map/mod.rs:127-132 | for convex tools the depth, depth-limit and leaf checks gate subdivision; a concave tool whose area of effect meets the box subdivides at any depth |
| OctantMaps.ClippedBoxes | src/octant_map/mod.rs:150-166 | None exactly when the area of effect misses the root box, or the action is Place and the tool box misses it; `ContainedBy` clips to the root box and `Contains` keeps the tool box |
| OctantMaps.MarchedAreLeaves | src/octant_map/mod.rs:254-263 | when no key is deeper than the limit, the marched entries are exactly the leaves |
| OctantMaps.OctantMap.constructor | src/octant_map/mod.rs:27-38 | only the root key, mapped to eight -1 values, with leaves = {root} |
| OctantMaps.OctantMap.SubdivideWithOldValues | src/octant_map/mod.rs:81-92 | the new state is the `Subdivided` state, and the invariant holds |
| OctantMaps.OctantMap.InsertChildren | src/octant_map/mod.rs:84-90 | the loop inserts the 8 children with their values and adds them to the leaves |
| OctantMaps.OctantMap.SubdivideCell | src/octant_map/mod.rs:76-79 | subdivides with the cell's current values |
| OctantMaps.OctantMap.CollapseCell | src/octant_map/mod.rs:64-74 | the new state is the `Collapsed` state, and the invariant holds |
| OctantMaps.OctantMap.RemoveChildren | src/octant_map/mod.rs:67-71 | the loop removes the 8 children from the map and the leaves |
| OctantMaps.OctantMap.ApplyToolAtOctant | src/octant_map/mod.rs:98-148 | on success the invariant holds, the octant holds its stroke values, nothing at or above its depth changes, and a cell left with children is not collapsible; a concave tool whose area of effect meets every box always panics; a convex stroke under a depth limit below 19 succeeds and keeps the map within the limit |
| OctantMaps.OctantMap.StrokeAndSubdivide | src/octant_map/mod.rs:110-134 | the octant ends with the stroke values and nothing above it changes |
| OctantMaps.OctantMap.SubdivideForStroke | src/octant_map/mod.rs:125-132 | subdivision under the guard keeps the octant's values and the frame above it |
| OctantMaps.OctantMap.StoreValues | src/octant_map/mod.rs:134 | only the octant's entry changes |
| OctantMaps.OctantMap.CollapseIfCollapsible | src/octant_map/mod.rs:143-146 | afterwards a cell with children is not collapsible, and nothing above changes |
| OctantMaps.OctantMap.ApplyToChildren | src/octant_map/mod.rs:136-142 | the 8 children are visited in order; the parent's entry and everything above stay as they were |
| OctantMaps.OctantMap.ApplyToolRecurse | src/octant_map/mod.rs:94-169 | no change when the clipped boxes miss; otherwise the root holds its stroke values and the invariant holds; a convex stroke under a depth limit below 19 keeps the map within the limit |
| OctantMaps.OctantMap.GenerateMesh | src/octant_map/mod.rs:254-269 | marches exactly the entries at the depth limit or that are leaves above it, each once, in the map's order |
| Meshes.DedupElements | src/mesh.rs:136-149 | deduplication keeps exactly the vertices that occur, each once, and never lengthens the sequence |
| Meshes.DedupNewVertex | src/mesh.rs:140-144 | a new vertex's index is the number of distinct vertices before it |
| Meshes.DedupCount | src/mesh.rs:149 | the new vertex count is the number of distinct original vertices |
| Meshes.DedupOfDistinct | src/mesh.rs:136-149 | vertices without repeats are left as they are |
| Meshes.DedupIdempotent | src/mesh.rs:136-149 | deduplicating twice is deduplicating once |
| Meshes.DedupPrefix | src/mesh.rs:138-146 | the deduplication of a prefix is a prefix of the deduplication |
| Meshes.IndicesDetermined | src/mesh.rs:141-145 | an index naming vertex j in a repeat-free sequence is its first position |
| Meshes.Mesh.constructor | src/mesh.rs:19-24 | a fresh, unindexed mesh |
| Meshes.Mesh.Index | src/mesh.rs:130-174 | no-op when indexed; otherwise one index per old vertex, each below the new count, naming the old vertex; the new vertices are the first-occurrence deduplication |
| Meshes.BuildVertexMap | src/mesh.rs:136-146 | `vert_map` numbers the distinct vertices by first occurrence, and the index buffer names each vertex's position |
| Meshes.OverwriteVertices | src/mesh.rs:165-173 | overwriting in the map's arbitrary order yields the deduplicated vertices |
| MarchingCubes.EdgeTableSymmetric | src/marching_cubes.rs:4-37 | `EDGE_TABLE[i]` = `EDGE_TABLE[255-i]`, and every entry fits in 12 bits |
| MarchingCubes.TriTableRowsAreTriangleRuns | src/marching_cubes.rs:39-296 | every row is edge numbers 0..11 followed only by -1, in whole triangles |
| MarchingCubes.TriTableUsesCrossedEdges | src/marching_cubes.rs:4-296 | every edge in `TRI_TABLE[i]` has its bit set in `EDGE_TABLE[i]` |
| MarchingCubes.UniformCellsEmitNothing | src/marching_cubes.rs:4-296 | entries 0 and 255 of the edge table are 0, and rows 0 and 255 of the triangle table are all -1 |
| MarchingCubes.Clamp01 | src/marching_cubes.rs:304 | `clamp(0, 1)` lies in [0, 1] and keeps a value already there |
| MarchingCubes.LerpBetween | src/marching_cubes.rs:305 | a lerp with t in [0, 1] lies between its ends |
| MarchingCubes.VertInterpOnSegment | src/marching_cubes.rs:298-306 | the result is the lerp of p1 and p2 at some t in [0, 1], so it lies in their bounding box |
| MarchingCubes.VertInterpFindsZero | src/marching_cubes.rs:303-305 | on a non-degenerate edge with opposite end signs, t = -v1/(v2-v1) lies strictly inside, is not clamped, and the lerped density there is 0 |

Definitions without a contract of their own, and the rows that state their meaning:

- `OctantMaps.HasChildrenIn` (src/octant_map/mod.rs:40-43) is stated by `ChildrenPresent`, `NoChildrenAtAll` and `LeavesHaveNoChildren`.
- `OctantMaps.IntersectsSurfaceIn` (src/octant_map/mod.rs:49-52) applies `Surfaces.NegativityChange` to an entry, stated by `Surfaces.NegativityChangeIff`.
- `OctantMaps.IsCollapsibleIn` (src/octant_map/mod.rs:54-60) is stated by `CollapsibleFacts` and `CollapsedSpec`.
- `OctantMaps.Subdivided` (src/octant_map/mod.rs:81-92) is stated by `SubdividedSpec` and `SubdividedFrame`.
- `OctantMaps.Collapsed` (src/octant_map/mod.rs:64-74) is stated by `CollapsedSpec` and `CollapsedFrame`.
- `OctantMaps.Marched` (src/octant_map/mod.rs:257) is the `generate_mesh` filter, stated by `MarchedAreLeaves` and `OctantMap.GenerateMesh`.
- `NaiveOctrees.IsLeaf`, `HasChildren` and `IntersectsSurface` (src/naive_octree.rs:62-72) are used by every `NaiveOctrees` row; `IntersectsSurface` is `Surfaces.SignumChange`, stated by `Surfaces.SignTestsAgree`.
- `NaiveOctrees.SubdivideGuard` (src/naive_octree.rs:96-99) is stated by `ApplyToolCellChildren` and `ApplyToolKeepsBound`.
- `NaiveOctrees.Collapsible` (src/naive_octree.rs:116-119) is stated by `ApplyToolCellChildren`.
- `Aabbs.Contains` (src/tool/aabb.rs:35-44) is stated by `ContainsSpec`.
- `Aabbs.Expand` (src/tool/aabb.rs:24-28) is stated by `ExpandSpec` and `ExpandIsSmallest`.
- `Aabbs.FromExtents` (src/tool/aabb.rs:46-52) is stated by `FromExtentsSpec`.
- `Aabbs.FromRadius` (src/tool/aabb.rs:54-59) is stated by `FromRadiusSpec`.
- `Aabbs.IntersectAxis` (src/tool/aabb.rs:75-95) is stated by `IntersectAxisSpec` and `IntersectAxisBelow`.
- `Aabbs.Intersection` (src/tool/aabb.rs:97-147) is computed by `Intersect` and stated by the `Intersection…` rows.
- `OctantKeys.SanityCheck` (src/octant_map/octant_key.rs:46-66) is stated by `RootIsWellFormed`, `HighIndexBitClear`, `NoIndexBitsWellFormed` and `RootKeyUnique`.
- `OctantKeys.GetIndex` (src/octant_map/octant_key.rs:90-101) is read back in `PushSpec` and `SetIndexSpec`.
- `OctantKeys.AtMaxDepth` (src/octant_map/octant_key.rs:115-118) is depth 19, the precondition boundary of `Pushed`.
- `OctantKeys.Popped` (src/octant_map/octant_key.rs:133-139) is stated by `PushPopRoundTrip`, `PopValue` and `PopToRootLeavesStaleIndex`.
- `TreeKeys.SanityCheck` (src/linear_octree/tree_key.rs:68-96) is stated by `WellFormedIffHighBitsClear`.
- `TreeKeys.GetIndex` (src/linear_octree/tree_key.rs:118-129) and `TreeKeys.Corner` (src/linear_octree/tree_key.rs:151-155) are read back in `PushSpec`, `SetIndexSpec` and `SetCornerSpec`.
- `TreeKeys.AtMaxDepth` (src/linear_octree/tree_key.rs:157-160) is depth 19, the precondition boundary of `Pushed`.
- `TreeKeys.Popped` (src/linear_octree/tree_key.rs:173-179) is stated by `PushPopRoundTrip` and `PopToRootLeavesStaleIndex`.
- `MortonKeys.Corner` (src/morton/key.rs:103-116) is stated by `CornerSpec`.
- `MortonKeys.AtMaxDepth` and `AtRoot` (src/morton/key.rs:122-128) are stated by `RootSpec`.
- `MarchingCubes.EdgeTable` (src/marching_cubes.rs:4-37) and `TriTable` (src/marching_cubes.rs:39-296) are stated by `EdgeTableSymmetric`, `TriTableRowsAreTriangleRuns`, `TriTableUsesCrossedEdges` and `UniformCellsEmitNothing`.
- `MarchingCubes.VertInterp` (src/marching_cubes.rs:298-306) is stated by `VertInterpOnSegment` and `VertInterpFindsZero`.
- `Surfaces.SignumChange` (src/naive_octree.rs:71) and `NegativityChange` (src/octant_map/mod.rs:51) are stated by `SignTestsAgree` and `NegativityChangeIff`.
- `Tools.IsConvex` (src/tool/mod.rs:33-35) is the concavity flag's negation; `Tools.CheckBox` (src/octant_map/mod.rs:120-123, src/naive_octree.rs:89-92) picks the area-of-effect box for Remove and the tool box for Place, and is used by both subdivision guards.
- `Bits.NotAny` (src/octant_map/octant_key.rs:59) is stated by `LoadZeroIffNotAny`.
- `Bits.FromNat` (src/octant_map/octant_key.rs:78) is stated by `LoadFromNat` and `FromNatLoad`.

## Left out

- `Mesh::write_obj_to_file` is file I/O with float formatting.
- `generate_face_normals`, `generate_vertex_normals` and the vertex-normal remap branch of `index` are not modelled. They involve float normalisation and parallel iterators, and the remap writes into an empty buffer.
- `src/morton/map.rs` is an unfinished prototype that calls a function not shown. `src/tool/sphere.rs` does not implement the `Tool` trait. Both are not part of this model; tools are modelled abstractly.
- `OctantMap::apply_tool_filter` is not modelled. It is an alternative to `apply_tool_recurse` over unordered map iteration, with its collapse step unfinished.
- `march_cube`, `line_vertices` and `generate_octree_frame_mesh` have no bodies here. `march_cube` is a function parameter `march`; the frame mesh is not modelled.
- `OctantKey::aabb`, `OctantKey::scale` and `OctantKey::children` are not part of this model. Boxes and scales are function parameters (`boxOf`, `scaleOf`). Children are `push(0..7)` on copies.
- f32 rounding, NaN, infinities and the -0.0 cases of `signum` and `is_sign_negative` are not modelled. Values are reals and zero is non-negative.
- The `NotNan::new(..).unwrap()` panic on a NaN vertex and the `u32` casts of `index` are not modelled. Indices are naturals.
- The ignored timing tests and the `time_test!` harness are benchmarks that write files.
- NaiveOctrees.ApplyToolCell: the pointer tree is a value tree, and each operation returns the updated cell instead of rewriting it through `&mut`. Aliasing of children cannot occur in the source, since children are owned boxes.
- Aabbs.Expand: returns the expanded box instead of updating the box in place.
- OctantMaps.OctantMap.ApplyToolAtOctant: a panic (asking a key at depth 19 whether it has children) is `ok = false`, and the map after a panic is not described. The new state below the octant is stated through the invariant, the octant's values, the frame above it and the depth bound, not entry by entry.
- OctantMaps.OctantMap.ApplyToolRecurse: the same as `ApplyToolAtOctant`; it states the root's new values, the invariant and the depth bound, not every entry.
- OctantMaps.OctantMap.SubdivideWithOldValues: requires the cell to be in the map. Both callers pass a key that is present: `subdivide_cell` (src/octant_map/mod.rs:76-79) looks the cell up first and panics otherwise, and `apply_tool_filter` (src/octant_map/mod.rs:246) passes a key of the map or a child it has just inserted.
- OctantMaps.OctantMap.CollapseCell: requires that asking the cell's children whether they have children does not panic (the cell is not at depth 18 with children).
- OctantMaps.OctantMap.GenerateMesh: the hash map's iteration order is an arbitrary choice, recorded as a ghost `order`. The faces are the flattened vertex sequence, not `[Vec3; 3]` triples.
- Meshes.OverwriteVertices: the hash map's iteration order is an arbitrary choice; the result does not depend on it.
- MarchingCubes.TriTableRowsAreTriangleRuns: `TRI_TABLE` is an `i8` table read as `TriTable(case, column)` on integers, and `EDGE_TABLE` entries are held in 16-bit vectors (all fit in 12 bits).
- Tools.ApplyAtCorners: a tool is a record of its value function, its two boxes and its concavity. Trait objects and generics are not modelled.
