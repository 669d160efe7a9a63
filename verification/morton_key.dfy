/** Morton keys: a 32-bit word interleaving three 10-bit coordinate fields
    (x in bits 0-9, y in bits 10-19, z in bits 20-29; bits 30-31 unused), and
    an octant key pairing such a word with a depth of at most 9. Level d of
    the octree is encoded by bit d of each field. */
module MortonKeys {
  import opened Bits

  const X_BITS_START: nat := 0
  const X_BITS_END: nat := 9
  const Y_BITS_START: nat := 10
  const Y_BITS_END: nat := 19
  const Z_BITS_START: nat := 20
  const Z_BITS_END: nat := 29
  const U10_MAX: nat := 0x3ff
  const MAX_DEPTH: nat := 9

  /** `MortonKeyU32::root()`: the zero word. */
  function RootKey(): (r: Word32)
    ensures forall i :: 0 <= i < 32 ==> !r[i]
  {
    Zeros(32)
  }

  /** `MortonKeyU32::position`: the three inclusive ten-bit fields, x, y and z. */
  function Position(k: Word32): (p: (nat, nat, nat))
    ensures p.0 <= U10_MAX && p.1 <= U10_MAX && p.2 <= U10_MAX
  {
    Pow2Ten();
    (Load(k[X_BITS_START..X_BITS_END + 1]), Load(k[Y_BITS_START..Y_BITS_END + 1]), Load(k[Z_BITS_START..Z_BITS_END + 1]))
  }

  lemma Pow2Ten()
    ensures Pow2(10) == U10_MAX + 1
  {
    Pow2Widths();
    assert Pow2(10) == Pow2(5) * Pow2(5) by {
      Pow2Add(5, 5);
    }
  }

  lemma {:induction false} Pow2Add(a: nat, b: nat)
    ensures Pow2(a + b) == Pow2(a) * Pow2(b)
  {
    if a > 0 {
      Pow2Add(a - 1, b);
    }
  }

  /** Bit j of a u8 corner number, as `corner.view_bits::<LocalBits>()[j]`. */
  function CornerBit(corner: nat, j: nat): bool
  {
    (corner / Pow2(j)) % 2 == 1
  }

  /** Bit i is not one of the three bits that encode level d. */
  predicate OffLevel(i: nat, d: nat)
  {
    i != X_BITS_START + d && i != Y_BITS_START + d && i != Z_BITS_START + d
  }

  datatype MortonOctantKey = MortonOctantKey(key: Word32, depth: nat)

  function Root(): (r: MortonOctantKey)
    ensures r.depth == 0 && r.key == RootKey()
  {
    MortonOctantKey(RootKey(), 0)
  }

  predicate AtMaxDepth(k: MortonOctantKey)
  {
    k.depth == MAX_DEPTH
  }

  predicate AtRoot(k: MortonOctantKey)
  {
    k.depth == 0
  }

  /** `sibling(c)`: overwrite bit `depth` of each field with bits 0, 1, 2 of c.
      Asserts depth > 0; bit 20 + depth must lie inside the word. */
  function Sibling(k: MortonOctantKey, corner: nat): (r: MortonOctantKey)
    requires 0 < k.depth && Z_BITS_START + k.depth < 32 && corner < 256
    ensures r.depth == k.depth
    ensures r.key[X_BITS_START + k.depth] == CornerBit(corner, 0)
    ensures r.key[Y_BITS_START + k.depth] == CornerBit(corner, 1)
    ensures r.key[Z_BITS_START + k.depth] == CornerBit(corner, 2)
    ensures forall i :: 0 <= i < 32 && OffLevel(i, k.depth) ==> r.key[i] == k.key[i]
  {
    var d := k.depth;
    var key := k.key[X_BITS_START + d := CornerBit(corner, 0)]
      [Y_BITS_START + d := CornerBit(corner, 1)]
      [Z_BITS_START + d := CornerBit(corner, 2)];
    MortonOctantKey(key, d)
  }

  /** `child(c)`: one level deeper, then `sibling(c)`. */
  function Child(k: MortonOctantKey, corner: nat): (r: MortonOctantKey)
    requires k.depth < MAX_DEPTH && corner < 256
    ensures r.depth == k.depth + 1
  {
    Sibling(k.(depth := k.depth + 1), corner)
  }

  /** `parent()`: `sibling(0)` clears the three bits of this level, then one level up. */
  function Parent(k: MortonOctantKey): (r: MortonOctantKey)
    requires 0 < k.depth && Z_BITS_START + k.depth < 32
    ensures r.depth == k.depth - 1
  {
    var s := Sibling(k, 0);
    s.(depth := s.depth - 1)
  }

  /** `corner(c)`: fill field bits depth .. 8 (the end bit 9 of each field is
      excluded by the half-open range) with the matching bit of c. */
  function Corner(k: MortonOctantKey, corner: nat): (r: Word32)
    requires k.depth <= MAX_DEPTH && corner < 256
  {
    var d := k.depth;
    var x := Fill(k.key, X_BITS_START + d, X_BITS_END, CornerBit(corner, 0));
    var y := Fill(x, Y_BITS_START + d, Y_BITS_END, CornerBit(corner, 1));
    Fill(y, Z_BITS_START + d, Z_BITS_END, CornerBit(corner, 2))
  }

  function Children(k: MortonOctantKey): (r: seq<MortonOctantKey>)
    requires k.depth < MAX_DEPTH
    ensures |r| == 8
  {
    seq(8, c requires 0 <= c < 8 => Child(k, c))
  }

  function Corners(k: MortonOctantKey): (r: seq<Word32>)
    requires k.depth <= MAX_DEPTH
    ensures |r| == 8
  {
    seq(8, c requires 0 <= c < 8 => Corner(k, c))
  }

  /** The root key sits at position (0, 0, 0), at the root and not at the maximum depth. */
  lemma RootSpec()
    ensures Position(Root().key) == (0, 0, 0)
    ensures AtRoot(Root()) && !AtMaxDepth(Root())
  {
    var z := RootKey();
    LoadZeroIffNotAny(z[X_BITS_START..X_BITS_END + 1]);
    LoadZeroIffNotAny(z[Y_BITS_START..Y_BITS_END + 1]);
    LoadZeroIffNotAny(z[Z_BITS_START..Z_BITS_END + 1]);
  }

  /** A corner number below 8 is spelled by its three low bits. */
  lemma CornerBitsValue(c: nat)
    requires c < 8
    ensures c == (if CornerBit(c, 0) then 1 else 0) + 2 * (if CornerBit(c, 1) then 1 else 0)
      + 4 * (if CornerBit(c, 2) then 1 else 0)
  {
    assert Pow2(0) == 1 && Pow2(1) == 2 && Pow2(2) == 4;
  }

  /** `child(c)` goes one level deeper and writes bits 0, 1, 2 of c into bit
      `depth + 1` of the x, y and z fields; no other bit changes. */
  lemma ChildSpec(k: MortonOctantKey, corner: nat)
    requires k.depth < MAX_DEPTH && corner < 256
    ensures Child(k, corner).depth == k.depth + 1
    ensures Child(k, corner).key[X_BITS_START + k.depth + 1] == CornerBit(corner, 0)
    ensures Child(k, corner).key[Y_BITS_START + k.depth + 1] == CornerBit(corner, 1)
    ensures Child(k, corner).key[Z_BITS_START + k.depth + 1] == CornerBit(corner, 2)
    ensures forall i :: 0 <= i < 32 && OffLevel(i, k.depth + 1) ==> Child(k, corner).key[i] == k.key[i]
  {
  }

  /** `parent` undoes `child(c)` exactly when the three bits of the new level
      were clear in the key: `sibling(0)` clears them rather than restoring them. */
  lemma ParentChildRoundTrip(k: MortonOctantKey, corner: nat)
    requires k.depth < MAX_DEPTH && corner < 256
    ensures Parent(Child(k, corner)) == k <==>
      !k.key[X_BITS_START + k.depth + 1] && !k.key[Y_BITS_START + k.depth + 1] && !k.key[Z_BITS_START + k.depth + 1]
  {
    var p := Parent(Child(k, corner));
    ChildSpec(k, corner);
    if !k.key[X_BITS_START + k.depth + 1] && !k.key[Y_BITS_START + k.depth + 1] && !k.key[Z_BITS_START + k.depth + 1] {
      assert p.key == k.key;
    } else {
      assert p.key != k.key by {
        if !k.key[X_BITS_START + k.depth + 1] && !k.key[Y_BITS_START + k.depth + 1] {
          assert p.key[Z_BITS_START + k.depth + 1] != k.key[Z_BITS_START + k.depth + 1];
        } else if !k.key[X_BITS_START + k.depth + 1] {
          assert p.key[Y_BITS_START + k.depth + 1] != k.key[Y_BITS_START + k.depth + 1];
        } else {
          assert p.key[X_BITS_START + k.depth + 1] != k.key[X_BITS_START + k.depth + 1];
        }
      }
    }
  }

  /** Siblings share their parent. */
  lemma SiblingSameParent(k: MortonOctantKey, corner: nat)
    requires 0 < k.depth && Z_BITS_START + k.depth < 32 && corner < 256
    ensures Parent(Sibling(k, corner)) == Parent(k)
  {
    assert Sibling(Sibling(k, corner), 0).key == Sibling(k, 0).key;
  }

  /** `children()` lists `child(0)` .. `child(7)`: all one level deeper, all
      with the parent's bits outside the new level, and pairwise distinct. */
  lemma ChildrenSpec(k: MortonOctantKey)
    requires k.depth < MAX_DEPTH
    ensures forall c :: 0 <= c < 8 ==> Children(k)[c].depth == k.depth + 1
    ensures forall c, i :: 0 <= c < 8 && 0 <= i < 32 && OffLevel(i, k.depth + 1) ==> Children(k)[c].key[i] == k.key[i]
    ensures forall a, b :: 0 <= a < b < 8 ==> Children(k)[a] != Children(k)[b]
  {
    forall c | 0 <= c < 8
      ensures Children(k)[c].depth == k.depth + 1
      ensures forall i :: 0 <= i < 32 && OffLevel(i, k.depth + 1) ==> Children(k)[c].key[i] == k.key[i]
    {
      ChildSpec(k, c);
    }
    forall a, b | 0 <= a < b < 8
      ensures Children(k)[a] != Children(k)[b]
    {
      ChildrenDiffer(k, a, b);
    }
  }

  lemma ChildrenDiffer(k: MortonOctantKey, a: nat, b: nat)
    requires k.depth < MAX_DEPTH && a < 8 && b < 8 && a != b
    ensures Child(k, a) != Child(k, b)
  {
    ChildSpec(k, a);
    ChildSpec(k, b);
    CornerBitsValue(a);
    CornerBitsValue(b);
    var d := k.depth + 1;
    if CornerBit(a, 0) != CornerBit(b, 0) {
      assert Child(k, a).key[X_BITS_START + d] != Child(k, b).key[X_BITS_START + d];
    } else if CornerBit(a, 1) != CornerBit(b, 1) {
      assert Child(k, a).key[Y_BITS_START + d] != Child(k, b).key[Y_BITS_START + d];
    } else {
      assert Child(k, a).key[Z_BITS_START + d] != Child(k, b).key[Z_BITS_START + d];
    }
  }

  /** `corner(c)` keeps each field's bits below the depth, sets field bits
      depth .. 8 to the matching bit of c, and leaves the top bit of each field
      (bits 9, 19, 29) and the unused bits 30-31 alone. */
  lemma CornerSpec(k: MortonOctantKey, corner: nat)
    requires k.depth <= MAX_DEPTH && corner < 256
    ensures forall i :: X_BITS_START <= i <= X_BITS_END ==>
      Corner(k, corner)[i] == if X_BITS_START + k.depth <= i < X_BITS_END then CornerBit(corner, 0) else k.key[i]
    ensures forall i :: Y_BITS_START <= i <= Y_BITS_END ==>
      Corner(k, corner)[i] == if Y_BITS_START + k.depth <= i < Y_BITS_END then CornerBit(corner, 1) else k.key[i]
    ensures forall i :: Z_BITS_START <= i <= Z_BITS_END ==>
      Corner(k, corner)[i] == if Z_BITS_START + k.depth <= i < Z_BITS_END then CornerBit(corner, 2) else k.key[i]
    ensures Corner(k, corner)[Z_BITS_END + 1..] == k.key[Z_BITS_END + 1..]
  {
  }

  /** At depth 9 every fill range is empty: all eight corners are the key itself. */
  lemma CornersAtMaxDepth(k: MortonOctantKey)
    requires k.depth == MAX_DEPTH
    ensures forall c :: 0 <= c < 8 ==> Corners(k)[c] == k.key
  {
    forall c | 0 <= c < 8
      ensures Corners(k)[c] == k.key
    {
      CornerSpec(k, c);
      assert Corner(k, c)[..Z_BITS_END + 1] == k.key[..Z_BITS_END + 1];
      assert Corner(k, c) == Corner(k, c)[..Z_BITS_END + 1] + Corner(k, c)[Z_BITS_END + 1..];
      assert k.key == k.key[..Z_BITS_END + 1] + k.key[Z_BITS_END + 1..];
    }
  }
}
