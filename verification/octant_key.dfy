/** The 64-bit octant key of the flat octant map.
    Bits 0-56 hold up to 19 three-bit child indices (the index chosen at depth
    c + 1 sits in bits 3c..3c+2), bits 57-58 are unused ("funny") bits that must
    stay clear, and bits 59-63 hold the depth, the number of valid indices. */
module OctantKeys {
  import opened Bits

  const DEPTH_LO: nat := 59
  const DEPTH_HI: nat := 64
  const FUNNY_LO: nat := 57
  const CELL_INDICES_HI: nat := 57
  const CELL_INDEX_SIZE: nat := 3
  const MAX_DEPTH: nat := 19

  function Depth(k: Word64): (d: nat)
    ensures d < 32
  {
    Pow2Widths();
    Load(k[DEPTH_LO..DEPTH_HI])
  }

  /** The c-th three-bit chunk of the cell-index bits, the index chosen at depth c + 1. */
  function Chunk(k: Word64, c: nat): seq<bool>
    requires c < MAX_DEPTH
  {
    k[3 * c..3 * c + 3]
  }

  /** `_sanity_check`: the depth is at most 19, every index chunk past the depth
      is clear, and the funny bits are clear (otherwise the check panics). */
  predicate SanityCheck(k: Word64)
  {
    && Depth(k) <= MAX_DEPTH
    && (forall c :: 0 <= c < MAX_DEPTH && c + 1 > Depth(k) ==> NotAny(Chunk(k, c)))
    && NotAny(k[FUNNY_LO..DEPTH_LO])
  }

  /** `set_depth`: store the new depth; when the key gets shallower, clear the
      index bits from 3 * newDepth up, except when the new depth is 0. */
  function WithDepth(k: Word64, newDepth: nat): (r: Word64)
    requires newDepth <= MAX_DEPTH
    ensures Depth(r) == newDepth
  {
    var stored := Store(k, DEPTH_LO, DEPTH_HI, newDepth);
    DepthOfStored(k, newDepth);
    var r := if newDepth < Depth(k) && newDepth != 0 then Fill(stored, 3 * newDepth, CELL_INDICES_HI, false)
      else stored;
    assert r[DEPTH_LO..DEPTH_HI] == stored[DEPTH_LO..DEPTH_HI];
    r
  }

  /** `get_index`: the index chosen at `depth`, 1 <= depth <= key depth. */
  function GetIndex(k: Word64, depth: nat): nat
    requires 0 < depth <= Depth(k) && depth <= MAX_DEPTH
  {
    Load(Chunk(k, depth - 1))
  }

  /** `set_index`: the u8 index is truncated to its low three bits by the store. */
  function WithIndex(k: Word64, depth: nat, index: nat): (r: Word64)
    requires 0 < depth <= Depth(k) && depth <= MAX_DEPTH && index < 256
    ensures Depth(r) == Depth(k)
  {
    var r := Store(k, 3 * (depth - 1), 3 * depth, index);
    assert r[DEPTH_LO..DEPTH_HI] == k[DEPTH_LO..DEPTH_HI];
    r
  }

  predicate AtMaxDepth(k: Word64)
  {
    Depth(k) == MAX_DEPTH
  }

  /** `push`: panics at the maximum depth (and, through `set_depth`, beyond it). */
  function Pushed(k: Word64, index: nat): (r: Word64)
    requires Depth(k) < MAX_DEPTH && index < 256
    ensures Depth(r) == Depth(k) + 1
  {
    var d := Depth(k);
    var r := Store(WithDepth(k, d + 1), 3 * d, 3 * d + 3, index);
    assert r[DEPTH_LO..DEPTH_HI] == WithDepth(k, d + 1)[DEPTH_LO..DEPTH_HI];
    r
  }

  /** `push` is `set_depth(d + 1)` followed by the store of the new index. */
  lemma PushedUnfolds(k: Word64, index: nat, d: nat, t: Word64)
    requires d == Depth(k) < MAX_DEPTH && index < 256 && t == WithDepth(k, d + 1)
    ensures Pushed(k, index) == Store(t, CELL_INDEX_SIZE * d, CELL_INDEX_SIZE * (d + 1), index)
  {
  }

  /** `pop`: the deepest index and the key one level up. */
  function Popped(k: Word64): (nat, Word64)
    requires 0 < Depth(k) <= MAX_DEPTH
  {
    (GetIndex(k, Depth(k)), WithDepth(k, Depth(k) - 1))
  }

  /** The key whose methods rewrite the packed word in place. */
  class OctantKey {
    var bits: Word64

    /** `OctantKey::default()`: the all-zero word, the root at depth 0. */
    constructor ()
      ensures bits == Zeros(64) && Depth(bits) == 0 && SanityCheck(bits)
    {
      bits := Zeros(64);
      new;
      RootIsWellFormed();
    }

    method SetDepth(newDepth: nat)
      requires newDepth <= MAX_DEPTH
      modifies this
      ensures bits == WithDepth(old(bits), newDepth)
    {
      var oldDepth := Depth(bits);
      bits := Store(bits, DEPTH_LO, DEPTH_HI, newDepth);
      if newDepth < oldDepth {
        if newDepth != 0 {
          bits := Fill(bits, CELL_INDEX_SIZE * newDepth, CELL_INDICES_HI, false);
        }
      }
    }

    method SetIndex(depth: nat, index: nat)
      requires 0 < depth <= Depth(bits) && depth <= MAX_DEPTH && index < 256
      modifies this
      ensures bits == WithIndex(old(bits), depth, index)
    {
      bits := Store(bits, CELL_INDEX_SIZE * (depth - 1), CELL_INDEX_SIZE * depth, index);
    }

    method Push(index: nat)
      requires Depth(bits) < MAX_DEPTH && index < 256
      modifies this
      ensures bits == Pushed(old(bits), index)
    {
      var d := Depth(bits);
      ghost var k := bits;
      SetDepth(d + 1);
      PushedUnfolds(k, index, d, bits);
      bits := Store(bits, CELL_INDEX_SIZE * d, CELL_INDEX_SIZE * (d + 1), index);
    }

    method Pop() returns (index: nat)
      requires 0 < Depth(bits) <= MAX_DEPTH
      modifies this
      ensures (index, bits) == Popped(old(bits))
    {
      var depth := Depth(bits);
      index := GetIndex(bits, depth);
      SetDepth(depth - 1);
    }
  }

  lemma DepthOfStored(k: Word64, newDepth: nat)
    requires newDepth < 32
    ensures Depth(Store(k, DEPTH_LO, DEPTH_HI, newDepth)) == newDepth
  {
    Pow2Widths();
    LoadFromNatSmall(newDepth, 5);
  }

  /** In a well-formed key every cell-index bit at or past 3 * depth is clear. */
  lemma HighIndexBitClear(k: Word64, j: nat)
    requires SanityCheck(k) && 3 * Depth(k) <= j < CELL_INDICES_HI
    ensures !k[j]
  {
    var c := j / 3;
    assert c + 1 > Depth(k);
    assert Chunk(k, c)[j - 3 * c] == k[j];
  }

  /** The default key passes the sanity check. */
  lemma RootIsWellFormed()
    ensures Depth(Zeros(64)) == 0 && SanityCheck(Zeros(64))
  {
    var z := Zeros(64);
    LoadZeroIffNotAny(z[DEPTH_LO..DEPTH_HI]);
  }

  /** `set_depth(n)` always stores n; it clears the index bits 3n..56 only when
      the key gets shallower and n is not 0, and touches nothing else. */
  lemma WithDepthSpec(k: Word64, newDepth: nat)
    requires newDepth <= MAX_DEPTH
    ensures Depth(WithDepth(k, newDepth)) == newDepth
    ensures forall j :: 0 <= j < CELL_INDICES_HI ==>
      WithDepth(k, newDepth)[j] == if newDepth < Depth(k) && newDepth != 0 && j >= 3 * newDepth then false else k[j]
    ensures WithDepth(k, newDepth)[FUNNY_LO..DEPTH_LO] == k[FUNNY_LO..DEPTH_LO]
  {
  }

  /** Truncating a well-formed key to a nonzero depth keeps it well-formed and
      keeps the indices above the new depth. */
  lemma TruncateKeepsWellFormed(k: Word64, newDepth: nat)
    requires SanityCheck(k) && 0 < newDepth <= Depth(k)
    ensures SanityCheck(WithDepth(k, newDepth))
    ensures forall e :: 0 < e <= newDepth ==> GetIndex(WithDepth(k, newDepth), e) == GetIndex(k, e)
  {
    var r := WithDepth(k, newDepth);
    WithDepthSpec(k, newDepth);
    forall c | 0 <= c < MAX_DEPTH && c + 1 > newDepth
      ensures NotAny(Chunk(r, c))
    {
      forall j | 0 <= j < 3
        ensures !Chunk(r, c)[j]
      {
        assert Chunk(r, c)[j] == r[3 * c + j];
        if c + 1 > Depth(k) {
          assert Chunk(k, c)[j] == k[3 * c + j];
        }
      }
    }
    forall e | 0 < e <= newDepth
      ensures GetIndex(r, e) == GetIndex(k, e)
    {
      assert Chunk(r, e - 1) == Chunk(k, e - 1);
    }
  }

  /** `push(i)` raises the depth by one, stores i (mod 8) as the new deepest
      index, and leaves every other index and the funny bits alone. */
  lemma PushSpec(k: Word64, index: nat)
    requires Depth(k) < MAX_DEPTH && index < 256
    ensures Depth(Pushed(k, index)) == Depth(k) + 1
    ensures GetIndex(Pushed(k, index), Depth(k) + 1) == index % 8
    ensures forall j :: 0 <= j < DEPTH_LO && !(3 * Depth(k) <= j < 3 * Depth(k) + 3) ==> Pushed(k, index)[j] == k[j]
  {
    var d := Depth(k);
    var r := Pushed(k, index);
    WithDepthSpec(k, d + 1);
    assert r[DEPTH_LO..DEPTH_HI] == WithDepth(k, d + 1)[DEPTH_LO..DEPTH_HI];
    assert Chunk(r, d) == FromNat(index, 3);
    LoadFromNat(index, 3);
  }

  /** `push` keeps a well-formed key well-formed. */
  lemma PushKeepsWellFormed(k: Word64, index: nat)
    requires SanityCheck(k) && Depth(k) < MAX_DEPTH && index < 256
    ensures SanityCheck(Pushed(k, index))
  {
    var d := Depth(k);
    var r := Pushed(k, index);
    PushSpec(k, index);
    forall c | 0 <= c < MAX_DEPTH && c + 1 > d + 1
      ensures NotAny(Chunk(r, c))
    {
      forall j | 0 <= j < 3
        ensures !Chunk(r, c)[j]
      {
        assert Chunk(r, c)[j] == r[3 * c + j];
        assert Chunk(k, c)[j] == k[3 * c + j];
      }
    }
    assert r[FUNNY_LO..DEPTH_LO] == k[FUNNY_LO..DEPTH_LO];
  }

  /** On a well-formed key of depth at least 1, `pop` undoes `push(i)` bit for
      bit and returns i (mod 8). */
  lemma PushPopRoundTrip(k: Word64, index: nat)
    requires SanityCheck(k) && 0 < Depth(k) < MAX_DEPTH && index < 256
    ensures Popped(Pushed(k, index)) == (index % 8, k)
  {
    var d := Depth(k);
    var p := Pushed(k, index);
    PushSpec(k, index);
    var q := WithDepth(p, d);
    WithDepthSpec(p, d);
    forall j | 0 <= j < CELL_INDICES_HI
      ensures q[j] == k[j]
    {
      if j >= 3 * d {
        HighIndexBitClear(k, j);
      }
    }
    assert q[..CELL_INDICES_HI] == k[..CELL_INDICES_HI];
    assert q[FUNNY_LO..DEPTH_LO] == k[FUNNY_LO..DEPTH_LO];
    FromNatLoad(k[DEPTH_LO..DEPTH_HI]);
    FromNatLoad(q[DEPTH_LO..DEPTH_HI]);
    assert q[DEPTH_LO..] == k[DEPTH_LO..];
    assert q == q[..CELL_INDICES_HI] + q[FUNNY_LO..DEPTH_LO] + q[DEPTH_LO..];
    assert k == k[..CELL_INDICES_HI] + k[FUNNY_LO..DEPTH_LO] + k[DEPTH_LO..];
  }

  /** `set_depth(0)` skips the clearing step, so popping back to the root
      leaves the popped index in bits 0-2: the key no longer passes the
      sanity check whenever the index was not 0. */
  lemma PopToRootLeavesStaleIndex(k: Word64, index: nat)
    requires SanityCheck(k) && Depth(k) == 0 && index < 256 && index % 8 != 0
    ensures Popped(Pushed(k, index)).0 == index % 8
    ensures Depth(Popped(Pushed(k, index)).1) == 0
    ensures Load(Chunk(Popped(Pushed(k, index)).1, 0)) == index % 8
    ensures !SanityCheck(Popped(Pushed(k, index)).1)
  {
    var p := Pushed(k, index);
    PushSpec(k, index);
    var q := WithDepth(p, 0);
    WithDepthSpec(p, 0);
    assert Chunk(q, 0) == Chunk(p, 0);
    if NotAny(Chunk(q, 0)) {
      LoadZeroIffNotAny(Chunk(q, 0));
    }
  }

  /** A well-formed key of depth 0 has no bit set. */
  lemma RootKeyBitClear(k: Word64, j: nat)
    requires SanityCheck(k) && Depth(k) == 0 && j < 64
    ensures !k[j]
  {
    if j < CELL_INDICES_HI {
      HighIndexBitClear(k, j);
    } else if j < DEPTH_LO {
      assert k[FUNNY_LO..DEPTH_LO][j - FUNNY_LO] == k[j];
    } else {
      LoadZeroIffNotAny(k[DEPTH_LO..DEPTH_HI]);
      assert k[DEPTH_LO..DEPTH_HI][j - DEPTH_LO] == k[j];
    }
  }

  /** There is one well-formed key of depth 0, the root. */
  lemma RootKeyUnique(p: Word64, q: Word64)
    requires SanityCheck(p) && SanityCheck(q) && Depth(p) == 0 && Depth(q) == 0
    ensures p == q
  {
    forall j | 0 <= j < 64
      ensures p[j] == q[j]
    {
      RootKeyBitClear(p, j);
      RootKeyBitClear(q, j);
    }
  }

  /** Pushing two different indices below 8 onto the same key gives two
      different keys. */
  lemma SiblingsDistinct(k: Word64, i: nat, j: nat)
    requires Depth(k) < MAX_DEPTH && i < 8 && j < 8 && i != j
    ensures Pushed(k, i) != Pushed(k, j)
  {
    PushSpec(k, i);
    PushSpec(k, j);
    ModSmall(i, 8);
    ModSmall(j, 8);
  }

  /** On well-formed keys `push` is injective: distinct parents or distinct
      indices below 8 give distinct children. */
  lemma PushInjective(p: Word64, i: nat, q: Word64, j: nat)
    requires SanityCheck(p) && SanityCheck(q) && Depth(p) < MAX_DEPTH && Depth(q) < MAX_DEPTH && i < 8 && j < 8
    requires Pushed(p, i) == Pushed(q, j)
    ensures p == q && i == j
  {
    PushSpec(p, i);
    PushSpec(q, j);
    ModSmall(i, 8);
    ModSmall(j, 8);
    if Depth(p) > 0 {
      PushPopRoundTrip(p, i);
      PushPopRoundTrip(q, j);
    } else {
      RootKeyUnique(p, q);
    }
  }

  /** `set_index(d, v)` makes `get_index(d)` read v (mod 8) and leaves the depth,
      every other index and the funny bits unchanged; well-formedness is kept. */
  lemma SetIndexSpec(k: Word64, depth: nat, index: nat)
    requires 0 < depth <= Depth(k) && depth <= MAX_DEPTH && index < 256
    ensures Depth(WithIndex(k, depth, index)) == Depth(k)
    ensures GetIndex(WithIndex(k, depth, index), depth) == index % 8
    ensures forall e :: 0 < e <= Depth(k) && e <= MAX_DEPTH && e != depth ==>
      GetIndex(WithIndex(k, depth, index), e) == GetIndex(k, e)
    ensures WithIndex(k, depth, index)[FUNNY_LO..DEPTH_LO] == k[FUNNY_LO..DEPTH_LO]
    ensures SanityCheck(k) ==> SanityCheck(WithIndex(k, depth, index))
  {
    var r := WithIndex(k, depth, index);
    assert r[DEPTH_LO..DEPTH_HI] == k[DEPTH_LO..DEPTH_HI];
    assert Chunk(r, depth - 1) == FromNat(index, 3);
    LoadFromNat(index, 3);
    forall e | 0 < e <= Depth(k) && e <= MAX_DEPTH && e != depth
      ensures GetIndex(r, e) == GetIndex(k, e)
    {
      assert Chunk(r, e - 1) == Chunk(k, e - 1);
    }
    forall c | 0 <= c < MAX_DEPTH && c + 1 > Depth(k)
      ensures Chunk(r, c) == Chunk(k, c)
    {
    }
  }

  /** A key with no index or funny bit set is well-formed at any depth up to 19. */
  lemma NoIndexBitsWellFormed(k: Word64)
    requires NotAny(k[..DEPTH_LO]) && Depth(k) <= MAX_DEPTH
    ensures SanityCheck(k)
  {
    forall c | 0 <= c < MAX_DEPTH
      ensures NotAny(Chunk(k, c))
    {
      assert forall j :: 0 <= j < 3 ==> Chunk(k, c)[j] == k[..DEPTH_LO][3 * c + j];
    }
    assert forall j :: 0 <= j < 2 ==> k[FUNNY_LO..DEPTH_LO][j] == k[..DEPTH_LO][FUNNY_LO + j];
  }

  /** A key whose word is 0 (the default key) has no bit set and depth 0. */
  lemma ZeroWord(k: Word64)
    requires Load(k) == 0
    ensures NotAny(k) && Depth(k) == 0
  {
    LoadZeroIffNotAny(k);
    LoadZeroIffNotAny(k[DEPTH_LO..DEPTH_HI]);
  }

  /** Rewriting the depth field from d to d' changes the word by (d' - d) units of 2^59. */
  lemma StoreDepthValue(k: Word64, newDepth: nat)
    requires newDepth < 32
    ensures Load(Store(k, DEPTH_LO, DEPTH_HI, newDepth)) + Pow2(DEPTH_LO) * Depth(k)
      == Load(k) + Pow2(DEPTH_LO) * newDepth
  {
    Pow2Widths();
    LoadStoreFits(k, DEPTH_LO, DEPTH_HI, newDepth, Depth(k), Pow2(DEPTH_LO));
  }

  /** `push(i)` on a well-formed key adds one unit of depth (2^59) and i (mod 8)
      at the bit position 3 * depth of the new index. */
  lemma PushValue(k: Word64, index: nat)
    requires SanityCheck(k) && Depth(k) < MAX_DEPTH && index < 256
    ensures Load(Pushed(k, index)) == Load(k) + Pow2(DEPTH_LO) + Pow2(3 * Depth(k)) * (index % 8)
  {
    assert NotAny(Chunk(k, Depth(k)));
    PushOntoClearChunk(k, index);
  }

  lemma PushOntoClearChunk(k: Word64, index: nat)
    requires Depth(k) < MAX_DEPTH && index < 256 && NotAny(Chunk(k, Depth(k)))
    ensures Load(Pushed(k, index)) == Load(k) + Pow2(DEPTH_LO) + Pow2(3 * Depth(k)) * (index % 8)
  {
    DeepenValue(k);
    PushIndexValue(k, index);
  }

  lemma PushIndexValue(k: Word64, index: nat)
    requires Depth(k) < MAX_DEPTH && index < 256 && NotAny(Chunk(k, Depth(k)))
    ensures Load(Pushed(k, index)) == Load(WithDepth(k, Depth(k) + 1)) + Pow2(3 * Depth(k)) * (index % 8)
  {
    DeepenKeepsChunk(k);
    StoreIndexValue(WithDepth(k, Depth(k) + 1), Depth(k), index);
  }

  lemma DeepenKeepsChunk(k: Word64)
    requires Depth(k) < MAX_DEPTH
    ensures WithDepth(k, Depth(k) + 1)[3 * Depth(k)..3 * Depth(k) + 3] == Chunk(k, Depth(k))
  {
    WithDepthSpec(k, Depth(k) + 1);
  }

  /** Deepening only rewrites the depth field. */
  lemma DeeperIsStore(k: Word64, newDepth: nat)
    requires Depth(k) <= newDepth <= MAX_DEPTH
    ensures WithDepth(k, newDepth) == Store(k, DEPTH_LO, DEPTH_HI, newDepth)
  {
  }

  /** Deepening by one adds 2^59 to the word. */
  lemma DeepenValue(k: Word64)
    requires Depth(k) < MAX_DEPTH
    ensures Load(WithDepth(k, Depth(k) + 1)) == Load(k) + Pow2(DEPTH_LO)
  {
    var st := Store(k, DEPTH_LO, DEPTH_HI, Depth(k) + 1);
    assert Load(st) == Load(k) + Pow2(DEPTH_LO) by {
      StoreDepthValue(k, Depth(k) + 1);
      AddUnit(Load(st), Load(k), Pow2(DEPTH_LO), Depth(k), Depth(k) + 1);
    }
    DeeperIsStore(k, Depth(k) + 1);
  }

  /** Storing an index into the clear chunk c adds it at weight 2^(3c). */
  lemma StoreIndexValue(k: Word64, c: nat, index: nat)
    requires c < MAX_DEPTH && NotAny(k[3 * c..3 * c + 3])
    ensures Load(Store(k, 3 * c, 3 * c + 3, index)) == Load(k) + Pow2(3 * c) * (index % 8)
  {
    FromNatMod(index, 3);
    assert Store(k, 3 * c, 3 * c + 3, index) == Store(k, 3 * c, 3 * c + 3, index % 8);
    assert Pow2(3 * c + 3 - 3 * c) == 8 by {
      Pow2Widths();
    }
    StoreIntoClearField(k, 3 * c, 3 * c + 3, index % 8);
  }

  lemma AddUnit(x: nat, y: nat, p: nat, d: nat, e: nat)
    requires e == d + 1 && x + p * d == y + p * e
    ensures x == y + p
  {
    assert p * e == p * d + p;
  }

  /** `set_index(d, v)` replaces the value GetIndex(k, d) at bit 3(d-1) by v (mod 8). */
  lemma SetIndexValue(k: Word64, depth: nat, index: nat)
    requires 0 < depth <= Depth(k) && depth <= MAX_DEPTH && index < 256
    ensures Load(WithIndex(k, depth, index)) + Pow2(3 * (depth - 1)) * GetIndex(k, depth)
      == Load(k) + Pow2(3 * (depth - 1)) * (index % 8)
  {
    Pow2Widths();
    LoadStore(k, 3 * (depth - 1), 3 * depth, index);
  }

  /** `pop` on a well-formed key of depth d >= 2 removes one unit of depth and the
      deepest index GetIndex(k, d) at bit 3(d-1). */
  lemma PopValue(k: Word64)
    requires SanityCheck(k) && 1 < Depth(k)
    ensures Load(Popped(k).1) + Pow2(DEPTH_LO) + Pow2(3 * (Depth(k) - 1)) * GetIndex(k, Depth(k)) == Load(k)
  {
    var d := Depth(k);
    var st := Store(k, DEPTH_LO, DEPTH_HI, d - 1);
    ShallowerValue(k);
    DeepestFieldValue(k);
    PoppedIsStore(k);
    LoadStoreFits(st, 3 * (d - 1), CELL_INDICES_HI, 0, GetIndex(k, d), Pow2(3 * (d - 1)));
  }

  /** Making the key one level shallower subtracts 2^59. */
  lemma ShallowerValue(k: Word64)
    requires 0 < Depth(k)
    ensures Load(Store(k, DEPTH_LO, DEPTH_HI, Depth(k) - 1)) + Pow2(DEPTH_LO) == Load(k)
  {
    var d := Depth(k);
    StoreDepthValue(k, d - 1);
    AddUnit(Load(k), Load(Store(k, DEPTH_LO, DEPTH_HI, d - 1)), Pow2(DEPTH_LO), d - 1, d);
  }

  /** Below a nonzero depth, `pop` is a depth store followed by clearing the
      index bits from the popped chunk up. */
  lemma PoppedIsStore(k: Word64)
    requires 1 < Depth(k) <= MAX_DEPTH
    ensures Popped(k).1 == Store(Store(k, DEPTH_LO, DEPTH_HI, Depth(k) - 1), 3 * (Depth(k) - 1), CELL_INDICES_HI, 0)
  {
    FillFalseIsStoreZero(Store(k, DEPTH_LO, DEPTH_HI, Depth(k) - 1), 3 * (Depth(k) - 1), CELL_INDICES_HI);
  }

  /** In a well-formed key the bits from the deepest chunk up to bit 56 hold
      exactly the deepest index. */
  lemma DeepestFieldValue(k: Word64)
    requires SanityCheck(k) && 0 < Depth(k)
    ensures Load(Store(k, DEPTH_LO, DEPTH_HI, Depth(k) - 1)[3 * (Depth(k) - 1)..CELL_INDICES_HI]) == GetIndex(k, Depth(k))
  {
    var d := Depth(k);
    var lo := 3 * (d - 1);
    var mid := Store(k, DEPTH_LO, DEPTH_HI, d - 1)[lo..CELL_INDICES_HI];
    assert mid[..3] == Chunk(k, d - 1);
    assert NotAny(mid[3..]) by {
      forall j | 0 <= j < |mid| - 3
        ensures !mid[3..][j]
      {
        assert mid[3..][j] == k[lo + 3 + j];
        HighIndexBitClear(k, lo + 3 + j);
      }
    }
    LoadLow(mid, 3);
  }

  /** `push` leaves every index above the new one unchanged. */
  lemma PushKeepsIndices(k: Word64, index: nat, e: nat)
    requires Depth(k) < MAX_DEPTH && index < 256 && 0 < e <= Depth(k)
    ensures GetIndex(Pushed(k, index), e) == GetIndex(k, e)
  {
    PushSpec(k, index);
    assert Chunk(Pushed(k, index), e - 1) == Chunk(k, e - 1);
  }

  /** The unit test, step 1: `set_depth(1)` on the default key gives 1 << 59,
      a well-formed key whose first index is 0. */
  lemma EncodingExampleDepth(k: Word64)
    requires Load(k) == 0
    ensures Load(WithDepth(k, 1)) == Pow2(DEPTH_LO)
    ensures SanityCheck(WithDepth(k, 1))
    ensures GetIndex(WithDepth(k, 1), 1) == 0
  {
    ZeroWord(k);
    DepthOneValue(k);
    DepthOneClear(k);
    NoIndexBitsWellFormed(WithDepth(k, 1));
    ClearFirstIndex(WithDepth(k, 1));
  }

  lemma ClearFirstIndex(k: Word64)
    requires 0 < Depth(k) && NotAny(k[..DEPTH_LO])
    ensures GetIndex(k, 1) == 0
  {
    assert Chunk(k, 0) == k[..DEPTH_LO][..3];
    LoadZeroIffNotAny(Chunk(k, 0));
  }

  lemma DepthOneValue(k: Word64)
    requires Load(k) == 0 && Depth(k) == 0
    ensures Load(WithDepth(k, 1)) == Pow2(DEPTH_LO)
  {
    StoreDepthValue(k, 1);
  }

  lemma DepthOneClear(k: Word64)
    requires NotAny(k) && Depth(k) == 0
    ensures NotAny(WithDepth(k, 1)[..DEPTH_LO])
  {
    var k1 := WithDepth(k, 1);
    assert forall j :: 0 <= j < DEPTH_LO ==> k1[..DEPTH_LO][j] == k[j];
  }

  /** Step 2: `push(4)` gives 2 << 59 | 4 << 3. */
  lemma EncodingExamplePush(k: Word64)
    requires Load(k) == 0
    ensures Load(Pushed(WithDepth(k, 1), 4)) == 2 * Pow2(DEPTH_LO) + 4 * Pow2(3)
    ensures SanityCheck(Pushed(WithDepth(k, 1), 4))
    ensures GetIndex(Pushed(WithDepth(k, 1), 4), 1) == 0
    ensures GetIndex(Pushed(WithDepth(k, 1), 4), 2) == 4
  {
    var k1 := WithDepth(k, 1);
    EncodingExampleDepth(k);
    PushKeepsWellFormed(k1, 4);
    PushOntoDepthOne(k1);
    PushKeepsIndices(k1, 4, 1);
    PushSecondIndex(k1);
  }

  lemma PushSecondIndex(k: Word64)
    requires Depth(k) == 1
    ensures GetIndex(Pushed(k, 4), 2) == 4
  {
    PushNewIndex(k, 4, 2);
  }

  lemma PushOntoDepthOne(k: Word64)
    requires SanityCheck(k) && Depth(k) == 1 && Load(k) == Pow2(DEPTH_LO)
    ensures Load(Pushed(k, 4)) == 2 * Pow2(DEPTH_LO) + 4 * Pow2(3)
  {
    PushValue(k, 4);
    SecondChunkWeight(Load(Pushed(k, 4)), Pow2(DEPTH_LO), Depth(k));
  }

  /** The index pushed is the one read back at the new depth, truncated to 3 bits. */
  lemma PushNewIndex(k: Word64, index: nat, newDepth: nat)
    requires Depth(k) < MAX_DEPTH && index < 256 && newDepth == Depth(k) + 1
    ensures GetIndex(Pushed(k, index), newDepth) == index % 8
  {
    var d := Depth(k);
    assert Chunk(Pushed(k, index), d) == FromNat(index, 3);
    Pow2Widths();
    LoadFromNat(index, 3);
  }

  lemma SecondChunkWeight(x: nat, p: nat, d: nat)
    requires d == 1 && x == p + p + Pow2(3 * d) * (4 % 8)
    ensures x == 2 * p + 4 * Pow2(3)
  {
  }

  /** Step 3: `set_index(1, 7)` adds 7. */
  lemma EncodingExampleSetIndex(k: Word64)
    requires Load(k) == 0
    ensures Load(WithIndex(Pushed(WithDepth(k, 1), 4), 1, 7)) == 2 * Pow2(DEPTH_LO) + 4 * Pow2(3) + 7
    ensures SanityCheck(WithIndex(Pushed(WithDepth(k, 1), 4), 1, 7))
    ensures GetIndex(WithIndex(Pushed(WithDepth(k, 1), 4), 1, 7), 1) == 7
    ensures GetIndex(WithIndex(Pushed(WithDepth(k, 1), 4), 1, 7), 2) == 4
  {
    var k2 := Pushed(WithDepth(k, 1), 4);
    EncodingExamplePush(k);
    SetIndexOverZero(k2, 7);
    SetIndexFields(k2, 7);
  }

  lemma SetIndexFields(k: Word64, index: nat)
    requires SanityCheck(k) && Depth(k) == 2 && GetIndex(k, 2) == 4 && index < 8
    ensures SanityCheck(WithIndex(k, 1, index))
    ensures GetIndex(WithIndex(k, 1, index), 1) == index
    ensures GetIndex(WithIndex(k, 1, index), 2) == 4
  {
    SetIndexSpec(k, 1, index);
  }

  /** Setting the first index of a key whose first index is 0 adds the index. */
  lemma SetIndexOverZero(k: Word64, index: nat)
    requires 0 < Depth(k) && GetIndex(k, 1) == 0 && index < 8
    ensures Load(WithIndex(k, 1, index)) == Load(k) + index
  {
    SetIndexValue(k, 1, index);
    FirstChunkWeight(Load(WithIndex(k, 1, index)), Load(k), GetIndex(k, 1), index);
  }

  lemma FirstChunkWeight(x: nat, y: nat, g: nat, index: nat)
    requires g == 0 && index < 8 && x + Pow2(3 * (1 - 1)) * g == y + Pow2(3 * (1 - 1)) * (index % 8)
    ensures x == y + index
  {
  }

  /** Step 4: `pop` returns 4 and leaves 1 << 59 | 7, whose first index reads 7. */
  lemma EncodingExamplePop(k: Word64)
    requires Load(k) == 0
    ensures Popped(WithIndex(Pushed(WithDepth(k, 1), 4), 1, 7)).0 == 4
    ensures Load(Popped(WithIndex(Pushed(WithDepth(k, 1), 4), 1, 7)).1) == Pow2(DEPTH_LO) + 7
    ensures SanityCheck(Popped(WithIndex(Pushed(WithDepth(k, 1), 4), 1, 7)).1)
    ensures GetIndex(Popped(WithIndex(Pushed(WithDepth(k, 1), 4), 1, 7)).1, 1) == 7
  {
    var k3 := WithIndex(Pushed(WithDepth(k, 1), 4), 1, 7);
    EncodingExampleSetIndex(k);
    assert Load(Popped(k3).1) == Pow2(DEPTH_LO) + 7 by {
      PopValue(k3);
      PopArith(Load(Popped(k3).1), Load(k3), Pow2(DEPTH_LO), Depth(k3), GetIndex(k3, Depth(k3)));
    }
    TruncateKeepsWellFormed(k3, 1);
  }

  lemma PopArith(x: nat, y: nat, p: nat, d: nat, g: nat)
    requires d == 2 && g == 4 && y == 2 * p + 4 * Pow2(3) + 7 && x + p + Pow2(3 * (d - 1)) * g == y
    ensures x == p + 7
  {
  }
}
