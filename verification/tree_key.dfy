/** The 64-bit key of the linear octree.
    Bits 0-4 hold the depth; the index chosen at depth c + 1 sits in bits
    5 + 3c .. 7 + 3c; bits 60-61 are the "funny" bits that must stay clear and
    bits 61-63 hold the corner. The layout overlaps twice: the nineteenth index
    reaches bits 59-61, and bit 61 is both a funny bit and the corner's low bit. */
module TreeKeys {
  import opened Bits
  import opened Options

  const DEPTH_HI: nat := 5
  const INDICES_LO: nat := 5
  const INDICES_HI: nat := 60
  const FUNNY_LO: nat := 60
  const FUNNY_HI: nat := 62
  const CORNER_LO: nat := 61
  const CORNER_HI: nat := 64
  const MAX_DEPTH: nat := 19

  function Depth(k: Word64): (d: nat)
    ensures d < 32
  {
    Pow2Widths();
    Load(k[..DEPTH_HI])
  }

  /** Chunk c of `bits[5..60].chunks(3)`: three bits for c < 18, and the
      single bit 59 for the last chunk, c = 18. */
  function Chunk(k: Word64, c: nat): seq<bool>
    requires c < MAX_DEPTH
  {
    k[INDICES_LO + 3 * c..if c + 1 < MAX_DEPTH then INDICES_LO + 3 * c + 3 else INDICES_HI]
  }

  /** `_sanity_check`: the depth is at most 19, no chunk numbered at or past the
      depth has a bit set, and bits 60-61 are clear. */
  predicate SanityCheck(k: Word64)
  {
    && Depth(k) <= MAX_DEPTH
    && (forall c :: 0 <= c < MAX_DEPTH && c >= Depth(k) ==> NotAny(Chunk(k, c)))
    && NotAny(k[FUNNY_LO..FUNNY_HI])
  }

  /** `from_u64`: the word as a key when it passes the sanity check. */
  function FromU64(n: Word64): (r: Option<Word64>)
    ensures r.Some? ==> r.value == n
  {
    if SanityCheck(n) then Some(n) else None
  }

  /** `set_depth`: store the new depth; when the key gets shallower and the new
      depth is not 0, clear the index bits of depths n+1 .. old depth. The clear
      range ends at bit 5 + 3 * old depth, so an old depth past 19 panics. */
  function WithDepth(k: Word64, newDepth: nat): (r: Word64)
    requires newDepth <= MAX_DEPTH
    requires newDepth < Depth(k) && newDepth != 0 ==> Depth(k) <= MAX_DEPTH
    ensures Depth(r) == newDepth
  {
    var stored := Store(k, 0, DEPTH_HI, newDepth);
    DepthOfStored(k, newDepth);
    var r := if newDepth < Depth(k) && newDepth != 0
      then Fill(stored, INDICES_LO + 3 * newDepth, INDICES_LO + 3 * Depth(k), false)
      else stored;
    assert r[..DEPTH_HI] == stored[..DEPTH_HI];
    r
  }

  /** `get_index`: the three bits at 5 + 3(depth - 1), for 1 <= depth <= key depth;
      a depth past 19 runs off the end of the word and panics. */
  function GetIndex(k: Word64, depth: nat): nat
    requires 0 < depth <= Depth(k) && depth <= MAX_DEPTH
  {
    Load(k[INDICES_LO + 3 * (depth - 1)..INDICES_LO + 3 * depth])
  }

  /** `set_index`: the u8 index is truncated to its low three bits by the store. */
  function WithIndex(k: Word64, depth: nat, index: nat): (r: Word64)
    requires 0 < depth <= Depth(k) && depth <= MAX_DEPTH && index < 256
    ensures Depth(r) == Depth(k)
  {
    var r := Store(k, INDICES_LO + 3 * (depth - 1), INDICES_LO + 3 * depth, index);
    assert r[..DEPTH_HI] == k[..DEPTH_HI];
    r
  }

  /** `set_corner`: asserts corner < 8 and stores it in bits 61-63. */
  function WithCorner(k: Word64, corner: nat): (r: Word64)
    requires corner < 8
    ensures Depth(r) == Depth(k)
  {
    var r := Store(k, CORNER_LO, CORNER_HI, corner);
    assert r[..DEPTH_HI] == k[..DEPTH_HI];
    r
  }

  function Corner(k: Word64): nat
  {
    Load(k[CORNER_LO..CORNER_HI])
  }

  predicate AtMaxDepth(k: Word64)
  {
    Depth(k) == MAX_DEPTH
  }

  /** `push`: panics at the maximum depth (and, through `set_depth`, beyond it). */
  function Pushed(k: Word64, index: nat): (r: Word64)
    requires Depth(k) < MAX_DEPTH && index < 256
    ensures Depth(r) == Depth(k) + 1
  {
    var d := Depth(k);
    var r := Store(WithDepth(k, d + 1), INDICES_LO + 3 * d, INDICES_LO + 3 * d + 3, index);
    assert r[..DEPTH_HI] == WithDepth(k, d + 1)[..DEPTH_HI];
    r
  }

  /** `pop`: the deepest index and the key one level up. */
  function Popped(k: Word64): (nat, Word64)
    requires 0 < Depth(k) <= MAX_DEPTH
  {
    (GetIndex(k, Depth(k)), WithDepth(k, Depth(k) - 1))
  }

  /** The key whose methods rewrite the packed word in place. */
  class TreeKey {
    var bits: Word64

    /** `TreeKey::default()`: the all-zero word. */
    constructor ()
      ensures bits == Zeros(64) && Depth(bits) == 0 && SanityCheck(bits)
    {
      bits := Zeros(64);
      new;
      RootIsWellFormed();
    }

    method SetDepth(newDepth: nat)
      requires newDepth <= MAX_DEPTH
      requires newDepth < Depth(bits) && newDepth != 0 ==> Depth(bits) <= MAX_DEPTH
      modifies this
      ensures bits == WithDepth(old(bits), newDepth)
    {
      var oldDepth := Depth(bits);
      bits := Store(bits, 0, DEPTH_HI, newDepth);
      if newDepth < oldDepth {
        if newDepth != 0 {
          bits := Fill(bits, INDICES_LO + 3 * newDepth, INDICES_LO + 3 * oldDepth, false);
        }
      }
    }

    method SetIndex(depth: nat, index: nat)
      requires 0 < depth <= Depth(bits) && depth <= MAX_DEPTH && index < 256
      modifies this
      ensures bits == WithIndex(old(bits), depth, index)
    {
      bits := Store(bits, INDICES_LO + 3 * (depth - 1), INDICES_LO + 3 * depth, index);
    }

    method SetCorner(corner: nat)
      requires corner < 8
      modifies this
      ensures bits == WithCorner(old(bits), corner)
    {
      bits := Store(bits, CORNER_LO, CORNER_HI, corner);
    }

    method Push(index: nat)
      requires Depth(bits) < MAX_DEPTH && index < 256
      modifies this
      ensures bits == Pushed(old(bits), index)
    {
      var depth := Depth(bits) + 1;
      SetDepth(depth);
      var startBit := (depth - 1) * 3;
      bits := Store(bits, INDICES_LO + startBit, INDICES_LO + startBit + 3, index);
    }

    method Pop() returns (index: nat)
      requires 0 < Depth(bits) <= MAX_DEPTH
      modifies this
      ensures (index, bits) == Popped(old(bits))
    {
      var depth := Depth(bits);
      index := GetIndex(bits, depth);
      SetDepth(depth - 1);
    }

    /** `corner_keys`: eight copies of this key, copy i with its corner set to i.
        Odd corners set bit 61, a funny bit, so those copies of a well-formed key
        fail the sanity check. */
    method CornerKeys() returns (corners: seq<Word64>)
      ensures |corners| == 8
      ensures forall i :: 0 <= i < 8 ==> Corner(corners[i]) == i
      ensures forall i :: 0 <= i < 8 ==> corners[i][..CORNER_LO] == bits[..CORNER_LO]
      ensures forall i, j :: 0 <= i < j < 8 ==> corners[i] != corners[j]
      ensures SanityCheck(bits) ==> forall i :: 0 <= i < 8 ==> (SanityCheck(corners[i]) <==> i % 2 == 0)
    {
      var key := bits;
      var a := new Word64[8](_ => key);
      var i := 0;
      while i < 8
        invariant 0 <= i <= 8
        invariant forall j :: 0 <= j < i ==> a[j] == WithCorner(bits, j)
        invariant forall j :: i <= j < 8 ==> a[j] == bits
      {
        a[i] := WithCorner(a[i], i);
        i := i + 1;
      }
      corners := a[..];
      forall i | 0 <= i < 8
        ensures Corner(corners[i]) == i && corners[i][..CORNER_LO] == bits[..CORNER_LO]
        ensures SanityCheck(bits) ==> (SanityCheck(corners[i]) <==> i % 2 == 0)
      {
        SetCornerSpec(bits, i);
      }
    }
  }

  /** `from_iter`: push every index of the path onto the default key, then set
      the corner. The corner store happens last, so it overwrites bit 61, which
      the nineteenth index shares with it. */
  method FromIter(path: seq<nat>, corner: nat) returns (k: Word64)
    requires |path| <= MAX_DEPTH && corner < 8
    requires forall i :: 0 <= i < |path| ==> path[i] < 256
    ensures Depth(k) == |path| && Corner(k) == corner
    ensures forall e :: 0 < e <= |path| && e < MAX_DEPTH ==> GetIndex(k, e) == path[e - 1] % 8
    ensures |path| == MAX_DEPTH ==> GetIndex(k, MAX_DEPTH) == path[MAX_DEPTH - 1] % 4 + 4 * (corner % 2)
    ensures SanityCheck(k) <==> corner % 2 == 0 && (|path| == MAX_DEPTH ==> path[MAX_DEPTH - 1] % 4 < 2)
  {
    var key := new TreeKey();
    var i := 0;
    NotAnyZeros(key.bits);
    while i < |path|
      invariant 0 <= i <= |path|
      invariant PushedPrefix(key.bits, path, i)
    {
      PushPathStep(key.bits, path, i);
      key.Push(path[i]);
      i := i + 1;
    }
    var indexed := key.bits;
    key.SetCorner(corner);
    k := key.bits;
    CornerAfterPath(indexed, path, corner);
  }

  lemma DepthOfStored(k: Word64, newDepth: nat)
    requires newDepth < 32
    ensures Depth(Store(k, 0, DEPTH_HI, newDepth)) == newDepth
  {
    Pow2Widths();
    LoadFromNatSmall(newDepth, 5);
  }

  /** In a well-formed key every index bit from 5 + 3 * depth up is clear. */
  lemma HighIndexBitClear(k: Word64, j: nat)
    requires SanityCheck(k) && INDICES_LO + 3 * Depth(k) <= j < INDICES_HI
    ensures !k[j]
  {
    var c := (j - INDICES_LO) / 3;
    assert Chunk(k, c)[j - (INDICES_LO + 3 * c)] == k[j];
  }

  lemma HighBitsClearIsWellFormed(k: Word64)
    requires Depth(k) <= MAX_DEPTH
    requires forall j :: INDICES_LO + 3 * Depth(k) <= j < INDICES_HI ==> !k[j]
    requires !k[FUNNY_LO] && !k[FUNNY_LO + 1]
    ensures SanityCheck(k)
  {
    forall c | 0 <= c < MAX_DEPTH && c >= Depth(k)
      ensures NotAny(Chunk(k, c))
    {
      forall t | 0 <= t < |Chunk(k, c)|
        ensures !Chunk(k, c)[t]
      {
        assert Chunk(k, c)[t] == k[INDICES_LO + 3 * c + t];
      }
    }
    assert forall t :: 0 <= t < 2 ==> k[FUNNY_LO..FUNNY_HI][t] == k[FUNNY_LO + t];
  }

  /** The sanity check, chunk by chunk, is the same as asking that the depth be
      at most 19 and that every bit from 5 + 3 * depth to 61 be clear. */
  lemma WellFormedIffHighBitsClear(k: Word64)
    ensures SanityCheck(k) <==>
      && Depth(k) <= MAX_DEPTH
      && (forall j :: INDICES_LO + 3 * Depth(k) <= j < INDICES_HI ==> !k[j])
      && !k[FUNNY_LO] && !k[FUNNY_LO + 1]
  {
    if SanityCheck(k) {
      forall j | INDICES_LO + 3 * Depth(k) <= j < INDICES_HI
        ensures !k[j]
      {
        HighIndexBitClear(k, j);
      }
      assert k[FUNNY_LO..FUNNY_HI][0] == k[FUNNY_LO];
      assert k[FUNNY_LO..FUNNY_HI][1] == k[FUNNY_LO + 1];
    } else if Depth(k) <= MAX_DEPTH && !k[FUNNY_LO] && !k[FUNNY_LO + 1] {
      if forall j :: INDICES_LO + 3 * Depth(k) <= j < INDICES_HI ==> !k[j] {
        HighBitsClearIsWellFormed(k);
      }
    }
  }

  /** `from_u64(n)` accepts n exactly when its depth is at most 19 and no bit
      from 5 + 3 * depth up to 61 is set, and then gives back n itself. */
  lemma FromU64Spec(n: Word64)
    ensures FromU64(n).Some? <==>
      && Depth(n) <= MAX_DEPTH
      && (forall j :: INDICES_LO + 3 * Depth(n) <= j < INDICES_HI ==> !n[j])
      && !n[FUNNY_LO] && !n[FUNNY_LO + 1]
    ensures FromU64(n).Some? ==> FromU64(n).value == n
  {
    WellFormedIffHighBitsClear(n);
  }

  /** The default key passes the sanity check. */
  lemma RootIsWellFormed()
    ensures Depth(Zeros(64)) == 0 && SanityCheck(Zeros(64))
  {
    var z := Zeros(64);
    LoadZeroIffNotAny(z[..DEPTH_HI]);
    HighBitsClearIsWellFormed(z);
  }

  /** The test's word 0 (`TreeKey::default()`) is accepted; a word with a funny
      bit set, one whose chunk 4 (bits 17-19) is nonzero at depth 4, and one of
      depth 20 are rejected. */
  lemma FromU64Examples(k: Word64)
    ensures Load(k) == 0 ==> FromU64(k) == Some(k)
    ensures k[FUNNY_LO] || k[FUNNY_LO + 1] ==> FromU64(k) == None
    ensures Depth(k) == 4 && Load(k[17..20]) != 0 ==> FromU64(k) == None
    ensures Depth(k) == 20 ==> FromU64(k) == None
  {
    WellFormedIffHighBitsClear(k);
    if Load(k) == 0 {
      LoadZeroIffNotAny(k);
      assert NotAny(k[..DEPTH_HI]);
      LoadZeroIffNotAny(k[..DEPTH_HI]);
    }
    if Depth(k) == 4 && Load(k[17..20]) != 0 {
      LoadZeroIffNotAny(k[17..20]);
      assert Chunk(k, 4) == k[17..20];
    }
  }

  /** `set_depth(n)` always stores n; it clears the index bits 5 + 3n .. 4 + 3 * old depth
      only when the key gets shallower and n is not 0, and touches nothing else. */
  lemma WithDepthSpec(k: Word64, newDepth: nat)
    requires newDepth <= MAX_DEPTH
    requires newDepth < Depth(k) && newDepth != 0 ==> Depth(k) <= MAX_DEPTH
    ensures Depth(WithDepth(k, newDepth)) == newDepth
    ensures forall j :: DEPTH_HI <= j < 64 ==>
      WithDepth(k, newDepth)[j] ==
        if newDepth < Depth(k) && newDepth != 0 && INDICES_LO + 3 * newDepth <= j < INDICES_LO + 3 * Depth(k)
        then false else k[j]
  {
  }

  /** Truncating a well-formed key to a nonzero depth keeps it well-formed and
      keeps the indices above the new depth. */
  lemma TruncateKeepsWellFormed(k: Word64, newDepth: nat)
    requires SanityCheck(k) && 0 < newDepth <= Depth(k)
    ensures SanityCheck(WithDepth(k, newDepth))
    ensures forall e :: 0 < e <= newDepth ==> GetIndex(WithDepth(k, newDepth), e) == GetIndex(k, e)
  {
    var r := WithDepth(k, newDepth);
    WithDepthSpec(k, newDepth);
    WellFormedIffHighBitsClear(k);
    HighBitsClearIsWellFormed(r);
    forall e | 0 < e <= newDepth
      ensures GetIndex(r, e) == GetIndex(k, e)
    {
      assert r[INDICES_LO + 3 * (e - 1)..INDICES_LO + 3 * e] == k[INDICES_LO + 3 * (e - 1)..INDICES_LO + 3 * e];
    }
  }

  /** `set_depth(0)` skips the clearing step, so popping back to the root
      leaves the popped index in bits 5-7: the key no longer passes the sanity
      check whenever the index was not 0. */
  lemma PopToRootLeavesStaleIndex(k: Word64, index: nat)
    requires SanityCheck(k) && Depth(k) == 0 && index < 256 && index % 8 != 0
    ensures Popped(Pushed(k, index)).0 == index % 8
    ensures Depth(Popped(Pushed(k, index)).1) == 0
    ensures Load(Popped(Pushed(k, index)).1[INDICES_LO..INDICES_LO + 3]) == index % 8
    ensures !SanityCheck(Popped(Pushed(k, index)).1)
  {
    var p := Pushed(k, index);
    PushSpec(k, index);
    var q := WithDepth(p, 0);
    WithDepthSpec(p, 0);
    assert Chunk(q, 0) == p[INDICES_LO..INDICES_LO + 3];
    if NotAny(Chunk(q, 0)) {
      LoadZeroIffNotAny(Chunk(q, 0));
    }
  }

  /** `push(i)` raises the depth by one, stores i (mod 8) in bits 5 + 3d .. 7 + 3d,
      and leaves every other bit above the depth field alone. */
  lemma PushSpec(k: Word64, index: nat)
    requires Depth(k) < MAX_DEPTH && index < 256
    ensures Depth(Pushed(k, index)) == Depth(k) + 1
    ensures GetIndex(Pushed(k, index), Depth(k) + 1) == index % 8
    ensures forall j :: DEPTH_HI <= j < 64 && !(INDICES_LO + 3 * Depth(k) <= j < INDICES_LO + 3 * Depth(k) + 3) ==>
      Pushed(k, index)[j] == k[j]
  {
    var d := Depth(k);
    var p := Pushed(k, index);
    assert p[INDICES_LO + 3 * d..INDICES_LO + 3 * (d + 1)] == FromNat(index, 3);
    Pow2Widths();
    LoadFromNat(index, 3);
  }

  /** Pushing onto a key whose bits past the depth are clear keeps them clear
      past the new depth and keeps the earlier indices. */
  lemma PushOntoClearTail(k: Word64, index: nat)
    requires Depth(k) < MAX_DEPTH && index < 256 && NotAny(k[INDICES_LO + 3 * Depth(k)..])
    ensures NotAny(Pushed(k, index)[INDICES_LO + 3 * (Depth(k) + 1)..])
    ensures GetIndex(Pushed(k, index), Depth(k) + 1) == index % 8
    ensures forall e :: 0 < e <= Depth(k) ==> GetIndex(Pushed(k, index), e) == GetIndex(k, e)
  {
    var d := Depth(k);
    var p := Pushed(k, index);
    PushSpec(k, index);
    var lo := INDICES_LO + 3 * (d + 1);
    forall t | 0 <= t < |p[lo..]|
      ensures !p[lo..][t]
    {
      assert k[INDICES_LO + 3 * d..][3 + t] == k[lo + t];
    }
    forall e | 0 < e <= d
      ensures GetIndex(p, e) == GetIndex(k, e)
    {
      assert p[INDICES_LO + 3 * (e - 1)..INDICES_LO + 3 * e] == k[INDICES_LO + 3 * (e - 1)..INDICES_LO + 3 * e];
    }
  }

  /** Below depth 18, `push` keeps a well-formed key well-formed. */
  lemma PushKeepsWellFormed(k: Word64, index: nat)
    requires SanityCheck(k) && Depth(k) + 1 < MAX_DEPTH && index < 256
    ensures SanityCheck(Pushed(k, index))
  {
    var p := Pushed(k, index);
    PushSpec(k, index);
    WellFormedIffHighBitsClear(k);
    HighBitsClearIsWellFormed(p);
  }

  /** The three bits 59-61 of the nineteenth index include both funny bits:
      storing i there leaves them clear exactly when i (mod 8) is 0 or 1. */
  lemma DeepestFieldFunnyBits(k: Word64, index: nat)
    requires index < 256
    ensures (!Store(k, 59, 62, index)[FUNNY_LO] && !Store(k, 59, 62, index)[FUNNY_LO + 1]) <==> index % 8 < 2
  {
    var s := FromNat(index, 3);
    assert Store(k, 59, 62, index)[59..62] == s;
    LoadFromNat(index, 3);
    Pow2Widths();
    Load3(s);
  }

  /** Pushing onto depth 18 writes the funny bits 60-61: the result passes the
      sanity check exactly when the pushed index (mod 8) is 0 or 1. */
  lemma DeepestPushFunnyBits(k: Word64, index: nat)
    requires SanityCheck(k) && Depth(k) + 1 == MAX_DEPTH && index < 256
    ensures SanityCheck(Pushed(k, index)) <==> index % 8 < 2
  {
    var p := Pushed(k, index);
    DeepestFieldFunnyBits(WithDepth(k, MAX_DEPTH), index);
    WellFormedIffHighBitsClear(p);
  }

  /** On a well-formed key of depth at least 1, `pop` undoes `push(i)` bit for
      bit and returns i (mod 8), also when the push reached depth 19. */
  lemma PushPopRoundTrip(k: Word64, index: nat)
    requires SanityCheck(k) && 0 < Depth(k) < MAX_DEPTH && index < 256
    ensures Popped(Pushed(k, index)) == (index % 8, k)
  {
    var d := Depth(k);
    var p := Pushed(k, index);
    PushSpec(k, index);
    var q := WithDepth(p, d);
    assert Popped(p).0 == index % 8;
    assert q == k by {
      assert q[DEPTH_HI..] == k[DEPTH_HI..] by {
        PopAfterPushBits(k, index);
      }
      LoadInjective(q[..DEPTH_HI], k[..DEPTH_HI]);
      assert q == q[..DEPTH_HI] + q[DEPTH_HI..];
      assert k == k[..DEPTH_HI] + k[DEPTH_HI..];
    }
  }

  /** Above the depth field, popping a pushed index restores every bit. */
  lemma PopAfterPushBits(k: Word64, index: nat)
    requires SanityCheck(k) && 0 < Depth(k) < MAX_DEPTH && index < 256
    ensures WithDepth(Pushed(k, index), Depth(k))[DEPTH_HI..] == k[DEPTH_HI..]
  {
    var q := WithDepth(Pushed(k, index), Depth(k));
    forall j | DEPTH_HI <= j < 64
      ensures q[j] == k[j]
    {
      PopAfterPushBit(k, index, j);
    }
  }

  lemma PopAfterPushBit(k: Word64, index: nat, j: nat)
    requires SanityCheck(k) && 0 < Depth(k) < MAX_DEPTH && index < 256 && DEPTH_HI <= j < 64
    ensures WithDepth(Pushed(k, index), Depth(k))[j] == k[j]
  {
    var d := Depth(k);
    var p := Pushed(k, index);
    PushSpec(k, index);
    WithDepthSpec(p, d);
    if INDICES_LO + 3 * d <= j < INDICES_LO + 3 * d + 3 {
      if j < INDICES_HI {
        HighIndexBitClear(k, j);
      } else {
        assert k[FUNNY_LO..FUNNY_HI][j - FUNNY_LO] == k[j];
      }
    }
  }

  /** `set_index(d, v)` makes `get_index(d)` read v (mod 8), leaves the depth
      and every bit outside the field alone, and keeps a well-formed key
      well-formed unless d = 19 and v sets a funny bit. */
  lemma SetIndexSpec(k: Word64, depth: nat, index: nat)
    requires 0 < depth <= Depth(k) && depth <= MAX_DEPTH && index < 256
    ensures Depth(WithIndex(k, depth, index)) == Depth(k)
    ensures GetIndex(WithIndex(k, depth, index), depth) == index % 8
    ensures forall j :: DEPTH_HI <= j < 64 && !(INDICES_LO + 3 * (depth - 1) <= j < INDICES_LO + 3 * depth) ==>
      WithIndex(k, depth, index)[j] == k[j]
    ensures SanityCheck(k) ==> (SanityCheck(WithIndex(k, depth, index)) <==> depth < MAX_DEPTH || index % 8 < 2)
  {
    var r := WithIndex(k, depth, index);
    assert r[INDICES_LO + 3 * (depth - 1)..INDICES_LO + 3 * depth] == FromNat(index, 3);
    Pow2Widths();
    LoadFromNat(index, 3);
    if SanityCheck(k) {
      WellFormedIffHighBitsClear(k);
      WellFormedIffHighBitsClear(r);
      if depth == MAX_DEPTH {
        DeepestFieldFunnyBits(k, index);
      }
    }
  }

  /** `set_corner(c)` makes `corner()` read c and leaves bits 0-60 (the depth
      and all but the last index field) alone; bit 61 becomes c's low bit, so an
      odd corner makes any key fail the sanity check. */
  lemma SetCornerSpec(k: Word64, corner: nat)
    requires corner < 8
    ensures Corner(WithCorner(k, corner)) == corner
    ensures WithCorner(k, corner)[..CORNER_LO] == k[..CORNER_LO]
    ensures WithCorner(k, corner)[CORNER_LO] == (corner % 2 == 1)
    ensures forall e :: 0 < e <= Depth(k) && e < MAX_DEPTH ==> GetIndex(WithCorner(k, corner), e) == GetIndex(k, e)
    ensures SanityCheck(k) ==> (SanityCheck(WithCorner(k, corner)) <==> corner % 2 == 0)
    ensures corner % 2 == 1 ==> !SanityCheck(WithCorner(k, corner))
  {
    var r := WithCorner(k, corner);
    assert r[CORNER_LO..CORNER_HI] == FromNat(corner, 3);
    Pow2Widths();
    LoadFromNatSmall(corner, 3);
    forall e | 0 < e <= Depth(k) && e < MAX_DEPTH
      ensures GetIndex(r, e) == GetIndex(k, e)
    {
      assert r[INDICES_LO + 3 * (e - 1)..INDICES_LO + 3 * e] == k[INDICES_LO + 3 * (e - 1)..INDICES_LO + 3 * e];
    }
    WellFormedIffHighBitsClear(k);
    WellFormedIffHighBitsClear(r);
  }

  /** At depth 19 the last index field (bits 59-61) and the corner field
      (bits 61-63) share bit 61: the index's high bit is the corner's low bit. */
  lemma DeepestIndexSharesCornerBit(k: Word64)
    requires Depth(k) == MAX_DEPTH
    ensures GetIndex(k, MAX_DEPTH) / 4 == Corner(k) % 2
  {
    Load3(k[59..62]);
    Load3(k[CORNER_LO..CORNER_HI]);
  }

  /** After i steps of the `from_iter` loop: depth i, the first i indices of the
      path (mod 8), and nothing set from bit 5 + 3i up. */
  predicate PushedPrefix(b: Word64, path: seq<nat>, i: nat)
    requires i <= |path| <= MAX_DEPTH
  {
    && Depth(b) == i
    && (forall e :: 0 < e <= i ==> GetIndex(b, e) == path[e - 1] % 8)
    && NotAny(b[INDICES_LO + 3 * i..])
  }

  lemma NotAnyZeros(k: Word64)
    requires k == Zeros(64)
    ensures NotAny(k[INDICES_LO + 3 * 0..])
  {
  }

  lemma PushPathStep(b: Word64, path: seq<nat>, i: nat)
    requires i < |path| <= MAX_DEPTH && path[i] < 256 && PushedPrefix(b, path, i)
    ensures PushedPrefix(Pushed(b, path[i]), path, i + 1)
  {
    PushOntoClearTail(b, path[i]);
  }

  /** What `from_iter` reads back once the path is pushed and the corner set. */
  lemma CornerAfterPath(b: Word64, path: seq<nat>, corner: nat)
    requires |path| <= MAX_DEPTH && corner < 8
    requires forall i :: 0 <= i < |path| ==> path[i] < 256
    requires PushedPrefix(b, path, |path|)
    ensures Depth(WithCorner(b, corner)) == |path| && Corner(WithCorner(b, corner)) == corner
    ensures forall e :: 0 < e <= |path| && e < MAX_DEPTH ==> GetIndex(WithCorner(b, corner), e) == path[e - 1] % 8
    ensures |path| == MAX_DEPTH ==>
      GetIndex(WithCorner(b, corner), MAX_DEPTH) == path[MAX_DEPTH - 1] % 4 + 4 * (corner % 2)
    ensures SanityCheck(WithCorner(b, corner)) <==>
      corner % 2 == 0 && (|path| == MAX_DEPTH ==> path[MAX_DEPTH - 1] % 4 < 2)
  {
    var r := WithCorner(b, corner);
    var n := |path|;
    SetCornerSpec(b, corner);
    WellFormedIffHighBitsClear(r);
    forall j | INDICES_LO + 3 * n <= j < 64
      ensures !b[j]
    {
      assert b[INDICES_LO + 3 * n..][j - (INDICES_LO + 3 * n)] == b[j];
    }
    if n == MAX_DEPTH {
      LastPathIndex(b, r, path[MAX_DEPTH - 1], corner);
    }
  }

  /** The nineteenth index after the corner store: its two low bits are the
      pushed index's, its high bit is the corner's low bit. */
  lemma LastPathIndex(b: Word64, r: Word64, index: nat, corner: nat)
    requires Depth(b) == MAX_DEPTH && corner < 8 && r == WithCorner(b, corner)
    requires GetIndex(b, MAX_DEPTH) == index % 8
    ensures GetIndex(r, MAX_DEPTH) == index % 4 + 4 * (corner % 2)
    ensures index % 4 < 2 <==> !r[FUNNY_LO]
  {
    SetCornerSpec(b, corner);
    Load3(b[59..62]);
    Load3(r[59..62]);
    var lo := (if b[59] then 1 else 0) + 2 * (if b[60] then 1 else 0);
    var hi := if b[61] then 1 else 0;
    ModUnique(index, 4, 2 * (index / 8) + hi, lo);
  }

  /** The unit test's key (depth 4, nothing set from bit 17 to bit 61) is
      accepted; `set_depth(1)`, `push(4)` and `set_index(1, 7)` keep it
      well-formed; `pop` then returns 4 and leaves a well-formed key whose
      first index is 7. */
  lemma ModifyExample(k: Word64)
    requires Depth(k) == 4 && NotAny(k[17..FUNNY_HI])
    ensures FromU64(k) == Some(k)
    ensures SanityCheck(WithDepth(k, 1))
    ensures SanityCheck(Pushed(WithDepth(k, 1), 4))
    ensures SanityCheck(WithIndex(Pushed(WithDepth(k, 1), 4), 1, 7))
    ensures Popped(WithIndex(Pushed(WithDepth(k, 1), 4), 1, 7)).0 == 4
    ensures SanityCheck(Popped(WithIndex(Pushed(WithDepth(k, 1), 4), 1, 7)).1)
    ensures GetIndex(Popped(WithIndex(Pushed(WithDepth(k, 1), 4), 1, 7)).1, 1) == 7
  {
    ExampleKeyAccepted(k);
    ExampleSteps(WithDepth(k, 1));
  }

  lemma ExampleKeyAccepted(k: Word64)
    requires Depth(k) == 4 && NotAny(k[17..FUNNY_HI])
    ensures FromU64(k) == Some(k)
    ensures SanityCheck(WithDepth(k, 1))
  {
    assert forall j :: 17 <= j < FUNNY_HI ==> k[17..FUNNY_HI][j - 17] == k[j];
    HighBitsClearIsWellFormed(k);
    TruncateKeepsWellFormed(k, 1);
  }

  lemma ExampleSteps(k1: Word64)
    requires SanityCheck(k1) && Depth(k1) == 1
    ensures SanityCheck(Pushed(k1, 4))
    ensures SanityCheck(WithIndex(Pushed(k1, 4), 1, 7))
    ensures Popped(WithIndex(Pushed(k1, 4), 1, 7)).0 == 4
    ensures SanityCheck(Popped(WithIndex(Pushed(k1, 4), 1, 7)).1)
    ensures GetIndex(Popped(WithIndex(Pushed(k1, 4), 1, 7)).1, 1) == 7
  {
    var k2 := Pushed(k1, 4);
    PushKeepsWellFormed(k1, 4);
    PushSpec(k1, 4);
    ExampleSetIndex(k2);
    ExamplePop(WithIndex(k2, 1, 7));
  }

  lemma ExampleSetIndex(k2: Word64)
    requires SanityCheck(k2) && Depth(k2) == 2 && GetIndex(k2, 2) == 4
    ensures SanityCheck(WithIndex(k2, 1, 7))
    ensures GetIndex(WithIndex(k2, 1, 7), 1) == 7
    ensures GetIndex(WithIndex(k2, 1, 7), 2) == 4
  {
    var k3 := WithIndex(k2, 1, 7);
    SetIndexSpec(k2, 1, 7);
    assert k3[INDICES_LO + 3..INDICES_LO + 6] == k2[INDICES_LO + 3..INDICES_LO + 6];
  }

  lemma ExamplePop(k3: Word64)
    requires SanityCheck(k3) && Depth(k3) == 2 && GetIndex(k3, 1) == 7 && GetIndex(k3, 2) == 4
    ensures Popped(k3).0 == 4
    ensures SanityCheck(Popped(k3).1)
    ensures GetIndex(Popped(k3).1, 1) == 7
  {
    TruncateKeepsWellFormed(k3, 1);
  }
}
