/** The linear octree: a map from tree keys to densities. */
module LinearOctrees {
  import opened Bits
  import opened TreeKeys

  class LinearOctree {
    var buf: map<Word64, real>

    /** `LinearOctree::new`: insert the corner keys of the default key, each
        with density -1. The source asserts that no insert finds the key
        already present; the loop proves it. The keys stored are exactly the
        words with no bit set below the corner field. */
    constructor ()
      ensures |buf| == 8
      ensures forall key: Word64 :: key in buf <==> NotAny(key[..CORNER_LO])
      ensures forall c :: 0 <= c < 8 ==> WithCorner(Zeros(64), c) in buf
      ensures forall key :: key in buf ==> buf[key] == -1.0
    {
      var rootKeys := RootCornerKeys();
      var m: map<Word64, real> := map[];
      var i := 0;
      while i < 8
        invariant 0 <= i <= 8
        invariant |m| == i
        invariant forall key :: key in m <==> key in rootKeys[..i]
        invariant forall key :: key in m ==> m[key] == -1.0
      {
        assert rootKeys[i] !in m;
        m := m[rootKeys[i] := -1.0];
        i := i + 1;
      }
      buf := m;
    }
  }

  /** `TreeKey::default().corner_keys()`. */
  method RootCornerKeys() returns (keys: seq<Word64>)
    ensures |keys| == 8
    ensures forall i, j :: 0 <= i < j < 8 ==> keys[i] != keys[j]
    ensures forall c :: 0 <= c < 8 ==> keys[c] == WithCorner(Zeros(64), c)
    ensures forall key: Word64 :: key in keys[..8] <==> NotAny(key[..CORNER_LO])
  {
    var root := new TreeKey();
    keys := root.CornerKeys();
    RootCornerKeysSpec(keys);
  }

  /** The corner keys of the default key are the corner stores into the zero
      word, and they are exactly the words with no bit set below bit 61. */
  lemma RootCornerKeysSpec(keys: seq<Word64>)
    requires |keys| == 8
    requires forall i :: 0 <= i < 8 ==> Corner(keys[i]) == i && keys[i][..CORNER_LO] == Zeros(64)[..CORNER_LO]
    ensures forall c :: 0 <= c < 8 ==> keys[c] == WithCorner(Zeros(64), c)
    ensures forall key: Word64 :: key in keys[..8] <==> NotAny(key[..CORNER_LO])
  {
    forall c | 0 <= c < 8
      ensures keys[c] == WithCorner(Zeros(64), c)
    {
      SetCornerSpec(Zeros(64), c);
      SameFieldsSameKey(keys[c], WithCorner(Zeros(64), c));
    }
    forall key: Word64
      ensures key in keys[..8] <==> NotAny(key[..CORNER_LO])
    {
      if NotAny(key[..CORNER_LO]) {
        var c := Corner(key);
        assert c < 8 by {
          Pow2Widths();
        }
        assert key[..CORNER_LO] == keys[c][..CORNER_LO];
        SameFieldsSameKey(key, keys[c]);
        assert keys[..8][c] == key;
      }
      if key in keys[..8] {
        var j :| 0 <= j < 8 && keys[..8][j] == key;
        assert key[..CORNER_LO] == Zeros(64)[..CORNER_LO];
      }
    }
  }

  /** Two keys agreeing below the corner field and on the corner are equal. */
  lemma SameFieldsSameKey(a: Word64, b: Word64)
    requires a[..CORNER_LO] == b[..CORNER_LO] && Corner(a) == Corner(b)
    ensures a == b
  {
    LoadInjective(a[CORNER_LO..CORNER_HI], b[CORNER_LO..CORNER_HI]);
    assert a == a[..CORNER_LO] + a[CORNER_LO..CORNER_HI];
    assert b == b[..CORNER_LO] + b[CORNER_LO..CORNER_HI];
  }
}
