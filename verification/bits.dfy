/** Little-endian bit views of machine words.
    A packed key is read the way the `bitvec` crate's `LocalBits` view reads a
    `u64`/`u32` on the target: element k of the sequence is bit k, of weight 2^k.
    `Load` and `Store` are that crate's `BitField::load`/`store` on a slice,
    `Fill` is `BitSlice::fill`. */
module Bits {

  type Word64 = s: seq<bool> | |s| == 64 witness seq(64, _ => false)
  type Word32 = s: seq<bool> | |s| == 32 witness seq(32, _ => false)

  function Pow2(n: nat): (r: nat)
    ensures r >= 1
  {
    if n == 0 then 1 else 2 * Pow2(n - 1)
  }

  /** The field widths used by the keys: a 3-bit index and a 5-bit depth. */
  lemma Pow2Widths()
    ensures Pow2(3) == 8 && Pow2(5) == 32
  {
    assert Pow2(1) == 2;
    assert Pow2(2) == 4;
    assert Pow2(4) == 16;
  }

  /** All-zero word of width w. */
  function Zeros(w: nat): (r: seq<bool>)
    ensures |r| == w && forall k :: 0 <= k < w ==> !r[k]
  {
    seq(w, _ => false)
  }

  /** Unsigned value of a bit slice, bit 0 least significant. */
  function Load(s: seq<bool>): (r: nat)
    ensures r < Pow2(|s|)
  {
    if s == [] then 0 else (if s[0] then 1 else 0) + 2 * Load(s[1..])
  }

  /** The low w bits of v, bit 0 first: what `store` writes into a w-bit slice. */
  function FromNat(v: nat, w: nat): (r: seq<bool>)
    ensures |r| == w
  {
    if w == 0 then [] else [v % 2 == 1] + FromNat(v / 2, w - 1)
  }

  /** `slice[lo..hi].store(v)`: the slice takes the low bits of v, the rest is untouched. */
  function Store(s: seq<bool>, lo: nat, hi: nat, v: nat): (r: seq<bool>)
    requires lo <= hi <= |s|
    ensures |r| == |s| && r[lo..hi] == FromNat(v, hi - lo)
    ensures forall k :: 0 <= k < |s| && !(lo <= k < hi) ==> r[k] == s[k]
  {
    var r := s[..lo] + FromNat(v, hi - lo) + s[hi..];
    assert r[lo..hi] == FromNat(v, hi - lo);
    r
  }

  /** `slice[lo..hi].fill(b)`. */
  function Fill(s: seq<bool>, lo: nat, hi: nat, b: bool): (r: seq<bool>)
    requires lo <= hi <= |s|
    ensures |r| == |s|
    ensures forall k :: 0 <= k < |s| ==> r[k] == if lo <= k < hi then b else s[k]
  {
    s[..lo] + seq(hi - lo, _ => b) + s[hi..]
  }

  /** `BitSlice::not_any`. */
  predicate NotAny(s: seq<bool>) {
    forall k :: 0 <= k < |s| ==> !s[k]
  }

  lemma MulMono(m: nat, x: nat, y: nat)
    requires x <= y
    ensures m * x <= m * y
  {
  }

  lemma ModUnique(v: nat, m: nat, a: nat, c: nat)
    requires m >= 1 && v == m * a + c && c < m
    ensures v % m == c
  {
    var q, r := v / m, v % m;
    assert v == m * q + r;
    if q > a {
      MulMono(m, a + 1, q);
      assert false;
    } else if q < a {
      MulMono(m, q + 1, a);
      assert false;
    }
  }

  lemma ModSmall(v: nat, m: nat)
    requires v < m
    ensures v % m == v
  {
    ModUnique(v, m, 0, v);
  }

  lemma ModDouble(v: nat, p: nat)
    requires p >= 1
    ensures v % 2 + 2 * ((v / 2) % p) == v % (2 * p)
  {
    var q := v / 2;
    var b := q % p;
    var a := q / p;
    assert q == p * a + b;
    assert v == 2 * p * a + (2 * b + v % 2);
    ModUnique(v, 2 * p, a, 2 * b + v % 2);
  }

  /** Loading what was stored gives back the stored value, truncated to the slice width. */
  lemma {:induction false} LoadFromNat(v: nat, w: nat)
    ensures Load(FromNat(v, w)) == v % Pow2(w)
  {
    if w > 0 {
      var s := FromNat(v, w);
      assert s[1..] == FromNat(v / 2, w - 1);
      LoadFromNat(v / 2, w - 1);
      ModDouble(v, Pow2(w - 1));
    }
  }

  /** A value that fits is loaded back unchanged. */
  lemma LoadFromNatSmall(v: nat, w: nat)
    requires v < Pow2(w)
    ensures Load(FromNat(v, w)) == v
  {
    LoadFromNat(v, w);
  }

  /** Storing what was loaded rewrites the same bits. */
  lemma {:induction false} FromNatLoad(s: seq<bool>)
    ensures FromNat(Load(s), |s|) == s
  {
    if s != [] {
      FromNatLoad(s[1..]);
      var v := Load(s);
      assert v / 2 == Load(s[1..]);
      assert (v % 2 == 1) == s[0];
    }
  }

  /** Only the low w bits of v are stored. */
  lemma FromNatMod(v: nat, w: nat)
    ensures FromNat(v, w) == FromNat(v % Pow2(w), w)
  {
    var m := v % Pow2(w);
    LoadFromNat(v, w);
    LoadFromNat(m, w);
    ModSmall(m, Pow2(w));
    LoadInjective(FromNat(v, w), FromNat(m, w));
  }

  /** The value of a three-bit slice. */
  lemma Load3(s: seq<bool>)
    requires |s| == 3
    ensures Load(s) == (if s[0] then 1 else 0) + 2 * (if s[1] then 1 else 0) + 4 * (if s[2] then 1 else 0)
  {
    var t := s[1..];
    assert Load(t) == (if s[1] then 1 else 0) + 2 * Load(t[1..]);
    assert Load(t[1..]) == (if s[2] then 1 else 0) + 2 * Load(t[1..][1..]);
    assert t[1..][1..] == [];
  }

  /** Two slices of equal width with the same value are the same bits. */
  lemma LoadInjective(s: seq<bool>, t: seq<bool>)
    requires |s| == |t| && Load(s) == Load(t)
    ensures s == t
  {
    FromNatLoad(s);
    FromNatLoad(t);
  }

  /** A slice loads as zero exactly when no bit of it is set. */
  lemma {:induction false} LoadZeroIffNotAny(s: seq<bool>)
    ensures Load(s) == 0 <==> NotAny(s)
  {
    if s != [] {
      LoadZeroIffNotAny(s[1..]);
      assert NotAny(s) <==> !s[0] && NotAny(s[1..]);
    }
  }

  /** The value of a concatenation: the high part is weighted by 2^|low part|. */
  lemma {:induction false} LoadAppend(a: seq<bool>, b: seq<bool>)
    ensures Load(a + b) == Load(a) + Pow2(|a|) * Load(b)
  {
    if a != [] {
      assert (a + b)[1..] == a[1..] + b;
      LoadAppend(a[1..], b);
      DoubleProduct(Pow2(|a| - 1), Load(b));
    } else {
      assert a + b == b;
    }
  }

  /** Splitting a slice at m: the high part is weighted by 2^m. */
  lemma LoadSplit(s: seq<bool>, m: nat)
    requires m <= |s|
    ensures Load(s) == Load(s[..m]) + Pow2(m) * Load(s[m..])
  {
    assert s == s[..m] + s[m..];
    LoadAppend(s[..m], s[m..]);
  }

  /** Clear high bits do not contribute to the value. */
  lemma LoadLow(s: seq<bool>, m: nat)
    requires m <= |s| && NotAny(s[m..])
    ensures Load(s) == Load(s[..m])
  {
    LoadZeroIffNotAny(s[m..]);
    var hi := Load(s[m..]);
    assert hi == 0;
    LoadSplit(s, m);
    MulZero(Pow2(m), hi);
  }

  /** Storing v into s[lo..hi] changes the value of s by 2^lo times the
      difference between the new field value (v truncated) and the old one. */
  lemma {:induction false} LoadStore(s: seq<bool>, lo: nat, hi: nat, v: nat)
    requires lo <= hi <= |s|
    ensures Load(Store(s, lo, hi, v)) + Pow2(lo) * Load(s[lo..hi]) == Load(s) + Pow2(lo) * (v % Pow2(hi - lo))
  {
    if lo == 0 {
      LoadStoreAtZero(s, lo, hi, v);
    } else {
      LoadStore(s[1..], lo - 1, hi - 1, v);
      LoadStoreShift(s, lo, hi, v);
    }
  }

  /** The inductive step of `LoadStore`: from the tail to the whole slice. */
  lemma LoadStoreShift(s: seq<bool>, lo: nat, hi: nat, v: nat)
    requires 0 < lo <= hi <= |s|
    requires Load(Store(s[1..], lo - 1, hi - 1, v)) + Pow2(lo - 1) * Load(s[1..][lo - 1..hi - 1])
      == Load(s[1..]) + Pow2(lo - 1) * (v % Pow2((hi - 1) - (lo - 1)))
    ensures Load(Store(s, lo, hi, v)) + Pow2(lo) * Load(s[lo..hi]) == Load(s) + Pow2(lo) * (v % Pow2(hi - lo))
  {
    assert (hi - 1) - (lo - 1) == hi - lo;
    StoreTail(s, lo, hi, v);
    ShiftStep(Load(Store(s, lo, hi, v)), Load(s), Load(Store(s[1..], lo - 1, hi - 1, v)), Load(s[1..]),
      if s[0] then 1 else 0, Pow2(lo - 1), Load(s[lo..hi]), v % Pow2(hi - lo));
  }

  /** `LoadStore` for a value that fits the field, with the old field value and
      the field's weight named by the caller. */
  lemma LoadStoreFits(s: seq<bool>, lo: nat, hi: nat, v: nat, old_: nat, p: nat)
    requires lo <= hi <= |s| && v < Pow2(hi - lo) && old_ == Load(s[lo..hi]) && p == Pow2(lo)
    ensures Load(Store(s, lo, hi, v)) + p * old_ == Load(s) + p * v
  {
    LoadStore(s, lo, hi, v);
    ModSmall(v, Pow2(hi - lo));
  }

  /** Storing into a clear field adds the stored value at the field's weight. */
  lemma StoreIntoClearField(s: seq<bool>, lo: nat, hi: nat, v: nat)
    requires lo <= hi <= |s| && NotAny(s[lo..hi]) && v < Pow2(hi - lo)
    ensures Load(Store(s, lo, hi, v)) == Load(s) + Pow2(lo) * v
  {
    LoadZeroIffNotAny(s[lo..hi]);
    LoadStoreFits(s, lo, hi, v, 0, Pow2(lo));
    MulZero(Pow2(lo), 0);
  }

  /** Storing past the first bit is storing into the tail. */
  lemma StoreTail(s: seq<bool>, lo: nat, hi: nat, v: nat)
    requires 0 < lo <= hi <= |s|
    ensures Load(Store(s, lo, hi, v)) == (if s[0] then 1 else 0) + 2 * Load(Store(s[1..], lo - 1, hi - 1, v))
    ensures s[1..][lo - 1..hi - 1] == s[lo..hi]
  {
    var r := Store(s, lo, hi, v);
    assert r[1..] == Store(s[1..], lo - 1, hi - 1, v);
  }

  lemma ShiftStep(lr: nat, ls: nat, lr': nat, ls': nat, b: nat, p: nat, m: nat, f: nat)
    requires lr == b + 2 * lr' && ls == b + 2 * ls' && lr' + p * m == ls' + p * f
    ensures lr + (2 * p) * m == ls + (2 * p) * f
  {
    DoubleProduct(p, m);
    DoubleProduct(p, f);
  }

  lemma LoadStoreAtZero(s: seq<bool>, lo: nat, hi: nat, v: nat)
    requires lo == 0 && hi <= |s|
    ensures Load(Store(s, lo, hi, v)) + Pow2(lo) * Load(s[lo..hi]) == Load(s) + Pow2(lo) * (v % Pow2(hi - lo))
  {
    var r := Store(s, 0, hi, v);
    LoadFromNat(v, hi);
    LoadSplit(r, hi);
    LoadSplit(s, hi);
    assert r[hi..] == s[hi..];
    assert r[..hi] == FromNat(v, hi);
    assert s[lo..hi] == s[..hi];
  }

  /** Filling with clear bits is storing 0. */
  lemma FillFalseIsStoreZero(s: seq<bool>, lo: nat, hi: nat)
    requires lo <= hi <= |s|
    ensures Fill(s, lo, hi, false) == Store(s, lo, hi, 0)
  {
    ZeroBits(hi - lo);
  }

  lemma {:induction false} ZeroBits(w: nat)
    ensures FromNat(0, w) == Zeros(w)
  {
    if w > 0 {
      ZeroBits(w - 1);
    }
  }

  lemma MulZero(p: nat, z: nat)
    requires z == 0
    ensures p * z == 0
  {
  }

  lemma DoubleProduct(p: nat, l: nat)
    ensures 2 * (p * l) == (2 * p) * l
  {
  }
}
