/** Whether the 8 corner densities of a cell straddle the isosurface (the
    zero level): some two consecutive values differ in sign. Negative
    densities are empty space, the rest solid. */
module Surfaces {
  /** `f32::signum` over reals: 1 for zero and positive values, -1 for
      negative ones. */
  function Signum(x: real): (s: real)
    ensures s == 1.0 <==> x >= 0.0
    ensures s == -1.0 <==> x < 0.0
  {
    if x >= 0.0 then 1.0 else -1.0
  }

  /** `f32::is_sign_negative` over reals. */
  predicate SignNegative(x: real) {
    x < 0.0
  }

  /** Window `i` of `windows(2)` compares signums. */
  predicate SignumDiffersAt(v: seq<real>, i: nat)
    requires i + 1 < |v|
  {
    Signum(v[i]) != Signum(v[i + 1])
  }

  /** Window `i` of `windows(2)` compares sign-negativity. */
  predicate NegativityDiffersAt(v: seq<real>, i: nat)
    requires i + 1 < |v|
  {
    SignNegative(v[i]) != SignNegative(v[i + 1])
  }

  /** `values.windows(2).any(|w| w[0].signum() != w[1].signum())`, the test
      of `naive_octree.rs`. */
  predicate SignumChange(v: seq<real>) {
    exists i: nat :: i + 1 < |v| && SignumDiffersAt(v, i)
  }

  /** `values.windows(2).any(|w| w[0].is_sign_negative() != w[1].is_sign_negative())`,
      the test of `octant_map/mod.rs`. */
  predicate NegativityChange(v: seq<real>) {
    exists i: nat :: i + 1 < |v| && NegativityDiffersAt(v, i)
  }

  /** Over reals the two tests agree: `signum` is 1 exactly when the value is
      not negative. */
  lemma SignTestsAgree(v: seq<real>)
    ensures SignumChange(v) <==> NegativityChange(v)
  {
    if SignumChange(v) {
      var i: nat :| i + 1 < |v| && SignumDiffersAt(v, i);
      assert NegativityDiffersAt(v, i);
    }
    if NegativityChange(v) {
      var i: nat :| i + 1 < |v| && NegativityDiffersAt(v, i);
      assert SignumDiffersAt(v, i);
    }
  }

  /** The windowed test finds a sign change exactly when not every value has
      the sign of the first. */
  lemma NegativityChangeIff(v: seq<real>)
    ensures NegativityChange(v) <==> exists j :: 0 <= j < |v| && SignNegative(v[j]) != SignNegative(v[0])
  {
    if NegativityChange(v) {
      var i: nat :| i + 1 < |v| && NegativityDiffersAt(v, i);
      if SignNegative(v[i]) != SignNegative(v[0]) {
        assert 0 <= i < |v| && SignNegative(v[i]) != SignNegative(v[0]);
      } else {
        assert 0 <= i + 1 < |v| && SignNegative(v[i + 1]) != SignNegative(v[0]);
      }
    } else {
      forall j | 0 <= j < |v|
        ensures SignNegative(v[j]) == SignNegative(v[0])
      {
        NoChangeSameSign(v, j);
      }
    }
  }

  /** Without a sign change between neighbours, every value has the sign of
      the first. */
  lemma {:induction false} NoChangeSameSign(v: seq<real>, j: nat)
    requires !NegativityChange(v) && j < |v|
    ensures SignNegative(v[j]) == SignNegative(v[0])
  {
    if j > 0 {
      NoChangeSameSign(v, j - 1);
      assert !NegativityDiffersAt(v, j - 1);
    }
  }
}
