/** `OctantMap` (`octant_map/mod.rs`): the terrain as a flat map from octant
    keys to the 8 corner densities of each octant, beside the set of keys
    that are leaves. */
module OctantMaps {
  import opened Bits
  import opened OctantKeys
  import opened Surfaces
  import opened Subdivision
  import opened Geometry
  import opened Aabbs
  import opened Actions
  import opened Options
  import Tools

  type Octants = map<Word64, seq<real>>

  /** Every key in the map is well-formed and holds 8 corner values. */
  predicate KeysValid(o: Octants) {
    forall k :: k in o ==> SanityCheck(k) && |o[k]| == 8
  }

  /** `has_children`: the map holds the key of child 0. The `push` inside
      panics at the maximum depth. */
  predicate HasChildrenIn(o: Octants, k: Word64)
    requires Depth(k) < MAX_DEPTH
  {
    Pushed(k, 0) in o
  }

  /** `intersects_surface`: the sign bits of two neighbouring values differ. */
  predicate IntersectsSurfaceIn(o: Octants, k: Word64)
    requires k in o
  {
    NegativityChange(o[k])
  }

  /** The keys of children 0 to n - 1. `children()` is the 8 keys
      `push(0)` .. `push(7)` applied to copies of the key. */
  function ChildPrefix(k: Word64, n: nat): set<Word64>
    requires Depth(k) < MAX_DEPTH && n <= 8
  {
    set i: nat | i < n :: Pushed(k, i)
  }

  /** The leaf set is exactly the keys of the map that are at the maximum
      depth or have no children. */
  predicate LeavesExact(o: Octants, l: set<Word64>)
    requires KeysValid(o)
  {
    && (forall k {:trigger k in l} :: k in l ==> k in o && (AtMaxDepth(k) || !HasChildrenIn(o, k)))
    && (forall k {:trigger k in l} :: k in o && (AtMaxDepth(k) || !HasChildrenIn(o, k)) ==> k in l)
  }

  /** A key whose child 0 is present has all 8 children. */
  ghost predicate Complete(o: Octants) {
    forall k, i: nat :: SanityCheck(k) && Depth(k) < MAX_DEPTH && i < 8 && Pushed(k, 0) in o ==> Pushed(k, i) in o
  }

  /** A child's parent and the parent's child 0 are present. */
  ghost predicate NoOrphans(o: Octants) {
    forall p, j: nat :: SanityCheck(p) && Depth(p) < MAX_DEPTH && j < 8 && Pushed(p, j) in o ==> p in o && Pushed(p, 0) in o
  }

  /** The invariant `new`, subdivision and collapse keep. */
  ghost predicate MapValid(o: Octants, l: set<Word64>) {
    KeysValid(o) && LeavesExact(o, l) && Complete(o) && NoOrphans(o)
  }

  /** The leaf invariant the tests assert after sculpting: no leaf below the
      maximum depth has children. */
  lemma LeavesHaveNoChildren(o: Octants, l: set<Word64>, k: Word64)
    requires MapValid(o, l) && k in l && !AtMaxDepth(k)
    ensures k in o && Depth(k) < MAX_DEPTH && !HasChildrenIn(o, k)
  {
  }

  /** A present key below the maximum depth that has children has all 8 of
      them present. */
  lemma ChildrenPresent(o: Octants, k: Word64, i: nat)
    requires KeysValid(o) && Complete(o) && k in o && !AtMaxDepth(k) && i < 8
    requires Depth(k) < MAX_DEPTH && HasChildrenIn(o, k)
    ensures Pushed(k, i) in o
  {
  }

  /** `is_collapsible`: false at the maximum depth and without children;
      otherwise no child has children and no child's values change sign.
      Asking a child whether it has children panics when the child is at
      the maximum depth, and `intersects_surface` panics on a missing key. */
  predicate IsCollapsibleIn(o: Octants, cell: Word64)
    requires KeysValid(o) && Complete(o) && SanityCheck(cell)
    requires AtMaxDepth(cell) || !HasChildrenIn(o, cell) || Depth(cell) + 1 < MAX_DEPTH
  {
    && !AtMaxDepth(cell)
    && HasChildrenIn(o, cell)
    && forall i: nat :: i < 8 ==> !HasChildrenIn(o, Pushed(cell, i)) && !IntersectsSurfaceIn(o, Pushed(cell, i))
  }

  /** The map after inserting children 0 to n - 1 of `k` with the given
      values, in order. */
  function ChildEntries(o: Octants, k: Word64, vals: seq<seq<real>>, n: nat): Octants
    requires Depth(k) < MAX_DEPTH && n <= 8 && n <= |vals|
  {
    if n == 0 then o else ChildEntries(o, k, vals, n - 1)[Pushed(k, n - 1) := vals[n - 1]]
  }

  lemma ChildPrefixStep(k: Word64, n: nat)
    requires Depth(k) < MAX_DEPTH && n < 8
    ensures ChildPrefix(k, n + 1) == ChildPrefix(k, n) + {Pushed(k, n)}
  {
  }

  /** Inserting the first n children adds exactly their keys. */
  lemma {:induction false} ChildEntriesKeys(o: Octants, k: Word64, vals: seq<seq<real>>, n: nat)
    requires Depth(k) < MAX_DEPTH && n <= 8 && n <= |vals|
    ensures ChildEntries(o, k, vals, n).Keys == o.Keys + ChildPrefix(k, n)
  {
    if n > 0 {
      ChildEntriesKeys(o, k, vals, n - 1);
      ChildPrefixStep(k, n - 1);
    }
  }

  /** After inserting the first n children, each holds its own values. */
  lemma {:induction false} ChildEntriesValues(o: Octants, k: Word64, vals: seq<seq<real>>, n: nat)
    requires Depth(k) < MAX_DEPTH && n <= 8 && n <= |vals|
    ensures forall i: nat :: i < n ==> Pushed(k, i) in ChildEntries(o, k, vals, n) && ChildEntries(o, k, vals, n)[Pushed(k, i)] == vals[i]
  {
    if n > 0 {
      ChildEntriesValues(o, k, vals, n - 1);
      forall i: nat | i < n - 1
        ensures Pushed(k, i) != Pushed(k, n - 1)
      {
        SiblingsDistinct(k, i, n - 1);
      }
    }
  }

  /** Inserting children leaves every other entry alone. */
  lemma {:induction false} ChildEntriesFrame(o: Octants, k: Word64, vals: seq<seq<real>>, n: nat, c: Word64)
    requires Depth(k) < MAX_DEPTH && n <= 8 && n <= |vals|
    requires c in o && c !in ChildPrefix(k, n)
    ensures c in ChildEntries(o, k, vals, n) && ChildEntries(o, k, vals, n)[c] == o[c]
  {
    if n > 0 {
      ChildPrefixStep(k, n - 1);
      ChildEntriesFrame(o, k, vals, n - 1, c);
    }
  }

  /** The state after `subdivide_with_old_values(cell, values)`: nothing
      changes at the maximum depth or when the cell has children; otherwise
      the 8 children are inserted as leaves with the values `subdivide_values`
      gives, and the cell stops being a leaf. */
  function Subdivided(o: Octants, l: set<Word64>, cell: Word64, values: seq<real>): (Octants, set<Word64>)
    requires Depth(cell) <= MAX_DEPTH && |values| == 8
  {
    if AtMaxDepth(cell) || HasChildrenIn(o, cell) then (o, l)
    else (ChildEntries(o, cell, SubdivideValues(values), 8), l + ChildPrefix(cell, 8) - {cell})
  }

  /** The state after `collapse_cell(cell)`: when the cell is collapsible its
      8 children leave the map and the leaf set, and the cell becomes a
      leaf; otherwise nothing changes. */
  function Collapsed(o: Octants, l: set<Word64>, cell: Word64): (Octants, set<Word64>)
    requires KeysValid(o) && Complete(o) && SanityCheck(cell)
    requires AtMaxDepth(cell) || !HasChildrenIn(o, cell) || Depth(cell) + 1 < MAX_DEPTH
  {
    if IsCollapsibleIn(o, cell) then (o - ChildPrefix(cell, 8), l - ChildPrefix(cell, 8) + {cell})
    else (o, l)
  }

  /** A well-formed key whose child is among the children of `cell` is `cell`. */
  lemma ParentOfChild(cell: Word64, k: Word64, j: nat)
    requires SanityCheck(cell) && SanityCheck(k) && Depth(cell) < MAX_DEPTH && Depth(k) < MAX_DEPTH && j < 8
    requires Pushed(k, j) in ChildPrefix(cell, 8)
    ensures k == cell
  {
    var i: nat :| i < 8 && Pushed(k, j) == Pushed(cell, i);
    PushInjective(k, j, cell, i);
  }

  /** A child of `cell` is well-formed and one level deeper. */
  lemma ChildOfCell(cell: Word64, c: Word64)
    requires SanityCheck(cell) && Depth(cell) < MAX_DEPTH && c in ChildPrefix(cell, 8)
    ensures SanityCheck(c) && Depth(c) == Depth(cell) + 1
  {
    var i: nat :| i < 8 && c == Pushed(cell, i);
    PushKeepsWellFormed(cell, i);
  }

  /** Without child 0 a well-formed key has no children in the map at all. */
  lemma NoChildrenAtAll(o: Octants, cell: Word64)
    requires NoOrphans(o) && SanityCheck(cell) && Depth(cell) < MAX_DEPTH && !HasChildrenIn(o, cell)
    ensures forall c :: c in ChildPrefix(cell, 8) ==> c !in o
  {
  }

  lemma SubdividedKeysValid(o: Octants, cell: Word64, values: seq<real>)
    requires KeysValid(o) && SanityCheck(cell) && Depth(cell) < MAX_DEPTH && |values| == 8
    ensures KeysValid(ChildEntries(o, cell, SubdivideValues(values), 8))
  {
    var vals := SubdivideValues(values);
    var o2 := ChildEntries(o, cell, vals, 8);
    ChildEntriesKeys(o, cell, vals, 8);
    ChildEntriesValues(o, cell, vals, 8);
    forall k | k in o2
      ensures SanityCheck(k) && |o2[k]| == 8
    {
      if k in ChildPrefix(cell, 8) {
        ChildOfCell(cell, k);
        var i: nat :| i < 8 && k == Pushed(cell, i);
      } else {
        ChildEntriesFrame(o, cell, vals, 8, k);
      }
    }
  }

  lemma SubdividedLeaves(o: Octants, l: set<Word64>, cell: Word64, values: seq<real>)
    requires MapValid(o, l) && cell in o && !AtMaxDepth(cell) && |values| == 8
    requires Depth(cell) < MAX_DEPTH && !HasChildrenIn(o, cell)
    requires KeysValid(ChildEntries(o, cell, SubdivideValues(values), 8))
    ensures LeavesExact(ChildEntries(o, cell, SubdivideValues(values), 8), l + ChildPrefix(cell, 8) - {cell})
  {
    var o2 := ChildEntries(o, cell, SubdivideValues(values), 8);
    ChildEntriesKeys(o, cell, SubdivideValues(values), 8);
    forall k | k in o2
      ensures k in l + ChildPrefix(cell, 8) - {cell} <==> AtMaxDepth(k) || !HasChildrenIn(o2, k)
    {
      SubdividedLeafAt(o, l, cell, o2, k);
    }
  }

  lemma SubdividedLeafAt(o: Octants, l: set<Word64>, cell: Word64, o2: Octants, k: Word64)
    requires KeysValid(o) && LeavesExact(o, l) && NoOrphans(o) && cell in o
    requires Depth(cell) < MAX_DEPTH && !HasChildrenIn(o, cell)
    requires KeysValid(o2) && o2.Keys == o.Keys + ChildPrefix(cell, 8) && k in o2
    ensures k in l + ChildPrefix(cell, 8) - {cell} <==> AtMaxDepth(k) || !HasChildrenIn(o2, k)
  {
    if k == cell {
    } else if k in ChildPrefix(cell, 8) {
      NewChildIsLeaf(o, cell, o2, k);
      NoChildrenAtAll(o, cell);
    } else {
      OtherChildrenKept(o, cell, o2, k);
    }
  }

  lemma NewChildIsLeaf(o: Octants, cell: Word64, o2: Octants, k: Word64)
    requires NoOrphans(o) && SanityCheck(cell) && Depth(cell) < MAX_DEPTH && !HasChildrenIn(o, cell)
    requires o2.Keys == o.Keys + ChildPrefix(cell, 8) && k in ChildPrefix(cell, 8)
    ensures Depth(k) <= MAX_DEPTH && (AtMaxDepth(k) || !HasChildrenIn(o2, k))
  {
    ChildOfCell(cell, k);
    if !AtMaxDepth(k) {
      assert Pushed(k, 0) !in ChildPrefix(cell, 8) by {
        assert Depth(Pushed(k, 0)) == Depth(cell) + 2;
      }
      NoChildrenAtAll(o, cell);
    }
  }

  lemma OtherChildrenKept(o: Octants, cell: Word64, o2: Octants, k: Word64)
    requires KeysValid(o) && SanityCheck(cell) && Depth(cell) < MAX_DEPTH && k in o && k != cell
    requires o2.Keys == o.Keys + ChildPrefix(cell, 8)
    ensures !AtMaxDepth(k) ==> (HasChildrenIn(o2, k) <==> HasChildrenIn(o, k))
  {
    if !AtMaxDepth(k) && Pushed(k, 0) in ChildPrefix(cell, 8) {
      ParentOfChild(cell, k, 0);
    }
  }

  lemma SubdividedFamilies(o: Octants, cell: Word64, values: seq<real>)
    requires KeysValid(o) && Complete(o) && NoOrphans(o) && cell in o && |values| == 8
    requires Depth(cell) < MAX_DEPTH && !HasChildrenIn(o, cell)
    ensures Complete(ChildEntries(o, cell, SubdivideValues(values), 8))
    ensures NoOrphans(ChildEntries(o, cell, SubdivideValues(values), 8))
  {
    var vals := SubdivideValues(values);
    var o2 := ChildEntries(o, cell, vals, 8);
    ChildEntriesKeys(o, cell, vals, 8);
    forall k, i: nat | SanityCheck(k) && Depth(k) < MAX_DEPTH && i < 8 && Pushed(k, 0) in o2
      ensures Pushed(k, i) in o2
    {
      if Pushed(k, 0) in ChildPrefix(cell, 8) {
        ParentOfChild(cell, k, 0);
      }
    }
    forall p, j: nat | SanityCheck(p) && Depth(p) < MAX_DEPTH && j < 8 && Pushed(p, j) in o2
      ensures p in o2 && Pushed(p, 0) in o2
    {
      if Pushed(p, j) in ChildPrefix(cell, 8) {
        ParentOfChild(cell, p, j);
      }
    }
  }

  /** `subdivide_with_old_values` keeps the map invariant, and when it acts
      it inserts the 8 children as leaves holding the `subdivide_values`
      output, keeps the cell's entry but takes it out of the leaf set, and
      leaves every other entry alone. */
  lemma SubdividedSpec(o: Octants, l: set<Word64>, cell: Word64, values: seq<real>)
    requires MapValid(o, l) && cell in o && |values| == 8
    ensures MapValid(Subdivided(o, l, cell, values).0, Subdivided(o, l, cell, values).1)
    ensures forall k :: k in o ==> k in Subdivided(o, l, cell, values).0 && Subdivided(o, l, cell, values).0[k] == o[k]
    ensures !AtMaxDepth(cell) ==> Depth(cell) < MAX_DEPTH && HasChildrenIn(Subdivided(o, l, cell, values).0, cell)
    ensures !AtMaxDepth(cell) && !HasChildrenIn(o, cell) ==>
      && Subdivided(o, l, cell, values).0.Keys == o.Keys + ChildPrefix(cell, 8)
      && cell !in Subdivided(o, l, cell, values).1
      && forall i: nat :: i < 8 ==>
           && Pushed(cell, i) in Subdivided(o, l, cell, values).1
           && Subdivided(o, l, cell, values).0[Pushed(cell, i)] == SubdivideValues(values)[i]
  {
    if !AtMaxDepth(cell) && !HasChildrenIn(o, cell) {
      var vals := SubdivideValues(values);
      ChildEntriesKeys(o, cell, vals, 8);
      ChildEntriesValues(o, cell, vals, 8);
      NoChildrenAtAll(o, cell);
      forall k | k in o
        ensures ChildEntries(o, cell, vals, 8)[k] == o[k]
      {
        ChildEntriesFrame(o, cell, vals, 8, k);
      }
      SubdividedKeysValid(o, cell, values);
      SubdividedLeaves(o, l, cell, values);
      SubdividedFamilies(o, cell, values);
      ChildInPrefix(cell, 0, 8);
    }
  }

  /** Subdivision changes no entry as deep as the cell or shallower, and
      adds keys only one level below the cell. */
  lemma SubdividedFrame(o: Octants, l: set<Word64>, cell: Word64, values: seq<real>, bound: nat)
    requires MapValid(o, l) && cell in o && |values| == 8
    ensures AgreeAbove(o, Subdivided(o, l, cell, values).0, Depth(cell), cell)
    ensures cell in Subdivided(o, l, cell, values).0 && Subdivided(o, l, cell, values).0[cell] == o[cell]
    ensures DepthBounded(o, bound) && (Depth(cell) < bound || AtMaxDepth(cell) || HasChildrenIn(o, cell)) ==>
      DepthBounded(Subdivided(o, l, cell, values).0, bound)
  {
    SubdividedSpec(o, l, cell, values);
    if !AtMaxDepth(cell) && !HasChildrenIn(o, cell) {
      ChildDepths(cell, 8);
    }
  }

  /** Collapsing changes no entry as deep as the cell or shallower, and only
      removes keys. */
  lemma CollapsedFrame(o: Octants, l: set<Word64>, cell: Word64, bound: nat)
    requires MapValid(o, l) && SanityCheck(cell)
    requires AtMaxDepth(cell) || !HasChildrenIn(o, cell) || Depth(cell) + 1 < MAX_DEPTH
    ensures AgreeAbove(o, Collapsed(o, l, cell).0, Depth(cell), cell)
    ensures cell in o ==> cell in Collapsed(o, l, cell).0 && Collapsed(o, l, cell).0[cell] == o[cell]
    ensures DepthBounded(o, bound) ==> DepthBounded(Collapsed(o, l, cell).0, bound)
  {
    CollapsedSpec(o, l, cell);
    if IsCollapsibleIn(o, cell) {
      ChildDepths(cell, 8);
    }
  }

  /** One child's stroke, seen from its parent: the parent's entry, its
      child 0 and everything no deeper than the parent stay as they were. */
  lemma ChildStepFrame(o0: Octants, o1: Octants, o2: Octants, octant: Word64, i: nat)
    requires Depth(octant) < MAX_DEPTH && i < 8
    requires AgreeAbove(o0, o1, Depth(octant), octant)
    requires AgreeAbove(o1, o2, Depth(octant) + 1, Pushed(octant, i))
    requires Pushed(octant, i) in o2 && Pushed(octant, 0) in o1 && octant in o1
    ensures AgreeAbove(o0, o2, Depth(octant), octant)
    ensures octant in o2 && o2[octant] == o1[octant] && Pushed(octant, 0) in o2
  {
    if i != 0 {
      SiblingsDistinct(octant, 0, i);
    }
  }

  /** The facts a collapsible cell gives: it is in the map, one level above
      its children, and none of its children has children. */
  lemma CollapsibleFacts(o: Octants, cell: Word64)
    requires KeysValid(o) && Complete(o) && NoOrphans(o) && SanityCheck(cell)
    requires AtMaxDepth(cell) || !HasChildrenIn(o, cell) || Depth(cell) + 1 < MAX_DEPTH
    requires IsCollapsibleIn(o, cell)
    ensures cell in o && Depth(cell) + 1 < MAX_DEPTH
    ensures forall c :: c in ChildPrefix(cell, 8) ==> c in o && SanityCheck(c) && Depth(c) < MAX_DEPTH && !HasChildrenIn(o, c)
  {
    forall c | c in ChildPrefix(cell, 8)
      ensures c in o && SanityCheck(c) && Depth(c) < MAX_DEPTH && !HasChildrenIn(o, c)
    {
      var i: nat :| i < 8 && c == Pushed(cell, i);
      PushKeepsWellFormed(cell, i);
    }
  }

  /** Every child key is one level deeper than its parent. */
  lemma ChildDepths(k: Word64, n: nat)
    requires Depth(k) < MAX_DEPTH && n <= 8
    ensures forall c :: c in ChildPrefix(k, n) ==> Depth(c) == Depth(k) + 1
  {
    forall c | c in ChildPrefix(k, n)
      ensures Depth(c) == Depth(k) + 1
    {
      var i: nat :| i < n && c == Pushed(k, i);
    }
  }

  lemma ChildInPrefix(k: Word64, i: nat, n: nat)
    requires Depth(k) < MAX_DEPTH && i < n <= 8
    ensures Pushed(k, i) in ChildPrefix(k, n)
  {
  }

  lemma CollapsedLeafAt(o: Octants, l: set<Word64>, cell: Word64, k: Word64)
    requires KeysValid(o) && LeavesExact(o, l) && SanityCheck(cell) && Depth(cell) < MAX_DEPTH
    requires k in o && k !in ChildPrefix(cell, 8)
    ensures k in l - ChildPrefix(cell, 8) + {cell} <==> AtMaxDepth(k) || !HasChildrenIn(o - ChildPrefix(cell, 8), k)
  {
    if k == cell {
      ChildInPrefix(cell, 0, 8);
    } else if !AtMaxDepth(k) {
      if Pushed(k, 0) in ChildPrefix(cell, 8) {
        ParentOfChild(cell, k, 0);
      }
      assert HasChildrenIn(o - ChildPrefix(cell, 8), k) <==> HasChildrenIn(o, k);
      assert k in l <==> !HasChildrenIn(o, k);
    } else {
      assert k in l;
    }
  }

  lemma CollapsedFamilies(o: Octants, cell: Word64)
    requires KeysValid(o) && Complete(o) && NoOrphans(o) && SanityCheck(cell)
    requires AtMaxDepth(cell) || !HasChildrenIn(o, cell) || Depth(cell) + 1 < MAX_DEPTH
    requires IsCollapsibleIn(o, cell)
    ensures Complete(o - ChildPrefix(cell, 8)) && NoOrphans(o - ChildPrefix(cell, 8))
  {
    var o2 := o - ChildPrefix(cell, 8);
    CollapsibleFacts(o, cell);
    forall k, i: nat | SanityCheck(k) && Depth(k) < MAX_DEPTH && i < 8 && Pushed(k, 0) in o2
      ensures Pushed(k, i) in o2
    {
      if Pushed(k, i) in ChildPrefix(cell, 8) {
        ParentOfChild(cell, k, i);
      }
    }
    forall p, j: nat | SanityCheck(p) && Depth(p) < MAX_DEPTH && j < 8 && Pushed(p, j) in o2
      ensures p in o2 && Pushed(p, 0) in o2
    {
      if Pushed(p, 0) in ChildPrefix(cell, 8) {
        ParentOfChild(cell, p, 0);
      }
    }
  }

  /** `collapse_cell` keeps the map invariant; when the cell is collapsible
      it removes exactly its 8 children from the map and makes the cell a
      leaf, and every entry that stays keeps its values. */
  lemma CollapsedSpec(o: Octants, l: set<Word64>, cell: Word64)
    requires MapValid(o, l) && SanityCheck(cell)
    requires AtMaxDepth(cell) || !HasChildrenIn(o, cell) || Depth(cell) + 1 < MAX_DEPTH
    ensures MapValid(Collapsed(o, l, cell).0, Collapsed(o, l, cell).1)
    ensures forall k :: k in Collapsed(o, l, cell).0 ==> k in o && Collapsed(o, l, cell).0[k] == o[k]
    ensures IsCollapsibleIn(o, cell) ==>
      && Collapsed(o, l, cell).0.Keys == o.Keys - ChildPrefix(cell, 8)
      && cell in Collapsed(o, l, cell).0 && cell in Collapsed(o, l, cell).1
      && !HasChildrenIn(Collapsed(o, l, cell).0, cell)
  {
    if IsCollapsibleIn(o, cell) {
      CollapsibleFacts(o, cell);
      CollapsedLeaves(o, l, cell);
      CollapsedFamilies(o, cell);
      ChildInPrefix(cell, 0, 8);
    }
  }

  lemma CollapsedLeaves(o: Octants, l: set<Word64>, cell: Word64)
    requires KeysValid(o) && LeavesExact(o, l) && SanityCheck(cell) && Depth(cell) < MAX_DEPTH && cell in o
    ensures KeysValid(o - ChildPrefix(cell, 8))
    ensures LeavesExact(o - ChildPrefix(cell, 8), l - ChildPrefix(cell, 8) + {cell})
  {
    var o2 := o - ChildPrefix(cell, 8);
    var l2 := l - ChildPrefix(cell, 8) + {cell};
    assert KeysValid(o2);
    assert cell in o2 by {
      ChildDepths(cell, 8);
    }
    assert forall k :: k in l2 ==> k in o2;
    forall k | k in o2
      ensures k in l2 <==> AtMaxDepth(k) || !HasChildrenIn(o2, k)
    {
      CollapsedLeafAt(o, l, cell, k);
    }
  }

  /** `OctantKey::default()`: the root key, all bits clear. */
  function RootKey(): (k: Word64)
    ensures SanityCheck(k) && Depth(k) == 0
  {
    RootIsWellFormed();
    Zeros(64)
  }

  /** The map `new` builds is valid: the root alone, a leaf. */
  lemma NewMapValid(root: Word64, values: seq<real>)
    requires SanityCheck(root) && Depth(root) == 0 && |values| == 8
    ensures MapValid(map[root := values], {root})
  {
    var o := map[root := values];
    forall k, i: nat | SanityCheck(k) && Depth(k) < MAX_DEPTH && i < 8
      ensures Pushed(k, i) !in o
    {
      assert Depth(Pushed(k, i)) == Depth(k) + 1;
    }
  }

  /** Overwriting the values of a present key keeps the invariant. */
  lemma StoreKeepsValid(o: Octants, l: set<Word64>, k: Word64, vals: seq<real>)
    requires MapValid(o, l) && k in o && |vals| == 8
    ensures o[k := vals].Keys == o.Keys
    ensures MapValid(o[k := vals], l)
  {
    var o2 := o[k := vals];
    assert o2.Keys == o.Keys;
    forall c | c in o2
      ensures (c in l <==> AtMaxDepth(c) || !HasChildrenIn(o2, c))
    {
      assert c in l <==> AtMaxDepth(c) || !HasChildrenIn(o, c);
    }
  }

  /** The two maps agree on every key no deeper than `d` other than `e`. */
  ghost predicate AgreeAbove(o1: Octants, o2: Octants, d: nat, e: Word64) {
    forall k :: Depth(k) <= d && k != e ==> (k in o1 <==> k in o2) && (k in o1 ==> o1[k] == o2[k])
  }

  /** No key of the map is deeper than `bound`. */
  ghost predicate DepthBounded(o: Octants, bound: nat) {
    forall k :: k in o ==> Depth(k) <= bound
  }

  /** What one `apply_tool_recurse` call holds fixed while it descends: the
      tool, the clipped tool and area-of-effect boxes, the action, the depth
      limit, the box and cube scale of each key (`OctantKey::aabb` and
      `OctantKey::scale`), and the box classification. */
  datatype Stroke = Stroke(
    tool: Tools.Tool,
    toolBox: AABB,
    aoeBox: AABB,
    action: Action,
    maxDepth: nat,
    boxOf: Word64 -> AABB,
    scaleOf: Word64 -> real,
    classify: (AABB, AABB) -> Tools.Relation)

  /** Every key's box has a non-negative size, as `calculate_corners`
      asserts. */
  ghost predicate BoxesValid(boxOf: Word64 -> AABB) {
    forall k :: Valid(boxOf(k))
  }

  /** The stroke's new values for key `k` (lines 110-115). */
  function StrokeValues(values: seq<real>, k: Word64, s: Stroke): (r: seq<real>)
    requires |values| == 8 && Valid(s.boxOf(k))
    ensures |r| == 8
  {
    Tools.ApplyAtCorners(values, s.tool, s.action, CalculateCorners(s.boxOf(k)), s.scaleOf(k))
  }

  /** The area of effect meets every box. */
  ghost predicate AoeMeetsAll(s: Stroke) {
    forall k :: s.classify(s.aoeBox, s.boxOf(k)) != Tools.DoesNotIntersect
  }

  /** The subdivision test of `apply_tool_at_octant`. `&&` binds tighter than
      `||`, so the maximum-depth, depth-limit and leaf checks guard only the
      convex disjunct: a concave tool whose area of effect meets the box, or
      whose new values change sign, passes at any depth. */
  function SubdivideGuard(o: Octants, k: Word64, newvals: seq<real>, s: Stroke): (r: bool)
    requires Depth(k) <= MAX_DEPTH
    ensures r && Tools.IsConvex(s.tool) ==> !AtMaxDepth(k) && Depth(k) < s.maxDepth && !HasChildrenIn(o, k)
    ensures s.tool.isConcave && s.classify(s.aoeBox, s.boxOf(k)) != Tools.DoesNotIntersect ==> r
  {
    (!AtMaxDepth(k) && Depth(k) < s.maxDepth && !HasChildrenIn(o, k) &&
      Tools.IsConvex(s.tool) &&
      (NegativityChange(newvals) || s.classify(Tools.CheckBox(s.action, s.toolBox, s.aoeBox), s.boxOf(k)) == Tools.ContainedBy))
    || (s.tool.isConcave && (NegativityChange(newvals) || s.classify(s.aoeBox, s.boxOf(k)) != Tools.DoesNotIntersect))
  }

  /** A key's box after clipping to the root box: the overlap when the
      classification reports one, the root box when the key's box holds it,
      and the box itself otherwise. */
  function ClipTo(rootBox: AABB, box: AABB, classify: (AABB, AABB) -> Tools.Relation): AABB {
    match classify(rootBox, box)
    case Intersects(b) => b
    case ContainedBy => rootBox
    case _ => box
  }

  /** The tool and area-of-effect boxes of `apply_tool_recurse` clipped to
      the root box, or `None` when the stroke returns early: the area of
      effect misses the root box, or the action is Place and the tool box
      misses it. */
  function ClippedBoxes(rootBox: AABB, tool: Tools.Tool, action: Action, classify: (AABB, AABB) -> Tools.Relation): (r: Option<(AABB, AABB)>)
    ensures r.None? <==>
      classify(rootBox, tool.aoeAabb) == Tools.DoesNotIntersect ||
      (action == Place && classify(rootBox, tool.toolAabb) == Tools.DoesNotIntersect)
    ensures r.Some? && classify(rootBox, tool.aoeAabb) == Tools.ContainedBy ==> r.value.1 == rootBox
    ensures r.Some? && classify(rootBox, tool.toolAabb) == Tools.Contains ==> r.value.0 == tool.toolAabb
  {
    if classify(rootBox, tool.toolAabb) == Tools.DoesNotIntersect && action == Place then None
    else if classify(rootBox, tool.aoeAabb) == Tools.DoesNotIntersect then None
    else Some((ClipTo(rootBox, tool.toolAabb, classify), ClipTo(rootBox, tool.aoeAabb, classify)))
  }

  /** `generate_mesh` marches an entry iff its depth is the limit, or it is
      a leaf shallower than the limit. */
  predicate Marched(o: Octants, l: set<Word64>, maxDepth: nat, k: Word64) {
    k in o && (Depth(k) == maxDepth || (Depth(k) < maxDepth && k in l))
  }

  /** When no key is deeper than the limit, the marched entries are exactly
      the leaves. */
  lemma MarchedAreLeaves(o: Octants, l: set<Word64>, maxDepth: nat, k: Word64)
    requires MapValid(o, l) && DepthBounded(o, maxDepth)
    ensures Marched(o, l, maxDepth, k) <==> k in l
  {
    if k in o && Depth(k) == maxDepth && !AtMaxDepth(k) {
      assert !HasChildrenIn(o, k) by {
        assert Depth(Pushed(k, 0)) == maxDepth + 1;
      }
    }
  }

  /** The vertices `march` emits for the given keys, in order; `march`
      stands for `march_cube`. */
  function MarchKeys(o: Octants, keys: seq<Word64>, boxOf: Word64 -> AABB,
                     march: (seq<Vec3>, seq<real>) -> seq<Vec3>): seq<Vec3>
    requires BoxesValid(boxOf) && forall i :: 0 <= i < |keys| ==> keys[i] in o
  {
    if |keys| == 0 then []
    else
      var k := keys[|keys| - 1];
      MarchKeys(o, keys[..|keys| - 1], boxOf, march) + march(CalculateCorners(boxOf(k)), o[k])
  }

  /** The map itself: `octants` and `leaves` are updated in place. */
  class OctantMap {
    var octants: Octants
    var leaves: set<Word64>

    /** The map invariant, with the root key present. */
    ghost predicate WellFormedMap()
      reads this
    {
      MapValid(octants, leaves) && RootKey() in octants
    }

    /** `new`: the root key alone, holding eight -1 densities, as a leaf. */
    constructor ()
      ensures octants == map[RootKey() := [-1.0, -1.0, -1.0, -1.0, -1.0, -1.0, -1.0, -1.0]]
      ensures leaves == {RootKey()}
      ensures WellFormedMap()
    {
      var root := RootKey();
      octants := map[root := [-1.0, -1.0, -1.0, -1.0, -1.0, -1.0, -1.0, -1.0]];
      leaves := {root};
      NewMapValid(root, [-1.0, -1.0, -1.0, -1.0, -1.0, -1.0, -1.0, -1.0]);
    }

    /** `subdivide_with_old_values`: nothing at the maximum depth or when
        the cell has children; otherwise inserts the children as leaves, in
        index order, then takes the cell out of the leaf set. */
    method SubdivideWithOldValues(cell: Word64, values: seq<real>)
      requires WellFormedMap() && cell in octants && |values| == 8
      modifies this
      ensures (octants, leaves) == Subdivided(old(octants), old(leaves), cell, values)
      ensures WellFormedMap()
    {
      SubdividedSpec(octants, leaves, cell, values);
      if AtMaxDepth(cell) || HasChildrenIn(octants, cell) {
        return;
      }
      InsertChildren(cell, SubdivideValues(values));
      leaves := leaves - {cell};
    }

    /** The insertion loop of `subdivide_with_old_values`. */
    method InsertChildren(cell: Word64, childValues: seq<seq<real>>)
      requires Depth(cell) < MAX_DEPTH && |childValues| == 8
      modifies this
      ensures octants == ChildEntries(old(octants), cell, childValues, 8)
      ensures leaves == old(leaves) + ChildPrefix(cell, 8)
    {
      var i := 0;
      while i < 8
        invariant 0 <= i <= 8
        invariant octants == ChildEntries(old(octants), cell, childValues, i)
        invariant leaves == old(leaves) + ChildPrefix(cell, i)
      {
        var child := Pushed(cell, i);
        leaves := leaves + {child};
        octants := octants[child := childValues[i]];
        ChildPrefixStep(cell, i);
        i := i + 1;
      }
    }

    /** `subdivide_cell`: subdivides with the cell's current values (the
        lookup panics on a missing key). */
    method SubdivideCell(cell: Word64)
      requires WellFormedMap() && cell in octants
      modifies this
      ensures (octants, leaves) == Subdivided(old(octants), old(leaves), cell, old(octants)[cell])
      ensures WellFormedMap()
    {
      var values := octants[cell];
      SubdivideWithOldValues(cell, values);
    }

    /** `collapse_cell`: nothing unless the cell is collapsible; then
        removes each child from the leaf set and the map, and makes the cell
        a leaf. */
    method CollapseCell(cell: Word64)
      requires WellFormedMap() && SanityCheck(cell)
      requires AtMaxDepth(cell) || !HasChildrenIn(octants, cell) || Depth(cell) + 1 < MAX_DEPTH
      modifies this
      ensures (octants, leaves) == Collapsed(old(octants), old(leaves), cell)
      ensures WellFormedMap()
    {
      CollapsedSpec(octants, leaves, cell);
      if !IsCollapsibleIn(octants, cell) {
        return;
      }
      ChildDepths(cell, 8);
      RemoveChildren(cell);
      leaves := leaves + {cell};
    }

    /** The removal loop of `collapse_cell`. */
    method RemoveChildren(cell: Word64)
      requires Depth(cell) < MAX_DEPTH
      modifies this
      ensures octants == old(octants) - ChildPrefix(cell, 8)
      ensures leaves == old(leaves) - ChildPrefix(cell, 8)
    {
      var i := 0;
      while i < 8
        invariant 0 <= i <= 8
        invariant octants == old(octants) - ChildPrefix(cell, i)
        invariant leaves == old(leaves) - ChildPrefix(cell, i)
      {
        var child := Pushed(cell, i);
        leaves := leaves - {child};
        octants := octants - {child};
        ChildPrefixStep(cell, i);
        i := i + 1;
      }
    }

    /** `apply_tool_at_octant`. The stroke's new values are computed first;
        the subdivision test runs on them but subdivision interpolates the
        old values; then the new values are stored, every child is visited
        in index order, and a collapsible cell is collapsed. `ok` is false
        when the source panics: asking a key at the maximum depth whether it
        has children. */
    method ApplyToolAtOctant(s: Stroke, octant: Word64) returns (ok: bool)
      requires WellFormedMap() && octant in octants && BoxesValid(s.boxOf)
      modifies this
      ensures ok ==> WellFormedMap() && octant in octants && Depth(octant) < MAX_DEPTH
      ensures ok ==> octants[octant] == StrokeValues(old(octants)[octant], octant, s)
      ensures ok ==> AgreeAbove(old(octants), octants, Depth(octant), octant)
      ensures ok && HasChildrenIn(octants, octant) ==> Depth(octant) + 1 < MAX_DEPTH && !IsCollapsibleIn(octants, octant)
      ensures s.tool.isConcave && AoeMeetsAll(s) ==> !ok
      ensures Tools.IsConvex(s.tool) && s.maxDepth < MAX_DEPTH && DepthBounded(old(octants), s.maxDepth) ==>
        ok && DepthBounded(octants, s.maxDepth)
      decreases MAX_DEPTH - Depth(octant), 1
    {
      StrokeAndSubdivide(s, octant);
      if AtMaxDepth(octant) {
        return false;
      }
      if HasChildrenIn(octants, octant) {
        ok := ApplyToChildren(s, octant);
        if !ok {
          return;
        }
        CollapseIfCollapsible(octant, s.maxDepth);
      }
      ok := true;
    }

    /** The first half of `apply_tool_at_octant`: compute the stroke's values,
        subdivide when the guard asks for it (interpolating the old values),
        then store the new values. */
    method StrokeAndSubdivide(s: Stroke, octant: Word64)
      requires WellFormedMap() && octant in octants && BoxesValid(s.boxOf)
      modifies this
      ensures WellFormedMap() && octant in octants
      ensures octants[octant] == StrokeValues(old(octants)[octant], octant, s)
      ensures AgreeAbove(old(octants), octants, Depth(octant), octant)
      ensures s.tool.isConcave && AoeMeetsAll(s) && !AtMaxDepth(octant) ==>
        Depth(octant) < MAX_DEPTH && HasChildrenIn(octants, octant)
      ensures Tools.IsConvex(s.tool) && DepthBounded(old(octants), s.maxDepth) ==> DepthBounded(octants, s.maxDepth)
    {
      var newvals := StrokeValues(octants[octant], octant, s);
      SubdivideForStroke(s, octant, newvals);
      StoreValues(octant, newvals);
    }

    /** The subdivision test of `apply_tool_at_octant`, run on the stroke's
        new values. */
    method SubdivideForStroke(s: Stroke, octant: Word64, newvals: seq<real>)
      requires WellFormedMap() && octant in octants && BoxesValid(s.boxOf)
      requires newvals == StrokeValues(octants[octant], octant, s)
      modifies this
      ensures WellFormedMap() && octant in octants && octants[octant] == old(octants)[octant]
      ensures AgreeAbove(old(octants), octants, Depth(octant), octant)
      ensures s.tool.isConcave && AoeMeetsAll(s) && !AtMaxDepth(octant) ==>
        Depth(octant) < MAX_DEPTH && HasChildrenIn(octants, octant)
      ensures Tools.IsConvex(s.tool) && DepthBounded(old(octants), s.maxDepth) ==> DepthBounded(octants, s.maxDepth)
    {
      if SubdivideGuard(octants, octant, newvals, s) {
        SubdividedFrame(octants, leaves, octant, octants[octant], s.maxDepth);
        SubdivideCell(octant);
      }
    }

    /** `*self.octants.get_mut(&octant).unwrap() = new_values`. */
    method StoreValues(octant: Word64, newvals: seq<real>)
      requires WellFormedMap() && octant in octants && |newvals| == 8
      modifies this
      ensures octants == old(octants)[octant := newvals] && leaves == old(leaves)
      ensures octants.Keys == old(octants).Keys && WellFormedMap()
    {
      StoreKeepsValid(octants, leaves, octant, newvals);
      octants := octants[octant := newvals];
    }

    /** The last step of `apply_tool_at_octant`: collapse the cell when its
        children turned out to be uniform, empty leaves. */
    method CollapseIfCollapsible(octant: Word64, ghost bound: nat)
      requires WellFormedMap() && octant in octants
      requires Depth(octant) < MAX_DEPTH && HasChildrenIn(octants, octant) && Depth(octant) + 1 < MAX_DEPTH
      modifies this
      ensures WellFormedMap() && octant in octants && octants[octant] == old(octants)[octant]
      ensures AgreeAbove(old(octants), octants, Depth(octant), octant)
      ensures HasChildrenIn(octants, octant) ==> !IsCollapsibleIn(octants, octant)
      ensures DepthBounded(old(octants), bound) ==> DepthBounded(octants, bound)
    {
      CollapsedFrame(octants, leaves, octant, bound);
      if IsCollapsibleIn(octants, octant) {
        CollapseCell(octant);
      }
    }

    /** The recursion of `apply_tool_at_octant` into the 8 children, in
        index order; a panic in one child ends the stroke. */
    method ApplyToChildren(s: Stroke, octant: Word64) returns (ok: bool)
      requires WellFormedMap() && octant in octants && BoxesValid(s.boxOf)
      requires Depth(octant) < MAX_DEPTH && HasChildrenIn(octants, octant)
      modifies this
      ensures ok ==> WellFormedMap() && octant in octants && HasChildrenIn(octants, octant) && Depth(octant) + 1 < MAX_DEPTH
      ensures ok ==> AgreeAbove(old(octants), octants, Depth(octant), octant) && octants[octant] == old(octants)[octant]
      ensures s.tool.isConcave && AoeMeetsAll(s) ==> !ok
      ensures Tools.IsConvex(s.tool) && s.maxDepth < MAX_DEPTH && DepthBounded(old(octants), s.maxDepth) ==>
        ok && DepthBounded(octants, s.maxDepth)
      decreases MAX_DEPTH - Depth(octant), 0
    {
      var i := 0;
      while i < 8
        invariant 0 <= i <= 8
        invariant WellFormedMap() && octant in octants && HasChildrenIn(octants, octant)
        invariant AgreeAbove(old(octants), octants, Depth(octant), octant) && octants[octant] == old(octants)[octant]
        invariant i > 0 ==> Depth(octant) + 1 < MAX_DEPTH
        invariant s.tool.isConcave && AoeMeetsAll(s) ==> i == 0
        invariant Tools.IsConvex(s.tool) && s.maxDepth < MAX_DEPTH && DepthBounded(old(octants), s.maxDepth) ==>
          DepthBounded(octants, s.maxDepth)
      {
        ChildrenPresent(octants, octant, i);
        ghost var before := octants;
        var childOk := ApplyToolAtOctant(s, Pushed(octant, i));
        if !childOk {
          return false;
        }
        ChildStepFrame(old(octants), before, octants, octant, i);
        i := i + 1;
      }
      ok := true;
    }

    /** `apply_tool_recurse`: clips the tool boxes to the root box, returns
        early when the stroke cannot touch the terrain, and otherwise applies
        the stroke from the root. */
    method ApplyToolRecurse(tool: Tools.Tool, action: Action, maxDepth: nat, boxOf: Word64 -> AABB,
                            scaleOf: Word64 -> real, classify: (AABB, AABB) -> Tools.Relation) returns (ok: bool)
      requires WellFormedMap() && BoxesValid(boxOf)
      modifies this
      ensures ClippedBoxes(boxOf(RootKey()), tool, action, classify).None? ==>
        ok && octants == old(octants) && leaves == old(leaves)
      ensures ok ==> WellFormedMap()
      ensures ok && ClippedBoxes(boxOf(RootKey()), tool, action, classify).Some? ==>
        var s := RootStroke(tool, action, maxDepth, boxOf, scaleOf, classify);
        octants[RootKey()] == StrokeValues(old(octants)[RootKey()], RootKey(), s)
      ensures Tools.IsConvex(tool) && maxDepth < MAX_DEPTH && DepthBounded(old(octants), maxDepth) ==>
        ok && DepthBounded(octants, maxDepth)
    {
      var clipped := ClippedBoxes(boxOf(RootKey()), tool, action, classify);
      if clipped.None? {
        return true;
      }
      ok := ApplyToolAtOctant(RootStroke(tool, action, maxDepth, boxOf, scaleOf, classify), RootKey());
    }

    /** `generate_mesh`: visits the entries in the map's own (unspecified)
        order and marches those `Marched` selects; `order` records the
        visiting order. */
    method GenerateMesh(maxDepth: nat, boxOf: Word64 -> AABB, march: (seq<Vec3>, seq<real>) -> seq<Vec3>)
      returns (faces: seq<Vec3>, ghost order: seq<Word64>)
      requires BoxesValid(boxOf)
      ensures forall k :: k in order <==> Marched(octants, leaves, maxDepth, k)
      ensures forall i, j :: 0 <= i < j < |order| ==> order[i] != order[j]
      ensures forall i :: 0 <= i < |order| ==> order[i] in octants
      ensures faces == MarchKeys(octants, order, boxOf, march)
    {
      faces := [];
      order := [];
      var remaining := octants.Keys;
      while remaining != {}
        invariant remaining <= octants.Keys
        invariant forall i :: 0 <= i < |order| ==> order[i] in octants && order[i] !in remaining
        invariant forall k :: k in octants && k !in remaining ==> (k in order <==> Marched(octants, leaves, maxDepth, k))
        invariant forall i, j :: 0 <= i < j < |order| ==> order[i] != order[j]
        invariant faces == MarchKeys(octants, order, boxOf, march)
        decreases |remaining|
      {
        var k :| k in remaining;
        if Depth(k) == maxDepth || (Depth(k) < maxDepth && k in leaves) {
          faces := faces + march(CalculateCorners(boxOf(k)), octants[k]);
          assert (order + [k])[..|order|] == order;
          order := order + [k];
        }
        remaining := remaining - {k};
      }
    }
  }

  /** The stroke `apply_tool_recurse` starts from the root with. */
  function RootStroke(tool: Tools.Tool, action: Action, maxDepth: nat, boxOf: Word64 -> AABB,
                      scaleOf: Word64 -> real, classify: (AABB, AABB) -> Tools.Relation): Stroke
    requires ClippedBoxes(boxOf(RootKey()), tool, action, classify).Some?
  {
    var boxes := ClippedBoxes(boxOf(RootKey()), tool, action, classify).value;
    Stroke(tool, boxes.0, boxes.1, action, maxDepth, boxOf, scaleOf, classify)
  }
}
