/** The triangle mesh of `mesh.rs` and its vertex deduplication `Mesh::index`.
    Vertices are real triples; normals are not modelled. */
module Meshes {
  import opened Geometry
  import opened Options

  predicate Distinct<T(==)>(s: seq<T>) {
    forall i, j :: 0 <= i < j < |s| ==> s[i] != s[j]
  }

  /** The vertices of `vs`, each once, in order of first occurrence. */
  function Dedup(vs: seq<Vec3>): seq<Vec3>
  {
    if |vs| == 0 then []
    else
      var d := Dedup(vs[..|vs| - 1]);
      if vs[|vs| - 1] in d then d else d + [vs[|vs| - 1]]
  }

  /** The first position of `v` in `d`. */
  function IndexIn(d: seq<Vec3>, v: Vec3): (r: nat)
    requires v in d
    ensures r < |d| && d[r] == v
    ensures forall i :: 0 <= i < r ==> d[i] != v
  {
    if d[0] == v then 0 else 1 + IndexIn(d[1..], v)
  }

  /** Deduplication keeps exactly the vertices that occur, each once, and
      never lengthens the sequence. */
  lemma {:induction false} DedupElements(vs: seq<Vec3>)
    ensures forall v :: v in Dedup(vs) <==> v in vs
    ensures Distinct(Dedup(vs))
    ensures |Dedup(vs)| <= |vs|
  {
    if |vs| > 0 {
      var init := vs[..|vs| - 1];
      DedupElements(init);
      assert vs == init + [vs[|vs| - 1]];
    }
  }

  /** One more vertex either was seen before, or is appended at the end. */
  lemma DedupStep(vs: seq<Vec3>, i: nat)
    requires i < |vs|
    ensures Dedup(vs[..i + 1]) ==
      if vs[i] in Dedup(vs[..i]) then Dedup(vs[..i]) else Dedup(vs[..i]) + [vs[i]]
  {
    assert vs[..i + 1][..i] == vs[..i];
  }

  /** The deduplication of a prefix is a prefix of the deduplication. */
  lemma {:induction false} DedupPrefix(vs: seq<Vec3>, i: nat)
    requires i <= |vs|
    ensures |Dedup(vs[..i])| <= |Dedup(vs)|
    ensures Dedup(vs[..i]) == Dedup(vs)[..|Dedup(vs[..i])|]
    decreases |vs| - i
  {
    if i == |vs| {
      assert vs[..i] == vs;
    } else {
      var init := vs[..|vs| - 1];
      DedupPrefix(init, i);
      assert init[..i] == vs[..i];
    }
  }

  /** First-occurrence order: a vertex not seen before position `i` gets as
      its index the number of distinct vertices before it. */
  lemma DedupNewVertex(vs: seq<Vec3>, i: nat)
    requires i < |vs| && vs[i] !in vs[..i]
    ensures vs[i] in Dedup(vs)
    ensures IndexIn(Dedup(vs), vs[i]) == |Dedup(vs[..i])|
  {
    DedupElements(vs[..i]);
    DedupElements(vs);
    DedupStep(vs, i);
    DedupPrefix(vs, i + 1);
    var d := Dedup(vs);
    var n := |Dedup(vs[..i])|;
    assert d[n] == vs[i];
    var r := IndexIn(d, vs[i]);
    assert r == n;
  }

  /** A sequence without repeats holds as many elements as its length. */
  lemma {:induction false} DistinctCard(d: seq<Vec3>)
    requires Distinct(d)
    ensures |set v | v in d| == |d|
  {
    if |d| > 0 {
      var init := d[..|d| - 1];
      DistinctCard(init);
      assert (set v | v in d) == (set v | v in init) + {d[|d| - 1]};
    }
  }

  /** The deduplicated vertex count is the number of distinct vertices. */
  lemma DedupCount(vs: seq<Vec3>)
    ensures |Dedup(vs)| == |set v | v in vs|
  {
    DedupElements(vs);
    DistinctCard(Dedup(vs));
    assert (set v | v in Dedup(vs)) == (set v | v in vs);
  }

  /** A mesh whose vertices are already distinct keeps them as they are, so
      indexing twice gives the vertices of indexing once. */
  lemma {:induction false} DedupOfDistinct(vs: seq<Vec3>)
    requires Distinct(vs)
    ensures Dedup(vs) == vs
  {
    if |vs| > 0 {
      var init := vs[..|vs| - 1];
      DedupOfDistinct(init);
      assert vs == init + [vs[|vs| - 1]];
    }
  }

  lemma DedupIdempotent(vs: seq<Vec3>)
    ensures Dedup(Dedup(vs)) == Dedup(vs)
  {
    DedupElements(vs);
    DedupOfDistinct(Dedup(vs));
  }

  /** Indices into a sequence without repeats are determined by the
      positions they must name. */
  lemma IndicesDetermined(d: seq<Vec3>, vs: seq<Vec3>, idx: seq<nat>, j: nat)
    requires Distinct(d) && |idx| == |vs| && j < |vs|
    requires idx[j] < |d| && d[idx[j]] == vs[j]
    ensures vs[j] in d && idx[j] == IndexIn(d, vs[j])
  {
  }

  class Mesh {
    var vertices: seq<Vec3>
    var indices: Option<seq<nat>>

    /** A freshly generated, unindexed mesh. */
    constructor (vs: seq<Vec3>)
      ensures vertices == vs && indices == None
    {
      vertices := vs;
      indices := None;
    }

    /** `Mesh::index`: a no-op for an indexed mesh. Otherwise the vertices are
        replaced by their deduplication and `indices[i]` names the position
        of the old vertex `i` in it, so every face (three consecutive
        indices) names the positions the unindexed triangle had. */
    method Index()
      modifies this
      ensures old(indices).Some? ==> indices == old(indices) && vertices == old(vertices)
      ensures old(indices).None? ==>
        && vertices == Dedup(old(vertices))
        && indices.Some? && |indices.value| == |old(vertices)|
        && (forall j :: 0 <= j < |old(vertices)| ==>
              indices.value[j] < |vertices| && vertices[indices.value[j]] == old(vertices)[j])
    {
      if indices.Some? {
        return;
      }
      var vs := vertices;
      var vertMap, idx := BuildVertexMap(vs);
      DedupElements(vs);
      indices := Some(idx);
      vertices := OverwriteVertices(vertices[..|vertMap|], vertMap, Dedup(vs));
    }
  }

  /** The last step of `Mesh::index`: after truncation to the distinct count,
      every map entry writes its vertex at its new index, in the map's own
      (unspecified) order. Since the new indices number the distinct vertices,
      the result does not depend on that order. */
  method OverwriteVertices(vs: seq<Vec3>, vertMap: map<Vec3, (nat, nat)>, ghost d: seq<Vec3>)
    returns (r: seq<Vec3>)
    requires |vs| == |d| && Distinct(d)
    requires forall v :: v in vertMap ==> vertMap[v].1 < |d| && d[vertMap[v].1] == v
    requires forall p :: 0 <= p < |d| ==> d[p] in vertMap
    ensures r == d
  {
    r := vs;
    var remaining := vertMap.Keys;
    while remaining != {}
      invariant remaining <= vertMap.Keys
      invariant |r| == |d|
      invariant forall p :: 0 <= p < |d| && d[p] !in remaining ==> r[p] == d[p]
      decreases |remaining|
    {
      var v :| v in remaining;
      r := r[vertMap[v].1 := v];
      remaining := remaining - {v};
    }
  }

  /** `vert_map` numbers the vertices of `d` by position. */
  predicate NumbersPositions(vertMap: map<Vec3, (nat, nat)>, d: seq<Vec3>) {
    && |vertMap| == |d|
    && (forall k :: 0 <= k < |d| ==> d[k] in vertMap && vertMap[d[k]].1 == k)
    && (forall v :: v in vertMap ==> vertMap[v].1 < |d| && d[vertMap[v].1] == v)
  }

  /** The first `i` entries of `idx` name the positions in `d` of the first
      `i` vertices. */
  predicate NamesPositions(vs: seq<Vec3>, i: nat, idx: seq<nat>, d: seq<Vec3>) {
    i <= |vs| && |idx| == i && forall j :: 0 <= j < i ==> idx[j] < |d| && d[idx[j]] == vs[j]
  }

  /** A vertex not in the map gets the next new index. */
  lemma NumbersPositionsNew(vertMap: map<Vec3, (nat, nat)>, d: seq<Vec3>, v: Vec3, first: nat)
    requires NumbersPositions(vertMap, d) && v !in vertMap
    ensures NumbersPositions(vertMap[v := (first, |vertMap|)], d + [v])
  {
    var d' := d + [v];
    var m := vertMap[v := (first, |vertMap|)];
    forall k | 0 <= k < |d'|
      ensures d'[k] in m && m[d'[k]].1 == k
    {
      if k < |d| {
        assert d'[k] == d[k] && d[k] != v;
      }
    }
  }

  /** Extending the deduplication at its end keeps earlier indices valid. */
  lemma NamesPositionsStep(vs: seq<Vec3>, i: nat, idx: seq<nat>, d: seq<Vec3>, d': seq<Vec3>, x: nat)
    requires NamesPositions(vs, i, idx, d) && i < |vs|
    requires |d| <= |d'| && d'[..|d|] == d && x < |d'| && d'[x] == vs[i]
    ensures NamesPositions(vs, i + 1, idx + [x], d')
  {
    assert forall k :: 0 <= k < |d| ==> d'[k] == d'[..|d|][k];
  }

  /** The loop of `Mesh::index` building `vert_map` (vertex to first position
      and new index) and the index buffer. */
  method BuildVertexMap(vs: seq<Vec3>) returns (vertMap: map<Vec3, (nat, nat)>, idx: seq<nat>)
    ensures NumbersPositions(vertMap, Dedup(vs))
    ensures NamesPositions(vs, |vs|, idx, Dedup(vs))
  {
    vertMap := map[];
    idx := [];
    ghost var d: seq<Vec3> := [];
    var i := 0;
    while i < |vs|
      invariant i <= |vs| && d == Dedup(vs[..i])
      invariant NumbersPositions(vertMap, d)
      invariant NamesPositions(vs, i, idx, d)
    {
      var curLen := |vertMap|;
      var v := vs[i];
      DedupStep(vs, i);
      ghost var d0 := d;
      if v !in vertMap {
        assert v !in d;
        NumbersPositionsNew(vertMap, d, v, i);
        vertMap := vertMap[v := (i, curLen)];
        d := d + [v];
      } else {
        assert v in d;
      }
      NamesPositionsStep(vs, i, idx, d0, d, vertMap[v].1);
      idx := idx + [vertMap[v].1];
      i := i + 1;
    }
    assert vs[..i] == vs;
  }
}
