/** The subdivision loop itself, with its string-keyed midpoint cache, against `Mesh`. */
module Subdivide {
  import opened Decimal
  import opened Mesh
  import opened Optional

  /** The largest index a 32-bit signed vertex index can hold. */
  const INT32_MAX := 0x7fff_ffff

  /** The cache key of an edge: both indices in decimal, smaller first. */
  function Key(e: Edge): string {
    Render(e.lo) + "_" + Render(e.hi)
  }

  lemma UnderscoreIsLast(digits: string, key: string, n: nat)
    requires AllDigits(digits) && digits <= key && n < |key| && key[n] == '_'
    ensures |digits| <= n
  {
    assert forall i | 0 <= i < |digits| :: IsDigit(key[i]);
  }

  lemma KeyInjective(e: Edge, e': Edge)
    requires Key(e) == Key(e')
    ensures e == e'
  {
    var n, n' := |Render(e.lo)|, |Render(e'.lo)|;
    assert Key(e)[n] == '_' && Key(e')[n'] == '_';
    UnderscoreIsLast(Render(e.lo), Key(e), n');
    UnderscoreIsLast(Render(e'.lo), Key(e'), n);
    assert Render(e.lo) == Key(e)[..n] == Render(e'.lo);
    assert Render(e.hi) == Key(e)[n + 1..] == Render(e'.hi);
    ValueOfRender(e.lo); ValueOfRender(e'.lo);
    ValueOfRender(e.hi); ValueOfRender(e'.hi);
  }

  /** `p` is the blend of the edge's two old end points, in one order or the other. */
  ghost predicate Halfway<P(!new)>(base: seq<P>, blend: (P, P) -> P, e: Edge, p: P) {
    && e.lo < |base| && e.hi < |base|
    && (p == blend(base[e.lo], base[e.hi]) || p == blend(base[e.hi], base[e.lo]))
  }

  /** The string-keyed cache holds exactly the numbering `m`. */
  ghost predicate CacheHolds(m: map<Edge, nat>, cache: map<string, nat>) {
    && (forall e :: e in m ==> Key(e) in cache && cache[Key(e)] == m[e])
    && (forall e :: Key(e) in cache ==> e in m)
  }

  ghost predicate PointsPlaced<P(!new)>(base: seq<P>, blend: (P, P) -> P, vertices: seq<P>, m: map<Edge, nat>) {
    forall e :: e in m ==> |base| <= m[e] < |vertices| && Halfway(base, blend, e, vertices[m[e]])
  }

  lemma CacheGrows(m: map<Edge, nat>, cache: map<string, nat>, e: Edge, index: nat)
    requires CacheHolds(m, cache) && e !in m
    ensures CacheHolds(m[e := index], cache[Key(e) := index])
  {
    forall e' | Key(e') == Key(e) ensures e' == e { KeyInjective(e', e); }
  }

  lemma PointsGrow<P(!new)>(base: seq<P>, blend: (P, P) -> P, vertices: seq<P>, m: map<Edge, nat>, e: Edge, p: P)
    requires PointsPlaced(base, blend, vertices, m) && e !in m && |base| <= |vertices|
    requires Halfway(base, blend, e, p)
    ensures PointsPlaced(base, blend, vertices + [p], m[e := |vertices|])
  {
    var m' := m[e := |vertices|];
    forall e' | e' in m' ensures Halfway(base, blend, e', (vertices + [p])[m'[e']]) {
      if e' != e { assert e' in m; }
    }
  }

  /** `n` is the index the numbering gives edge `e` of `walk`. */
  ghost predicate Gives(nv: nat, walk: seq<Edge>, e: Edge, n: nat) {
    e in Number(nv, walk) && Number(nv, walk)[e] == n
  }

  /** No index is left for `e` after `walk`. */
  ghost predicate Full(nv: nat, walk: seq<Edge>, e: Edge) {
    e !in Number(nv, walk) && nv + |Number(nv, walk)| > INT32_MAX
  }

  function SidesOf(f: Face): seq<Edge> { [f.Side(0), f.Side(1), f.Side(2)] }

  /** Points and cache are those of the numbering of the edges asked for. */
  ghost predicate Sound<P(!new)>(
    base: seq<P>, blend: (P, P) -> P, vertices: seq<P>, cache: map<string, nat>, asked: seq<Edge>)
  {
    var m := Number(|base|, asked);
    && |vertices| == |base| + |m|
    && base <= vertices
    && (m != map[] ==> |vertices| <= INT32_MAX + 1)
    && CacheHolds(m, cache)
    && PointsPlaced(base, blend, vertices, m)
  }

  lemma HitIsSound<P(!new)>(
    base: seq<P>, blend: (P, P) -> P, vertices: seq<P>, cache: map<string, nat>, asked: seq<Edge>, e: Edge)
    requires Sound(base, blend, vertices, cache, asked) && Key(e) in cache
    ensures Sound(base, blend, vertices, cache, asked + [e])
    ensures !Full(|base|, asked, e) && Gives(|base|, asked + [e], e, cache[Key(e)])
  {
    NumberGrows(|base|, asked, e);
  }

  lemma MissIsSound<P(!new)>(
    base: seq<P>, blend: (P, P) -> P, vertices: seq<P>, cache: map<string, nat>, asked: seq<Edge>, e: Edge, p: P)
    requires Sound(base, blend, vertices, cache, asked) && Key(e) !in cache && Halfway(base, blend, e, p)
    requires |vertices| <= INT32_MAX
    ensures Sound(base, blend, vertices + [p], cache[Key(e) := |vertices|], asked + [e])
    ensures !Full(|base|, asked, e) && Gives(|base|, asked + [e], e, |vertices|)
  {
    NumberGrows(|base|, asked, e);
    CacheGrows(Number(|base|, asked), cache, e, |vertices|);
    PointsGrow(base, blend, vertices, Number(|base|, asked), e, p);
  }

  class MidpointTable<P(!new)> {
    const base: seq<P>
    const blend: (P, P) -> P
    var vertices: seq<P>
    var cache: map<string, nat>
    /** The edges asked for so far, in order. */
    ghost var asked: seq<Edge>

    ghost predicate Valid()
      reads this
    {
      Sound(base, blend, vertices, cache, asked)
    }

    constructor (vertices: seq<P>, blend: (P, P) -> P)
      ensures Valid() && base == vertices && this.blend == blend && asked == []
    {
      this.base, this.blend, this.vertices := vertices, blend, vertices;
      this.cache, this.asked := map[], [];
    }

    /** The index of the midpoint of `a` and `b`; `None` when a new index would not fit 32 bits. */
    method Midpoint(a: nat, b: nat) returns (r: Option<nat>)
      requires Valid() && a < |base| && b < |base|
      modifies this`vertices, this`cache, this`asked
      ensures var e := Undirected(a, b);
              && (r.None? <==> Full(|base|, old(asked), e))
              && (r.None? ==> asked == old(asked))
              && (r.Some? ==> asked == old(asked) + [e])
              && (r.Some? ==> Gives(|base|, asked, e, r.value))
      ensures Valid()
    {
      ghost var e := Undirected(a, b);
      var key := if a < b then Render(a) + "_" + Render(b) else Render(b) + "_" + Render(a);
      assert key == Key(e);
      if key in cache {
        HitIsSound(base, blend, vertices, cache, asked, e);
        asked := asked + [e];
        return Some(cache[key]);
      }
      var va, vb := vertices[a], vertices[b];
      var index := |vertices|;
      if index > INT32_MAX {
        return None;
      }
      MissIsSound(base, blend, vertices, cache, asked, e, blend(va, vb));
      vertices := vertices + [blend(va, vb)];
      cache := cache[key := index];
      asked := asked + [e];
      return Some(index);
    }

    /** The three midpoints of a face, side by side. */
    method FaceMidpoints(f: Face) returns (r: Option<(nat, nat, nat)>)
      requires Valid() && f.InRange(|base|)
      modifies this`vertices, this`cache, this`asked
      ensures Valid()
      ensures r.None? ==> exists e, w :: NoRoomFor(|base|, old(asked), f, e, w)
      ensures r.Some? ==> asked == old(asked) + [f.Side(0)] + [f.Side(1)] + [f.Side(2)]
      ensures r.Some? ==> Placed(|base|, old(asked), f, r.value.0, r.value.1, r.value.2)
    {
      ghost var walk := asked;
      var ab := Midpoint(f.a, f.b);
      if ab.None? {
        SideHasNoRoom(|base|, walk, f, 0);
        return None;
      }
      var bc := Midpoint(f.b, f.c);
      if bc.None? {
        SideHasNoRoom(|base|, walk, f, 1);
        return None;
      }
      var ca := Midpoint(f.c, f.a);
      if ca.None? {
        SideHasNoRoom(|base|, walk, f, 2);
        return None;
      }
      return Some((ab.value, bc.value, ca.value));
    }
  }

  ghost predicate Placed(nv: nat, walk: seq<Edge>, f: Face, ab: nat, bc: nat, ca: nat) {
    && Gives(nv, walk + [f.Side(0)], f.Side(0), ab)
    && Gives(nv, walk + [f.Side(0)] + [f.Side(1)], f.Side(1), bc)
    && Gives(nv, walk + [f.Side(0)] + [f.Side(1)] + [f.Side(2)], f.Side(2), ca)
  }

  /** Side `e` of face `f` found no index after `w`, which is `walk` and some sides of `f`. */
  ghost predicate NoRoomFor(nv: nat, walk: seq<Edge>, f: Face, e: Edge, w: seq<Edge>) {
    && e in SidesOf(f) && Full(nv, w, e)
    && forall x :: x in w ==> x in walk || x in SidesOf(f)
  }

  /** `walk` and the sides of `f` before side `k`. */
  function Before(walk: seq<Edge>, f: Face, k: nat): seq<Edge>
    requires k < 3
  {
    if k == 0 then walk else if k == 1 then walk + [f.Side(0)] else walk + [f.Side(0)] + [f.Side(1)]
  }

  lemma SideHasNoRoom(nv: nat, walk: seq<Edge>, f: Face, k: nat)
    requires k < 3 && Full(nv, Before(walk, f, k), f.Side(k))
    ensures exists e, w :: NoRoomFor(nv, walk, f, e, w)
  {
    assert f.Side(k) == SidesOf(f)[k];
    assert f.Side(0) == SidesOf(f)[0] && f.Side(1) == SidesOf(f)[1];
    assert NoRoomFor(nv, walk, f, f.Side(k), Before(walk, f, k));
  }

  // ---------------------------------------------------------------- the face loop

  lemma WalkGrows(faces: seq<Face>, i: nat)
    requires i < |faces|
    ensures Walk(faces[..i + 1]) == Walk(faces[..i]) + [faces[i].Side(0)] + [faces[i].Side(1)] + [faces[i].Side(2)]
  {
    assert faces[..i + 1][..i] == faces[..i];
  }

  lemma SplitGrows(faces: seq<Face>, i: nat, m: map<Edge, nat>)
    requires i < |faces| && forall j :: 0 <= j <= i ==> Covers(m, faces[j])
    ensures Split(faces[..i + 1], m) ==
            Split(faces[..i], m)
            + [Piece(faces[i], m, 0), Piece(faces[i], m, 1), Piece(faces[i], m, 2), Piece(faces[i], m, 3)]
  {
    assert faces[..i + 1][..i] == faces[..i];
  }

  ghost predicate Within(m: map<Edge, nat>, m': map<Edge, nat>) {
    forall e :: e in m ==> e in m' && m'[e] == m[e]
  }

  lemma {:induction false} SplitStable(faces: seq<Face>, m: map<Edge, nat>, m': map<Edge, nat>)
    requires (forall j :: 0 <= j < |faces| ==> Covers(m, faces[j])) && Within(m, m')
    ensures forall j :: 0 <= j < |faces| ==> Covers(m', faces[j])
    ensures Split(faces, m) == Split(faces, m')
  {
    forall j | 0 <= j < |faces| ensures Covers(m', faces[j]) { assert Covers(m, faces[j]); }
    if faces != [] { SplitStable(faces[..|faces| - 1], m, m'); }
  }

  lemma NumberWithin(nv: nat, walk: seq<Edge>, e: Edge)
    ensures Within(Number(nv, walk), Number(nv, walk + [e]))
    ensures e in Number(nv, walk + [e])
  {
    NumberGrows(nv, walk, e);
  }

  /** Running out of indices in the middle of the mesh means V + E does not fit. */
  lemma TrapMeansTooMany(nv: nat, faces: seq<Face>, i: nat, walk: seq<Edge>)
    requires i < |faces| && walk == Walk(faces[..i])
    requires exists e, w :: NoRoomFor(nv, walk, faces[i], e, w)
    ensures nv + |EdgeSet(faces)| > INT32_MAX + 1
  {
    var e, w :| NoRoomFor(nv, walk, faces[i], e, w);
    WalkPrefix(faces, i);
    NumberCoversWalk(nv, w);
    var k := Number(nv, w).Keys;
    assert k < EdgeSet(faces) by { assert e !in k; }
    Smaller(k, EdgeSet(faces));
    assert |k| == |Number(nv, w)|;
  }

  lemma Smaller(a: set<Edge>, b: set<Edge>)
    requires a < b
    ensures |a| < |b|
  {
    assert b == a + (b - a);
    assert b - a != {};
  }

  lemma WalkPrefix(faces: seq<Face>, i: nat)
    requires i < |faces|
    ensures forall x :: x in Walk(faces[..i]) || x in SidesOf(faces[i]) ==> x in EdgeSet(faces)
  {
    WalkCoversEdges(faces[..i]);
    forall x | x in Walk(faces[..i]) ensures x in EdgeSet(faces) {
      var j, l := EdgeHasFace(faces[..i], x);
      SideIsEdge(faces, j, l);
    }
  }

  /** What the loop has built after `i` faces. */
  ghost predicate Built(nv: nat, faces: seq<Face>, i: nat, newFaces: seq<Face>)
    requires i <= |faces|
  {
    var m := Midpoints(nv, faces[..i]);
    && (forall j :: 0 <= j < i ==> Covers(m, faces[..i][j]))
    && newFaces == Split(faces[..i], m)
  }

  lemma FaceStep(nv: nat, faces: seq<Face>, i: nat, newFaces: seq<Face>, ab: nat, bc: nat, ca: nat)
    requires i < |faces| && Built(nv, faces, i, newFaces)
    requires Placed(nv, Walk(faces[..i]), faces[i], ab, bc, ca)
    ensures var f := faces[i];
            var four := [Face(f.a, ab, ca), Face(f.b, bc, ab), Face(f.c, ca, bc), Face(ab, bc, ca)];
            Built(nv, faces, i + 1, newFaces + four)
  {
    var f, w := faces[i], Walk(faces[..i]);
    var w1 := w + [f.Side(0)];
    var w2 := w1 + [f.Side(1)];
    WalkGrows(faces, i);
    NumberWithin(nv, w, f.Side(0));
    NumberWithin(nv, w1, f.Side(1));
    NumberWithin(nv, w2, f.Side(2));
    var m := Midpoints(nv, faces[..i + 1]);
    assert m == Number(nv, w2 + [f.Side(2)]);
    SplitStable(faces[..i], Number(nv, w), m);
    assert faces[..i + 1] == faces[..i] + [f];
    assert Covers(m, f);
    SplitGrows(faces, i, m);
  }

  lemma SomeEdge(nv: nat, faces: seq<Face>)
    requires faces != []
    ensures Midpoints(nv, faces) != map[]
  {
    MidpointsBijection(nv, faces);
    SideIsEdge(faces, 0, 0);
  }

  lemma Finished(nv: nat, faces: seq<Face>, newFaces: seq<Face>)
    requires Built(nv, faces, |faces|, newFaces)
    ensures faces[..|faces|] == faces && newFaces == Subdivided(nv, faces)
    ensures |Midpoints(nv, faces)| == |EdgeSet(faces)|
    ensures faces != [] ==> Midpoints(nv, faces) != map[]
  {
    assert faces[..|faces|] == faces;
    MidpointsNumber(nv, faces);
    if faces != [] { SomeEdge(nv, faces); }
  }

  /** One round over a whole mesh. `None` is the trap on an index that does not fit 32 bits. */
  method Subdivide<P(!new)>(vertices: seq<P>, faces: seq<Face>, blend: (P, P) -> P)
      returns (r: Option<(seq<P>, seq<Face>)>)
    requires AllInRange(|vertices|, faces)
    ensures r.None? <==> faces != [] && |vertices| + |EdgeSet(faces)| > INT32_MAX + 1
    ensures r.Some? ==> r.value.1 == Subdivided(|vertices|, faces)
    ensures r.Some? ==> |r.value.0| == |vertices| + |EdgeSet(faces)| && vertices <= r.value.0
    ensures r.Some? ==> PointsPlaced(vertices, blend, r.value.0, Midpoints(|vertices|, faces))
  {
    var nv := |vertices|;
    var table := new MidpointTable(vertices, blend);
    var newFaces: seq<Face> := [];
    for i := 0 to |faces|
      invariant fresh(table) && table.Valid() && table.base == vertices && table.blend == blend
      invariant table.asked == Walk(faces[..i])
      invariant Built(nv, faces, i, newFaces)
    {
      var f := faces[i];
      assert f.InRange(nv);
      var mids := table.FaceMidpoints(f);
      if mids.None? {
        TrapMeansTooMany(nv, faces, i, Walk(faces[..i]));
        return None;
      }
      var (ab, bc, ca) := mids.value;
      FaceStep(nv, faces, i, newFaces, ab, bc, ca);
      WalkGrows(faces, i);
      newFaces := newFaces + [Face(f.a, ab, ca), Face(f.b, bc, ab), Face(f.c, ca, bc), Face(ab, bc, ca)];
    }
    Finished(nv, faces, newFaces);
    return Some((table.vertices, newFaces));
  }

  /** The wireframe's edge loop: each face adds its three sides, smaller index first. */
  method CollectEdges(faces: seq<Face>) returns (edges: set<Edge>)
    ensures edges == EdgeSet(faces)
  {
    edges := {};
    for i := 0 to |faces|
      invariant edges == EdgeSet(faces[..i])
    {
      var f := faces[i];
      ghost var before := edges;
      for k := 0 to 3
        invariant edges == before + set l | 0 <= l < k :: f.Side(l)
      {
        edges := edges + {f.Side(k)};
      }
      assert faces[..i + 1] == faces[..i] + [f];
      EdgeSetGrows(faces[..i], f);
    }
    assert faces[..|faces|] == faces;
  }

  lemma EdgeSetGrows(faces: seq<Face>, f: Face)
    ensures EdgeSet(faces + [f]) == EdgeSet(faces) + set l | 0 <= l < 3 :: f.Side(l)
  {
    forall e ensures e in EdgeSet(faces + [f]) <==> e in EdgeSet(faces) || e in set l | 0 <= l < 3 :: f.Side(l) {
      if e in EdgeSet(faces + [f]) {
        var i, k := EdgeHasFace(faces + [f], e);
      }
      if e in EdgeSet(faces) {
        var i, k := EdgeHasFace(faces, e);
        assert (faces + [f])[i].Side(k) == e;
      }
      if e in set l | 0 <= l < 3 :: f.Side(l) {
        var l :| 0 <= l < 3 && f.Side(l) == e;
        assert (faces + [f])[|faces|].Side(l) == e;
      }
    }
  }
}
