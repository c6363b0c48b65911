/** One round of geodesic subdivision of a triangle mesh, and what any number of rounds keeps.
    Coordinates are abstract: `P` is a point and `blend` places the midpoint of two points. */
module Mesh {
  import SetCounting

  /** An undirected edge, smaller index first. */
  datatype Edge = Edge(lo: nat, hi: nat)

  function Undirected(u: nat, v: nat): Edge {
    if u < v then Edge(u, v) else Edge(v, u)
  }

  function Next(k: nat): (n: nat)
    requires k < 3
    ensures n < 3
  {
    if k == 2 then 0 else k + 1
  }

  function Prev(k: nat): (n: nat)
    requires k < 3
    ensures n < 3 && Next(n) == k
  {
    if k == 0 then 2 else k - 1
  }

  datatype Face = Face(a: nat, b: nat, c: nat) {
    function At(k: nat): nat
      requires k < 3
    {
      if k == 0 then a else if k == 1 then b else c
    }

    /** The undirected side leaving corner `k`. */
    function Side(k: nat): Edge
      requires k < 3
    {
      Undirected(At(k), At(Next(k)))
    }

    /** The same side, in the direction the face walks it. */
    function Arrow(k: nat): (nat, nat)
      requires k < 3
    {
      (At(k), At(Next(k)))
    }

    predicate NonDegenerate() { a != b && b != c && c != a }

    predicate InRange(n: nat) { a < n && b < n && c < n }

    function Corners(): set<nat> { {a, b, c} }
  }

  predicate AllInRange(nv: nat, faces: seq<Face>) {
    forall i :: 0 <= i < |faces| ==> faces[i].InRange(nv)
  }

  predicate DistinctFaces(faces: seq<Face>) {
    forall i, j :: 0 <= i < |faces| && 0 <= j < |faces| && faces[i].Corners() == faces[j].Corners() ==> i == j
  }

  /** What subdivision asks of a mesh: indices in range, no collapsed face, no face listed twice. */
  predicate Proper(nv: nat, faces: seq<Face>) {
    && AllInRange(nv, faces)
    && (forall i :: 0 <= i < |faces| ==> faces[i].NonDegenerate())
    && DistinctFaces(faces)
  }

  function EdgeSet(faces: seq<Face>): set<Edge> {
    set i, k | 0 <= i < |faces| && 0 <= k < 3 :: faces[i].Side(k)
  }

  /** Every directed side lies in exactly one face, and so does its reverse: a closed mesh whose
      faces all wind the same way. */
  ghost predicate Oriented(faces: seq<Face>) {
    && (forall i, k, j, l | 0 <= i < |faces| && 0 <= j < |faces| && 0 <= k < 3 && 0 <= l < 3
          :: faces[i].Arrow(k) == faces[j].Arrow(l) ==> i == j && k == l)
    && (forall i, k :: 0 <= i < |faces| && 0 <= k < 3 ==> HasReverse(faces, faces[i].Arrow(k)))
  }

  ghost predicate HasReverse(faces: seq<Face>, d: (nat, nat)) {
    exists j, l :: 0 <= j < |faces| && 0 <= l < 3 && faces[j].Arrow(l) == (d.1, d.0)
  }

  // ---------------------------------------------------------------- numbering the midpoints

  /** The sides in the order the face loop asks for their midpoints. */
  function Walk(faces: seq<Face>): seq<Edge> {
    if faces == [] then [] else
      var f := faces[|faces| - 1];
      Walk(faces[..|faces| - 1]) + [f.Side(0), f.Side(1), f.Side(2)]
  }

  /** First come, first numbered: each new edge takes the next free vertex index. */
  function Number(nv: nat, walk: seq<Edge>): map<Edge, nat> {
    if walk == [] then map[] else
      Numbered(nv, Number(nv, walk[..|walk| - 1]), walk[|walk| - 1])
  }

  /** An edge not met before gets the next index. */
  function Numbered(nv: nat, m: map<Edge, nat>, e: Edge): map<Edge, nat> {
    if e in m then m else m[e := nv + |m|]
  }

  /** One index per edge, and every index from `nv` on used. */
  ghost predicate Bijection(nv: nat, m: map<Edge, nat>) {
    && Injective(nv, m)
    && (forall x :: nv <= x < nv + |m| ==> Taken(m, x))
  }

  ghost predicate Injective(nv: nat, m: map<Edge, nat>) {
    && (forall e :: e in m ==> nv <= m[e] < nv + |m|)
    && (forall e, e' :: e in m && e' in m && m[e] == m[e'] ==> e == e')
  }

  ghost predicate Taken(m: map<Edge, nat>, x: nat) { exists e :: e in m && m[e] == x }

  lemma BijectionExtends(nv: nat, m: map<Edge, nat>, e: Edge)
    requires Bijection(nv, m) && e !in m
    ensures Bijection(nv, m[e := nv + |m|])
  {
    var m' := m[e := nv + |m|];
    assert m'.Keys == m.Keys + {e};
    assert |m'| == |m'.Keys| == |m| + 1;
    forall x | nv <= x < nv + |m'| ensures Taken(m', x) {
      if x == nv + |m| {
        assert m'[e] == x;
      } else {
        assert Taken(m, x);
        var y :| y in m && m[y] == x;
        assert m'[y] == x;
      }
    }
  }

  lemma {:induction false} NumberIsBijection(nv: nat, walk: seq<Edge>)
    ensures Bijection(nv, Number(nv, walk))
  {
    if walk != [] {
      var m := Number(nv, walk[..|walk| - 1]);
      NumberIsBijection(nv, walk[..|walk| - 1]);
      if walk[|walk| - 1] !in m {
        BijectionExtends(nv, m, walk[|walk| - 1]);
      }
    }
  }

  lemma {:induction false} NumberCoversWalk(nv: nat, walk: seq<Edge>)
    ensures forall e :: e in Number(nv, walk) <==> e in walk
  {
    if walk != [] {
      NumberCoversWalk(nv, walk[..|walk| - 1]);
      assert walk == walk[..|walk| - 1] + [walk[|walk| - 1]];
    }
  }

  lemma {:induction false} WalkCoversEdges(faces: seq<Face>)
    ensures forall e :: e in Walk(faces) <==> e in EdgeSet(faces)
  {
    if faces != [] {
      var n := |faces| - 1;
      WalkCoversEdges(faces[..n]);
      var w, f := Walk(faces[..n]), faces[n];
      forall e ensures e in Walk(faces) <==> e in EdgeSet(faces) {
        assert e in Walk(faces) <==> e in w || e in [f.Side(0), f.Side(1), f.Side(2)];
        if e in EdgeSet(faces[..n]) {
          var i, k :| 0 <= i < n && 0 <= k < 3 && faces[..n][i].Side(k) == e;
          assert faces[i].Side(k) == e;
        }
        if e in EdgeSet(faces) {
          var i, k :| 0 <= i < |faces| && 0 <= k < 3 && faces[i].Side(k) == e;
          if i < n { assert faces[..n][i].Side(k) == e; } else { assert k == 0 || k == 1 || k == 2; }
        }
      }
    }
  }

  lemma NumberGrows(nv: nat, walk: seq<Edge>, e: Edge)
    ensures Number(nv, walk + [e]) == Numbered(nv, Number(nv, walk), e)
  {
    assert (walk + [e])[..|walk|] == walk && (walk + [e])[|walk|] == e;
  }

  /** The midpoint indices of a whole mesh. */
  function Midpoints(nv: nat, faces: seq<Face>): map<Edge, nat> {
    Number(nv, Walk(faces))
  }

  lemma MidpointsBijection(nv: nat, faces: seq<Face>)
    ensures Midpoints(nv, faces).Keys == EdgeSet(faces)
    ensures |Midpoints(nv, faces)| == |EdgeSet(faces)|
    ensures Bijection(nv, Midpoints(nv, faces))
  {
    NumberIsBijection(nv, Walk(faces));
    NumberCoversWalk(nv, Walk(faces));
    WalkCoversEdges(faces);
    assert |Midpoints(nv, faces)| == |Midpoints(nv, faces).Keys|;
  }

  // ---------------------------------------------------------------- the subdivided mesh

  predicate Covers(m: map<Edge, nat>, f: Face) {
    f.Side(0) in m && f.Side(1) in m && f.Side(2) in m
  }

  /** Piece `q` of a face: three corner triangles, then the central one. */
  function Piece(f: Face, m: map<Edge, nat>, q: nat): Face
    requires q < 4 && Covers(m, f)
  {
    if q < 3 then Face(f.At(q), m[f.Side(q)], m[f.Side(Prev(q))])
    else Face(m[f.Side(0)], m[f.Side(1)], m[f.Side(2)])
  }

  function Split(faces: seq<Face>, m: map<Edge, nat>): (r: seq<Face>)
    requires forall i :: 0 <= i < |faces| ==> Covers(m, faces[i])
    ensures |r| == 4 * |faces|
  {
    if faces == [] then [] else
      var f := faces[|faces| - 1];
      Split(faces[..|faces| - 1], m) + [Piece(f, m, 0), Piece(f, m, 1), Piece(f, m, 2), Piece(f, m, 3)]
  }

  lemma {:induction false} SplitAt(faces: seq<Face>, m: map<Edge, nat>, i: nat, q: nat)
    requires forall j :: 0 <= j < |faces| ==> Covers(m, faces[j])
    requires i < |faces| && q < 4
    ensures Split(faces, m)[4 * i + q] == Piece(faces[i], m, q)
  {
    if i < |faces| - 1 {
      SplitAt(faces[..|faces| - 1], m, i, q);
    } else {
      assert q == 0 || q == 1 || q == 2 || q == 3;
    }
  }

  lemma CoveredByEdges(faces: seq<Face>, m: map<Edge, nat>)
    requires EdgeSet(faces) <= m.Keys
    ensures forall i :: 0 <= i < |faces| ==> Covers(m, faces[i])
  {
    forall i | 0 <= i < |faces| ensures Covers(m, faces[i]) {
      assert faces[i].Side(0) in EdgeSet(faces) && faces[i].Side(1) in EdgeSet(faces);
      assert faces[i].Side(2) in EdgeSet(faces);
    }
  }

  /** The faces after one round. */
  function Subdivided(nv: nat, faces: seq<Face>): seq<Face> {
    MidpointsBijection(nv, faces);
    CoveredByEdges(faces, Midpoints(nv, faces));
    Split(faces, Midpoints(nv, faces))
  }

  // ---------------------------------------------------------------- sides and corners

  lemma SidesOfFaceDiffer(f: Face, k: nat, l: nat)
    requires f.NonDegenerate() && k < 3 && l < 3 && f.Side(k) == f.Side(l)
    ensures k == l
  {}

  /** Two sides meeting in a corner determine the face's vertex set and that corner. */
  lemma SidesDetermineCorner(f: Face, g: Face, k: nat, l: nat)
    requires f.NonDegenerate() && g.NonDegenerate() && k < 3 && l < 3
    requires (f.Side(k) == g.Side(l) && f.Side(Prev(k)) == g.Side(Prev(l)))
          || (f.Side(k) == g.Side(Prev(l)) && f.Side(Prev(k)) == g.Side(l))
    ensures f.Corners() == g.Corners() && f.At(k) == g.At(l)
  {
    SameEnds(f.At(k), f.At(Next(k)), f.At(Prev(k)), g.At(l), g.At(Next(l)), g.At(Prev(l)));
    CornersFrom(f, k);
    CornersFrom(g, l);
  }

  lemma CornersFrom(f: Face, k: nat)
    requires k < 3
    ensures f.Corners() == {f.At(k), f.At(Next(k)), f.At(Prev(k))}
    ensures f.Side(Prev(k)) == Undirected(f.At(Prev(k)), f.At(k))
  {}

  /** Two edges sharing an end, found again as two edges sharing an end. */
  lemma SameEnds(a: nat, b: nat, c: nat, x: nat, y: nat, z: nat)
    requires a != b && b != c && c != a && x != y && y != z && z != x
    requires (Undirected(a, b) == Undirected(x, y) && Undirected(c, a) == Undirected(z, x))
          || (Undirected(a, b) == Undirected(z, x) && Undirected(c, a) == Undirected(x, y))
    ensures a == x && ((b == y && c == z) || (b == z && c == y))
  {}

  lemma SameSideSameStart(f: Face, g: Face, k: nat, l: nat)
    requires k < 3 && l < 3 && f.Side(k) == g.Side(l) && f.NonDegenerate() && g.NonDegenerate()
    ensures f.At(k) == g.At(l) ==> f.Arrow(k) == g.Arrow(l)
    ensures f.At(Next(k)) == g.At(Next(l)) ==> f.Arrow(k) == g.Arrow(l)
  {}

  // ---------------------------------------------------------------- orientation

  /** A one-to-one choice of midpoint indices, all past `nv`, for the edges of `faces`. */
  ghost predicate Numbers(nv: nat, faces: seq<Face>, m: map<Edge, nat>) {
    && Injective(nv, m)
    && (forall i :: 0 <= i < |faces| ==> Covers(m, faces[i]))
  }

  lemma MidpointsNumber(nv: nat, faces: seq<Face>)
    ensures Numbers(nv, faces, Midpoints(nv, faces))
    ensures |Midpoints(nv, faces)| == |EdgeSet(faces)|
    ensures |Subdivided(nv, faces)| == 4 * |faces|
  {
    MidpointsBijection(nv, faces);
    CoveredByEdges(faces, Midpoints(nv, faces));
  }

  /** What two faces need of the numbering: separate edges get separate indices, all of them new. */
  ghost predicate Tells(nv: nat, m: map<Edge, nat>, f: Face, g: Face) {
    && Covers(m, f) && Covers(m, g)
    && (forall k | 0 <= k < 3 :: nv <= m[f.Side(k)] && nv <= m[g.Side(k)])
    && (forall k, l | 0 <= k < 3 && 0 <= l < 3 :: m[f.Side(k)] == m[g.Side(l)] ==> f.Side(k) == g.Side(l))
  }

  lemma NumbersTell(nv: nat, faces: seq<Face>, m: map<Edge, nat>, i: nat, j: nat)
    requires Numbers(nv, faces, m) && i < |faces| && j < |faces|
    ensures Tells(nv, m, faces[i], faces[j]) && Tells(nv, m, faces[i], faces[i])
    ensures Below(nv + |m|, m, faces[i])
  {
    InjectiveTells(nv, m, faces[i], faces[j]);
    InjectiveTells(nv, m, faces[i], faces[i]);
  }

  ghost predicate Below(top: nat, m: map<Edge, nat>, f: Face) {
    Covers(m, f) && m[f.Side(0)] < top && m[f.Side(1)] < top && m[f.Side(2)] < top
  }

  lemma SameIndexSameEdge(nv: nat, m: map<Edge, nat>, e: Edge, e': Edge)
    requires Injective(nv, m) && e in m && e' in m
    ensures nv <= m[e] < nv + |m| && (m[e] == m[e'] ==> e == e')
  {}

  lemma InjectiveTells(nv: nat, m: map<Edge, nat>, f: Face, g: Face)
    requires Injective(nv, m) && Covers(m, f) && Covers(m, g)
    ensures Tells(nv, m, f, g) && Below(nv + |m|, m, f)
  {
    forall k, l | 0 <= k < 3 && 0 <= l < 3
      ensures nv <= m[f.Side(k)] < nv + |m| && nv <= m[g.Side(l)]
      ensures m[f.Side(k)] == m[g.Side(l)] ==> f.Side(k) == g.Side(l)
    {
      SameIndexSameEdge(nv, m, f.Side(k), g.Side(l));
      SameIndexSameEdge(nv, m, g.Side(l), f.Side(k));
    }
  }

  /** Splits a new index into the old face and the piece it is. */
  lemma PieceOf(faces: seq<Face>, m: map<Edge, nat>, n: nat) returns (i: nat, q: nat)
    requires (forall j :: 0 <= j < |faces| ==> Covers(m, faces[j])) && n < 4 * |faces|
    ensures i < |faces| && q < 4 && n == 4 * i + q && Split(faces, m)[n] == Piece(faces[i], m, q)
  {
    i, q := n / 4, n % 4;
    SplitAt(faces, m, i, q);
  }

  lemma SidesDetermineCorners(f: Face, g: Face)
    requires f.NonDegenerate() && g.NonDegenerate()
    requires {f.Side(0), f.Side(1), f.Side(2)} == {g.Side(0), g.Side(1), g.Side(2)}
    ensures f.Corners() == g.Corners()
  {
    assert f.Side(0) in {g.Side(0), g.Side(1), g.Side(2)};
    assert f.Side(1) in {g.Side(0), g.Side(1), g.Side(2)};
    assert f.Corners() <= g.Corners();
    assert g.Side(0) in {f.Side(0), f.Side(1), f.Side(2)};
    assert g.Side(1) in {f.Side(0), f.Side(1), f.Side(2)};
  }

  /** A triple with exactly one small element determines that element and the other two. */
  lemma SmallOneApart(n: nat, x: nat, y: nat, z: nat, x': nat, y': nat, z': nat)
    requires x < n && x' < n && n <= y && n <= z && n <= y' && n <= z'
    requires {x, y, z} == {x', y', z'}
    ensures x == x' && ((y == y' && z == z') || (y == z' && z == y') || (y == z && y' == z'))
  {
    assert x in {x', y', z'} && y in {x', y', z'} && z in {x', y', z'};
    assert y' in {x, y, z} && z' in {x, y, z};
  }

  lemma CornerPiecesDiffer(nv: nat, m: map<Edge, nat>, f: Face, q: nat, g: Face, r: nat)
    requires f.NonDegenerate() && g.NonDegenerate() && f.InRange(nv) && g.InRange(nv) && Tells(nv, m, f, g)
    requires q < 3 && r < 3 && Piece(f, m, q).Corners() == Piece(g, m, r).Corners()
    ensures f.Corners() == g.Corners() && f.At(q) == g.At(r)
  {
    SmallOneApart(nv, f.At(q), m[f.Side(q)], m[f.Side(Prev(q))], g.At(r), m[g.Side(r)], m[g.Side(Prev(r))]);
    if f.Side(q) == f.Side(Prev(q)) { SidesOfFaceDiffer(f, q, Prev(q)); }
    SidesDetermineCorner(f, g, q, r);
  }

  lemma CentresDiffer(nv: nat, m: map<Edge, nat>, f: Face, g: Face)
    requires f.NonDegenerate() && g.NonDegenerate() && Tells(nv, m, f, g)
    requires Piece(f, m, 3).Corners() == Piece(g, m, 3).Corners()
    ensures f.Corners() == g.Corners()
  {
    var p, p' := Piece(f, m, 3), Piece(g, m, 3);
    assert p.a in p'.Corners() && p.b in p'.Corners() && p.c in p'.Corners();
    assert p'.a in p.Corners() && p'.b in p.Corners() && p'.c in p.Corners();
    assert f.Side(0) in {g.Side(0), g.Side(1), g.Side(2)};
    assert f.Side(1) in {g.Side(0), g.Side(1), g.Side(2)};
    assert f.Side(2) in {g.Side(0), g.Side(1), g.Side(2)};
    assert {f.Side(0), f.Side(1), f.Side(2)} == {g.Side(0), g.Side(1), g.Side(2)};
    SidesDetermineCorners(f, g);
  }

  lemma PiecesDiffer(nv: nat, m: map<Edge, nat>, f: Face, q: nat, g: Face, r: nat)
    requires f.NonDegenerate() && g.NonDegenerate() && f.InRange(nv) && g.InRange(nv) && Tells(nv, m, f, g)
    requires q < 4 && r < 4 && Piece(f, m, q).Corners() == Piece(g, m, r).Corners()
    ensures f.Corners() == g.Corners() && (q < 3 <==> r < 3) && (q < 3 ==> f.At(q) == g.At(r))
  {
    if q < 3 && r < 3 {
      CornerPiecesDiffer(nv, m, f, q, g, r);
    } else if q == 3 && r == 3 {
      CentresDiffer(nv, m, f, g);
    } else if q < 3 {
      CornerIsNoCentre(nv, m, f, q, g);
    } else {
      CornerIsNoCentre(nv, m, g, r, f);
    }
  }

  lemma CornerIsNoCentre(nv: nat, m: map<Edge, nat>, f: Face, q: nat, g: Face)
    requires q < 3 && f.At(q) < nv && Covers(m, f) && Covers(m, g)
    requires nv <= m[g.Side(0)] && nv <= m[g.Side(1)] && nv <= m[g.Side(2)]
    ensures Piece(f, m, q).Corners() != Piece(g, m, 3).Corners()
  {
    assert f.At(q) in Piece(f, m, q).Corners();
    assert f.At(q) !in Piece(g, m, 3).Corners();
  }

  lemma SplitHasProperFaces(nv: nat, faces: seq<Face>, m: map<Edge, nat>, n: nat)
    requires Proper(nv, faces) && Numbers(nv, faces, m) && n < 4 * |faces|
    ensures Split(faces, m)[n].InRange(nv + |m|) && Split(faces, m)[n].NonDegenerate()
  {
    var i, q := PieceOf(faces, m, n);
    NumbersTell(nv, faces, m, i, i);
    PieceFits(nv, m, faces[i], q, nv + |m|);
  }

  lemma SplitHasDistinctFaces(nv: nat, faces: seq<Face>, m: map<Edge, nat>, n: nat, n': nat)
    requires Proper(nv, faces) && Numbers(nv, faces, m) && n < 4 * |faces| && n' < 4 * |faces|
    requires Split(faces, m)[n].Corners() == Split(faces, m)[n'].Corners()
    ensures n == n'
  {
    var i, q := PieceOf(faces, m, n);
    var j, q' := PieceOf(faces, m, n');
    NumbersTell(nv, faces, m, i, j);
    PiecesDiffer(nv, m, faces[i], q, faces[j], q');
    assert i == j;
  }

  lemma SplitIsProper(nv: nat, faces: seq<Face>, m: map<Edge, nat>)
    requires Proper(nv, faces) && Numbers(nv, faces, m)
    ensures Proper(nv + |m|, Split(faces, m))
  {
    var r := Split(faces, m);
    forall n | 0 <= n < |r| ensures r[n].InRange(nv + |m|) && r[n].NonDegenerate() {
      SplitHasProperFaces(nv, faces, m, n);
    }
    forall n, n' | 0 <= n < |r| && 0 <= n' < |r| && r[n].Corners() == r[n'].Corners() ensures n == n' {
      SplitHasDistinctFaces(nv, faces, m, n, n');
    }
  }

  lemma PieceFits(nv: nat, m: map<Edge, nat>, f: Face, q: nat, top: nat)
    requires f.NonDegenerate() && f.InRange(nv) && Tells(nv, m, f, f) && q < 4 && nv <= top
    requires Below(top, m, f)
    ensures Piece(f, m, q).InRange(top) && Piece(f, m, q).NonDegenerate()
  {
    assert f.Side(0) != f.Side(1) && f.Side(1) != f.Side(2) && f.Side(2) != f.Side(0);
  }

  /** Sides entering or leaving the old vertices. */
  lemma OuterArrowsDiffer(nv: nat, m: map<Edge, nat>, f: Face, q: nat, k: nat, g: Face, r: nat, l: nat)
    requires f.NonDegenerate() && g.NonDegenerate() && f.InRange(nv) && g.InRange(nv) && Tells(nv, m, f, g)
    requires forall s, t | 0 <= s < 3 && 0 <= t < 3 :: f.Arrow(s) == g.Arrow(t) ==> f == g && s == t
    requires q < 3 && r < 3 && (k == l == 0 || k == l == 2)
    requires Piece(f, m, q).Arrow(k) == Piece(g, m, r).Arrow(l)
    ensures f == g && q == r
  {
    if k == 0 {
      SameSideSameStart(f, g, q, r);
    } else {
      SameSideSameStart(f, g, Prev(q), Prev(r));
      assert Next(Prev(q)) == q && Next(Prev(r)) == r;
    }
  }

  /** Sides joining two midpoints. */
  lemma InnerArrowsDiffer(nv: nat, m: map<Edge, nat>, f: Face, q: nat, k: nat, g: Face, r: nat, l: nat)
    requires f.NonDegenerate() && g.NonDegenerate() && Tells(nv, m, f, g)
    requires f.Corners() == g.Corners() ==> f == g
    requires q < 4 && r < 4 && k < 3 && l < 3 && (q < 3 ==> k == 1) && (r < 3 ==> l == 1)
    requires Piece(f, m, q).Arrow(k) == Piece(g, m, r).Arrow(l)
    ensures f == g && q == r && k == l
  {
    var c := if q < 3 then q else Next(k);
    var d := if r < 3 then r else Next(l);
    SidesDetermineCorner(f, g, c, d);
    if q < 3 && r == 3 { SidesOfFaceDiffer(f, q, l); }
    if q == 3 && r < 3 { SidesOfFaceDiffer(f, k, r); }
  }

  lemma WhichArrow(nv: nat, m: map<Edge, nat>, f: Face, q: nat, k: nat)
    requires f.InRange(nv) && Tells(nv, m, f, f) && q < 4 && k < 3
    ensures var x := Piece(f, m, q).Arrow(k);
            && (x.0 < nv <==> q < 3 && k == 0)
            && (x.1 < nv <==> q < 3 && k == 2)
  {
    assert nv <= m[f.Side(0)] && nv <= m[f.Side(1)] && nv <= m[f.Side(2)];
  }

  lemma ArrowsDiffer(nv: nat, m: map<Edge, nat>, f: Face, q: nat, k: nat, g: Face, r: nat, l: nat)
    requires f.NonDegenerate() && g.NonDegenerate() && f.InRange(nv) && g.InRange(nv)
    requires Tells(nv, m, f, g) && Tells(nv, m, f, f) && Tells(nv, m, g, g)
    requires f.Corners() == g.Corners() ==> f == g
    requires forall s, t | 0 <= s < 3 && 0 <= t < 3 :: f.Arrow(s) == g.Arrow(t) ==> f == g && s == t
    requires q < 4 && r < 4 && k < 3 && l < 3
    requires Piece(f, m, q).Arrow(k) == Piece(g, m, r).Arrow(l)
    ensures f == g && q == r && k == l
  {
    WhichArrow(nv, m, f, q, k);
    WhichArrow(nv, m, g, r, l);
    if q < 3 && k != 1 {
      OuterArrowsDiffer(nv, m, f, q, k, g, r, l);
    } else {
      InnerArrowsDiffer(nv, m, f, q, k, g, r, l);
    }
  }

  /** Where the reverse of a new directed side is: inside the same old face, or across the old side. */
  lemma PieceReversed(m: map<Edge, nat>, f: Face, q: nat, k: nat, g: Face, l: nat)
      returns (across: bool, p: nat, h: nat)
    requires f.NonDegenerate() && g.NonDegenerate() && Covers(m, f) && Covers(m, g) && q < 4 && k < 3 && l < 3
    requires var side := if q < 3 && k == 0 then q else if q < 3 && k == 2 then Prev(q) else 0;
             g.Arrow(l) == (f.Arrow(side).1, f.Arrow(side).0)
    ensures p < 4 && h < 3
    ensures Piece(if across then g else f, m, p).Arrow(h) ==
            (Piece(f, m, q).Arrow(k).1, Piece(f, m, q).Arrow(k).0)
  {
    across := q < 3 && k != 1;
    p := if q == 3 then Next(k) else if k == 1 then 3 else if k == 0 then Next(l) else l;
    h := if q == 3 then 1 else if k == 1 then Prev(q) else if k == 0 then 2 else 0;
  }

  lemma SplitHasReverses(faces: seq<Face>, m: map<Edge, nat>, n: nat, k: nat)
    requires forall j :: 0 <= j < |faces| ==> Covers(m, faces[j]) && faces[j].NonDegenerate()
    requires Oriented(faces) && n < 4 * |faces| && k < 3
    ensures HasReverse(Split(faces, m), Split(faces, m)[n].Arrow(k))
  {
    var i, q := PieceOf(faces, m, n);
    var side := if q < 3 && k == 0 then q else if q < 3 && k == 2 then Prev(q) else 0;
    assert HasReverse(faces, faces[i].Arrow(side));
    var j, l :| 0 <= j < |faces| && 0 <= l < 3 &&
                faces[j].Arrow(l) == (faces[i].Arrow(side).1, faces[i].Arrow(side).0);
    var across, p, h := PieceReversed(m, faces[i], q, k, faces[j], l);
    var target := 4 * (if across then j else i) + p;
    SplitAt(faces, m, if across then j else i, p);
    assert Split(faces, m)[target].Arrow(h) == (Split(faces, m)[n].Arrow(k).1, Split(faces, m)[n].Arrow(k).0);
  }

  lemma SplitHasUniqueArrows(nv: nat, faces: seq<Face>, m: map<Edge, nat>, n: nat, k: nat, n': nat, l: nat)
    requires Proper(nv, faces) && Numbers(nv, faces, m) && Oriented(faces)
    requires n < 4 * |faces| && n' < 4 * |faces| && k < 3 && l < 3
    requires Split(faces, m)[n].Arrow(k) == Split(faces, m)[n'].Arrow(l)
    ensures n == n' && k == l
  {
    var i, q := PieceOf(faces, m, n);
    var j, q' := PieceOf(faces, m, n');
    NumbersTell(nv, faces, m, i, j);
    NumbersTell(nv, faces, m, j, i);
    ArrowsDiffer(nv, m, faces[i], q, k, faces[j], q', l);
  }

  lemma SplitIsOriented(nv: nat, faces: seq<Face>, m: map<Edge, nat>)
    requires Proper(nv, faces) && Numbers(nv, faces, m) && Oriented(faces)
    ensures Oriented(Split(faces, m))
  {
    var r := Split(faces, m);
    forall n, k, n', l | 0 <= n < |r| && 0 <= n' < |r| && 0 <= k < 3 && 0 <= l < 3
      ensures r[n].Arrow(k) == r[n'].Arrow(l) ==> n == n' && k == l
    {
      if r[n].Arrow(k) == r[n'].Arrow(l) { SplitHasUniqueArrows(nv, faces, m, n, k, n', l); }
    }
    forall n, k | 0 <= n < |r| && 0 <= k < 3 ensures HasReverse(r, r[n].Arrow(k)) {
      SplitHasReverses(faces, m, n, k);
    }
  }

  // ---------------------------------------------------------------- counting edges

  lemma EdgeHasFace(faces: seq<Face>, e: Edge) returns (i: nat, k: nat)
    requires e in EdgeSet(faces)
    ensures i < |faces| && k < 3 && faces[i].Side(k) == e
  {
    var i', k' :| 0 <= i' < |faces| && 0 <= k' < 3 && faces[i'].Side(k') == e;
    i, k := i', k';
  }

  lemma SideIsEdge(faces: seq<Face>, i: nat, k: nat)
    requires i < |faces| && k < 3
    ensures faces[i].Side(k) in EdgeSet(faces)
  {}

  /** The two halves of an old edge, from its smaller and from its larger end. */
  function LowHalf(m: map<Edge, nat>, e: Edge): Edge
    requires e in m
  {
    Edge(e.lo, m[e])
  }

  function HighHalf(m: map<Edge, nat>, e: Edge): Edge
    requires e in m
  {
    Edge(e.hi, m[e])
  }

  /** The new edge that cuts off corner `k`. */
  function Cut(m: map<Edge, nat>, f: Face, k: nat): Edge
    requires Covers(m, f) && k < 3
  {
    Undirected(m[f.Side(k)], m[f.Side(Prev(k))])
  }

  lemma PieceSides(nv: nat, m: map<Edge, nat>, f: Face, q: nat, k: nat)
    requires f.NonDegenerate() && f.InRange(nv) && Tells(nv, m, f, f) && q < 4 && k < 3
    ensures var x := Piece(f, m, q).Side(k);
            if q == 3 then x == Cut(m, f, Next(k))
            else if k == 1 then x == Cut(m, f, q)
            else if k == 0 then x == (if f.At(q) < f.At(Next(q)) then LowHalf(m, f.Side(q)) else HighHalf(m, f.Side(q)))
            else x == (if f.At(q) < f.At(Prev(q)) then LowHalf(m, f.Side(Prev(q))) else HighHalf(m, f.Side(Prev(q))))
  {
    assert nv <= m[f.Side(0)] && nv <= m[f.Side(1)] && nv <= m[f.Side(2)];
  }

  ghost predicate IsLow(m: map<Edge, nat>, x: Edge) { exists e :: e in m && LowHalf(m, e) == x }
  ghost predicate IsHigh(m: map<Edge, nat>, x: Edge) { exists e :: e in m && HighHalf(m, e) == x }
  ghost predicate IsCut(faces: seq<Face>, m: map<Edge, nat>, x: Edge)
    requires forall j :: 0 <= j < |faces| ==> Covers(m, faces[j])
  {
    exists i, k :: 0 <= i < |faces| && 0 <= k < 3 && Cut(m, faces[i], k) == x
  }

  lemma NewEdgeKinds(nv: nat, faces: seq<Face>, m: map<Edge, nat>, x: Edge)
    requires Proper(nv, faces) && Numbers(nv, faces, m) && x in EdgeSet(Split(faces, m))
    ensures IsLow(m, x) || IsHigh(m, x) || IsCut(faces, m, x)
  {
    var n, k := EdgeHasFace(Split(faces, m), x);
    var i, q := PieceOf(faces, m, n);
    var f := faces[i];
    NumbersTell(nv, faces, m, i, i);
    PieceSides(nv, m, f, q, k);
    var e := if k == 0 && q < 3 then f.Side(q) else if q < 3 then f.Side(Prev(q)) else f.Side(0);
    assert e in m;
  }

  lemma CutIsNewEdge(nv: nat, faces: seq<Face>, m: map<Edge, nat>, i: nat, k: nat)
    requires Proper(nv, faces) && Numbers(nv, faces, m) && i < |faces| && k < 3
    ensures Cut(m, faces[i], k) in EdgeSet(Split(faces, m))
  {
    NumbersTell(nv, faces, m, i, i);
    PieceSides(nv, m, faces[i], k, 1);
    SplitAt(faces, m, i, k);
    SideIsEdge(Split(faces, m), 4 * i + k, 1);
  }

  lemma HalvesAreNewEdges(nv: nat, faces: seq<Face>, m: map<Edge, nat>, i: nat, k: nat)
    requires Proper(nv, faces) && Numbers(nv, faces, m) && i < |faces| && k < 3
    ensures faces[i].Side(k) in m
    ensures LowHalf(m, faces[i].Side(k)) in EdgeSet(Split(faces, m))
    ensures HighHalf(m, faces[i].Side(k)) in EdgeSet(Split(faces, m))
  {
    NumbersTell(nv, faces, m, i, i);
    PieceSides(nv, m, faces[i], k, 0);
    PieceSides(nv, m, faces[i], Next(k), 2);
    SplitAt(faces, m, i, k);
    SplitAt(faces, m, i, Next(k));
    SideIsEdge(Split(faces, m), 4 * i + k, 0);
    SideIsEdge(Split(faces, m), 4 * i + Next(k), 2);
  }

  function Lows(m: map<Edge, nat>): set<Edge> { set e | e in m :: LowHalf(m, e) }
  function Highs(m: map<Edge, nat>): set<Edge> { set e | e in m :: HighHalf(m, e) }
  function Cuts(faces: seq<Face>, m: map<Edge, nat>): set<Edge>
    requires forall j :: 0 <= j < |faces| ==> Covers(m, faces[j])
  {
    set i, k | 0 <= i < |faces| && 0 <= k < 3 :: Cut(m, faces[i], k)
  }

  lemma HalvesSize(nv: nat, m: map<Edge, nat>)
    requires Injective(nv, m)
    ensures |Lows(m)| == |m| && |Highs(m)| == |m|
  {
    SetCounting.ImageSize(m.Keys, (e: Edge) requires e in m => LowHalf(m, e), Lows(m));
    SetCounting.ImageSize(m.Keys, (e: Edge) requires e in m => HighHalf(m, e), Highs(m));
    assert |m.Keys| == |m|;
  }

  lemma CutsDiffer(nv: nat, faces: seq<Face>, m: map<Edge, nat>, i: nat, k: nat, j: nat, l: nat)
    requires Proper(nv, faces) && Numbers(nv, faces, m)
    requires i < |faces| && j < |faces| && k < 3 && l < 3 && Cut(m, faces[i], k) == Cut(m, faces[j], l)
    ensures i == j && k == l
  {
    var f, g := faces[i], faces[j];
    NumbersTell(nv, faces, m, i, j);
    assert (m[f.Side(k)] == m[g.Side(l)] && m[f.Side(Prev(k))] == m[g.Side(Prev(l))])
        || (m[f.Side(k)] == m[g.Side(Prev(l))] && m[f.Side(Prev(k))] == m[g.Side(l)]);
    SidesDetermineCorner(f, g, k, l);
    assert i == j;
  }

  lemma CutsSize(nv: nat, faces: seq<Face>, m: map<Edge, nat>)
    requires Proper(nv, faces) && Numbers(nv, faces, m)
    ensures |Cuts(faces, m)| == 3 * |faces|
  {
    var cut := (p: (nat, nat)) requires p in SetCounting.Corners(|faces|) => Cut(m, faces[p.0], p.1);
    forall p, p' | p in SetCounting.Corners(|faces|) && p' in SetCounting.Corners(|faces|) && cut(p) == cut(p')
      ensures p == p'
    {
      CutsDiffer(nv, faces, m, p.0, p.1, p'.0, p'.1);
    }
    forall x | x in Cuts(faces, m) ensures exists p :: p in SetCounting.Corners(|faces|) && cut(p) == x {
      var i, k :| 0 <= i < |faces| && 0 <= k < 3 && Cut(m, faces[i], k) == x;
      var p: (nat, nat) := (i, k);
      assert p in SetCounting.Corners(|faces|) && cut(p) == x;
    }
    SetCounting.ImageSize(SetCounting.Corners(|faces|), cut, Cuts(faces, m));
    SetCounting.CornersSize(|faces|);
  }

  /** Every numbered edge is some side of some face. */
  lemma KeyHasFace(nv: nat, faces: seq<Face>, e: Edge) returns (i: nat, k: nat)
    requires e in Midpoints(nv, faces)
    ensures i < |faces| && k < 3 && faces[i].Side(k) == e
  {
    MidpointsBijection(nv, faces);
    assert e in EdgeSet(faces);
    i, k := EdgeHasFace(faces, e);
  }

  lemma KeyFits(nv: nat, faces: seq<Face>, e: Edge)
    requires Proper(nv, faces) && e in Midpoints(nv, faces)
    ensures e.lo < e.hi < nv
  {
    var i, k := KeyHasFace(nv, faces, e);
    assert faces[i].NonDegenerate() && faces[i].InRange(nv);
  }

  lemma KeyHalves(nv: nat, faces: seq<Face>, m: map<Edge, nat>, e: Edge)
    requires Proper(nv, faces) && m == Midpoints(nv, faces) && Numbers(nv, faces, m) && e in m
    ensures LowHalf(m, e) in EdgeSet(Split(faces, m)) && HighHalf(m, e) in EdgeSet(Split(faces, m))
  {
    var i, k := KeyHasFace(nv, faces, e);
    HalvesAreNewEdges(nv, faces, m, i, k);
  }

  lemma NewEdges(nv: nat, faces: seq<Face>, m: map<Edge, nat>)
    requires Proper(nv, faces) && m == Midpoints(nv, faces) && Numbers(nv, faces, m)
    ensures EdgeSet(Split(faces, m)) == Lows(m) + Highs(m) + Cuts(faces, m)
  {
    var all := EdgeSet(Split(faces, m));
    forall x | x in all ensures x in Lows(m) + Highs(m) + Cuts(faces, m) {
      NewEdgeKinds(nv, faces, m, x);
    }
    forall x | x in Lows(m) + Highs(m) + Cuts(faces, m) ensures x in all {
      if x in Lows(m) {
        var e :| e in m && LowHalf(m, e) == x;
        KeyHalves(nv, faces, m, e);
      } else if x in Highs(m) {
        var e :| e in m && HighHalf(m, e) == x;
        KeyHalves(nv, faces, m, e);
      } else {
        var i, k :| 0 <= i < |faces| && 0 <= k < 3 && Cut(m, faces[i], k) == x;
        CutIsNewEdge(nv, faces, m, i, k);
      }
    }
  }

  lemma LowsBelow(nv: nat, faces: seq<Face>, x: Edge)
    requires Proper(nv, faces) && Numbers(nv, faces, Midpoints(nv, faces))
    requires x in Lows(Midpoints(nv, faces)) || x in Highs(Midpoints(nv, faces))
    ensures x.lo < nv
    ensures x in Lows(Midpoints(nv, faces)) <==> x !in Highs(Midpoints(nv, faces))
  {
    var m := Midpoints(nv, faces);
    forall e | e in m ensures e.lo < e.hi < nv { KeyFits(nv, faces, e); }
  }

  lemma CutsAbove(nv: nat, faces: seq<Face>, m: map<Edge, nat>, x: Edge)
    requires Numbers(nv, faces, m) && x in Cuts(faces, m)
    ensures nv <= x.lo
  {
    var i, k :| 0 <= i < |faces| && 0 <= k < 3 && Cut(m, faces[i], k) == x;
    NumbersTell(nv, faces, m, i, i);
  }

  lemma EdgeCount(nv: nat, faces: seq<Face>)
    requires Proper(nv, faces)
    ensures |EdgeSet(Subdivided(nv, faces))| == 2 * |EdgeSet(faces)| + 3 * |faces|
  {
    MidpointsNumber(nv, faces);
    var m := Midpoints(nv, faces);
    NewEdges(nv, faces, m);
    HalvesSize(nv, m);
    CutsSize(nv, faces, m);
    forall x | x in Lows(m) || x in Highs(m)
      ensures (x in Lows(m) <==> x !in Highs(m)) && x !in Cuts(faces, m)
    {
      LowsBelow(nv, faces, x);
      if x in Cuts(faces, m) { CutsAbove(nv, faces, m, x); }
    }
    assert Lows(m) !! Highs(m) && (Lows(m) + Highs(m)) !! Cuts(faces, m);
  }

  // ---------------------------------------------------------------- the theorems

  /** One round: 4F faces, V+E vertices, 2E+3F edges, and the result is fit for another round. */
  lemma SubdivisionCounts(nv: nat, faces: seq<Face>)
    requires Proper(nv, faces)
    ensures var e := |EdgeSet(faces)|;
            && |Subdivided(nv, faces)| == 4 * |faces|
            && |EdgeSet(Subdivided(nv, faces))| == 2 * e + 3 * |faces|
            && Proper(nv + e, Subdivided(nv, faces))
  {
    MidpointsNumber(nv, faces);
    SplitIsProper(nv, faces, Midpoints(nv, faces));
    EdgeCount(nv, faces);
  }

  lemma SubdivisionKeepsOrientation(nv: nat, faces: seq<Face>)
    requires Proper(nv, faces) && Oriented(faces)
    ensures Oriented(Subdivided(nv, faces))
  {
    MidpointsNumber(nv, faces);
    SplitIsOriented(nv, faces, Midpoints(nv, faces));
  }

  /** `n` rounds, from `nv` vertices. */
  function Rounds(n: nat, nv: nat, faces: seq<Face>): (nat, seq<Face>) {
    if n == 0 then (nv, faces)
    else Rounds(n - 1, nv + |EdgeSet(faces)|, Subdivided(nv, faces))
  }

  function Euler(nv: nat, faces: seq<Face>): int { nv - |EdgeSet(faces)| + |faces| }

  function Pow4(n: nat): nat { if n == 0 then 1 else 4 * Pow4(n - 1) }

  lemma {:induction false} RoundsStayProper(n: nat, nv: nat, faces: seq<Face>)
    requires Proper(nv, faces)
    ensures Proper(Rounds(n, nv, faces).0, Rounds(n, nv, faces).1)
  {
    if n > 0 {
      SubdivisionCounts(nv, faces);
      RoundsStayProper(n - 1, nv + |EdgeSet(faces)|, Subdivided(nv, faces));
    }
  }

  lemma FourTimes(p: nat, f: nat)
    ensures p * (4 * f) == 4 * p * f
  {}

  /** Any number of rounds multiplies the faces by four each time and never changes V - E + F. */
  lemma {:induction false} RoundsKeepEuler(n: nat, nv: nat, faces: seq<Face>)
    requires Proper(nv, faces)
    ensures |Rounds(n, nv, faces).1| == Pow4(n) * |faces|
    ensures Euler(Rounds(n, nv, faces).0, Rounds(n, nv, faces).1) == Euler(nv, faces)
  {
    if n > 0 {
      SubdivisionCounts(nv, faces);
      RoundsKeepEuler(n - 1, nv + |EdgeSet(faces)|, Subdivided(nv, faces));
      FourTimes(Pow4(n - 1), |faces|);
    }
  }

  lemma {:induction false} RoundsKeepOrientation(n: nat, nv: nat, faces: seq<Face>)
    requires Proper(nv, faces) && Oriented(faces)
    ensures Oriented(Rounds(n, nv, faces).1)
  {
    if n > 0 {
      SubdivisionCounts(nv, faces);
      SubdivisionKeepsOrientation(nv, faces);
      RoundsKeepOrientation(n - 1, nv + |EdgeSet(faces)|, Subdivided(nv, faces));
    }
  }

  // ---------------------------------------------------------------- closed meshes

  lemma ReverseHasSameSide(faces: seq<Face>, i: nat, k: nat) returns (j: nat, l: nat)
    requires Oriented(faces) && i < |faces| && k < 3
    ensures j < |faces| && l < 3 && faces[j].Arrow(l) == (faces[i].Arrow(k).1, faces[i].Arrow(k).0)
  {
    assert HasReverse(faces, faces[i].Arrow(k));
    var j', l' :| 0 <= j' < |faces| && 0 <= l' < 3 && faces[j'].Arrow(l') == (faces[i].Arrow(k).1, faces[i].Arrow(k).0);
    j, l := j', l';
  }

  /** The corners whose outgoing side runs up (or down) the indices. */
  function Running(faces: seq<Face>, up: bool): set<(nat, nat)> {
    set p | p in SetCounting.Corners(|faces|) && (faces[p.0].At(p.1) < faces[p.0].At(Next(p.1)) <==> up)
  }

  lemma RunningMeetsEdge(faces: seq<Face>, up: bool, e: Edge) returns (p: (nat, nat))
    requires Oriented(faces) && e in EdgeSet(faces)
    requires forall i :: 0 <= i < |faces| ==> faces[i].NonDegenerate()
    ensures p in Running(faces, up) && faces[p.0].Side(p.1) == e
  {
    var i, k := EdgeHasFace(faces, e);
    p := (i, k);
    if !(faces[i].At(k) < faces[i].At(Next(k)) <==> up) {
      var j, l := ReverseHasSameSide(faces, i, k);
      p := (j, l);
    }
    assert p in SetCounting.Corners(|faces|);
  }

  lemma RunningSize(nv: nat, faces: seq<Face>, up: bool)
    requires Proper(nv, faces) && Oriented(faces)
    ensures |Running(faces, up)| == |EdgeSet(faces)|
  {
    var side := (p: (nat, nat)) requires p in SetCounting.Corners(|faces|) => faces[p.0].Side(p.1);
    forall p, q | p in Running(faces, up) && q in Running(faces, up) && side(p) == side(q) ensures p == q {
      assert faces[p.0].Arrow(p.1) == faces[q.0].Arrow(q.1);
    }
    forall e | e in EdgeSet(faces) ensures exists p :: p in Running(faces, up) && side(p) == e {
      var p := RunningMeetsEdge(faces, up, e);
      assert side(p) == e;
    }
    SetCounting.ImageSize(Running(faces, up), side, EdgeSet(faces));
  }

  /** In a closed mesh each edge is shared by exactly two faces. */
  lemma ClosedMeshEdges(nv: nat, faces: seq<Face>)
    requires Proper(nv, faces) && Oriented(faces)
    ensures 2 * |EdgeSet(faces)| == 3 * |faces|
  {
    RunningSize(nv, faces, true);
    RunningSize(nv, faces, false);
    SetCounting.CornersSize(|faces|);
    assert Running(faces, true) + Running(faces, false) == SetCounting.Corners(|faces|);
    assert Running(faces, true) !! Running(faces, false);
  }
}
