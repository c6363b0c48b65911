/** The scene's base mesh, and the sizes it reaches. The table of twenty faces is checked literally: every
    directed edge has its reverse in exactly one other face, which is what the results of `Mesh` start from; the
    counts after one round and the Euler number after any follow. */
module Icosahedron {
  import opened Mesh

  const FACES: seq<Face> := [
    Face(0, 11, 5), Face(0, 5, 1), Face(0, 1, 7), Face(0, 7, 10), Face(0, 10, 11),
    Face(1, 5, 9), Face(5, 11, 4), Face(11, 10, 2), Face(10, 7, 6), Face(7, 1, 8),
    Face(3, 9, 4), Face(3, 4, 2), Face(3, 2, 6), Face(3, 6, 8), Face(3, 8, 9),
    Face(4, 9, 5), Face(2, 4, 11), Face(6, 2, 10), Face(8, 6, 7), Face(9, 8, 1)
  ]

  /** 3 * face + corner of the face that walks from the row's vertex to the column's; 60 for none. */
  const SLOT: seq<seq<nat>> := [
    [60, 6, 60, 60, 60, 3, 60, 9, 60, 60, 12, 0],
    [5, 60, 60, 60, 60, 15, 60, 7, 28, 59, 60, 60],
    [60, 60, 60, 35, 48, 60, 37, 60, 60, 60, 52, 23],
    [60, 60, 36, 60, 33, 60, 39, 60, 42, 30, 60, 60],
    [60, 60, 34, 32, 60, 20, 60, 60, 60, 45, 60, 49],
    [2, 4, 60, 60, 47, 60, 60, 60, 60, 16, 60, 18],
    [60, 60, 51, 38, 60, 60, 60, 55, 40, 60, 26, 60],
    [8, 27, 60, 60, 60, 60, 25, 60, 56, 60, 10, 60],
    [60, 58, 60, 41, 60, 60, 54, 29, 60, 43, 60, 60],
    [60, 17, 60, 44, 31, 46, 60, 60, 57, 60, 60, 60],
    [11, 60, 22, 60, 60, 60, 53, 24, 60, 60, 60, 13],
    [14, 60, 50, 60, 19, 1, 60, 60, 60, 60, 21, 60]
  ]

  lemma ArrowSlot(i: nat, k: nat)
    requires i < 20 && k < 3
    ensures FACES[i].InRange(12) && FACES[i].NonDegenerate()
    ensures |SLOT[FACES[i].At(k)]| == 12 && SLOT[FACES[i].At(k)][FACES[i].At(Next(k))] == 3 * i + k
  {
    assert i == 0 || i == 1 || i == 2 || i == 3 || i == 4 || i == 5 || i == 6 || i == 7 || i == 8 || i == 9
        || i == 10 || i == 11 || i == 12 || i == 13 || i == 14 || i == 15 || i == 16 || i == 17 || i == 18 || i == 19;
    assert k == 0 || k == 1 || k == 2;
  }

  /** The table entry for the reverse of a side. */
  function Opposite(i: nat, k: nat): nat
    requires i < 20 && k < 3
  {
    ArrowSlot(i, k);
    var f := FACES[i];
    SLOT[f.At(Next(k))][f.At(k)]
  }

  lemma OppositeFace(i: nat)
    requires i < 20
    ensures forall k | 0 <= k < 3 :: Opposite(i, k) < 60
  {
    assert i == 0 || i == 1 || i == 2 || i == 3 || i == 4 || i == 5 || i == 6 || i == 7 || i == 8 || i == 9
        || i == 10 || i == 11 || i == 12 || i == 13 || i == 14 || i == 15 || i == 16 || i == 17 || i == 18 || i == 19;
  }

  /** The face on the other side of each side, and its apex. */
  lemma AcrossSlot(i: nat, k: nat) returns (j: nat, l: nat)
    requires i < 20 && k < 3
    ensures j < 20 && l < 3
    ensures FACES[j].Arrow(l) == (FACES[i].Arrow(k).1, FACES[i].Arrow(k).0)
    ensures FACES[j].At(Prev(l)) != FACES[i].At(Prev(k))
  {
    OppositeFace(i);
    j, l := Opposite(i, k) / 3, Opposite(i, k) % 3;
    if k == 0 { Across(i, 0); } else if k == 1 { Across(i, 1); } else { Across(i, 2); }
  }

  lemma Across(i: nat, k: nat)
    requires i < 20 && k < 3 && Opposite(i, k) < 60
    ensures var j, l := Opposite(i, k) / 3, Opposite(i, k) % 3;
            && FACES[j].Arrow(l) == (FACES[i].Arrow(k).1, FACES[i].Arrow(k).0)
            && FACES[j].At(Prev(l)) != FACES[i].At(Prev(k))
  {
    assert i == 0 || i == 1 || i == 2 || i == 3 || i == 4 || i == 5 || i == 6 || i == 7 || i == 8 || i == 9
        || i == 10 || i == 11 || i == 12 || i == 13 || i == 14 || i == 15 || i == 16 || i == 17 || i == 18 || i == 19;
    assert k == 0 || k == 1 || k == 2;
  }

  lemma ArrowsAreUnique(i: nat, k: nat, j: nat, l: nat)
    requires i < 20 && j < 20 && k < 3 && l < 3 && FACES[i].Arrow(k) == FACES[j].Arrow(l)
    ensures i == j && k == l
  {
    ArrowSlot(i, k);
    ArrowSlot(j, l);
  }

  /** Faces on the same three vertices walk some side alike, or the first side of one backwards. */
  lemma SameCorners(f: Face, g: Face) returns (l: nat, backwards: bool)
    requires f.NonDegenerate() && g.NonDegenerate() && f.Corners() == g.Corners()
    ensures l < 3 && g.Arrow(l) == (if backwards then (f.Arrow(0).1, f.Arrow(0).0) else f.Arrow(0))
    ensures g.At(Prev(l)) == f.c
  {
    assert f.a in g.Corners() && f.b in g.Corners() && f.c in g.Corners();
    l := if g.c == f.c then 0 else if g.a == f.c then 1 else 2;
    backwards := g.At(l) == f.b;
  }

  lemma FacesAreDistinct(i: nat, j: nat)
    requires i < 20 && j < 20 && FACES[i].Corners() == FACES[j].Corners()
    ensures i == j
  {
    ArrowSlot(i, 0);
    ArrowSlot(j, 0);
    var l, backwards := SameCorners(FACES[i], FACES[j]);
    if backwards {
      var j', l' := AcrossSlot(i, 0);
      ArrowsAreUnique(j', l', j, l);
      assert false;
    } else {
      ArrowsAreUnique(i, 0, j, l);
    }
  }

  lemma IcosahedronIsClosed()
    ensures Proper(12, FACES) && Oriented(FACES) && |EdgeSet(FACES)| == 30
  {
    forall i | 0 <= i < 20 ensures FACES[i].InRange(12) && FACES[i].NonDegenerate() { ArrowSlot(i, 0); }
    forall i, j | 0 <= i < 20 && 0 <= j < 20 && FACES[i].Corners() == FACES[j].Corners() ensures i == j {
      FacesAreDistinct(i, j);
    }
    forall i, k, j, l | 0 <= i < 20 && 0 <= j < 20 && 0 <= k < 3 && 0 <= l < 3
      ensures FACES[i].Arrow(k) == FACES[j].Arrow(l) ==> i == j && k == l
    {
      if FACES[i].Arrow(k) == FACES[j].Arrow(l) { ArrowsAreUnique(i, k, j, l); }
    }
    forall i, k | 0 <= i < 20 && 0 <= k < 3 ensures HasReverse(FACES, FACES[i].Arrow(k)) {
      var j, l := AcrossSlot(i, k);
    }
    ClosedMeshEdges(12, FACES);
  }

  /** 12 vertices, 20 faces and 30 edges become 42, 80 and 120; V - E + F is 2 after any number of rounds. */
  lemma GeodesicSphere(n: nat)
    ensures Rounds(1, 12, FACES) == (42, Subdivided(12, FACES))
    ensures |Subdivided(12, FACES)| == 80 && |EdgeSet(Subdivided(12, FACES))| == 120
    ensures Euler(Rounds(n, 12, FACES).0, Rounds(n, 12, FACES).1) == 2
    ensures Oriented(Rounds(n, 12, FACES).1)
  {
    IcosahedronIsClosed();
    SubdivisionCounts(12, FACES);
    RoundsKeepEuler(n, 12, FACES);
    RoundsKeepOrientation(n, 12, FACES);
  }
}
