/** Cardinalities of images and products. */
module SetCounting {

  /** `img` is exactly what `f` makes of `s`. */
  ghost predicate Image<T(!new), U(!new)>(s: set<T>, f: T --> U, img: set<U>)
    requires forall x :: x in s ==> f.requires(x)
  {
    && (forall x :: x in s ==> f(x) in img)
    && (forall u :: u in img ==> exists x :: x in s && f(x) == u)
  }

  lemma {:induction false} ImageSize<T(!new), U(!new)>(s: set<T>, f: T --> U, img: set<U>)
    requires forall x :: x in s ==> f.requires(x)
    requires forall x, y :: x in s && y in s && f(x) == f(y) ==> x == y
    requires Image(s, f, img)
    ensures |img| == |s|
  {
    if s == {} {
      assert img == {};
    } else {
      var x :| x in s;
      forall u | u in img - {f(x)} ensures exists y :: y in s - {x} && f(y) == u {
        var y :| y in s && f(y) == u;
        assert y in s - {x};
      }
      ImageSize(s - {x}, f, img - {f(x)});
    }
  }

  function Corners(n: nat): set<(nat, nat)> {
    set i: nat, k: nat | 0 <= i < n && 0 <= k < 3 :: (i, k)
  }

  lemma {:induction false} CornersSize(n: nat)
    ensures |Corners(n)| == 3 * n
  {
    if n > 0 {
      CornersSize(n - 1);
      var last: set<(nat, nat)> := {(n - 1, 0), (n - 1, 1), (n - 1, 2)};
      assert Corners(n) == Corners(n - 1) + last;
      assert |last| == 3;
    }
  }
}
