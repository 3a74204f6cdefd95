/** The `vector` package's float32 dot product (vector/floats_other.go), over reals. */
module Vector {

  /** Sum over i < |x| of x[i] * y[i]; the entries of y past |x| are never read. */
  function DotSum(x: seq<real>, y: seq<real>): real
    requires |x| <= |y|
  {
    if |x| == 0 then 0.0 else DotSum(x[..|x| - 1], y) + x[|x| - 1] * y[|x| - 1]
  }

  /** The accumulation loop of `dot`: z starts at zero and adds x[i] * y[i]
      for every index of x, so y must be at least as long as x. */
  method Dot(x: seq<real>, y: seq<real>) returns (z: real)
    requires |x| <= |y|
    ensures z == DotSum(x, y)
    ensures |x| == 0 ==> z == 0.0
  {
    z := 0.0;
    for i := 0 to |x|
      invariant z == DotSum(x[..i], y)
    {
      assert x[..i + 1][..i] == x[..i];
      z := z + x[i] * y[i];
    }
    assert x[..|x|] == x;
  }

  /** Entries of y beyond |x| do not matter. */
  lemma {:induction false} DotIgnoresTail(x: seq<real>, y: seq<real>, y': seq<real>)
    requires |x| <= |y| && |x| <= |y'|
    requires y[..|x|] == y'[..|x|]
    ensures DotSum(x, y) == DotSum(x, y')
  {
    if |x| > 0 {
      var k := |x| - 1;
      assert y[k] == y[..|x|][k] == y'[..|x|][k] == y'[k];
      assert y[..k] == y[..|x|][..k];
      assert y'[..k] == y'[..|x|][..k];
      DotIgnoresTail(x[..k], y, y');
    }
  }

  /** When y is zero from index k on, only the first k entries of x contribute. */
  lemma {:induction false} DotZeroTail(x: seq<real>, y: seq<real>, k: nat)
    requires k <= |x| <= |y|
    requires forall i :: k <= i < |x| ==> y[i] == 0.0
    ensures DotSum(x, y) == DotSum(x[..k], y)
  {
    if |x| > k {
      var n := |x| - 1;
      assert x[..n][..k] == x[..k];
      DotZeroTail(x[..n], y, k);
    } else {
      assert x[..k] == x;
    }
  }

  /** Scaling y scales the dot product. */
  lemma {:induction false} DotScale(x: seq<real>, y: seq<real>, s: real, ys: seq<real>)
    requires |x| <= |y| == |ys|
    requires forall i :: 0 <= i < |y| ==> ys[i] == s * y[i]
    ensures DotSum(x, ys) == s * DotSum(x, y)
  {
    if |x| > 0 {
      DotScale(x[..|x| - 1], y, s, ys);
    }
  }

  /** The dot product of two slices of equal length does not depend on their order. */
  lemma {:induction false} DotSymmetric(x: seq<real>, y: seq<real>)
    requires |x| == |y|
    ensures DotSum(x, y) == DotSum(y, x)
  {
    if |x| > 0 {
      var k := |x| - 1;
      DotSymmetric(x[..k], y[..k]);
      DotIgnoresTail(x[..k], y, y[..k]);
      DotIgnoresTail(y[..k], x, x[..k]);
    }
  }
}
