/** Small shared vocabulary: an Option type for operations that panic,
    and integer facts used by the index arithmetic of the other modules. */
module Common {

  /** `None` stands for a Go panic (a programmer error the caller must not make). */
  datatype Option<T> = None | Some(value: T)

  /** A sequence of `n` zeros, what `make([]T, n)` returns. */
  function Zeros(n: nat): (z: seq<real>)
    ensures |z| == n && forall k :: 0 <= k < n ==> z[k] == 0.0
  {
    seq(n, _ => 0.0)
  }

  /** Go's `copy(dst, src)`: the first min(len(dst), len(src)) entries of dst
      are replaced by those of src; the length of dst never changes. */
  function CopyInto<T>(dst: seq<T>, src: seq<T>): (r: seq<T>)
    ensures |r| == |dst|
    ensures forall k :: 0 <= k < |dst| && k < |src| ==> r[k] == src[k]
    ensures forall k :: |src| <= k < |dst| ==> r[k] == dst[k]
  {
    if |src| >= |dst| then src[..|dst|] else src + dst[|src|..]
  }

  lemma MulMono(a: int, b: int, c: int)
    requires a <= b && 0 <= c
    ensures a * c <= b * c
  {
    assert b * c - a * c == (b - a) * c;
  }

  /** Euclidean division is determined by its quotient and remainder. */
  lemma {:induction false} DivModUnique(x: int, m: int, q: int, r: int)
    requires 0 < m && 0 <= r < m && x == q * m + r
    ensures x / m == q && x % m == r
  {
    var q', r' := x / m, x % m;
    assert x == q' * m + r' && 0 <= r' < m;
    assert (q - q') * m == r' - r;
    if q > q' {
      MulMono(1, q - q', m);
      assert false;
    } else if q < q' {
      MulMono(1, q' - q, m);
      assert false;
    }
  }

  /** A row-major index `r * w + c` lies inside a `rows x w` layout. */
  lemma IndexBound(r: int, c: int, rows: int, w: int)
    requires 0 <= r < rows && 0 <= c < w
    ensures 0 <= r * w + c < rows * w
  {
    MulMono(r + 1, rows, w);
    MulMono(0, r, w);
  }

  /** Indices below n are their own remainder. */
  lemma ModSmall(n: nat)
    ensures forall c :: 0 <= c < n ==> c % n == c
  {
    forall c | 0 <= c < n ensures c % n == c {
      DivModUnique(c, n, 0, c);
    }
  }

  // ---------------------------------------------------------------------
  // The 3-bit genes of bf.go:131-141 and queens.go:20-29
  // ---------------------------------------------------------------------

  function Bit(b: bool): nat { if b then 1 else 0 }

  /** Gene x of a vector: coordinates 3x, 3x+1, 3x+2 as bits, most significant
      first, each set when the coordinate is positive. */
  function Gene(v: seq<real>, x: nat): (y: nat)
    requires 3 * x + 2 < |v|
    ensures y < 8
    ensures y / 4 == Bit(v[3 * x] > 0.0) && y / 2 % 2 == Bit(v[3 * x + 1] > 0.0) && y % 2 == Bit(v[3 * x + 2] > 0.0)
  {
    var y := 4 * Bit(v[3 * x] > 0.0) + 2 * Bit(v[3 * x + 1] > 0.0) + Bit(v[3 * x + 2] > 0.0);
    DivModUnique(y, 4, Bit(v[3 * x] > 0.0), 2 * Bit(v[3 * x + 1] > 0.0) + Bit(v[3 * x + 2] > 0.0));
    DivModUnique(y, 2, 2 * Bit(v[3 * x] > 0.0) + Bit(v[3 * x + 1] > 0.0), Bit(v[3 * x + 2] > 0.0));
    DivModUnique(y / 2, 2, Bit(v[3 * x] > 0.0), Bit(v[3 * x + 1] > 0.0));
    y
  }

  /** The first k bits of gene x, read as a number. */
  function GenePrefix(g: seq<real>, x: nat, k: nat): nat
    requires 3 * x + 2 < |g| && k <= 3
  {
    if k == 0 then 0 else 2 * GenePrefix(g, x, k - 1) + Bit(g[3 * x + k - 1] > 0.0)
  }

  /** The decode loop: `y <<= 1`, then `y |= 1` when the coordinate is positive
      (the shift leaves bit 0 clear, so the or adds one). */
  method ReadGene(g: seq<real>, x: nat) returns (y: nat)
    requires 3 * x + 2 < |g|
    ensures y == Gene(g, x)
  {
    y := 0;
    for yy := 0 to 3
      invariant y == GenePrefix(g, x, yy)
    {
      y := 2 * y;
      if g[3 * x + yy] > 0.0 {
        y := y + 1;
      }
    }
    assert GenePrefix(g, x, 1) == Bit(g[3 * x] > 0.0);
    assert GenePrefix(g, x, 2) == 2 * Bit(g[3 * x] > 0.0) + Bit(g[3 * x + 1] > 0.0);
  }
}
