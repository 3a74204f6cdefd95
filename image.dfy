/** The image model of image.go: every individual is eight 64-wide planes
    drawn from eight per-plane Gaussians, rendered as an 8x8 grey image whose
    pixel has bit v set where plane v is positive; its fitness is the length
    of that image's JPEG encoding, and every generation replaces the whole
    population. */
module Image {
  import opened Common
  import opened Matrices
  import opened Evolution
  import Vector

  /** Planes per individual, one per bit of a grey pixel. */
  const Planes: nat := 8

  /** Pixels per image side. */
  const Side: nat := 8

  /** Entries per plane: one per pixel of the 8 x 8 image. */
  const Pixels: nat := 64

  /** Noise values drawn for one plane. */
  const Draws: nat := 8

  /** Individuals per generation. */
  const Population: nat := 256

  /** Generations. */
  const Iterations: nat := 256

  /** State rows per plane, refilled from the head of the population. */
  const Kept: nat := 8

  // ---------------------------------------------------------------------
  // Pixel packing (image.go:43-58, 94-106)
  // ---------------------------------------------------------------------

  /** Plane entry `iii*8 + iv` belongs to pixel (x, y) = (iii, iv), which the
      grey image stores at `Pix[iv*8 + iii]`: the same map sends a pixel's
      offset back to its plane entry. */
  function Transpose(j: int): int
  {
    (j % Side) * Side + j / Side
  }

  /** The transpose maps entry iii*8+iv to offset iv*8+iii. */
  lemma TransposeAt(iii: int, iv: int)
    requires 0 <= iii < Side && 0 <= iv < Side
    ensures Transpose(iii * Side + iv) == iv * Side + iii
  {
    DivModUnique(iii * Side + iv, Side, iii, iv);
  }

  /** The transpose is its own inverse on the 64 offsets, hence a bijection. */
  lemma TransposeTwice(j: int)
    requires 0 <= j < Pixels
    ensures 0 <= Transpose(j) < Pixels && Transpose(Transpose(j)) == j
  {
    var iii, iv := j / Side, j % Side;
    DivModUnique(j, Side, iii, iv);
    TransposeAt(iv, iii);
  }

  /** `1 << v`, the bit of plane v. */
  function Flag(v: nat): bv8
    requires v < Planes
  {
    [1, 2, 4, 8, 16, 32, 64, 128][v]
  }

  /** The bit plane v contributes to a pixel whose entry is `x`. */
  function Mask(x: real, v: nat): bv8
    requires v < Planes
  {
    if x > 0.0 then Flag(v) else 0
  }

  /** The pixel for plane entry j after planes 0..n-1 were ORed in. */
  function PixelUpTo(planes: seq<seq<real>>, j: nat, n: nat): bv8
    requires n <= |planes| && n <= Planes
    requires forall v :: 0 <= v < n ==> j < |planes[v]|
  {
    if n == 0 then 0 else PixelUpTo(planes, j, n - 1) | Mask(planes[n - 1][j], n - 1)
  }

  /** Eight planes of 64 entries. */
  predicate Shaped(planes: seq<seq<real>>)
  {
    |planes| == Planes && forall v :: 0 <= v < Planes ==> |planes[v]| == Pixels
  }

  /** The grey image's `Pix` after planes 0..n-1 were painted. */
  function PictureUpTo(planes: seq<seq<real>>, n: nat): (pix: seq<bv8>)
    requires Shaped(planes) && n <= Planes
    ensures |pix| == Pixels
  {
    seq(Pixels, k requires 0 <= k < Pixels => (TransposeTwice(k); PixelUpTo(planes, Transpose(k), n)))
  }

  /** The image of an individual: its eight planes painted in order. */
  function Picture(planes: seq<seq<real>>): (pix: seq<bv8>)
    requires Shaped(planes)
    ensures |pix| == Pixels
  {
    PictureUpTo(planes, Planes)
  }

  /** Bits at or above n are clear after planes 0..n-1; bit v below n is set
      exactly when plane v's entry is positive. */
  lemma {:induction false} PixelUpToBits(planes: seq<seq<real>>, j: nat, n: nat, v: nat)
    requires n <= |planes| && n <= Planes && v < Planes
    requires forall w :: 0 <= w < n ==> j < |planes[w]|
    ensures PixelUpTo(planes, j, n) & Flag(v) != 0 <==> v < n && planes[v][j] > 0.0
  {
    if n > 0 {
      PixelUpToBits(planes, j, n - 1, v);
    }
  }

  /** Bit v of pixel (iii, iv) is set if and only if entry iii*8+iv of plane v is positive. */
  lemma PixelBits(planes: seq<seq<real>>, iii: nat, iv: nat, v: nat)
    requires Shaped(planes) && iii < Side && iv < Side && v < Planes
    ensures Picture(planes)[iv * Side + iii] & Flag(v) != 0 <==> planes[v][iii * Side + iv] > 0.0
  {
    TransposeAt(iv, iii);
    assert Picture(planes)[iv * Side + iii] == PixelUpTo(planes, iii * Side + iv, Planes);
    PixelUpToBits(planes, iii * Side + iv, Planes, v);
  }

  /** The pixel as a sum: plane v adds 2^v where it is positive. */
  function PixelSum(planes: seq<seq<real>>, j: nat, n: nat): bv8
    requires n <= |planes| && n <= Planes
    requires forall v :: 0 <= v < n ==> j < |planes[v]|
  {
    if n == 0 then 0 else PixelSum(planes, j, n - 1) + Mask(planes[n - 1][j], n - 1)
  }

  /** The planes set disjoint bits, so ORing them in adds them up without a
      carry: the pixel is the sum of 2^v over the positive planes, at most 255. */
  lemma {:induction false} PixelIsSum(planes: seq<seq<real>>, j: nat, n: nat)
    requires n <= |planes| && n <= Planes
    requires forall v :: 0 <= v < n ==> j < |planes[v]|
    ensures PixelUpTo(planes, j, n) == PixelSum(planes, j, n)
  {
    if n > 0 {
      PixelIsSum(planes, j, n - 1);
      PixelUpToBits(planes, j, n - 1, n - 1);
    }
  }

  /** Entry of `plane` painted at offset k. */
  function EntryAt(plane: seq<real>, k: int): real
    requires |plane| == Pixels && 0 <= k < Pixels
  {
    TransposeTwice(k);
    plane[Transpose(k)]
  }

  /** `pix` with plane v painted in. */
  function Painted(pix: seq<bv8>, plane: seq<real>, v: nat): (r: seq<bv8>)
    requires |pix| == Pixels && |plane| == Pixels && v < Planes
    ensures |r| == Pixels
  {
    seq(Pixels, k requires 0 <= k < Pixels => pix[k] | Mask(EntryAt(plane, k), v))
  }

  /** Painting plane n onto the picture of planes 0..n-1 gives the picture of planes 0..n. */
  lemma PictureStep(planes: seq<seq<real>>, n: nat)
    requires Shaped(planes) && n < Planes
    ensures PictureUpTo(planes, n + 1) == Painted(PictureUpTo(planes, n), planes[n], n)
  {
  }

  /** The offsets whose plane entries come before entry n are painted. */
  ghost predicate PaintedBelow(pix: seq<bv8>, before: seq<bv8>, plane: seq<real>, v: nat, n: int)
    requires |pix| == |before| == |plane| == Pixels && v < Planes
  {
    forall k :: 0 <= k < Pixels ==>
      pix[k] == if Transpose(k) < n then before[k] | Mask(EntryAt(plane, k), v) else before[k]
  }

  /** One pass of the inner loop: the pixel at (iii, iv) gets bit v when
      entry iii*8+iv of the plane is positive. */
  function PaintPixel(pix: seq<bv8>, plane: seq<real>, v: nat, iii: nat, iv: nat): (r: seq<bv8>)
    requires |pix| == |plane| == Pixels && v < Planes && iii < Side && iv < Side
    ensures |r| == Pixels
  {
    var k := iv * Side + iii;
    if plane[iii * Side + iv] > 0.0 then pix[k := pix[k] | Flag(v)] else pix
  }

  /** Painting pixel (iii, iv) extends the painted entries by entry iii*8+iv. */
  lemma PaintStep(pix: seq<bv8>, before: seq<bv8>, plane: seq<real>, v: nat, iii: nat, iv: nat)
    requires |pix| == |before| == |plane| == Pixels && v < Planes && iii < Side && iv < Side
    requires PaintedBelow(pix, before, plane, v, iii * Side + iv)
    ensures PaintedBelow(PaintPixel(pix, plane, v, iii, iv), before, plane, v, iii * Side + iv + 1)
  {
    var j, k := iii * Side + iv, iv * Side + iii;
    var pix' := PaintPixel(pix, plane, v, iii, iv);
    TransposeAt(iii, iv);
    TransposeAt(iv, iii);
    assert EntryAt(plane, k) == plane[j];
    forall k' | 0 <= k' < Pixels
      ensures pix'[k'] == if Transpose(k') < j + 1 then before[k'] | Mask(EntryAt(plane, k'), v) else before[k']
    {
      TransposeTwice(k');
      if k' != k {
        assert Transpose(k') != j;
        assert pix'[k'] == pix[k'];
      }
    }
  }

  /** The nested loops over (iii, iv) that OR `1 << v` into the pixel at
      (iii, iv) wherever entry iii*8+iv of the plane is positive. */
  method Paint(img: array<bv8>, plane: seq<real>, v: nat)
    requires img.Length == Pixels && |plane| == Pixels && v < Planes
    modifies img
    ensures img[..] == Painted(old(img[..]), plane, v)
  {
    ghost var before := img[..];
    for iii := 0 to Side
      invariant PaintedBelow(img[..], before, plane, v, iii * Side)
    {
      for iv := 0 to Side
        invariant PaintedBelow(img[..], before, plane, v, iii * Side + iv)
      {
        PaintStep(img[..], before, plane, v, iii, iv);
        if plane[iii * Side + iv] > 0.0 {
          img[iv * Side + iii] := img[iv * Side + iii] | Flag(v);
        }
      }
    }
  }

  // ---------------------------------------------------------------------
  // One individual (image.go:42-65)
  // ---------------------------------------------------------------------

  /** The noise matrix `NewMatrix(64, 1)` holds no data but has capacity 64;
      after 8 appends MulT still reads a full row of 64 from the backing
      array, whose last 56 entries were never written and are zero. */
  function Widened(g: seq<real>): (w: seq<real>)
    requires |g| == Draws
    ensures |w| == Pixels && w[..Draws] == g
    ensures forall i :: Draws <= i < Pixels ==> w[i] == 0.0
  {
    g + Zeros(Pixels - Draws)
  }

  /** `a[v].MulT(g).Add(u[v])`: plane v of an individual, from its 8 noise values. */
  function PlaneDraw(a: Matrix, u: Matrix, g: seq<real>): (plane: seq<real>)
    requires FitShape(a, u, Pixels) && |g| == Draws
    ensures |plane| == Pixels
  {
    Draw(a, u, Pixels, Widened(g))
  }

  /** Only the first 8 columns of A take part: entry c of the plane is
      row c of A's first 8 entries dotted with the noise, plus u[c]. */
  lemma NoiseTail(a: Matrix, u: Matrix, g: seq<real>)
    requires FitShape(a, u, Pixels) && |g| == Draws
    ensures forall c :: 0 <= c < Pixels ==>
      PlaneDraw(a, u, g)[c] == Vector.DotSum(Row(a, c)[..Draws], g) + u.data[c]
  {
    var w := Widened(g);
    forall c | 0 <= c < Pixels
      ensures PlaneDraw(a, u, g)[c] == Vector.DotSum(Row(a, c)[..Draws], g) + u.data[c]
    {
      var row := Row(a, c);
      Vector.DotZeroTail(row, w, Draws);
      Vector.DotIgnoresTail(row[..Draws], w, g);
    }
  }

  /** One Gaussian per plane, each 64 x 64 with a mean of 64. */
  predicate Fitted8(a: seq<Matrix>, u: seq<Matrix>)
  {
    |a| == |u| == Planes && forall v :: 0 <= v < Planes ==> FitShape(a[v], u[v], Pixels)
  }

  /** Eight noise draws of 8 values each. */
  predicate Noise8(noise: seq<seq<real>>)
  {
    |noise| == Planes && forall v :: 0 <= v < Planes ==> |noise[v]| == Draws
  }

  /** The eight planes of an individual. */
  function Sampled(a: seq<Matrix>, u: seq<Matrix>, noise: seq<seq<real>>): (planes: seq<seq<real>>)
    requires Fitted8(a, u) && Noise8(noise)
    ensures Shaped(planes)
    ensures forall v :: 0 <= v < Planes ==> planes[v] == PlaneDraw(a[v], u[v], noise[v])
  {
    seq(Planes, v requires 0 <= v < Planes => PlaneDraw(a[v], u[v], noise[v]))
  }

  /** Planes of 64 entries each. */
  predicate Uniform(planes: seq<seq<real>>)
  {
    forall v :: 0 <= v < |planes| ==> |planes[v]| == Pixels
  }

  /** Entry i of n planes laid end to end lies in plane i / 64. */
  lemma FlatIndex(n: nat, i: int)
    requires 0 <= i < n * Pixels
    ensures 0 <= i / Pixels < n && 0 <= i % Pixels < Pixels
  {
  }

  /** The planes laid end to end: plane v occupies [64v, 64v + 64). */
  function Flat(planes: seq<seq<real>>): (vector: seq<real>)
    requires Uniform(planes)
    ensures |vector| == |planes| * Pixels
  {
    seq(|planes| * Pixels, i requires 0 <= i < |planes| * Pixels =>
      FlatIndex(|planes|, i); planes[i / Pixels][i % Pixels])
  }

  /** Plane v of an individual's vector. */
  function PlaneOf(vector: seq<real>, v: nat): (plane: seq<real>)
    requires |vector| == Planes * Pixels && v < Planes
    ensures |plane| == Pixels
  {
    vector[v * Pixels..v * Pixels + Pixels]
  }

  /** The eight planes of an individual's vector. */
  function PlanesOf(vector: seq<real>): (planes: seq<seq<real>>)
    requires |vector| == Planes * Pixels
    ensures Shaped(planes)
  {
    seq(Planes, v requires 0 <= v < Planes => PlaneOf(vector, v))
  }

  /** Laying out one more plane appends it. */
  lemma FlatStep(planes: seq<seq<real>>, n: nat)
    requires n < |planes| && Uniform(planes)
    ensures Flat(planes[..n + 1]) == Flat(planes[..n]) + planes[n]
  {
    var longer, shorter := Flat(planes[..n + 1]), Flat(planes[..n]);
    forall i | n * Pixels <= i < (n + 1) * Pixels
      ensures longer[i] == planes[n][i - n * Pixels]
    {
      DivModUnique(i, Pixels, n, i - n * Pixels);
    }
  }

  /** The planes concatenated one after another, as the source appends them. */
  function Laid(planes: seq<seq<real>>): seq<real>
  {
    if |planes| == 0 then [] else Laid(planes[..|planes| - 1]) + planes[|planes| - 1]
  }

  /** Laying out one more plane appends it. */
  lemma LaidStep(planes: seq<seq<real>>, n: nat)
    requires n < |planes|
    ensures Laid(planes[..n + 1]) == Laid(planes[..n]) + planes[n]
  {
    assert planes[..n + 1][..n] == planes[..n];
  }

  /** Appending the planes one by one lays them out end to end. */
  lemma {:induction false} LaidIsFlat(planes: seq<seq<real>>, n: nat)
    requires n <= |planes| && Uniform(planes)
    ensures Laid(planes[..n]) == Flat(planes[..n])
  {
    if n > 0 {
      LaidIsFlat(planes, n - 1);
      LaidStep(planes, n - 1);
      FlatStep(planes, n - 1);
    }
  }

  /** Both layouts agree on whole sequences of planes. */
  lemma LaidFlat(planes: seq<seq<real>>)
    requires Uniform(planes)
    ensures Laid(planes) == Flat(planes)
  {
    LaidIsFlat(planes, |planes|);
    assert planes[..|planes|] == planes;
  }

  /** The flat vector of eight planes gives back each plane. */
  lemma FlatPlanes(planes: seq<seq<real>>)
    requires Shaped(planes)
    ensures |Flat(planes)| == Planes * Pixels && PlanesOf(Flat(planes)) == planes
  {
    var vector := Flat(planes);
    forall v | 0 <= v < Planes
      ensures PlaneOf(vector, v) == planes[v]
    {
      forall c | 0 <= c < Pixels
        ensures PlaneOf(vector, v)[c] == planes[v][c]
      {
        DivModUnique(v * Pixels + c, Pixels, v, c);
      }
    }
  }

  /** A newborn: its eight planes laid end to end, and as fitness the length
      of the JPEG encoding of its picture, which `jpeg` gives. */
  function Born(a: seq<Matrix>, u: seq<Matrix>, noise: seq<seq<real>>, jpeg: seq<bv8> -> nat): Individual
    requires Fitted8(a, u) && Noise8(noise)
  {
    var planes := Sampled(a, u, noise);
    Individual(Flat(planes), jpeg(Picture(planes)) as real)
  }

  /** The plane loop of a newborn: each plane is drawn, appended to the
      vector and painted into the grey image. */
  method Develop(a: seq<Matrix>, u: seq<Matrix>, noise: seq<seq<real>>)
    returns (vector: seq<real>, pix: seq<bv8>)
    requires Fitted8(a, u) && Noise8(noise)
    ensures vector == Laid(Sampled(a, u, noise)) && pix == Picture(Sampled(a, u, noise))
  {
    ghost var planes := Sampled(a, u, noise);
    var img := new bv8[Pixels](_ => 0);
    vector := [];
    for v := 0 to Planes
      invariant img[..] == PictureUpTo(planes, v) && vector == Laid(planes[..v])
    {
      var plane := PlaneDraw(a[v], u[v], noise[v]);
      assert plane == planes[v];
      LaidStep(planes, v);
      vector := vector + plane;
      Paint(img, plane, v);
      PictureStep(planes, v);
    }
    assert planes[..Planes] == planes;
    pix := img[..];
  }

  /** The body of the `pop` loop: sample each plane and paint it, then
      score the picture. */
  method Newborn(a: seq<Matrix>, u: seq<Matrix>, noise: seq<seq<real>>, jpeg: seq<bv8> -> nat)
    returns (e: Individual)
    requires Fitted8(a, u) && Noise8(noise)
    ensures e == Born(a, u, noise, jpeg)
  {
    var vector, pix := Develop(a, u, noise);
    LaidFlat(Sampled(a, u, noise));
    e := Individual(vector, jpeg(pix) as real);
  }

  /** The saved picture of an individual: its planes painted in order. */
  method Snapshot(vector: seq<real>) returns (pix: seq<bv8>)
    requires |vector| == Planes * Pixels
    ensures pix == Picture(PlanesOf(vector))
  {
    ghost var planes := PlanesOf(vector);
    var img := new bv8[Pixels](_ => 0);
    for v := 0 to Planes
      invariant img[..] == PictureUpTo(planes, v)
    {
      Paint(img, PlaneOf(vector, v), v);
      PictureStep(planes, v);
    }
    pix := img[..];
  }

  // ---------------------------------------------------------------------
  // One generation (image.go:35-117)
  // ---------------------------------------------------------------------

  /** The Gaussians of the eight planes, each fitted to that plane's state rows. */
  function Gaussians(fits: seq<seq<seq<real>> -> (Matrix, Matrix)>, states: seq<seq<seq<real>>>): (au: (seq<Matrix>, seq<Matrix>))
    requires |fits| == |states| == Planes
    ensures |au.0| == |au.1| == Planes
    ensures forall v :: 0 <= v < Planes ==> au.0[v] == fits[v](states[v]).0 && au.1[v] == fits[v](states[v]).1
  {
    (seq(Planes, v requires 0 <= v < Planes => fits[v](states[v]).0),
     seq(Planes, v requires 0 <= v < Planes => fits[v](states[v]).1))
  }

  /** Every plane's fitter returns a 64-dimensional Gaussian. */
  ghost predicate Fitters(fits: seq<seq<seq<real>> -> (Matrix, Matrix)>)
  {
    |fits| == Planes && forall v :: 0 <= v < Planes ==> Evolution.Shaped(fits[v], Pixels)
  }

  /** The 256 newborns, one per noise draw. */
  function Borns(a: seq<Matrix>, u: seq<Matrix>, noises: seq<seq<seq<real>>>, jpeg: seq<bv8> -> nat): (born: seq<Individual>)
    requires Fitted8(a, u) && forall ii :: 0 <= ii < |noises| ==> Noise8(noises[ii])
    ensures |born| == |noises|
    ensures forall ii :: 0 <= ii < |noises| ==> born[ii] == Born(a, u, noises[ii], jpeg)
  {
    seq(|noises|, ii requires 0 <= ii < |noises| => Born(a, u, noises[ii], jpeg))
  }

  /** Every individual carries eight planes of 64. */
  predicate Wide(pop: seq<Individual>)
  {
    forall ii :: 0 <= ii < |pop| ==> |pop[ii].vector| == Planes * Pixels
  }

  /** Newborns carry eight planes of 64. */
  lemma BornsWide(a: seq<Matrix>, u: seq<Matrix>, noises: seq<seq<seq<real>>>, jpeg: seq<bv8> -> nat)
    requires Fitted8(a, u) && forall ii :: 0 <= ii < |noises| ==> Noise8(noises[ii])
    ensures Wide(Borns(a, u, noises, jpeg))
  {
    forall ii | 0 <= ii < |noises| {
      FlatPlanes(Sampled(a, u, noises[ii]));
    }
  }

  /** Reordering keeps every individual's width. */
  lemma WidePermuted(s: seq<Individual>, t: seq<Individual>)
    requires Wide(s) && multiset(s) == multiset(t)
    ensures Wide(t)
  {
    forall ii | 0 <= ii < |t|
      ensures |t[ii].vector| == Planes * Pixels
    {
      assert t[ii] in multiset(s);
    }
  }

  /** The fitted Gaussians, one per plane, in plane order. */
  method FitPlanes(state: array<seq<seq<real>>>, fits: seq<seq<seq<real>> -> (Matrix, Matrix)>)
    returns (a: seq<Matrix>, u: seq<Matrix>)
    requires state.Length == Planes && |fits| == Planes
    ensures (a, u) == Gaussians(fits, state[..])
  {
    a, u := [], [];
    for ii := 0 to Planes
      invariant |a| == |u| == ii
      invariant forall v :: 0 <= v < ii ==> a[v] == fits[v](state[v]).0 && u[v] == fits[v](state[v]).1
    {
      var au := fits[ii](state[ii]);
      a, u := a + [au.0], u + [au.1];
    }
    ghost var fitted := Gaussians(fits, state[..]);
    assert a == fitted.0 && u == fitted.1;
  }

  /** The population loop: every individual is replaced by a newborn. */
  method Breed(pop: array<Individual>, a: seq<Matrix>, u: seq<Matrix>, noises: seq<seq<seq<real>>>, jpeg: seq<bv8> -> nat)
    requires Fitted8(a, u) && pop.Length == |noises| && forall ii :: 0 <= ii < |noises| ==> Noise8(noises[ii])
    modifies pop
    ensures pop[..] == Borns(a, u, noises, jpeg)
  {
    ghost var born := Borns(a, u, noises, jpeg);
    for ii := 0 to pop.Length
      invariant forall k :: 0 <= k < ii ==> pop[k] == born[k]
    {
      pop[ii] := Newborn(a, u, noises[ii], jpeg);
    }
    assert pop[..] == born;
  }

  /** The state copy: row ii of plane v's state becomes plane v of the
      ii-th best individual. */
  method KeepHead(state: array<seq<seq<real>>>, pop: array<Individual>)
    requires state.Length == Planes && pop.Length >= Kept && Wide(pop[..])
    requires forall v :: 0 <= v < Planes ==> |state[v]| == Kept
    requires forall v, ii :: 0 <= v < Planes && 0 <= ii < Kept ==> |state[v][ii]| == Pixels
    modifies state
    ensures forall v :: 0 <= v < Planes ==> |state[v]| == Kept
    ensures forall v, ii :: 0 <= v < Planes && 0 <= ii < Kept ==> |state[v][ii]| == Pixels
    ensures forall v, ii :: 0 <= v < Planes && 0 <= ii < Kept ==> state[v][ii] == PlaneOf(pop[ii].vector, v)
  {
    for v := 0 to Planes
      invariant forall w :: 0 <= w < Planes ==> |state[w]| == Kept
      invariant forall w, ii :: 0 <= w < v && 0 <= ii < Kept ==> state[w][ii] == PlaneOf(pop[ii].vector, w)
      invariant forall w, ii :: 0 <= w < Planes && 0 <= ii < Kept ==> |state[w][ii]| == Pixels
    {
      for ii := 0 to Kept
        invariant forall w :: 0 <= w < Planes ==> |state[w]| == Kept
        invariant forall w, jj :: 0 <= w < v && 0 <= jj < Kept ==> state[w][jj] == PlaneOf(pop[jj].vector, w)
        invariant forall jj :: 0 <= jj < ii ==> state[v][jj] == PlaneOf(pop[jj].vector, v)
        invariant forall w, jj :: 0 <= w < Planes && 0 <= jj < Kept ==> |state[w][jj]| == Pixels
      {
        CopyWhole(state[v][ii], PlaneOf(pop[ii].vector, v));
        state[v] := state[v][ii := CopyInto(state[v][ii], PlaneOf(pop[ii].vector, v))];
      }
    }
  }

  /** One generation: fit each plane's Gaussian to its state rows, replace
      the whole population by newborns, sort it by fitness, copy the eight
      best into the state and paint the best one's picture. No individual
      survives from the previous generation. */
  method Generation(state: array<seq<seq<real>>>, pop: array<Individual>,
                    fits: seq<seq<seq<real>> -> (Matrix, Matrix)>, noises: seq<seq<seq<real>>>, jpeg: seq<bv8> -> nat)
    returns (picture: seq<bv8>)
    requires state.Length == Planes && pop.Length == |noises| == Population
    requires forall v :: 0 <= v < Planes ==> |state[v]| == Kept
    requires forall v, ii :: 0 <= v < Planes && 0 <= ii < Kept ==> |state[v][ii]| == Pixels
    requires Fitters(fits) && forall ii :: 0 <= ii < Population ==> Noise8(noises[ii])
    modifies state, pop
    ensures SortedByFitness(pop[..]) && Wide(pop[..])
    ensures var au := Gaussians(fits, old(state[..]));
      Fitted8(au.0, au.1) && multiset(pop[..]) == multiset(Borns(au.0, au.1, noises, jpeg))
    ensures forall v :: 0 <= v < Planes ==> |state[v]| == Kept
    ensures forall v, ii :: 0 <= v < Planes && 0 <= ii < Kept ==> |state[v][ii]| == Pixels
    ensures forall v, ii :: 0 <= v < Planes && 0 <= ii < Kept ==> state[v][ii] == PlaneOf(pop[ii].vector, v)
    ensures picture == Picture(PlanesOf(pop[0].vector))
  {
    var a, u := FitPlanes(state, fits);
    Breed(pop, a, u, noises, jpeg);
    BornsWide(a, u, noises, jpeg);
    ghost var born := pop[..];
    SortByFitness(pop);
    WidePermuted(born, pop[..]);
    KeepHead(state, pop);
    picture := Snapshot(pop[0].vector);
  }

  /** Without elites the new head is the best newborn, whatever came before:
      when every newborn is worse than the previous head, the head gets worse. */
  lemma HeadForgets(prevHead: real, born: seq<Individual>, next: seq<Individual>)
    requires |born| > 0 && SortedByFitness(next) && multiset(next) == multiset(born)
    ensures |next| > 0 && next[0] in born
    ensures forall b :: b in born ==> next[0].fitness <= b.fitness
    ensures (forall b :: b in born ==> b.fitness > prevHead) ==> next[0].fitness > prevHead
  {
    assert |next| == |multiset(next)| == |born|;
    assert next[0] in multiset(born);
    forall b | b in born
      ensures next[0].fitness <= b.fitness
    {
      assert b in multiset(next);
    }
  }

  /** `Image()`: 256 generations from the initial state, each keeping the
      best individual's picture and fitness. */
  method Run(state: array<seq<seq<real>>>, pop: array<Individual>,
             fits: seq<seq<seq<seq<real>> -> (Matrix, Matrix)>>, noises: seq<seq<seq<seq<real>>>>, jpeg: seq<bv8> -> nat)
    returns (pictures: seq<seq<bv8>>, heads: seq<real>)
    requires state.Length == Planes && pop.Length == Population
    requires forall v :: 0 <= v < Planes ==> |state[v]| == Kept
    requires forall v, ii :: 0 <= v < Planes && 0 <= ii < Kept ==> |state[v][ii]| == Pixels
    requires |fits| == |noises| == Iterations
    requires forall i :: 0 <= i < Iterations ==> Fitters(fits[i]) && |noises[i]| == Population
    requires forall i, ii :: 0 <= i < Iterations && 0 <= ii < Population ==> Noise8(noises[i][ii])
    modifies state, pop
    ensures |pictures| == |heads| == Iterations
    ensures forall i :: 0 <= i < Iterations ==> |pictures[i]| == Pixels
    ensures SortedByFitness(pop[..]) && Wide(pop[..]) && heads[Iterations - 1] == pop[0].fitness
    ensures pictures[Iterations - 1] == Picture(PlanesOf(pop[0].vector))
    ensures forall v :: 0 <= v < Planes ==> |state[v]| == Kept
    ensures forall v, ii :: 0 <= v < Planes && 0 <= ii < Kept ==> state[v][ii] == PlaneOf(pop[ii].vector, v)
  {
    pictures, heads := [], [];
    for i := 0 to Iterations
      invariant |pictures| == |heads| == i
      invariant forall k :: 0 <= k < i ==> |pictures[k]| == Pixels
      invariant forall v :: 0 <= v < Planes ==> |state[v]| == Kept
      invariant forall v, ii :: 0 <= v < Planes && 0 <= ii < Kept ==> |state[v][ii]| == Pixels
      invariant i > 0 ==> SortedByFitness(pop[..]) && Wide(pop[..]) && heads[i - 1] == pop[0].fitness
      invariant i > 0 ==> pictures[i - 1] == Picture(PlanesOf(pop[0].vector))
      invariant i > 0 ==> forall v, ii :: 0 <= v < Planes && 0 <= ii < Kept ==> state[v][ii] == PlaneOf(pop[ii].vector, v)
    {
      var picture := Generation(state, pop, fits[i], noises[i], jpeg);
      pictures, heads := pictures + [picture], heads + [pop[0].fitness];
    }
  }
}
