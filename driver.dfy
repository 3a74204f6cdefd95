/** The driver of main.go: a recurrent layer of size 256 with its bias, learned
    by the shared generation loop over 8 state rows, with L2 as the distance
    helper and the state copy that writes the bias at offset 16. */
module Driver {
  import opened Common
  import opened Matrices
  import opened Evolution

  const Size: nat := 256
  const Width: nat := Size * Size + Size
  const Models: nat := Width / 8
  const Population: nat := 256
  const Iterations: nat := 256
  /** `born = pop[8:]` after generation 0, and `state` has 8 rows. */
  const Elites: nat := 8

  // ---------------------------------------------------------------------
  // L2 (main.go:632-640)
  // ---------------------------------------------------------------------

  function Square(d: real): real { d * d }

  lemma SquareNonNegative(d: real)
    ensures Square(d) >= 0.0
  {
  }

  /** The sum over i < |a| of (a[i] - b[i])^2. */
  function SquaredDistance(a: seq<real>, b: seq<real>): real
    requires |a| <= |b|
  {
    if |a| == 0 then 0.0
    else SquaredDistance(a[..|a| - 1], b) + Square(a[|a| - 1] - b[|a| - 1])
  }

  /** `L2(a, b)`: the loop over a accumulating squared differences; b must be
      at least as long as a, or `b[i]` is out of range. */
  method L2(a: seq<real>, b: seq<real>) returns (c: real)
    requires |a| <= |b|
    ensures c == SquaredDistance(a, b)
    ensures c >= 0.0
  {
    c := 0.0;
    for i := 0 to |a|
      invariant c == SquaredDistance(a[..i], b)
    {
      assert a[..i + 1][..i] == a[..i];
      var diff := a[i] - b[i];
      c := c + diff * diff;
    }
    assert a[..|a|] == a;
    DistanceNonNegative(a, b);
  }

  /** A sum of squares is never negative. */
  lemma {:induction false} DistanceNonNegative(a: seq<real>, b: seq<real>)
    requires |a| <= |b|
    ensures SquaredDistance(a, b) >= 0.0
  {
    if |a| > 0 {
      DistanceNonNegative(a[..|a| - 1], b);
      SquareNonNegative(a[|a| - 1] - b[|a| - 1]);
    }
  }

  /** A vector is at distance 0 from any vector that starts with it. */
  lemma {:induction false} DistanceToSelf(a: seq<real>, b: seq<real>)
    requires |a| <= |b| && b[..|a|] == a
    ensures SquaredDistance(a, b) == 0.0
  {
    if |a| > 0 {
      var k := |a| - 1;
      assert b[..k] == a[..k] by { assert b[..k] == b[..|a|][..k]; }
      DistanceToSelf(a[..k], b);
      assert a[k] == b[k] by { assert b[..|a|][k] == b[k]; }
    }
  }

  /** Only the first |a| entries of b take part. */
  lemma {:induction false} DistanceIgnoresTail(a: seq<real>, b: seq<real>, b': seq<real>)
    requires |a| <= |b| && |a| <= |b'| && b[..|a|] == b'[..|a|]
    ensures SquaredDistance(a, b) == SquaredDistance(a, b')
  {
    if |a| > 0 {
      var k := |a| - 1;
      assert b[k] == b'[k] by { assert b[..|a|][k] == b[k] && b'[..|a|][k] == b'[k]; }
      assert b[..k] == b'[..k] by { assert b[..k] == b[..|a|][..k] && b'[..k] == b'[..|a|][..k]; }
      DistanceIgnoresTail(a[..k], b, b');
    }
  }

  // ---------------------------------------------------------------------
  // The partition of main() (main.go:1199-1205, 1239-1258)
  // ---------------------------------------------------------------------

  /** `models = width / 8` divides width = 256*256 + 256 exactly, so every block
      id of the shuffled map occurs 8 times: the dimension passed to the fitter. */
  lemma BlocksOfEight(translate: seq<int>, b: int)
    requires multiset(translate) == multiset(Tiling(Width, Models))
    requires 0 <= b < Models
    ensures multiset(translate)[b] == 8
  {
    Tiled();
    BlockSizes(Width, Models, translate, b);
  }

  /** The width is 8224 blocks of 8. */
  lemma Tiled()
    ensures Models == 8224 && Width == Models * 8 && Width % Models == 0 && Width / Models == 8
  {
    DivModUnique(Width, 8, 8224, 0);
    DivModUnique(Width, Models, 8, 0);
  }

  // ---------------------------------------------------------------------
  // The layer and the bias (main.go:1304-1305, 1355-1358)
  // ---------------------------------------------------------------------

  /** `NewMatrix(size, size, vector.Data[:size*size]...)` and
      `NewMatrix(size, 1, vector.Data[size*size:width]...)`: the layer and the
      bias split the full-width vector into two parts that cover it exactly. */
  function Split(vector: seq<real>): (parts: (Matrix, Matrix))
    requires |vector| == Width
    ensures parts.0 == Matrix(Size, Size, parts.0.data) && WellFormed(parts.0)
    ensures parts.1 == Matrix(Size, 1, parts.1.data) && WellFormed(parts.1)
    ensures parts.0.data + parts.1.data == vector
  {
    (Matrix(Size, Size, vector[..Size * Size]), Matrix(Size, 1, vector[Size * Size..]))
  }

  /** One state row after `copy(state[ii], Layer.Data)` and
      `copy(state[ii][16:], Bias.Data)`. */
  function RnnRow(row: seq<real>, vector: seq<real>): (r: seq<real>)
    requires |vector| == Width
  {
    var parts := Split(vector);
    var layered := CopyInto(row, parts.0.data);
    if |layered| < 16 then layered
    else layered[..16] + CopyInto(layered[16..], parts.1.data)
  }

  /** For a full-width row, the new row holds the layer except that entries
      16..272 hold the bias, and the last 256 entries keep the old row: the
      bias never reaches the positions it came from, and 256 layer weights are
      overwritten. */
  lemma RnnRowEntries(row: seq<real>, vector: seq<real>)
    requires |row| == Width && |vector| == Width
    ensures |RnnRow(row, vector)| == Width
    ensures forall p :: 0 <= p < 16 ==> RnnRow(row, vector)[p] == vector[p]
    ensures forall p :: 16 <= p < 16 + Size ==> RnnRow(row, vector)[p] == vector[Size * Size + p - 16]
    ensures forall p :: 16 + Size <= p < Size * Size ==> RnnRow(row, vector)[p] == vector[p]
    ensures forall p :: Size * Size <= p < Width ==> RnnRow(row, vector)[p] == row[p]
  {
    var parts := Split(vector);
    var layered := CopyInto(row, parts.0.data);
    var r := RnnRow(row, vector);
    assert r == layered[..16] + CopyInto(layered[16..], parts.1.data);
    forall p | 16 <= p < 16 + Size ensures r[p] == vector[Size * Size + p - 16] {
      assert r[p] == CopyInto(layered[16..], parts.1.data)[p - 16];
    }
    forall p | 16 + Size <= p < Width ensures r[p] == layered[p] {
      assert r[p] == CopyInto(layered[16..], parts.1.data)[p - 16];
    }
  }

  /** The copy does not store the individual: whenever a bias entry differs from
      the layer weight at its landing place, the state row is not the vector. */
  lemma RnnRowNotVector(row: seq<real>, vector: seq<real>)
    requires |row| == Width && |vector| == Width
    requires vector[16] != vector[Size * Size]
    ensures RnnRow(row, vector) != vector
  {
    RnnRowEntries(row, vector);
    assert RnnRow(row, vector)[16] == vector[Size * Size];
  }

  /** The state copy of main(): every state row gets its individual's layer, then
      its bias at offset 16. */
  method CopyRnnState(state: array<seq<real>>, pop: array<Individual>)
    requires state.Length <= pop.Length
    requires forall k :: 0 <= k < state.Length ==> |pop[k].vector| == Width
    modifies state
    ensures forall k :: 0 <= k < state.Length ==> state[k] == RnnRow(old(state[k]), pop[k].vector)
  {
    for ii := 0 to state.Length
      invariant forall k :: 0 <= k < ii ==> state[k] == RnnRow(old(state[k]), pop[k].vector)
      invariant forall k :: ii <= k < state.Length ==> state[k] == old(state[k])
    {
      var parts := Split(pop[ii].vector);
      var layered := CopyInto(state[ii], parts.0.data);
      if |layered| >= 16 {
        layered := layered[..16] + CopyInto(layered[16..], parts.1.data);
      }
      state[ii] := layered;
    }
  }

  // ---------------------------------------------------------------------
  // One iteration of main() (main.go:1238-1358)
  // ---------------------------------------------------------------------

  /** One iteration of the loop in main(): partition, fit blocks of 8, let the
      learn tasks fill `born` (all of pop at first, pop[8:] afterwards), sort,
      and copy layer and bias into the 8 state rows. `score` is this
      iteration's fitness: main() draws a new text window every iteration, so
      the 8 kept elites carry fitnesses from an earlier window and only the
      newborns are scored by `score`. The population stays at full width, it
      ends sorted, it is a rearrangement of the kept elites and the newborns,
      and from iteration 1 on the head's fitness is no worse than any of the 8
      elites it started from. */
  method Iteration(state: array<seq<real>>, pop: array<Individual>, i: nat, js: seq<nat>,
                   fit: seq<seq<real>> -> (Matrix, Matrix), noises: seq<seq<seq<real>>>, score: seq<real> -> real)
    returns (translate: seq<int>, a: seq<Matrix>, u: seq<Matrix>)
    requires state.Length == Elites && pop.Length == Population
    requires forall r :: 0 <= r < state.Length ==> |state[r]| == Width
    requires i > 0 ==> forall k :: 0 <= k < Elites ==> |pop[k].vector| == Width
    requires ShuffleChoices(Width, js)
    requires Shaped(fit, 8) && AllNoise(noises, Models, 8)
    requires |noises| == Population - BornStart(i, Elites)
    modifies state, pop
    ensures translate == Shuffled(Tiling(Width, Models), js, |js|)
    ensures Fitted(a, u, 8) && |a| == Models && AllCover(translate, Samples(a, u, 8, noises))
    ensures SortedByFitness(pop[..])
    ensures multiset(pop[..]) == multiset(old(pop[..BornStart(i, Elites)]) + Newborns(translate, Samples(a, u, 8, noises), score))
    ensures Scored(Newborns(translate, Samples(a, u, 8, noises), score), Width, score)
    ensures forall k :: 0 <= k < pop.Length ==> |pop[k].vector| == Width
    ensures i > 0 ==> forall p :: 0 <= p < Elites ==> pop[0].fitness <= old(pop[p]).fitness
    ensures forall k :: 0 <= k < Elites ==> state[k] == RnnRow(old(state[k]), pop[k].vector)
    ensures forall r :: 0 <= r < state.Length ==> |state[r]| == Width
  {
    translate, a, u := Regenerate(state[..], pop, i, js, fit, noises, score);
    ghost var sorted := pop[..];
    CopyRnnState(state, pop);
    assert pop[..] == sorted;
    forall r | 0 <= r < state.Length ensures |state[r]| == Width {
      RnnRowEntries(old(state[r]), pop[r].vector);
    }
  }

  /** The population half of an iteration: one generation of blocks of 8 scored
      by this iteration's `score`, the kept elites keeping their old fitness. */
  method Regenerate(state: seq<seq<real>>, pop: array<Individual>, i: nat, js: seq<nat>,
                    fit: seq<seq<real>> -> (Matrix, Matrix), noises: seq<seq<seq<real>>>, score: seq<real> -> real)
    returns (translate: seq<int>, a: seq<Matrix>, u: seq<Matrix>)
    requires |state| == Elites && pop.Length == Population
    requires forall r :: 0 <= r < |state| ==> |state[r]| == Width
    requires i > 0 ==> forall k :: 0 <= k < Elites ==> |pop[k].vector| == Width
    requires ShuffleChoices(Width, js)
    requires Shaped(fit, 8) && AllNoise(noises, Models, 8)
    requires |noises| == Population - BornStart(i, Elites)
    modifies pop
    ensures translate == Shuffled(Tiling(Width, Models), js, |js|)
    ensures Fitted(a, u, 8) && |a| == Models && AllCover(translate, Samples(a, u, 8, noises))
    ensures SortedByFitness(pop[..])
    ensures multiset(pop[..]) == multiset(old(pop[..BornStart(i, Elites)]) + Newborns(translate, Samples(a, u, 8, noises), score))
    ensures Scored(Newborns(translate, Samples(a, u, 8, noises), score), Width, score)
    ensures forall k :: 0 <= k < pop.Length ==> |pop[k].vector| == Width
    ensures i > 0 ==> forall p :: 0 <= p < Elites ==> pop[0].fitness <= old(pop[p]).fitness
  {
    Tiled();
    ghost var kept := pop[..BornStart(i, Elites)];
    translate, a, u := Generation(state, pop, i, Elites, Width, Models, 8, js, fit, noises, score);
    ghost var born := Newborns(translate, Samples(a, u, 8, noises), score);
    NewbornsScored(translate, Samples(a, u, 8, noises), score);
    assert forall k :: 0 <= k < |kept| ==> |kept[k].vector| == Width;
    WideJoin(kept, born, score);
    WidePermuted(pop[..], kept + born);
  }

  /** Full-width elites followed by scored newborns are full width. */
  lemma WideJoin(kept: seq<Individual>, born: seq<Individual>, score: seq<real> -> real)
    requires forall k :: 0 <= k < |kept| ==> |kept[k].vector| == Width
    requires Scored(born, Width, score)
    ensures forall k :: 0 <= k < |kept + born| ==> |(kept + born)[k].vector| == Width
  {
    forall k | 0 <= k < |kept + born| ensures |(kept + born)[k].vector| == Width {
      if k >= |kept| {
        assert (kept + born)[k] == born[k - |kept|];
      }
    }
  }

  /** A rearrangement of full-width individuals is full width. */
  lemma WidePermuted(s: seq<Individual>, t: seq<Individual>)
    requires multiset(s) == multiset(t)
    requires forall k :: 0 <= k < |t| ==> |t[k].vector| == Width
    ensures forall k :: 0 <= k < |s| ==> |s[k].vector| == Width
  {
    forall k | 0 <= k < |s| ensures |s[k].vector| == Width {
      assert s[k] in multiset(t);
    }
  }
}
