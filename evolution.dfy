/** The generation bookkeeping shared by the drivers (main.go `main`, bf.go `BF`,
    queens.go, factor.go, image.go): the coordinates of a state row are split
    into blocks by a shuffled map `translate`, each block's coordinates are
    gathered from every state row and handed to the Gaussian fitter, each new
    individual scatters one sample per block back into a full-width vector, the
    population is sorted by fitness and the best rows become the next state. */
module Evolution {
  import opened Common
  import opened Matrices
  import Vector

  // ---------------------------------------------------------------------
  // The partition map (main.go:1239-1245)
  // ---------------------------------------------------------------------

  /** `translate[i] = i % models` before the shuffle. */
  function Tiling(width: nat, models: nat): (t: seq<int>)
    requires models > 0
    ensures |t| == width
    ensures forall i :: 0 <= i < width ==> 0 <= t[i] < models
  {
    seq(width, i requires 0 <= i < width => i % models)
  }

  /** The indices `rand.Shuffle` swaps with: in step k it swaps position
      n-1-k with a position js[k] no greater than it, for n-1 steps. */
  predicate ShuffleChoices(n: nat, js: seq<nat>)
  {
    |js| == (if n == 0 then 0 else n - 1) && forall k :: 0 <= k < |js| ==> js[k] <= n - 1 - k
  }

  /** t with the entries at i and j exchanged. */
  function Swap<T>(t: seq<T>, i: nat, j: nat): (r: seq<T>)
    requires i < |t| && j < |t|
    ensures |r| == |t|
    ensures r[i] == t[j] && r[j] == t[i]
    ensures forall p :: 0 <= p < |t| && p != i && p != j ==> r[p] == t[p]
  {
    seq(|t|, p requires 0 <= p < |t| => if p == j then t[i] else if p == i then t[j] else t[p])
  }

  lemma SwapPermutes<T>(t: seq<T>, i: nat, j: nat)
    requires i < |t| && j < |t|
    ensures multiset(Swap(t, i, j)) == multiset(t)
  {
    assert Swap(t, i, j) == t[i := t[j]][j := t[i]];
  }

  /** The map after the first k swaps of the shuffle. */
  function Shuffled(t: seq<int>, js: seq<nat>, k: nat): (r: seq<int>)
    requires ShuffleChoices(|t|, js) && k <= |js|
    ensures |r| == |t|
  {
    if k == 0 then t else Swap(Shuffled(t, js, k - 1), |t| - k, js[k - 1])
  }

  /** Swapping only moves entries: the shuffled map holds the same block ids, as often. */
  lemma {:induction false} ShuffledPermutes(t: seq<int>, js: seq<nat>, k: nat)
    requires ShuffleChoices(|t|, js) && k <= |js|
    ensures multiset(Shuffled(t, js, k)) == multiset(t)
  {
    if k > 0 {
      var prev := Shuffled(t, js, k - 1);
      assert multiset(prev) == multiset(t) by {
        ShuffledPermutes(t, js, k - 1);
      }
      assert multiset(Shuffled(t, js, k)) == multiset(prev) by {
        SwapPermutes(prev, |t| - k, js[k - 1]);
      }
    }
  }

  /** Fill `translate` with `i % models`, then apply the shuffle's swaps in place. */
  method Partition(width: nat, models: nat, js: seq<nat>) returns (translate: seq<int>)
    requires models > 0 && ShuffleChoices(width, js)
    ensures translate == Shuffled(Tiling(width, models), js, |js|)
    ensures multiset(translate) == multiset(Tiling(width, models))
    ensures forall i :: 0 <= i < width ==> 0 <= translate[i] < models
  {
    var t := new int[width];
    for i := 0 to width
      invariant forall p :: 0 <= p < i ==> t[p] == p % models
    {
      t[i] := i % models;
    }
    ghost var tiling := Tiling(width, models);
    assert t[..] == tiling;
    Shuffle(t, js);
    translate := t[..];
    ShuffledPermutes(tiling, js, |js|);
    PermutedIds(translate, width, models);
  }

  /** `rng.Shuffle(width, swap)` with the swap of main.go:1243-1245. */
  method Shuffle(t: array<int>, js: seq<nat>)
    requires ShuffleChoices(t.Length, js)
    modifies t
    ensures t[..] == Shuffled(old(t[..]), js, |js|)
  {
    ghost var start := t[..];
    for k := 0 to |js|
      invariant t[..] == Shuffled(start, js, k)
    {
      Exchange(t, t.Length - 1 - k, js[k]);
    }
  }

  /** A rearrangement of the tiling still holds only block ids below models. */
  lemma PermutedIds(translate: seq<int>, width: nat, models: nat)
    requires models > 0 && multiset(translate) == multiset(Tiling(width, models))
    ensures forall i :: 0 <= i < |translate| ==> 0 <= translate[i] < models
  {
    var tiling := Tiling(width, models);
    forall i | 0 <= i < |translate| ensures 0 <= translate[i] < models {
      assert translate[i] in multiset(tiling);
      var k :| 0 <= k < |tiling| && tiling[k] == translate[i];
    }
  }

  /** In `Tiling(q * models, models)` every block id below `models` occurs q times. */
  lemma {:induction false} TilingCount(q: nat, models: nat, b: int)
    requires models > 0 && 0 <= b < models
    ensures multiset(Tiling(q * models, models))[b] == q
  {
    if q > 0 {
      var n := (q - 1) * models;
      var whole := Tiling(q * models, models);
      var front := Tiling(n, models);
      var block := seq(models, i requires 0 <= i < models => i);
      assert whole == front + block by {
        forall i | 0 <= i < q * models ensures whole[i] == (front + block)[i] {
          if i >= n {
            DivModUnique(i, models, q - 1, i - n);
          }
        }
      }
      TilingCount(q - 1, models, b);
      BlockCount(models, b);
    }
  }

  /** Each id below `models` occurs once in 0, 1, ..., models-1. */
  lemma {:induction false} BlockCount(models: nat, b: int)
    requires 0 <= b < models
    ensures multiset(seq(models, i requires 0 <= i < models => i))[b] == 1
  {
    var block := seq(models, i requires 0 <= i < models => i);
    if models - 1 == b {
      var front := seq(b, i requires 0 <= i < b => i);
      assert block == front + [b];
      assert b !in multiset(front);
    } else {
      var front := seq(models - 1, i requires 0 <= i < models - 1 => i);
      assert block == front + [models - 1];
      BlockCount(models - 1, b);
    }
  }

  /** When models divides width, every block of the shuffled map has exactly
      width / models coordinates. */
  lemma BlockSizes(width: nat, models: nat, translate: seq<int>, b: int)
    requires models > 0 && width % models == 0 && 0 <= b < models
    requires multiset(translate) == multiset(Tiling(width, models))
    ensures multiset(translate)[b] == width / models
  {
    DivModUnique(width, models, width / models, 0);
    TilingCount(width / models, models, b);
  }

  // ---------------------------------------------------------------------
  // Gather (main.go:1248-1258)
  // ---------------------------------------------------------------------

  /** The entries of row at the positions iv with translate[iv] == b, in increasing iv. */
  function Project(row: seq<real>, translate: seq<int>, b: int): (s: seq<real>)
    requires |translate| <= |row|
    ensures |s| == multiset(translate)[b]
  {
    if |translate| == 0 then []
    else
      var k := |translate| - 1;
      assert translate == translate[..k] + [translate[k]];
      Project(row, translate[..k], b) + (if translate[k] == b then [row[k]] else [])
  }

  /** How many earlier coordinates share the block of coordinate iv: its index in that block. */
  function Rank(translate: seq<int>, iv: nat): nat
    requires iv < |translate|
  {
    multiset(translate[..iv])[translate[iv]]
  }

  /** Extending a prefix by one coordinate counts that coordinate's block once more. */
  lemma PrefixCount(translate: seq<int>, iv: nat)
    requires iv < |translate|
    ensures multiset(translate[..iv + 1]) == multiset(translate[..iv]) + multiset{translate[iv]}
  {
    assert translate[..iv + 1] == translate[..iv] + [translate[iv]];
  }

  /** The rank of a coordinate is below the size of its block. */
  lemma RankBound(translate: seq<int>, iv: nat)
    requires iv < |translate|
    ensures Rank(translate, iv) < multiset(translate)[translate[iv]]
  {
    assert translate == translate[..iv] + [translate[iv]] + translate[iv + 1..];
  }

  /** Coordinate iv of the row is entry Rank(iv) of its block's projection. */
  lemma {:induction false} ProjectAt(row: seq<real>, translate: seq<int>, iv: nat)
    requires |translate| <= |row| && iv < |translate|
    ensures Rank(translate, iv) < |Project(row, translate, translate[iv])|
    ensures Project(row, translate, translate[iv])[Rank(translate, iv)] == row[iv]
  {
    RankBound(translate, iv);
    var k := |translate| - 1;
    var b := translate[iv];
    assert translate == translate[..k] + [translate[k]];
    if iv < k {
      assert translate[..k][..iv] == translate[..iv];
      ProjectAt(row, translate[..k], iv);
    }
  }

  /** One task of the fitter fan-out: for every state row, the coordinates of block b. */
  method Gather(state: seq<seq<real>>, translate: seq<int>, b: int) returns (s: seq<seq<real>>)
    requires forall iii :: 0 <= iii < |state| ==> |translate| <= |state[iii]|
    ensures |s| == |state|
    ensures forall iii :: 0 <= iii < |state| ==> s[iii] == Project(state[iii], translate, b)
  {
    s := seq(|state|, _ => []);
    for iii := 0 to |state|
      invariant |s| == |state|
      invariant forall p :: 0 <= p < iii ==> s[p] == Project(state[p], translate, b)
    {
      var row := [];
      for iv := 0 to |translate|
        invariant row == Project(state[iii], translate[..iv], b)
      {
        assert translate[..iv + 1][..iv] == translate[..iv];
        if translate[iv] == b {
          row := row + [state[iii][iv]];
        }
      }
      assert translate[..|translate|] == translate;
      s := s[iii := row];
    }
  }

  // ---------------------------------------------------------------------
  // Scatter (main.go:1287-1303)
  // ---------------------------------------------------------------------

  /** The sample of a block is long enough for every coordinate of that block. */
  predicate Covers(translate: seq<int>, vecs: seq<seq<real>>)
  {
    (forall iv :: 0 <= iv < |translate| ==> 0 <= translate[iv] < |vecs|) &&
    forall b :: 0 <= b < |vecs| ==> multiset(translate)[b] <= |vecs[b]|
  }

  /** The full-width vector in which coordinate iv takes the next unused value of
      its block's sample: entry Rank(iv) of sample translate[iv]. */
  function Scatter(translate: seq<int>, vecs: seq<seq<real>>): (vector: seq<real>)
    requires Covers(translate, vecs)
    ensures |vector| == |translate|
  {
    RanksCovered(translate, vecs);
    seq(|translate|, iv requires 0 <= iv < |translate| => vecs[translate[iv]][Rank(translate, iv)])
  }

  /** Coordinate iv of the scattered vector is entry Rank(iv) of its block's sample,
      so every coordinate is written exactly once, from its own block. */
  lemma ScatterAt(translate: seq<int>, vecs: seq<seq<real>>, iv: nat)
    requires Covers(translate, vecs) && iv < |translate|
    ensures Rank(translate, iv) < |vecs[translate[iv]]|
    ensures Scatter(translate, vecs)[iv] == vecs[translate[iv]][Rank(translate, iv)]
  {
    RankBound(translate, iv);
  }

  /** Under Covers, every coordinate's rank indexes its block's sample. */
  lemma RanksCovered(translate: seq<int>, vecs: seq<seq<real>>)
    requires Covers(translate, vecs)
    ensures forall iv :: 0 <= iv < |translate| ==> Rank(translate, iv) < |vecs[translate[iv]]|
  {
    forall iv | 0 <= iv < |translate| ensures Rank(translate, iv) < |vecs[translate[iv]]| {
      RankBound(translate, iv);
    }
  }

  /** Gathering a row block by block and scattering the blocks back gives the row. */
  lemma ScatterGather(row: seq<real>, translate: seq<int>, vecs: seq<seq<real>>)
    requires |translate| == |row|
    requires forall iv :: 0 <= iv < |translate| ==> 0 <= translate[iv] < |vecs|
    requires forall b :: 0 <= b < |vecs| ==> vecs[b] == Project(row, translate, b)
    ensures Covers(translate, vecs)
    ensures Scatter(translate, vecs) == row
  {
    var v := Scatter(translate, vecs);
    forall iv | 0 <= iv < |translate| ensures v[iv] == row[iv] {
      ProjectAt(row, translate, iv);
      ScatterAt(translate, vecs, iv);
    }
  }

  /** d after every block below `blocks` has been scattered into it. */
  function Filled(d: seq<real>, translate: seq<int>, vecs: seq<seq<real>>, blocks: int): (r: seq<real>)
    requires Covers(translate, vecs) && |d| == |translate|
    ensures |r| == |d|
  {
    RanksCovered(translate, vecs);
    seq(|d|, p requires 0 <= p < |d| => if translate[p] < blocks then vecs[translate[p]][Rank(translate, p)] else d[p])
  }

  /** The writes of the learn task into `vector.Data`: block by block, each
      coordinate of the block receives the next value of the block's sample,
      counted by `index`. */
  method Sample(translate: seq<int>, vecs: seq<seq<real>>) returns (vector: seq<real>)
    requires Covers(translate, vecs)
    ensures vector == Scatter(translate, vecs)
  {
    var width := |translate|;
    var data := new real[width](_ => 0.0);
    ghost var start := data[..];
    for iii := 0 to |vecs|
      invariant data[..] == Filled(start, translate, vecs, iii)
    {
      ghost var before := data[..];
      SampleBlock(data, translate, vecs, iii);
      assert data[..] == Filled(start, translate, vecs, iii + 1) by {
        forall p | 0 <= p < width ensures data[p] == Filled(start, translate, vecs, iii + 1)[p] {
          assert data[p] == Placed(before, translate, vecs, iii, width)[p];
        }
      }
    }
    vector := data[..];
    assert vector == Scatter(translate, vecs) by {
      forall p | 0 <= p < width ensures vector[p] == Scatter(translate, vecs)[p] {
        ScatterAt(translate, vecs, p);
      }
    }
  }

  /** d after the first n coordinates of block b took their values from vecs[b]. */
  function Placed(d: seq<real>, translate: seq<int>, vecs: seq<seq<real>>, b: int, n: nat): (r: seq<real>)
    requires Covers(translate, vecs) && |d| == |translate| && 0 <= b < |vecs|
    ensures |r| == |d|
  {
    RanksCovered(translate, vecs);
    seq(|d|, p requires 0 <= p < |d| => if p < n && translate[p] == b then vecs[b][Rank(translate, p)] else d[p])
  }

  /** The inner loop of one learn task: block b's coordinates, in increasing
      order, take the successive values of vecs[b]; no other entry changes. */
  method SampleBlock(data: array<real>, translate: seq<int>, vecs: seq<seq<real>>, b: int)
    requires Covers(translate, vecs) && data.Length == |translate| && 0 <= b < |vecs|
    modifies data
    ensures data[..] == Placed(old(data[..]), translate, vecs, b, data.Length)
  {
    ghost var start := data[..];
    var index := 0;
    for iv := 0 to data.Length
      invariant index == multiset(translate[..iv])[b]
      invariant data[..] == Placed(start, translate, vecs, b, iv)
    {
      PrefixCount(translate, iv);
      if translate[iv] == b {
        RankBound(translate, iv);
        data[iv] := vecs[b][index];
        index := index + 1;
      }
    }
  }

  // ---------------------------------------------------------------------
  // A new individual (main.go:1287-1305)
  // ---------------------------------------------------------------------

  /** What the fitter returned for one block: a size x size A and a size x 1 u. */
  predicate FitShape(a: Matrix, u: Matrix, size: nat)
  {
    a.cols == size && a.rows == size && WellFormed(a) && u.cols == size && u.rows == 1 && WellFormed(u)
  }

  /** `a.MulT(g).Add(u)`: the sample A*g + u of one block from the noise g. */
  function Draw(a: Matrix, u: Matrix, size: nat, g: seq<real>): (vec: seq<real>)
    requires size > 0 && FitShape(a, u, size) && |g| == size
    ensures |vec| == size
    ensures forall c :: 0 <= c < a.rows ==> vec[c] == Vector.DotSum(Row(a, c), g) + u.data[c]
  {
    var n := Matrix(a.cols, 1, g);
    MulTVector(a, n);
    var p := MulT(a, n).value;
    assert |u.data| == a.cols;
    assert |p.data| == |u.data| && |p.data| % |u.data| == 0;
    var o := Add(p, u);
    ModSmall(|u.data|);
    o.value.data
  }

  /** The chosen blocks' samples for one learn task: sample b is A_b g_b + u_b
      for the block's noise vector g_b. */
  function Draws(a: seq<Matrix>, u: seq<Matrix>, size: nat, noise: seq<seq<real>>): (vecs: seq<seq<real>>)
    requires Fitted(a, u, size)
    requires Noise(noise, |a|, size)
    ensures |vecs| == |a|
    ensures forall b :: 0 <= b < |a| ==> |vecs[b]| == size
  {
    seq(|a|, b requires 0 <= b < |a| => Draw(a[b], u[b], size, noise[b]))
  }

  /** The fitter's output for every block has the shape of a size-dimensional Gaussian. */
  predicate Fitted(a: seq<Matrix>, u: seq<Matrix>, size: nat)
  {
    size > 0 && |a| == |u| && forall b :: 0 <= b < |a| ==> FitShape(a[b], u[b], size)
  }

  /** A noise draw for every learn task. */
  predicate AllNoise(noises: seq<seq<seq<real>>>, models: nat, size: nat)
  {
    forall k :: 0 <= k < |noises| ==> Noise(noises[k], models, size)
  }

  /** One noise vector of length size per block. */
  predicate Noise(noise: seq<seq<real>>, models: nat, size: nat)
  {
    |noise| == models && forall b :: 0 <= b < models ==> |noise[b]| == size
  }

  /** The map sends every coordinate to a block below models, and no block has more than size coordinates. */
  predicate Blocks(translate: seq<int>, models: nat, size: nat)
  {
    (forall iv :: 0 <= iv < |translate| ==> 0 <= translate[iv] < models) &&
    forall b :: 0 <= b < models ==> multiset(translate)[b] <= size
  }

  /** Each block's sample is long enough for the scatter. */
  lemma DrawsCover(translate: seq<int>, a: seq<Matrix>, u: seq<Matrix>, size: nat, noise: seq<seq<real>>)
    requires Fitted(a, u, size)
    requires Noise(noise, |a|, size) && Blocks(translate, |a|, size)
    ensures Covers(translate, Draws(a, u, size, noise))
  {
  }

  // ---------------------------------------------------------------------
  // The population (main.go:1283-1305, 1352-1354; bf.go:229-232, 274-279)
  // ---------------------------------------------------------------------

  /** One member of `pop`: its full-width vector and its fitness (lower is better). */
  datatype Individual = Individual(vector: seq<real>, fitness: real)

  /** What one learn task stores: the scattered sample and the driver's score of it. */
  function Newborn(translate: seq<int>, vecs: seq<seq<real>>, score: seq<real> -> real): (n: Individual)
    requires Covers(translate, vecs)
    ensures |n.vector| == |translate| && n.fitness == score(n.vector)
  {
    var vector := Scatter(translate, vecs);
    Individual(vector, score(vector))
  }

  /** `born := pop` in generation 0 and `pop[cut:]` afterwards. */
  function BornStart(generation: nat, cut: nat): (start: nat)
    ensures generation == 0 ==> start == 0
    ensures generation > 0 ==> start == cut
  {
    if generation > 0 then cut else 0
  }

  /** Ascending by fitness, as `sort.Slice` with `pop[i].Fitness < pop[j].Fitness` leaves it. */
  ghost predicate SortedByFitness(s: seq<Individual>)
  {
    forall i, j :: 0 <= i < j < |s| ==> s[i].fitness <= s[j].fitness
  }

  /** `sort.Slice(pop, ...)`: an in-place insertion sort by fitness. The ties may come out
      in any order, as they may from the unstable sort of the source. */
  method SortByFitness(pop: array<Individual>)
    modifies pop
    ensures SortedByFitness(pop[..])
    ensures multiset(pop[..]) == multiset(old(pop[..]))
  {
    for i := 0 to pop.Length
      invariant SortedByFitness(pop[..i])
      invariant multiset(pop[..]) == multiset(old(pop[..]))
    {
      Insert(pop, i);
    }
    assert pop[..pop.Length] == pop[..];
  }

  /** One pass of the insertion sort: pop[i] sinks into the sorted prefix pop[..i]. */
  method Insert(pop: array<Individual>, i: nat)
    requires i < pop.Length && SortedByFitness(pop[..i])
    modifies pop
    ensures SortedByFitness(pop[..i + 1])
    ensures multiset(pop[..]) == multiset(old(pop[..]))
  {
    var j := i;
    while j > 0 && pop[j - 1].fitness > pop[j].fitness
      invariant 0 <= j <= i
      invariant forall p, q :: 0 <= p < q <= i && p != j && q != j ==> pop[p].fitness <= pop[q].fitness
      invariant forall q :: j < q <= i ==> pop[j].fitness < pop[q].fitness
      invariant multiset(pop[..]) == multiset(old(pop[..]))
    {
      Exchange(pop, j - 1, j);
      j := j - 1;
    }
  }

  /** `a[i], a[j] = a[j], a[i]`, the swap both the shuffle and the sort perform. */
  method Exchange<T>(a: array<T>, i: nat, j: nat)
    requires i < a.Length && j < a.Length
    modifies a
    ensures a[..] == Swap(old(a[..]), i, j)
    ensures multiset(a[..]) == multiset(old(a[..]))
  {
    ghost var before := a[..];
    a[i], a[j] := a[j], a[i];
    assert a[..] == Swap(before, i, j);
    SwapPermutes(before, i, j);
  }

  /** The head of a sorted population is no worse than any individual that was kept:
      after generation 0 the elites pop[..start] survive into the sort, so the
      best fitness never increases from one generation to the next. */
  lemma {:induction false} HeadNeverIncreases(prev: seq<Individual>, start: nat, born: seq<Individual>, next: seq<Individual>)
    requires 0 < start <= |prev|
    requires SortedByFitness(next) && multiset(next) == multiset(prev[..start] + born)
    ensures |next| > 0
    ensures forall p :: 0 <= p < start ==> next[0].fitness <= prev[p].fitness
  {
    var kept := prev[..start] + born;
    forall p | 0 <= p < start ensures |next| > 0 && next[0].fitness <= prev[p].fitness {
      assert kept[p] == prev[p];
      assert prev[p] in multiset(kept);
      assert prev[p] in multiset(next);
      var k :| 0 <= k < |next| && next[k] == prev[p];
      if k > 0 {
        assert next[0].fitness <= next[k].fitness;
      }
    }
    assert kept[0] in multiset(next);
  }

  // ---------------------------------------------------------------------
  // The fan-out of the tasks (main.go:1262-1277, 1306-1321; iris.go:76-104)
  // ---------------------------------------------------------------------

  /** The dispatch counters of every fan-out: launch while fewer than cpus tasks
      are in flight, then wait for one and launch the next, then wait for the
      rest. The tasks themselves write disjoint slots, so running them in index
      order gives the same result; this method keeps only the counting.
      Every task is launched and merged once, and at most cpus are in flight. */
  method Dispatch(tasks: nat, cpus: nat) returns (launched: nat, merged: nat, peak: nat)
    requires cpus > 0
    ensures launched == tasks && merged == tasks
    ensures peak <= cpus && (peak == tasks || peak == cpus)
  {
    var ii, flight := 0, 0;
    launched, merged, peak := 0, 0, 0;
    while ii < tasks && flight < cpus
      invariant ii == launched <= tasks && merged == 0
      invariant launched - merged == flight == peak <= cpus
    {
      launched, flight, ii := launched + 1, flight + 1, ii + 1;
      peak := flight;
    }
    while ii < tasks
      invariant ii == launched <= tasks
      invariant launched - merged == flight <= peak <= cpus
      invariant peak == tasks || peak == cpus
      invariant ii < tasks ==> flight == cpus
    {
      merged, flight := merged + 1, flight - 1;
      launched, flight, ii := launched + 1, flight + 1, ii + 1;
    }
    var waiting := flight;
    for k := 0 to waiting
      invariant merged + waiting - k == launched
    {
      merged := merged + 1;
    }
  }

  /** The rows handed to the fitter for block b: every state row's projection. */
  function Gathered(state: seq<seq<real>>, translate: seq<int>, b: int): (s: seq<seq<real>>)
    requires forall r :: 0 <= r < |state| ==> |translate| <= |state[r]|
    ensures |s| == |state|
  {
    seq(|state|, r requires 0 <= r < |state| => Project(state[r], translate, b))
  }

  /** The `process` tasks: task ii gathers block ii and stores the fitter's (A, u) in slot ii. */
  method FitBlocks(state: seq<seq<real>>, translate: seq<int>, models: nat, fit: seq<seq<real>> -> (Matrix, Matrix))
    returns (a: seq<Matrix>, u: seq<Matrix>)
    requires forall r :: 0 <= r < |state| ==> |translate| <= |state[r]|
    ensures |a| == models && |u| == models
    ensures forall b :: 0 <= b < models ==> a[b] == fit(Gathered(state, translate, b)).0
    ensures forall b :: 0 <= b < models ==> u[b] == fit(Gathered(state, translate, b)).1
  {
    a := seq(models, _ => Matrix(0, 0, []));
    u := seq(models, _ => Matrix(0, 0, []));
    for ii := 0 to models
      invariant |a| == models && |u| == models
      invariant forall b :: 0 <= b < ii ==> a[b] == fit(Gathered(state, translate, b)).0
      invariant forall b :: 0 <= b < ii ==> u[b] == fit(Gathered(state, translate, b)).1
    {
      var s := Gather(state, translate, ii);
      assert s == Gathered(state, translate, ii);
      var au := fit(s);
      a, u := a[ii := au.0], u[ii := au.1];
    }
  }

  /** Every learn task's block samples are long enough for the scatter. */
  predicate AllCover(translate: seq<int>, samples: seq<seq<seq<real>>>)
  {
    forall k :: 0 <= k < |samples| ==> Covers(translate, samples[k])
  }

  /** The block samples of every learn task, one noise draw each. */
  function Samples(a: seq<Matrix>, u: seq<Matrix>, size: nat, noises: seq<seq<seq<real>>>): (samples: seq<seq<seq<real>>>)
    requires Fitted(a, u, size) && AllNoise(noises, |a|, size)
    ensures |samples| == |noises|
  {
    seq(|noises|, k requires 0 <= k < |noises| => Draws(a, u, size, noises[k]))
  }

  /** With blocks no larger than the fitted dimension, every task's samples cover the map. */
  lemma SamplesCover(translate: seq<int>, a: seq<Matrix>, u: seq<Matrix>, size: nat, noises: seq<seq<seq<real>>>)
    requires Fitted(a, u, size) && AllNoise(noises, |a|, size) && Blocks(translate, |a|, size)
    ensures AllCover(translate, Samples(a, u, size, noises))
  {
    var samples := Samples(a, u, size, noises);
    forall k | 0 <= k < |noises| ensures Covers(translate, samples[k]) {
      DrawsCover(translate, a, u, size, noises[k]);
    }
  }

  /** The individuals the learn tasks create, one per task's block samples. */
  function Newborns(translate: seq<int>, samples: seq<seq<seq<real>>>, score: seq<real> -> real): (born: seq<Individual>)
    requires AllCover(translate, samples)
    ensures |born| == |samples|
    ensures forall k :: 0 <= k < |samples| ==> |born[k].vector| == |translate|
  {
    if |samples| == 0 then []
    else
      var k := |samples| - 1;
      Newborns(translate, samples[..k], score) + [Newborn(translate, samples[k], score)]
  }

  /** Entry k of the newborns is the individual of the k-th task: its scattered
      samples and their score. */
  lemma {:induction false} NewbornsAt(translate: seq<int>, samples: seq<seq<seq<real>>>, score: seq<real> -> real, k: nat)
    requires AllCover(translate, samples) && k < |samples|
    ensures Covers(translate, samples[k])
    ensures Newborns(translate, samples, score)[k] == Newborn(translate, samples[k], score)
  {
    var last := |samples| - 1;
    var prefix := samples[..last];
    var front := Newborns(translate, prefix, score);
    var newest := Newborn(translate, samples[last], score);
    assert Newborns(translate, samples, score) == front + [newest];
    if k < last {
      assert prefix[k] == samples[k];
      NewbornsAt(translate, prefix, score, k);
      assert (front + [newest])[k] == front[k];
    } else {
      assert (front + [newest])[k] == newest;
    }
  }

  /** The `learn` tasks: task ii draws one sample per block from its noise,
      scatters them into a full-width vector, scores it and stores it in
      `born[ii]`, which is `pop[start + ii]`. The individuals before start stay. */
  method Learn(pop: array<Individual>, start: nat, translate: seq<int>, a: seq<Matrix>, u: seq<Matrix>,
               size: nat, noises: seq<seq<seq<real>>>, score: seq<real> -> real)
    requires start + |noises| == pop.Length
    requires Fitted(a, u, size) && AllNoise(noises, |a|, size) && Blocks(translate, |a|, size)
    modifies pop
    ensures AllCover(translate, Samples(a, u, size, noises))
    ensures pop[..start] == old(pop[..start])
    ensures pop[start..] == Newborns(translate, Samples(a, u, size, noises), score)
  {
    ghost var samples := Samples(a, u, size, noises);
    SamplesCover(translate, a, u, size, noises);
    ghost var born := Newborns(translate, samples, score);
    for ii := 0 to |noises|
      invariant forall k :: 0 <= k < start ==> pop[k] == old(pop[k])
      invariant forall k :: start <= k < start + ii ==> pop[k] == born[k - start]
    {
      var n := LearnOne(translate, a, u, size, noises, score, ii);
      pop[start + ii] := n;
    }
    assert pop[..start] == old(pop[..start]);
    assert pop[start..] == born;
  }

  /** One learn task: the new individual for the k-th noise draw. */
  method LearnOne(translate: seq<int>, a: seq<Matrix>, u: seq<Matrix>, size: nat,
                  noises: seq<seq<seq<real>>>, score: seq<real> -> real, k: nat) returns (n: Individual)
    requires Fitted(a, u, size) && AllNoise(noises, |a|, size) && Blocks(translate, |a|, size)
    requires k < |noises|
    ensures AllCover(translate, Samples(a, u, size, noises))
    ensures n == Newborns(translate, Samples(a, u, size, noises), score)[k]
  {
    ghost var samples := Samples(a, u, size, noises);
    SamplesCover(translate, a, u, size, noises);
    var vecs := Draws(a, u, size, noises[k]);
    assert vecs == samples[k];
    NewbornsAt(translate, samples, score, k);
    var vector := Sample(translate, vecs);
    n := Individual(vector, score(vector));
  }

  /** `copy(state[ii], pop[ii].Number.Data)` for every state row. */
  method CopyState(state: array<seq<real>>, pop: array<Individual>)
    requires state.Length <= pop.Length
    modifies state
    ensures forall k :: 0 <= k < state.Length ==> state[k] == CopyInto(old(state[k]), pop[k].vector)
  {
    for ii := 0 to state.Length
      invariant forall k :: 0 <= k < ii ==> state[k] == CopyInto(old(state[k]), pop[k].vector)
      invariant forall k :: ii <= k < state.Length ==> state[k] == old(state[k])
    {
      state[ii] := CopyInto(state[ii], pop[ii].vector);
    }
  }

  /** Rows of one width copied from vectors of the same width become those vectors. */
  lemma CopyWhole(dst: seq<real>, src: seq<real>)
    requires |dst| == |src|
    ensures CopyInto(dst, src) == src
  {
  }

  // ---------------------------------------------------------------------
  // One generation (main.go:1238-1354, bf.go:184-276)
  // ---------------------------------------------------------------------

  /** The fitter always returns a size-dimensional Gaussian. */
  ghost predicate Shaped(fit: seq<seq<real>> -> (Matrix, Matrix), size: nat)
  {
    forall s :: FitShape(fit(s).0, fit(s).1, size)
  }

  /** The body of the generation loop up to the sort: shuffle the partition map,
      fit every block, let the learn tasks refill `pop[start..]` and sort `pop`.
      When models divides width into blocks of the fitted size, the population
      after the sort is the kept individuals plus the newborns, and from
      generation 1 on the new head is no worse than any elite. */
  method Generation(state: seq<seq<real>>, pop: array<Individual>, generation: nat, cut: nat,
                    width: nat, models: nat, size: nat, js: seq<nat>,
                    fit: seq<seq<real>> -> (Matrix, Matrix), noises: seq<seq<seq<real>>>, score: seq<real> -> real)
    returns (translate: seq<int>, a: seq<Matrix>, u: seq<Matrix>)
    requires models > 0 && size > 0 && width == models * size
    requires ShuffleChoices(width, js)
    requires forall r :: 0 <= r < |state| ==> |state[r]| == width
    requires Shaped(fit, size) && AllNoise(noises, models, size)
    requires BornStart(generation, cut) + |noises| == pop.Length
    modifies pop
    ensures translate == Shuffled(Tiling(width, models), js, |js|)
    ensures Blocks(translate, models, size) && forall b :: 0 <= b < models ==> multiset(translate)[b] == size
    ensures |a| == models && forall b :: 0 <= b < models ==> a[b] == fit(Gathered(state, translate, b)).0
    ensures |u| == models && forall b :: 0 <= b < models ==> u[b] == fit(Gathered(state, translate, b)).1
    ensures Fitted(a, u, size) && AllCover(translate, Samples(a, u, size, noises))
    ensures SortedByFitness(pop[..])
    ensures multiset(pop[..]) == multiset(old(pop[..BornStart(generation, cut)]) + Newborns(translate, Samples(a, u, size, noises), score))
    ensures generation > 0 ==> forall p :: 0 <= p < cut ==> pop[0].fitness <= old(pop[p]).fitness
    ensures Scored(old(pop[..BornStart(generation, cut)]), width, score) ==> Scored(pop[..], width, score)
  {
    translate := Partition(width, models, js);
    BlocksExact(width, models, size, translate);
    a, u := FitBlocks(state, translate, models, fit);
    FittedByShape(state, translate, models, size, fit, a, u);
    Replace(pop, BornStart(generation, cut), translate, a, u, size, noises, score);
  }

  /** The learn tasks refill `pop[start..]`, then `pop` is sorted. When start > 0
      the elites pop[..start] take part in the sort, so the new head is no worse
      than any of them. */
  method Replace(pop: array<Individual>, start: nat, translate: seq<int>, a: seq<Matrix>, u: seq<Matrix>,
                 size: nat, noises: seq<seq<seq<real>>>, score: seq<real> -> real)
    requires start + |noises| == pop.Length
    requires Fitted(a, u, size) && AllNoise(noises, |a|, size) && Blocks(translate, |a|, size)
    modifies pop
    ensures AllCover(translate, Samples(a, u, size, noises))
    ensures SortedByFitness(pop[..])
    ensures multiset(pop[..]) == multiset(old(pop[..start]) + Newborns(translate, Samples(a, u, size, noises), score))
    ensures start > 0 ==> forall p :: 0 <= p < start ==> pop[0].fitness <= old(pop[p]).fitness
    ensures Scored(old(pop[..start]), |translate|, score) ==> Scored(pop[..], |translate|, score)
  {
    ghost var before := pop[..];
    Learn(pop, start, translate, a, u, size, noises, score);
    ghost var learned := pop[..];
    ghost var born := Newborns(translate, Samples(a, u, size, noises), score);
    assert learned == before[..start] + born by {
      assert learned == learned[..start] + learned[start..];
    }
    SortByFitness(pop);
    if start > 0 {
      HeadNeverIncreases(before, start, born, pop[..]);
    }
    if Scored(before[..start], |translate|, score) {
      NewbornsScored(translate, Samples(a, u, size, noises), score);
      ScoredJoin(before[..start], born, |translate|, score);
      ScoredPermuted(pop[..], learned, |translate|, score);
    }
  }

  /** Scored individuals followed by scored individuals. */
  lemma ScoredJoin(s: seq<Individual>, t: seq<Individual>, n: nat, score: seq<real> -> real)
    requires Scored(s, n, score) && Scored(t, n, score)
    ensures Scored(s + t, n, score)
  {
    forall k | 0 <= k < |s + t|
      ensures |(s + t)[k].vector| == n && (s + t)[k].fitness == score((s + t)[k].vector)
    {
      if k >= |s| {
        assert (s + t)[k] == t[k - |s|];
      }
    }
  }

  /** Every individual has a vector of length n and the score of that vector as its fitness. */
  predicate Scored(s: seq<Individual>, n: nat, score: seq<real> -> real)
  {
    forall k :: 0 <= k < |s| ==> |s[k].vector| == n && s[k].fitness == score(s[k].vector)
  }

  /** The learn tasks score what they store. */
  lemma NewbornsScored(translate: seq<int>, samples: seq<seq<seq<real>>>, score: seq<real> -> real)
    requires AllCover(translate, samples)
    ensures Scored(Newborns(translate, samples, score), |translate|, score)
  {
    forall k | 0 <= k < |samples|
      ensures Newborns(translate, samples, score)[k] == Newborn(translate, samples[k], score)
    {
      NewbornsAt(translate, samples, score, k);
    }
  }

  /** A rearrangement of scored individuals is scored. */
  lemma ScoredPermuted(s: seq<Individual>, t: seq<Individual>, n: nat, score: seq<real> -> real)
    requires multiset(s) == multiset(t) && Scored(t, n, score)
    ensures Scored(s, n, score)
  {
    forall k | 0 <= k < |s| ensures |s[k].vector| == n && s[k].fitness == score(s[k].vector) {
      assert s[k] in multiset(t);
    }
  }

  /** What the drivers use of a generation: the population ends sorted, scored
      members stay scored, and after generation 0 the head is no worse than any
      of the `cut` elites. */
  method Breed(state: seq<seq<real>>, pop: array<Individual>, generation: nat, cut: nat,
               width: nat, models: nat, size: nat, js: seq<nat>,
               fit: seq<seq<real>> -> (Matrix, Matrix), noises: seq<seq<seq<real>>>, score: seq<real> -> real)
    requires models > 0 && size > 0 && width == models * size
    requires ShuffleChoices(width, js)
    requires forall r :: 0 <= r < |state| ==> |state[r]| == width
    requires Shaped(fit, size) && AllNoise(noises, models, size)
    requires BornStart(generation, cut) + |noises| == pop.Length
    requires generation > 0 ==> cut <= pop.Length && Scored(pop[..cut], width, score)
    modifies pop
    ensures SortedByFitness(pop[..]) && Scored(pop[..], width, score)
    ensures generation > 0 ==> forall p :: 0 <= p < cut ==> pop[0].fitness <= old(pop[p]).fitness
  {
    var translate, a, u := Generation(state, pop, generation, cut, width, models, size, js, fit, noises, score);
  }

  /** The map of a shuffled tiling with models * size coordinates has blocks of exactly size. */
  lemma BlocksExact(width: nat, models: nat, size: nat, translate: seq<int>)
    requires models > 0 && width == models * size
    requires multiset(translate) == multiset(Tiling(width, models))
    requires forall i :: 0 <= i < |translate| ==> 0 <= translate[i] < models
    ensures forall b :: 0 <= b < models ==> multiset(translate)[b] == size
    ensures Blocks(translate, models, size)
  {
    DivModUnique(width, models, size, 0);
    forall b | 0 <= b < models ensures multiset(translate)[b] == size {
      BlockSizes(width, models, translate, b);
    }
  }

  /** The (A, u) pairs of the process tasks have the fitted shape. */
  lemma FittedByShape(state: seq<seq<real>>, translate: seq<int>, models: nat, size: nat,
                      fit: seq<seq<real>> -> (Matrix, Matrix), a: seq<Matrix>, u: seq<Matrix>)
    requires forall r :: 0 <= r < |state| ==> |translate| <= |state[r]|
    requires size > 0 && Shaped(fit, size)
    requires |a| == models && forall b :: 0 <= b < models ==> a[b] == fit(Gathered(state, translate, b)).0
    requires |u| == models && forall b :: 0 <= b < models ==> u[b] == fit(Gathered(state, translate, b)).1
    ensures Fitted(a, u, size)
  {
    forall b | 0 <= b < models ensures FitShape(a[b], u[b], size) {
      var s := Gathered(state, translate, b);
      assert FitShape(fit(s).0, fit(s).1, size);
    }
  }

  // ---------------------------------------------------------------------
  // The elitist loop (bf.go:187-295, queens.go:148-253)
  // ---------------------------------------------------------------------

  /** One elitist generation: the shared generation keeping `pop[:cut]` after
      generation 0, then `copy(state[ii], pop[ii].Number.Data)` for the cut
      state rows. Every state row becomes its individual's vector. */
  method ElitistGeneration(state: array<seq<real>>, pop: array<Individual>, i: nat, width: nat, models: nat,
                           size: nat, js: seq<nat>, fit: seq<seq<real>> -> (Matrix, Matrix),
                           noises: seq<seq<seq<real>>>, score: seq<real> -> real)
    requires models > 0 && size > 0 && width == models * size
    requires 0 < state.Length <= pop.Length
    requires forall r :: 0 <= r < state.Length ==> |state[r]| == width
    requires ShuffleChoices(width, js) && Shaped(fit, size) && AllNoise(noises, models, size)
    requires |noises| == pop.Length - BornStart(i, state.Length)
    requires i > 0 ==> Scored(pop[..], width, score)
    modifies state, pop
    ensures SortedByFitness(pop[..]) && Scored(pop[..], width, score)
    ensures i > 0 ==> forall p :: 0 <= p < state.Length ==> pop[0].fitness <= old(pop[p]).fitness
    ensures forall k :: 0 <= k < state.Length ==> state[k] == pop[k].vector
  {
    var cut := state.Length;
    assert i > 0 ==> Scored(pop[..cut], width, score) by {
      if i > 0 {
        assert forall k :: 0 <= k < cut ==> pop[..cut][k] == pop[k];
      }
    }
    Breed(state[..], pop, i, cut, width, models, size, js, fit, noises, score);
    ghost var rows := state[..];
    CopyState(state, pop);
    forall k | 0 <= k < cut ensures state[k] == pop[k].vector {
      CopyWhole(rows[k], pop[k].vector);
    }
  }

  /** The elitist loop: at most `iterations` generations, stopping after the
      first one whose head has fitness 0. `heads` records the head's fitness
      after each generation: it never increases, it is 0 only at the last
      generation, and the loop runs them all unless it ends on a 0. Every
      individual's fitness is the score of its vector, and each state row is
      its individual's vector. */
  method ElitistRun(state: array<seq<real>>, pop: array<Individual>, width: nat, models: nat, size: nat,
                    iterations: nat, jss: seq<seq<nat>>, fits: seq<seq<seq<real>> -> (Matrix, Matrix)>,
                    noises: seq<seq<seq<seq<real>>>>, score: seq<real> -> real)
    returns (heads: seq<real>)
    requires models > 0 && size > 0 && width == models * size
    requires 0 < state.Length <= pop.Length
    requires forall r :: 0 <= r < state.Length ==> |state[r]| == width
    requires |jss| == |fits| == |noises| == iterations
    requires forall i :: 0 <= i < iterations ==> ShuffleChoices(width, jss[i])
    requires forall i :: 0 <= i < iterations ==> Shaped(fits[i], size) && AllNoise(noises[i], models, size)
    requires forall i :: 0 <= i < iterations ==> |noises[i]| == pop.Length - BornStart(i, state.Length)
    modifies state, pop
    ensures |heads| <= iterations && (iterations > 0 ==> |heads| > 0)
    ensures forall k :: 0 < k < |heads| ==> heads[k] <= heads[k - 1]
    ensures forall k :: 0 <= k < |heads| - 1 ==> heads[k] != 0.0
    ensures |heads| < iterations ==> |heads| > 0 && pop[0].fitness == 0.0
    ensures |heads| > 0 ==> heads[|heads| - 1] == pop[0].fitness
    ensures |heads| > 0 ==> SortedByFitness(pop[..]) && Scored(pop[..], width, score)
    ensures |heads| > 0 ==> forall k :: 0 <= k < state.Length ==> state[k] == pop[k].vector
  {
    heads := [];
    var i := 0;
    while i < iterations
      invariant 0 <= i <= iterations && |heads| == i
      invariant forall r :: 0 <= r < state.Length ==> |state[r]| == width
      invariant forall k :: 0 < k < |heads| ==> heads[k] <= heads[k - 1]
      invariant forall k :: 0 <= k < |heads| ==> heads[k] != 0.0
      invariant i > 0 ==> heads[i - 1] == pop[0].fitness
      invariant i > 0 ==> SortedByFitness(pop[..]) && Scored(pop[..], width, score)
      invariant i > 0 ==> forall k :: 0 <= k < state.Length ==> state[k] == pop[k].vector
    {
      ElitistGeneration(state, pop, i, width, models, size, jss[i], fits[i], noises[i], score);
      heads := heads + [pop[0].fitness];
      if pop[0].fitness == 0.0 {
        return;
      }
      i := i + 1;
    }
  }
}
