/** The factoring mode of factor.go: the 1024 coordinates of an individual are
    the bits of a number, its fitness is the number of remainder steps Euclid's
    algorithm takes on that number and the target, and the search stops as soon
    as some number shares a factor with the target. */
module Factor {
  import opened Common
  import opened Matrices
  import opened Evolution

  const Width: nat := 1024
  const Models: nat := Width / 64
  const Iterations: nat := 16
  const Population: nat := 1024
  /** `state` has 8 rows and `born = pop[8:]` after generation 0. */
  const Elites: nat := 8

  /** The width is 16 blocks of 64. */
  lemma Tiled()
    ensures Models == 16 && Width == Models * 64
  {
  }

  // ---------------------------------------------------------------------
  // Bit packing (factor.go:125-131)
  // ---------------------------------------------------------------------

  function Pow2(k: nat): (p: nat)
    ensures p >= 1
  {
    if k == 0 then 1 else 2 * Pow2(k - 1)
  }

  /** Bit k of x, counting from the least significant bit 0. */
  function BitAt(x: nat, k: nat): bool
  {
    if k == 0 then x % 2 == 1 else BitAt(x / 2, k - 1)
  }

  /** `number.SetBit(number, k, 1)`: x with bit k set. */
  function SetBit(x: nat, k: nat): nat
  {
    if BitAt(x, k) then x else x + Pow2(k)
  }

  /** The number whose bit j is set when coordinate m + j is positive. */
  function Packed(v: seq<real>, m: nat): nat
    decreases |v| - m
  {
    if m >= |v| then 0 else Bit(v[m] > 0.0) + 2 * Packed(v, m + 1)
  }

  /** The number an individual stands for. */
  function Number(v: seq<real>): nat
  {
    Packed(v, 0)
  }

  /** Bit k of the number is set exactly when coordinate k is positive. */
  lemma {:induction false} PackedBits(v: seq<real>, m: nat, k: nat)
    requires m + k < |v|
    ensures BitAt(Packed(v, m), k) == (v[m + k] > 0.0)
    decreases k
  {
    DivModUnique(Packed(v, m), 2, Packed(v, m + 1), Bit(v[m] > 0.0));
    if k > 0 {
      PackedBits(v, m + 1, k - 1);
    }
  }

  /** No bit at or beyond the length of the vector is set. */
  lemma {:induction false} PackedHigh(v: seq<real>, m: nat, k: nat)
    requires m + k >= |v|
    ensures !BitAt(Packed(v, m), k)
    decreases k
  {
    if m < |v| {
      DivModUnique(Packed(v, m), 2, Packed(v, m + 1), Bit(v[m] > 0.0));
    }
    if k > 0 {
      if m < |v| {
        PackedHigh(v, m + 1, k - 1);
      } else {
        ZeroBits(k - 1);
      }
    }
  }

  lemma {:induction false} ZeroBits(k: nat)
    ensures !BitAt(0, k)
  {
    if k > 0 {
      ZeroBits(k - 1);
    }
  }

  /** The number of an individual: bit k is set if and only if coordinate k is positive. */
  lemma NumberBits(v: seq<real>, k: nat)
    ensures BitAt(Number(v), k) <==> k < |v| && v[k] > 0.0
  {
    if k < |v| {
      PackedBits(v, 0, k);
    } else {
      PackedHigh(v, 0, k);
    }
  }

  /** The bits below k, as the loop has set them. */
  function Low(v: seq<real>, k: nat): nat
    requires k <= |v|
  {
    if k == 0 then 0 else Low(v, k - 1) + Bit(v[k - 1] > 0.0) * Pow2(k - 1)
  }

  /** The number is its low k bits plus 2^k times the rest. */
  lemma {:induction false} LowSplit(v: seq<real>, k: nat)
    requires k <= |v|
    ensures Number(v) == Low(v, k) + Pow2(k) * Packed(v, k) && Low(v, k) < Pow2(k)
  {
    if k > 0 {
      LowSplit(v, k - 1);
      var b, p, rest := Bit(v[k - 1] > 0.0), Pow2(k - 1), Packed(v, k);
      assert Packed(v, k - 1) == b + 2 * rest;
      Distribute(p, b, rest);
      assert b * p <= p;
    }
  }

  lemma Distribute(p: nat, b: nat, rest: nat)
    ensures p * (b + 2 * rest) == b * p + (2 * p) * rest
  {
  }

  /** A number below 2^k has bit k clear. */
  lemma {:induction false} BelowClear(x: nat, k: nat)
    requires x < Pow2(k)
    ensures !BitAt(x, k)
  {
    if k == 0 {
      DivModUnique(x, 2, 0, x);
    } else {
      BelowClear(x / 2, k - 1);
    }
  }

  /** The packing loop: `SetBit` for every positive coordinate, lowest first. */
  method PackBits(v: seq<real>) returns (number: nat)
    ensures number == Number(v)
  {
    number := 0;
    for k := 0 to |v|
      invariant number == Low(v, k) && number < Pow2(k)
    {
      LowSplit(v, k + 1);
      if v[k] > 0.0 {
        BelowClear(number, k);
        number := SetBit(number, k);
      }
    }
    LowSplit(v, |v|);
  }

  // ---------------------------------------------------------------------
  // Euclid's algorithm (factor.go:132-142)
  // ---------------------------------------------------------------------

  /** d divides n; only 0 is divisible by 0. */
  predicate Divides(d: nat, n: nat)
  {
    if d == 0 then n == 0 else n % d == 0
  }

  /** The value a holds when the remainder loop stops. */
  function Gcd(a: nat, b: nat): nat
    decreases b
  {
    if b == 0 then a else Gcd(b, a % b)
  }

  /** The number of remainder steps the loop takes. */
  function Steps(a: nat, b: nat): (s: nat)
    decreases b
  {
    if b == 0 then 0 else 1 + Steps(b, a % b)
  }

  /** The fitness of an individual: the steps of Euclid on its number and the target. */
  function FactorScore(target: nat, v: seq<real>): real
  {
    Steps(Number(v), target) as real
  }

  /** The remainder loop: `c = a mod b; a = b; b = c; Fitness++` until b is 0. */
  method Euclid(number: nat, target: nat) returns (a: nat, steps: nat)
    requires target > 0
    ensures a == Gcd(number, target) && steps == Steps(number, target)
    ensures steps >= 1
  {
    a, steps := number, 0;
    var b: nat := target;
    while b != 0
      invariant Gcd(a, b) == Gcd(number, target)
      invariant steps + Steps(a, b) == Steps(number, target)
      invariant steps == 0 ==> b == target
      decreases b
    {
      var c: nat := a % b;
      a := b;
      b := c;
      steps := steps + 1;
    }
  }

  /** Removing a multiple of d keeps the remainder modulo d. */
  lemma MultipleMod(d: nat, k: nat, r: nat)
    requires d > 0
    ensures (d * k + r) % d == r % d
  {
    DivModUnique(d * k + r, d, k + r / d, r % d);
  }

  /** With b = k*d, a = b*(a/b) + a%b is a%b plus a multiple of d. */
  lemma RemainderMod(a: nat, b: nat, d: nat)
    requires b > 0 && d > 0 && b % d == 0
    ensures a % d == (a % b) % d
  {
    var k, q, r := b / d, a / b, a % b;
    assert a == b * q + r;
    assert b == d * k;
    Associate(d, k, q);
    assert a == d * (k * q) + r;
    MultipleMod(d, k * q, r);
  }

  lemma Associate(d: nat, k: nat, q: nat)
    ensures (d * k) * q == d * (k * q)
  {
  }

  /** The result divides both inputs. */
  lemma {:induction false} GcdDivides(a: nat, b: nat)
    ensures Divides(Gcd(a, b), a) && Divides(Gcd(a, b), b)
    decreases b
  {
    if b > 0 {
      GcdDivides(b, a % b);
      var g := Gcd(a, b);
      GcdPositive(a, b);
      RemainderMod(a, b, g);
    }
  }

  /** The result is positive when b is. */
  lemma {:induction false} GcdPositive(a: nat, b: nat)
    requires b > 0
    ensures Gcd(a, b) > 0
    decreases b
  {
    if a % b > 0 {
      GcdPositive(b, a % b);
    }
  }

  /** Every common divisor divides the result: it is the greatest common divisor. */
  lemma {:induction false} GcdGreatest(a: nat, b: nat, d: nat)
    requires d > 0 && Divides(d, a) && Divides(d, b)
    ensures Divides(d, Gcd(a, b))
    decreases b
  {
    if b > 0 {
      RemainderMod(a, b, d);
      GcdGreatest(b, a % b, d);
    }
  }

  // ---------------------------------------------------------------------
  // The exit test (factor.go:143-147)
  // ---------------------------------------------------------------------

  /** When the loop ends with a != 1, the program prints `target / a` and exits:
      the divisor and the quotient. */
  function Exit(number: nat, target: nat): (e: Option<(nat, nat)>)
    requires target > 0
  {
    GcdPositive(number, target);
    var a := Gcd(number, target);
    if a != 1 then Some((a, target / a)) else None
  }

  /** The exit runs exactly when the number and the target share a divisor
      above 1; the divisor is then their greatest common divisor and the
      quotient is exact. Without the exit, the two are coprime. */
  lemma ExitMeans(number: nat, target: nat)
    requires target > 0
    ensures Exit(number, target).Some? ==>
      var (a, q) := Exit(number, target).value;
      a > 1 && a * q == target && Divides(a, number) && Divides(a, target) &&
      forall d :: d > 0 && Divides(d, number) && Divides(d, target) ==> Divides(d, a)
    ensures Exit(number, target).None? <==>
      forall d :: d > 1 ==> !(Divides(d, number) && Divides(d, target))
  {
    var a := Gcd(number, target);
    GcdDivides(number, target);
    GcdPositive(number, target);
    if a != 1 {
      DivModUnique(target, a, target / a, 0);
      forall d | d > 0 && Divides(d, number) && Divides(d, target) ensures Divides(d, a) {
        GcdGreatest(number, target, d);
      }
      assert a > 1 && Divides(a, number) && Divides(a, target);
    } else {
      forall d | d > 1 ensures !(Divides(d, number) && Divides(d, target)) {
        if Divides(d, number) && Divides(d, target) {
          GcdGreatest(number, target, d);
          DivModUnique(1, d, 0, 1);
        }
      }
    }
  }

  /** A multiple of the target (the all-negative vector, number 0, among them)
      exits with the target itself and quotient 1. */
  lemma ExitOnMultiple(number: nat, target: nat)
    requires target > 1 && number % target == 0
    ensures Exit(number, target) == Some((target, 1))
  {
    assert Gcd(target, 0) == target;
    DivModUnique(target, target, 1, 0);
  }

  /** The tail of a learn task: fitness from 0, pack the bits, run the
      remainder loop, and apply the exit test. */
  method Judge(v: seq<real>, target: nat) returns (fitness: real, exit: Option<(nat, nat)>)
    requires target > 0
    ensures fitness == FactorScore(target, v) && fitness >= 1.0
    ensures exit == Exit(Number(v), target)
  {
    var number := PackBits(v);
    var a, steps := Euclid(number, target);
    GcdPositive(number, target);
    fitness := steps as real;
    exit := None;
    if a != 1 {
      exit := Some((a, target / a));
    }
  }

  // ---------------------------------------------------------------------
  // The loop of Factor() (factor.go:50-176)
  // ---------------------------------------------------------------------

  /** The exit tests of a generation's learn tasks, in index order: the first
      individual whose number shares a divisor with the target ends the search. */
  method Scan(pop: array<Individual>, target: nat) returns (exit: Option<(nat, nat)>)
    requires target > 0
    ensures exit.None? <==> forall k :: 0 <= k < pop.Length ==> Exit(Number(pop[k].vector), target).None?
    ensures exit.Some? ==> exists k :: 0 <= k < pop.Length && exit == Exit(Number(pop[k].vector), target)
  {
    for k := 0 to pop.Length
      invariant forall j :: 0 <= j < k ==> Exit(Number(pop[j].vector), target).None?
    {
      var fitness, e := Judge(pop[k].vector, target);
      if e.Some? {
        return e;
      }
    }
    return None;
  }

  /** One round of the outer loop: 16 generations on blocks of 64, keeping
      8 elites; the round ends early when some individual's number shares a
      divisor with the target. */
  method Round(target: nat, state: array<seq<real>>, pop: array<Individual>, jss: seq<seq<nat>>,
               fits: seq<seq<seq<real>> -> (Matrix, Matrix)>, noises: seq<seq<seq<seq<real>>>>)
    returns (exit: Option<(nat, nat)>)
    requires target > 0
    requires state.Length == Elites && pop.Length == Population
    requires forall r :: 0 <= r < state.Length ==> |state[r]| == Width
    requires |jss| == |fits| == |noises| == Iterations
    requires forall i :: 0 <= i < Iterations ==> ShuffleChoices(Width, jss[i])
    requires forall i :: 0 <= i < Iterations ==> Shaped(fits[i], 64) && AllNoise(noises[i], Models, 64)
    requires forall i :: 0 <= i < Iterations ==> |noises[i]| == Population - BornStart(i, Elites)
    modifies state, pop
    ensures exit.Some? ==> exists k :: 0 <= k < pop.Length && exit == Exit(Number(pop[k].vector), target)
    ensures exit.None? ==> SortedByFitness(pop[..])
    ensures exit.None? ==> forall k :: 0 <= k < pop.Length ==> Exit(Number(pop[k].vector), target).None?
    ensures exit.None? ==> forall k :: 0 <= k < Elites ==> state[k] == pop[k].vector
  {
    Tiled();
    var score := v => FactorScore(target, v);
    exit := None;
    for i := 0 to Iterations
      invariant exit == None
      invariant forall r :: 0 <= r < state.Length ==> |state[r]| == Width
      invariant i > 0 ==> SortedByFitness(pop[..]) && Scored(pop[..], Width, score)
      invariant i > 0 ==> forall k :: 0 <= k < pop.Length ==> Exit(Number(pop[k].vector), target).None?
      invariant i > 0 ==> forall k :: 0 <= k < Elites ==> state[k] == pop[k].vector
    {
      ElitistGeneration(state, pop, i, Width, Models, 64, jss[i], fits[i], noises[i], score);
      exit := Scan(pop, target);
      if exit.Some? {
        return;
      }
    }
  }

  /** `Factor()`: rounds from fresh state rows and a fresh population of
      zero-valued individuals, until an exit. The source repeats forever; here
      the rounds are the ones given. Whenever the search exits, it prints a
      divisor above 1 of the target and the exact quotient. */
  method Search(target: nat, rows: seq<seq<seq<real>>>, jss: seq<seq<seq<nat>>>,
                fits: seq<seq<seq<seq<real>> -> (Matrix, Matrix)>>, noises: seq<seq<seq<seq<seq<real>>>>>)
    returns (exit: Option<(nat, nat)>)
    requires target > 0
    requires |jss| == |fits| == |noises| == |rows|
    requires forall r :: 0 <= r < |rows| ==> |rows[r]| == Elites && forall k :: 0 <= k < Elites ==> |rows[r][k]| == Width
    requires forall r :: 0 <= r < |rows| ==> |jss[r]| == |fits[r]| == |noises[r]| == Iterations
    requires forall r, i :: 0 <= r < |rows| && 0 <= i < Iterations ==> ShuffleChoices(Width, jss[r][i])
    requires forall r, i :: 0 <= r < |rows| && 0 <= i < Iterations ==>
      Shaped(fits[r][i], 64) && AllNoise(noises[r][i], Models, 64)
    requires forall r, i :: 0 <= r < |rows| && 0 <= i < Iterations ==>
      |noises[r][i]| == Population - BornStart(i, Elites)
    ensures exit.Some? ==> exit.value.0 > 1 && exit.value.0 * exit.value.1 == target
  {
    exit := None;
    for r := 0 to |rows|
      invariant exit == None
    {
      var state := new seq<real>[Elites](k requires 0 <= k < Elites => rows[r][k]);
      var pop := new Individual[Population](_ => Individual([], 0.0));
      exit := Round(target, state, pop, jss[r], fits[r], noises[r]);
      if exit.Some? {
        var k :| 0 <= k < pop.Length && exit == Exit(Number(pop[k].vector), target);
        ExitMeans(Number(pop[k].vector), target);
        return;
      }
    }
  }
}
