/** The brainfuck mode of bf.go: an interpreter with a cycle limit, programs
    decoded from the sign bits of a 384-wide vector, the squared-error fitness
    against "Hello World!" in 32-bit rune arithmetic, and the elitist loop. */
module Brainfuck {
  import opened Common
  import opened Matrices
  import opened Evolution

  const MemorySize: nat := 1024 * 1024
  const CyclesLimit: nat := 1024 * 1024

  /** `Genes`: the opcode of each 3-bit gene value. There is no ','. */
  const Genes: seq<char> := ['?', '+', '-', '>', '<', '.', '[', ']']

  // ---------------------------------------------------------------------
  // 32-bit runes (bf.go:67, 150-151)
  // ---------------------------------------------------------------------

  const TwoTo31: int := 0x8000_0000
  const TwoTo32: int := 0x1_0000_0000

  /** A conversion to int32 or an int32 result: two's complement wrap-around. */
  function Int32(x: int): (r: int)
    ensures -TwoTo31 <= r < TwoTo31
    ensures -TwoTo31 <= x < TwoTo31 ==> r == x
  {
    var r := (x + TwoTo31) % TwoTo32 - TwoTo31;
    Int32InRange(x);
    r
  }

  lemma Int32InRange(x: int)
    ensures -TwoTo31 <= x < TwoTo31 ==> (x + TwoTo31) % TwoTo32 - TwoTo31 == x
  {
    if -TwoTo31 <= x < TwoTo31 {
      DivModUnique(x + TwoTo31, TwoTo32, 0, x + TwoTo31);
    }
  }

  /** Values that differ by a multiple of 2^32 wrap to the same int32. */
  lemma {:induction false} Int32Periodic(x: int, k: int)
    ensures Int32(x + k * TwoTo32) == Int32(x)
  {
    var y := x + TwoTo31;
    DivModUnique(y + k * TwoTo32, TwoTo32, y / TwoTo32 + k, y % TwoTo32);
  }

  /** `output.WriteRune(rune(m))` with m = |memory cell|: the cell is truncated to
      int32, and a negative, surrogate or too large rune is written as U+FFFD. */
  function Written(cell: int): (r: int)
    ensures 0 <= r <= 0x10FFFF && !(0xD800 <= r <= 0xDFFF)
    ensures 0 <= cell <= 0xD7FF ==> r == cell
  {
    var m := if cell < 0 then -cell else cell;
    var rune := Int32(m);
    if rune < 0 || rune > 0x10FFFF || 0xD800 <= rune <= 0xDFFF then 0xFFFD else rune
  }

  // ---------------------------------------------------------------------
  // Bracket matching (bf.go:95-125)
  // ---------------------------------------------------------------------

  /** How an opcode moves the nesting count when scanning forward. */
  function Nest(op: char): int
  {
    if op == '[' then 1 else if op == ']' then -1 else 0
  }

  /** The forward scan's count from position after reading p[position + 1..end): it starts at 1. */
  function Depth(p: seq<char>, position: nat, end: nat): int
    requires position < end <= |p|
    decreases end
  {
    if end == position + 1 then 1 else Depth(p, position, end - 1) + Nest(p[end - 1])
  }

  /** The first k' >= k at which the forward count from position reaches 0,
      or |p| - 1 when there is none: the nesting-matched ']'. */
  function ForwardSearch(p: seq<char>, position: nat, k: nat): (r: int)
    requires position < k <= |p|
    decreases |p| - k
    ensures r == |p| - 1 || (k <= r < |p| && Depth(p, position, r + 1) == 0)
    ensures forall t :: k < t <= |p| && t <= r ==> Depth(p, position, t) != 0
    ensures r == |p| - 1 && Depth(p, position, |p|) != 0 ==>
              forall t :: k < t <= |p| ==> Depth(p, position, t) != 0
  {
    if k == |p| then |p| - 1
    else if Depth(p, position, k + 1) == 0 then k
    else ForwardSearch(p, position, k + 1)
  }

  /** `findMatchingForward(position)`. */
  function MatchForward(p: seq<char>, position: nat): (r: int)
  {
    if position + 1 <= |p| then ForwardSearch(p, position, position + 1) else |p| - 1
  }

  /** The nesting-matched ']' is a ']' and everything strictly between keeps the
      count positive: the brackets in between are balanced. Without one the
      result is the last index. */
  lemma {:induction false} MatchForwardSound(p: seq<char>, position: nat)
    requires position < |p|
    ensures var r := MatchForward(p, position);
      (position < r < |p| && p[r] == ']' && Depth(p, position, r + 1) == 0 &&
       forall t :: position < t <= r ==> Depth(p, position, t) > 0) ||
      (r == |p| - 1 && forall t :: position < t <= |p| ==> Depth(p, position, t) > 0)
  {
    var r := MatchForward(p, position);
    if position < r && Depth(p, position, r + 1) == 0 {
      PositiveBefore(p, position, r);
      assert Depth(p, position, r + 1) == Depth(p, position, r) + Nest(p[r]);
    } else {
      PositiveBefore(p, position, |p|);
    }
  }

  /** The count starts at 1 and moves by at most 1, so before its first zero it is positive. */
  lemma {:induction false} PositiveBefore(p: seq<char>, position: nat, r: nat)
    requires position < r <= |p|
    requires forall t :: position + 1 < t <= r ==> Depth(p, position, t) != 0
    ensures forall t :: position < t <= r ==> Depth(p, position, t) > 0
  {
    if position + 1 < r {
      PositiveBefore(p, position, r - 1);
      assert Depth(p, position, r) == Depth(p, position, r - 1) + Nest(p[r - 1]);
    }
  }

  /** `findMatchingForward`: the counter loop. */
  method FindMatchingForward(p: seq<char>, position: nat) returns (r: int)
    ensures r == MatchForward(p, position)
  {
    var count, length := 1, |p|;
    var i := position + 1;
    if i > length {
      return length - 1;
    }
    while i < length
      invariant position + 1 <= i <= length
      invariant count == Depth(p, position, i)
      invariant MatchForward(p, position) == ForwardSearch(p, position, i)
      decreases length - i
    {
      if p[i] == ']' {
        count := count - 1;
        if count == 0 {
          return i;
        }
      } else if p[i] == '[' {
        count := count + 1;
      }
      i := i + 1;
    }
    return length - 1;
  }

  /** The backward scan's count after reading p[start..from) from right to left: it starts at 1. */
  function BackDepth(p: seq<char>, from: nat, start: nat): int
    requires start <= from <= |p|
    decreases from - start
  {
    if start == from then 1 else BackDepth(p, from, start + 1) - Nest(p[start])
  }

  /** The largest k' <= k at which the backward count from position reaches 0,
      or -1 when there is none: the nesting-matched '['. */
  function BackwardSearch(p: seq<char>, position: nat, k: int): (r: int)
    requires -1 <= k < position <= |p|
    decreases k + 1
    ensures r == -1 || (0 <= r <= k && BackDepth(p, position, r) == 0)
    ensures forall q :: r < q <= k ==> BackDepth(p, position, q) != 0
  {
    if k < 0 then -1
    else if BackDepth(p, position, k) == 0 then k
    else BackwardSearch(p, position, k - 1)
  }

  /** `findMatchingBackward(position)`. */
  function MatchBackward(p: seq<char>, position: nat): (r: int)
    requires position <= |p|
  {
    BackwardSearch(p, position, position - 1)
  }

  /** The nesting-matched '[' is a '[' with the brackets in between balanced;
      without one the result is -1. */
  lemma {:induction false} MatchBackwardSound(p: seq<char>, position: nat)
    requires position <= |p|
    ensures var r := MatchBackward(p, position);
      (0 <= r < position && p[r] == '[' && BackDepth(p, position, r) == 0 &&
       forall q :: r < q < position ==> BackDepth(p, position, q) > 0) ||
      (r == -1 && forall q :: 0 <= q < position ==> BackDepth(p, position, q) > 0)
  {
    var r := MatchBackward(p, position);
    var low := if r < 0 then 0 else r + 1;
    PositiveAfter(p, position, low);
    if r >= 0 && r + 1 < position {
      assert BackDepth(p, position, r + 1) > 0 && BackDepth(p, position, r + 1) - Nest(p[r]) == 0;
    }
  }

  /** Before its first zero, the backward count is positive. */
  lemma {:induction false} PositiveAfter(p: seq<char>, position: nat, low: nat)
    requires low <= position <= |p|
    requires forall q :: low <= q < position ==> BackDepth(p, position, q) != 0
    ensures forall q :: low <= q < position ==> BackDepth(p, position, q) > 0
    decreases position - low
  {
    if low < position {
      PositiveAfter(p, position, low + 1);
      assert BackDepth(p, position, low) == BackDepth(p, position, low + 1) - Nest(p[low]);
    }
  }

  /** `findMatchingBackward`: the counter loop. */
  method FindMatchingBackward(p: seq<char>, position: nat) returns (r: int)
    requires position <= |p|
    ensures r == MatchBackward(p, position)
  {
    var count := 1;
    var i: int := position - 1;
    while i >= 0
      invariant -1 <= i < position
      invariant count == BackDepth(p, position, i + 1)
      invariant MatchBackward(p, position) == BackwardSearch(p, position, i)
      decreases i + 1
    {
      if p[i] == '[' {
        count := count - 1;
        if count == 0 {
          return i;
        }
      } else if p[i] == ']' {
        count := count + 1;
      }
      i := i - 1;
    }
    return -1;
  }

  // ---------------------------------------------------------------------
  // Execute (bf.go:33-93)
  // ---------------------------------------------------------------------

  /** The interpreter's registers, its memory and the runes written so far. */
  datatype Machine = Machine(pc: int, dc: int, memory: seq<int>, output: seq<int>, cycles: nat)

  /** What the loop keeps true: a full memory, pc never negative, and the data
      pointer never negative nor ahead of the cycle count, since only '>' raises
      it, by one, and '<' is guarded. */
  predicate Sound(m: Machine)
  {
    |m.memory| == MemorySize && 0 <= m.pc && 0 <= m.dc <= m.cycles
  }

  /** The fresh interpreter: zeroed memory, every register at 0. */
  function Boot(): (m: Machine)
    ensures Sound(m)
  {
    Machine(0, 0, seq(MemorySize, _ => 0), [], 0)
  }

  /** One cycle of the loop for an opcode other than a returning '.'. The
      unreduced `memory[dc]` of ',' '[' ']' stays in range because the data
      pointer is behind the cycle count, which is below CyclesLimit == MemorySize.
      '?' changes nothing but the cycle count. */
  function Step(p: seq<char>, m: Machine, draw: nat -> int): (n: Machine)
    requires Sound(m) && m.pc < |p| && m.cycles < CyclesLimit
    ensures Sound(n) && n.cycles == m.cycles + 1
    ensures n.dc <= m.dc + 1
    ensures p[m.pc] == '?' ==> n == m.(cycles := m.cycles + 1)
    ensures p[m.pc] != '.' ==> n.output == m.output
    ensures p[m.pc] == '.' ==> n.output == m.output + [Written(m.memory[m.dc % MemorySize])]
  {
    var op, pc, dc, mem := p[m.pc], m.pc, m.dc, m.memory;
    var next := m.(cycles := m.cycles + 1);
    if op == '?' then next
    else if op == '+' then next.(memory := mem[dc % MemorySize := mem[dc % MemorySize] + 1], pc := pc + 1)
    else if op == '-' then next.(memory := mem[dc % MemorySize := mem[dc % MemorySize] - 1], pc := pc + 1)
    else if op == '>' then next.(dc := dc + 1, pc := pc + 1)
    else if op == '<' then next.(dc := if dc > 0 then dc - 1 else dc, pc := pc + 1)
    else if op == '.' then next.(output := m.output + [Written(mem[dc % MemorySize])], pc := pc + 1)
    else if op == ',' then next.(memory := mem[dc := draw(m.cycles)], pc := pc + 1)
    else if op == '[' then
      if mem[dc] == 0 then next.(pc := MatchForward(p, pc) + 1) else next.(pc := pc + 1)
    else if op == ']' then
      if mem[dc] != 0 then next.(pc := MatchBackward(p, pc) + 1) else next.(pc := pc + 1)
    else next.(pc := pc + 1)
  }

  /** The runes `Execute` returns from machine m: it stops when pc leaves the
      program or the cycle limit is reached, and right after the '.' that
      brings the output to size runes. */
  function Run(p: seq<char>, m: Machine, draw: nat -> int, size: int): (out: seq<int>)
    requires Sound(m)
    decreases CyclesLimit - m.cycles
  {
    if m.pc >= |p| || m.cycles >= CyclesLimit then m.output
    else if p[m.pc] == '.' && |m.output| + 1 == size then m.output + [Written(m.memory[m.dc % MemorySize])]
    else Run(p, Step(p, m, draw), draw, size)
  }

  /** `p.Execute(rng, size)`: `draw(i)` stands for the `rng.Intn(8)` a ','
      executed in cycle i would read. */
  method Execute(p: seq<char>, draw: nat -> int, size: int) returns (output: seq<int>)
    ensures output == Run(p, Boot(), draw, size)
  {
    var memory := new int[MemorySize](_ => 0);
    var pc, dc, i := 0, 0, 0;
    output := [];
    var length := |p|;
    assert memory[..] == Boot().memory;
    while pc < length && i < CyclesLimit
      invariant memory.Length == MemorySize
      invariant Sound(Machine(pc, dc, memory[..], output, i))
      invariant Run(p, Machine(pc, dc, memory[..], output, i), draw, size) == Run(p, Boot(), draw, size)
      decreases CyclesLimit - i
    {
      ghost var m := Machine(pc, dc, memory[..], output, i);
      ghost var n := Step(p, m, draw);
      var opcode := p[pc];
      if opcode == '?' {
      } else if opcode == '+' {
        memory[dc % MemorySize] := memory[dc % MemorySize] + 1;
        pc := pc + 1;
      } else if opcode == '-' {
        memory[dc % MemorySize] := memory[dc % MemorySize] - 1;
        pc := pc + 1;
      } else if opcode == '>' {
        dc := dc + 1;
        pc := pc + 1;
      } else if opcode == '<' {
        if dc > 0 {
          dc := dc - 1;
        }
        pc := pc + 1;
      } else if opcode == '.' {
        var cell := memory[dc % MemorySize];
        output := output + [Written(cell)];
        if |output| == size {
          return;
        }
        pc := pc + 1;
      } else if opcode == ',' {
        memory[dc] := draw(i);
        pc := pc + 1;
      } else if opcode == '[' {
        if memory[dc] == 0 {
          var r := FindMatchingForward(p, pc);
          pc := r + 1;
        } else {
          pc := pc + 1;
        }
      } else if opcode == ']' {
        if memory[dc] != 0 {
          var r := FindMatchingBackward(p, pc);
          pc := r + 1;
        } else {
          pc := pc + 1;
        }
      } else {
        pc := pc + 1;
      }
      i := i + 1;
      assert Machine(pc, dc, memory[..], output, i) == n;
    }
  }

  /** The output of a run extends the machine's output by at most size runes in
      total: `Execute` returns as soon as the output holds size runes. */
  lemma {:induction false} RunOutputBound(p: seq<char>, m: Machine, draw: nat -> int, size: int)
    requires Sound(m) && |m.output| < size
    ensures |m.output| <= |Run(p, m, draw, size)| <= size
    ensures Run(p, m, draw, size)[..|m.output|] == m.output
    decreases CyclesLimit - m.cycles
  {
    if m.pc < |p| && m.cycles < CyclesLimit && !(p[m.pc] == '.' && |m.output| + 1 == size) {
      var n := Step(p, m, draw);
      RunOutputBound(p, n, draw, size);
      assert n.output[..|m.output|] == m.output;
    }
  }

  /** '?' does not advance pc, so a machine that reaches one spins on it until the
      cycle limit and writes nothing more. */
  lemma {:induction false} SpinsOnQuestion(p: seq<char>, m: Machine, draw: nat -> int, size: int)
    requires Sound(m) && 0 <= m.pc < |p| && p[m.pc] == '?'
    ensures Run(p, m, draw, size) == m.output
    decreases CyclesLimit - m.cycles
  {
    if m.cycles < CyclesLimit {
      SpinsOnQuestion(p, Step(p, m, draw), draw, size);
    }
  }

  /** A program without ',' never reads the random source. */
  lemma {:induction false} DrawIrrelevant(p: seq<char>, m: Machine, draw: nat -> int, other: nat -> int, size: int)
    requires Sound(m) && ',' !in p
    ensures Run(p, m, draw, size) == Run(p, m, other, size)
    decreases CyclesLimit - m.cycles
  {
    if m.pc < |p| && m.cycles < CyclesLimit && !(p[m.pc] == '.' && |m.output| + 1 == size) {
      StepIgnoresDraw(p, m, draw, other);
      DrawIrrelevant(p, Step(p, m, draw), draw, other, size);
    }
  }

  /** Only ',' reads the random source. */
  lemma StepIgnoresDraw(p: seq<char>, m: Machine, draw: nat -> int, other: nat -> int)
    requires Sound(m) && 0 <= m.pc < |p| && m.cycles < CyclesLimit && p[m.pc] != ','
    ensures Step(p, m, draw) == Step(p, m, other)
  {
  }

  // ---------------------------------------------------------------------
  // Genes (bf.go:131-141)
  // ---------------------------------------------------------------------

  const Width: nat := 128 * 3

  /** The 128-op program a 384-wide vector encodes. It never holds ','. */
  function Program(v: seq<real>): (p: seq<char>)
    requires |v| >= Width
    ensures |p| == 128
    ensures forall x :: 0 <= x < 128 ==> p[x] in Genes && p[x] == Genes[Gene(v, x)]
    ensures ',' !in p
  {
    seq(128, x requires 0 <= x < 128 => Genes[Gene(v, x)])
  }

  /** The decode loop of `fitness`: one gene per op. */
  method Decode(g: seq<real>) returns (program: seq<char>)
    requires |g| >= Width
    ensures program == Program(g)
  {
    program := [];
    for x := 0 to 128
      invariant program == Program(g)[..x]
    {
      var y := ReadGene(g, x);
      program := program + [Genes[y]];
    }
  }

  // ---------------------------------------------------------------------
  // Fitness (bf.go:142-153)
  // ---------------------------------------------------------------------

  /** "Hello World!" as runes. */
  const Target: seq<int> := [72, 101, 108, 108, 111, 32, 87, 111, 114, 108, 100, 33]

  /** The output padded with 0 runes to the target's length. */
  function Padded(found: seq<int>): (r: seq<int>)
    requires |found| <= |Target|
    ensures |r| == |Target|
    ensures forall i :: 0 <= i < |found| ==> r[i] == found[i]
    ensures forall i :: |found| <= i < |Target| ==> r[i] == 0
  {
    found + seq(|Target| - |found|, _ => 0)
  }

  /** `diff := target[i] - value; fitness += float64(diff * diff)` in int32. */
  function Term(t: int, value: int): int
  {
    var diff := Int32(t - value);
    Int32(diff * diff)
  }

  /** The sum of the terms over the first n runes. */
  function ErrorSum(found: seq<int>, n: nat): real
    requires n <= |found| <= |Target|
  {
    if n == 0 then 0.0 else ErrorSum(found, n - 1) + Term(Target[n - 1], found[n - 1]) as real
  }

  /** The fitness of an output of at most 12 runes. */
  function Error(output: seq<int>): real
    requires |output| <= |Target|
  {
    ErrorSum(Padded(output), |Target|)
  }

  /** The scoring loops of `fitness`: pad with 0, then sum the wrapped squares. */
  method Score(output: seq<int>) returns (fitness: real)
    requires |output| <= |Target|
    ensures fitness == Error(output)
  {
    var found := output;
    for i := |output| to |Target|
      invariant found == output + seq(i - |output|, _ => 0)
    {
      found := found + [0];
    }
    assert found == Padded(output);
    fitness := 0.0;
    for i := 0 to |found|
      invariant fitness == ErrorSum(found, i)
    {
      var diff := Int32(Target[i] - found[i]);
      fitness := fitness + Int32(diff * diff) as real;
    }
  }

  /** While every rune is within 46340 of its target, no square wraps: the
      fitness is non-negative, and 0 exactly when the output is the target. */
  lemma {:induction false} ErrorExact(found: seq<int>, n: nat)
    requires n <= |found| == |Target|
    requires forall i :: 0 <= i < |found| ==> -46340 <= Target[i] - found[i] <= 46340
    ensures ErrorSum(found, n) >= 0.0
    ensures ErrorSum(found, n) == 0.0 <==> found[..n] == Target[..n]
  {
    if n > 0 {
      ErrorExact(found, n - 1);
      TermExact(Target[n - 1], found[n - 1]);
      PrefixEqualStep(found, Target, n);
    }
  }

  /** Two prefixes of length n agree when the shorter prefixes and entry n - 1 agree. */
  lemma PrefixEqualStep(s: seq<int>, t: seq<int>, n: nat)
    requires 0 < n <= |s| && n <= |t|
    ensures s[..n] == t[..n] <==> s[..n - 1] == t[..n - 1] && s[n - 1] == t[n - 1]
  {
    assert s[..n] == s[..n - 1] + [s[n - 1]];
    assert t[..n] == t[..n - 1] + [t[n - 1]];
  }

  /** A difference of at most 46340 squares without wrapping. */
  lemma TermExact(t: int, value: int)
    requires -46340 <= t - value <= 46340
    ensures Term(t, value) >= 0
    ensures Term(t, value) == 0 <==> t == value
  {
    var d := t - value;
    SquareBelow(d);
    if d != 0 {
      SquarePositive(d);
    }
  }

  lemma SquareBelow(d: int)
    requires -46340 <= d <= 46340
    ensures 0 <= d * d < TwoTo31
  {
    var a := if d < 0 then -d else d;
    assert d * d == a * a;
    MulMono(a, 46340, a);
    MulMono(a, 46340, 46340);
  }

  lemma SquarePositive(d: int)
    requires d != 0
    ensures d * d > 0
  {
    var a := if d < 0 then -d else d;
    assert d * d == a * a;
    MulMono(1, a, a);
  }

  /** When every rune after the first matches, the sum is the first term. */
  lemma {:induction false} ErrorSumFirst(found: seq<int>, n: nat)
    requires 1 <= n <= |found| == |Target|
    requires forall i :: 1 <= i < |found| ==> found[i] == Target[i]
    ensures ErrorSum(found, n) == Term(Target[0], found[0]) as real
  {
    if n > 1 {
      ErrorSumFirst(found, n - 1);
      assert Term(Target[n - 1], found[n - 1]) == 0;
    }
  }

  /** The target itself scores 0. */
  lemma TargetScoresZero()
    ensures Error(Target) == 0.0
  {
    ErrorExact(Padded(Target), |Target|);
  }

  /** An output that differs from the target scores 0 all the same: rune 'H' + 65536
      is 65536 away from 'H', and 65536 * 65536 wraps to 0 in int32. */
  lemma WrappedSquareVanishes()
    ensures Target[0 := 72 + 65536] != Target
    ensures Error(Target[0 := 72 + 65536]) == 0.0
  {
    var found := Target[0 := 72 + 65536];
    assert Padded(found) == found;
    assert Term(72, 72 + 65536) == 0 by {
      assert Int32(-65536) == -65536;
      Int32Periodic(0, 1);
      assert 0 + 1 * TwoTo32 == -65536 * -65536;
    }
    ErrorSumFirst(found, |Target|);
  }

  /** A wrapped square can be negative: 46341 * 46341 exceeds 2^31 - 1, so the
      fitness of an output with rune 'H' + 46341 is below 0. */
  lemma WrappedSquareNegative()
    ensures Error(Target[0 := 72 + 46341]) < 0.0
  {
    var found := Target[0 := 72 + 46341];
    assert Padded(found) == found;
    assert Term(72, 72 + 46341) == 2147488281 - TwoTo32 by {
      assert Int32(-46341) == -46341;
      Int32Periodic(2147488281 - TwoTo32, 1);
      assert 2147488281 - TwoTo32 + 1 * TwoTo32 == -46341 * -46341;
    }
    ErrorSumFirst(found, |Target|);
  }

  // ---------------------------------------------------------------------
  // The BF loop (bf.go:170-295)
  // ---------------------------------------------------------------------

  const Models: nat := Width / (32 * 3)
  const Iterations: nat := 1024
  const Population: nat := 1024
  const Cut: nat := 256

  /** The random source of ',' in bf.go's fitness; programs never read it. */
  function NoDraw(i: nat): int { 0 }

  /** `fitness(g, rng)` of a learned vector: run the decoded program for at most
      12 runes and score the output. Only full-width vectors are ever scored. */
  function BfScore(v: seq<real>): real
  {
    if |v| < Width then 0.0
    else
      var output := Run(Program(v), Boot(), NoDraw, |Target|);
      RunOutputBound(Program(v), Boot(), NoDraw, |Target|);
      Error(output)
  }

  /** `width = 128*3` splits into `models = 4` blocks of exactly 96, the dimension
      of the fitter. */
  lemma BlocksOfNinetySix(translate: seq<int>, b: int)
    requires multiset(translate) == multiset(Tiling(Width, Models))
    requires 0 <= b < Models
    ensures multiset(translate)[b] == 96
  {
    Tiled();
    BlockSizes(Width, Models, translate, b);
  }

  lemma Tiled()
    ensures Models == 4 && Width == Models * 96 && Width % Models == 0 && Width / Models == 96
  {
    DivModUnique(Width, 96, 4, 0);
    DivModUnique(Width, Models, 96, 0);
  }

  /** `BF()`: the loop with bf.go's fitness, so every individual's fitness is
      the error of the output of its decoded program. */
  method BF(state: array<seq<real>>, pop: array<Individual>, jss: seq<seq<nat>>,
            fits: seq<seq<seq<real>> -> (Matrix, Matrix)>, noises: seq<seq<seq<seq<real>>>>)
    returns (heads: seq<real>)
    requires state.Length == Cut && pop.Length == Population
    requires forall r :: 0 <= r < state.Length ==> |state[r]| == Width
    requires |jss| == |fits| == |noises| == Iterations
    requires forall i :: 0 <= i < Iterations ==> ShuffleChoices(Width, jss[i])
    requires forall i :: 0 <= i < Iterations ==> Shaped(fits[i], 96) && AllNoise(noises[i], Models, 96)
    requires forall i :: 0 <= i < Iterations ==> |noises[i]| == Population - BornStart(i, Cut)
    modifies state, pop
    ensures 1 <= |heads| <= Iterations
    ensures forall k :: 0 < k < |heads| ==> heads[k] <= heads[k - 1]
    ensures |heads| < Iterations ==> pop[0].fitness == 0.0
    ensures Scored(pop[..], Width, BfScore)
    ensures forall k :: 0 <= k < Cut ==> state[k] == pop[k].vector
  {
    Tiled();
    heads := ElitistRun(state, pop, Width, Models, 96, Iterations, jss, fits, noises, BfScore);
  }
}
