/** The 8-queens mode of queens.go: each column's queen row is a 3-bit gene of a
    24-wide vector, and the fitness counts, for every queen and each of its
    8 rays, whether some other queen lies on the ray. */
module Queens {
  import opened Common
  import opened Matrices
  import opened Evolution

  const Width: nat := 8 * 3
  const Models: nat := Width / (8 * 3)
  const Iterations: nat := 1024
  const Population: nat := 8 * 1024
  const Cut: nat := 512

  // ---------------------------------------------------------------------
  // The board (queens.go:19-39)
  // ---------------------------------------------------------------------

  /** The queen row of each column x: gene x of the vector. */
  function Rows(g: seq<real>): (rows: seq<nat>)
    requires |g| >= Width
    ensures |rows| == 8 && forall x :: 0 <= x < 8 ==> rows[x] < 8
  {
    seq(8, x requires 0 <= x < 8 => Gene(g, x))
  }

  /** Every column holds a queen at a row below 8. */
  predicate Columns(rows: seq<nat>)
  {
    |rows| == 8 && forall x :: 0 <= x < 8 ==> rows[x] < 8
  }

  /** `board[y*8+x] = 1` for the queen of every column x: cell k is occupied
      exactly when column k % 8 has its queen in row k / 8. */
  function BoardOf(rows: seq<nat>): (b: seq<bool>)
    requires Columns(rows)
    ensures |b| == 64
    ensures forall y, x :: 0 <= y < 8 && 0 <= x < 8 ==> (Occupied(b, y, x) <==> rows[x] == y)
  {
    var b := seq(64, k requires 0 <= k < 64 => rows[k % 8] == k / 8);
    BoardCells(rows, b);
    b
  }

  /** A board laid out as `board[y*8+x]` has cell (y, x) occupied exactly when
      column x's queen is in row y. */
  lemma BoardCells(rows: seq<nat>, b: seq<bool>)
    requires Columns(rows) && |b| == 64
    requires forall k :: 0 <= k < 64 ==> b[k] == (rows[k % 8] == k / 8)
    ensures forall y, x :: 0 <= y < 8 && 0 <= x < 8 ==> (Occupied(b, y, x) <==> rows[x] == y)
  {
    forall y, x | 0 <= y < 8 && 0 <= x < 8 ensures Occupied(b, y, x) <==> rows[x] == y {
      DivModUnique(y * 8 + x, 8, y, x);
    }
  }

  /** Cell (y, x) of a 64-cell board is occupied; false off the board. */
  predicate Occupied(b: seq<bool>, y: int, x: int)
    requires |b| == 64
  {
    0 <= y < 8 && 0 <= x < 8 && b[y * 8 + x]
  }

  /** On the decoded board, cell (y, x) is occupied exactly when column x's queen is in row y. */
  lemma BoardAt(rows: seq<nat>, y: int, x: int)
    requires Columns(rows) && 0 <= y < 8 && 0 <= x < 8
    ensures Occupied(BoardOf(rows), y, x) <==> rows[x] == y
  {
    DivModUnique(y * 8 + x, 8, y, x);
  }

  /** The placement loop: one `board[y*8+x] = 1` per column. */
  method Place(g: seq<real>) returns (board: array<bool>)
    requires |g| >= Width
    ensures fresh(board) && board[..] == BoardOf(Rows(g))
  {
    board := new bool[64](_ => false);
    ghost var rows := Rows(g);
    for x := 0 to 8
      invariant board.Length == 64
      invariant forall k :: 0 <= k < 64 ==> board[k] == (k % 8 < x && rows[k % 8] == k / 8)
    {
      var y := ReadGene(g, x);
      forall k | 0 <= k < 64 ensures k == y * 8 + x <==> (k % 8 == x && k / 8 == y) {
        DivModUnique(y * 8 + x, 8, y, x);
      }
      board[y * 8 + x] := true;
    }
  }

  /** The number of occupied cells among the first n. */
  function CountPrefix(b: seq<bool>, n: nat): nat
    requires n <= |b|
  {
    if n == 0 then 0 else CountPrefix(b, n - 1) + Bit(b[n - 1])
  }

  /** The count loop over the board. */
  method CountQueens(board: array<bool>) returns (sum: nat)
    ensures sum == CountPrefix(board[..], board.Length)
  {
    sum := 0;
    for k := 0 to board.Length
      invariant sum == CountPrefix(board[..], k)
    {
      if board[k] {
        sum := sum + 1;
      }
    }
  }

  /** The queens in rows below y, plus those in row y among the first x columns. */
  function RowsBelow(rows: seq<nat>, y: nat): nat
  {
    if y == 0 then 0 else RowsBelow(rows, y - 1) + multiset(rows)[y - 1]
  }

  /** Counting the board row by row meets the queens of each row. */
  lemma {:induction false} CountByRows(rows: seq<nat>, y: nat, x: nat)
    requires Columns(rows) && y < 8 && x <= 8
    ensures CountPrefix(BoardOf(rows), 8 * y + x) == RowsBelow(rows, y) + multiset(rows[..x])[y]
    decreases y, x
  {
    if x > 0 {
      CountByRows(rows, y, x - 1);
      DivModUnique(8 * y + x - 1, 8, y, x - 1);
      assert rows[..x] == rows[..x - 1] + [rows[x - 1]];
    } else if y > 0 {
      CountByRows(rows, y - 1, 8);
      assert rows[..8] == rows;
    }
  }

  /** Adding one element below n adds one to the counts below n. */
  lemma {:induction false} RowsBelowAdd(rows: seq<nat>, r: nat, n: nat)
    ensures RowsBelow(rows + [r], n) == RowsBelow(rows, n) + (if r < n then 1 else 0)
  {
    if n > 0 {
      RowsBelowAdd(rows, r, n - 1);
      assert multiset(rows + [r]) == multiset(rows) + multiset{r};
    }
  }

  /** The counts of rows below 8 add up to the number of columns. */
  lemma {:induction false} RowsBelowAll(rows: seq<nat>)
    requires forall x :: 0 <= x < |rows| ==> rows[x] < 8
    ensures RowsBelow(rows, 8) == |rows|
  {
    if |rows| == 0 {
      ZeroCounts(rows, 8);
    } else {
      var k := |rows| - 1;
      RowsBelowAll(rows[..k]);
      RowsBelowAdd(rows[..k], rows[k], 8);
      assert rows[..k] + [rows[k]] == rows;
    }
  }

  lemma {:induction false} ZeroCounts(rows: seq<nat>, n: nat)
    requires |rows| == 0
    ensures RowsBelow(rows, n) == 0
  {
    if n > 0 {
      ZeroCounts(rows, n - 1);
    }
  }

  /** Exactly 8 cells are occupied, so `panic("there should be 8")` never runs. */
  lemma EightQueens(rows: seq<nat>)
    requires Columns(rows)
    ensures CountPrefix(BoardOf(rows), 64) == 8
  {
    CountByRows(rows, 7, 8);
    RowsBelowAll(rows);
    assert rows[..8] == rows;
  }

  // ---------------------------------------------------------------------
  // The rays (queens.go:40-118)
  // ---------------------------------------------------------------------

  /** The eight rays: one step changes each coordinate by -1, 0 or 1, not both by 0. */
  predicate Direction(dy: int, dx: int)
  {
    -1 <= dy <= 1 && -1 <= dx <= 1 && (dy != 0 || dx != 0)
  }

  /** Coordinate c after s steps of d. */
  function Along(c: int, d: int, s: nat): int
  {
    if d > 0 then c + s else if d < 0 then c - s else c
  }

  /** Some queen lies on the ray from (y, x) in direction (dy, dx). */
  predicate Sees(b: seq<bool>, y: int, x: int, dy: int, dx: int)
    requires |b| == 64
  {
    exists s: nat :: 1 <= s <= 7 && Occupied(b, Along(y, dy, s), Along(x, dx, s))
  }

  /** One ray loop: step until the walker leaves the board or meets a queen. The
      four straight loops of the source, which count `iii` up or down from the
      queen, make the same walk. */
  method Ray(board: array<bool>, i: int, ii: int, dy: int, dx: int) returns (hit: bool)
    requires board.Length == 64 && 0 <= i < 8 && 0 <= ii < 8 && Direction(dy, dx)
    ensures hit == Sees(board[..], i, ii, dy, dx)
  {
    var x, y, s := ii, i, 0;
    while true
      invariant 0 <= s <= 7
      invariant x == Along(ii, dx, s) && y == Along(i, dy, s)
      invariant forall t: nat :: 1 <= t <= s ==> !Occupied(board[..], Along(i, dy, t), Along(ii, dx, t))
      decreases 7 - s
    {
      x, y, s := x + dx, y + dy, s + 1;
      if x > 7 || x < 0 || y > 7 || y < 0 {
        forall t: nat | s <= t <= 7 ensures !Occupied(board[..], Along(i, dy, t), Along(ii, dx, t)) {
        }
        return false;
      }
      if board[y * 8 + x] {
        assert Occupied(board[..], Along(i, dy, s), Along(ii, dx, s));
        return true;
      }
    }
  }

  /** The rays of the queen at (y, x) that hold another queen, in the source's
      order: right, left, down, up, then the four diagonals. */
  function CellScore(b: seq<bool>, y: int, x: int): nat
    requires |b| == 64
  {
    Bit(Sees(b, y, x, 0, 1)) + Bit(Sees(b, y, x, 0, -1)) + Bit(Sees(b, y, x, 1, 0)) + Bit(Sees(b, y, x, -1, 0)) +
    Bit(Sees(b, y, x, 1, 1)) + Bit(Sees(b, y, x, -1, 1)) + Bit(Sees(b, y, x, 1, -1)) + Bit(Sees(b, y, x, -1, -1))
  }

  /** The fitness accumulated over the first n cells. */
  function AttackSum(b: seq<bool>, n: nat): nat
    requires |b| == 64 && n <= 64
  {
    if n == 0 then 0
    else AttackSum(b, n - 1) + (if b[n - 1] then CellScore(b, (n - 1) / 8, (n - 1) % 8) else 0)
  }

  /** The eight ray loops for the cell (i, ii), run only when it holds a queen. */
  method Cell(board: array<bool>, i: int, ii: int) returns (n: nat)
    requires board.Length == 64 && 0 <= i < 8 && 0 <= ii < 8
    ensures n == if board[i * 8 + ii] then CellScore(board[..], i, ii) else 0
  {
    n := 0;
    if board[i * 8 + ii] {
      var right := Ray(board, i, ii, 0, 1);
      var left := Ray(board, i, ii, 0, -1);
      var down := Ray(board, i, ii, 1, 0);
      var up := Ray(board, i, ii, -1, 0);
      var downRight := Ray(board, i, ii, 1, 1);
      var upRight := Ray(board, i, ii, -1, 1);
      var downLeft := Ray(board, i, ii, 1, -1);
      var upLeft := Ray(board, i, ii, -1, -1);
      n := Bit(right) + Bit(left) + Bit(down) + Bit(up) +
           Bit(downRight) + Bit(upRight) + Bit(downLeft) + Bit(upLeft);
    }
  }

  /** The attack loops: each occupied cell adds one per ray that holds a queen. */
  method Attacks(board: array<bool>) returns (fitness: nat)
    requires board.Length == 64
    ensures fitness == AttackSum(board[..], 64)
  {
    fitness := 0;
    for i := 0 to 8
      invariant fitness == AttackSum(board[..], 8 * i)
    {
      for ii := 0 to 8
        invariant fitness == AttackSum(board[..], 8 * i + ii)
      {
        DivModUnique(8 * i + ii, 8, i, ii);
        var n := Cell(board, i, ii);
        fitness := fitness + n;
      }
    }
  }

  /** `fitness(g)` of queens.go. */
  function QueensScore(g: seq<real>): real
  {
    if |g| < Width then 0.0 else AttackSum(BoardOf(Rows(g)), 64) as real
  }

  /** The fitness closure: place the queens, count them (always 8), count attacks. */
  method Fitness(g: seq<real>) returns (fitness: real)
    requires |g| >= Width
    ensures fitness == QueensScore(g)
  {
    var board := Place(g);
    var sum := CountQueens(board);
    EightQueens(Rows(g));
    assert sum == 8;
    var attacks := Attacks(board);
    fitness := attacks as real;
  }

  // ---------------------------------------------------------------------
  // What the fitness measures
  // ---------------------------------------------------------------------

  /** Queens at (y, x) and (y', x') share a row or a diagonal. */
  predicate Clash(y: int, x: int, y': int, x': int)
  {
    y == y' || y' - y == x' - x || y' - y == x - x'
  }

  /** No two queens share a row or a diagonal; columns are distinct by construction. */
  predicate Safe(rows: seq<nat>)
    requires Columns(rows)
  {
    forall x, x' :: 0 <= x < 8 && 0 <= x' < 8 && x != x' ==> !Clash(rows[x], x, rows[x'], x')
  }

  /** The vertical rays of a queen never meet another: each column has one queen. */
  lemma VerticalSilent(rows: seq<nat>, x: int)
    requires Columns(rows) && 0 <= x < 8
    ensures !Sees(BoardOf(rows), rows[x], x, 1, 0) && !Sees(BoardOf(rows), rows[x], x, -1, 0)
  {
    var b := BoardOf(rows);
    forall s: nat, dy | 1 <= s <= 7 && (dy == 1 || dy == -1)
      ensures !Occupied(b, Along(rows[x], dy, s), Along(x, 0, s))
    {
      var y' := Along(rows[x], dy, s);
      if 0 <= y' < 8 {
        BoardAt(rows, y', x);
      }
    }
  }

  /** On a safe board no ray of any queen meets another queen. */
  lemma SafeSeesNothing(rows: seq<nat>, x: int, dy: int, dx: int)
    requires Columns(rows) && Safe(rows) && 0 <= x < 8 && Direction(dy, dx)
    ensures !Sees(BoardOf(rows), rows[x], x, dy, dx)
  {
    var b := BoardOf(rows);
    forall s: nat | 1 <= s <= 7 ensures !Occupied(b, Along(rows[x], dy, s), Along(x, dx, s)) {
      var y', x' := Along(rows[x], dy, s), Along(x, dx, s);
      if 0 <= y' < 8 && 0 <= x' < 8 {
        BoardAt(rows, y', x');
      }
    }
  }

  /** Two queens in one row or on one diagonal: the first one's ray towards the
      second holds a queen, so its cell scores at least 1. */
  lemma UnsafeSees(rows: seq<nat>, x: int, x': int)
    requires Columns(rows) && 0 <= x < 8 && 0 <= x' < 8 && x != x'
    requires Clash(rows[x], x, rows[x'], x')
    ensures CellScore(BoardOf(rows), rows[x], x) > 0
  {
    var b := BoardOf(rows);
    var s: nat := if x' > x then x' - x else x - x';
    var dx := if x' > x then 1 else -1;
    var dy := if rows[x'] == rows[x] then 0 else if rows[x'] > rows[x] then 1 else -1;
    BoardAt(rows, rows[x'], x');
    assert Occupied(b, Along(rows[x], dy, s), Along(x, dx, s));
    assert Sees(b, rows[x], x, dy, dx);
  }

  /** The fitness over the first n cells is 0 exactly when no occupied cell among them scores. */
  lemma {:induction false} AttackSumZero(b: seq<bool>, n: nat)
    requires |b| == 64 && n <= 64
    ensures AttackSum(b, n) == 0 <==> forall k :: 0 <= k < n && b[k] ==> CellScore(b, k / 8, k % 8) == 0
  {
    if n > 0 {
      AttackSumZero(b, n - 1);
    }
  }

  /** On a safe board every queen scores 0, so the fitness is 0. */
  lemma SafeScoresZero(rows: seq<nat>)
    requires Columns(rows) && Safe(rows)
    ensures AttackSum(BoardOf(rows), 64) == 0
  {
    var b := BoardOf(rows);
    forall k | 0 <= k < 64 && b[k] ensures CellScore(b, k / 8, k % 8) == 0 {
      var x := k % 8;
      SafeSeesNothing(rows, x, 0, 1);
      SafeSeesNothing(rows, x, 0, -1);
      SafeSeesNothing(rows, x, 1, 0);
      SafeSeesNothing(rows, x, -1, 0);
      SafeSeesNothing(rows, x, 1, 1);
      SafeSeesNothing(rows, x, -1, 1);
      SafeSeesNothing(rows, x, 1, -1);
      SafeSeesNothing(rows, x, -1, -1);
    }
    AttackSumZero(b, 64);
  }

  /** Two clashing queens make the fitness positive. */
  lemma ClashScores(rows: seq<nat>, x: int, x': int)
    requires Columns(rows) && 0 <= x < 8 && 0 <= x' < 8 && x != x'
    requires Clash(rows[x], x, rows[x'], x')
    ensures AttackSum(BoardOf(rows), 64) > 0
  {
    var b := BoardOf(rows);
    UnsafeSees(rows, x, x');
    var k := rows[x] * 8 + x;
    DivModUnique(k, 8, rows[x], x);
    assert b[k] && CellScore(b, k / 8, k % 8) > 0;
    AttackSumZero(b, 64);
  }

  /** The fitness is 0 exactly when the decoded queens are a solution: no two
      share a row or a diagonal. */
  lemma ZeroIffSafe(rows: seq<nat>)
    requires Columns(rows)
    ensures AttackSum(BoardOf(rows), 64) == 0 <==> Safe(rows)
  {
    if Safe(rows) {
      SafeScoresZero(rows);
    } else {
      var x, x' :| 0 <= x < 8 && 0 <= x' < 8 && x != x' && Clash(rows[x], x, rows[x'], x');
      ClashScores(rows, x, x');
    }
  }

  /** Each queen scores at most 6 (its vertical rays stay empty), so the fitness
      over the first n cells is at most 6 per queen among them. */
  lemma {:induction false} AttackBound(rows: seq<nat>, n: nat)
    requires Columns(rows) && n <= 64
    ensures AttackSum(BoardOf(rows), n) <= 6 * CountPrefix(BoardOf(rows), n)
  {
    if n > 0 {
      AttackBound(rows, n - 1);
      var b := BoardOf(rows);
      if b[n - 1] {
        VerticalSilent(rows, (n - 1) % 8);
      }
    }
  }

  /** The fitness of any vector is at most 48: 8 queens of at most 6 rays each. */
  lemma ScoreAtMost48(g: seq<real>)
    ensures 0.0 <= QueensScore(g) <= 48.0
  {
    if |g| >= Width {
      AttackBound(Rows(g), 64);
      EightQueens(Rows(g));
    }
  }

  // ---------------------------------------------------------------------
  // The loop of Queens() (queens.go:126-253)
  // ---------------------------------------------------------------------

  /** `Queens()`: the shared elitist loop with one block of all 24 genes, 512
      state rows and a population of 8192. It stops only on a fitness of 0,
      and then the head's decoded rows, which it prints, are a solution. */
  method Queens(state: array<seq<real>>, pop: array<Individual>, jss: seq<seq<nat>>,
                fits: seq<seq<seq<real>> -> (Matrix, Matrix)>, noises: seq<seq<seq<seq<real>>>>)
    returns (heads: seq<real>)
    requires state.Length == Cut && pop.Length == Population
    requires forall r :: 0 <= r < state.Length ==> |state[r]| == Width
    requires |jss| == |fits| == |noises| == Iterations
    requires forall i :: 0 <= i < Iterations ==> ShuffleChoices(Width, jss[i])
    requires forall i :: 0 <= i < Iterations ==> Shaped(fits[i], Width) && AllNoise(noises[i], Models, Width)
    requires forall i :: 0 <= i < Iterations ==> |noises[i]| == Population - BornStart(i, Cut)
    modifies state, pop
    ensures 1 <= |heads| <= Iterations
    ensures forall k :: 0 < k < |heads| ==> heads[k] <= heads[k - 1]
    ensures Scored(pop[..], Width, QueensScore)
    ensures |heads| < Iterations ==> |pop[0].vector| == Width && Safe(Rows(pop[0].vector))
    ensures forall k :: 0 <= k < Cut ==> state[k] == pop[k].vector
  {
    assert Models == 1;
    heads := ElitistRun(state, pop, Width, Models, Width, Iterations, jss, fits, noises, QueensScore);
    if |heads| < Iterations {
      ZeroIffSafe(Rows(pop[0].vector));
    }
  }
}
