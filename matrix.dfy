/** The dense row-major matrix of matrix.go over reals. Every operation builds a
    fresh `Data` slice and leaves its receiver and argument alone, so each one is
    a function on values; a Go panic is the result `None`. */
module Matrices {
  import opened Common
  import Vector

  /** `Matrix{Cols, Rows, Data}`; row r occupies Data[r*Cols .. (r+1)*Cols). */
  datatype Matrix = Matrix(cols: int, rows: int, data: seq<real>)

  /** The shape invariant a fully populated matrix satisfies. */
  predicate WellFormed(m: Matrix)
  {
    0 <= m.cols && 0 <= m.rows && |m.data| == m.cols * m.rows
  }

  /** Entry (r, c) of a well-formed matrix. */
  function At(m: Matrix, r: int, c: int): real
    requires WellFormed(m) && 0 <= r < m.rows && 0 <= c < m.cols
  {
    IndexBound(r, c, m.rows, m.cols);
    m.data[r * m.cols + c]
  }

  /** Row r as the slice `Data[r*Cols : r*Cols+Cols]`. */
  function Row(m: Matrix, r: int): (row: seq<real>)
    requires WellFormed(m) && 0 <= r < m.rows
    ensures |row| == m.cols
    ensures forall c :: 0 <= c < m.cols ==> row[c] == At(m, r, c)
  {
    MulMono(r + 1, m.rows, m.cols);
    MulMono(0, r, m.cols);
    m.data[r * m.cols .. r * m.cols + m.cols]
  }

  /** Appends the blocks one after the other, as the nested `append` loops do. */
  function Flatten(blocks: seq<seq<real>>): seq<real>
  {
    if |blocks| == 0 then [] else Flatten(blocks[..|blocks| - 1]) + blocks[|blocks| - 1]
  }

  lemma {:induction false} FlattenLength(blocks: seq<seq<real>>, w: nat)
    requires forall i :: 0 <= i < |blocks| ==> |blocks[i]| == w
    ensures |Flatten(blocks)| == |blocks| * w
  {
    if |blocks| > 0 {
      FlattenLength(blocks[..|blocks| - 1], w);
    }
  }

  /** Entry j of block i sits at i * w + j once every block has width w. */
  lemma {:induction false} FlattenAt(blocks: seq<seq<real>>, w: nat, i: int, j: int)
    requires forall i :: 0 <= i < |blocks| ==> |blocks[i]| == w
    requires 0 <= i < |blocks| && 0 <= j < w
    ensures |Flatten(blocks)| == |blocks| * w
    ensures 0 <= i * w + j < |Flatten(blocks)| && Flatten(blocks)[i * w + j] == blocks[i][j]
  {
    FlattenLength(blocks, w);
    IndexBound(i, j, |blocks|, w);
    var k := |blocks| - 1;
    var front := blocks[..k];
    FlattenLength(front, w);
    if i < k {
      FlattenAt(front, w, i, j);
    } else {
      assert i * w + j - k * w == j;
    }
  }

  /** Blocks of equal width w, appended, read back as a matrix with one block per row. */
  lemma Stacked(blocks: seq<seq<real>>, w: nat)
    requires forall i :: 0 <= i < |blocks| ==> |blocks[i]| == w
    ensures WellFormed(Matrix(w, |blocks|, Flatten(blocks)))
    ensures forall i, j :: 0 <= i < |blocks| && 0 <= j < w ==>
              At(Matrix(w, |blocks|, Flatten(blocks)), i, j) == blocks[i][j]
  {
    FlattenLength(blocks, w);
    forall i, j | 0 <= i < |blocks| && 0 <= j < w
      ensures At(Matrix(w, |blocks|, Flatten(blocks)), i, j) == blocks[i][j]
    {
      FlattenAt(blocks, w, i, j);
    }
  }

  /** The dot products MulT appends, grouped by row of n: block r holds the
      products of every row of m with row r of n. */
  function MulTBlocks(m: Matrix, n: Matrix): (blocks: seq<seq<real>>)
    requires WellFormed(m) && WellFormed(n) && m.cols == n.cols
    ensures |blocks| == n.rows
    ensures forall r :: 0 <= r < n.rows ==> |blocks[r]| == m.rows
    ensures forall r, c :: 0 <= r < n.rows && 0 <= c < m.rows ==>
              blocks[r][c] == Vector.DotSum(Row(m, c), Row(n, r))
  {
    seq(n.rows, r requires 0 <= r < n.rows =>
      seq(m.rows, c requires 0 <= c < m.rows => Vector.DotSum(Row(m, c), Row(n, r))))
  }

  /** `m.MulT(n)`: panics unless m.Cols == n.Cols; otherwise, for each row of n
      in order and each row of m in order, appends their dot product, so entry
      (r, c) of the result is row c of m times row r of n. When the common width
      is zero nothing is appended and the result keeps its shape but no data. */
  function MulT(m: Matrix, n: Matrix): (o: Option<Matrix>)
    requires WellFormed(m) && WellFormed(n)
    ensures o.None? <==> m.cols != n.cols
    ensures o.Some? ==> o.value.cols == m.rows && o.value.rows == n.rows
    ensures o.Some? && m.cols == 0 ==> o.value.data == []
    ensures o.Some? && m.cols > 0 ==> WellFormed(o.value)
    ensures o.Some? && m.cols > 0 ==>
              forall r, c :: 0 <= r < n.rows && 0 <= c < m.rows ==>
                At(o.value, r, c) == Vector.DotSum(Row(m, c), Row(n, r))
  {
    if m.cols != n.cols then None
    else if m.cols == 0 then Some(Matrix(m.rows, n.rows, []))
    else
      Stacked(MulTBlocks(m, n), m.rows);
      Some(Matrix(m.rows, n.rows, Flatten(MulTBlocks(m, n))))
  }

  /** For a one-row n (a column vector g), MulT is the matrix-vector product A*g. */
  lemma MulTVector(a: Matrix, g: Matrix)
    requires WellFormed(a) && WellFormed(g) && a.cols == g.cols && a.cols > 0 && g.rows == 1
    ensures MulT(a, g).Some?
    ensures |MulT(a, g).value.data| == a.rows
    ensures forall c :: 0 <= c < a.rows ==> MulT(a, g).value.data[c] == Vector.DotSum(Row(a, c), g.data)
  {
    var o := MulT(a, g).value;
    assert Row(g, 0) == g.data;
    forall c | 0 <= c < a.rows
      ensures o.data[c] == Vector.DotSum(Row(a, c), g.data)
    {
      assert 0 * a.rows + c == c;
    }
  }

  datatype Op = Plus | Minus | Times

  function Apply(op: Op, x: real, y: real): real
  {
    match op
    case Plus => x + y
    case Minus => x - y
    case Times => x * y
  }

  /** `for i, value := range m.Data { o.Data = append(o.Data, value op n.Data[i%lenb]) }` */
  function BroadcastData(md: seq<real>, nd: seq<real>, op: Op): (od: seq<real>)
    requires |nd| > 0
    ensures |od| == |md|
    ensures forall i :: 0 <= i < |md| ==> od[i] == Apply(op, md[i], nd[i % |nd|])
  {
    if |md| == 0 then []
    else BroadcastData(md[..|md| - 1], nd, op) + [Apply(op, md[|md| - 1], nd[(|md| - 1) % |nd|])]
  }

  /** The common body of Add, Sub and Hadamard: a panic when len(m.Data) % len(n.Data)
      is not zero, which includes an empty n (division by zero); otherwise an m-shaped
      result whose i-th entry combines m.Data[i] with n.Data[i mod len(n.Data)]. */
  function Broadcast(m: Matrix, n: Matrix, op: Op): (o: Option<Matrix>)
    ensures o.None? <==> (|n.data| == 0 || |m.data| % |n.data| != 0)
    ensures o.Some? ==> o.value.cols == m.cols && o.value.rows == m.rows && |o.value.data| == |m.data|
    ensures o.Some? ==> forall i :: 0 <= i < |m.data| ==>
              o.value.data[i] == Apply(op, m.data[i], n.data[i % |n.data|])
  {
    if |n.data| == 0 || |m.data| % |n.data| != 0 then None
    else Some(Matrix(m.cols, m.rows, BroadcastData(m.data, n.data, op)))
  }

  function Add(m: Matrix, n: Matrix): Option<Matrix> { Broadcast(m, n, Plus) }

  function Sub(m: Matrix, n: Matrix): Option<Matrix> { Broadcast(m, n, Minus) }

  function Hadamard(m: Matrix, n: Matrix): Option<Matrix> { Broadcast(m, n, Times) }

  /** Over reals, subtracting what was added gives back the original matrix. */
  lemma AddSubCancel(m: Matrix, n: Matrix)
    requires Add(m, n).Some?
    ensures Sub(Add(m, n).value, n) == Some(m)
  {
    var s := Add(m, n).value;
    var d := Sub(s, n).value;
    assert |d.data| == |m.data|;
    forall i | 0 <= i < |m.data| ensures d.data[i] == m.data[i] {
      assert s.data[i] == m.data[i] + n.data[i % |n.data|];
    }
    assert d.data == m.data;
  }

  /** `m.T()`: Cols and Rows swap; the outer loop runs over the columns of m,
      so row i of the result is column i of m. */
  function T(m: Matrix): (o: Matrix)
    requires WellFormed(m)
    ensures o.cols == m.rows && o.rows == m.cols && WellFormed(o)
    ensures forall i, j :: 0 <= i < m.cols && 0 <= j < m.rows ==> At(o, i, j) == At(m, j, i)
  {
    var blocks := seq(m.cols, i requires 0 <= i < m.cols =>
                      seq(m.rows, j requires 0 <= j < m.rows => At(m, j, i)));
    Stacked(blocks, m.rows);
    Matrix(m.rows, m.cols, Flatten(blocks))
  }

  /** Transposing twice gives back the matrix. */
  lemma TransposeTwice(m: Matrix)
    requires WellFormed(m)
    ensures T(T(m)) == m
  {
    var tt := T(T(m));
    forall r, c | 0 <= r < m.rows && 0 <= c < m.cols ensures At(tt, r, c) == At(m, r, c) {
      assert At(tt, r, c) == At(T(m), c, r);
    }
    SameEntries(tt, m);
  }

  /** Two well-formed matrices of one shape with equal entries are equal. */
  lemma SameEntries(a: Matrix, b: Matrix)
    requires WellFormed(a) && WellFormed(b) && a.cols == b.cols && a.rows == b.rows
    requires forall r, c :: 0 <= r < a.rows && 0 <= c < a.cols ==> At(a, r, c) == At(b, r, c)
    ensures a == b
  {
    forall k | 0 <= k < |a.data| ensures a.data[k] == b.data[k] {
      var w := a.cols;
      var r, c := k / w, k % w;
      DivModUnique(k, w, r, c);
      if r >= a.rows {
        MulMono(a.rows, r, w);
        assert false;
      }
      assert At(a, r, c) == At(b, r, c);
    }
  }

  /** Sum over i < k of At(m, i, j). */
  function ColumnTotal(m: Matrix, j: int, k: int): real
    requires WellFormed(m) && 0 <= j < m.cols && 0 <= k <= m.rows
  {
    if k == 0 then 0.0 else ColumnTotal(m, j, k - 1) + At(m, k - 1, j)
  }

  /** The first k rows of m added together, as `o.Data[j] += m.Data[offset+j]` does. */
  function RowTotals(m: Matrix, k: int): (acc: seq<real>)
    requires WellFormed(m) && 0 <= k <= m.rows
    ensures |acc| == m.cols
    ensures forall j :: 0 <= j < m.cols ==> acc[j] == ColumnTotal(m, j, k)
  {
    if k == 0 then Zeros(m.cols)
    else
      var prev := RowTotals(m, k - 1);
      var row := Row(m, k - 1);
      seq(m.cols, j requires 0 <= j < m.cols => prev[j] + row[j])
  }

  /** `m.Sum()`: one row of width Cols whose entry j is the sum of column j. */
  function Sum(m: Matrix): (o: Matrix)
    requires WellFormed(m)
    ensures o.cols == m.cols && o.rows == 1 && WellFormed(o)
    ensures forall j :: 0 <= j < m.cols ==> o.data[j] == ColumnTotal(m, j, m.rows)
  {
    Matrix(m.cols, 1, RowTotals(m, m.rows))
  }
}
