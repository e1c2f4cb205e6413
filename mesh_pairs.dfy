/** The pairs of neighbouring cells of an n by n mesh in the order the
    generator visits them: the row pairs `((i, j), (i, j + 1))` row by row, then
    the column pairs `((i, j), (i + 1, j))` row by row. Pair number `p` of this
    list is the pair behind resistor `r0 + p` and voltage source `v0 + p`. */
module MeshPairs {
  import opened Netlist

  type Pair = (Cell, Cell)

  predicate InMesh(n: nat, c: Cell) {
    0 <= c.0 < n && 0 <= c.1 < n
  }

  /** The second cell is the right-hand neighbour of the first. */
  predicate Horizontal(e: Pair) {
    e.1 == (e.0.0, e.0.1 + 1)
  }

  /** The second cell is the neighbour below the first. */
  predicate Vertical(e: Pair) {
    e.1 == (e.0.0 + 1, e.0.1)
  }

  /** The pairs of row `i`: each cell but the last with its right-hand neighbour. */
  function RowPairs(n: nat, i: int): seq<Pair>
  {
    seq(if n == 0 then 0 else n - 1, j requires 0 <= j < n - 1 => ((i, j), (i, j + 1)))
  }

  /** The pairs between rows `i` and `i + 1`: each cell with the cell below it. */
  function ColumnPairs(n: nat, i: int): seq<Pair>
  {
    seq(n, j requires 0 <= j < n => ((i, j), (i + 1, j)))
  }

  /** The pairs of the first `rows` rows, one row after the other, when row `i`
      contributes the pairs `pairs(i)`. */
  function Rows(pairs: nat -> seq<Pair>, rows: int): seq<Pair>
    decreases rows
  {
    if rows <= 0 then [] else Rows(pairs, rows - 1) + pairs(rows - 1)
  }

  /** How many pairs the first `rows` rows contribute. */
  function Count(pairs: nat -> seq<Pair>, rows: int): nat
  {
    |Rows(pairs, rows)|
  }

  function RowPairsOf(n: nat): nat -> seq<Pair>
  {
    (i: nat) => RowPairs(n, i)
  }

  function ColumnPairsOf(n: nat): nat -> seq<Pair>
  {
    (i: nat) => ColumnPairs(n, i)
  }

  /** All neighbour pairs of the mesh, numbered as the generator numbers them. */
  function Edges(n: nat): seq<Pair>
  {
    Rows(RowPairsOf(n), n) + Rows(ColumnPairsOf(n), n - 1)
  }

  lemma {:induction false} RowEdgesLength(n: nat, rows: nat)
    requires rows <= n
    ensures |Rows(RowPairsOf(n), rows)| == rows * (n - 1)
    decreases rows
  {
    if rows > 0 {
      RowEdgesLength(n, rows - 1);
      assert rows * (n - 1) == (rows - 1) * (n - 1) + (n - 1);
    }
  }

  lemma {:induction false} ColumnEdgesLength(n: nat, rows: nat)
    requires rows <= n - 1
    ensures |Rows(ColumnPairsOf(n), rows)| == rows * n
    decreases rows
  {
    if rows > 0 {
      ColumnEdgesLength(n, rows - 1);
      assert rows * n == (rows - 1) * n + n;
    }
  }

  lemma {:induction false} RowEdgesShape(n: nat, rows: nat)
    requires rows <= n
    ensures forall p :: 0 <= p < |Rows(RowPairsOf(n), rows)| ==>
              var e := Rows(RowPairsOf(n), rows)[p];
              InMesh(n, e.0) && InMesh(n, e.1) && Horizontal(e) && e.0.0 < rows
    decreases rows
  {
    if rows > 0 {
      RowEdgesShape(n, rows - 1);
    }
  }

  lemma {:induction false} ColumnEdgesShape(n: nat, rows: nat)
    requires rows <= n - 1
    ensures forall p :: 0 <= p < |Rows(ColumnPairsOf(n), rows)| ==>
              var e := Rows(ColumnPairsOf(n), rows)[p];
              InMesh(n, e.0) && InMesh(n, e.1) && Vertical(e) && e.0.0 < rows
    decreases rows
  {
    if rows > 0 {
      ColumnEdgesShape(n, rows - 1);
    }
  }

  lemma {:induction false} RowEdgesDistinct(n: nat, rows: nat)
    requires rows <= n
    ensures forall p, q :: 0 <= p < q < |Rows(RowPairsOf(n), rows)| ==> Rows(RowPairsOf(n), rows)[p] != Rows(RowPairsOf(n), rows)[q]
    decreases rows
  {
    if rows > 0 {
      RowEdgesDistinct(n, rows - 1);
      RowEdgesShape(n, rows - 1);
    }
  }

  lemma {:induction false} ColumnEdgesDistinct(n: nat, rows: nat)
    requires rows <= n - 1
    ensures forall p, q :: 0 <= p < q < |Rows(ColumnPairsOf(n), rows)| ==> Rows(ColumnPairsOf(n), rows)[p] != Rows(ColumnPairsOf(n), rows)[q]
    decreases rows
  {
    if rows > 0 {
      ColumnEdgesDistinct(n, rows - 1);
      ColumnEdgesShape(n, rows - 1);
    }
  }

  lemma {:induction false} RowEdgesComplete(n: nat, rows: nat, i: int, j: int)
    requires rows <= n && 0 <= i < rows && 0 <= j < n - 1
    ensures ((i, j), (i, j + 1)) in Rows(RowPairsOf(n), rows)
    decreases rows
  {
    if i < rows - 1 {
      RowEdgesComplete(n, rows - 1, i, j);
    } else {
      assert RowPairs(n, i)[j] == ((i, j), (i, j + 1));
    }
  }

  lemma {:induction false} ColumnEdgesComplete(n: nat, rows: nat, i: int, j: int)
    requires rows <= n - 1 && 0 <= i < rows && 0 <= j < n
    ensures ((i, j), (i + 1, j)) in Rows(ColumnPairsOf(n), rows)
    decreases rows
  {
    if i < rows - 1 {
      ColumnEdgesComplete(n, rows - 1, i, j);
    } else {
      assert ColumnPairs(n, i)[j] == ((i, j), (i + 1, j));
    }
  }

  /** There are `n * (n - 1)` row pairs and as many column pairs. */
  lemma {:induction false} EdgesLength(n: nat)
    ensures |Rows(RowPairsOf(n), n)| == n * (n - 1)
    ensures |Edges(n)| == 2 * n * (n - 1)
  {
    RowEdgesLength(n, n);
    if n >= 1 {
      ColumnEdgesLength(n, n - 1);
    }
  }

  /** Every pair joins two cells of the mesh that are neighbours: the first
      `n * (n - 1)` pairs horizontally, the rest vertically. */
  lemma {:induction false} EdgesAdjacent(n: nat)
    ensures forall p :: 0 <= p < |Edges(n)| ==>
              InMesh(n, Edges(n)[p].0) && InMesh(n, Edges(n)[p].1) &&
              (p < n * (n - 1) ==> Horizontal(Edges(n)[p])) &&
              (p >= n * (n - 1) ==> Vertical(Edges(n)[p]))
  {
    EdgesLength(n);
    RowEdgesShape(n, n);
    if n >= 1 {
      ColumnEdgesShape(n, n - 1);
    }
  }

  /** No pair of neighbours is listed twice. */
  lemma {:induction false} EdgesDistinct(n: nat)
    ensures forall p, q :: 0 <= p < q < |Edges(n)| ==> Edges(n)[p] != Edges(n)[q]
  {
    RowEdgesDistinct(n, n);
    RowEdgesShape(n, n);
    if n >= 1 {
      ColumnEdgesDistinct(n, n - 1);
      ColumnEdgesShape(n, n - 1);
    }
  }

  /** Every pair of neighbouring cells of the mesh is listed. */
  lemma {:induction false} EdgesComplete(n: nat, a: Cell, b: Cell)
    requires InMesh(n, a) && InMesh(n, b)
    requires b == (a.0, a.1 + 1) || b == (a.0 + 1, a.1)
    ensures (a, b) in Edges(n)
  {
    if b == (a.0, a.1 + 1) {
      RowEdgesComplete(n, n, a.0, a.1);
    } else {
      ColumnEdgesComplete(n, n - 1, a.0, a.1);
    }
  }
}
