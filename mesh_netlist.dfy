/** What one call of a SpiceGenerator on an n by n mesh writes, as a function of
    the mesh, the resistance and the two counters it starts from. The four loops
    of the call have one shape, Loop: for each row they visit, a comment naming
    the row, then one item per neighbour pair of that row, numbered on from the
    items of the rows before it. */
module MeshNetlist {
  import opened Decimal
  import opened Netlist
  import opened MeshPairs

  type Mesh = seq<seq<int>>

  /** Every row has an entry for each of the `|mesh|` columns the call reads;
      a mesh of one row is never indexed, so any such row will do. */
  predicate WellShaped(mesh: Mesh) {
    |mesh| <= 1 || forall i :: 0 <= i < |mesh| ==> |mesh[i]| >= |mesh|
  }

  /** The potential the mesh gives a cell (zero outside the mesh). */
  function Potential(mesh: Mesh, cell: Cell): int
  {
    if 0 <= cell.0 < |mesh| && 0 <= cell.1 < |mesh[cell.0]| then mesh[cell.0][cell.1] else 0
  }

  /** The potential of the pair's first cell minus that of its second. */
  function Difference(mesh: Mesh, e: Pair): int
  {
    Potential(mesh, e.0) - Potential(mesh, e.1)
  }

  /** What a loop writes for one neighbour pair, given the number the pair's
      element gets. */
  type Item = (nat, Pair) -> seq<Statement>

  /** The unnamed resistor of resistance `c` joining the pair's nodes. */
  function ResistorItem(n: nat, c: int): Item
  {
    (k: nat, e: Pair) => [Resistor(k, "", Flatten(n, e.0), Flatten(n, e.1), c)]
  }

  /** The unnamed voltage source from the first cell's node to the second's,
      with the difference of their potentials as value, as VSourceFor writes it. */
  function SourceItem(mesh: Mesh): Item
  {
    (k: nat, e: Pair) =>
      VSourceFor(k, "", Flatten(|mesh|, e.0), Flatten(|mesh|, e.1), Difference(mesh, e))
  }

  /** The items for the pairs `es`, the one of pair `k` numbered `start + k`. */
  function Elements(item: Item, es: seq<Pair>, start: nat): seq<Statement>
    decreases |es|
  {
    if |es| == 0 then [] else Elements(item, es[..|es| - 1], start) + item(start + |es| - 1, es[|es| - 1])
  }

  /** The row comment "<prefix><i><suffix>". */
  function Label(prefix: string, suffix: string): nat -> string
  {
    (i: nat) => prefix + NatToString(i) + suffix
  }

  /** What one of the four loops writes for its first `rows` rows: per row `i` the
      comment `heading(i)`, then the items for the pairs `pairs(i)`, numbered on
      from `start` across the rows. */
  function Loop(heading: nat -> string, item: Item, pairs: nat -> seq<Pair>, start: nat, rows: int): seq<Statement>
    decreases rows
  {
    if rows <= 0 then []
    else
      Loop(heading, item, pairs, start, rows - 1)
      + ([Comment(heading(rows - 1))] + Elements(item, pairs(rows - 1), start + |Rows(pairs, rows - 1)|))
  }

  /** Half of a call: a block comment, a loop over `rows1` rows writing `item`
      for the pairs `pairs1(i)` of each row `i`, another block comment and a
      second loop, numbered on from the first. */
  function Half(title1: string, heading1: nat -> string, pairs1: nat -> seq<Pair>, rows1: int,
                title2: string, heading2: nat -> string, pairs2: nat -> seq<Pair>, rows2: int,
                item: Item, start: nat): seq<Statement>
  {
    [BlockComment(title1)] + Loop(heading1, item, pairs1, start, rows1)
    + [BlockComment(title2)] + Loop(heading2, item, pairs2, start + Count(pairs1, rows1), rows2)
  }

  /** The resistor half of a call: the row loop joins each cell to its
      right-hand neighbour, the column loop each cell to the cell below. */
  function ResistorPart(n: nat, c: int, r0: nat): seq<Statement>
  {
    Half("Row Resistors", Label("Row ", " resistors"), RowPairsOf(n), n,
         "Column Resistors", Label("Column ", " resistors"), ColumnPairsOf(n), n - 1,
         ResistorItem(n, c), r0)
  }

  /** The voltage-source half of a call; the comments of its column loop say
      "Row", as the generator writes them. */
  function SourcePart(mesh: Mesh, v0: nat): seq<Statement>
  {
    Half("Row Voltage Sources", Label("Row ", " voltage sources"), RowPairsOf(|mesh|), |mesh|,
         "Column Voltage Sources", Label("Row ", " voltage sources"), ColumnPairsOf(|mesh|), |mesh| - 1,
         SourceItem(mesh), v0)
  }

  /** Everything one call writes, with resistance `c`, when the resistor counter
      starts at `r0` and the voltage-source counter at `v0`. */
  function CallOutput(mesh: Mesh, c: int, r0: nat, v0: nat): seq<Statement>
  {
    ResistorPart(|mesh|, c, r0) + SourcePart(mesh, v0)
  }
}
