/** The SpiceGenerator object: two component counters, the mesh size of the
    last call and the netlist written so far. Writing a statement appends it to
    `output`; the file then holds `Text(output)`. */
module SpiceGen {
  import opened Decimal
  import opened Netlist
  import opened MeshPairs
  import opened MeshNetlist

  /** Writing the item of pair `j` of a row extends the row's items by that
      item. */
  lemma {:induction false} ItemStep(before: seq<Statement>, item: Item, row: seq<Pair>, start: nat, j: nat,
                                    out: seq<Statement>, st: seq<Statement>)
    requires j < |row|
    requires out == before + Elements(item, row[..j], start)
    requires st == item(start + j, row[j])
    ensures out + st == before + Elements(item, row[..j + 1], start)
  {
    assert row[..j + 1][..j] == row[..j];
  }

  /** Once the comment and the items of row `i` are written, the loop has
      written its first `i + 1` rows. */
  lemma {:induction false} RowStep(out0: seq<Statement>, heading: nat -> string, item: Item, pairs: nat -> seq<Pair>, start: nat, i: nat,
                                   before: seq<Statement>, comment: string, row: seq<Pair>, out: seq<Statement>)
    requires comment == heading(i) && row == pairs(i)
    requires before == out0 + Loop(heading, item, pairs, start, i)
    requires out == before + [Comment(comment)] + Elements(item, row, start + Count(pairs, i))
    ensures out == out0 + Loop(heading, item, pairs, start, i + 1)
    ensures Count(pairs, i + 1) == Count(pairs, i) + |row|
  {
    var l := Loop(heading, item, pairs, start, i);
    var e := Elements(item, row, start + Count(pairs, i));
    assert Loop(heading, item, pairs, start, i + 1) == l + ([Comment(comment)] + e);
    assert Rows(pairs, i + 1) == Rows(pairs, i) + row;
    assert out0 + l + [Comment(comment)] + e == out0 + (l + ([Comment(comment)] + e));
  }

  /** The two halves of a call, written one after the other. */
  lemma {:induction false} CallStep(out0: seq<Statement>, mesh: Mesh, c: int, r0: nat, v0: nat, out: seq<Statement>)
    requires out == out0 + ResistorPart(|mesh|, c, r0) + SourcePart(mesh, v0)
    ensures out == out0 + CallOutput(mesh, c, r0, v0)
  {
  }

  /** Writing four runs one after the other appends their concatenation. */
  lemma {:induction false} AppendFour(out0: seq<Statement>, a: seq<Statement>, b: seq<Statement>, c: seq<Statement>, d: seq<Statement>)
    ensures out0 + a + b + c + d == out0 + (a + b + c + d)
  {
    assert out0 + a + b == out0 + (a + b);
    assert out0 + (a + b) + c == out0 + (a + b + c);
  }

  // ---------------------------------------------------------------------
  // What each loop of a call writes
  //
  // The functions below are Elements, Count and Loop with the arguments of one
  // loop filled in, and the step lemmas after them are ItemStep and RowStep for
  // one loop each. They carry no lambda, so the loop methods, whose proofs run
  // over a changing heap, reason about plain function terms; proofs that mention
  // the lambdas of Elements and Loop directly are far more expensive to check.

  /** The resistors for the pairs `row`, numbered from `start`. */
  function ResistorRow(n: nat, c: int, row: seq<Pair>, start: nat): seq<Statement>
  {
    Elements(ResistorItem(n, c), row, start)
  }

  /** The voltage sources for the pairs `row`, numbered from `start`. */
  function SourceRow(mesh: Mesh, row: seq<Pair>, start: nat): seq<Statement>
  {
    Elements(SourceItem(mesh), row, start)
  }

  /** How many pairs the first `rows` rows of the row loops visit. */
  function RowCount(n: nat, rows: int): nat
  {
    Count(RowPairsOf(n), rows)
  }

  /** How many pairs the first `rows` rows of the column loops visit. */
  function ColumnCount(n: nat, rows: int): nat
  {
    Count(ColumnPairsOf(n), rows)
  }

  function RowResistorLoop(n: nat, c: int, start: nat, rows: int): seq<Statement>
  {
    Loop(Label("Row ", " resistors"), ResistorItem(n, c), RowPairsOf(n), start, rows)
  }

  function ColumnResistorLoop(n: nat, c: int, start: nat, rows: int): seq<Statement>
  {
    Loop(Label("Column ", " resistors"), ResistorItem(n, c), ColumnPairsOf(n), start, rows)
  }

  function RowSourceLoop(mesh: Mesh, start: nat, rows: int): seq<Statement>
  {
    Loop(Label("Row ", " voltage sources"), SourceItem(mesh), RowPairsOf(|mesh|), start, rows)
  }

  function ColumnSourceLoop(mesh: Mesh, start: nat, rows: int): seq<Statement>
  {
    Loop(Label("Row ", " voltage sources"), SourceItem(mesh), ColumnPairsOf(|mesh|), start, rows)
  }

  lemma {:induction false} ResistorRowStep(n: nat, c: int, row: seq<Pair>, start: nat, j: nat, before: seq<Statement>, out: seq<Statement>)
    requires j < |row|
    requires out == before + ResistorRow(n, c, row[..j], start)
    ensures out + [Resistor(start + j, "", Flatten(n, row[j].0), Flatten(n, row[j].1), c)]
         == before + ResistorRow(n, c, row[..j + 1], start)
  {
    ItemStep(before, ResistorItem(n, c), row, start, j, out, [Resistor(start + j, "", Flatten(n, row[j].0), Flatten(n, row[j].1), c)]);
  }

  lemma {:induction false} SourceRowStep(mesh: Mesh, row: seq<Pair>, start: nat, j: nat, before: seq<Statement>, out: seq<Statement>)
    requires j < |row|
    requires out == before + SourceRow(mesh, row[..j], start)
    ensures out + VSourceFor(start + j, "", Flatten(|mesh|, row[j].0), Flatten(|mesh|, row[j].1), Difference(mesh, row[j]))
         == before + SourceRow(mesh, row[..j + 1], start)
  {
    ItemStep(before, SourceItem(mesh), row, start, j, out,
             VSourceFor(start + j, "", Flatten(|mesh|, row[j].0), Flatten(|mesh|, row[j].1), Difference(mesh, row[j])));
  }

  lemma {:induction false} RowResistorStep(n: nat, c: int, start: nat, i: nat, out0: seq<Statement>, before: seq<Statement>, out: seq<Statement>)
    requires before == out0 + RowResistorLoop(n, c, start, i)
    requires out == before + [Comment("Row " + NatToString(i) + " resistors")] + ResistorRow(n, c, RowPairs(n, i), start + RowCount(n, i))
    ensures out == out0 + RowResistorLoop(n, c, start, i + 1)
    ensures RowCount(n, i + 1) == RowCount(n, i) + |RowPairs(n, i)|
  {
    RowStep(out0, Label("Row ", " resistors"), ResistorItem(n, c), RowPairsOf(n), start, i, before,
            "Row " + NatToString(i) + " resistors", RowPairs(n, i), out);
  }

  lemma {:induction false} ColumnResistorStep(n: nat, c: int, start: nat, i: nat, out0: seq<Statement>, before: seq<Statement>, out: seq<Statement>)
    requires before == out0 + ColumnResistorLoop(n, c, start, i)
    requires out == before + [Comment("Column " + NatToString(i) + " resistors")] + ResistorRow(n, c, ColumnPairs(n, i), start + ColumnCount(n, i))
    ensures out == out0 + ColumnResistorLoop(n, c, start, i + 1)
    ensures ColumnCount(n, i + 1) == ColumnCount(n, i) + |ColumnPairs(n, i)|
  {
    RowStep(out0, Label("Column ", " resistors"), ResistorItem(n, c), ColumnPairsOf(n), start, i, before,
            "Column " + NatToString(i) + " resistors", ColumnPairs(n, i), out);
  }

  lemma {:induction false} RowSourceStep(mesh: Mesh, start: nat, i: nat, out0: seq<Statement>, before: seq<Statement>, out: seq<Statement>)
    requires before == out0 + RowSourceLoop(mesh, start, i)
    requires out == before + [Comment("Row " + NatToString(i) + " voltage sources")] + SourceRow(mesh, RowPairs(|mesh|, i), start + RowCount(|mesh|, i))
    ensures out == out0 + RowSourceLoop(mesh, start, i + 1)
    ensures RowCount(|mesh|, i + 1) == RowCount(|mesh|, i) + |RowPairs(|mesh|, i)|
  {
    RowStep(out0, Label("Row ", " voltage sources"), SourceItem(mesh), RowPairsOf(|mesh|), start, i, before,
            "Row " + NatToString(i) + " voltage sources", RowPairs(|mesh|, i), out);
  }

  lemma {:induction false} ColumnSourceStep(mesh: Mesh, start: nat, i: nat, out0: seq<Statement>, before: seq<Statement>, out: seq<Statement>)
    requires before == out0 + ColumnSourceLoop(mesh, start, i)
    requires out == before + [Comment("Row " + NatToString(i) + " voltage sources")] + SourceRow(mesh, ColumnPairs(|mesh|, i), start + ColumnCount(|mesh|, i))
    ensures out == out0 + ColumnSourceLoop(mesh, start, i + 1)
    ensures ColumnCount(|mesh|, i + 1) == ColumnCount(|mesh|, i) + |ColumnPairs(|mesh|, i)|
  {
    RowStep(out0, Label("Row ", " voltage sources"), SourceItem(mesh), ColumnPairsOf(|mesh|), start, i, before,
            "Row " + NatToString(i) + " voltage sources", ColumnPairs(|mesh|, i), out);
  }

  /** The two loops of a half visit every pair of Edges once. */
  lemma {:induction false} EdgeCount(n: nat)
    ensures RowCount(n, n) + ColumnCount(n, n - 1) == |Edges(n)|
  {
  }

  /** The resistor half of a call: its block comments and two loops. */
  lemma {:induction false} ResistorPartLoops(n: nat, c: int, r0: nat)
    ensures ResistorPart(n, c, r0)
         == [BlockComment("Row Resistors")] + RowResistorLoop(n, c, r0, n)
            + [BlockComment("Column Resistors")] + ColumnResistorLoop(n, c, r0 + RowCount(n, n), n - 1)
  {
  }

  /** The voltage-source half of a call: its block comments and two loops. */
  lemma {:induction false} SourcePartLoops(mesh: Mesh, v0: nat)
    ensures SourcePart(mesh, v0)
         == [BlockComment("Row Voltage Sources")] + RowSourceLoop(mesh, v0, |mesh|)
            + [BlockComment("Column Voltage Sources")] + ColumnSourceLoop(mesh, v0 + RowCount(|mesh|, |mesh|), |mesh| - 1)
  {
  }

  lemma {:induction false} ResistorHalfStep(n: nat, c: int, r0: nat, out0: seq<Statement>, out: seq<Statement>)
    requires out == out0 + [BlockComment("Row Resistors")] + RowResistorLoop(n, c, r0, n)
                    + [BlockComment("Column Resistors")] + ColumnResistorLoop(n, c, r0 + RowCount(n, n), n - 1)
    ensures out == out0 + ResistorPart(n, c, r0)
  {
    ResistorPartLoops(n, c, r0);
    AppendFour(out0, [BlockComment("Row Resistors")], RowResistorLoop(n, c, r0, n),
               [BlockComment("Column Resistors")], ColumnResistorLoop(n, c, r0 + RowCount(n, n), n - 1));
  }

  lemma {:induction false} SourceHalfStep(mesh: Mesh, v0: nat, out0: seq<Statement>, out: seq<Statement>)
    requires out == out0 + [BlockComment("Row Voltage Sources")] + RowSourceLoop(mesh, v0, |mesh|)
                    + [BlockComment("Column Voltage Sources")] + ColumnSourceLoop(mesh, v0 + RowCount(|mesh|, |mesh|), |mesh| - 1)
    ensures out == out0 + SourcePart(mesh, v0)
  {
    SourcePartLoops(mesh, v0);
    AppendFour(out0, [BlockComment("Row Voltage Sources")], RowSourceLoop(mesh, v0, |mesh|),
               [BlockComment("Column Voltage Sources")], ColumnSourceLoop(mesh, v0 + RowCount(|mesh|, |mesh|), |mesh| - 1));
  }

  class SpiceGenerator {
    /** The number the next resistor gets. */
    var rCounter: nat
    /** The number the next voltage source gets. */
    var vCounter: nat
    /** The mesh size of the last call; None before the first call. */
    var meshSize: Option<nat>
    /** Everything written so far, in order. */
    var output: seq<Statement>

    constructor()
      ensures rCounter == 0 && vCounter == 0
      ensures meshSize == None && output == []
    {
      rCounter := 0;
      vCounter := 0;
      meshSize := None;
      output := [];
    }

    /** Writes one statement as a line of the netlist. */
    method Gen(st: Statement)
      modifies this
      ensures output == old(output) + [st]
      ensures rCounter == old(rCounter) && vCounter == old(vCounter) && meshSize == old(meshSize)
    {
      output := output + [st];
    }

    method AddComment(c: string)
      modifies this
      ensures output == old(output) + [Comment(c)]
      ensures rCounter == old(rCounter) && vCounter == old(vCounter) && meshSize == old(meshSize)
    {
      Gen(Comment(c));
    }

    method AddBlockComment(c: string)
      modifies this
      ensures output == old(output) + [BlockComment(c)]
      ensures rCounter == old(rCounter) && vCounter == old(vCounter) && meshSize == old(meshSize)
    {
      Gen(BlockComment(c));
    }

    /** Writes a resistor between the nodes of two cells, numbered with the
        resistor counter, which then advances; nothing else changes. */
    method AddR(a: Cell, b: Cell, r: int, name: string)
      requires meshSize.Some?
      modifies this
      ensures meshSize == old(meshSize)
      ensures output == old(output) + [Resistor(old(rCounter), ConcatName(name), Flatten(meshSize.value, a), Flatten(meshSize.value, b), r)]
      ensures rCounter == old(rCounter) + 1 && vCounter == old(vCounter)
    {
      Gen(Resistor(rCounter, ConcatName(name), Flatten(meshSize.value, a), Flatten(meshSize.value, b), r));
      rCounter := rCounter + 1;
    }

    /** Writes the voltage source for a potential difference `v` from cell `a`
        to cell `b` (none when `v` is zero, terminals swapped and value negated
        when it is negative). The counter advances in every case. */
    method AddV(a: Cell, b: Cell, v: int, name: string)
      requires meshSize.Some?
      modifies this
      ensures meshSize == old(meshSize)
      ensures output == old(output) + VSourceFor(old(vCounter), ConcatName(name), Flatten(meshSize.value, a), Flatten(meshSize.value, b), v)
      ensures vCounter == old(vCounter) + 1 && rCounter == old(rCounter)
    {
      var n := meshSize.value;
      if v > 0 {
        Gen(VSource(vCounter, ConcatName(name), Flatten(n, a), Flatten(n, b), v));
      } else if v < 0 {
        Gen(VSource(vCounter, ConcatName(name), Flatten(n, b), Flatten(n, a), -v));
      }
      vCounter := vCounter + 1;
    }

    /** Writes the netlist of an n by n mesh of potentials: a resistor of
        resistance `c` and, where the potentials differ, a voltage source between
        every two neighbouring cells. Each counter advances by the number of
        neighbour pairs, 2 * n * (n - 1). */
    method Call(mesh: Mesh, c: int)
      requires WellShaped(mesh)
      modifies this
      ensures meshSize == Some(|mesh|)
      ensures output == old(output) + CallOutput(mesh, c, old(rCounter), old(vCounter))
      ensures rCounter == old(rCounter) + |Edges(|mesh|)| == old(rCounter) + 2 * |mesh| * (|mesh| - 1)
      ensures vCounter == old(vCounter) + |Edges(|mesh|)| == old(vCounter) + 2 * |mesh| * (|mesh| - 1)
    {
      var n := |mesh|;
      meshSize := Some(n);
      ghost var out0, r0, v0 := output, rCounter, vCounter;
      Resistors(n, c);
      Sources(mesh);
      CallStep(out0, mesh, c, r0, v0, output);
      EdgesLength(n);
    }

    /** The resistor half of a call: the row loop, then the column loop. */
    method Resistors(n: nat, c: int)
      requires meshSize == Some(n)
      modifies this
      ensures output == old(output) + ResistorPart(n, c, old(rCounter))
      ensures rCounter == old(rCounter) + |Edges(n)|
      ensures vCounter == old(vCounter) && meshSize == old(meshSize)
    {
      ghost var out0, r0 := output, rCounter;
      AddBlockComment("Row Resistors");
      RowResistors(n, c);
      AddBlockComment("Column Resistors");
      ColumnResistors(n, c);
      ResistorHalfStep(n, c, r0, out0, output);
      EdgeCount(n);
    }

    /** The voltage-source half of a call: the row loop, then the column loop. */
    method Sources(mesh: Mesh)
      requires WellShaped(mesh) && meshSize == Some(|mesh|)
      modifies this
      ensures output == old(output) + SourcePart(mesh, old(vCounter))
      ensures vCounter == old(vCounter) + |Edges(|mesh|)|
      ensures rCounter == old(rCounter) && meshSize == old(meshSize)
    {
      ghost var out0, v0 := output, vCounter;
      AddBlockComment("Row Voltage Sources");
      RowSources(mesh);
      AddBlockComment("Column Voltage Sources");
      ColumnSources(mesh);
      SourceHalfStep(mesh, v0, out0, output);
      EdgeCount(|mesh|);
    }

    /** The row loop of the resistor half: for each row a comment, then each
        cell of the row joined to its right-hand neighbour. */
    method RowResistors(n: nat, c: int)
      requires meshSize == Some(n)
      modifies this
      ensures output == old(output) + RowResistorLoop(n, c, old(rCounter), n)
      ensures rCounter == old(rCounter) + RowCount(n, n)
      ensures vCounter == old(vCounter) && meshSize == old(meshSize)
    {
      ghost var out0, start := output, rCounter;
      var i := 0;
      while i < n
        invariant 0 <= i <= n
        invariant output == out0 + RowResistorLoop(n, c, start, i)
        invariant rCounter == start + RowCount(n, i)
        invariant vCounter == old(vCounter) && meshSize == old(meshSize)
      {
        ghost var before := output;
        RowResistorsOf(n, c, i);
        RowResistorStep(n, c, start, i, out0, before, output);
        i := i + 1;
      }
    }

    /** One pass of the row loop of the resistor half: row `i`. */
    method RowResistorsOf(n: nat, c: int, i: nat)
      requires meshSize == Some(n)
      modifies this
      ensures output == old(output) + [Comment("Row " + NatToString(i) + " resistors")] + ResistorRow(n, c, RowPairs(n, i), old(rCounter))
      ensures rCounter == old(rCounter) + |RowPairs(n, i)|
      ensures vCounter == old(vCounter) && meshSize == old(meshSize)
    {
      AddComment("Row " + NatToString(i) + " resistors");
      ghost var out0, start, row := output, rCounter, RowPairs(n, i);
      var rows := if n == 0 then 0 else n - 1;
      var j := 0;
      while j < rows
        invariant 0 <= j <= rows
        invariant output == out0 + ResistorRow(n, c, row[..j], start)
        invariant rCounter == start + j
        invariant vCounter == old(vCounter) && meshSize == old(meshSize)
      {
        ResistorRowStep(n, c, row, start, j, out0, output);
        AddR((i, j), (i, j + 1), c, "");
        j := j + 1;
      }
      assert row[..j] == row;
    }

    /** The column loop of the resistor half: for each row but the last a
        comment, then each cell of the row joined to the cell below it. */
    method ColumnResistors(n: nat, c: int)
      requires meshSize == Some(n)
      modifies this
      ensures output == old(output) + ColumnResistorLoop(n, c, old(rCounter), n - 1)
      ensures rCounter == old(rCounter) + ColumnCount(n, n - 1)
      ensures vCounter == old(vCounter) && meshSize == old(meshSize)
    {
      ghost var out0, start := output, rCounter;
      var rows := if n == 0 then 0 else n - 1;
      var i := 0;
      while i < rows
        invariant 0 <= i <= rows
        invariant output == out0 + ColumnResistorLoop(n, c, start, i)
        invariant rCounter == start + ColumnCount(n, i)
        invariant vCounter == old(vCounter) && meshSize == old(meshSize)
      {
        ghost var before := output;
        ColumnResistorsOf(n, c, i);
        ColumnResistorStep(n, c, start, i, out0, before, output);
        i := i + 1;
      }
      if n == 0 {
        assert ColumnResistorLoop(n, c, start, -1) == ColumnResistorLoop(n, c, start, 0);
        assert ColumnCount(n, -1) == ColumnCount(n, 0);
      }
    }

    /** One pass of the column loop of the resistor half: rows `i` and `i + 1`. */
    method ColumnResistorsOf(n: nat, c: int, i: nat)
      requires meshSize == Some(n)
      modifies this
      ensures output == old(output) + [Comment("Column " + NatToString(i) + " resistors")] + ResistorRow(n, c, ColumnPairs(n, i), old(rCounter))
      ensures rCounter == old(rCounter) + |ColumnPairs(n, i)|
      ensures vCounter == old(vCounter) && meshSize == old(meshSize)
    {
      AddComment("Column " + NatToString(i) + " resistors");
      ghost var out0, start, row := output, rCounter, ColumnPairs(n, i);
      var j := 0;
      while j < n
        invariant 0 <= j <= n
        invariant output == out0 + ResistorRow(n, c, row[..j], start)
        invariant rCounter == start + j
        invariant vCounter == old(vCounter) && meshSize == old(meshSize)
      {
        ResistorRowStep(n, c, row, start, j, out0, output);
        AddR((i, j), (i + 1, j), c, "");
        j := j + 1;
      }
      assert row[..j] == row;
    }

    /** The row loop of the voltage-source half: for each row a comment, then
        the source between each cell of the row and its right-hand neighbour. */
    method RowSources(mesh: Mesh)
      requires WellShaped(mesh) && meshSize == Some(|mesh|)
      modifies this
      ensures output == old(output) + RowSourceLoop(mesh, old(vCounter), |mesh|)
      ensures vCounter == old(vCounter) + RowCount(|mesh|, |mesh|)
      ensures rCounter == old(rCounter) && meshSize == old(meshSize)
    {
      ghost var out0, start := output, vCounter;
      var i := 0;
      while i < |mesh|
        invariant 0 <= i <= |mesh|
        invariant output == out0 + RowSourceLoop(mesh, start, i)
        invariant vCounter == start + RowCount(|mesh|, i)
        invariant rCounter == old(rCounter) && meshSize == old(meshSize)
      {
        ghost var before := output;
        RowSourcesOf(mesh, i);
        RowSourceStep(mesh, start, i, out0, before, output);
        i := i + 1;
      }
    }

    /** One pass of the row loop of the voltage-source half: row `i`. */
    method RowSourcesOf(mesh: Mesh, i: nat)
      requires WellShaped(mesh) && meshSize == Some(|mesh|) && i < |mesh|
      modifies this
      ensures output == old(output) + [Comment("Row " + NatToString(i) + " voltage sources")] + SourceRow(mesh, RowPairs(|mesh|, i), old(vCounter))
      ensures vCounter == old(vCounter) + |RowPairs(|mesh|, i)|
      ensures rCounter == old(rCounter) && meshSize == old(meshSize)
    {
      var n := |mesh|;
      AddComment("Row " + NatToString(i) + " voltage sources");
      ghost var out0, start, row := output, vCounter, RowPairs(n, i);
      var j := 0;
      while j < n - 1
        invariant 0 <= j <= n - 1
        invariant output == out0 + SourceRow(mesh, row[..j], start)
        invariant vCounter == start + j
        invariant rCounter == old(rCounter) && meshSize == old(meshSize)
      {
        assert |mesh[i]| >= n;
        assert Difference(mesh, row[j]) == mesh[i][j] - mesh[i][j + 1];
        SourceRowStep(mesh, row, start, j, out0, output);
        AddV((i, j), (i, j + 1), mesh[i][j] - mesh[i][j + 1], "");
        j := j + 1;
      }
      assert row[..j] == row;
    }

    /** The column loop of the voltage-source half: for each row but the last a
        comment (which says "Row", as the generator writes it), then the source
        between each cell of the row and the cell below it. */
    method ColumnSources(mesh: Mesh)
      requires WellShaped(mesh) && meshSize == Some(|mesh|)
      modifies this
      ensures output == old(output) + ColumnSourceLoop(mesh, old(vCounter), |mesh| - 1)
      ensures vCounter == old(vCounter) + ColumnCount(|mesh|, |mesh| - 1)
      ensures rCounter == old(rCounter) && meshSize == old(meshSize)
    {
      ghost var out0, start := output, vCounter;
      var rows := if |mesh| == 0 then 0 else |mesh| - 1;
      var i := 0;
      while i < rows
        invariant 0 <= i <= rows
        invariant output == out0 + ColumnSourceLoop(mesh, start, i)
        invariant vCounter == start + ColumnCount(|mesh|, i)
        invariant rCounter == old(rCounter) && meshSize == old(meshSize)
      {
        ghost var before := output;
        ColumnSourcesOf(mesh, i);
        ColumnSourceStep(mesh, start, i, out0, before, output);
        i := i + 1;
      }
      if |mesh| == 0 {
        assert ColumnSourceLoop(mesh, start, -1) == ColumnSourceLoop(mesh, start, 0);
        assert ColumnCount(|mesh|, -1) == ColumnCount(|mesh|, 0);
      }
    }

    /** One pass of the column loop of the voltage-source half: rows `i` and
        `i + 1`. */
    method ColumnSourcesOf(mesh: Mesh, i: nat)
      requires WellShaped(mesh) && meshSize == Some(|mesh|) && i < |mesh| - 1
      modifies this
      ensures output == old(output) + [Comment("Row " + NatToString(i) + " voltage sources")] + SourceRow(mesh, ColumnPairs(|mesh|, i), old(vCounter))
      ensures vCounter == old(vCounter) + |ColumnPairs(|mesh|, i)|
      ensures rCounter == old(rCounter) && meshSize == old(meshSize)
    {
      var n := |mesh|;
      AddComment("Row " + NatToString(i) + " voltage sources");
      ghost var out0, start, row := output, vCounter, ColumnPairs(n, i);
      var j := 0;
      while j < n
        invariant 0 <= j <= n
        invariant output == out0 + SourceRow(mesh, row[..j], start)
        invariant vCounter == start + j
        invariant rCounter == old(rCounter) && meshSize == old(meshSize)
      {
        assert |mesh[i]| >= n && |mesh[i + 1]| >= n;
        assert Difference(mesh, row[j]) == mesh[i][j] - mesh[i + 1][j];
        SourceRowStep(mesh, row, start, j, out0, output);
        AddV((i, j), (i + 1, j), mesh[i][j] - mesh[i + 1][j], "");
        j := j + 1;
      }
      assert row[..j] == row;
    }
  }
}
