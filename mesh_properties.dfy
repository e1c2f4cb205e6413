/** What one call writes, stated against the enumeration of neighbour pairs in
    module MeshPairs. */
module MeshProperties {
  import opened Netlist
  import opened MeshPairs
  import opened MeshNetlist

  // ---------------------------------------------------------------------
  // The components of a netlist

  /** The resistors and voltage sources among the statements, in order. */
  function Components(s: seq<Statement>): seq<Statement>
    decreases |s|
  {
    if |s| == 0 then []
    else (if s[0].Resistor? || s[0].VSource? then [s[0]] else []) + Components(s[1..])
  }

  lemma {:induction false} ComponentsAppend(a: seq<Statement>, b: seq<Statement>)
    ensures Components(a + b) == Components(a) + Components(b)
    decreases |a|
  {
    if a == [] {
      assert a + b == b;
    } else {
      assert (a + b)[0] == a[0];
      assert (a + b)[1..] == a[1..] + b;
      ComponentsAppend(a[1..], b);
    }
  }

  /** A section: a comment, which is no component, then a run. */
  lemma {:induction false} ComponentsOfSection(prev: seq<Statement>, head: Statement, run: seq<Statement>)
    requires head.Comment?
    ensures Components(prev + ([head] + run)) == Components(prev) + Components(run)
  {
    ComponentsAppend(prev, [head] + run);
    assert ([head] + run)[1..] == run;
  }

  // ---------------------------------------------------------------------
  // Items for lists of pairs

  lemma {:induction false} ElementsAppend(item: Item, a: seq<Pair>, b: seq<Pair>, start: nat)
    ensures Elements(item, a + b, start) == Elements(item, a, start) + Elements(item, b, start + |a|)
    decreases |b|
  {
    if b == [] {
      assert a + b == a;
    } else {
      var k := |b| - 1;
      assert (a + b)[..|a + b| - 1] == a + b[..k];
      assert (a + b)[|a + b| - 1] == b[k];
      ElementsAppend(item, a, b[..k], start);
    }
  }

  /** Resistor items are components. */
  lemma {:induction false} ResistorElementsComponents(n: nat, c: int, es: seq<Pair>, start: nat)
    ensures Components(Elements(ResistorItem(n, c), es, start)) == Elements(ResistorItem(n, c), es, start)
    decreases |es|
  {
    if es != [] {
      var k := |es| - 1;
      var s := ResistorItem(n, c)(start + k, es[k]);
      ResistorElementsComponents(n, c, es[..k], start);
      ComponentsAppend(Elements(ResistorItem(n, c), es[..k], start), s);
      assert s[1..] == [];
    }
  }

  /** A voltage source, when one is written, is a component. */
  lemma {:induction false} VSourceForComponents(idx: nat, uname: string, a: int, b: int, v: int)
    ensures Components(VSourceFor(idx, uname, a, b, v)) == VSourceFor(idx, uname, a, b, v)
  {
    var s := VSourceFor(idx, uname, a, b, v);
    if s != [] {
      assert s[1..] == [];
    }
  }

  /** Voltage-source items are components. */
  lemma {:induction false} SourceElementsComponents(mesh: Mesh, es: seq<Pair>, start: nat)
    ensures Components(Elements(SourceItem(mesh), es, start)) == Elements(SourceItem(mesh), es, start)
    decreases |es|
  {
    if es != [] {
      var k := |es| - 1;
      var e := es[k];
      var s := SourceItem(mesh)(start + k, e);
      assert s == VSourceFor(start + k, "", Flatten(|mesh|, e.0), Flatten(|mesh|, e.1), Difference(mesh, e));
      VSourceForComponents(start + k, "", Flatten(|mesh|, e.0), Flatten(|mesh|, e.1), Difference(mesh, e));
      SourceElementsComponents(mesh, es[..k], start);
      ComponentsAppend(Elements(SourceItem(mesh), es[..k], start), s);
    }
  }

  // ---------------------------------------------------------------------
  // The four loops

  /** The items of the first `rows` rows, row by row: Loop without its row
      comments, the intermediate step between Loop and Elements. */
  function RowItems(item: Item, pairs: nat -> seq<Pair>, start: nat, rows: int): seq<Statement>
    decreases rows
  {
    if rows <= 0 then []
    else RowItems(item, pairs, start, rows - 1) + Elements(item, pairs(rows - 1), start + |Rows(pairs, rows - 1)|)
  }

  lemma {:induction false} LoopComponentsByRow(heading: nat -> string, item: Item, pairs: nat -> seq<Pair>, start: nat, rows: int)
    ensures Components(Loop(heading, item, pairs, start, rows)) == Components(RowItems(item, pairs, start, rows))
    decreases rows
  {
    if rows > 0 {
      var prev := Loop(heading, item, pairs, start, rows - 1);
      var run := Elements(item, pairs(rows - 1), start + |Rows(pairs, rows - 1)|);
      LoopComponentsByRow(heading, item, pairs, start, rows - 1);
      ComponentsOfSection(prev, Comment(heading(rows - 1)), run);
      ComponentsAppend(RowItems(item, pairs, start, rows - 1), run);
    }
  }

  lemma {:induction false} RowItemsElements(item: Item, pairs: nat -> seq<Pair>, start: nat, rows: int)
    ensures RowItems(item, pairs, start, rows) == Elements(item, Rows(pairs, rows), start)
    decreases rows
  {
    if rows > 0 {
      var prev := Rows(pairs, rows - 1);
      var row := pairs(rows - 1);
      calc {
        RowItems(item, pairs, start, rows);
        RowItems(item, pairs, start, rows - 1) + Elements(item, row, start + |prev|);
        { RowItemsElements(item, pairs, start, rows - 1); }
        Elements(item, prev, start) + Elements(item, row, start + |prev|);
        { ElementsAppend(item, prev, row, start); }
        Elements(item, prev + row, start);
      }
      assert Rows(pairs, rows) == prev + row;
    }
  }

  /** The components a loop writes are those of the items for all its pairs, in
      order: the row comments add none and the numbering runs on without a gap. */
  lemma {:induction false} LoopComponents(heading: nat -> string, item: Item, pairs: nat -> seq<Pair>, start: nat, rows: int)
    ensures Components(Loop(heading, item, pairs, start, rows)) == Components(Elements(item, Rows(pairs, rows), start))
  {
    LoopComponentsByRow(heading, item, pairs, start, rows);
    RowItemsElements(item, pairs, start, rows);
  }

  /** Block comments add no components. */
  lemma {:induction false} BlockCommentsComponents(title1: string, l1: seq<Statement>, title2: string, l2: seq<Statement>)
    ensures Components([BlockComment(title1)] + l1 + [BlockComment(title2)] + l2) == Components(l1) + Components(l2)
  {
    var b1 := BlockComment(title1);
    var b2 := BlockComment(title2);
    ComponentsAppend([b1] + l1 + [b2], l2);
    ComponentsAppend([b1] + l1, [b2]);
    ComponentsAppend([b1], l1);
  }

  /** The items for two lists of pairs, the second numbered on from the
      first, have the components of the items for both lists. */
  lemma {:induction false} ElementsComponentsAppend(item: Item, a: seq<Pair>, b: seq<Pair>, start: nat)
    ensures Components(Elements(item, a, start)) + Components(Elements(item, b, start + |a|))
         == Components(Elements(item, a + b, start))
  {
    ComponentsAppend(Elements(item, a, start), Elements(item, b, start + |a|));
    ElementsAppend(item, a, b, start);
  }

  /** The same, for the pairs of two loops. */
  lemma {:induction false} RowsComponentsAppend(item: Item, pairs1: nat -> seq<Pair>, rows1: int,
                                                pairs2: nat -> seq<Pair>, rows2: int, start: nat)
    ensures Components(Elements(item, Rows(pairs1, rows1), start))
            + Components(Elements(item, Rows(pairs2, rows2), start + Count(pairs1, rows1)))
         == Components(Elements(item, Rows(pairs1, rows1) + Rows(pairs2, rows2), start))
  {
    ElementsComponentsAppend(item, Rows(pairs1, rows1), Rows(pairs2, rows2), start);
  }

  /** The components of a half are the items for the pairs of both loops, in
      order and numbered without a gap; the comments add none. */
  lemma {:induction false} HalfComponents(title1: string, heading1: nat -> string, pairs1: nat -> seq<Pair>, rows1: int,
                                          title2: string, heading2: nat -> string, pairs2: nat -> seq<Pair>, rows2: int,
                                          item: Item, start: nat)
    ensures Components(Half(title1, heading1, pairs1, rows1, title2, heading2, pairs2, rows2, item, start))
         == Components(Elements(item, Rows(pairs1, rows1) + Rows(pairs2, rows2), start))
  {
    var l1 := Loop(heading1, item, pairs1, start, rows1);
    var start2 := start + Count(pairs1, rows1);
    var l2 := Loop(heading2, item, pairs2, start2, rows2);
    calc {
      Components(Half(title1, heading1, pairs1, rows1, title2, heading2, pairs2, rows2, item, start));
      Components([BlockComment(title1)] + l1 + [BlockComment(title2)] + l2);
      { BlockCommentsComponents(title1, l1, title2, l2); }
      Components(l1) + Components(l2);
      { LoopComponents(heading1, item, pairs1, start, rows1);
        LoopComponents(heading2, item, pairs2, start2, rows2); }
      Components(Elements(item, Rows(pairs1, rows1), start)) + Components(Elements(item, Rows(pairs2, rows2), start2));
      { RowsComponentsAppend(item, pairs1, rows1, pairs2, rows2, start); }
      Components(Elements(item, Rows(pairs1, rows1) + Rows(pairs2, rows2), start));
    }
  }

  lemma {:induction false} ResistorPartComponents(n: nat, c: int, r0: nat)
    ensures Components(ResistorPart(n, c, r0)) == Elements(ResistorItem(n, c), Edges(n), r0)
  {
    HalfComponents("Row Resistors", Label("Row ", " resistors"), RowPairsOf(n), n,
                   "Column Resistors", Label("Column ", " resistors"), ColumnPairsOf(n), n - 1,
                   ResistorItem(n, c), r0);
    ResistorElementsComponents(n, c, Edges(n), r0);
  }

  lemma {:induction false} SourcePartComponents(mesh: Mesh, v0: nat)
    ensures Components(SourcePart(mesh, v0)) == Elements(SourceItem(mesh), Edges(|mesh|), v0)
  {
    HalfComponents("Row Voltage Sources", Label("Row ", " voltage sources"), RowPairsOf(|mesh|), |mesh|,
                   "Column Voltage Sources", Label("Row ", " voltage sources"), ColumnPairsOf(|mesh|), |mesh| - 1,
                   SourceItem(mesh), v0);
    SourceElementsComponents(mesh, Edges(|mesh|), v0);
  }

  /** The components of one call: a resistor for every neighbour pair, numbered
      from `r0` in the order of Edges, then the voltage sources for the same
      pairs, numbered from `v0`. */
  lemma {:induction false} CallComponents(mesh: Mesh, c: int, r0: nat, v0: nat)
    ensures Components(CallOutput(mesh, c, r0, v0))
         == Elements(ResistorItem(|mesh|, c), Edges(|mesh|), r0) + Elements(SourceItem(mesh), Edges(|mesh|), v0)
  {
    ResistorPartComponents(|mesh|, c, r0);
    SourcePartComponents(mesh, v0);
    ComponentsAppend(ResistorPart(|mesh|, c, r0), SourcePart(mesh, v0));
  }
}
