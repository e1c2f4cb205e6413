# SPICE netlist generator for a potential mesh

This project models `SpiceGenerator` from `spice_gen.py`. The generator turns an
N by N grid of potentials and one resistance value into a SPICE netlist of a
resistor mesh:

- Cell `(i, j)` becomes node `i*N + j`.
- Every two horizontally neighbouring cells get a resistor, then every two
  vertically neighbouring cells get one.
- Every neighbour pair then gets a piece-wise-linear voltage source, whose value
  is the difference of the two potentials. The source is written with a positive
  value: when the difference is negative, the terminals are swapped. When the
  difference is zero, nothing is written.
- Resistors and voltage sources are numbered by two separate counters. The
  voltage-source counter advances even for a zero difference.

The model has one module per concern:

- `decimal.dfy` (`Decimal`): the decimal text Python's `str` gives an integer,
  and a reader for it.
- `netlist.dfy` (`Netlist`): the statement datatype and the node numbering
  (`flatten_idx`).
  - The name suffix (`concat_name`) and the sign convention of `add_v`.
  - The text each statement becomes under the four format strings.
  - A line reader. It is not part of the generator; it exists to state that the
    resistor and voltage-source lines can be read back.
- `mesh_pairs.dfy` (`MeshPairs`): the neighbour pairs the four loops of
  `__call__` visit, in order, and their count, adjacency, distinctness and
  completeness.
- `mesh_netlist.dfy` (`MeshNetlist`): `CallOutput`, the sequence of statements
  one call writes, as a function of the mesh, the resistance and the two
  starting counter values.
- `mesh_properties.dfy` (`MeshProperties`): with the comments removed,
  `CallOutput` is the list of resistors for all pairs followed by the list of
  voltage sources.
- `mesh_elements.dfy` (`MeshElements`): what those two lists contain. This covers
  numbering, node adjacency, and voltage sources exactly for the unequal pairs.
- `spice_gen.dfy` (`SpiceGen`): the class with its two counters, the mesh size
  and the output written so far.
  - One method per operation of the source, with the four nested loops of
    `__call__` as loop methods.
  - Each method is proved to append exactly what `CallOutput` or the statement
    functions say.

The netlist file is modelled as the sequence of statements written to it.
`Netlist.Text` gives the file's contents: each rendered statement followed by a
line break.

The column voltage-source loop labels its rows "Row i voltage sources", like the
row loop (spice_gen.py:51). The model keeps that label.

The generator writes no voltage source at all for a zero difference. It
writes component indices without zero padding. It writes no directional
ammeter sources, no fixed-potential sources and no analysis directives, and
the model has none of these either.

## Model

| member | source | states |
|---|---|---|
| SpiceGen.SpiceGenerator.constructor | spice_gen.py:13-15 | both component counters start at 0, nothing is written yet and no mesh size is set |
| SpiceGen.SpiceGenerator.Gen | spice_gen.py:102-103 | writing a statement appends exactly that statement to the output and changes nothing else |
| SpiceGen.SpiceGenerator.AddComment | spice_gen.py:87-88 | appends exactly one single-line comment with the given text; counters and mesh size unchanged |
| SpiceGen.SpiceGenerator.AddBlockComment | spice_gen.py:84-85 | appends exactly one block comment with the given text; counters and mesh size unchanged |
| SpiceGen.SpiceGenerator.AddR | spice_gen.py:61-67 | appends exactly one resistor, numbered with the old resistor counter, with the name suffix of `name`, the flattened nodes of the two cells in the given order and value `r`; the resistor counter grows by 1, the voltage-source counter and mesh size are unchanged |
| SpiceGen.SpiceGenerator.AddV | spice_gen.py:69-82 | appends what `VSourceFor` gives for the old voltage-source counter: nothing for `v == 0`, otherwise one source with a positive value, with the terminals in order for `v > 0` and swapped with value `-v` for `v < 0`; the voltage-source counter grows by 1 in every case and the resistor counter is unchanged |
| SpiceGen.SpiceGenerator.Call | spice_gen.py:23-54 | sets the mesh size to the number of rows; the output grows by exactly `CallOutput` of the mesh, resistance and old counters; each counter grows by 2N(N-1), the number of neighbour pairs |
| SpiceGen.SpiceGenerator.Resistors | spice_gen.py:26-38 | appends the "Row Resistors" block, its row loop, the "Column Resistors" block and its column loop; the resistor counter grows by the number of pairs; the voltage-source counter is unchanged |
| SpiceGen.SpiceGenerator.Sources | spice_gen.py:40-54 | appends the two voltage-source blocks with their loops; the voltage-source counter grows by the number of pairs; the resistor counter is unchanged |
| SpiceGen.SpiceGenerator.RowResistors | spice_gen.py:28-31 | the outer row loop appends, row by row, a comment and the resistors joining each cell to its right-hand neighbour, numbered consecutively; the counter grows by N(N-1) |
| SpiceGen.SpiceGenerator.RowResistorsOf | spice_gen.py:29-31 | one pass of that loop: the comment "Row i resistors", then the N-1 resistors of row i numbered on from the counter |
| SpiceGen.SpiceGenerator.ColumnResistors | spice_gen.py:35-38 | the outer column loop appends, for rows 0..N-2, a comment and the resistors joining each cell to the cell below; the counter grows by (N-1)N |
| SpiceGen.SpiceGenerator.ColumnResistorsOf | spice_gen.py:36-38 | one pass of that loop: the comment "Column i resistors", then the N resistors from row i to row i+1 |
| SpiceGen.SpiceGenerator.RowSources | spice_gen.py:42-46 | the outer row loop appends, row by row, a comment and the voltage sources for the horizontal differences; the counter grows by N(N-1) whether or not sources are written |
| SpiceGen.SpiceGenerator.RowSourcesOf | spice_gen.py:43-46 | one pass of that loop: the comment "Row i voltage sources", then `VSourceFor` of `mesh[i][j] - mesh[i][j+1]` for each j |
| SpiceGen.SpiceGenerator.ColumnSources | spice_gen.py:50-54 | the outer column loop appends, for rows 0..N-2, a comment and the voltage sources for the vertical differences; the counter grows by (N-1)N |
| SpiceGen.SpiceGenerator.ColumnSourcesOf | spice_gen.py:51-54 | one pass of that loop: the comment "Row i voltage sources" (as written), then `VSourceFor` of `mesh[i][j] - mesh[i+1][j]` for each j |
| Netlist.Flatten | spice_gen.py:93-94 | the node number of cell `(i, j)` in a mesh N wide is `i*N + j`; its properties are the three `Flatten` lemmas below |
| Netlist.FlattenInRange | spice_gen.py:93-94 | every cell of an N by N mesh gets a node number in [0, N*N) |
| Netlist.FlattenInjective | spice_gen.py:93-94 | two cells whose columns lie in [0, N) and that get the same node number are the same cell |
| Netlist.FlattenDown | spice_gen.py:93-94 | the cell below gets the node number N further on |
| Netlist.ConcatName | spice_gen.py:96-100 | the suffix is empty exactly when the name is empty, and is otherwise an underscore followed by the name |
| Netlist.ConcatNameWellFormed | spice_gen.py:96-100 | the suffix of a name without blanks can be told apart from the node fields that follow it |
| Netlist.VSourceFor | spice_gen.py:69-81 | no source for a zero difference, otherwise exactly one, always with a positive value; terminals in order and value `v` for `v > 0`, swapped and `-v` for `v < 0` |
| Netlist.VSourceForSwap | spice_gen.py:69-81 | writing difference `v` from `a` to `b` gives the same source as writing `-v` from `b` to `a`, so the written source depends only on the directed drop, not on the order the caller names the cells |
| Netlist.Render | spice_gen.py:8-11 | the text of a statement as the four format strings lay it out: `* c`, the block comment `\n*\n* c\n*\n`, `R<i><suffix> <n1> <n2> <r>` and `V<i><suffix> <n1> <n2> PWL(0, <v>)`; `ParseElementOfRender` proves the two element layouts unambiguous |
| Netlist.Text | spice_gen.py:102-103 | the file contents after a run of writes, each statement followed by a line break: empty exactly when nothing was written, otherwise ending in a line break |
| Netlist.TextAppend | spice_gen.py:102-103 | the file text of two batches of writes is the text of the first followed by the text of the second |
| Netlist.ParseElementOfRender | spice_gen.py:10-11 | a resistor or voltage-source line, laid out as the two format strings say, reads back as the same statement (index, suffix, nodes and value) |
| Decimal.NatToString | spice_gen.py:29 | the decimal text of a natural number is a non-empty string of digits without a leading zero |
| Decimal.IntToString | spice_gen.py:10-11 | the text `str` gives an integer in the node and value fields: non-empty, digits only for a non-negative number, a minus sign followed by digits for a negative one |
| Decimal.ParseIntOfIntToString | spice_gen.py:10-11 | the decimal text of an integer field reads back as that integer |
| Decimal.IntToStringInjective | spice_gen.py:10-11 | different integers are written as different texts |
| MeshPairs.Edges | spice_gen.py:28-54 | the neighbour pairs in the order each half of a call visits them: row by row the pairs `(i,j)`-`(i,j+1)`, then for rows 0..N-2 the pairs `(i,j)`-`(i+1,j)`; the `Edges` lemmas below state its length, adjacency, distinctness and completeness |
| MeshPairs.EdgesLength | spice_gen.py:28-38 | the row loops visit N(N-1) pairs and both loops together 2N(N-1) |
| MeshPairs.EdgesAdjacent | spice_gen.py:28-38 | every visited pair lies in the mesh; the first N(N-1) are horizontal neighbours and all later ones vertical neighbours |
| MeshPairs.EdgesDistinct | spice_gen.py:28-38 | no pair of cells is visited twice |
| MeshPairs.EdgesComplete | spice_gen.py:28-38 | every pair of horizontally or vertically neighbouring cells in the mesh is visited |
| MeshNetlist.CallOutput | spice_gen.py:23-54 | everything one call writes from counters `r0` and `v0`: the "Row Resistors" block and its row loop, the "Column Resistors" block and its column loop, then the same for voltage sources, each loop a row comment followed by that row's items |
| MeshProperties.CallComponents | spice_gen.py:23-54 | with the comments removed, a call writes the resistors for all visited pairs numbered from the old resistor counter, followed by the voltage sources for the same pairs numbered from the old voltage-source counter |
| MeshProperties.ResistorPartComponents | spice_gen.py:26-38 | with the comments removed, the resistor half writes one resistor per visited pair, numbered consecutively |
| MeshProperties.SourcePartComponents | spice_gen.py:40-54 | with the comments removed, the voltage-source half writes `VSourceFor` of each visited pair's difference, numbered consecutively |
| MeshElements.CallResistor | spice_gen.py:26-38 | the p-th resistor of a call is unnamed, numbered r0+p, has resistance c and both nodes in [0, N*N); row resistors (p < N(N-1)) join k and k+1, and column resistors, which all come after them, join k and k+N |
| MeshElements.CallResistorComplete | spice_gen.py:26-38 | every two neighbouring cells are joined by a resistor of the call |
| MeshElements.Unequal | spice_gen.py:70-81 | the number of pairs whose two potentials differ, at most the number of pairs: the pairs for which `add_v` writes a line |
| MeshElements.SourceElementsShape | spice_gen.py:40-54 | the number of voltage sources written is the number of visited pairs with unequal potentials; each is unnamed, has a positive value and a number in the range of the counter |
| MeshElements.SourceElementsIncreasing | spice_gen.py:40-54 | voltage sources appear with strictly increasing numbers |
| MeshElements.SourceElementsSound | spice_gen.py:69-82 | the source numbered start+p is the one `add_v` writes for pair p's difference between its two nodes |
| MeshElements.SourceElementsComplete | spice_gen.py:69-82 | every visited pair with a nonzero difference gets its source |
| MeshElements.SourceElementsNone | spice_gen.py:69-82 | when every visited difference is zero, no voltage source is written |
| MeshElements.UniformNoSources | spice_gen.py:40-54 | for a mesh of equal potentials a call writes no voltage source: without comments its output is only the resistors |

## Left out

- The file handle (spice_gen.py:17-21) and the real writes to standard output or to `<filename>.cir` are left out. The output is the sequence of statements written, and `Netlist.Text` is the file's contents.
- The filename argument of the constructor is left out, because it only chooses the file handle.
- `SpiceGen.SpiceGenerator.Gen` takes a structured statement rather than a formatted string. `Netlist.Render` does the formatting.
- Potentials and the resistance are integers; Python floats and their text are not modelled. `Netlist.Render` writes values as Python writes an `int`.
- `SpiceGen.SpiceGenerator.AddR` and `SpiceGen.SpiceGenerator.AddV` require a mesh size to be set. In Python, calling them before the first call of the generator raises `AttributeError`; that failure is not modelled.
- `SpiceGen.SpiceGenerator.Call` requires every row to have at least N entries when N is 2 or more. A shorter row then makes Python raise `IndexError`; that failure is not modelled. A mesh of one row is never indexed, so any row is accepted for N = 1, as in the source. Longer rows are allowed, and their extra entries are ignored as in the source.
- `Netlist.FlattenInjective` assumes columns in [0, N). Outside that range, different cells can share a node number, as in the source.
- `Netlist.ParseElementOfRender` requires a suffix without blanks, because a name containing a blank makes the line ambiguous.
- Directional ammeter sources, zero-padded indices, fixed-potential sources, analysis and print directives, and reading the simulator's results are not in `spice_gen.py` and are not modelled.
- The measurement components left as a placeholder comment (spice_gen.py:56) are not modelled, because there is no code for them.
- The experiment and driver scripts under `test/` are not part of this model.
