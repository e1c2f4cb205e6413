/** The elements of one call, one by one: which resistor and which voltage
    source each neighbour pair of the mesh gets. */
module MeshElements {
  import opened Netlist
  import opened MeshPairs
  import opened MeshNetlist
  import opened MeshProperties

  // ---------------------------------------------------------------------
  // Resistors

  /** Pair `k` of `es` gets the unnamed resistor numbered `start + k` between
      the nodes of its two cells. */
  lemma {:induction false} ResistorElements(n: nat, c: int, es: seq<Pair>, start: nat)
    ensures |Elements(ResistorItem(n, c), es, start)| == |es|
    ensures forall k :: 0 <= k < |es| ==>
              Elements(ResistorItem(n, c), es, start)[k] == Resistor(start + k, "", Flatten(n, es[k].0), Flatten(n, es[k].1), c)
    decreases |es|
  {
    if |es| > 0 {
      ResistorElements(n, c, es[..|es| - 1], start);
    }
  }

  /** Resistor `r0 + p` of a call on an n by n mesh joins two nodes of the mesh:
      node `k` and `k + 1` for the first `n * (n - 1)` resistors, written by the
      row loop, node `k` and `k + n` for the rest, written by the column loop. */
  lemma {:induction false} CallResistor(n: nat, c: int, r0: nat, p: nat)
    requires p < |Edges(n)|
    ensures |Elements(ResistorItem(n, c), Edges(n), r0)| == |Edges(n)| == 2 * n * (n - 1)
    ensures var st := Elements(ResistorItem(n, c), Edges(n), r0)[p];
            st.Resistor? && st.idx == r0 + p && st.uname == "" && st.r == c &&
            0 <= st.n1 < n * n && 0 <= st.n2 < n * n &&
            (p < n * (n - 1) ==> st.n2 == st.n1 + 1) &&
            (p >= n * (n - 1) ==> st.n2 == st.n1 + n)
  {
    EdgesLength(n);
    ResistorElements(n, c, Edges(n), r0);
    EdgesAdjacent(n);
    var e := Edges(n)[p];
    FlattenInRange(n, e.0);
    FlattenInRange(n, e.1);
    FlattenRight(n, e.0);
    FlattenDown(n, e.0);
  }

  /** Any two neighbouring cells of the mesh are joined by a resistor of the
      call. */
  lemma {:induction false} CallResistorComplete(n: nat, c: int, r0: nat, a: Cell, b: Cell)
    requires InMesh(n, a) && InMesh(n, b)
    requires b == (a.0, a.1 + 1) || b == (a.0 + 1, a.1)
    ensures |Elements(ResistorItem(n, c), Edges(n), r0)| == |Edges(n)|
    ensures exists p :: 0 <= p < |Edges(n)| &&
              Elements(ResistorItem(n, c), Edges(n), r0)[p] == Resistor(r0 + p, "", Flatten(n, a), Flatten(n, b), c)
  {
    EdgesComplete(n, a, b);
    var p :| 0 <= p < |Edges(n)| && Edges(n)[p] == (a, b);
    ResistorElements(n, c, Edges(n), r0);
  }

  // ---------------------------------------------------------------------
  // Voltage sources

  /** How many of the pairs `es` join cells of different potential. */
  function Unequal(mesh: Mesh, es: seq<Pair>): (k: nat)
    ensures k <= |es|
    decreases |es|
  {
    if |es| == 0 then 0
    else Unequal(mesh, es[..|es| - 1]) + (if Difference(mesh, es[|es| - 1]) == 0 then 0 else 1)
  }

  /** One source per pair of unequal potentials; each is unnamed, has a
      positive value and carries the number of its pair. */
  lemma {:induction false} SourceElementsShape(mesh: Mesh, es: seq<Pair>, start: nat)
    ensures |Elements(SourceItem(mesh), es, start)| == Unequal(mesh, es)
    ensures forall k :: 0 <= k < |Elements(SourceItem(mesh), es, start)| ==>
              var st := Elements(SourceItem(mesh), es, start)[k];
              st.VSource? && st.uname == "" && st.v > 0 && start <= st.idx < start + |es|
    decreases |es|
  {
    if |es| > 0 {
      SourceElementsShape(mesh, es[..|es| - 1], start);
    }
  }

  /** The sources come in increasing order of their numbers. */
  lemma {:induction false} SourceElementsIncreasing(mesh: Mesh, es: seq<Pair>, start: nat)
    ensures forall k, l :: 0 <= k < l < |Elements(SourceItem(mesh), es, start)| ==>
              var a := Elements(SourceItem(mesh), es, start)[k];
              var b := Elements(SourceItem(mesh), es, start)[l];
              a.VSource? && b.VSource? && a.idx < b.idx
    decreases |es|
  {
    if |es| > 0 {
      var init := es[..|es| - 1];
      SourceElementsIncreasing(mesh, init, start);
      SourceElementsShape(mesh, init, start);
      var e := es[|es| - 1];
      var last := VSourceFor(start + |es| - 1, "", Flatten(|mesh|, e.0), Flatten(|mesh|, e.1), Difference(mesh, e));
      var prev := Elements(SourceItem(mesh), init, start);
      var all := Elements(SourceItem(mesh), es, start);
      assert all == prev + last;
      forall k, l | 0 <= k < l < |all|
        ensures all[k].VSource? && all[l].VSource? && all[k].idx < all[l].idx
      {
        if l < |prev| {
          assert all[k] == prev[k] && all[l] == prev[l];
        } else {
          assert all[k] == prev[k] && all[l] == last[0];
        }
      }
    }
  }

  /** `st` is the voltage source VSourceFor writes for the pair of `es` its
      number `st.idx` belongs to, when the pairs are numbered from `start`. */
  predicate SourceOfPair(mesh: Mesh, es: seq<Pair>, start: nat, st: Statement) {
    st.VSource? && start <= st.idx < start + |es| &&
    [st] == VSourceFor(st.idx, "", Flatten(|mesh|, es[st.idx - start].0), Flatten(|mesh|, es[st.idx - start].1),
                       Difference(mesh, es[st.idx - start]))
  }

  /** Source number `start + p` is the one VSourceFor writes for pair `p`. */
  lemma {:induction false} SourceElementsSound(mesh: Mesh, es: seq<Pair>, start: nat)
    ensures forall k :: 0 <= k < |Elements(SourceItem(mesh), es, start)| ==>
              SourceOfPair(mesh, es, start, Elements(SourceItem(mesh), es, start)[k])
    decreases |es|
  {
    if |es| > 0 {
      var init := es[..|es| - 1];
      SourceElementsSound(mesh, init, start);
      var e := es[|es| - 1];
      var last := VSourceFor(start + |es| - 1, "", Flatten(|mesh|, e.0), Flatten(|mesh|, e.1), Difference(mesh, e));
      var prev := Elements(SourceItem(mesh), init, start);
      var all := Elements(SourceItem(mesh), es, start);
      assert all == prev + last;
      forall k | 0 <= k < |all|
        ensures SourceOfPair(mesh, es, start, all[k])
      {
        if k < |prev| {
          var st := prev[k];
          assert all[k] == st;
          assert SourceOfPair(mesh, init, start, st);
          assert es[st.idx - start] == init[st.idx - start];
        } else {
          assert all[k] == last[0] && [last[0]] == last;
        }
      }
    }
  }

  /** Every pair of unequal potentials gets its source. */
  lemma {:induction false} SourceElementsComplete(mesh: Mesh, es: seq<Pair>, start: nat)
    ensures forall p :: 0 <= p < |es| && Difference(mesh, es[p]) != 0 ==>
              VSourceFor(start + p, "", Flatten(|mesh|, es[p].0), Flatten(|mesh|, es[p].1), Difference(mesh, es[p]))[0]
                in Elements(SourceItem(mesh), es, start)
    decreases |es|
  {
    if |es| > 0 {
      SourceElementsComplete(mesh, es[..|es| - 1], start);
    }
  }

  /** Pairs of equal potential get no source at all. */
  lemma {:induction false} SourceElementsNone(mesh: Mesh, es: seq<Pair>, start: nat)
    requires forall p :: 0 <= p < |es| ==> Difference(mesh, es[p]) == 0
    ensures Elements(SourceItem(mesh), es, start) == []
    decreases |es|
  {
    if |es| > 0 {
      SourceElementsNone(mesh, es[..|es| - 1], start);
    }
  }

  /** Every cell of the mesh has potential `u`. */
  predicate Uniform(mesh: Mesh, u: int) {
    forall i, j :: 0 <= i < |mesh| && 0 <= j < |mesh[i]| ==> mesh[i][j] == u
  }

  /** A call on a uniform mesh writes resistors only. */
  lemma {:induction false} UniformNoSources(mesh: Mesh, u: int, c: int, r0: nat, v0: nat)
    requires WellShaped(mesh) && Uniform(mesh, u)
    ensures Elements(SourceItem(mesh), Edges(|mesh|), v0) == []
    ensures Components(CallOutput(mesh, c, r0, v0)) == Elements(ResistorItem(|mesh|, c), Edges(|mesh|), r0)
  {
    EdgesAdjacent(|mesh|);
    SourceElementsNone(mesh, Edges(|mesh|), v0);
    CallComponents(mesh, c, r0, v0);
  }
}
