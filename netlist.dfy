/** The statements a SpiceGenerator writes, the helpers it uses to fill them in
    (node numbering and component-name suffix), the sign convention of its voltage
    sources, and the text each statement becomes in the netlist file, together with
    a reader that recovers element statements from their text. */
module Netlist {
  import opened Decimal

  /** A grid index `(row, column)`. */
  type Cell = (int, int)

  /** One statement of the netlist, kept structured; Render gives its text. */
  datatype Statement =
    | Comment(text: string)
    | BlockComment(text: string)
    | Resistor(idx: nat, uname: string, n1: int, n2: int, r: int)
    | VSource(idx: nat, uname: string, n1: int, n2: int, v: int)

  /** The node number of a grid cell: row-major over an `n`-wide mesh. */
  function Flatten(n: nat, idx: Cell): int
  {
    idx.0 * n + idx.1
  }

  lemma {:induction false} MulLeft(a: int, b: int, n: nat)
    requires a <= b
    ensures a * n <= b * n
  {
    assert b * n - a * n == (b - a) * n;
  }

  /** Every cell of an `n` by `n` mesh gets a node number in `[0, n*n)`. */
  lemma {:induction false} FlattenInRange(n: nat, idx: Cell)
    requires 0 <= idx.0 < n && 0 <= idx.1 < n
    ensures 0 <= Flatten(n, idx) < n * n
  {
    MulLeft(0, idx.0, n);
    MulLeft(idx.0 + 1, n, n);
  }

  /** The right-hand neighbour of a cell has the next node number. */
  lemma {:induction false} FlattenRight(n: nat, idx: Cell)
    ensures Flatten(n, (idx.0, idx.1 + 1)) == Flatten(n, idx) + 1
  {
  }

  /** The cell below a cell has the node number `n` further on. */
  lemma {:induction false} FlattenDown(n: nat, idx: Cell)
    ensures Flatten(n, (idx.0 + 1, idx.1)) == Flatten(n, idx) + n
  {
    assert (idx.0 + 1) * n == idx.0 * n + n;
  }

  /** Distinct cells of a mesh `n` wide get distinct node numbers. */
  lemma {:induction false} FlattenInjective(n: nat, p: Cell, q: Cell)
    requires 0 <= p.1 < n && 0 <= q.1 < n
    requires Flatten(n, p) == Flatten(n, q)
    ensures p == q
  {
    if p.0 < q.0 {
      MulLeft(p.0 + 1, q.0, n);
      assert false;
    } else if q.0 < p.0 {
      MulLeft(q.0 + 1, p.0, n);
      assert false;
    }
  }

  /** The component-name suffix: empty for an empty name, otherwise an
      underscore followed by the name. */
  function ConcatName(name: string): (r: string)
    ensures r == "" <==> name == ""
    ensures name != "" ==> |r| == |name| + 1 && r[0] == '_' && r[1..] == name
  {
    if name != "" then "_" + name else ""
  }

  /** A suffix the line reader can take apart again. */
  predicate WellFormedSuffix(u: string) {
    u == "" || (u[0] == '_' && ' ' !in u)
  }

  lemma {:induction false} ConcatNameWellFormed(name: string)
    requires ' ' !in name
    ensures WellFormedSuffix(ConcatName(name))
  {
    if name != "" {
      assert ConcatName(name) == "_" + name;
    }
  }

  /** The voltage source written for a difference `v` between nodes `a` and
      `b`: none when `v` is zero; otherwise one source whose value is positive,
      with the terminals in the given order and value `v`, or swapped and value
      `-v`. */
  function VSourceFor(idx: nat, uname: string, a: int, b: int, v: int): (r: seq<Statement>)
    ensures |r| == if v == 0 then 0 else 1
    ensures |r| == 1 ==>
              r[0].VSource? && r[0].idx == idx && r[0].uname == uname && r[0].v > 0 &&
              (v > 0 ==> (r[0].n1, r[0].n2, r[0].v) == (a, b, v)) &&
              (v < 0 ==> (r[0].n1, r[0].n2, r[0].v) == (b, a, -v))
  {
    if v > 0 then [VSource(idx, uname, a, b, v)]
    else if v < 0 then [VSource(idx, uname, b, a, -v)]
    else []
  }

  /** Negating the difference and swapping the nodes writes the same source. */
  lemma {:induction false} VSourceForSwap(idx: nat, uname: string, a: int, b: int, v: int)
    ensures VSourceFor(idx, uname, a, b, v) == VSourceFor(idx, uname, b, a, -v)
  {
  }

  /** The text of a statement, as the four format strings of the generator lay
      it out (without the line break the writer adds). */
  function Render(st: Statement): string
  {
    match st
    case Comment(c) => "* " + c
    case BlockComment(c) => "\n*\n* " + c + "\n*\n"
    case Resistor(i, u, a, b, r) =>
      "R" + (NatToString(i) + u + " " + IntToString(a) + " " + IntToString(b) + " " + IntToString(r))
    case VSource(i, u, a, b, v) =>
      "V" + (NatToString(i) + u + " " + IntToString(a) + " " + IntToString(b) + " PWL(0, " + IntToString(v) + ")")
  }

  /** The contents of the netlist file after writing `out`, each statement
      followed by a line break. */
  function Text(out: seq<Statement>): (r: string)
    ensures r == "" <==> out == []
    ensures out != [] ==> r[|r| - 1] == '\n'
    decreases |out|
  {
    if out == [] then "" else Render(out[0]) + "\n" + Text(out[1..])
  }

  /** Writing more statements only appends to the file. */
  lemma {:induction false} TextAppend(a: seq<Statement>, b: seq<Statement>)
    ensures Text(a + b) == Text(a) + Text(b)
    decreases |a|
  {
    if a == [] {
      assert a + b == b;
    } else {
      assert (a + b)[0] == a[0];
      assert (a + b)[1..] == a[1..] + b;
      TextAppend(a[1..], b);
    }
  }

  // ---------------------------------------------------------------------
  // Reading element lines back

  /** The fields of a line separated by single blanks (Python's `split(' ')`). */
  function Fields(s: string): (fs: seq<string>)
    ensures |fs| >= 1
    decreases |s|
  {
    if s == [] then [""]
    else
      var rest := Fields(s[1..]);
      if s[0] == ' ' then [""] + rest else [[s[0]] + rest[0]] + rest[1..]
  }

  lemma {:induction false} FieldsOfWord(a: string)
    requires ' ' !in a
    ensures Fields(a) == [a]
    decreases |a|
  {
    if a != [] {
      assert ' ' !in a[1..] by {
        forall k | 0 <= k < |a[1..]| ensures a[1..][k] != ' ' {
          assert a[1..][k] == a[k + 1];
        }
      }
      FieldsOfWord(a[1..]);
      assert [a[0]] + a[1..] == a;
    }
  }

  lemma {:induction false} FieldsOfSplit(a: string, b: string)
    requires ' ' !in a
    ensures Fields(a + " " + b) == [a] + Fields(b)
    decreases |a|
  {
    var s := a + " " + b;
    if a == [] {
      assert s[1..] == b;
    } else {
      assert ' ' !in a[1..] by {
        forall k | 0 <= k < |a[1..]| ensures a[1..][k] != ' ' {
          assert a[1..][k] == a[k + 1];
        }
      }
      assert s[1..] == a[1..] + " " + b;
      FieldsOfSplit(a[1..], b);
      assert [a[0]] + a[1..] == a;
    }
  }

  /** The number of leading digits of `s`. */
  function DigitPrefix(s: string): (k: nat)
    ensures k <= |s|
    decreases |s|
  {
    if s == [] || !IsDigit(s[0]) then 0 else 1 + DigitPrefix(s[1..])
  }

  lemma {:induction false} DigitPrefixOf(d: string, u: string)
    requires AllDigits(d)
    requires u == [] || !IsDigit(u[0])
    ensures DigitPrefix(d + u) == |d|
    decreases |d|
  {
    if d != [] {
      assert (d + u)[1..] == d[1..] + u;
      DigitPrefixOf(d[1..], u);
    } else {
      assert d + u == u;
    }
  }

  /** Splits the first field of an element line into its index and name suffix. */
  function ParseHead(h: string): Option<(nat, string)>
  {
    var k := DigitPrefix(h);
    if k == 0 then None
    else
      var u := h[k..];
      if u == "" || u[0] == '_' then
        match ParseNat(h[..k])
        case Some(i) => Some((i, u))
        case None => None
      else None
  }

  /** Reads the fields after the `R` of a resistor line. */
  function ParseResistorFields(fs: seq<string>): Option<Statement>
  {
    if |fs| != 4 then None
    else match ParseHead(fs[0])
      case None => None
      case Some(head) =>
        match ParseInt(fs[1])
        case None => None
        case Some(a) =>
          match ParseInt(fs[2])
          case None => None
          case Some(b) =>
            match ParseInt(fs[3])
            case None => None
            case Some(r) => Some(Resistor(head.0, head.1, a, b, r))
  }

  /** Reads the fields after the `V` of a voltage-source line; the value sits
      inside `PWL(0, ...)`. */
  function ParseVSourceFields(fs: seq<string>): Option<Statement>
  {
    if |fs| != 5 || fs[3] != "PWL(0," || |fs[4]| == 0 || fs[4][|fs[4]| - 1] != ')' then None
    else match ParseHead(fs[0])
      case None => None
      case Some(head) =>
        match ParseInt(fs[1])
        case None => None
        case Some(a) =>
          match ParseInt(fs[2])
          case None => None
          case Some(b) =>
            match ParseInt(fs[4][..|fs[4]| - 1])
            case None => None
            case Some(v) => Some(VSource(head.0, head.1, a, b, v))
  }

  /** Reads a resistor or voltage-source line; any other line is rejected. */
  function ParseElement(line: string): Option<Statement>
  {
    if |line| == 0 then None
    else if line[0] == 'R' then ParseResistorFields(Fields(line[1..]))
    else if line[0] == 'V' then ParseVSourceFields(Fields(line[1..]))
    else None
  }

  lemma {:induction false} NoBlankInNumber(x: int)
    ensures ' ' !in IntToString(x)
  {
  }

  lemma {:induction false} ParseHeadOf(i: nat, u: string)
    requires WellFormedSuffix(u)
    ensures ParseHead(NatToString(i) + u) == Some((i, u))
    ensures ' ' !in NatToString(i) + u
  {
    var d := NatToString(i);
    var h := d + u;
    DigitPrefixOf(d, u);
    assert h[..|d|] == d;
    assert h[|d|..] == u;
    ParseNatOfNatToString(i);
    NoBlankInNumber(i);
  }

  lemma {:induction false} FieldsOfResistorLine(h: string, a: string, b: string, c: string)
    requires ' ' !in h && ' ' !in a && ' ' !in b && ' ' !in c
    ensures Fields(h + " " + a + " " + b + " " + c) == [h, a, b, c]
  {
    assert h + " " + a + " " + b + " " + c == h + " " + (a + " " + (b + " " + c));
    FieldsOfSplit(h, a + " " + (b + " " + c));
    FieldsOfSplit(a, b + " " + c);
    FieldsOfSplit(b, c);
    FieldsOfWord(c);
  }

  lemma {:induction false} FieldsOfVSourceLine(h: string, a: string, b: string, c': string)
    requires ' ' !in h && ' ' !in a && ' ' !in b && ' ' !in c'
    ensures Fields(h + " " + a + " " + b + " PWL(0, " + c') == [h, a, b, "PWL(0,", c']
  {
    var p := "PWL(0,";
    assert h + " " + a + " " + b + " PWL(0, " + c' == h + " " + (a + " " + (b + " " + (p + " " + c')));
    FieldsOfSplit(h, a + " " + (b + " " + (p + " " + c')));
    FieldsOfSplit(a, b + " " + (p + " " + c'));
    FieldsOfSplit(b, p + " " + c');
    FieldsOfSplit(p, c');
    FieldsOfWord(c');
  }

  lemma {:induction false} ParseResistorFieldsOf(st: Statement)
    requires st.Resistor? && WellFormedSuffix(st.uname)
    ensures ParseResistorFields([NatToString(st.idx) + st.uname, IntToString(st.n1), IntToString(st.n2),
                                 IntToString(st.r)]) == Some(st)
  {
    ParseHeadOf(st.idx, st.uname);
    ParseIntOfIntToString(st.n1);
    ParseIntOfIntToString(st.n2);
    ParseIntOfIntToString(st.r);
  }

  lemma {:induction false} ParseVSourceFieldsOf(st: Statement)
    requires st.VSource? && WellFormedSuffix(st.uname)
    ensures ParseVSourceFields([NatToString(st.idx) + st.uname, IntToString(st.n1), IntToString(st.n2),
                                "PWL(0,", IntToString(st.v) + ")"]) == Some(st)
  {
    var c' := IntToString(st.v) + ")";
    assert c'[..|c'| - 1] == IntToString(st.v);
    ParseHeadOf(st.idx, st.uname);
    ParseIntOfIntToString(st.n1);
    ParseIntOfIntToString(st.n2);
    ParseIntOfIntToString(st.v);
  }

  lemma {:induction false} ParseResistorLine(st: Statement)
    requires st.Resistor? && WellFormedSuffix(st.uname)
    ensures ParseElement(Render(st)) == Some(st)
  {
    ParseHeadOf(st.idx, st.uname);
    NoBlankInNumber(st.n1);
    NoBlankInNumber(st.n2);
    NoBlankInNumber(st.r);
    var body := NatToString(st.idx) + st.uname + " " + IntToString(st.n1) + " " + IntToString(st.n2) + " "
                + IntToString(st.r);
    assert Render(st)[1..] == body;
    FieldsOfResistorLine(NatToString(st.idx) + st.uname, IntToString(st.n1), IntToString(st.n2), IntToString(st.r));
    ParseResistorFieldsOf(st);
  }

  lemma {:induction false} ParseVSourceLine(st: Statement)
    requires st.VSource? && WellFormedSuffix(st.uname)
    ensures ParseElement(Render(st)) == Some(st)
  {
    var c' := IntToString(st.v) + ")";
    ParseHeadOf(st.idx, st.uname);
    NoBlankInNumber(st.n1);
    NoBlankInNumber(st.n2);
    NoBlankInNumber(st.v);
    assert ' ' !in c';
    var body := NatToString(st.idx) + st.uname + " " + IntToString(st.n1) + " " + IntToString(st.n2) + " PWL(0, "
                + IntToString(st.v) + ")";
    assert Render(st)[1..] == body;
    assert body == NatToString(st.idx) + st.uname + " " + IntToString(st.n1) + " " + IntToString(st.n2) + " PWL(0, " + c';
    FieldsOfVSourceLine(NatToString(st.idx) + st.uname, IntToString(st.n1), IntToString(st.n2), c');
    ParseVSourceFieldsOf(st);
  }

  /** The line written for a resistor or voltage source reads back as that
      statement, so its index, nodes and value are recoverable from the file. */
  lemma {:induction false} ParseElementOfRender(st: Statement)
    requires st.Resistor? || st.VSource?
    requires WellFormedSuffix(st.uname)
    ensures ParseElement(Render(st)) == Some(st)
  {
    if st.Resistor? {
      ParseResistorLine(st);
    } else {
      ParseVSourceLine(st);
    }
  }
}
