/** Flattening nested columns into top-level ones. */
module Flatten {
  import opened Wrappers
  import opened Arrow
  import opened Kernels
  import opened NameCollisions

  /** The text Arrow's cast gives a list of structs. */
  type Renderer = Cell -> string

  const INDEX_LIMIT: nat := 0x8000_0000

  // ---------------------------------------------------------------- the schema

  function ChildName(name: string, child: string): string {
    name + "." + child
  }

  /** `expand_field` */
  function ExpandField(name: string, ty: ArrowType): seq<ArrowField>
    decreases ty, 0, 0
  {
    if ty.Struct? then ExpandFields(name, ty.fields)
    else if ty.FixedSizeList? && ty.item.Struct? then ExpandElementFields(name, ty.item, ty.size)
    else if ty.List? && ty.item.Struct? then [ArrowField(name, Utf8)]
    else [ArrowField(name, ty)]
  }

  function ExpandFields(name: string, fields: seq<ArrowField>): seq<ArrowField>
    decreases fields, 0, 0
  {
    if fields == [] then []
    else ExpandField(ChildName(name, fields[0].name), fields[0].ty) + ExpandFields(name, fields[1..])
  }

  function ExpandElementFields(name: string, item: ArrowType, n: nat): seq<ArrowField>
    decreases item, 1, n
  {
    if n == 0 then []
    else ExpandElementFields(name, item, n - 1) + ExpandField(ChildName(name, Decimal(n - 1)), item)
  }

  // ---------------------------------------------------------------- the columns

  function Render(render: Renderer, c: Cell): Option<Datum> {
    if c.Null? then None else Some(Text(render(c)))
  }

  /** `cast` of a list of structs to text. */
  function Rendered(render: Renderer, a: ArrowArray): ArrowArray {
    Leaf(Utf8, seq(Len(a), i requires 0 <= i < Len(a) => Render(render, At(a, i))))
  }

  /** The positions r * n + i of element i in rows of n. */
  function ElementIndices(rows: nat, n: nat, i: nat): seq<nat>
  {
    seq(rows, r requires 0 <= r < rows => r * n + i)
  }

  predicate IndicesFit(rows: nat, n: nat, i: nat) {
    rows == 0 || (rows - 1) * n + i < INDEX_LIMIT
  }

  lemma {:induction false} IndexBelowLast(rows: nat, n: nat, i: nat, r: nat)
    requires r < rows
    ensures r * n + i <= (rows - 1) * n + i
  {
    assert r * n <= (rows - 1) * n;
  }

  /** The index of element i of a row in rows of n, below 2^31. */
  predicate IndexFits(n: nat, i: nat, row: nat) {
    row * n + i < 0x8000_0000
  }

  /** Indices fit iff each of them does. */
  lemma {:induction false} IndicesFitIff(rows: nat, n: nat, i: nat)
    ensures IndicesFit(rows, n, i) <==> forall row: nat | row < rows :: IndexFits(n, i, row)
  {
    if IndicesFit(rows, n, i) {
      forall row: nat | row < rows ensures IndexFits(n, i, row) {
        IndexBelowLast(rows, n, i, row);
      }
    }
    if rows > 0 && forall row: nat | row < rows :: IndexFits(n, i, row) {
      assert IndexFits(n, i, rows - 1);
    }
  }

  /** Element i of every row as a column. */
  function Element(size: nat, len: nat, values: ArrowArray, validity: Validity, i: nat): (r: ArrowArray)
    ensures TypeOf(r) == TypeOf(values)
  {
    Propagate(validity, Take(values, ElementIndices(len, size, i)))
  }

  function Join(p: Result<seq<ArrowColumn>>, q: Result<seq<ArrowColumn>>): Result<seq<ArrowColumn>> {
    if p.Failure? then Failure else InFront(p.value, q)
  }

  /** `expand_column` */
  function ExpandColumn(render: Renderer, name: string, a: ArrowArray): Result<seq<ArrowColumn>>
    decreases TypeOf(a), 0, 0
  {
    match a
    case StructArray(_, columns, validity) => ExpandChildren(render, name, validity, columns)
    case FixedListArray(size, len, values, validity) =>
      if TypeOf(values).Struct? then ExpandElements(render, name, size, len, values, validity, size)
      else Success([ArrowColumn(name, a)])
    case ListArray(_, values, _) =>
      if TypeOf(values).Struct? then Success([ArrowColumn(name, Rendered(render, a))])
      else Success([ArrowColumn(name, a)])
    case Leaf(_, _) => Success([ArrowColumn(name, a)])
  }

  function ExpandChildren(render: Renderer, name: string, validity: Validity, columns: seq<ArrowColumn>)
    : Result<seq<ArrowColumn>>
    decreases Fields(columns), 0, 0
  {
    if columns == [] then Success([])
    else
      assert Fields(columns)[0].ty == TypeOf(columns[0].data);
      assert Fields(columns[1..]) == Fields(columns)[1..];
      Join(ExpandColumn(render, ChildName(name, columns[0].name), Propagate(validity, columns[0].data)),
           ExpandChildren(render, name, validity, columns[1..]))
  }

  /** The first n elements of the rows. */
  function ExpandElements(render: Renderer, name: string, size: nat, len: nat, values: ArrowArray, validity: Validity,
                          n: nat)
    : Result<seq<ArrowColumn>>
    decreases TypeOf(values), 1, n
  {
    if n == 0 then Success([])
    else
      Join(ExpandElements(render, name, size, len, values, validity, n - 1),
           if IndicesFit(len, size, n - 1)
           then ExpandColumn(render, ChildName(name, Decimal(n - 1)), Element(size, len, values, validity, n - 1))
           else Failure)
  }

  // ---------------------------------------------------------------- what flattening means, cell by cell

  function ChildCell(c: Cell, k: nat): Cell {
    if c.Children? && k < |c.children| then c.children[k] else Null
  }

  function ItemCell(c: Cell, i: nat): Cell {
    if c.Items? && i < |c.items| then c.items[i] else Null
  }

  function Shown(render: Renderer, c: Cell): Cell {
    if c.Null? then Null else Scalar(Text(render(c)))
  }

  /** The flat cells of one nested cell; below a null everything is null. */
  function FlatCells(render: Renderer, ty: ArrowType, c: Cell): seq<Cell>
    decreases ty, 0, 0
  {
    if ty.Struct? then FlatChildren(render, ty.fields, 0, c)
    else if ty.FixedSizeList? && ty.item.Struct? then FlatItems(render, ty.item, ty.size, c)
    else if ty.List? && ty.item.Struct? then [Shown(render, c)]
    else [c]
  }

  function FlatChildren(render: Renderer, fields: seq<ArrowField>, k: nat, c: Cell): seq<Cell>
    decreases fields, 0, 0
  {
    if fields == [] then []
    else FlatCells(render, fields[0].ty, ChildCell(c, k)) + FlatChildren(render, fields[1..], k + 1, c)
  }

  function FlatItems(render: Renderer, item: ArrowType, n: nat, c: Cell): seq<Cell>
    decreases item, 1, n
  {
    if n == 0 then [] else FlatItems(render, item, n - 1, c) + FlatCells(render, item, ItemCell(c, n - 1))
  }

  /** The gather's indices fit 32 bits, at every level flattening goes into. */
  predicate Fits(ty: ArrowType, rows: nat)
    decreases ty, 0
  {
    if ty.Struct? then FieldsFit(ty.fields, rows)
    else if ty.FixedSizeList? && ty.item.Struct? then
      ty.size == 0 || (IndicesFit(rows, ty.size, ty.size - 1) && Fits(ty.item, rows))
    else true
  }

  predicate FieldsFit(fields: seq<ArrowField>, rows: nat)
    decreases fields, 0
  {
    forall f | f in fields :: Fits(f.ty, rows)
  }

  lemma {:induction false} FieldsJoin(xs: seq<ArrowColumn>, ys: seq<ArrowColumn>)
    ensures Fields(xs + ys) == Fields(xs) + Fields(ys)
  {
  }

  /** The flat columns of an array: the announced fields, the same rows, and in each row the flat cells
      of the nested cell. */
  ghost predicate Flattens(render: Renderer, cols: seq<ArrowColumn>, name: string, a: ArrowArray) {
    && Fields(cols) == ExpandField(name, TypeOf(a)) && Aligned(cols, Len(a))
    && forall r | 0 <= r < Len(a) :: CellsAt(cols, r) == FlatCells(render, TypeOf(a), At(a, r))
  }

  ghost predicate FlattensChildren(render: Renderer, cols: seq<ArrowColumn>, name: string, rows: nat,
                                   validity: Validity, columns: seq<ArrowColumn>, k: nat)
  {
    && Fields(cols) == ExpandFields(name, Fields(columns)) && Aligned(cols, rows)
    && forall r, c | 0 <= r < rows && RowTail(validity, columns, k, r, c) ::
         CellsAt(cols, r) == FlatChildren(render, Fields(columns), k, c)
  }

  /** c is the struct cell of row r, of which these are the columns from k on. */
  predicate RowTail(validity: Validity, columns: seq<ArrowColumn>, k: nat, r: nat, c: Cell) {
    if IsValid(validity, r) then c.Children? && |c.children| == k + |columns| && c.children[k..] == CellsAt(columns, r)
    else c.Null?
  }

  ghost predicate FlattensItems(render: Renderer, cols: seq<ArrowColumn>, name: string, a: ArrowArray, n: nat)
    requires a.FixedListArray?
  {
    && Fields(cols) == ExpandElementFields(name, TypeOf(a.values), n) && Aligned(cols, a.len)
    && forall r | 0 <= r < a.len :: CellsAt(cols, r) == FlatItems(render, TypeOf(a.values), n, At(a, r))
  }

  lemma {:induction false} PropagatedWell(validity: Validity, a: ArrowArray)
    requires WellFormed(a) && ValidityFits(validity, Len(a))
    ensures WellFormed(Propagate(validity, a))
    ensures forall r | 0 <= r < Len(a) ::
              At(Propagate(validity, a), r) == if IsValid(validity, r) then At(a, r) else Null
  {
    forall r | 0 <= r < Len(a)
      ensures At(Propagate(validity, a), r) == if IsValid(validity, r) then At(a, r) else Null
    {
      PropagateReads(validity, a, r);
    }
  }

  lemma {:induction false} ChildrenStep(render: Renderer, name: string, rows: nat, validity: Validity,
                                        columns: seq<ArrowColumn>, k: nat, first: seq<ArrowColumn>,
                                        others: seq<ArrowColumn>)
    requires columns != [] && Aligned(columns, rows) && ValidityFits(validity, rows)
    requires Flattens(render, first, ChildName(name, columns[0].name), Propagate(validity, columns[0].data))
    requires FlattensChildren(render, others, name, rows, validity, columns[1..], k + 1)
    ensures FlattensChildren(render, first + others, name, rows, validity, columns, k)
  {
    FieldsJoin(first, others);
    assert Fields(columns[1..]) == Fields(columns)[1..];
    assert columns[0] in columns;
    PropagatedWell(validity, columns[0].data);
    forall r, c | 0 <= r < rows && RowTail(validity, columns, k, r, c)
      ensures CellsAt(first + others, r) == FlatChildren(render, Fields(columns), k, c)
    {
      TailOfRow(validity, columns, k, r, c);
    }
  }

  lemma {:induction false} TailOfRow(validity: Validity, columns: seq<ArrowColumn>, k: nat, r: nat, c: Cell)
    requires columns != [] && RowTail(validity, columns, k, r, c)
    ensures RowTail(validity, columns[1..], k + 1, r, c)
    ensures ChildCell(c, k) == if IsValid(validity, r) then At(columns[0].data, r) else Null
  {
    if IsValid(validity, r) {
      assert c.children[k] == c.children[k..][0];
      assert c.children[k + 1..] == c.children[k..][1..];
      assert CellsAt(columns, r)[1..] == CellsAt(columns[1..], r);
    }
  }

  lemma {:induction false} StructFlattens(render: Renderer, name: string, a: ArrowArray, cols: seq<ArrowColumn>)
    requires a.StructArray? && WellFormed(a)
    requires FlattensChildren(render, cols, name, a.rows, a.validity, a.columns, 0)
    ensures Flattens(render, cols, name, a)
  {
    forall r | 0 <= r < a.rows ensures CellsAt(cols, r) == FlatCells(render, TypeOf(a), At(a, r)) {
      assert RowTail(a.validity, a.columns, 0, r, At(a, r));
    }
  }

  lemma {:induction false} ElementIndicesInBounds(rows: nat, n: nat, i: nat)
    requires i < n
    ensures InBounds(ElementIndices(rows, n, i), rows * n)
  {
    forall x | x in ElementIndices(rows, n, i) ensures x < rows * n {
      var r :| 0 <= r < rows && x == ElementIndices(rows, n, i)[r];
      RowEnds(r, rows, n);
    }
  }

  /** The gather at r * n + i is exactly element i of row r, null when the row is. */
  lemma {:induction false} ElementReads(a: ArrowArray, i: nat)
    requires a.FixedListArray? && WellFormed(a) && i < a.size
    ensures var e := Element(a.size, a.len, a.values, a.validity, i);
            && WellFormed(e) && Len(e) == a.len
            && forall r | 0 <= r < a.len :: At(e, r) == ItemCell(At(a, r), i)
  {
    var indices := ElementIndices(a.len, a.size, i);
    ElementIndicesInBounds(a.len, a.size, i);
    TakeGathers(a.values, indices);
    PropagatedWell(a.validity, Take(a.values, indices));
  }

  lemma {:induction false} ItemsStep(render: Renderer, name: string, a: ArrowArray, n: nat, e: ArrowArray,
                                     before: seq<ArrowColumn>, last: seq<ArrowColumn>)
    requires a.FixedListArray? && n > 0
    requires TypeOf(e) == TypeOf(a.values) && Len(e) == a.len
    requires forall r | 0 <= r < a.len :: At(e, r) == ItemCell(At(a, r), n - 1)
    requires FlattensItems(render, before, name, a, n - 1)
    requires Flattens(render, last, ChildName(name, Decimal(n - 1)), e)
    ensures FlattensItems(render, before + last, name, a, n)
  {
    FieldsJoin(before, last);
    forall r | 0 <= r < a.len
      ensures CellsAt(before + last, r) == FlatItems(render, TypeOf(a.values), n, At(a, r))
    {
    }
  }

  lemma {:induction false} LeavesFlatten(render: Renderer, name: string, a: ArrowArray)
    requires WellFormed(a) && !a.StructArray? && !(a.FixedListArray? && TypeOf(a.values).Struct?)
    ensures ExpandColumn(render, name, a).Success? && Flattens(render, ExpandColumn(render, name, a).value, name, a)
  {
    var cols := ExpandColumn(render, name, a).value;
    assert Fields(cols) == ExpandField(name, TypeOf(a));
    forall r | 0 <= r < Len(a) ensures CellsAt(cols, r) == FlatCells(render, TypeOf(a), At(a, r)) {
    }
  }

  /** Flattening an array succeeds exactly when the gather indices fit, and then every flat column has
      its announced field and in every row its flat cell. */
  lemma {:induction false} FlatteningIsFaithful(render: Renderer, name: string, a: ArrowArray)
    requires WellFormed(a)
    ensures ExpandColumn(render, name, a).Success? <==> Fits(TypeOf(a), Len(a))
    ensures ExpandColumn(render, name, a).Success? ==> Flattens(render, ExpandColumn(render, name, a).value, name, a)
    decreases TypeOf(a), 0, 0
  {
    match a
    case StructArray(rows, columns, validity) =>
      ChildrenFlatten(render, name, rows, validity, columns, 0);
      if ExpandColumn(render, name, a).Success? {
        StructFlattens(render, name, a, ExpandColumn(render, name, a).value);
      }
    case FixedListArray(size, len, values, validity) =>
      if TypeOf(values).Struct? {
        ItemsFlatten(render, name, a, size);
      } else {
        LeavesFlatten(render, name, a);
      }
    case ListArray(_, _, _) => LeavesFlatten(render, name, a);
    case Leaf(_, _) => LeavesFlatten(render, name, a);
  }

  lemma {:induction false} ChildrenFlatten(render: Renderer, name: string, rows: nat, validity: Validity,
                                           columns: seq<ArrowColumn>, k: nat)
    requires Aligned(columns, rows) && ValidityFits(validity, rows)
    ensures var p := ExpandChildren(render, name, validity, columns);
            && (p.Success? <==> FieldsFit(Fields(columns), rows))
            && (p.Success? ==> FlattensChildren(render, p.value, name, rows, validity, columns, k))
    decreases Fields(columns), 0, 0
  {
    if columns != [] {
      var first := columns[0].data;
      assert columns[0] in columns;
      assert Fields(columns)[0].ty == TypeOf(first);
      assert Fields(columns[1..]) == Fields(columns)[1..];
      assert Fields(columns) == [Fields(columns)[0]] + Fields(columns)[1..];
      FlatteningIsFaithful(render, ChildName(name, columns[0].name), Propagate(validity, first));
      ChildrenFlatten(render, name, rows, validity, columns[1..], k + 1);
      if ExpandChildren(render, name, validity, columns).Success? {
        ChildrenStep(render, name, rows, validity, columns, k,
                     ExpandColumn(render, ChildName(name, columns[0].name), Propagate(validity, first)).value,
                     ExpandChildren(render, name, validity, columns[1..]).value);
      }
    }
  }

  lemma {:induction false} ItemsFlatten(render: Renderer, name: string, a: ArrowArray, n: nat)
    requires a.FixedListArray? && WellFormed(a) && TypeOf(a.values).Struct? && n <= a.size
    ensures var p := ExpandElements(render, name, a.size, a.len, a.values, a.validity, n);
            && (p.Success? <==> n == 0 || (IndicesFit(a.len, a.size, n - 1) && Fits(TypeOf(a.values), a.len)))
            && (p.Success? ==> FlattensItems(render, p.value, name, a, n))
    decreases TypeOf(a.values), 1, n
  {
    if n > 0 {
      var e := Element(a.size, a.len, a.values, a.validity, n - 1);
      ElementReads(a, n - 1);
      ItemsFlatten(render, name, a, n - 1);
      FlatteningIsFaithful(render, ChildName(name, Decimal(n - 1)), e);
      if ExpandElements(render, name, a.size, a.len, a.values, a.validity, n).Success? {
        ItemsStep(render, name, a, n, e,
                  ExpandElements(render, name, a.size, a.len, a.values, a.validity, n - 1).value,
                  ExpandColumn(render, ChildName(name, Decimal(n - 1)), e).value);
      }
    }
  }
}
