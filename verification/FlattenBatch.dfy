/** Flattening a whole batch, its schema, and where each flat cell comes from. */
module FlattenBatch {
  import opened Wrappers
  import opened Arrow
  import opened Kernels
  import opened NameCollisions
  import opened Flatten

  // ---------------------------------------------------------------- paths

  datatype Step = Child(k: nat) | Item(i: nat)

  type Path = seq<Step>

  function Prefixed(s: Step, paths: seq<Path>): seq<Path>
  {
    seq(|paths|, j requires 0 <= j < |paths| => [s] + paths[j])
  }

  /** Where the flat columns of a type lie in it. */
  function Paths(ty: ArrowType): seq<Path>
    decreases ty, 0, 0
  {
    if ty.Struct? then ChildPaths(ty.fields, 0)
    else if ty.FixedSizeList? && ty.item.Struct? then ItemPaths(ty.item, ty.size)
    else [[]]
  }

  function ChildPaths(fields: seq<ArrowField>, k: nat): seq<Path>
    decreases fields, 0, 0
  {
    if fields == [] then [] else Prefixed(Child(k), Paths(fields[0].ty)) + ChildPaths(fields[1..], k + 1)
  }

  function ItemPaths(item: ArrowType, n: nat): seq<Path>
    decreases item, 1, n
  {
    if n == 0 then [] else ItemPaths(item, n - 1) + Prefixed(Item(n - 1), Paths(item))
  }

  function Lookup(c: Cell, p: Path): Cell
    decreases p
  {
    if p == [] then c
    else if p[0].Child? then Lookup(ChildCell(c, p[0].k), p[1..])
    else Lookup(ItemCell(c, p[0].i), p[1..])
  }

  /** The type of what lies at a path. */
  function TypeAt(ty: ArrowType, p: Path): ArrowType
    decreases p
  {
    if p == [] then ty
    else if p[0].Child? && ty.Struct? && p[0].k < |ty.fields| then TypeAt(ty.fields[p[0].k].ty, p[1..])
    else if p[0].Item? && ty.FixedSizeList? then TypeAt(ty.item, p[1..])
    else ty
  }

  /** The names on the way to a path, joined by dots; elements of a fixed-size list count as names. */
  function PathName(name: string, ty: ArrowType, p: Path): string
    decreases p
  {
    if p == [] then name
    else if p[0].Child? && ty.Struct? && p[0].k < |ty.fields| then
      PathName(name + "." + ty.fields[p[0].k].name, ty.fields[p[0].k].ty, p[1..])
    else if p[0].Item? && ty.FixedSizeList? then PathName(name + "." + Decimal(p[0].i), ty.item, p[1..])
    else name
  }

  /** Lists of structs are shown as text, everything else as it is. */
  predicate IsText(ty: ArrowType) {
    ty.List? && ty.item.Struct?
  }

  function ShownCell(render: Renderer, ty: ArrowType, c: Cell): Cell {
    if IsText(ty) then Shown(render, c) else c
  }

  function ShownField(name: string, ty: ArrowType, p: Path): ArrowField {
    ArrowField(PathName(name, ty, p), if IsText(TypeAt(ty, p)) then Utf8 else TypeAt(ty, p))
  }

  /** The cells and fields of these paths, in order. */
  predicate AtPaths(render: Renderer, ty: ArrowType, name: string, paths: seq<Path>, c: Cell, cells: seq<Cell>,
                    fields: seq<ArrowField>)
  {
    && |cells| == |fields| == |paths|
    && (forall j | 0 <= j < |paths| :: cells[j] == ShownCell(render, TypeAt(ty, paths[j]), Lookup(c, paths[j])))
    && (forall j | 0 <= j < |paths| :: fields[j] == ShownField(name, ty, paths[j]))
  }

  /** Flat cells and fields are those of the paths. */
  lemma {:induction false} FlatAtPaths(render: Renderer, ty: ArrowType, name: string, c: Cell)
    ensures AtPaths(render, ty, name, Paths(ty), c, FlatCells(render, ty, c), ExpandField(name, ty))
    decreases ty, 1, 0
  {
    if ty.Struct? {
      assert ty.fields[0..] == ty.fields;
      ChildrenAtPaths(render, ty, name, 0, c);
    } else if ty.FixedSizeList? && ty.item.Struct? {
      ItemsAtPaths(render, ty, name, ty.size, c);
    }
  }

  /** One step further up. */
  lemma {:induction false} PrefixedAtPaths(render: Renderer, ty: ArrowType, name: string, s: Step, inner: ArrowType,
                                           innerName: string, paths: seq<Path>, c: Cell, cells: seq<Cell>,
                                           fields: seq<ArrowField>)
    requires AtPaths(render, inner, innerName, paths,
                     if s.Child? then ChildCell(c, s.k) else ItemCell(c, s.i), cells, fields)
    requires s.Child? ==> ty.Struct? && s.k < |ty.fields| && inner == ty.fields[s.k].ty
                          && innerName == ChildName(name, ty.fields[s.k].name)
    requires s.Item? ==> ty.FixedSizeList? && inner == ty.item && innerName == ChildName(name, Decimal(s.i))
    ensures AtPaths(render, ty, name, Prefixed(s, paths), c, cells, fields)
  {
    forall j | 0 <= j < |paths|
      ensures TypeAt(ty, Prefixed(s, paths)[j]) == TypeAt(inner, paths[j])
      ensures PathName(name, ty, Prefixed(s, paths)[j]) == PathName(innerName, inner, paths[j])
      ensures Lookup(c, Prefixed(s, paths)[j])
           == Lookup(if s.Child? then ChildCell(c, s.k) else ItemCell(c, s.i), paths[j])
    {
      assert ([s] + paths[j])[1..] == paths[j];
    }
  }

  lemma {:induction false} JoinedAtPaths(render: Renderer, ty: ArrowType, name: string, p: seq<Path>, q: seq<Path>,
                                         c: Cell,
                                         x: seq<Cell>, y: seq<Cell>, f: seq<ArrowField>, g: seq<ArrowField>)
    requires AtPaths(render, ty, name, p, c, x, f) && AtPaths(render, ty, name, q, c, y, g)
    ensures AtPaths(render, ty, name, p + q, c, x + y, f + g)
  {
  }

  lemma {:induction false} ChildrenAtPaths(render: Renderer, ty: ArrowType, name: string, k: nat, c: Cell)
    requires ty.Struct? && k <= |ty.fields|
    ensures var fields := ty.fields[k..];
            AtPaths(render, ty, name, ChildPaths(fields, k), c, FlatChildren(render, fields, k, c),
                    ExpandFields(name, fields))
    decreases ty, 0, |ty.fields| - k
  {
    if k < |ty.fields| {
      var fields, f := ty.fields[k..], ty.fields[k];
      assert fields[0] == f && fields[1..] == ty.fields[k + 1..];
      var inner := ChildName(name, f.name);
      FlatAtPaths(render, f.ty, inner, ChildCell(c, k));
      PrefixedAtPaths(render, ty, name, Child(k), f.ty, inner, Paths(f.ty), c,
                      FlatCells(render, f.ty, ChildCell(c, k)), ExpandField(inner, f.ty));
      ChildrenAtPaths(render, ty, name, k + 1, c);
      JoinedAtPaths(render, ty, name, Prefixed(Child(k), Paths(f.ty)), ChildPaths(fields[1..], k + 1), c,
                    FlatCells(render, f.ty, ChildCell(c, k)), FlatChildren(render, fields[1..], k + 1, c),
                    ExpandField(inner, f.ty), ExpandFields(name, fields[1..]));
    }
  }

  lemma {:induction false} ItemsAtPaths(render: Renderer, ty: ArrowType, name: string, n: nat, c: Cell)
    requires ty.FixedSizeList?
    ensures AtPaths(render, ty, name, ItemPaths(ty.item, n), c, FlatItems(render, ty.item, n, c),
                    ExpandElementFields(name, ty.item, n))
    decreases ty, 0, n
  {
    if n > 0 {
      var item, inner := ty.item, ChildName(name, Decimal(n - 1));
      FlatAtPaths(render, item, inner, ItemCell(c, n - 1));
      PrefixedAtPaths(render, ty, name, Item(n - 1), item, inner, Paths(item), c,
                      FlatCells(render, item, ItemCell(c, n - 1)), ExpandField(inner, item));
      ItemsAtPaths(render, ty, name, n - 1, c);
      JoinedAtPaths(render, ty, name, ItemPaths(item, n - 1), Prefixed(Item(n - 1), Paths(item)), c,
                    FlatItems(render, item, n - 1, c), FlatCells(render, item, ItemCell(c, n - 1)),
                    ExpandElementFields(name, item, n - 1), ExpandField(inner, item));
    }
  }

  lemma {:induction false} NothingBelowNull(p: Path)
    ensures Lookup(Null, p) == Null
  {
    if p != [] {
      NothingBelowNull(p[1..]);
    }
  }

  lemma {:induction false} NullAncestor(c: Cell, p: Path, k: nat)
    requires k <= |p| && Lookup(c, p[..k]) == Null
    ensures Lookup(c, p) == Null
    decreases p
  {
    if k == 0 {
      NothingBelowNull(p);
    } else {
      assert p[..k][1..] == p[1..][..k - 1];
      NullAncestor(if p[0].Child? then ChildCell(c, p[0].k) else ItemCell(c, p[0].i), p[1..], k - 1);
    }
  }

  /** The j-th flat column is named after the j-th path and has the type found there, text for a list of
      structs. In its row r stands the nested cell at that path, as text for a list of structs, and it is
      null exactly when the cell or one of its ancestors is. */
  lemma {:induction false} FlatColumnMeaning(render: Renderer, name: string, a: ArrowArray, j: nat, r: nat)
    requires WellFormed(a) && Fits(TypeOf(a), Len(a))
    requires j < |Paths(TypeOf(a))| && r < Len(a)
    ensures ExpandColumn(render, name, a).Success?
    ensures var cols, p := ExpandColumn(render, name, a).value, Paths(TypeOf(a))[j];
            && |cols| == |Paths(TypeOf(a))| && Len(cols[j].data) == Len(a)
            && ArrowField(cols[j].name, TypeOf(cols[j].data)) == ShownField(name, TypeOf(a), p)
            && At(cols[j].data, r) == ShownCell(render, TypeAt(TypeOf(a), p), Lookup(At(a, r), p))
            && (At(cols[j].data, r).Null? <==> exists k | 0 <= k <= |p| :: Lookup(At(a, r), p[..k]).Null?)
  {
    FlatteningIsFaithful(render, name, a);
    FlatAtPaths(render, TypeOf(a), name, At(a, r));
    var cols, p := ExpandColumn(render, name, a).value, Paths(TypeOf(a))[j];
    assert CellsAt(cols, r) == FlatCells(render, TypeOf(a), At(a, r));
    assert cols[j] in cols && Fields(cols)[j] == ShownField(name, TypeOf(a), p);
    assert At(cols[j].data, r) == CellsAt(cols, r)[j];
    assert p[..|p|] == p;
    if k :| 0 <= k <= |p| && Lookup(At(a, r), p[..k]).Null? {
      NullAncestor(At(a, r), p, k);
    }
  }

  // ---------------------------------------------------------------- batches

  function ExpandAll(render: Renderer, columns: seq<ArrowColumn>): Result<seq<ArrowColumn>> {
    if columns == [] then Success([])
    else Join(ExpandAll(render, columns[..|columns| - 1]),
              ExpandColumn(render, columns[|columns| - 1].name, columns[|columns| - 1].data))
  }

  function ExpandSchema(fields: seq<ArrowField>): seq<ArrowField> {
    if fields == [] then []
    else ExpandSchema(fields[..|fields| - 1]) + ExpandField(fields[|fields| - 1].name, fields[|fields| - 1].ty)
  }

  /** `flatten_schema` */
  function FlattenSchema(fields: seq<ArrowField>): seq<ArrowField> {
    Renamed(ExpandSchema(fields))
  }

  /** `flatten_record_batch` */
  function FlattenRecordBatch(render: Renderer, columns: seq<ArrowColumn>): Result<seq<ArrowColumn>> {
    var flat := ExpandAll(render, columns);
    if flat.Failure? then Failure else TryNewBatch(Renamed(Fields(flat.value)), DataOf(flat.value))
  }

  /** The flat cells of a row, column after column. */
  function FlatRow(render: Renderer, fields: seq<ArrowField>, row: seq<Cell>): seq<Cell>
    requires |fields| == |row|
  {
    if fields == [] then []
    else FlatRow(render, fields[..|fields| - 1], row[..|row| - 1])
         + FlatCells(render, fields[|fields| - 1].ty, row[|row| - 1])
  }

  /** The flat columns of a batch: the announced fields, the same rows, and in each row its flat cells. */
  ghost predicate FlattensAll(render: Renderer, cols: seq<ArrowColumn>, columns: seq<ArrowColumn>, rows: nat) {
    && Fields(cols) == ExpandSchema(Fields(columns)) && Aligned(cols, rows)
    && forall r | 0 <= r < rows :: CellsAt(cols, r) == FlatRow(render, Fields(columns), CellsAt(columns, r))
  }

  lemma {:induction false} OneMoreColumn(render: Renderer, columns: seq<ArrowColumn>, rows: nat,
                                         before: seq<ArrowColumn>, last: seq<ArrowColumn>)
    requires columns != [] && Len(columns[|columns| - 1].data) == rows
    requires FlattensAll(render, before, columns[..|columns| - 1], rows)
    requires Flattens(render, last, columns[|columns| - 1].name, columns[|columns| - 1].data)
    ensures FlattensAll(render, before + last, columns, rows)
  {
    var n := |columns| - 1;
    FieldsJoin(before, last);
    assert Fields(columns)[..n] == Fields(columns[..n]);
    forall r | 0 <= r < rows
      ensures CellsAt(before + last, r) == FlatRow(render, Fields(columns), CellsAt(columns, r))
    {
      assert CellsAt(columns, r)[..n] == CellsAt(columns[..n], r);
    }
  }

  predicate AllFit(fields: seq<ArrowField>, rows: nat) {
    forall f | f in fields :: Fits(f.ty, rows)
  }

  lemma {:induction false} ExpandAllIsFaithful(render: Renderer, columns: seq<ArrowColumn>, rows: nat)
    requires Aligned(columns, rows)
    ensures ExpandAll(render, columns).Success? <==> AllFit(Fields(columns), rows)
    ensures ExpandAll(render, columns).Success? ==> FlattensAll(render, ExpandAll(render, columns).value, columns, rows)
  {
    if columns != [] {
      var n := |columns| - 1;
      assert columns[n] in columns;
      assert forall c | c in columns[..n] :: c in columns;
      assert Fields(columns)[..n] == Fields(columns[..n]);
      assert Fields(columns)[n] == ArrowField(columns[n].name, TypeOf(columns[n].data));
      assert Fields(columns) == Fields(columns)[..n] + [Fields(columns)[n]];
      ExpandAllIsFaithful(render, columns[..n], rows);
      FlatteningIsFaithful(render, columns[n].name, columns[n].data);
      if ExpandAll(render, columns).Success? {
        OneMoreColumn(render, columns, rows, ExpandAll(render, columns[..n]).value,
                      ExpandColumn(render, columns[n].name, columns[n].data).value);
      }
    }
  }

  /** Flattening a batch succeeds exactly when the gather indices fit and some column comes out, and gives
      exactly the flattened schema, with as many rows and in each of them its flat cells. */
  lemma {:induction false} FlattenedBatchHasFlattenedSchema(render: Renderer, columns: seq<ArrowColumn>, rows: nat)
    requires Aligned(columns, rows)
    ensures var r := FlattenRecordBatch(render, columns);
            && (r.Success? <==> AllFit(Fields(columns), rows) && ExpandSchema(Fields(columns)) != [])
            && (r.Success? ==> Fields(r.value) == FlattenSchema(Fields(columns)) && Aligned(r.value, rows))
            && (r.Success? ==> forall i | 0 <= i < rows ::
                                 CellsAt(r.value, i) == FlatRow(render, Fields(columns), CellsAt(columns, i)))
  {
    ExpandAllIsFaithful(render, columns, rows);
    var flat := ExpandAll(render, columns);
    if flat.Success? {
      forall k | 0 <= k < |flat.value|
        ensures TypeOf(DataOf(flat.value)[k]) == Renamed(Fields(flat.value))[k].ty && Len(DataOf(flat.value)[k]) == rows
        ensures WellFormed(DataOf(flat.value)[k])
      {
        assert flat.value[k] in flat.value;
      }
      var r := FlattenRecordBatch(render, columns);
      if r.Success? {
        forall i | 0 <= i < rows ensures CellsAt(r.value, i) == FlatRow(render, Fields(columns), CellsAt(columns, i)) {
        }
      }
    }
  }

  // ---------------------------------------------------------------- the loops

  lemma {:induction false} JoinOnto(out: seq<ArrowColumn>, p: Result<seq<ArrowColumn>>, q: Result<seq<ArrowColumn>>)
    ensures InFront(out, Join(p, q)) == Join(InFront(out, p), q)
  {
    if p.Success? && q.Success? {
      assert out + (p.value + q.value) == (out + p.value) + q.value;
    }
  }

  /** The struct branch: every child, with the parent's nulls, pushed behind the columns so far. */
  method ExpandStruct(render: Renderer, name: string, validity: Validity, columns: seq<ArrowColumn>,
                      out: seq<ArrowColumn>)
    returns (r: Result<seq<ArrowColumn>>)
    ensures r == InFront(out, ExpandChildren(render, name, validity, columns))
    decreases Fields(columns), 1
  {
    r := Success(out);
    assert columns[0..] == columns;
    for k := 0 to |columns|
      invariant r.Success?
      invariant InFront(out, ExpandChildren(render, name, validity, columns))
             == InFront(r.value, ExpandChildren(render, name, validity, columns[k..]))
    {
      ghost var before := r.value;
      assert Fields(columns)[k].ty == TypeOf(columns[k].data);
      r := ExpandInto(render, ChildName(name, columns[k].name), Propagate(validity, columns[k].data), r.value);
      JoinOnto(before, ExpandColumn(render, ChildName(name, columns[k].name), Propagate(validity, columns[k].data)),
               ExpandChildren(render, name, validity, columns[k + 1..]));
      if r.Failure? {
        return;
      }
    }
    assert r.value + [] == r.value;
  }

  /** The indices of element i, or a failure when one of them exceeds 32 bits. */
  method GatherIndices(rows: nat, n: nat, i: nat) returns (r: Result<seq<nat>>)
    ensures r == if IndicesFit(rows, n, i) then Success(ElementIndices(rows, n, i)) else Failure
    ensures r.Success? <==> forall row: nat | row < rows :: IndexFits(n, i, row)
    ensures r.Success? ==> |r.value| == rows && forall row: nat | row < rows :: r.value[row] == row * n + i
  {
    IndicesFitIff(rows, n, i);
    var indices := [];
    for row := 0 to rows
      invariant |indices| == row
      invariant forall j | 0 <= j < row :: indices[j] == ElementIndices(rows, n, i)[j]
      invariant row > 0 ==> (row - 1) * n + i < INDEX_LIMIT
    {
      if row * n + i >= INDEX_LIMIT {
        IndexBelowLast(rows, n, i, row);
        return Failure;
      }
      indices := indices + [row * n + i];
    }
    assert indices == ElementIndices(rows, n, i);
    return Success(indices);
  }

  /** The fixed-size list branch: every element, gathered, with the list's nulls. */
  method ExpandFixedList(render: Renderer, name: string, size: nat, len: nat, values: ArrowArray, validity: Validity,
                         out: seq<ArrowColumn>)
    returns (r: Result<seq<ArrowColumn>>)
    ensures r == InFront(out, ExpandElements(render, name, size, len, values, validity, size))
    decreases TypeOf(values), 2
  {
    r := Success(out);
    assert out + [] == out;
    for i := 0 to size
      invariant r.Success? && r == InFront(out, ExpandElements(render, name, size, len, values, validity, i))
    {
      ghost var before := ExpandElements(render, name, size, len, values, validity, i);
      var indices := GatherIndices(len, size, i);
      if indices.Failure? {
        ElementsFailLater(render, name, size, len, values, validity, i + 1, size);
        return Failure;
      }
      var element := Propagate(validity, Take(values, indices.value));
      JoinOnto(out, before, ExpandColumn(render, ChildName(name, Decimal(i)), element));
      r := ExpandInto(render, ChildName(name, Decimal(i)), element, r.value);
      if r.Failure? {
        ElementsFailLater(render, name, size, len, values, validity, i + 1, size);
        return;
      }
    }
  }

  lemma {:induction false} NextElementFails(render: Renderer, name: string, size: nat, len: nat, values: ArrowArray,
                                            validity: Validity, n: nat)
    requires n > 0
    ensures ExpandElements(render, name, size, len, values, validity, n).Success? ==>
              ExpandElements(render, name, size, len, values, validity, n - 1).Success?
  {
  }

  lemma {:induction false} ElementsFailLater(render: Renderer, name: string, size: nat, len: nat, values: ArrowArray,
                                             validity: Validity, i: nat, n: nat)
    requires i <= n && ExpandElements(render, name, size, len, values, validity, i).Failure?
    ensures ExpandElements(render, name, size, len, values, validity, n).Failure?
    decreases n
  {
    if i < n {
      ElementsFailLater(render, name, size, len, values, validity, i, n - 1);
      NextElementFails(render, name, size, len, values, validity, n);
    }
  }

  /** `expand_column`, pushing the flat columns behind those already out. */
  method ExpandInto(render: Renderer, name: string, a: ArrowArray, out: seq<ArrowColumn>)
    returns (r: Result<seq<ArrowColumn>>)
    ensures r == InFront(out, ExpandColumn(render, name, a))
    decreases TypeOf(a), 0
  {
    match a
    case StructArray(_, columns, validity) =>
      r := ExpandStruct(render, name, validity, columns, out);
    case FixedListArray(size, len, values, validity) =>
      if TypeOf(values).Struct? {
        r := ExpandFixedList(render, name, size, len, values, validity, out);
      } else {
        r := Success(out + [ArrowColumn(name, a)]);
      }
    case ListArray(_, values, _) =>
      r := Success(out + [ArrowColumn(name, if TypeOf(values).Struct? then Rendered(render, a) else a)]);
    case Leaf(_, _) =>
      r := Success(out + [ArrowColumn(name, a)]);
  }

  lemma {:induction false} AllFailLater(render: Renderer, columns: seq<ArrowColumn>, i: nat)
    requires i <= |columns| && ExpandAll(render, columns[..i]).Failure?
    ensures ExpandAll(render, columns).Failure?
    decreases |columns|
  {
    if i == |columns| {
      assert columns[..i] == columns;
    } else {
      assert columns[..|columns| - 1][..i] == columns[..i];
      AllFailLater(render, columns[..|columns| - 1], i);
    }
  }

  /** Expands every column, renames collisions in place, and builds the batch. */
  method FlattenColumns(render: Renderer, columns: seq<ArrowColumn>) returns (r: Result<seq<ArrowColumn>>)
    ensures r == FlattenRecordBatch(render, columns)
  {
    var out: seq<ArrowColumn> := [];
    for i := 0 to |columns|
      invariant ExpandAll(render, columns[..i]) == Success(out)
    {
      assert columns[..i + 1][..i] == columns[..i];
      var next := ExpandInto(render, columns[i].name, columns[i].data, out);
      if next.Failure? {
        AllFailLater(render, columns, i + 1);
        return Failure;
      }
      out := next.value;
    }
    assert columns[..|columns|] == columns;
    var fields := new ArrowField[|out|](i requires 0 <= i < |out| => ArrowField(out[i].name, TypeOf(out[i].data)));
    assert fields[..] == Fields(out);
    ResolveNameCollisions(fields);
    return TryNewBatch(fields[..], DataOf(out));
  }
}
