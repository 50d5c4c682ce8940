/** The EVM `to_arrow` as it runs: loops over rows filling builders, lengths, padding and validity. */
module EvmShredRun {
  import opened Wrappers
  import opened EvmShred
  import opened EvmMeaning
  import A = Arrow

  /** The builder loops: one cell for each row, or the first error. */
  method BuildLeaf(t: SolType, o: Options, vals: Rows) returns (r: Result<A.ArrowArray>)
    requires IsLeaf(t)
    ensures r == LeafArray(t, o, vals)
  {
    var cells := [];
    for i := 0 to |vals|
      invariant |cells| == i && forall j | 0 <= j < i :: LeafCell(t, o, vals[j]) == Success(cells[j])
    {
      assert vals[i] in vals;
      var c := LeafCell(t, o, vals[i]);
      if c.Failure? {
        return Failure;
      }
      cells := cells + [c.value];
    }
    assert cells == LeafCells(t, o, vals);
    return Success(A.Leaf(ToDtype(t, o).value, cells));
  }

  lemma {:induction false} OneMoreRow(rows: seq<Rows>, i: nat)
    requires i < |rows|
    ensures A.Concat(rows[..i + 1]) == A.Concat(rows[..i]) + rows[i]
    ensures A.LengthsOf(rows[..i + 1]) == A.LengthsOf(rows[..i]) + [|rows[i]|]
  {
    assert rows[..i + 1][..i] == rows[..i];
  }

  /** The loop of `to_list`. */
  method ListParts(vals: Rows) returns (ok: bool, lengths: seq<nat>, values: Rows, validity: A.Validity)
    ensures ok <==> ListRows(vals)
    ensures ok ==> lengths == A.LengthsOf(ItemRows(vals)) && values == A.Concat(ItemRows(vals))
    ensures ok ==> validity == ValidityOf(vals)
  {
    ghost var rows := ItemRows(vals);
    lengths, values := [], [];
    var valid, allValid := [], true;
    for i := 0 to |vals|
      invariant ListRows(vals[..i])
      invariant lengths == A.LengthsOf(rows[..i]) && values == A.Concat(rows[..i])
      invariant |valid| == i && forall j | 0 <= j < i :: valid[j] == vals[j].Some?
      invariant allValid <==> None !in vals[..i]
    {
      OneMoreRow(rows, i);
      assert vals[i] in vals && vals[..i + 1] == vals[..i] + [vals[i]];
      if vals[i].Some? {
        var v := vals[i].value;
        if !v.ArrayValue? && !v.FixedArrayValue? {
          return false, lengths, values, None;
        }
        lengths, values, valid := lengths + [|v.items|], values + Somes(v.items), valid + [true];
      } else {
        lengths, valid, allValid := lengths + [0], valid + [false], false;
        assert values + [] == values;
      }
    }
    assert vals[..|vals|] == vals && rows[..|vals|] == rows;
    validity := if allValid then None else Some(valid);
    if !allValid {
      assert valid == ValidityOf(vals).value;
    }
    ok := true;
  }

  /** The loop of `to_fixed_list`, which pads missing rows. */
  method FixedParts(n: nat, vals: Rows) returns (ok: bool, values: Rows, validity: A.Validity)
    ensures ok <==> FixedRows(n, vals)
    ensures ok ==> values == A.Concat(PaddedRows(n, vals)) && validity == ValidityOf(vals)
  {
    ghost var rows := PaddedRows(n, vals);
    values := [];
    var valid, allValid := [], true;
    for i := 0 to |vals|
      invariant FixedRows(n, vals[..i])
      invariant values == A.Concat(rows[..i])
      invariant |valid| == i && forall j | 0 <= j < i :: valid[j] == vals[j].Some?
      invariant allValid <==> None !in vals[..i]
    {
      OneMoreRow(rows, i);
      assert vals[i] in vals && vals[..i + 1] == vals[..i] + [vals[i]];
      if vals[i].Some? {
        var v := vals[i].value;
        if !v.FixedArrayValue? || |v.items| != n {
          return false, values, None;
        }
        values, valid := values + Somes(v.items), valid + [true];
      } else {
        values, valid, allValid := values + seq(n, i => None), valid + [false], false;
      }
    }
    assert vals[..|vals|] == vals && rows[..|vals|] == rows;
    validity := if allValid then None else Some(valid);
    if !allValid {
      assert valid == ValidityOf(vals).value;
    }
    ok := true;
  }

  /** The row loop of `to_struct` and `to_struct_named`: one vector for each field, grown in lockstep. */
  method Transpose(n: nat, vals: Rows) returns (ok: bool, columns: seq<Rows>)
    ensures ok <==> TupleRows(n, vals)
    ensures ok ==> |columns| == n && forall k: nat | k < n :: columns[k] == ColumnOf(vals, k)
  {
    columns := seq(n, k => []);
    for i := 0 to |vals|
      invariant TupleRows(n, vals[..i])
      invariant |columns| == n && forall k: nat | k < n :: columns[k] == ColumnOf(vals[..i], k)
    {
      assert vals[i] in vals && vals[..i + 1] == vals[..i] + [vals[i]];
      if vals[i].Some? && (!vals[i].value.TupleValue? || |vals[i].value.items| != n) {
        return false, columns;
      }
      columns := PushRow(columns, vals[i]);
      assert forall k: nat | k < n :: columns[k] == ColumnOf(vals[..i + 1], k);
    }
    assert vals[..|vals|] == vals;
    ok := true;
  }

  method PushRow(columns: seq<Rows>, v: Option<SolValue>) returns (r: seq<Rows>)
    ensures |r| == |columns| && forall k: nat | k < |columns| :: r[k] == columns[k] + [FieldOf(v, k)]
  {
    r := columns;
    for k := 0 to |columns|
      invariant |r| == |columns|
      invariant forall j: nat | j < |columns| :: r[j] == if j < k then columns[j] + [FieldOf(v, j)] else columns[j]
    {
      r := r[k := r[k] + [FieldOf(v, k)]];
    }
  }

  lemma {:induction false} NextColumn(fields: seq<SolType>, k: nat, o: Options, vals: Rows, arrays: seq<A.ArrowColumn>)
    requires k < |fields|
    ensures ToArrow(fields[k], o, ColumnOf(vals, k)).Failure? ==> ToColumns(fields[k..], k, o, vals).Failure?
    ensures ToArrow(fields[k], o, ColumnOf(vals, k)).Success? ==> (
              A.InFront(arrays, ToColumns(fields[k..], k, o, vals))
              == A.InFront(arrays + [A.ArrowColumn(DefaultName(k), ToArrow(fields[k], o, ColumnOf(vals, k)).value)],
                         ToColumns(fields[k + 1..], k + 1, o, vals)))
  {
    assert fields[k..][0] == fields[k] && fields[k..][1..] == fields[k + 1..];
    var first, others := ToArrow(fields[k], o, ColumnOf(vals, k)), ToColumns(fields[k + 1..], k + 1, o, vals);
    if first.Success? && others.Success? {
      var c := A.ArrowColumn(DefaultName(k), first.value);
      assert arrays + ([c] + others.value) == (arrays + [c]) + others.value;
    }
  }

  /** `to_struct` */
  method ToStruct(fields: seq<SolType>, o: Options, vals: Rows) returns (r: Result<A.ArrowArray>)
    ensures r == ToArrow(Tuple(fields), o, vals)
    decreases fields, 1
  {
    if fields == [] {
      return Success(A.StructArray(|vals|, [], None));
    }
    var ok, columns := Transpose(|fields|, vals);
    if !ok {
      return Failure;
    }
    var arrays: seq<A.ArrowColumn> := [];
    assert fields[0..] == fields;
    assert ToColumns(fields, 0, o, vals).Success? ==>
             [] + ToColumns(fields, 0, o, vals).value == ToColumns(fields, 0, o, vals).value;
    for k := 0 to |fields|
      invariant ToColumns(fields, 0, o, vals) == A.InFront(arrays, ToColumns(fields[k..], k, o, vals))
    {
      var a := ToArrowArray(fields[k], o, columns[k]);
      NextColumn(fields, k, o, vals, arrays);
      if a.Failure? {
        return Failure;
      }
      arrays := arrays + [A.ArrowColumn(DefaultName(k), a.value)];
    }
    assert arrays + [] == arrays;
    return A.TryNewStruct(arrays);
  }

  /** `to_arrow`: builds a column iff the type has one and takes every value; the column has the announced
      type, and each row holds its value. */
  method ToArrowArray(t: SolType, o: Options, vals: Rows) returns (r: Result<A.ArrowArray>)
    ensures r == ToArrow(t, o, vals)
    ensures r.Success? <==> HasColumn(t) && RowsAccepted(t, o, vals)
    ensures r.Success? ==> HoldsRows(t, o, vals, r.value) && TypeFits(t, o, A.TypeOf(r.value))
    decreases t, 2
  {
    ColumnIsAsAnnounced(t, o, vals);
    match t
    case Function =>
      r := Failure;
    case Array(e) =>
      var ok, lengths, values, validity := ListParts(vals);
      if !ok {
        return Failure;
      }
      var inner := ToArrowArray(e, o, values);
      if inner.Failure? || ToDtype(e, o).Failure? {
        return Failure;
      }
      r := A.TryNewList(ToDtype(e, o).value, A.FromLengths(lengths), inner.value, validity);
    case FixedArray(e, n) =>
      var ok, values, validity := FixedParts(n, vals);
      if !ok {
        return Failure;
      }
      var inner := ToArrowArray(e, o, values);
      if inner.Failure? || ToDtype(e, o).Failure? {
        return Failure;
      }
      r := A.TryNewFixedList(ToDtype(e, o).value, n, inner.value, validity);
    case Tuple(fields) =>
      r := ToStruct(fields, o, vals);
    case _ =>
      r := BuildLeaf(t, o, vals);
  }
}
