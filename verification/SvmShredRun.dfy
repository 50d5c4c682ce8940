/** `to_arrow` as it runs: the loops over rows that fill builders, offsets and validity. */
module SvmShredRun {
  import opened Wrappers
  import opened Bytes
  import opened D = DynTypes
  import opened SvmShred
  import L = SvmLossless
  import M = SvmMeaning
  import A = Arrow

  /** The cells built for the first i rows. */
  predicate Built(t: DynType, vals: Rows, i: nat, cells: seq<Option<A.Datum>>)
    requires i <= |vals|
  {
    |cells| == i && forall j | 0 <= j < i :: LeafCell(t, vals[j]) == Success(cells[j])
  }

  lemma {:induction false} BuiltAll(t: DynType, vals: Rows, cells: seq<Option<A.Datum>>)
    requires Built(t, vals, |vals|, cells)
    ensures LeafArray(t, vals) == Success(A.Leaf(LeafType(t), cells))
  {
    assert cells == LeafCells(t, vals);
  }

  method ToNumber(k: IntKind, vals: Rows) returns (r: Result<A.ArrowArray>)
    requires Width(k) < 16
    ensures r == LeafArray(Prim(k), vals)
  {
    var cells := [];
    for i := 0 to |vals|
      invariant Built(Prim(k), vals, i, cells)
    {
      assert vals[i] in vals;
      if vals[i].Some? {
        if !vals[i].value.Num? || !InRange(k, vals[i].value.n) {
          return Failure;
        }
        cells := cells + [Some(A.Int(vals[i].value.n))];
      } else {
        cells := cells + [None];
      }
    }
    BuiltAll(Prim(k), vals, cells);
    return Success(A.Leaf(NumberType(k), cells));
  }

  method ToDecimal128(k: IntKind, vals: Rows) returns (r: Result<A.ArrowArray>)
    requires Width(k) == 16
    ensures r == LeafArray(Prim(k), vals)
  {
    var cells := [];
    for i := 0 to |vals|
      invariant Built(Prim(k), vals, i, cells)
    {
      assert vals[i] in vals;
      if vals[i].Some? {
        var v := vals[i].value;
        if !v.Num? || v.kind !in {I128, U128} || !FitsSigned(v.n, 16) {
          return Failure;
        }
        cells := cells + [Some(A.Int(v.n))];
      } else {
        cells := cells + [None];
      }
    }
    BuiltAll(Prim(k), vals, cells);
    return Success(A.Leaf(A.Decimal128, cells));
  }

  method ToBool(vals: Rows) returns (r: Result<A.ArrowArray>)
    ensures r == LeafArray(Boolean, vals)
  {
    var cells := [];
    for i := 0 to |vals|
      invariant Built(Boolean, vals, i, cells)
    {
      assert vals[i] in vals;
      if vals[i].Some? {
        if !vals[i].value.Bool? {
          return Failure;
        }
        cells := cells + [Some(A.Bit(vals[i].value.b))];
      } else {
        cells := cells + [None];
      }
    }
    BuiltAll(Boolean, vals, cells);
    return Success(A.Leaf(A.Boolean, cells));
  }

  method ToBinary(e: DynType, n: nat, vals: Rows) returns (r: Result<A.ArrowArray>)
    ensures r == LeafArray(FixedArray(e, n), vals)
  {
    var t, cells := FixedArray(e, n), [];
    for i := 0 to |vals|
      invariant Built(t, vals, i, cells)
    {
      assert vals[i] in vals;
      if vals[i].Some? {
        if !vals[i].value.Arr? || !AreBytes(vals[i].value.elems) {
          return Failure;
        }
        cells := cells + [Some(A.Blob(BytesOf(vals[i].value.elems)))];
      } else {
        cells := cells + [None];
      }
    }
    BuiltAll(t, vals, cells);
    return Success(A.Leaf(A.Binary, cells));
  }

  lemma {:induction false} OneMoreRow(vals: Rows, i: nat)
    requires i < |vals|
    ensures vals[..i + 1] == vals[..i] + [vals[i]]
    ensures Gather(vals[..i + 1]) == Gather(vals[..i]) + ItemsOf(vals[i])
    ensures Lengths(vals[..i + 1]) == Lengths(vals[..i]) + [|ItemsOf(vals[i])|]
  {
    assert ItemRows(vals[..i + 1])[..i] == ItemRows(vals[..i]);
  }

  /** The loop of `to_list`: the length of every row, the items of all rows, and which rows are there. */
  method ListParts(vals: Rows) returns (ok: bool, lengths: seq<nat>, inner: Rows, validity: A.Validity)
    ensures ok <==> ListRows(vals)
    ensures ok ==> lengths == Lengths(vals) && inner == Gather(vals) && validity == ValidityOf(vals)
  {
    lengths, inner := [], [];
    var valid, allValid := [], true;
    assert Lengths(vals[..0]) == [] && Gather(vals[..0]) == [];
    for i := 0 to |vals|
      invariant ListRows(vals[..i])
      invariant lengths == Lengths(vals[..i]) && inner == Gather(vals[..i])
      invariant |valid| == i && forall j | 0 <= j < i :: valid[j] == vals[j].Some?
      invariant allValid <==> None !in vals[..i]
    {
      OneMoreRow(vals, i);
      assert vals[i] in vals;
      if vals[i].Some? {
        if !vals[i].value.Arr? {
          return false, lengths, inner, None;
        }
        lengths, inner := lengths + [|vals[i].value.elems|], inner + Somes(vals[i].value.elems);
        valid := valid + [true];
      } else {
        lengths, valid, allValid := lengths + [0], valid + [false], false;
      }
    }
    assert vals[..|vals|] == vals;
    validity := if allValid then None else Some(valid);
    if !allValid {
      assert valid == ValidityOf(vals).value;
    }
    ok := true;
  }

  method ToList(e: DynType, vals: Rows) returns (r: Result<A.ArrowArray>)
    ensures r == ToArrow(Array(e), vals)
    decreases Rank(e), 2
  {
    var ok, lengths, inner, validity := ListParts(vals);
    if !ok || ToDtype(e).Failure? {
      return Failure;
    }
    var values := ToArrowArray(e, inner);
    if values.Failure? {
      return Failure;
    }
    return A.TryNewList(ToDtype(e).value, A.FromLengths(lengths), values.value, validity);
  }

  /** The loop of `to_struct` over the rows: one vector for each field, grown in lockstep. */
  method Transpose(n: nat, vals: Rows) returns (ok: bool, columns: seq<Rows>)
    ensures ok <==> StructRows(n, vals)
    ensures ok ==> |columns| == n && forall k: nat | k < n :: columns[k] == ColumnOf(vals, k)
  {
    columns := seq(n, k => []);
    for i := 0 to |vals|
      invariant StructRows(n, vals[..i])
      invariant |columns| == n && forall k: nat | k < n :: columns[k] == ColumnOf(vals[..i], k)
    {
      assert vals[i] in vals && vals[..i + 1] == vals[..i] + [vals[i]];
      if vals[i].Some? && (!vals[i].value.Record? || |vals[i].value.fields| != n) {
        return false, columns;
      }
      columns := PushRow(columns, vals[i]);
      assert forall k: nat | k < n :: columns[k] == ColumnOf(vals[..i + 1], k);
    }
    assert vals[..|vals|] == vals;
    ok := true;
  }

  /** Pushes a row's fields, or a missing value, onto every vector. */
  method PushRow(columns: seq<Rows>, v: Option<DynValue>) returns (r: seq<Rows>)
    ensures |r| == |columns| && forall k: nat | k < |columns| :: r[k] == columns[k] + [FieldOf(v, k)]
  {
    r := columns;
    for k := 0 to |columns|
      invariant |r| == |columns|
      invariant forall j: nat | j < |columns| :: r[j] == if j < k then columns[j] + [FieldOf(v, j)] else columns[j]
    {
      r := r[k := r[k] + [FieldOf(v, k)]];
    }
  }

  lemma {:induction false} NextColumn(fields: seq<NamedType>, k: nat, vals: Rows, arrays: seq<A.ArrowColumn>)
    requires k < |fields|
    ensures ToArrow(fields[k].ty, ColumnOf(vals, k)).Failure? ==> ToColumns(fields[k..], k, vals).Failure?
    ensures ToArrow(fields[k].ty, ColumnOf(vals, k)).Success? ==> (
              A.InFront(arrays, ToColumns(fields[k..], k, vals))
              == A.InFront(arrays + [A.ArrowColumn(fields[k].name, ToArrow(fields[k].ty, ColumnOf(vals, k)).value)],
                         ToColumns(fields[k + 1..], k + 1, vals)))
  {
    assert fields[k..][0] == fields[k] && fields[k..][1..] == fields[k + 1..];
    var first, others := ToArrow(fields[k].ty, ColumnOf(vals, k)), ToColumns(fields[k + 1..], k + 1, vals);
    if first.Success? && others.Success? {
      var c := A.ArrowColumn(fields[k].name, first.value);
      assert arrays + ([c] + others.value) == (arrays + [c]) + others.value;
    }
  }

  lemma {:induction false} RankOfField(fields: seq<NamedType>, k: nat)
    requires k < |fields|
    ensures Rank(fields[k].ty) < RankFields(fields)
  {
    if k > 0 {
      RankOfField(fields[1..], k - 1);
    }
  }

  method ToStructArray(fields: seq<NamedType>, vals: Rows) returns (r: Result<A.ArrowArray>)
    ensures r == ToStruct(fields, vals)
    decreases RankFields(fields), 1
  {
    var ok, columns := Transpose(|fields|, vals);
    if !ok {
      return Failure;
    }
    var arrays: seq<A.ArrowColumn> := [];
    assert fields[0..] == fields;
    assert ToColumns(fields, 0, vals).Success? ==>
             [] + ToColumns(fields, 0, vals).value == ToColumns(fields, 0, vals).value;
    for k := 0 to |fields|
      invariant ToColumns(fields, 0, vals) == A.InFront(arrays, ToColumns(fields[k..], k, vals))
    {
      RankOfField(fields, k);
      var a := ToArrowArray(fields[k].ty, columns[k]);
      NextColumn(fields, k, vals, arrays);
      if a.Failure? {
        return Failure;
      }
      arrays := arrays + [A.ArrowColumn(fields[k].name, a.value)];
    }
    assert arrays + [] == arrays;
    return A.TryNewStruct(arrays);
  }

  /** Rewrites enum values to structs, and fails on any other value and on unknown variants. */
  method ToEnum(variants: seq<Variant>, vals: Rows) returns (r: Result<A.ArrowArray>)
    ensures r == ToArrow(Enum(variants), vals)
    decreases RankVariants(variants) + 4, 2
  {
    var values: Rows := [];
    for i := 0 to |vals|
      invariant |values| == i && EnumRows(variants, vals[..i])
      invariant forall j | 0 <= j < i :: values[j] == EnumRow(variants, vals[j])
    {
      assert vals[i] in vals && vals[..i + 1] == vals[..i] + [vals[i]];
      if vals[i].Some? && (!vals[i].value.Chosen? || Position(variants, vals[i].value.name) == |variants|) {
        return Failure;
      }
      values := values + [EnumRow(variants, vals[i])];
    }
    assert vals[..|vals|] == vals && values == EnumRowsOf(variants, vals);
    r := ToStructArray(EnumStruct(variants), values);
  }

  method ToOption(e: DynType, vals: Rows) returns (r: Result<A.ArrowArray>)
    ensures r == ToArrow(Opt(e), vals)
    decreases Rank(e), 2
  {
    var values: Rows := [];
    for i := 0 to |vals|
      invariant |values| == i && OptRows(vals[..i])
      invariant forall j | 0 <= j < i :: values[j] == Strip(vals[j])
    {
      assert vals[i] in vals && vals[..i + 1] == vals[..i] + [vals[i]];
      if vals[i].Some? && !vals[i].value.Maybe? {
        return Failure;
      }
      values := values + [Strip(vals[i])];
    }
    assert vals[..|vals|] == vals && values == StripAll(vals);
    r := ToArrowArray(e, values);
  }

  method ToArrowArray(t: DynType, vals: Rows) returns (r: Result<A.ArrowArray>)
    ensures r == ToArrow(t, vals)
    ensures r.Success? <==> L.Shreddable(t) && M.RowsAccepted(t, vals)
    ensures r.Success? ==> M.HoldsRows(t, vals, r.value) && M.TypeFits(t, A.TypeOf(r.value))
    decreases Rank(t), 0
  {
    M.ColumnIsAsAnnounced(t, vals);
    match t
    case Prim(k) =>
      if Width(k) == 16 {
        r := ToDecimal128(k, vals);
      } else {
        r := ToNumber(k, vals);
      }
    case Boolean =>
      r := ToBool(vals);
    case FixedArray(e, n) =>
      if e != Prim(U8) {
        return Failure;
      }
      r := ToBinary(e, n, vals);
    case Array(e) =>
      r := ToList(e, vals);
    case Struct(fields) =>
      r := ToStructArray(fields, vals);
    case Enum(variants) =>
      r := ToEnum(variants, vals);
    case Opt(e) =>
      r := ToOption(e, vals);
  }
}
