/** When shredding succeeds, and which values the columns keep apart. */
module SvmLossless {
  import opened Wrappers
  import opened Bytes
  import opened D = DynTypes
  import opened SvmShred

  // ---------------------------------------------------------------- success

  /** Types that have a column form at all: fixed arrays of bytes only, and no empty struct or enum. */
  predicate Shreddable(t: DynType)
    decreases t, 0
  {
    match t
    case Prim(_) | Boolean => true
    case FixedArray(e, _) => e == Prim(U8)
    case Array(e) => Shreddable(e)
    case Struct(fields) => fields != [] && AllShreddable(fields)
    case Enum(variants) =>
      variants != [] && forall x | x in variants && x.payload.Some? :: Shreddable(x.payload.value)
    case Opt(e) => Shreddable(e)
  }

  predicate AllShreddable(fields: seq<NamedType>)
    decreases fields, 0
  {
    forall f | f in fields :: Shreddable(f.ty)
  }

  function PayloadAt(v: Option<DynValue>, x: Variant): Option<DynValue> {
    if v.Some? && v.value.Chosen? && v.value.name == x.name then v.value.payload else None
  }

  /** A row the builders accept. */
  predicate RowOk(t: DynType, v: Option<DynValue>)
    decreases t, 0
  {
    match t
    case Prim(_) | Boolean | FixedArray(_, _) => LeafCell(t, v).Success?
    case Array(e) => v.Some? ==> v.value.Arr? && ItemsOk(e, v.value.elems)
    case Struct(fields) => (v.Some? ==> v.value.Record? && |v.value.fields| == |fields|) && FieldsOk(fields, 0, v)
    case Enum(variants) =>
      && (v.Some? ==> v.value.Chosen? && Position(variants, v.value.name) < |variants|)
      && forall x | x in variants && x.payload.Some? :: RowOk(x.payload.value, PayloadAt(v, x))
    case Opt(e) => (v.Some? ==> v.value.Maybe?) && RowOk(e, Strip(v))
  }

  predicate ItemsOk(e: DynType, xs: seq<DynValue>)
    decreases e, 1
  {
    forall x | x in xs :: RowOk(e, Some(x))
  }

  predicate FieldsOk(fields: seq<NamedType>, k: nat, v: Option<DynValue>)
    decreases fields, 0
  {
    fields == [] || (RowOk(fields[0].ty, FieldOf(v, k)) && FieldsOk(fields[1..], k + 1, v))
  }

  predicate RowsOk(t: DynType, vals: Rows) {
    forall v | v in vals :: RowOk(t, v)
  }

  lemma {:induction false} GatheredItem(vals: Rows, x: Option<DynValue>)
    ensures x in Gather(vals) <==> exists v :: v in vals && x in ItemsOf(v)
  {
    if vals != [] {
      var n := |vals| - 1;
      GatheredItem(vals[..n], x);
      assert vals == vals[..n] + [vals[n]];
      assert ItemRows(vals)[..n] == ItemRows(vals[..n]);
      if v :| v in vals && x in ItemsOf(v) {
        assert v in vals[..n] || v == vals[n];
      }
    }
  }

  lemma {:induction false} ItemsOfRow(e: DynType, v: Option<DynValue>)
    requires v.Some? ==> v.value.Arr?
    ensures RowOk(Array(e), v) <==> RowsOk(e, ItemsOf(v))
  {
    if v.Some? {
      var xs := v.value.elems;
      forall i | 0 <= i < |xs| ensures ItemsOf(v)[i] == Some(xs[i]) && xs[i] in xs && Some(xs[i]) in ItemsOf(v) {
        assert ItemsOf(v)[i] in ItemsOf(v);
      }
    }
  }

  lemma {:induction false} ListRowsOk(e: DynType, vals: Rows)
    requires ListRows(vals)
    ensures RowsOk(e, Gather(vals)) <==> RowsOk(Array(e), vals)
  {
    forall v | v in vals ensures RowOk(Array(e), v) <==> RowsOk(e, ItemsOf(v)) {
      ItemsOfRow(e, v);
    }
    forall x ensures x in Gather(vals) <==> exists v :: v in vals && x in ItemsOf(v) {
      GatheredItem(vals, x);
    }
  }

  predicate ColumnsOk(fields: seq<NamedType>, k: nat, vals: Rows) {
    forall v | v in vals :: FieldsOk(fields, k, v)
  }

  lemma {:induction false} ColumnRowsOk(t: DynType, k: nat, vals: Rows)
    ensures RowsOk(t, ColumnOf(vals, k)) <==> forall v | v in vals :: RowOk(t, FieldOf(v, k))
  {
    if RowsOk(t, ColumnOf(vals, k)) {
      forall v | v in vals ensures RowOk(t, FieldOf(v, k)) {
        var i :| 0 <= i < |vals| && vals[i] == v;
        assert ColumnOf(vals, k)[i] == FieldOf(v, k);
      }
    }
  }

  lemma {:induction false} StripRowsOk(e: DynType, vals: Rows)
    requires OptRows(vals)
    ensures RowsOk(e, StripAll(vals)) <==> RowsOk(Opt(e), vals)
  {
    if RowsOk(e, StripAll(vals)) {
      forall v | v in vals ensures RowOk(Opt(e), v) {
        var i :| 0 <= i < |vals| && vals[i] == v;
        assert StripAll(vals)[i] == Strip(v);
      }
    } else {
      var i :| 0 <= i < |vals| && !RowOk(e, StripAll(vals)[i]);
      assert vals[i] in vals && StripAll(vals)[i] == Strip(vals[i]);
    }
  }

  lemma {:induction false} VariantsShreddable(variants: seq<Variant>)
    ensures AllShreddable(VariantFields(variants)) <==>
            forall x | x in variants && x.payload.Some? :: Shreddable(x.payload.value)
  {
    if variants != [] {
      VariantsShreddable(variants[1..]);
      var first := VariantFields(variants)[0];
      assert Shreddable(first.ty) <==> (variants[0].payload.Some? ==> Shreddable(variants[0].payload.value));
      assert VariantFields(variants) == [first] + VariantFields(variants[1..]);
      assert variants == [variants[0]] + variants[1..];
    }
  }

  lemma {:induction false} EnumShreddable(variants: seq<Variant>)
    ensures Shreddable(Struct(EnumStruct(variants))) <==> Shreddable(Enum(variants))
  {
    VariantsShreddable(variants);
    var fields := EnumStruct(variants);
    var f, g := fields[0], fields[1];
    assert fields == [f, g] && f in fields && g in fields;
    assert AllShreddable(fields) <==> Shreddable(f.ty) && Shreddable(g.ty);
    assert Shreddable(f.ty) && g.ty == Struct(VariantFields(variants));
    assert VariantFields(variants) != [] <==> variants != [];
  }

  lemma {:induction false} VariantValuesOk(all: seq<Variant>, k: nat, v: Option<DynValue>, data: Option<DynValue>)
    requires k <= |all| && v.Some? && v.value.Chosen?
    requires data == Some(Record(VariantValues(all, v.value.name, v.value.payload)))
    ensures FieldsOk(VariantFields(all[k..]), k, data) <==>
            forall x | x in all[k..] && x.payload.Some? :: RowOk(x.payload.value, PayloadAt(v, x))
    decreases |all| - k
  {
    if k < |all| {
      var rest := all[k..];
      assert rest[0] == all[k] && rest[1..] == all[k + 1..] && rest == [all[k]] + all[k + 1..];
      VariantValuesOk(all, k + 1, v, data);
      var first := VariantFields(rest)[0];
      assert VariantFields(rest)[1..] == VariantFields(rest[1..]);
      assert FieldOf(data, k).value.inner == if all[k].payload.Some? then PayloadAt(v, all[k]) else None;
      assert RowOk(first.ty, FieldOf(data, k))
        <==> (all[k].payload.Some? ==> RowOk(all[k].payload.value, PayloadAt(v, all[k])));
    }
  }

  lemma {:induction false} MissingIsOk(t: DynType)
    ensures RowOk(t, None)
    decreases t, 0
  {
    match t
    case Struct(fields) =>
      MissingFieldsOk(fields, 0);
    case Enum(variants) =>
      forall x | x in variants && x.payload.Some? ensures RowOk(x.payload.value, None) {
        MissingIsOk(x.payload.value);
      }
    case Opt(e) =>
      MissingIsOk(e);
    case _ =>
  }

  lemma {:induction false} MissingFieldsOk(fields: seq<NamedType>, k: nat)
    ensures FieldsOk(fields, k, None)
    decreases fields, 0
  {
    if fields != [] {
      MissingIsOk(fields[0].ty);
      MissingFieldsOk(fields[1..], k + 1);
    }
  }

  lemma {:induction false} TwoFieldsOk(f: NamedType, g: NamedType, v: Option<DynValue>)
    ensures FieldsOk([f, g], 0, v) <==> RowOk(f.ty, FieldOf(v, 0)) && RowOk(g.ty, FieldOf(v, 1))
  {
    assert [f, g][1..] == [g] && [g][1..] == [];
    assert FieldsOk([g], 1, v) <==> RowOk(g.ty, FieldOf(v, 1));
  }

  lemma {:induction false} EnumRowOk(variants: seq<Variant>, v: Option<DynValue>)
    requires v.Some? ==> v.value.Chosen? && Position(variants, v.value.name) < |variants|
    ensures RowOk(Struct(EnumStruct(variants)), EnumRow(variants, v)) <==> RowOk(Enum(variants), v)
  {
    if v.None? {
      MissingIsOk(Struct(EnumStruct(variants)));
      MissingIsOk(Enum(variants));
    } else {
      var fields, row := EnumStruct(variants), EnumRow(variants, v);
      TwoFieldsOk(fields[0], fields[1], row);
      assert fields == [fields[0], fields[1]];
      assert RowOk(fields[0].ty, FieldOf(row, 0)) by {
        assert FitsUnsigned(Position(variants, v.value.name) % 256, 1) by {
          assert Pow256(1) == 256 * Pow256(0);
        }
      }
      VariantValuesOk(variants, 0, v, FieldOf(row, 1));
      assert variants[0..] == variants;
    }
  }

  lemma {:induction false} EnumRowsOk(variants: seq<Variant>, vals: Rows)
    requires EnumRows(variants, vals)
    ensures StructRows(2, EnumRowsOf(variants, vals))
    ensures RowsOk(Struct(EnumStruct(variants)), EnumRowsOf(variants, vals)) <==> RowsOk(Enum(variants), vals)
  {
    var t := Struct(EnumStruct(variants));
    forall i | 0 <= i < |vals|
      ensures RowOk(t, EnumRowsOf(variants, vals)[i]) <==> RowOk(Enum(variants), vals[i])
    {
      assert vals[i] in vals;
      EnumRowOk(variants, vals[i]);
    }
  }

  /** `to_arrow` succeeds exactly on types that have a column form and rows the builders accept:
      neither the construction of lists nor that of batches adds a failure of its own. */
  lemma {:induction false} SucceedsIff(t: DynType, vals: Rows)
    ensures ToArrow(t, vals).Success? <==> Shreddable(t) && RowsOk(t, vals)
    decreases Rank(t), 0
  {
    match t
    case Prim(_) =>
    case Boolean =>
    case FixedArray(_, _) =>
    case Array(e) =>
      if ListRows(vals) {
        SucceedsIff(e, Gather(vals));
        ListRowsOk(e, vals);
        if ToArrow(e, Gather(vals)).Success? {
          ShreddingIsFaithful(e, Gather(vals));
          ListFaithful(e, vals, ToArrow(e, Gather(vals)).value);
        }
      }
    case Struct(fields) =>
      StructSucceedsIff(fields, vals);
    case Enum(variants) =>
      if EnumRows(variants, vals) {
        StructSucceedsIff(EnumStruct(variants), EnumRowsOf(variants, vals));
        EnumShreddable(variants);
        EnumRowsOk(variants, vals);
      }
    case Opt(e) =>
      if OptRows(vals) {
        SucceedsIff(e, StripAll(vals));
        StripRowsOk(e, vals);
      }
  }

  lemma {:induction false} StructSucceedsIff(fields: seq<NamedType>, vals: Rows)
    ensures ToStruct(fields, vals).Success? <==>
            fields != [] && AllShreddable(fields) && StructRows(|fields|, vals) && ColumnsOk(fields, 0, vals)
    decreases RankFields(fields), 1
  {
    ColumnsSucceedIff(fields, 0, vals);
    if ToColumns(fields, 0, vals).Success? {
      ColumnsAreFaithful(fields, 0, vals);
      StructFaithful(fields, vals, ToColumns(fields, 0, vals).value);
    }
  }

  lemma {:induction false} ColumnsSucceedIff(fields: seq<NamedType>, k: nat, vals: Rows)
    ensures ToColumns(fields, k, vals).Success? <==> AllShreddable(fields) && ColumnsOk(fields, k, vals)
    decreases RankFields(fields), 0
  {
    if fields != [] {
      SucceedsIff(fields[0].ty, ColumnOf(vals, k));
      ColumnRowsOk(fields[0].ty, k, vals);
      ColumnsSucceedIff(fields[1..], k + 1, vals);
      assert fields == [fields[0]] + fields[1..];
    }
  }
}
