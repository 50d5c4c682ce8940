/** What a Solana column says about its values and what type it has, told from the values and types
    alone. */
module SvmMeaning {
  import opened Wrappers
  import opened D = DynTypes
  import opened BorshWire
  import opened SvmShred
  import opened SvmLossless
  import A = Arrow

  // ---------------------------------------------------------------- values

  /** The cell holds the value. */
  predicate IsCellOf(t: DynType, v: DynValue, c: A.Cell)
    decreases t, 0
  {
    match t
    case Prim(_) => v.Num? && c == A.Scalar(A.Int(v.n))
    case Boolean => v.Bool? && c == A.Scalar(A.Bit(v.b))
    case FixedArray(_, _) => v.Arr? && c.Scalar? && c.d.Blob? && BytesHeld(v.elems, c.d.bytes)
    case Array(e) => v.Arr? && c.Items? && ItemsHeld(e, v.elems, c.items)
    case Struct(fields) => v.Record? && c.Children? && FieldsHeld(fields, v.fields, c.children)
    case Enum(variants) => v.Chosen? && IsEnumCell(c) && ChoiceHeld(variants, v, c)
    case Opt(e) => v.Maybe? && if v.inner.Some? then IsCellOf(e, v.inner.value, c) else Missing(e, c)
  }

  predicate BytesHeld(xs: seq<DynValue>, bytes: seq<int>) {
    |bytes| == |xs| && forall j | 0 <= j < |xs| :: xs[j] == Num(U8, bytes[j])
  }

  predicate ItemsHeld(e: DynType, xs: seq<DynValue>, cs: seq<A.Cell>)
    decreases e, 1
  {
    |cs| == |xs| && forall j | 0 <= j < |xs| :: IsCellOf(e, xs[j], cs[j])
  }

  predicate FieldsHeld(fields: seq<NamedType>, vs: seq<NamedValue>, cs: seq<A.Cell>)
    decreases fields, 0
  {
    |vs| == |fields| == |cs| && forall k | 0 <= k < |fields| :: IsCellOf(fields[k].ty, vs[k].value, cs[k])
  }

  /** An index, and a cell for each variant. */
  predicate IsEnumCell(c: A.Cell) {
    c.Children? && |c.children| == 2 && c.children[1].Children?
  }

  /** The index of the chosen variant in a byte, and its payload under its name; every other variant is
      missing. */
  predicate ChoiceHeld(variants: seq<Variant>, v: DynValue, c: A.Cell)
    requires v.Chosen? && IsEnumCell(c)
    decreases variants, 0
  {
    var cs := c.children[1].children;
    && |cs| == |variants|
    && (exists i | 0 <= i < |variants| :: FirstNamed(variants, v.name, i) && c.children[0] == A.Scalar(A.Int(i % 256)))
    && forall k | 0 <= k < |variants| ::
         if variants[k].name == v.name && variants[k].payload.Some? && v.payload.Some?
         then IsCellOf(variants[k].payload.value, v.payload.value, cs[k])
         else VariantMissing(variants[k], cs[k])
  }

  predicate FirstNamed(variants: seq<Variant>, name: string, i: nat) {
    i < |variants| && variants[i].name == name && forall j | 0 <= j < i :: variants[j].name != name
  }

  /** The cell of a missing value: null, or for structs and enums the missing cells of what is in them. */
  predicate Missing(t: DynType, c: A.Cell)
    decreases t, 0
  {
    match t
    case Struct(fields) =>
      c.Children? && |c.children| == |fields| && forall k | 0 <= k < |fields| :: Missing(fields[k].ty, c.children[k])
    case Enum(variants) =>
      && IsEnumCell(c) && c.children[0] == A.Null && |c.children[1].children| == |variants|
      && forall k | 0 <= k < |variants| :: VariantMissing(variants[k], c.children[1].children[k])
    case Opt(e) => Missing(e, c)
    case _ => c == A.Null
  }

  predicate VariantMissing(x: Variant, c: A.Cell)
    decreases x, 0
  {
    if x.payload.None? then c == A.Null else Missing(x.payload.value, c)
  }

  predicate RowHeld(t: DynType, v: Option<DynValue>, c: A.Cell) {
    if v.Some? then IsCellOf(t, v.value, c) else Missing(t, c)
  }

  // ---------------------------------------------------------------- what is accepted

  /** Integers below 128 bits of any kind that fit; 128-bit ones that fit i128. */
  predicate NumberAccepted(k: IntKind, v: DynValue) {
    && v.Num?
    && if k in {I128, U128} then v.kind in {I128, U128} && NativeRange(I128, v.n) else NativeRange(k, v.n)
  }

  /** Values a column of this type takes. */
  predicate Accepts(t: DynType, v: DynValue)
    decreases t, 0
  {
    match t
    case Prim(k) => NumberAccepted(k, v)
    case Boolean => v.Bool?
    case FixedArray(_, _) => v.Arr? && forall x | x in v.elems :: x.Num? && x.kind == U8 && 0 <= x.n < 0x100
    case Array(e) => v.Arr? && forall x | x in v.elems :: Accepts(e, x)
    case Struct(fields) =>
      v.Record? && |v.fields| == |fields| && forall k | 0 <= k < |fields| :: Accepts(fields[k].ty, v.fields[k].value)
    case Enum(variants) =>
      && v.Chosen? && (exists x :: x in variants && x.name == v.name)
      && forall x | x in variants && x.name == v.name && x.payload.Some? && v.payload.Some? ::
           Accepts(x.payload.value, v.payload.value)
    case Opt(e) => v.Maybe? && (v.inner.Some? ==> Accepts(e, v.inner.value))
  }

  predicate RowsAccepted(t: DynType, vals: Rows) {
    forall v | v in vals && v.Some? :: Accepts(t, v.value)
  }

  lemma {:induction false} LeafAcceptedIff(t: DynType, v: DynValue)
    requires t.Prim? || t.Boolean? || t.FixedArray?
    ensures LeafCell(t, Some(v)).Success? <==> Accepts(t, v)
  {
    PowersOf256();
    if t.Prim? && v.Num? {
      RangesAreNative(t.kind, v.n);
      RangesAreNative(I128, v.n);
    }
  }

  lemma {:induction false} FieldsOkAt(fields: seq<NamedType>, k: nat, v: Option<DynValue>)
    ensures FieldsOk(fields, k, v) <==> forall j | 0 <= j < |fields| :: RowOk(fields[j].ty, FieldOf(v, k + j))
  {
    if fields != [] {
      FieldsOkAt(fields[1..], k + 1, v);
      if FieldsOk(fields, k, v) {
        forall j | 0 <= j < |fields| ensures RowOk(fields[j].ty, FieldOf(v, k + j)) {
          if j > 0 {
            var i := j - 1;
            assert RowOk(fields[1..][i].ty, FieldOf(v, k + 1 + i));
          }
        }
      }
      if forall j | 0 <= j < |fields| :: RowOk(fields[j].ty, FieldOf(v, k + j)) {
        assert RowOk(fields[0].ty, FieldOf(v, k + 0));
        forall i | 0 <= i < |fields| - 1 ensures RowOk(fields[1..][i].ty, FieldOf(v, k + 1 + i)) {
          var j := i + 1;
          assert RowOk(fields[j].ty, FieldOf(v, k + j));
        }
      }
    }
  }

  /** The builders take a row iff its value is accepted. */
  lemma {:induction false} RowOkIffAccepted(t: DynType, v: DynValue)
    ensures RowOk(t, Some(v)) <==> Accepts(t, v)
    decreases t, 0
  {
    match t
    case Array(e) =>
      if v.Arr? {
        forall x | x in v.elems ensures RowOk(e, Some(x)) <==> Accepts(e, x) {
          RowOkIffAccepted(e, x);
        }
      }
    case Struct(fields) =>
      FieldsOkAt(fields, 0, Some(v));
      if v.Record? && |v.fields| == |fields| {
        forall j | 0 <= j < |fields|
          ensures RowOk(fields[j].ty, FieldOf(Some(v), 0 + j)) <==> Accepts(fields[j].ty, v.fields[j].value)
        {
          RowOkIffAccepted(fields[j].ty, v.fields[j].value);
        }
      }
    case Enum(variants) =>
      if v.Chosen? {
        EnumOkIffAccepted(variants, v);
      }
    case Opt(e) =>
      MissingIsOk(e);
      if v.Maybe? && v.inner.Some? {
        RowOkIffAccepted(e, v.inner.value);
      }
    case _ =>
      LeafAcceptedIff(t, v);
  }

  lemma {:induction false} EnumOkIffAccepted(variants: seq<Variant>, v: DynValue)
    requires v.Chosen?
    ensures RowOk(Enum(variants), Some(v)) <==> Accepts(Enum(variants), v)
    decreases variants, 0
  {
    forall x | x in variants && x.payload.Some?
      ensures RowOk(x.payload.value, PayloadAt(Some(v), x))
         <==> (x.name == v.name && v.payload.Some? ==> Accepts(x.payload.value, v.payload.value))
    {
      MissingIsOk(x.payload.value);
      if x.name == v.name && v.payload.Some? {
        RowOkIffAccepted(x.payload.value, v.payload.value);
      }
    }
    if x :| x in variants && x.name == v.name {
      var j :| 0 <= j < |variants| && variants[j] == x;
      assert Position(variants, v.name) <= j;
    }
  }

  // ---------------------------------------------------------------- a row reads as its value

  lemma {:induction false} MissingReads(t: DynType)
    ensures Missing(t, Meaning(t, None))
    decreases t, 0
  {
    match t
    case Struct(fields) =>
      forall k | 0 <= k < |fields| ensures Missing(fields[k].ty, FieldMeanings(fields, None)[k]) {
        MissingReads(fields[k].ty);
      }
    case Enum(variants) =>
      forall k | 0 <= k < |variants| ensures VariantMissing(variants[k], VariantMeanings(variants, None)[k]) {
        if variants[k].payload.Some? {
          MissingReads(variants[k].payload.value);
        }
      }
    case Opt(e) =>
      MissingReads(e);
    case _ =>
  }

  /** What a row of an accepted value reads as holds the value. */
  lemma {:induction false} MeaningHolds(t: DynType, v: DynValue)
    requires Accepts(t, v)
    ensures IsCellOf(t, v, Meaning(t, Some(v)))
    decreases t, 0
  {
    match t
    case FixedArray(_, _) =>
      BytesReadBack(v.elems);
    case Array(e) =>
      forall j | 0 <= j < |v.elems| ensures IsCellOf(e, v.elems[j], Meaning(e, Some(v.elems[j]))) {
        MeaningHolds(e, v.elems[j]);
      }
    case Struct(fields) =>
      forall k | 0 <= k < |fields|
        ensures IsCellOf(fields[k].ty, v.fields[k].value, FieldMeanings(fields, Some(v))[k])
      {
        MeaningHolds(fields[k].ty, v.fields[k].value);
      }
    case Enum(variants) =>
      ChoiceReads(variants, v);
    case Opt(e) =>
      if v.inner.Some? {
        MeaningHolds(e, v.inner.value);
      } else {
        MissingReads(e);
      }
    case _ =>
  }

  lemma {:induction false} BytesReadBack(xs: seq<DynValue>)
    requires forall x | x in xs :: x.Num? && x.kind == U8 && 0 <= x.n < 0x100
    ensures AreBytes(xs) && BytesHeld(xs, BytesOf(xs))
  {
    PowersOf256();
    forall j | 0 <= j < |xs| ensures xs[j] in xs {
    }
  }

  lemma {:induction false} ChoiceReads(variants: seq<Variant>, v: DynValue)
    requires Accepts(Enum(variants), v)
    ensures var c := Meaning(Enum(variants), Some(v));
            v.Chosen? && IsEnumCell(c) && ChoiceHeld(variants, v, c)
    decreases variants, 0
  {
    var i := Position(variants, v.name);
    var x :| x in variants && x.name == v.name;
    var j :| 0 <= j < |variants| && variants[j] == x;
    assert FirstNamed(variants, v.name, i);
    forall k | 0 <= k < |variants|
      ensures if variants[k].name == v.name && variants[k].payload.Some? && v.payload.Some?
              then IsCellOf(variants[k].payload.value, v.payload.value, VariantMeaning(variants[k], Some(v)))
              else VariantMissing(variants[k], VariantMeaning(variants[k], Some(v)))
    {
      assert variants[k] in variants;
      if variants[k].payload.Some? {
        if variants[k].name == v.name && v.payload.Some? {
          MeaningHolds(variants[k].payload.value, v.payload.value);
        } else {
          MissingReads(variants[k].payload.value);
        }
      }
    }
  }

  // ---------------------------------------------------------------- the announced type

  predicate NumberTypeFits(k: IntKind, ty: A.ArrowType) {
    match k
    case I8 => ty == A.Number(8, true)
    case U8 => ty == A.Number(8, false)
    case I16 => ty == A.Number(16, true)
    case U16 => ty == A.Number(16, false)
    case I32 => ty == A.Number(32, true)
    case U32 => ty == A.Number(32, false)
    case I64 => ty == A.Number(64, true)
    case U64 => ty == A.Number(64, false)
    case I128 | U128 => ty == A.Decimal128
  }

  /** The column type of a Solana type. */
  predicate TypeFits(t: DynType, ty: A.ArrowType)
    decreases t, 0
  {
    match t
    case Prim(k) => NumberTypeFits(k, ty)
    case Boolean => ty == A.Boolean
    case FixedArray(e, n) =>
      if e == Prim(U8) then ty == A.Binary else ty.FixedSizeList? && ty.size == n && TypeFits(e, ty.item)
    case Array(e) => ty.List? && TypeFits(e, ty.item)
    case Struct(fields) => ty.Struct? && FieldsFit(fields, ty.fields)
    case Enum(variants) =>
      && ty.Struct? && |ty.fields| == 2
      && ty.fields[0] == A.ArrowField("variant_index", A.Number(8, false))
      && ty.fields[1].name == "variant_data" && ty.fields[1].ty.Struct? && VariantsFit(variants, ty.fields[1].ty.fields)
    case Opt(e) => TypeFits(e, ty)
  }

  predicate FieldsFit(fields: seq<NamedType>, fs: seq<A.ArrowField>)
    decreases fields, 0
  {
    && |fs| == |fields|
    && forall j | 0 <= j < |fields| :: fs[j].name == fields[j].name && TypeFits(fields[j].ty, fs[j].ty)
  }

  predicate VariantsFit(variants: seq<Variant>, fs: seq<A.ArrowField>)
    decreases variants, 0
  {
    && |fs| == |variants|
    && forall j | 0 <= j < |variants| :: fs[j].name == variants[j].name && VariantFits(variants[j], fs[j].ty)
  }

  predicate VariantFits(x: Variant, ty: A.ArrowType)
    decreases x, 0
  {
    if x.payload.Some? then TypeFits(x.payload.value, ty) else ty == A.Boolean
  }

  lemma {:induction false} AnnouncedTypeFits(t: DynType)
    ensures ToDtype(t).Success? ==> TypeFits(t, ToDtype(t).value)
    decreases t, 0
  {
    match t
    case FixedArray(e, _) =>
      AnnouncedTypeFits(e);
    case Array(e) =>
      AnnouncedTypeFits(e);
    case Struct(fields) =>
      AnnouncedFieldsFit(fields);
    case Enum(variants) =>
      AnnouncedVariantsFit(variants);
    case Opt(e) =>
      AnnouncedTypeFits(e);
    case _ =>
  }

  lemma {:induction false} AnnouncedFieldsFit(fields: seq<NamedType>)
    ensures FieldDtypes(fields).Success? ==> FieldsFit(fields, FieldDtypes(fields).value)
    decreases fields, 0
  {
    if fields != [] {
      AnnouncedTypeFits(fields[0].ty);
      AnnouncedFieldsFit(fields[1..]);
      if FieldDtypes(fields).Success? {
        var fs := FieldDtypes(fields).value;
        assert fs[1..] == FieldDtypes(fields[1..]).value;
        forall j | 0 <= j < |fields| ensures fs[j].name == fields[j].name && TypeFits(fields[j].ty, fs[j].ty) {
          if j > 0 {
            var i := j - 1;
            assert fs[1..][i] == fs[j] && fields[1..][i] == fields[j];
          }
        }
      }
    }
  }

  lemma {:induction false} AnnouncedVariantsFit(variants: seq<Variant>)
    ensures VariantDtypes(variants).Success? ==> VariantsFit(variants, VariantDtypes(variants).value)
    decreases variants, 0
  {
    if variants != [] {
      if variants[0].payload.Some? {
        AnnouncedTypeFits(variants[0].payload.value);
      }
      AnnouncedVariantsFit(variants[1..]);
      if VariantDtypes(variants).Success? {
        var fs := VariantDtypes(variants).value;
        assert fs[1..] == VariantDtypes(variants[1..]).value;
        forall j | 0 <= j < |variants|
          ensures fs[j].name == variants[j].name && VariantFits(variants[j], fs[j].ty)
        {
          if j > 0 {
            var i := j - 1;
            assert fs[1..][i] == fs[j] && variants[1..][i] == variants[j];
          }
        }
      }
    }
  }

  // ---------------------------------------------------------------- whole columns

  /** One row for each value, and each holds it. */
  predicate HoldsRows(t: DynType, vals: Rows, a: A.ArrowArray) {
    A.Len(a) == |vals| && forall i | 0 <= i < |vals| :: RowHeld(t, vals[i], A.At(a, i))
  }

  /** Success, type and rows of a column together. */
  lemma {:induction false} ColumnIsAsAnnounced(t: DynType, vals: Rows)
    ensures ToArrow(t, vals).Success? <==> Shreddable(t) && RowsAccepted(t, vals)
    ensures ToArrow(t, vals).Success? ==>
              HoldsRows(t, vals, ToArrow(t, vals).value) && TypeFits(t, A.TypeOf(ToArrow(t, vals).value))
  {
    SucceedsIff(t, vals);
    RowsOkIffAccepted(t, vals);
    if ToArrow(t, vals).Success? {
      ShreddingIsFaithful(t, vals);
      AnnouncedTypeFits(t);
      forall i | 0 <= i < |vals| ensures RowHeld(t, vals[i], Meaning(t, vals[i])) {
        assert vals[i] in vals;
        if vals[i].Some? {
          MeaningHolds(t, vals[i].value);
        } else {
          MissingReads(t);
        }
      }
    }
  }

  lemma {:induction false} RowsOkIffAccepted(t: DynType, vals: Rows)
    ensures RowsOk(t, vals) <==> RowsAccepted(t, vals)
  {
    forall v | v in vals ensures RowOk(t, v) <==> (v.Some? ==> Accepts(t, v.value)) {
      if v.Some? {
        RowOkIffAccepted(t, v.value);
      } else {
        MissingIsOk(t);
      }
    }
  }
}
