/** Which well-typed values can be told apart by reading the columns back. */
module SvmReadback {
  import opened Wrappers
  import opened Bytes
  import opened D = DynTypes
  import opened SvmShred
  import opened SvmLossless
  import Borsh
  import A = Arrow

  // ---------------------------------------------------------------- refused values

  /** Unsigned 128-bit values above the signed range have no Decimal128. */
  predicate Fits128(v: DynValue)
    decreases v, 0
  {
    match v
    case Num(k, n) => k == U128 ==> FitsSigned(n, 16)
    case Bool(_) => true
    case Arr(elems) => forall x | x in elems :: Fits128(x)
    case Record(fields) => forall f | f in fields :: Fits128(f.value)
    case Chosen(_, payload) => payload.Some? ==> Fits128(payload.value)
    case Maybe(inner) => inner.Some? ==> Fits128(inner.value)
  }

  /** The builders refuse a well-typed value for nothing but a 128-bit value out of range. */
  lemma {:induction false} TypedRowOk(t: DynType, v: DynValue)
    requires Shreddable(t) && DistinctVariants(t) && WellTyped(t, v)
    ensures RowOk(t, Some(v)) <==> Fits128(v)
    decreases t, 0
  {
    match t
    case Prim(k) =>
    case Boolean =>
    case FixedArray(e, _) =>
      forall x | x in v.elems ensures Fits128(x) && x.kind == U8 && FitsUnsigned(x.n, 1) {
      }
    case Array(e) =>
      forall x | x in v.elems ensures RowOk(e, Some(x)) <==> Fits128(x) {
        TypedRowOk(e, x);
      }
    case Struct(fields) =>
      TypedFieldsOk(fields, 0, v);
    case Enum(variants) =>
      var i := Position(variants, v.name);
      forall x | x in variants && x.payload.Some?
        ensures RowOk(x.payload.value, PayloadAt(Some(v), x)) <==> (x.name == v.name ==> Fits128(v.payload.value))
      {
        TypedVariantOk(variants, v, x);
      }
      assert variants[i] in variants;
    case Opt(e) =>
      if v.inner.Some? {
        TypedRowOk(e, v.inner.value);
      } else {
        MissingIsOk(e);
      }
  }

  lemma {:induction false} TypedVariantOk(variants: seq<Variant>, v: DynValue, x: Variant)
    requires DistinctVariants(Enum(variants)) && WellTyped(Enum(variants), v) && x in variants && x.payload.Some?
    requires Shreddable(x.payload.value)
    ensures x.name == v.name ==> v.payload.Some?
    ensures RowOk(x.payload.value, PayloadAt(Some(v), x)) <==> (x.name == v.name ==> Fits128(v.payload.value))
    decreases variants, 1
  {
    if x.name == v.name {
      var k :| 0 <= k < |variants| && variants[k] == x;
      Borsh.DistinctPosition(variants, k);
      TypedRowOk(x.payload.value, v.payload.value);
    } else {
      MissingIsOk(x.payload.value);
    }
  }

  predicate Fits128From(vs: seq<NamedValue>, k: nat) {
    forall j | k <= j < |vs| :: Fits128(vs[j].value)
  }

  lemma {:induction false} TypedFieldsFrom(fields: seq<NamedType>, k: nat, v: DynValue)
    requires AllShreddable(fields) && DistinctInFields(fields) && v.Record? && |v.fields| == k + |fields|
    requires forall j | 0 <= j < |fields| :: WellTyped(fields[j].ty, v.fields[k + j].value)
    ensures FieldsOk(fields, k, Some(v)) <==> Fits128From(v.fields, k)
    decreases fields, 0
  {
    if fields != [] {
      assert v.fields[k + 0] == v.fields[k];
      TypedRowOk(fields[0].ty, v.fields[k].value);
      forall j | 0 <= j < |fields[1..]| ensures WellTyped(fields[1..][j].ty, v.fields[k + 1 + j].value) {
        var i := j + 1;
        assert fields[1..][j] == fields[i] && WellTyped(fields[i].ty, v.fields[k + i].value);
      }
      TypedFieldsFrom(fields[1..], k + 1, v);
    }
  }

  lemma {:induction false} TypedFieldsOk(fields: seq<NamedType>, k: nat, v: DynValue)
    requires k == 0 && AllShreddable(fields) && DistinctInFields(fields) && WellTyped(Struct(fields), v)
    ensures FieldsOk(fields, 0, Some(v)) <==> Fits128(v)
    decreases fields, 1
  {
    TypedFieldsFrom(fields, 0, v);
  }

  // ---------------------------------------------------------------- what is erased

  /** Types with a value that reads as a missing one: options, and structs of nothing else. */
  predicate NullLike(t: DynType)
    decreases t, 0
  {
    match t
    case Struct(fields) => AllNullLike(fields)
    case Opt(_) => true
    case _ => false
  }

  predicate AllNullLike(fields: seq<NamedType>)
    decreases fields, 0
  {
    forall f | f in fields :: NullLike(f.ty)
  }

  /** Types whose columns keep all values apart: no option of an option, nor of a struct of options. */
  predicate Lossless(t: DynType)
    decreases t, 0
  {
    match t
    case Prim(_) | Boolean | FixedArray(_, _) => true
    case Array(e) => Lossless(e)
    case Struct(fields) => AllLossless(fields)
    case Enum(variants) => forall x | x in variants && x.payload.Some? :: Lossless(x.payload.value)
    case Opt(e) => Lossless(e) && !NullLike(e)
  }

  predicate AllLossless(fields: seq<NamedType>)
    decreases fields, 0
  {
    forall f | f in fields :: Lossless(f.ty)
  }

  lemma {:induction false} NotMissing(t: DynType, v: DynValue)
    requires WellTyped(t, v) && Shreddable(t) && !NullLike(t)
    ensures Meaning(t, Some(v)) != Meaning(t, None)
    decreases t, 0
  {
    match t
    case FixedArray(e, _) =>
      assert AreBytes(v.elems);
    case Struct(fields) =>
      var k :| 0 <= k < |fields| && !NullLike(fields[k].ty);
      NotMissing(fields[k].ty, v.fields[k].value);
      assert FieldMeanings(fields, Some(v))[k] != FieldMeanings(fields, None)[k];
    case _ =>
  }

  lemma {:induction false} SameItems(e: DynType, xs: seq<DynValue>, ys: seq<DynValue>, j: nat)
    requires Meaning(Array(e), Some(Arr(xs))) == Meaning(Array(e), Some(Arr(ys))) && j < |xs|
    ensures |xs| == |ys| && Meaning(e, Some(xs[j])) == Meaning(e, Some(ys[j]))
  {
    var p := A.Items(seq(|xs|, i requires 0 <= i < |xs| => Meaning(e, Some(xs[i]))));
    var q := A.Items(seq(|ys|, i requires 0 <= i < |ys| => Meaning(e, Some(ys[i]))));
    assert p == Meaning(Array(e), Some(Arr(xs))) && q == Meaning(Array(e), Some(Arr(ys)));
    assert p.items[j] == q.items[j];
  }

  lemma {:induction false} SameBytes(n: nat, v: DynValue, w: DynValue)
    requires WellTyped(FixedArray(Prim(U8), n), v) && WellTyped(FixedArray(Prim(U8), n), w)
    requires Meaning(FixedArray(Prim(U8), n), Some(v)) == Meaning(FixedArray(Prim(U8), n), Some(w))
    ensures v == w
  {
    assert AreBytes(v.elems) && AreBytes(w.elems);
    forall i | 0 <= i < n ensures v.elems[i] == w.elems[i] {
      assert v.elems[i] in v.elems && w.elems[i] in w.elems;
      assert Pow256(1) == 256 * Pow256(0);
      assert BytesOf(v.elems)[i] == BytesOf(w.elems)[i];
    }
  }

  /** Reading back is injective on the values of a lossless type. */
  lemma {:induction false} ReadsBack(t: DynType, v: DynValue, w: DynValue)
    requires Shreddable(t) && Lossless(t) && WellTyped(t, v) && WellTyped(t, w)
    requires Meaning(t, Some(v)) == Meaning(t, Some(w))
    ensures v == w
    decreases t, 0
  {
    match t
    case Prim(_) =>
    case Boolean =>
    case FixedArray(_, n) =>
      SameBytes(n, v, w);
    case Array(e) =>
      if v.elems == [] {
        if w.elems != [] {
          SameItems(e, w.elems, v.elems, 0);
        }
      } else {
        SameItems(e, v.elems, w.elems, 0);
        forall j | 0 <= j < |v.elems| ensures v.elems[j] == w.elems[j] {
          SameItems(e, v.elems, w.elems, j);
          ReadsBack(e, v.elems[j], w.elems[j]);
        }
      }
    case Struct(fields) =>
      forall k | 0 <= k < |fields| ensures v.fields[k] == w.fields[k] {
        assert FieldMeanings(fields, Some(v))[k] == FieldMeanings(fields, Some(w))[k];
        ReadsBack(fields[k].ty, v.fields[k].value, w.fields[k].value);
      }
    case Enum(variants) =>
      ReadsBackEnum(variants, v, w);
    case Opt(e) =>
      if v.inner.Some? && w.inner.Some? {
        ReadsBack(e, v.inner.value, w.inner.value);
      } else if v.inner.Some? {
        NotMissing(e, v.inner.value);
      } else if w.inner.Some? {
        NotMissing(e, w.inner.value);
      }
  }

  lemma {:induction false} ReadsBackEnum(variants: seq<Variant>, v: DynValue, w: DynValue)
    requires Shreddable(Enum(variants)) && Lossless(Enum(variants))
    requires WellTyped(Enum(variants), v) && WellTyped(Enum(variants), w)
    requires Meaning(Enum(variants), Some(v)) == Meaning(Enum(variants), Some(w))
    ensures v == w
    decreases variants, 1
  {
    var i := Position(variants, v.name);
    assert IndexMeaning(variants, Some(v)) == IndexMeaning(variants, Some(w));
    assert i == Position(variants, w.name) && v.name == w.name;
    if v.payload.Some? {
      assert VariantMeanings(variants, Some(v))[i] == VariantMeanings(variants, Some(w))[i];
      ReadsBack(variants[i].payload.value, v.payload.value, w.payload.value);
    }
  }

  // ---------------------------------------------------------------- collisions where it is not lossless

  /** Two values that shredding makes one. */
  predicate Collide(t: DynType, v: DynValue, w: DynValue) {
    WellTyped(t, v) && WellTyped(t, w) && v != w && Meaning(t, Some(v)) == Meaning(t, Some(w))
  }

  predicate Collides(t: DynType, p: (DynValue, DynValue)) {
    Collide(t, p.0, p.1)
  }

  /** Every enum can be decoded to its last variant. */
  predicate Decodable(t: DynType)
    decreases t, 0
  {
    match t
    case Prim(_) | Boolean => true
    case FixedArray(e, _) => Decodable(e)
    case Array(e) => Decodable(e)
    case Struct(fields) => AllDecodable(fields)
    case Enum(variants) =>
      && |variants| <= 256 && DistinctNames(variants)
      && forall x | x in variants && x.payload.Some? :: Decodable(x.payload.value)
    case Opt(e) => Decodable(e)
  }

  predicate AllDecodable(fields: seq<NamedType>)
    decreases fields, 0
  {
    forall f | f in fields :: Decodable(f.ty)
  }

  /** Some value of the type; one that reads as missing if there is one. */
  function Default(t: DynType): DynValue
    decreases t, 0
  {
    match t
    case Prim(k) => Num(k, 0)
    case Boolean => Bool(false)
    case FixedArray(e, n) => Arr(seq(n, i => Num(U8, 0)))
    case Array(_) => Arr([])
    case Struct(fields) => Record(Defaults(fields))
    case Enum(variants) =>
      if variants == [] then Maybe(None)
      else Chosen(variants[0].name,
                  if variants[0].payload.Some? then Some(Default(variants[0].payload.value)) else None)
    case Opt(_) => Maybe(None)
  }

  function Defaults(fields: seq<NamedType>): seq<NamedValue>
    decreases fields, 0
  {
    seq(|fields|, k requires 0 <= k < |fields| => NamedValue(fields[k].name, Default(fields[k].ty)))
  }

  lemma {:induction false} DefaultTyped(t: DynType)
    requires Shreddable(t) && Decodable(t)
    ensures WellTyped(t, Default(t))
    decreases t, 0
  {
    match t
    case Struct(fields) =>
      forall f | f in fields ensures WellTyped(f.ty, Default(f.ty)) {
        DefaultTyped(f.ty);
      }
    case Enum(variants) =>
      assert Position(variants, variants[0].name) == 0;
      assert variants[0] in variants;
      if variants[0].payload.Some? {
        DefaultTyped(variants[0].payload.value);
      }
    case FixedArray(e, n) =>
      assert forall x | x in Default(t).elems :: x == Num(U8, 0);
    case _ =>
  }

  lemma {:induction false} DefaultIsMissing(t: DynType)
    requires NullLike(t)
    ensures Meaning(t, Some(Default(t))) == Meaning(t, None)
    decreases t, 0
  {
    if t.Struct? {
      forall k | 0 <= k < |t.fields|
        ensures FieldMeanings(t.fields, Some(Default(t)))[k] == FieldMeanings(t.fields, None)[k]
      {
        DefaultIsMissing(t.fields[k].ty);
      }
    }
  }

  function WithField(fields: seq<NamedType>, k: nat, v: DynValue): DynValue
    requires k < |fields|
  {
    Record(Defaults(fields)[k := NamedValue(fields[k].name, v)])
  }

  lemma {:induction false} FieldsCollide(fields: seq<NamedType>, k: nat, v: DynValue, w: DynValue)
    requires AllShreddable(fields) && AllDecodable(fields) && k < |fields| && Collide(fields[k].ty, v, w)
    ensures Collide(Struct(fields), WithField(fields, k, v), WithField(fields, k, w))
  {
    var p, q := WithField(fields, k, v), WithField(fields, k, w);
    forall f | f in fields ensures WellTyped(f.ty, Default(f.ty)) {
      DefaultTyped(f.ty);
    }
    assert p.fields[k] != q.fields[k];
    forall j | 0 <= j < |fields| ensures FieldMeanings(fields, Some(p))[j] == FieldMeanings(fields, Some(q))[j] {
    }
  }

  lemma {:induction false} VariantsCollide(variants: seq<Variant>, k: nat, v: DynValue, w: DynValue)
    requires Decodable(Enum(variants)) && k < |variants| && variants[k].payload.Some?
    requires Collide(variants[k].payload.value, v, w)
    ensures Collide(Enum(variants), Chosen(variants[k].name, Some(v)), Chosen(variants[k].name, Some(w)))
  {
    var p, q := Chosen(variants[k].name, Some(v)), Chosen(variants[k].name, Some(w));
    Borsh.DistinctPosition(variants, k);
    forall j | 0 <= j < |variants|
      ensures VariantMeanings(variants, Some(p))[j] == VariantMeanings(variants, Some(q))[j]
    {
      if variants[j].name == variants[k].name {
        Borsh.DistinctPosition(variants, j);
      }
    }
    assert VariantMeanings(variants, Some(p)) == VariantMeanings(variants, Some(q));
  }

  /** Where a type is not lossless, two of its values have the same columns. */
  lemma {:induction false} LossyCollides(t: DynType)
    requires Shreddable(t) && Decodable(t) && !Lossless(t)
    ensures exists p :: Collides(t, p)
    decreases t, 0
  {
    match t
    case Array(e) =>
      LossyCollides(e);
      var p :| Collides(e, p);
      ItemsCollide(e, p.0, p.1);
      assert Collides(t, (Arr([p.0]), Arr([p.1])));
    case Struct(fields) =>
      var k :| 0 <= k < |fields| && !Lossless(fields[k].ty);
      LossyCollides(fields[k].ty);
      var p :| Collides(fields[k].ty, p);
      FieldsCollide(fields, k, p.0, p.1);
      assert Collides(t, (WithField(fields, k, p.0), WithField(fields, k, p.1)));
    case Enum(variants) =>
      var k :| 0 <= k < |variants| && variants[k].payload.Some? && !Lossless(variants[k].payload.value);
      LossyCollides(variants[k].payload.value);
      var p :| Collides(variants[k].payload.value, p);
      VariantsCollide(variants, k, p.0, p.1);
      assert Collides(t, (Chosen(variants[k].name, Some(p.0)), Chosen(variants[k].name, Some(p.1))));
    case Opt(e) =>
      if NullLike(e) {
        DefaultIsMissing(e);
        DefaultTyped(e);
        assert Collides(t, (Maybe(None), Maybe(Some(Default(e)))));
      } else {
        LossyCollides(e);
        var p :| Collides(e, p);
        assert Collides(t, (Maybe(Some(p.0)), Maybe(Some(p.1))));
      }
    case _ =>
  }

  lemma {:induction false} ItemsCollide(e: DynType, v: DynValue, w: DynValue)
    requires Collide(e, v, w)
    ensures Collide(Array(e), Arr([v]), Arr([w]))
  {
    assert Pow256(4) == 256 * Pow256(3);
    assert [v][0] != [w][0];
  }

  /** Shredding keeps the well-typed values of a type apart exactly when the type has no option whose
      content can itself read as null. */
  lemma {:induction false} InjectiveIffLossless(t: DynType)
    requires Shreddable(t) && Decodable(t)
    ensures Lossless(t) <==> forall p :: !Collides(t, p)
  {
    if Lossless(t) {
      forall p ensures !Collides(t, p) {
        if Collides(t, p) {
          ReadsBack(t, p.0, p.1);
          assert false;
        }
      }
    } else {
      LossyCollides(t);
    }
  }

  // ---------------------------------------------------------------- enums

  /** The column `variant_index` holds the byte the value was decoded from, and the columns of all
      other variants read as missing. */
  lemma {:induction false} VariantIndexIsWireByte(variants: seq<Variant>, d: seq<byte>, k: nat)
    requires DistinctNames(variants) && Borsh.Decode(Enum(variants), d).Success? && k < |variants|
    ensures var v := Some(Borsh.Decode(Enum(variants), d).value.value);
            && IndexMeaning(variants, v) == A.Scalar(A.Int(d[0]))
            && (k != d[0] ==> VariantMeaning(variants[k], v) == VariantMeaning(variants[k], None))
  {
    Borsh.DistinctPosition(variants, d[0]);
    Borsh.DistinctPosition(variants, k);
  }

  // ---------------------------------------------------------------- whole columns

  /** Two columns of well-typed rows of a lossless type that shred to the same array are equal. */
  lemma {:induction false} ColumnsDetermineRows(t: DynType, xs: seq<DynValue>, ys: seq<DynValue>)
    requires Lossless(t) && AllTyped(t, xs) && AllTyped(t, ys)
    requires ToArrow(t, Somes(xs)).Success? && ToArrow(t, Somes(xs)) == ToArrow(t, Somes(ys))
    ensures xs == ys
  {
    var a := ToArrow(t, Somes(xs)).value;
    SucceedsIff(t, Somes(xs));
    ShreddingIsFaithful(t, Somes(xs));
    ShreddingIsFaithful(t, Somes(ys));
    assert |xs| == A.Len(a) == |ys|;
    forall i | 0 <= i < |xs| ensures xs[i] == ys[i] {
      assert A.At(a, i) == Meaning(t, Somes(xs)[i]) == Meaning(t, Somes(ys)[i]);
      ReadsBack(t, xs[i], ys[i]);
    }
  }
}
