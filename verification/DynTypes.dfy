/** The dynamic types and values of the SVM decoder. */
module DynTypes {
  import opened Wrappers
  import opened Bytes

  datatype IntKind = I8 | I16 | I32 | I64 | I128 | U8 | U16 | U32 | U64 | U128

  datatype DynType =
    | Prim(kind: IntKind)
    | Boolean
    | FixedArray(elem: DynType, size: nat)
    | Array(elem: DynType)
    | Struct(fields: seq<NamedType>)
    | Enum(variants: seq<Variant>)
    | Opt(inner: DynType)

  datatype NamedType = NamedType(name: string, ty: DynType)

  datatype Variant = Variant(name: string, payload: Option<DynType>)

  datatype DynValue =
    | Num(kind: IntKind, n: int)
    | Bool(b: bool)
    | Arr(elems: seq<DynValue>)
    | Record(fields: seq<NamedValue>)
    | Chosen(name: string, payload: Option<DynValue>)
    | Maybe(inner: Option<DynValue>)

  datatype NamedValue = NamedValue(name: string, value: DynValue)

  function Width(k: IntKind): (w: nat)
    ensures 1 <= w <= 16
  {
    match k
    case I8 | U8 => 1
    case I16 | U16 => 2
    case I32 | U32 => 4
    case I64 | U64 => 8
    case I128 | U128 => 16
  }

  predicate IsSigned(k: IntKind) {
    k in {I8, I16, I32, I64, I128}
  }

  predicate InRange(k: IntKind, n: int) {
    if IsSigned(k) then FitsSigned(n, Width(k)) else FitsUnsigned(n, Width(k))
  }

  /** The index of the first variant of that name, |variants| when there is none. */
  function Position(variants: seq<Variant>, name: string): (i: nat)
    ensures i <= |variants|
    ensures i < |variants| ==> variants[i].name == name
    ensures forall j | 0 <= j < i :: variants[j].name != name
  {
    if variants == [] then 0
    else if variants[0].name == name then 0
    else 1 + Position(variants[1..], name)
  }

  predicate DistinctNames(variants: seq<Variant>) {
    forall i, j | 0 <= i < j < |variants| :: variants[i].name != variants[j].name
  }

  /** A type a fixed array may hold, and its size in bytes. */
  function TypeSize(t: DynType): Option<nat> {
    match t
    case Prim(k) => Some(Width(k))
    case Boolean => Some(1)
    case _ => None
  }

  predicate AllTyped(t: DynType, vs: seq<DynValue>)
    decreases t, 1
  {
    forall v | v in vs :: WellTyped(t, v)
  }

  predicate FieldsTyped(fields: seq<NamedType>, vs: seq<NamedValue>)
    decreases fields, 0
  {
    && |vs| == |fields|
    && forall i | 0 <= i < |fields| :: vs[i].name == fields[i].name && WellTyped(fields[i].ty, vs[i].value)
  }

  /** The values a type describes. */
  predicate WellTyped(t: DynType, v: DynValue)
    decreases t, 0
  {
    match t
    case Prim(k) => v.Num? && v.kind == k && InRange(k, v.n)
    case Boolean => v.Bool?
    case FixedArray(e, n) => TypeSize(e).Some? && v.Arr? && |v.elems| == n && AllTyped(e, v.elems)
    case Array(e) => v.Arr? && |v.elems| < Pow256(4) && AllTyped(e, v.elems)
    case Struct(fields) => v.Record? && FieldsTyped(fields, v.fields)
    case Enum(variants) =>
      && v.Chosen?
      && var i := Position(variants, v.name);
      && i < |variants| && i < 256
      && (variants[i].payload.Some? <==> v.payload.Some?)
      && (v.payload.Some? ==> WellTyped(variants[i].payload.value, v.payload.value))
    case Opt(e) => v.Maybe? && (v.inner.Some? ==> WellTyped(e, v.inner.value))
  }

  predicate DistinctInFields(fields: seq<NamedType>)
    decreases fields, 0
  {
    forall f | f in fields :: DistinctVariants(f.ty)
  }

  /** Every enum in the type has pairwise distinct variant names. */
  predicate DistinctVariants(t: DynType)
    decreases t, 0
  {
    match t
    case Prim(_) | Boolean => true
    case FixedArray(e, _) => DistinctVariants(e)
    case Array(e) => DistinctVariants(e)
    case Struct(fields) => DistinctInFields(fields)
    case Enum(variants) =>
      && DistinctNames(variants)
      && forall x | x in variants && x.payload.Some? :: DistinctVariants(x.payload.value)
    case Opt(e) => DistinctVariants(e)
  }

  predicate MentionsBool(t: DynType)
    decreases t, 0
  {
    match t
    case Prim(_) => false
    case Boolean => true
    case FixedArray(e, _) => MentionsBool(e)
    case Array(e) => MentionsBool(e)
    case Struct(fields) => exists f :: f in fields && MentionsBool(f.ty)
    case Enum(variants) => exists x :: x in variants && x.payload.Some? && MentionsBool(x.payload.value)
    case Opt(e) => MentionsBool(e)
  }
}
