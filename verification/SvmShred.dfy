/** Turning rows of decoded Solana values into Arrow columns, and what the columns then say. */
module SvmShred {
  import opened Wrappers
  import opened Bytes
  import opened D = DynTypes
  import A = Arrow

  type Rows = seq<Option<DynValue>>

  // ---------------------------------------------------------------- the announced type

  function NumberType(k: IntKind): A.ArrowType {
    if Width(k) == 16 then A.Decimal128 else A.Number(8 * Width(k), IsSigned(k))
  }

  /** `to_arrow_dtype` */
  function ToDtype(t: DynType): Result<A.ArrowType>
    decreases t, 0
  {
    match t
    case Prim(k) => Success(NumberType(k))
    case Boolean => Success(A.Boolean)
    case FixedArray(e, n) =>
      if e == Prim(U8) then Success(A.Binary)
      else
        var inner := ToDtype(e);
        if inner.Failure? || n >= 0x8000_0000 then Failure else Success(A.FixedSizeList(inner.value, n))
    case Array(e) =>
      var inner := ToDtype(e);
      if inner.Failure? then Failure else Success(A.List(inner.value))
    case Struct(fields) =>
      var inner := FieldDtypes(fields);
      if inner.Failure? then Failure else Success(A.Struct(inner.value))
    case Enum(variants) =>
      var inner := VariantDtypes(variants);
      if inner.Failure? then Failure
      else Success(A.Struct([A.ArrowField("variant_index", A.Number(8, false)),
                             A.ArrowField("variant_data", A.Struct(inner.value))]))
    case Opt(e) => ToDtype(e)
  }

  function FieldDtypes(fields: seq<NamedType>): Result<seq<A.ArrowField>>
    decreases fields, 0
  {
    if fields == [] then Success([])
    else
      var first, others := ToDtype(fields[0].ty), FieldDtypes(fields[1..]);
      if first.Failure? || others.Failure? then Failure
      else Success([A.ArrowField(fields[0].name, first.value)] + others.value)
  }

  function VariantDtypes(variants: seq<Variant>): Result<seq<A.ArrowField>>
    decreases variants, 0
  {
    if variants == [] then Success([])
    else
      var first := if variants[0].payload.Some? then ToDtype(variants[0].payload.value) else Success(A.Boolean);
      var others := VariantDtypes(variants[1..]);
      if first.Failure? || others.Failure? then Failure
      else Success([A.ArrowField(variants[0].name, first.value)] + others.value)
  }

  // ---------------------------------------------------------------- rows

  /** What a builder is given for one row of a type without children. */
  function LeafCell(t: DynType, v: Option<DynValue>): Result<Option<A.Datum>> {
    if v.None? then Success(None)
    else
      match (t, v.value)
      case (Prim(k), Num(from, n)) =>
        if (Width(k) == 16 && Width(from) == 16 && FitsSigned(n, 16)) || (Width(k) < 16 && InRange(k, n))
        then Success(Some(A.Int(n))) else Failure
      case (Boolean, Bool(b)) => Success(Some(A.Bit(b)))
      case (FixedArray(_, _), Arr(elems)) => if AreBytes(elems) then Success(Some(A.Blob(BytesOf(elems)))) else Failure
      case _ => Failure
  }

  predicate AreBytes(elems: seq<DynValue>) {
    forall x | x in elems :: x.Num? && x.kind == U8 && FitsUnsigned(x.n, 1)
  }

  function BytesOf(elems: seq<DynValue>): seq<byte>
    requires AreBytes(elems)
  {
    seq(|elems|, i requires 0 <= i < |elems| => ByteOf(elems[i]))
  }

  function ByteOf(x: DynValue): byte {
    if x.Num? && 0 <= x.n < 256 then x.n else 0
  }

  predicate LeafRows(t: DynType, vals: Rows) {
    forall v | v in vals :: LeafCell(t, v).Success?
  }

  function LeafType(t: DynType): A.ArrowType {
    match t
    case Prim(k) => NumberType(k)
    case Boolean => A.Boolean
    case _ => A.Binary
  }

  function LeafArray(t: DynType, vals: Rows): Result<A.ArrowArray> {
    if LeafRows(t, vals) then Success(A.Leaf(LeafType(t), LeafCells(t, vals))) else Failure
  }

  function LeafCells(t: DynType, vals: Rows): seq<Option<A.Datum>>
    requires LeafRows(t, vals)
  {
    seq(|vals|, i requires 0 <= i < |vals| => LeafCell(t, vals[i]).value)
  }

  function ValidityOf(vals: Rows): A.Validity {
    if None in vals then Some(seq(|vals|, i requires 0 <= i < |vals| => vals[i].Some?)) else None
  }

  predicate ListRows(vals: Rows) {
    forall v | v in vals :: v.Some? ==> v.value.Arr?
  }

  /** The items of a list row, each a row of the item column. */
  function ItemsOf(v: Option<DynValue>): Rows {
    if v.Some? && v.value.Arr? then Somes(v.value.elems) else []
  }

  function Somes(vs: seq<DynValue>): Rows
  {
    seq(|vs|, i requires 0 <= i < |vs| => Some(vs[i]))
  }

  function ItemRows(vals: Rows): seq<Rows>
  {
    seq(|vals|, i requires 0 <= i < |vals| => ItemsOf(vals[i]))
  }

  function Gather(vals: Rows): Rows {
    A.Concat(ItemRows(vals))
  }

  function Lengths(vals: Rows): seq<nat>
  {
    A.LengthsOf(ItemRows(vals))
  }

  predicate OptRows(vals: Rows) {
    forall v | v in vals :: v.Some? ==> v.value.Maybe?
  }

  function Strip(v: Option<DynValue>): Option<DynValue> {
    if v.Some? && v.value.Maybe? then v.value.inner else None
  }

  function StripAll(vals: Rows): Rows
  {
    seq(|vals|, i requires 0 <= i < |vals| => Strip(vals[i]))
  }

  predicate StructRows(n: nat, vals: Rows) {
    forall v | v in vals :: v.Some? ==> v.value.Record? && |v.value.fields| == n
  }

  function FieldOf(v: Option<DynValue>, k: nat): Option<DynValue> {
    if v.Some? && v.value.Record? && k < |v.value.fields| then Some(v.value.fields[k].value) else None
  }

  function ColumnOf(vals: Rows, k: nat): Rows
  {
    seq(|vals|, i requires 0 <= i < |vals| => FieldOf(vals[i], k))
  }

  predicate EnumRows(variants: seq<Variant>, vals: Rows) {
    forall v | v in vals :: v.Some? ==> v.value.Chosen? && Position(variants, v.value.name) < |variants|
  }

  /** An enum value as a struct of its index and one optional field for each variant. */
  function EnumRow(variants: seq<Variant>, v: Option<DynValue>): Option<DynValue> {
    if v.None? || !v.value.Chosen? then None
    else
      var index := Position(variants, v.value.name) % 256;
      Some(Record([NamedValue("variant_index", Num(U8, index)),
                   NamedValue("variant_data", Record(VariantValues(variants, v.value.name, v.value.payload)))]))
  }

  function VariantValues(variants: seq<Variant>, name: string, payload: Option<DynValue>): seq<NamedValue>
  {
    seq(|variants|, k requires 0 <= k < |variants| =>
      NamedValue(variants[k].name,
                 Maybe(if variants[k].payload.Some? && variants[k].name == name then payload else None)))
  }

  function EnumRowsOf(variants: seq<Variant>, vals: Rows): Rows
  {
    seq(|vals|, i requires 0 <= i < |vals| => EnumRow(variants, vals[i]))
  }

  function VariantFields(variants: seq<Variant>): (r: seq<NamedType>)
    ensures |r| == |variants|
    ensures RankFields(r) == RankVariants(variants)
  {
    if variants == [] then []
    else [NamedType(variants[0].name, Opt(if variants[0].payload.Some? then variants[0].payload.value else Boolean))]
         + VariantFields(variants[1..])
  }

  function EnumStruct(variants: seq<Variant>): (r: seq<NamedType>)
    ensures RankFields(r) == RankVariants(variants) + 4
  {
    var data := NamedType("variant_data", Struct(VariantFields(variants)));
    assert [NamedType("variant_index", Prim(U8)), data][1..] == [data] && [data][1..] == [];
    assert RankFields([data]) == 1 + Rank(data.ty);
    [NamedType("variant_index", Prim(U8)), data]
  }

  // An enum is shredded by way of a struct type, which is not part of it, so recursion follows a size.

  function Rank(t: DynType): (r: nat)
    ensures r > 0
    decreases t, 0
  {
    match t
    case Prim(_) | Boolean => 1
    case FixedArray(e, _) => 1 + Rank(e)
    case Array(e) => 1 + Rank(e)
    case Struct(fields) => 1 + RankFields(fields)
    case Enum(variants) => 5 + RankVariants(variants)
    case Opt(e) => 1 + Rank(e)
  }

  function RankFields(fields: seq<NamedType>): nat
    decreases fields, 0
  {
    if fields == [] then 0 else 1 + Rank(fields[0].ty) + RankFields(fields[1..])
  }

  function RankVariants(variants: seq<Variant>): nat
    decreases variants, 0
  {
    if variants == [] then 0
    else 2 + (if variants[0].payload.Some? then Rank(variants[0].payload.value) else 1) + RankVariants(variants[1..])
  }

  // ---------------------------------------------------------------- shredding

  /** `to_arrow` */
  function ToArrow(t: DynType, vals: Rows): Result<A.ArrowArray>
    decreases Rank(t), 0
  {
    match t
    case Prim(_) | Boolean => LeafArray(t, vals)
    case FixedArray(e, _) => if e == Prim(U8) then LeafArray(t, vals) else Failure
    case Array(e) =>
      if !ListRows(vals) then Failure
      else
        var item, inner := ToDtype(e), ToArrow(e, Gather(vals));
        if item.Failure? || inner.Failure? then Failure
        else A.TryNewList(item.value, A.FromLengths(Lengths(vals)), inner.value, ValidityOf(vals))
    case Struct(fields) => ToStruct(fields, vals)
    case Enum(variants) =>
      if !EnumRows(variants, vals) then Failure else ToStruct(EnumStruct(variants), EnumRowsOf(variants, vals))
    case Opt(e) => if !OptRows(vals) then Failure else ToArrow(e, StripAll(vals))
  }

  /** `to_struct` */
  function ToStruct(fields: seq<NamedType>, vals: Rows): Result<A.ArrowArray>
    decreases RankFields(fields), 1
  {
    if !StructRows(|fields|, vals) then Failure
    else
      var columns := ToColumns(fields, 0, vals);
      if columns.Failure? then Failure else A.TryNewStruct(columns.value)
  }

  /** The columns of the given fields, the first of which is field k of the rows. */
  function ToColumns(fields: seq<NamedType>, k: nat, vals: Rows): Result<seq<A.ArrowColumn>>
    decreases RankFields(fields), 0
  {
    if fields == [] then Success([])
    else
      var first, others := ToArrow(fields[0].ty, ColumnOf(vals, k)), ToColumns(fields[1..], k + 1, vals);
      if first.Failure? || others.Failure? then Failure
      else Success([A.ArrowColumn(fields[0].name, first.value)] + others.value)
  }

  // ---------------------------------------------------------------- what a row reads as

  /** The cell a value is to be read back as. An option is its content or null; a missing struct is a
      struct of missing fields; an enum is its index and its payload under the variant's name, every
      other variant being missing. */
  function Meaning(t: DynType, v: Option<DynValue>): A.Cell
    decreases t, 0
  {
    match t
    case Prim(_) => if v.Some? && v.value.Num? then A.Scalar(A.Int(v.value.n)) else A.Null
    case Boolean => if v.Some? && v.value.Bool? then A.Scalar(A.Bit(v.value.b)) else A.Null
    case FixedArray(_, _) =>
      if v.Some? && v.value.Arr? && AreBytes(v.value.elems) then A.Scalar(A.Blob(BytesOf(v.value.elems))) else A.Null
    case Array(e) =>
      if v.Some? && v.value.Arr? then
        var xs := v.value.elems;
        A.Items(seq(|xs|, j requires 0 <= j < |xs| => Meaning(e, Some(xs[j]))))
      else A.Null
    case Struct(fields) => A.Children(FieldMeanings(fields, v))
    case Enum(variants) => A.Children([IndexMeaning(variants, v), A.Children(VariantMeanings(variants, v))])
    case Opt(e) => Meaning(e, Strip(v))
  }

  function FieldMeanings(fields: seq<NamedType>, v: Option<DynValue>): seq<A.Cell>
    decreases fields, 0
  {
    seq(|fields|, k requires 0 <= k < |fields| => Meaning(fields[k].ty, FieldOf(v, k)))
  }

  function IndexMeaning(variants: seq<Variant>, v: Option<DynValue>): A.Cell {
    if v.Some? && v.value.Chosen? then A.Scalar(A.Int(Position(variants, v.value.name) % 256)) else A.Null
  }

  function VariantMeanings(variants: seq<Variant>, v: Option<DynValue>): seq<A.Cell>
    decreases variants, 0
  {
    seq(|variants|, k requires 0 <= k < |variants| => VariantMeaning(variants[k], v))
  }

  /** The payload of the chosen variant; null, or a struct of nulls, for every other. */
  function VariantMeaning(x: Variant, v: Option<DynValue>): A.Cell
    decreases x, 0
  {
    if x.payload.None? then A.Null
    else Meaning(x.payload.value,
                 if v.Some? && v.value.Chosen? && v.value.name == x.name then v.value.payload else None)
  }

  // ---------------------------------------------------------------- data and schema agree, cell by cell

  predicate Reads(a: A.ArrowArray, t: DynType, vals: Rows) {
    forall i | 0 <= i < |vals| :: A.At(a, i) == Meaning(t, vals[i])
  }

  /** The array has the announced type, one row per value, and every row reads as its value. */
  predicate Faithful(t: DynType, vals: Rows, a: A.ArrowArray) {
    ToDtype(t) == Success(A.TypeOf(a)) && A.Len(a) == |vals| && A.WellFormed(a) && Reads(a, t, vals)
  }

  /** A stretch of an array reads as the same stretch of its rows. */
  lemma {:induction false} SliceReads(e: DynType, rows: Rows, inner: A.ArrowArray, from: nat, xs: seq<DynValue>)
    requires Reads(inner, e, rows) && from + |xs| <= |rows| && rows[from..from + |xs|] == Somes(xs)
    ensures A.Items(A.Slice(inner, from, |xs|)) == Meaning(Array(e), Some(Arr(xs)))
  {
    var items := A.Slice(inner, from, |xs|);
    forall j | 0 <= j < |xs| ensures items[j] == Meaning(e, Some(xs[j])) {
      assert rows[from + j] == rows[from..from + |xs|][j];
    }
    assert items == seq(|xs|, j requires 0 <= j < |xs| => Meaning(e, Some(xs[j])));
  }

  lemma {:induction false} ListRowReads(e: DynType, vals: Rows, inner: A.ArrowArray, i: nat)
    requires ListRows(vals) && i < |vals| && Reads(inner, e, Gather(vals))
    requires A.Len(inner) == |Gather(vals)|
    ensures A.At(A.ListArray(A.FromLengths(Lengths(vals)), inner, ValidityOf(vals)), i)
         == Meaning(Array(e), vals[i])
  {
    if vals[i].Some? {
      assert vals[i] in vals;
      A.ItemsBetweenOffsets(ItemRows(vals), i);
      var offsets, xs := A.FromLengths(Lengths(vals)), vals[i].value.elems;
      assert offsets[i + 1] == offsets[i] + |xs|;
      SliceReads(e, Gather(vals), inner, offsets[i], xs);
      assert vals[i] == Some(Arr(xs));
    }
  }

  lemma {:induction false} ListFaithful(e: DynType, vals: Rows, inner: A.ArrowArray)
    requires ListRows(vals) && Faithful(e, Gather(vals), inner)
    ensures var offsets := A.FromLengths(Lengths(vals));
            && A.TryNewList(A.TypeOf(inner), offsets, inner, ValidityOf(vals)).Success?
            && Faithful(Array(e), vals, A.TryNewList(A.TypeOf(inner), offsets, inner, ValidityOf(vals)).value)
  {
    A.OffsetsAscend(ItemRows(vals));
    forall i | 0 <= i < |vals|
      ensures A.At(A.ListArray(A.FromLengths(Lengths(vals)), inner, ValidityOf(vals)), i)
           == Meaning(Array(e), vals[i])
    {
      ListRowReads(e, vals, inner, i);
    }
  }

  /** Columns for fields k, k+1, … of the rows, as announced. */
  ghost predicate FaithfulColumns(fields: seq<NamedType>, k: nat, vals: Rows, columns: seq<A.ArrowColumn>) {
    && |columns| == |fields|
    && FieldDtypes(fields) == Success(A.Fields(columns))
    && A.Aligned(columns, |vals|)
    && forall j | 0 <= j < |fields| :: Reads(columns[j].data, fields[j].ty, ColumnOf(vals, k + j))
  }

  lemma {:induction false} ColumnsFaithfulStep(fields: seq<NamedType>, k: nat, vals: Rows, first: A.ArrowArray,
                                               others: seq<A.ArrowColumn>)
    requires fields != [] && Faithful(fields[0].ty, ColumnOf(vals, k), first)
    requires FaithfulColumns(fields[1..], k + 1, vals, others)
    ensures FaithfulColumns(fields, k, vals, [A.ArrowColumn(fields[0].name, first)] + others)
  {
    var columns := [A.ArrowColumn(fields[0].name, first)] + others;
    assert A.Fields(columns) == [A.ArrowField(fields[0].name, A.TypeOf(first))] + A.Fields(others);
    forall j | 0 <= j < |fields| ensures Reads(columns[j].data, fields[j].ty, ColumnOf(vals, k + j)) {
      if j > 0 {
        assert fields[j] == fields[1..][j - 1] && k + j == k + 1 + (j - 1);
      }
    }
  }

  lemma {:induction false} StructRowReads(fields: seq<NamedType>, vals: Rows, columns: seq<A.ArrowColumn>, i: nat)
    requires i < |vals| && FaithfulColumns(fields, 0, vals, columns)
    ensures A.CellsAt(columns, i) == FieldMeanings(fields, vals[i])
  {
    var cells := A.CellsAt(columns, i);
    forall j | 0 <= j < |fields| ensures cells[j] == FieldMeanings(fields, vals[i])[j] {
      assert Reads(columns[j].data, fields[j].ty, ColumnOf(vals, 0 + j));
      assert ColumnOf(vals, j)[i] == FieldOf(vals[i], j);
    }
  }

  lemma {:induction false} StructFaithful(fields: seq<NamedType>, vals: Rows, columns: seq<A.ArrowColumn>)
    requires FaithfulColumns(fields, 0, vals, columns)
    ensures A.TryNewStruct(columns).Success? <==> fields != []
    ensures fields != [] ==> Faithful(Struct(fields), vals, A.TryNewStruct(columns).value)
  {
    if fields != [] {
      assert columns[0] in columns;
      var a := A.TryNewStruct(columns).value;
      forall i | 0 <= i < |vals| ensures A.At(a, i) == Meaning(Struct(fields), vals[i]) {
        StructRowReads(fields, vals, columns, i);
      }
    }
  }

  lemma {:induction false} VariantDtypesAgree(variants: seq<Variant>)
    ensures FieldDtypes(VariantFields(variants)) == VariantDtypes(variants)
  {
    if variants != [] {
      VariantDtypesAgree(variants[1..]);
      assert VariantFields(variants)[1..] == VariantFields(variants[1..]);
    }
  }

  lemma {:induction false} TwoFieldDtypes(f: NamedType, g: NamedType)
    ensures var p, q := ToDtype(f.ty), ToDtype(g.ty);
            FieldDtypes([f, g]) == if p.Failure? || q.Failure? then Failure
                                   else Success([A.ArrowField(f.name, p.value), A.ArrowField(g.name, q.value)])
  {
    assert [f, g][1..] == [g] && [g][1..] == [];
    assert FieldDtypes([g][1..]) == Success([]);
    var p, q := ToDtype(f.ty), ToDtype(g.ty);
    if q.Success? {
      assert [A.ArrowField(g.name, q.value)] + [] == [A.ArrowField(g.name, q.value)];
      assert FieldDtypes([g]) == Success([A.ArrowField(g.name, q.value)]);
      if p.Success? {
        var a, b := A.ArrowField(f.name, p.value), A.ArrowField(g.name, q.value);
        assert FieldDtypes([f, g]) == Success([a] + [b]) && [a] + [b] == [a, b];
      }
    }
  }

  /** The announced type of an enum is the type of the struct it is rewritten to. */
  lemma {:induction false} EnumDtype(variants: seq<Variant>)
    ensures ToDtype(Enum(variants)) == ToDtype(Struct(EnumStruct(variants)))
  {
    VariantDtypesAgree(variants);
    var fields := EnumStruct(variants);
    TwoFieldDtypes(fields[0], fields[1]);
    assert fields == [fields[0], fields[1]];
  }

  lemma {:induction false} VariantFieldAt(variants: seq<Variant>, k: nat)
    requires k < |variants|
    ensures VariantFields(variants)[k]
         == NamedType(variants[k].name, Opt(if variants[k].payload.Some? then variants[k].payload.value else Boolean))
  {
    if k > 0 {
      VariantFieldAt(variants[1..], k - 1);
    }
  }

  lemma {:induction false} VariantDataMeaning(variants: seq<Variant>, v: Option<DynValue>)
    ensures FieldMeanings(VariantFields(variants), FieldOf(EnumRow(variants, v), 1)) == VariantMeanings(variants, v)
  {
    var data := FieldOf(EnumRow(variants, v), 1);
    forall k | 0 <= k < |variants|
      ensures FieldMeanings(VariantFields(variants), data)[k] == VariantMeaning(variants[k], v)
    {
      VariantFieldAt(variants, k);
    }
  }

  /** The struct an enum value is rewritten to reads as the enum value. */
  lemma {:induction false} EnumMeaning(variants: seq<Variant>, v: Option<DynValue>)
    ensures Meaning(Struct(EnumStruct(variants)), EnumRow(variants, v)) == Meaning(Enum(variants), v)
  {
    VariantDataMeaning(variants, v);
    var row := EnumRow(variants, v);
    var fields := EnumStruct(variants);
    assert FieldMeanings(fields, row)
        == [Meaning(Prim(U8), FieldOf(row, 0)), Meaning(Struct(VariantFields(variants)), FieldOf(row, 1))];
  }

  lemma {:induction false} EnumFaithful(variants: seq<Variant>, vals: Rows, a: A.ArrowArray)
    requires Faithful(Struct(EnumStruct(variants)), EnumRowsOf(variants, vals), a)
    ensures Faithful(Enum(variants), vals, a)
  {
    EnumDtype(variants);
    forall i | 0 <= i < |vals| ensures A.At(a, i) == Meaning(Enum(variants), vals[i]) {
      EnumMeaning(variants, vals[i]);
      assert EnumRowsOf(variants, vals)[i] == EnumRow(variants, vals[i]);
    }
  }

  /** A successful `to_arrow` returns an array of exactly the type `to_arrow_dtype` announces, with a row
      for every value, in which row i, read through offsets, validity and children, is value i. */
  lemma {:induction false} ShreddingIsFaithful(t: DynType, vals: Rows)
    requires ToArrow(t, vals).Success?
    ensures Faithful(t, vals, ToArrow(t, vals).value)
    decreases Rank(t), 0
  {
    match t
    case Prim(_) =>
    case Boolean =>
    case FixedArray(_, _) =>
    case Array(e) =>
      ShreddingIsFaithful(e, Gather(vals));
      ListFaithful(e, vals, ToArrow(e, Gather(vals)).value);
    case Struct(fields) =>
      StructsAreFaithful(fields, vals);
    case Enum(variants) =>
      StructsAreFaithful(EnumStruct(variants), EnumRowsOf(variants, vals));
      EnumFaithful(variants, vals, ToArrow(t, vals).value);
    case Opt(e) =>
      ShreddingIsFaithful(e, StripAll(vals));
  }

  lemma {:induction false} StructsAreFaithful(fields: seq<NamedType>, vals: Rows)
    requires ToStruct(fields, vals).Success?
    ensures Faithful(Struct(fields), vals, ToStruct(fields, vals).value)
    decreases RankFields(fields), 1
  {
    ColumnsAreFaithful(fields, 0, vals);
    StructFaithful(fields, vals, ToColumns(fields, 0, vals).value);
  }

  lemma {:induction false} ColumnsAreFaithful(fields: seq<NamedType>, k: nat, vals: Rows)
    requires ToColumns(fields, k, vals).Success?
    ensures FaithfulColumns(fields, k, vals, ToColumns(fields, k, vals).value)
    decreases RankFields(fields), 0
  {
    if fields != [] {
      ShreddingIsFaithful(fields[0].ty, ColumnOf(vals, k));
      ColumnsAreFaithful(fields[1..], k + 1, vals);
      ColumnsFaithfulStep(fields, k, vals, ToArrow(fields[0].ty, ColumnOf(vals, k)).value,
                          ToColumns(fields[1..], k + 1, vals).value);
    }
  }
}
