/** Turning rows of ABI-decoded Solidity values into Arrow columns. */
module EvmShred {
  import opened Wrappers
  import opened Bytes
  import opened WideInts
  import opened NameCollisions
  import A = Arrow

  /** The ABI parser rejects widths above 256 bits and zero array sizes. */
  type Bits = x: int | 0 < x <= 256 witness 256
  type Size = x: int | 0 < x witness 1

  datatype SolType =
    | Bool
    | Int(bits: Bits)
    | Uint(bits: Bits)
    | FixedBytes(n: nat)
    | Address
    | Function
    | Bytes
    | String
    | Array(elem: SolType)
    | FixedArray(elem: SolType, size: Size)
    | Tuple(fields: seq<SolType>)

  /** The library's integers are 256 bits wide whatever their declared width. */
  type Int256 = v: int | FitsSigned(v, 32)
  type Uint256 = v: int | FitsUnsigned(v, 32)

  datatype SolValue =
    | BoolValue(b: bool)
    | IntValue(i: Int256, bits: nat)
    | UintValue(u: Uint256, bits: nat)
    | BytesValue(bytes: seq<byte>)
    | FixedBytesValue(bytes: seq<byte>)
    | AddressValue(bytes: seq<byte>)
    | FunctionValue(bytes: seq<byte>)
    | StringValue(s: string)
    | ArrayValue(items: seq<SolValue>)
    | FixedArrayValue(items: seq<SolValue>)
    | TupleValue(items: seq<SolValue>)

  datatype Options = Options(allowFail: bool, largeIntAsBinary: bool)

  type Rows = seq<Option<SolValue>>

  // ---------------------------------------------------------------- the announced type

  /** The smallest native width. */
  function NativeBits(bits: Bits): nat
  {
    if bits <= 8 then 8 else if bits <= 16 then 16 else if bits <= 32 then 32 else 64
  }

  function NumberType(bits: Bits, signed: bool, o: Options): A.ArrowType {
    if bits <= 64 then A.Number(NativeBits(bits), signed)
    else if o.largeIntAsBinary then A.Binary
    else if bits <= 128 then A.Decimal128
    else A.Decimal256
  }

  function DefaultName(i: nat): string {
    "param" + Decimal(i)
  }

  /** `to_arrow_dtype` */
  function ToDtype(t: SolType, o: Options): Result<A.ArrowType>
    decreases t, 0
  {
    match t
    case Bool => Success(A.Boolean)
    case Bytes | Address | FixedBytes(_) => Success(A.Binary)
    case String => Success(A.Utf8)
    case Int(bits) => Success(NumberType(bits, true, o))
    case Uint(bits) => Success(NumberType(bits, false, o))
    case Array(e) =>
      var inner := ToDtype(e, o);
      if inner.Failure? then Failure else Success(A.List(inner.value))
    case FixedArray(e, n) =>
      var inner := ToDtype(e, o);
      if inner.Failure? || n >= 0x8000_0000 then Failure else Success(A.FixedSizeList(inner.value, n))
    case Function => Failure
    case Tuple(fields) =>
      var inner := FieldDtypes(fields, 0, o);
      if inner.Failure? then Failure else Success(A.Struct(inner.value))
  }

  /** The fields of a tuple from number k on. */
  function FieldDtypes(fields: seq<SolType>, k: nat, o: Options): Result<seq<A.ArrowField>>
    decreases fields, 0
  {
    if fields == [] then Success([])
    else
      var first, others := ToDtype(fields[0], o), FieldDtypes(fields[1..], k + 1, o);
      if first.Failure? || others.Failure? then Failure
      else Success([A.ArrowField(DefaultName(k), first.value)] + others.value)
  }

  // ---------------------------------------------------------------- rows

  predicate FitsNative(v: int, bits: Bits, signed: bool) {
    var w := NativeBits(bits) / 8;
    if signed then FitsSigned(v, w) else FitsUnsigned(v, w)
  }

  /** One row of an integer column: too wide for the native type is a null or an error; above 64 bits
      the ABI word is cut to a decimal or kept. */
  function NumberCell(bits: Bits, signed: bool, v: int, o: Options): Result<Option<A.Datum>>
    requires InWord(v)
  {
    if bits <= 64 then
      if FitsNative(v, bits, signed) then Success(Some(A.Int(v)))
      else if o.allowFail then Success(None)
      else Failure
    else if o.largeIntAsBinary then Success(Some(A.Blob(Word(v))))
    else if bits <= 128 then Success(Some(A.Int(ToDecimal128(v))))
    else Success(Some(A.Int(ToDecimal256(v))))
  }

  /** `to_int_impl`, `to_decimal128`, `to_decimal256` and `to_binary_from_int_word`: either kind of integer,
      of the declared width. */
  function IntegerCell(bits: Bits, signed: bool, v: SolValue, o: Options): Result<Option<A.Datum>> {
    match v
    case IntValue(i, nb) => if nb == bits then NumberCell(bits, signed, i, o) else Failure
    case UintValue(u, nb) => if nb == bits then NumberCell(bits, signed, u, o) else Failure
    case _ => Failure
  }

  /** `to_binary` */
  function BinaryCell(v: SolValue): Result<Option<A.Datum>> {
    match v
    case BytesValue(b) => Success(Some(A.Blob(b)))
    case FixedBytesValue(b) => Success(Some(A.Blob(b)))
    case AddressValue(b) => Success(Some(A.Blob(b)))
    case UintValue(u, _) => Success(Some(A.Blob(Word(u))))
    case IntValue(i, _) => Success(Some(A.Blob(Word(i))))
    case _ => Failure
  }

  /** What a builder is given for one row of a type without children. */
  function LeafCell(t: SolType, o: Options, v: Option<SolValue>): Result<Option<A.Datum>> {
    if v.None? then Success(None)
    else
      match t
      case Bool => if v.value.BoolValue? then Success(Some(A.Bit(v.value.b))) else Failure
      case String => if v.value.StringValue? then Success(Some(A.Text(v.value.s))) else Failure
      case Int(bits) => IntegerCell(bits, true, v.value, o)
      case Uint(bits) => IntegerCell(bits, false, v.value, o)
      case Bytes | Address | FixedBytes(_) => BinaryCell(v.value)
      case _ => Failure
  }

  predicate IsLeaf(t: SolType) {
    !t.Array? && !t.FixedArray? && !t.Tuple? && !t.Function?
  }

  predicate LeafRows(t: SolType, o: Options, vals: Rows) {
    forall v | v in vals :: LeafCell(t, o, v).Success?
  }

  function LeafCells(t: SolType, o: Options, vals: Rows): seq<Option<A.Datum>>
    requires LeafRows(t, o, vals)
  {
    seq(|vals|, i requires 0 <= i < |vals| => LeafCell(t, o, vals[i]).value)
  }

  function LeafArray(t: SolType, o: Options, vals: Rows): Result<A.ArrowArray> {
    if LeafRows(t, o, vals) && ToDtype(t, o).Success?
    then Success(A.Leaf(ToDtype(t, o).value, LeafCells(t, o, vals))) else Failure
  }

  function ValidityOf(vals: Rows): A.Validity {
    if None in vals then Some(seq(|vals|, i requires 0 <= i < |vals| => vals[i].Some?)) else None
  }

  function Somes(vs: seq<SolValue>): Rows
  {
    seq(|vs|, i requires 0 <= i < |vs| => Some(vs[i]))
  }

  predicate ListRows(vals: Rows) {
    forall v | v in vals :: v.Some? ==> v.value.ArrayValue? || v.value.FixedArrayValue?
  }

  function ItemsOf(v: Option<SolValue>): Rows {
    if v.Some? && (v.value.ArrayValue? || v.value.FixedArrayValue?) then Somes(v.value.items) else []
  }

  function ItemRows(vals: Rows): seq<Rows>
  {
    seq(|vals|, i requires 0 <= i < |vals| => ItemsOf(vals[i]))
  }

  predicate FixedRows(n: nat, vals: Rows) {
    forall v | v in vals :: v.Some? ==> v.value.FixedArrayValue? && |v.value.items| == n
  }

  /** A missing row takes n missing items. */
  function PaddedItemsOf(n: nat, v: Option<SolValue>): Rows {
    if v.Some? && v.value.FixedArrayValue? then Somes(v.value.items) else seq(n, i => None)
  }

  function PaddedRows(n: nat, vals: Rows): seq<Rows>
  {
    seq(|vals|, i requires 0 <= i < |vals| => PaddedItemsOf(n, vals[i]))
  }

  predicate TupleRows(n: nat, vals: Rows) {
    forall v | v in vals :: v.Some? ==> v.value.TupleValue? && |v.value.items| == n
  }

  function FieldOf(v: Option<SolValue>, k: nat): Option<SolValue> {
    if v.Some? && v.value.TupleValue? && k < |v.value.items| then Some(v.value.items[k]) else None
  }

  function ColumnOf(vals: Rows, k: nat): Rows
  {
    seq(|vals|, i requires 0 <= i < |vals| => FieldOf(vals[i], k))
  }

  // ---------------------------------------------------------------- shredding

  /** `to_arrow` */
  function ToArrow(t: SolType, o: Options, vals: Rows): Result<A.ArrowArray>
    decreases t, 1
  {
    match t
    case Function => Failure
    case Array(e) =>
      var item, inner := ToDtype(e, o), ToArrow(e, o, A.Concat(ItemRows(vals)));
      if !ListRows(vals) || item.Failure? || inner.Failure? then Failure
      else A.TryNewList(item.value, A.FromLengths(A.LengthsOf(ItemRows(vals))), inner.value, ValidityOf(vals))
    case FixedArray(e, n) =>
      var item, inner := ToDtype(e, o), ToArrow(e, o, A.Concat(PaddedRows(n, vals)));
      if !FixedRows(n, vals) || item.Failure? || inner.Failure? then Failure
      else A.TryNewFixedList(item.value, n, inner.value, ValidityOf(vals))
    case Tuple(fields) =>
      if fields == [] then Success(A.StructArray(|vals|, [], None))
      else
        var columns := ToColumns(fields, 0, o, vals);
        if !TupleRows(|fields|, vals) || columns.Failure? then Failure else A.TryNewStruct(columns.value)
    case _ => LeafArray(t, o, vals)
  }

  /** The columns of the given fields, the first of which is field k of the rows. */
  function ToColumns(fields: seq<SolType>, k: nat, o: Options, vals: Rows): Result<seq<A.ArrowColumn>>
    decreases fields, 0
  {
    if fields == [] then Success([])
    else
      var first, others := ToArrow(fields[0], o, ColumnOf(vals, k)), ToColumns(fields[1..], k + 1, o, vals);
      if first.Failure? || others.Failure? then Failure
      else Success([A.ArrowColumn(DefaultName(k), first.value)] + others.value)
  }

  // ---------------------------------------------------------------- what a row reads as

  function Meaning(t: SolType, o: Options, v: Option<SolValue>): A.Cell
    decreases t, 1
  {
    match t
    case Array(e) =>
      if v.Some? && (v.value.ArrayValue? || v.value.FixedArrayValue?) then A.Items(ItemMeanings(e, o, v.value.items))
      else A.Null
    case FixedArray(e, _) =>
      if v.Some? && v.value.FixedArrayValue? then A.Items(ItemMeanings(e, o, v.value.items)) else A.Null
    case Tuple(fields) => A.Children(FieldMeanings(fields, o, v))
    case _ =>
      var c := LeafCell(t, o, v);
      if c.Success? && c.value.Some? then A.Scalar(c.value.value) else A.Null
  }

  function ItemMeanings(e: SolType, o: Options, xs: seq<SolValue>): seq<A.Cell>
    decreases e, 2
  {
    seq(|xs|, j requires 0 <= j < |xs| => Meaning(e, o, Some(xs[j])))
  }

  /** A missing tuple is a tuple of missing fields. */
  function FieldMeanings(fields: seq<SolType>, o: Options, v: Option<SolValue>): seq<A.Cell>
    decreases fields, 0
  {
    seq(|fields|, k requires 0 <= k < |fields| => Meaning(fields[k], o, FieldOf(v, k)))
  }

  predicate Reads(a: A.ArrowArray, t: SolType, o: Options, vals: Rows) {
    forall i | 0 <= i < |vals| :: A.At(a, i) == Meaning(t, o, vals[i])
  }

  /** One row per value, well-formed at every level, and every row reads as its value. */
  predicate Holds(t: SolType, o: Options, vals: Rows, a: A.ArrowArray) {
    A.Len(a) == |vals| && A.WellFormed(a) && Reads(a, t, o, vals)
  }

  /** In addition the array has exactly the announced type. */
  predicate Faithful(t: SolType, o: Options, vals: Rows, a: A.ArrowArray) {
    ToDtype(t, o) == Success(A.TypeOf(a)) && Holds(t, o, vals, a)
  }

  lemma {:induction false} LeafFaithful(t: SolType, o: Options, vals: Rows)
    requires IsLeaf(t) && LeafArray(t, o, vals).Success?
    ensures Faithful(t, o, vals, LeafArray(t, o, vals).value)
  {
    forall i | 0 <= i < |vals| ensures A.At(LeafArray(t, o, vals).value, i) == Meaning(t, o, vals[i]) {
      assert vals[i] in vals;
    }
  }

  lemma {:induction false} RowValidity(vals: Rows, i: nat)
    requires i < |vals|
    ensures A.IsValid(ValidityOf(vals), i) <==> vals[i].Some?
  {
    assert vals[i] in vals;
  }

  /** A stretch of an array reads as the same stretch of its rows. */
  lemma {:induction false} SliceReads(e: SolType, o: Options, rows: Rows, inner: A.ArrowArray, from: nat,
                                      xs: seq<SolValue>)
    requires Reads(inner, e, o, rows) && from + |xs| <= |rows| && rows[from..from + |xs|] == Somes(xs)
    ensures A.Slice(inner, from, |xs|) == ItemMeanings(e, o, xs)
  {
    var items := A.Slice(inner, from, |xs|);
    forall j | 0 <= j < |xs| ensures items[j] == Meaning(e, o, Some(xs[j])) {
      assert rows[from + j] == rows[from..from + |xs|][j];
    }
  }

  lemma {:induction false} ListRowReads(e: SolType, o: Options, vals: Rows, inner: A.ArrowArray, i: nat)
    requires ListRows(vals) && i < |vals| && Reads(inner, e, o, A.Concat(ItemRows(vals)))
    ensures A.At(A.ListArray(A.FromLengths(A.LengthsOf(ItemRows(vals))), inner, ValidityOf(vals)), i)
         == Meaning(Array(e), o, vals[i])
  {
    RowValidity(vals, i);
    if vals[i].Some? {
      assert vals[i] in vals;
      A.ItemsBetweenOffsets(ItemRows(vals), i);
      SliceReads(e, o, A.Concat(ItemRows(vals)), inner, A.FromLengths(A.LengthsOf(ItemRows(vals)))[i],
                 vals[i].value.items);
    }
  }

  lemma {:induction false} ListFaithful(e: SolType, o: Options, vals: Rows, inner: A.ArrowArray)
    requires ListRows(vals) && Faithful(e, o, A.Concat(ItemRows(vals)), inner)
    ensures var offsets := A.FromLengths(A.LengthsOf(ItemRows(vals)));
            var a := A.TryNewList(A.TypeOf(inner), offsets, inner, ValidityOf(vals));
            a.Success? && Faithful(Array(e), o, vals, a.value)
  {
    A.OffsetsAscend(ItemRows(vals));
    forall i | 0 <= i < |vals|
      ensures A.At(A.ListArray(A.FromLengths(A.LengthsOf(ItemRows(vals))), inner, ValidityOf(vals)), i)
           == Meaning(Array(e), o, vals[i])
    {
      ListRowReads(e, o, vals, inner, i);
    }
  }

  lemma {:induction false} PaddedRowAt(n: nat, vals: Rows, i: nat)
    requires i < |vals| && vals[i].Some? && vals[i].value.FixedArrayValue?
    requires forall r | r in PaddedRows(n, vals) :: |r| == n
    ensures var xs := Somes(vals[i].value.items);
            && |xs| == n && i * n + n <= |A.Concat(PaddedRows(n, vals))|
            && A.Concat(PaddedRows(n, vals))[i * n..i * n + n] == xs
  {
    var rows := PaddedRows(n, vals);
    assert rows[i] == Somes(vals[i].value.items) && rows[i] in rows;
    A.ItemsOfEqual(rows, n, i);
  }

  lemma {:induction false} StretchReads(e: SolType, o: Options, rows: Rows, inner: A.ArrowArray, from: nat, n: nat,
                                        xs: seq<SolValue>)
    requires Reads(inner, e, o, rows) && from + n <= |rows| && rows[from..from + n] == Somes(xs) && |Somes(xs)| == n
    ensures A.Slice(inner, from, n) == ItemMeanings(e, o, xs)
  {
    SliceReads(e, o, rows, inner, from, xs);
  }

  /** Row i of a fixed-size list, given where its items lie in the item column. */
  lemma {:induction false} FixedRowReads(e: SolType, n: Size, o: Options, v: Option<SolValue>, validity: A.Validity,
                                         rows: nat,
                                         flat: Rows, inner: A.ArrowArray, i: nat)
    requires (A.IsValid(validity, i) <==> v.Some?) && (v.Some? ==> v.value.FixedArrayValue?)
    requires v.Some? ==> |Somes(v.value.items)| == n && i * n + n <= |flat|
    requires v.Some? ==> flat[i * n..i * n + n] == Somes(v.value.items)
    requires Reads(inner, e, o, flat)
    ensures A.At(A.FixedListArray(n, rows, inner, validity), i) == Meaning(FixedArray(e, n), o, v)
  {
    if v.Some? {
      StretchReads(e, o, flat, inner, i * n, n, v.value.items);
    }
  }

  lemma {:induction false} FixedRowAt(e: SolType, n: Size, o: Options, vals: Rows, inner: A.ArrowArray, i: nat)
    requires FixedRows(n, vals) && i < |vals| && Reads(inner, e, o, A.Concat(PaddedRows(n, vals)))
    requires forall r | r in PaddedRows(n, vals) :: |r| == n
    ensures A.At(A.FixedListArray(n, |vals|, inner, ValidityOf(vals)), i) == Meaning(FixedArray(e, n), o, vals[i])
  {
    RowValidity(vals, i);
    assert vals[i] in vals;
    if vals[i].Some? {
      PaddedRowAt(n, vals, i);
    }
    FixedRowReads(e, n, o, vals[i], ValidityOf(vals), |vals|, A.Concat(PaddedRows(n, vals)), inner, i);
  }

  lemma {:induction false} Quotient(m: nat, n: Size)
    ensures (m * n) / n == m
  {
    SameParts(n, m, 0, (m * n) / n, (m * n) % n);
  }

  lemma {:induction false} FixedListFaithful(e: SolType, n: Size, o: Options, vals: Rows, inner: A.ArrowArray)
    requires FixedRows(n, vals) && Faithful(e, o, A.Concat(PaddedRows(n, vals)), inner)
    ensures var a := A.TryNewFixedList(A.TypeOf(inner), n, inner, ValidityOf(vals));
            && (a.Success? <==> n < 0x8000_0000)
            && (a.Success? ==> Faithful(FixedArray(e, n), o, vals, a.value))
  {
    A.ConcatOfEqual(PaddedRows(n, vals), n);
    Quotient(|vals|, n);
    forall i | 0 <= i < |vals|
      ensures A.At(A.FixedListArray(n, |vals|, inner, ValidityOf(vals)), i) == Meaning(FixedArray(e, n), o, vals[i])
    {
      FixedRowAt(e, n, o, vals, inner, i);
    }
  }

  /** Columns for fields k, k+1, … of the rows. */
  ghost predicate HoldColumns(fields: seq<SolType>, k: nat, o: Options, vals: Rows, columns: seq<A.ArrowColumn>) {
    && |columns| == |fields| && A.Aligned(columns, |vals|)
    && forall j | 0 <= j < |fields| :: Reads(columns[j].data, fields[j], o, ColumnOf(vals, k + j))
  }

  lemma {:induction false} ColumnsStep(fields: seq<SolType>, k: nat, o: Options, vals: Rows, first: A.ArrowColumn,
                                       others: seq<A.ArrowColumn>)
    requires fields != [] && Holds(fields[0], o, ColumnOf(vals, k), first.data)
    requires HoldColumns(fields[1..], k + 1, o, vals, others)
    ensures HoldColumns(fields, k, o, vals, [first] + others)
    ensures A.Fields([first] + others) == [A.ArrowField(first.name, A.TypeOf(first.data))] + A.Fields(others)
  {
    var columns := [first] + others;
    forall j | 0 <= j < |fields| ensures Reads(columns[j].data, fields[j], o, ColumnOf(vals, k + j)) {
      if j > 0 {
        assert fields[j] == fields[1..][j - 1] && k + j == k + 1 + (j - 1);
      }
    }
  }

  lemma {:induction false} TupleHolds(fields: seq<SolType>, o: Options, vals: Rows, columns: seq<A.ArrowColumn>)
    requires fields != [] && HoldColumns(fields, 0, o, vals, columns)
    ensures A.TryNewStruct(columns).Success?
    ensures Holds(Tuple(fields), o, vals, A.TryNewStruct(columns).value)
  {
    assert columns[0] in columns;
    var a := A.TryNewStruct(columns).value;
    forall i | 0 <= i < |vals| ensures A.At(a, i) == Meaning(Tuple(fields), o, vals[i]) {
      TupleRowReads(fields, o, vals, columns, i);
    }
  }

  lemma {:induction false} TupleRowReads(fields: seq<SolType>, o: Options, vals: Rows, columns: seq<A.ArrowColumn>,
                                         i: nat)
    requires i < |vals| && HoldColumns(fields, 0, o, vals, columns)
    ensures A.CellsAt(columns, i) == FieldMeanings(fields, o, vals[i])
  {
    var cells := A.CellsAt(columns, i);
    forall j | 0 <= j < |fields| ensures cells[j] == FieldMeanings(fields, o, vals[i])[j] {
      assert Reads(columns[j].data, fields[j], o, ColumnOf(vals, 0 + j));
      assert ColumnOf(vals, j)[i] == FieldOf(vals[i], j);
    }
  }

  /** A successful `to_arrow` returns an array of the type `to_arrow_dtype` announces, with a row for every
      value in which the value is read back, through lists, padded fixed lists and tuples. */
  lemma {:induction false} ShreddingIsFaithful(t: SolType, o: Options, vals: Rows)
    requires ToArrow(t, o, vals).Success?
    ensures Faithful(t, o, vals, ToArrow(t, o, vals).value)
    decreases t, 1
  {
    match t
    case Array(e) =>
      ShreddingIsFaithful(e, o, A.Concat(ItemRows(vals)));
      ListFaithful(e, o, vals, ToArrow(e, o, A.Concat(ItemRows(vals))).value);
    case FixedArray(e, n) =>
      ShreddingIsFaithful(e, o, A.Concat(PaddedRows(n, vals)));
      FixedListFaithful(e, n, o, vals, ToArrow(e, o, A.Concat(PaddedRows(n, vals))).value);
    case Tuple(fields) =>
      if fields != [] {
        ColumnsAreFaithful(fields, 0, o, vals);
        TupleHolds(fields, o, vals, ToColumns(fields, 0, o, vals).value);
      }
    case _ =>
      LeafFaithful(t, o, vals);
  }

  lemma {:induction false} ColumnsAreFaithful(fields: seq<SolType>, k: nat, o: Options, vals: Rows)
    requires ToColumns(fields, k, o, vals).Success?
    ensures HoldColumns(fields, k, o, vals, ToColumns(fields, k, o, vals).value)
    ensures FieldDtypes(fields, k, o) == Success(A.Fields(ToColumns(fields, k, o, vals).value))
    decreases fields, 0
  {
    if fields != [] {
      ShreddingIsFaithful(fields[0], o, ColumnOf(vals, k));
      ColumnsAreFaithful(fields[1..], k + 1, o, vals);
      ColumnsStep(fields, k, o, vals, A.ArrowColumn(DefaultName(k), ToArrow(fields[0], o, ColumnOf(vals, k)).value),
                  ToColumns(fields[1..], k + 1, o, vals).value);
    }
  }

  /** The array constructors never refuse what they are given: a column fails only for a row of the
      wrong shape, a failing child, or a fixed size beyond 32 bits. */
  lemma {:induction false} ConstructionNeverFails(t: SolType, o: Options, vals: Rows)
    ensures t.Array? ==> (ToArrow(t, o, vals).Success? <==>
                            ListRows(vals) && ToArrow(t.elem, o, A.Concat(ItemRows(vals))).Success?)
    ensures t.FixedArray? ==> (ToArrow(t, o, vals).Success? <==>
                                 && FixedRows(t.size, vals) && t.size < 0x8000_0000
                                 && ToArrow(t.elem, o, A.Concat(PaddedRows(t.size, vals))).Success?)
    ensures t.Tuple? && t.fields != [] ==> (ToArrow(t, o, vals).Success? <==>
                                              TupleRows(|t.fields|, vals) && ToColumns(t.fields, 0, o, vals).Success?)
  {
    match t
    case Array(e) =>
      var rows := A.Concat(ItemRows(vals));
      if ListRows(vals) && ToArrow(e, o, rows).Success? {
        ShreddingIsFaithful(e, o, rows);
        ListFaithful(e, o, vals, ToArrow(e, o, rows).value);
      }
    case FixedArray(e, n) =>
      var rows := A.Concat(PaddedRows(n, vals));
      if FixedRows(n, vals) && ToArrow(e, o, rows).Success? {
        ShreddingIsFaithful(e, o, rows);
        FixedListFaithful(e, n, o, vals, ToArrow(e, o, rows).value);
      }
    case Tuple(fields) =>
      if fields != [] && ToColumns(fields, 0, o, vals).Success? {
        ColumnsAreFaithful(fields, 0, o, vals);
        TupleHolds(fields, o, vals, ToColumns(fields, 0, o, vals).value);
      }
    case _ =>
  }

  /** With `large_int_as_binary` a column above 128 bits holds the fixed binary form of the decimals it
      holds otherwise, and one of 65 to 128 bits ends in it. */
  lemma {:induction false} BinaryFlagKeepsDecimals(bits: Bits, signed: bool, v: int, allowFail: bool)
    requires bits > 64 && InWord(v)
    ensures NumberCell(bits, signed, v, Options(allowFail, true)) == Success(Some(A.Blob(Word(v))))
    ensures bits > 128 ==> (
              && NumberCell(bits, signed, v, Options(allowFail, false)) == Success(Some(A.Int(ToDecimal256(v))))
              && FitsSigned(ToDecimal256(v), 32) && Be32(ToDecimal256(v)) == Word(v))
    ensures bits <= 128 ==> (
              && NumberCell(bits, signed, v, Options(allowFail, false)) == Success(Some(A.Int(ToDecimal128(v))))
              && FitsSigned(ToDecimal128(v), 16) && Be16(ToDecimal128(v)) == Word(v)[16..])
  {
    Be32IsWord(v);
    Be16IsLowHalf(v);
  }
}
