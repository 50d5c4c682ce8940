/** Arrow types and arrays: offsets, validity and children as laid out in the Arrow columnar format. */
module Arrow {
  import opened Wrappers
  import opened Bytes

  /** Item and child fields are nullable, and item fields unnamed, everywhere in the decoders. */
  datatype ArrowType =
    | Number(bits: nat, signed: bool)
    | Decimal128
    | Decimal256
    | Boolean
    | Binary
    | Utf8
    | List(item: ArrowType)
    | FixedSizeList(item: ArrowType, size: nat)
    | Struct(fields: seq<ArrowField>)

  datatype ArrowField = ArrowField(name: string, ty: ArrowType)

  datatype Datum = Int(n: int) | Bit(b: bool) | Blob(bytes: seq<byte>) | Text(s: string)

  /** `None` is an array without a null buffer. */
  type Validity = Option<seq<bool>>

  datatype ArrowArray =
    | Leaf(ty: ArrowType, cells: seq<Option<Datum>>)
    | ListArray(offsets: seq<nat>, values: ArrowArray, validity: Validity)
    | FixedListArray(size: nat, len: nat, values: ArrowArray, validity: Validity)
    | StructArray(rows: nat, columns: seq<ArrowColumn>, validity: Validity)

  datatype ArrowColumn = ArrowColumn(name: string, data: ArrowArray)

  predicate IsValid(v: Validity, i: nat) {
    v.None? || (i < |v.value| && v.value[i])
  }

  function Fields(columns: seq<ArrowColumn>): (r: seq<ArrowField>)
    ensures |r| == |columns|
    decreases columns, 0
  {
    seq(|columns|, k requires 0 <= k < |columns| => ArrowField(columns[k].name, TypeOf(columns[k].data)))
  }

  function TypeOf(a: ArrowArray): ArrowType
    decreases a, 0
  {
    match a
    case Leaf(ty, _) => ty
    case ListArray(_, values, _) => List(TypeOf(values))
    case FixedListArray(size, _, values, _) => FixedSizeList(TypeOf(values), size)
    case StructArray(_, columns, _) => Struct(Fields(columns))
  }

  function Len(a: ArrowArray): nat {
    match a
    case Leaf(_, cells) => |cells|
    case ListArray(offsets, _, _) => if offsets == [] then 0 else |offsets| - 1
    case FixedListArray(_, len, _, _) => len
    case StructArray(rows, _, _) => rows
  }

  predicate ValidityFits(v: Validity, n: nat) {
    v.Some? ==> |v.value| == n
  }

  predicate Ascending(offsets: seq<nat>) {
    && offsets != [] && offsets[0] == 0
    && forall i, j | 0 <= i <= j < |offsets| :: offsets[i] <= offsets[j]
  }

  predicate Aligned(columns: seq<ArrowColumn>, rows: nat)
    decreases columns, 0
  {
    forall c | c in columns :: Len(c.data) == rows && WellFormed(c.data)
  }

  /** What the array constructors check, at every level. */
  predicate WellFormed(a: ArrowArray)
    decreases a, 0
  {
    match a
    case Leaf(ty, _) => !ty.Struct? && !ty.List? && !ty.FixedSizeList?
    case ListArray(offsets, values, validity) =>
      && Ascending(offsets) && offsets[|offsets| - 1] <= Len(values)
      && ValidityFits(validity, |offsets| - 1) && WellFormed(values)
    case FixedListArray(size, len, values, validity) =>
      Len(values) == len * size && ValidityFits(validity, len) && WellFormed(values)
    case StructArray(rows, columns, validity) =>
      Aligned(columns, rows) && ValidityFits(validity, rows)
  }

  // ---------------------------------------------------------------- constructors of the library

  function LastOffset(offsets: seq<nat>): nat {
    if offsets == [] then 0 else offsets[|offsets| - 1]
  }

  /** `ListArray::try_new`: the item type is that of the values, and the buffers fit. */
  function TryNewList(item: ArrowType, offsets: seq<nat>, values: ArrowArray, validity: Validity): Result<ArrowArray> {
    if && TypeOf(values) == item && LastOffset(offsets) <= Len(values)
       && offsets != [] && ValidityFits(validity, |offsets| - 1)
    then Success(ListArray(offsets, values, validity)) else Failure
  }

  /** `FixedSizeListArray::try_new`: the length comes from the values, or from the null buffer when the
      size is zero. */
  function TryNewFixedList(item: ArrowType, size: nat, values: ArrowArray, validity: Validity): Result<ArrowArray> {
    var len :=
      if size > 0 then Len(values) / size
      else if validity.Some? then |validity.value|
      else 0;
    if size < 0x8000_0000 && TypeOf(values) == item && ValidityFits(validity, len)
    then Success(FixedListArray(size, len, values, validity)) else Failure
  }

  /** `RecordBatch::try_new` followed by `StructArray::from`: some column, all of one length, and no
      null buffer. */
  function TryNewStruct(columns: seq<ArrowColumn>): Result<ArrowArray> {
    if columns != [] && forall c | c in columns :: Len(c.data) == Len(columns[0].data)
    then Success(StructArray(Len(columns[0].data), columns, None)) else Failure
  }

  /** `RecordBatch::try_new`: the columns are as the schema says and of one length, and there is one. */
  function TryNewBatch(schema: seq<ArrowField>, columns: seq<ArrowArray>): Result<seq<ArrowColumn>> {
    if && columns != [] && |schema| == |columns|
       && forall k | 0 <= k < |columns| :: TypeOf(columns[k]) == schema[k].ty && Len(columns[k]) == Len(columns[0])
    then Success(seq(|columns|, k requires 0 <= k < |columns| => ArrowColumn(schema[k].name, columns[k])))
    else Failure
  }

  function DataOf(columns: seq<ArrowColumn>): seq<ArrowArray>
  {
    seq(|columns|, k requires 0 <= k < |columns| => columns[k].data)
  }

  /** Aligned columns make a batch under their own schema. */
  lemma {:induction false} BatchOfColumns(columns: seq<ArrowColumn>, schema: seq<ArrowField>, rows: nat)
    requires columns != [] && Aligned(columns, rows) && schema == Fields(columns)
    ensures TryNewBatch(schema, DataOf(columns)) == Success(columns)
  {
    var arrays := DataOf(columns);
    forall k | 0 <= k < |columns| ensures TypeOf(arrays[k]) == schema[k].ty && Len(arrays[k]) == rows {
      assert columns[k] in columns;
    }
    assert TryNewBatch(schema, arrays).value == columns;
  }

  /** `hstack`: the input's columns behind those decoded. */
  function StackBatch(decoded: seq<ArrowColumn>, input: seq<ArrowColumn>): Result<seq<ArrowColumn>> {
    TryNewBatch(Fields(decoded) + Fields(input), DataOf(decoded) + DataOf(input))
  }

  lemma {:induction false} StackedColumns(decoded: seq<ArrowColumn>, input: seq<ArrowColumn>, rows: nat)
    requires Aligned(decoded, rows) && Aligned(input, rows) && decoded != []
    ensures StackBatch(decoded, input) == Success(decoded + input)
  {
    var all := decoded + input;
    assert Fields(all) == Fields(decoded) + Fields(input) && DataOf(all) == DataOf(decoded) + DataOf(input);
    BatchOfColumns(all, Fields(all), rows);
  }

  /** `OffsetBuffer::from_lengths` */
  function FromLengths(lengths: seq<nat>): (r: seq<nat>)
    ensures |r| == |lengths| + 1
  {
    if lengths == [] then [0]
    else
      var n := |lengths| - 1;
      var before := FromLengths(lengths[..n]);
      before + [before[n] + lengths[n]]
  }

  /** Columns or arrays already built, put in front of the others. */
  function InFront<T>(built: seq<T>, r: Result<seq<T>>): Result<seq<T>> {
    if r.Failure? then Failure else Success(built + r.value)
  }

  lemma {:induction false} OneMoreInFront<T>(built: seq<T>, x: T, r: Result<seq<T>>)
    ensures InFront(built, InFront([x], r)) == InFront(built + [x], r)
  {
    if r.Success? {
      assert built + ([x] + r.value) == (built + [x]) + r.value;
    }
  }

  // ---------------------------------------------------------------- rows of items

  /** The items of all rows, one row after the other. */
  function Concat<T>(rows: seq<seq<T>>): seq<T> {
    if rows == [] then [] else Concat(rows[..|rows| - 1]) + rows[|rows| - 1]
  }

  function LengthsOf<T>(rows: seq<seq<T>>): seq<nat>
  {
    seq(|rows|, i requires 0 <= i < |rows| => |rows[i]|)
  }

  lemma {:induction false} OffsetsOfPrefix<T>(rows: seq<seq<T>>)
    requires rows != []
    ensures var n := |rows| - 1;
            var before := FromLengths(LengthsOf(rows[..n]));
            FromLengths(LengthsOf(rows)) == before + [before[n] + |rows[n]|]
  {
    assert LengthsOf(rows)[..|rows| - 1] == LengthsOf(rows[..|rows| - 1]);
  }

  lemma {:induction false} OffsetsCount<T>(rows: seq<seq<T>>, i: nat)
    requires i <= |rows|
    ensures FromLengths(LengthsOf(rows))[i] == |Concat(rows[..i])|
  {
    if rows == [] {
      assert rows[..i] == [];
    } else {
      var n := |rows| - 1;
      OffsetsOfPrefix(rows);
      if i <= n {
        OffsetsCount(rows[..n], i);
        assert rows[..n][..i] == rows[..i];
      } else {
        OffsetsCount(rows[..n], n);
        assert rows[..n][..n] == rows[..n] && rows[..i] == rows;
      }
    }
  }

  lemma {:induction false} ConcatPrefix<T>(rows: seq<seq<T>>, i: nat)
    requires i <= |rows|
    ensures |Concat(rows[..i])| <= |Concat(rows)| && Concat(rows)[..|Concat(rows[..i])|] == Concat(rows[..i])
  {
    if i == |rows| {
      assert rows[..i] == rows;
    } else {
      ConcatPrefix(rows[..|rows| - 1], i);
      assert rows[..|rows| - 1][..i] == rows[..i];
    }
  }

  lemma {:induction false} OffsetsAscend<T>(rows: seq<seq<T>>)
    ensures Ascending(FromLengths(LengthsOf(rows)))
    ensures LastOffset(FromLengths(LengthsOf(rows))) == |Concat(rows)|
  {
    var offsets := FromLengths(LengthsOf(rows));
    forall i, j | 0 <= i <= j < |offsets| ensures offsets[i] <= offsets[j] {
      OffsetsCount(rows, i);
      OffsetsCount(rows, j);
      ConcatPrefix(rows[..j], i);
      assert rows[..j][..i] == rows[..i];
    }
    OffsetsCount(rows, 0);
    OffsetsCount(rows, |rows|);
    assert rows[..0] == [] && rows[..|rows|] == rows;
  }

  /** Behind the items of the rows before row i lie the items of row i. */
  lemma {:induction false} RowInConcat<T>(rows: seq<seq<T>>, i: nat)
    requires i < |rows|
    ensures var n := |Concat(rows[..i])|;
            n + |rows[i]| <= |Concat(rows)| && Concat(rows)[n..n + |rows[i]|] == rows[i]
  {
    ConcatPrefix(rows, i + 1);
    assert rows[..i + 1][..i] == rows[..i] && rows[..i + 1][i] == rows[i];
    var g := Concat(rows[..i + 1]);
    assert g == Concat(rows[..i]) + rows[i];
    var n, m := |Concat(rows[..i])|, |g|;
    assert Concat(rows)[n..m] == g[n..m];
  }

  /** Between the offsets of row i lie its items. */
  lemma {:induction false} ItemsBetweenOffsets<T>(rows: seq<seq<T>>, i: nat)
    requires i < |rows|
    ensures var offsets := FromLengths(LengthsOf(rows));
            && offsets[i + 1] == offsets[i] + |rows[i]| <= |Concat(rows)|
            && Concat(rows)[offsets[i]..offsets[i + 1]] == rows[i]
  {
    OffsetsCount(rows, i);
    OffsetsCount(rows, i + 1);
    RowInConcat(rows, i);
    assert rows[..i + 1][..i] == rows[..i] && rows[..i + 1][i] == rows[i];
  }

  lemma {:induction false} OneMoreTimes(m: nat, n: nat)
    ensures (m + 1) * n == m * n + n
  {
  }

  /** In rows of one size n, row i starts at i * n. */
  lemma {:induction false} ConcatOfEqual<T>(rows: seq<seq<T>>, n: nat)
    requires forall r | r in rows :: |r| == n
    ensures |Concat(rows)| == |rows| * n
  {
    if rows != [] {
      var last := |rows| - 1;
      assert forall r | r in rows[..last] :: r in rows;
      ConcatOfEqual(rows[..last], n);
      assert rows[last] in rows;
      OneMoreTimes(last, n);
    }
  }

  lemma {:induction false} ItemsOfEqual<T>(rows: seq<seq<T>>, n: nat, i: nat)
    requires (forall r | r in rows :: |r| == n) && i < |rows|
    ensures i * n + n <= |Concat(rows)| == |rows| * n && Concat(rows)[i * n..i * n + n] == rows[i]
  {
    ConcatOfEqual(rows, n);
    ConcatOfEqual(rows[..i], n);
    RowInConcat(rows, i);
  }

  // ---------------------------------------------------------------- reading an array

  /** A cell as a reader sees it, independent of layout. */
  datatype Cell = Null | Scalar(d: Datum) | Items(items: seq<Cell>) | Children(children: seq<Cell>)

  function CellsAt(columns: seq<ArrowColumn>, i: nat): seq<Cell>
    decreases columns, 0
  {
    seq(|columns|, k requires 0 <= k < |columns| => At(columns[k].data, i))
  }

  function At(a: ArrowArray, i: nat): Cell
    decreases a, 0
  {
    match a
    case Leaf(_, cells) => if i < |cells| && cells[i].Some? then Scalar(cells[i].value) else Null
    case ListArray(offsets, values, validity) =>
      if !IsValid(validity, i) || i + 1 >= |offsets| || offsets[i + 1] < offsets[i] then Null
      else Items(Slice(values, offsets[i], offsets[i + 1] - offsets[i]))
    case FixedListArray(size, _, values, validity) =>
      if IsValid(validity, i) then Items(Slice(values, i * size, size)) else Null
    case StructArray(_, columns, validity) =>
      if IsValid(validity, i) then Children(CellsAt(columns, i)) else Null
  }

  function Slice(a: ArrowArray, from: nat, n: nat): seq<Cell>
    decreases a, 1
  {
    seq(n, k requires 0 <= k < n => At(a, from + k))
  }
}
