/** What an EVM column says about its values and what type it has, told from the values and types alone. */
module EvmMeaning {
  import opened Wrappers
  import opened Bytes
  import opened WideInts
  import opened NameCollisions
  import opened EvmShred
  import A = Arrow

  // ---------------------------------------------------------------- integers

  /** The range of the smallest native type for this width, signed or not. */
  predicate InNative(bits: Bits, signed: bool, n: int) {
    if bits <= 8 then (if signed then -0x80 <= n < 0x80 else 0 <= n < 0x100)
    else if bits <= 16 then (if signed then -0x8000 <= n < 0x8000 else 0 <= n < 0x1_0000)
    else if bits <= 32 then (if signed then -0x8000_0000 <= n < 0x8000_0000 else 0 <= n < 0x1_0000_0000)
    else if signed then -0x8000_0000_0000_0000 <= n < 0x8000_0000_0000_0000
    else 0 <= n < 0x1_0000_0000_0000_0000
  }

  /** Big-endian two's complement of 32 bytes. */
  predicate IsWord(bytes: seq<byte>, n: int) {
    |bytes| == 32 && FromBe(bytes) == if n < 0 then n + Pow256(32) else n
  }

  /** The value of w bytes of two's complement that is congruent to n. */
  ghost predicate IsDecimal(d: int, n: int, w: nat) {
    && -(Pow256(w) as int) <= 2 * d < Pow256(w)
    && exists k: int :: d == n + k * Pow256(w)
  }

  /** An integer in a column of this width: itself if it fits the native type, a null if it does not and
      failures are allowed; above 64 bits its word, or its decimal. */
  ghost predicate NumberReads(bits: Bits, signed: bool, n: int, o: Options, c: A.Cell) {
    if bits <= 64 then
      if InNative(bits, signed, n) then c == A.Scalar(A.Int(n)) else o.allowFail && c == A.Null
    else if o.largeIntAsBinary then c.Scalar? && c.d.Blob? && IsWord(c.d.bytes, n)
    else c.Scalar? && c.d.Int? && IsDecimal(c.d.n, n, if bits <= 128 then 16 else 32)
  }

  lemma {:induction false} NativeRange(bits: Bits, signed: bool, n: int)
    requires bits <= 64
    ensures FitsNative(n, bits, signed) <==> InNative(bits, signed, n)
  {
    assert Pow256(1) == 0x100 && Pow256(2) == 0x1_0000 && Pow256(4) == 0x1_0000_0000;
    assert Pow256(8) == 0x1_0000_0000_0000_0000;
  }

  lemma {:induction false} WordReads(n: int)
    requires InWord(n)
    ensures IsWord(Word(n), n)
  {
    BeRoundTrip(Pattern(n, 32), 32);
  }

  lemma {:induction false} Decimal256Reads(n: int)
    requires InWord(n)
    ensures IsDecimal(ToDecimal256(n), n, 32)
  {
    WordReads(n);
    BeIsOnto(Word(n));
    Decimal256IsExact(n);
    var m := Pow256(32);
    var u := FromBe(Word(n));
    assert u == n + (if n < 0 then 1 else 0) * m;
    SignedIsCongruent(u, 32, n, if n < 0 then 1 else 0);
  }

  lemma {:induction false} NumberCellReads(bits: Bits, signed: bool, n: int, o: Options, c: A.Cell)
    requires InWord(n) && NumberCell(bits, signed, n, o).Success?
    requires c == CellOfDatum(NumberCell(bits, signed, n, o).value)
    ensures NumberReads(bits, signed, n, o, c)
  {
    if bits <= 64 {
      NativeRange(bits, signed, n);
    } else {
      WordReads(n);
      Decimal128IsCongruent(n);
      Decimal256Reads(n);
    }
  }

  function CellOfDatum(d: Option<A.Datum>): A.Cell {
    if d.Some? then A.Scalar(d.value) else A.Null
  }

  // ---------------------------------------------------------------- values

  /** The cell holds the value. Byte columns take integers as their words. */
  ghost predicate IsCellOf(t: SolType, o: Options, v: SolValue, c: A.Cell)
    decreases t, 0
  {
    match t
    case Bool => v.BoolValue? && c == A.Scalar(A.Bit(v.b))
    case Int(bits) =>
      || (v.IntValue? && v.bits == bits && NumberReads(bits, true, v.i, o, c))
      || (v.UintValue? && v.bits == bits && NumberReads(bits, true, v.u, o, c))
    case Uint(bits) =>
      || (v.IntValue? && v.bits == bits && NumberReads(bits, false, v.i, o, c))
      || (v.UintValue? && v.bits == bits && NumberReads(bits, false, v.u, o, c))
    case FixedBytes(_) => BytesHeld(v, c)
    case Address => BytesHeld(v, c)
    case Bytes => BytesHeld(v, c)
    case String => v.StringValue? && c == A.Scalar(A.Text(v.s))
    case Function => false
    case Array(e) => (v.ArrayValue? || v.FixedArrayValue?) && c.Items? && ItemsHeld(e, o, v.items, c.items)
    case FixedArray(e, n) => v.FixedArrayValue? && |v.items| == n && c.Items? && ItemsHeld(e, o, v.items, c.items)
    case Tuple(fields) =>
      && c.Children? && |c.children| == |fields|
      && (fields != [] ==> v.TupleValue? && FieldsHeld(fields, o, v.items, c.children))
  }

  predicate BytesHeld(v: SolValue, c: A.Cell) {
    && c.Scalar? && c.d.Blob?
    && match v
       case BytesValue(b) => c.d.bytes == b
       case FixedBytesValue(b) => c.d.bytes == b
       case AddressValue(b) => c.d.bytes == b
       case UintValue(u, _) => IsWord(c.d.bytes, u)
       case IntValue(i, _) => IsWord(c.d.bytes, i)
       case _ => false
  }

  ghost predicate ItemsHeld(e: SolType, o: Options, xs: seq<SolValue>, cs: seq<A.Cell>)
    decreases e, 1
  {
    |cs| == |xs| && forall j | 0 <= j < |xs| :: IsCellOf(e, o, xs[j], cs[j])
  }

  ghost predicate FieldsHeld(fields: seq<SolType>, o: Options, xs: seq<SolValue>, cs: seq<A.Cell>)
    decreases fields, 0
  {
    |xs| == |fields| == |cs| && forall k | 0 <= k < |fields| :: IsCellOf(fields[k], o, xs[k], cs[k])
  }

  /** The cell of a missing value: null, for a tuple the missing cells of its fields. */
  predicate Missing(t: SolType, c: A.Cell)
    decreases t, 0
  {
    if t.Tuple? then c.Children? && AllMissing(t.fields, c.children) else c == A.Null
  }

  predicate AllMissing(fields: seq<SolType>, cs: seq<A.Cell>)
    decreases fields, 0
  {
    |cs| == |fields| && forall k | 0 <= k < |fields| :: Missing(fields[k], cs[k])
  }

  ghost predicate RowHeld(t: SolType, o: Options, v: Option<SolValue>, c: A.Cell) {
    if v.Some? then IsCellOf(t, o, v.value, c) else Missing(t, c)
  }

  lemma {:induction false} MissingMeaning(t: SolType, o: Options)
    ensures Missing(t, Meaning(t, o, None))
    decreases t, 0
  {
    if t.Tuple? {
      MissingFields(t.fields, o);
    }
  }

  lemma {:induction false} MissingFields(fields: seq<SolType>, o: Options)
    ensures AllMissing(fields, FieldMeanings(fields, o, None))
    decreases fields, 0
  {
    forall k | 0 <= k < |fields| ensures Missing(fields[k], FieldMeanings(fields, o, None)[k]) {
      MissingMeaning(fields[k], o);
    }
  }

  lemma {:induction false} LeafHeld(t: SolType, o: Options, v: SolValue)
    requires IsLeaf(t) && LeafCell(t, o, Some(v)).Success?
    ensures IsCellOf(t, o, v, Meaning(t, o, Some(v)))
  {
    var c := Meaning(t, o, Some(v));
    match t
    case Int(bits) =>
      NumberCellReads(bits, true, if v.IntValue? then v.i else v.u, o, c);
    case Uint(bits) =>
      NumberCellReads(bits, false, if v.IntValue? then v.i else v.u, o, c);
    case Bytes | Address | FixedBytes(_) =>
      if v.UintValue? {
        WordReads(v.u);
      } else if v.IntValue? {
        WordReads(v.i);
      }
    case _ =>
  }

  // ---------------------------------------------------------------- every row of a column

  ghost predicate AllHeld(t: SolType, o: Options, vals: Rows) {
    forall v | v in vals :: RowHeld(t, o, v, Meaning(t, o, v))
  }

  /** Rows of items: whatever is in the item column is in some row, and the other way round. */
  lemma {:induction false} InConcat(rows: seq<Rows>, i: nat, j: nat)
    requires i < |rows| && j < |rows[i]|
    ensures rows[i][j] in A.Concat(rows)
  {
    A.RowInConcat(rows, i);
    var n := |A.Concat(rows[..i])|;
    assert A.Concat(rows)[n..n + |rows[i]|][j] == A.Concat(rows)[n + j];
  }

  /** A row's items, of which the item column holds all. */
  lemma {:induction false} ListHeld(e: SolType, o: Options, rows: seq<Rows>, i: nat, xs: seq<SolValue>)
    requires i < |rows| && rows[i] == Somes(xs) && AllHeld(e, o, A.Concat(rows))
    ensures ItemsHeld(e, o, xs, ItemMeanings(e, o, xs))
  {
    forall j | 0 <= j < |xs| ensures IsCellOf(e, o, xs[j], ItemMeanings(e, o, xs)[j]) {
      InConcat(rows, i, j);
      assert rows[i][j] == Some(xs[j]);
    }
  }

  /** In a column that was built every row holds its value. */
  lemma {:induction false} MeaningHolds(t: SolType, o: Options, vals: Rows)
    requires ToArrow(t, o, vals).Success?
    ensures AllHeld(t, o, vals)
    decreases t, 1
  {
    MissingMeaning(t, o);
    match t
    case Array(e) =>
      MeaningHolds(e, o, A.Concat(ItemRows(vals)));
      forall v | v in vals && v.Some? ensures IsCellOf(t, o, v.value, Meaning(t, o, v)) {
        var i :| 0 <= i < |vals| && vals[i] == v;
        ListHeld(e, o, ItemRows(vals), i, v.value.items);
      }
    case FixedArray(e, n) =>
      MeaningHolds(e, o, A.Concat(PaddedRows(n, vals)));
      forall v | v in vals && v.Some? ensures IsCellOf(t, o, v.value, Meaning(t, o, v)) {
        var i :| 0 <= i < |vals| && vals[i] == v;
        ListHeld(e, o, PaddedRows(n, vals), i, v.value.items);
      }
    case Tuple(fields) =>
      TupleMeaningHolds(fields, o, vals);
    case Function =>
      assert false;
    case _ =>
      forall v | v in vals && v.Some? ensures IsCellOf(t, o, v.value, Meaning(t, o, v)) {
        LeafHeld(t, o, v.value);
      }
  }

  lemma {:induction false} ColumnsHold(fields: seq<SolType>, k: nat, o: Options, vals: Rows)
    requires ToColumns(fields, k, o, vals).Success?
    ensures forall j | 0 <= j < |fields| :: AllHeld(fields[j], o, ColumnOf(vals, k + j))
    decreases fields, 0
  {
    if fields != [] {
      MeaningHolds(fields[0], o, ColumnOf(vals, k));
      ColumnsHold(fields[1..], k + 1, o, vals);
      forall j | 0 <= j < |fields| ensures AllHeld(fields[j], o, ColumnOf(vals, k + j)) {
        if j > 0 {
          assert fields[j] == fields[1..][j - 1] && k + j == k + 1 + (j - 1);
        }
      }
    }
  }

  lemma {:induction false} TupleMeaningHolds(fields: seq<SolType>, o: Options, vals: Rows)
    requires ToArrow(Tuple(fields), o, vals).Success?
    ensures AllHeld(Tuple(fields), o, vals)
    decreases fields, 1
  {
    MissingMeaning(Tuple(fields), o);
    if fields != [] {
      ColumnsHold(fields, 0, o, vals);
      forall v | v in vals && v.Some? ensures IsCellOf(Tuple(fields), o, v.value, Meaning(Tuple(fields), o, v)) {
        FieldsOfRowHeld(fields, o, vals, v);
      }
    }
  }

  lemma {:induction false} FieldsOfRowHeld(fields: seq<SolType>, o: Options, vals: Rows, v: Option<SolValue>)
    requires TupleRows(|fields|, vals) && v in vals && v.Some?
    requires forall j | 0 <= j < |fields| :: AllHeld(fields[j], o, ColumnOf(vals, 0 + j))
    ensures FieldsHeld(fields, o, v.value.items, FieldMeanings(fields, o, v))
  {
    var i :| 0 <= i < |vals| && vals[i] == v;
    forall j | 0 <= j < |fields| ensures IsCellOf(fields[j], o, v.value.items[j], FieldMeanings(fields, o, v)[j]) {
      assert ColumnOf(vals, 0 + j)[i] in ColumnOf(vals, 0 + j);
    }
  }

  /** What a successful conversion gives: row i holds value i, or is missing where there is none. */
  ghost predicate HoldsRows(t: SolType, o: Options, vals: Rows, a: A.ArrowArray) {
    A.Len(a) == |vals| && forall i | 0 <= i < |vals| :: RowHeld(t, o, vals[i], A.At(a, i))
  }

  /** Every row of a converted column holds its value. */
  lemma {:induction false} ColumnHoldsValues(t: SolType, o: Options, vals: Rows)
    requires ToArrow(t, o, vals).Success?
    ensures HoldsRows(t, o, vals, ToArrow(t, o, vals).value)
  {
    ShreddingIsFaithful(t, o, vals);
    MeaningHolds(t, o, vals);
    forall i | 0 <= i < |vals| ensures RowHeld(t, o, vals[i], A.At(ToArrow(t, o, vals).value, i)) {
      assert vals[i] in vals;
    }
  }

  // ---------------------------------------------------------------- the announced type

  /** The column type of a Solidity type: the smallest native integer, else the decimal or bytes; tuple
      components are numbered from 0. */
  predicate TypeFits(t: SolType, o: Options, ty: A.ArrowType)
    decreases t, 0
  {
    match t
    case Bool => ty == A.Boolean
    case Int(bits) => NumberTypeFits(bits, true, o, ty)
    case Uint(bits) => NumberTypeFits(bits, false, o, ty)
    case FixedBytes(_) => ty == A.Binary
    case Address => ty == A.Binary
    case Bytes => ty == A.Binary
    case String => ty == A.Utf8
    case Function => false
    case Array(e) => ty.List? && TypeFits(e, o, ty.item)
    case FixedArray(e, n) => ty.FixedSizeList? && ty.size == n && TypeFits(e, o, ty.item)
    case Tuple(fields) => ty.Struct? && FieldsFit(fields, 0, o, ty.fields)
  }

  predicate NumberTypeFits(bits: Bits, signed: bool, o: Options, ty: A.ArrowType) {
    if bits <= 64 then
      ty.Number? && ty.signed == signed && ty.bits in {8, 16, 32, 64} && bits <= ty.bits
      && (bits > 8 ==> ty.bits < 2 * bits)
    else if o.largeIntAsBinary then ty == A.Binary
    else ty == if bits <= 128 then A.Decimal128 else A.Decimal256
  }

  predicate FieldsFit(fields: seq<SolType>, k: nat, o: Options, fs: seq<A.ArrowField>)
    decreases fields, 0
  {
    && |fs| == |fields|
    && forall j | 0 <= j < |fields| :: fs[j].name == "param" + Decimal(k + j) && TypeFits(fields[j], o, fs[j].ty)
  }

  /** The announced type is the column type; nothing is announced but for functions and sizes of 2^31. */
  lemma {:induction false} AnnouncedTypeFits(t: SolType, o: Options)
    ensures ToDtype(t, o).Success? ==> TypeFits(t, o, ToDtype(t, o).value)
    decreases t, 0
  {
    match t
    case Array(e) =>
      AnnouncedTypeFits(e, o);
    case FixedArray(e, _) =>
      AnnouncedTypeFits(e, o);
    case Tuple(fields) =>
      AnnouncedFieldsFit(fields, 0, o);
    case _ =>
  }

  lemma {:induction false} AnnouncedFieldsFit(fields: seq<SolType>, k: nat, o: Options)
    ensures FieldDtypes(fields, k, o).Success? ==> FieldsFit(fields, k, o, FieldDtypes(fields, k, o).value)
    decreases fields, 0
  {
    if fields != [] {
      AnnouncedTypeFits(fields[0], o);
      AnnouncedFieldsFit(fields[1..], k + 1, o);
      if FieldDtypes(fields, k, o).Success? {
        var fs := FieldDtypes(fields, k, o).value;
        forall j | 0 <= j < |fields|
          ensures fs[j].name == "param" + Decimal(k + j) && TypeFits(fields[j], o, fs[j].ty)
        {
          if j > 0 {
            var i := j - 1;
            assert fs[j] == fs[1..][i] && fields[j] == fields[1..][i] && k + j == k + 1 + i;
            assert fs[1..] == FieldDtypes(fields[1..], k + 1, o).value;
          }
        }
      }
    }
  }

  /** Types without a column. */
  predicate HasColumn(t: SolType)
    decreases t, 0
  {
    match t
    case Function => false
    case Array(e) => HasColumn(e)
    case FixedArray(e, n) => n <= 0x7fff_ffff && HasColumn(e)
    case Tuple(fields) => forall f | f in fields :: HasColumn(f)
    case _ => true
  }

  lemma {:induction false} AnnouncedIff(t: SolType, o: Options)
    ensures ToDtype(t, o).Success? <==> HasColumn(t)
    decreases t, 0
  {
    match t
    case Array(e) =>
      AnnouncedIff(e, o);
    case FixedArray(e, _) =>
      AnnouncedIff(e, o);
    case Tuple(fields) =>
      FieldsAnnouncedIff(fields, 0, o);
    case _ =>
  }

  lemma {:induction false} FieldsAnnouncedIff(fields: seq<SolType>, k: nat, o: Options)
    ensures FieldDtypes(fields, k, o).Success? <==> forall f | f in fields :: HasColumn(f)
    decreases fields, 0
  {
    if fields != [] {
      AnnouncedIff(fields[0], o);
      FieldsAnnouncedIff(fields[1..], k + 1, o);
    }
  }

  // ---------------------------------------------------------------- what is accepted

  predicate NumberAccepted(bits: Bits, signed: bool, o: Options, v: SolValue) {
    && ((v.IntValue? && v.bits == bits) || (v.UintValue? && v.bits == bits))
    && (bits <= 64 ==> o.allowFail || InNative(bits, signed, if v.IntValue? then v.i else v.u))
  }

  /** Values a column of this type takes. A tuple without components takes anything. */
  predicate Accepts(t: SolType, o: Options, v: SolValue)
    decreases t, 0
  {
    match t
    case Bool => v.BoolValue?
    case Int(bits) => NumberAccepted(bits, true, o, v)
    case Uint(bits) => NumberAccepted(bits, false, o, v)
    case FixedBytes(_) => IsBytes(v)
    case Address => IsBytes(v)
    case Bytes => IsBytes(v)
    case String => v.StringValue?
    case Function => false
    case Array(e) => (v.ArrayValue? || v.FixedArrayValue?) && AllAccepted(e, o, v.items)
    case FixedArray(e, n) => v.FixedArrayValue? && |v.items| == n && AllAccepted(e, o, v.items)
    case Tuple(fields) => fields != [] ==> v.TupleValue? && FieldsAccepted(fields, o, v.items)
  }

  predicate IsBytes(v: SolValue) {
    v.BytesValue? || v.FixedBytesValue? || v.AddressValue? || v.UintValue? || v.IntValue?
  }

  predicate AllAccepted(e: SolType, o: Options, xs: seq<SolValue>)
    decreases e, 1
  {
    forall x | x in xs :: Accepts(e, o, x)
  }

  predicate FieldsAccepted(fields: seq<SolType>, o: Options, xs: seq<SolValue>)
    decreases fields, 0
  {
    |xs| == |fields| && forall k | 0 <= k < |fields| :: Accepts(fields[k], o, xs[k])
  }

  predicate RowsAccepted(t: SolType, o: Options, vals: Rows) {
    forall v | v in vals && v.Some? :: Accepts(t, o, v.value)
  }

  lemma {:induction false} NumberAcceptedIff(bits: Bits, signed: bool, o: Options, v: SolValue)
    ensures IntegerCell(bits, signed, v, o).Success? <==> NumberAccepted(bits, signed, o, v)
  {
    if bits <= 64 && (v.IntValue? || v.UintValue?) {
      NativeRange(bits, signed, if v.IntValue? then v.i else v.u);
    }
  }

  lemma {:induction false} LeafAcceptedIff(t: SolType, o: Options, v: SolValue)
    requires IsLeaf(t)
    ensures LeafCell(t, o, Some(v)).Success? <==> Accepts(t, o, v)
  {
    match t
    case Int(bits) =>
      NumberAcceptedIff(bits, true, o, v);
    case Uint(bits) =>
      NumberAcceptedIff(bits, false, o, v);
    case _ =>
  }

  lemma {:induction false} ConcatMembers(rows: seq<Rows>, x: Option<SolValue>)
    ensures x in A.Concat(rows) <==> exists i :: 0 <= i < |rows| && x in rows[i]
  {
    if rows != [] {
      var n := |rows| - 1;
      ConcatMembers(rows[..n], x);
      if i :| 0 <= i < |rows| && x in rows[i] {
        assert i == n || x in rows[..n][i];
      }
      if i :| 0 <= i < n && x in rows[..n][i] {
        assert x in rows[i];
      }
    }
  }

  /** The item column is accepted iff the items of every row are. */
  lemma {:induction false} ItemsAcceptedIff(e: SolType, o: Options, rows: seq<Rows>)
    ensures RowsAccepted(e, o, A.Concat(rows)) <==> forall i | 0 <= i < |rows| :: RowsAccepted(e, o, rows[i])
  {
    forall x ensures x in A.Concat(rows) <==> exists i :: 0 <= i < |rows| && x in rows[i] {
      ConcatMembers(rows, x);
    }
  }

  lemma {:induction false} ItemsOfAccepted(e: SolType, o: Options, xs: seq<SolValue>)
    ensures RowsAccepted(e, o, Somes(xs)) <==> AllAccepted(e, o, xs)
  {
    forall x | x in xs ensures Some(x) in Somes(xs) {
      var k :| 0 <= k < |xs| && xs[k] == x;
      assert Somes(xs)[k] == Some(x);
    }
  }

  lemma {:induction false} ListRowsAcceptedIff(e: SolType, o: Options, vals: Rows)
    requires ListRows(vals)
    ensures RowsAccepted(e, o, A.Concat(ItemRows(vals))) <==> RowsAccepted(Array(e), o, vals)
  {
    var rows := ItemRows(vals);
    ItemsAcceptedIff(e, o, rows);
    forall i | 0 <= i < |vals|
      ensures RowsAccepted(e, o, rows[i]) <==> (vals[i].Some? ==> Accepts(Array(e), o, vals[i].value))
    {
      assert vals[i] in vals;
      if vals[i].Some? {
        ItemsOfAccepted(e, o, vals[i].value.items);
      }
    }
  }

  lemma {:induction false} FixedRowsAcceptedIff(e: SolType, n: Size, o: Options, vals: Rows)
    requires FixedRows(n, vals)
    ensures RowsAccepted(e, o, A.Concat(PaddedRows(n, vals))) <==> RowsAccepted(FixedArray(e, n), o, vals)
  {
    var rows := PaddedRows(n, vals);
    ItemsAcceptedIff(e, o, rows);
    forall i | 0 <= i < |vals|
      ensures RowsAccepted(e, o, rows[i]) <==> (vals[i].Some? ==> Accepts(FixedArray(e, n), o, vals[i].value))
    {
      assert vals[i] in vals;
      if vals[i].Some? {
        ItemsOfAccepted(e, o, vals[i].value.items);
      }
    }
  }

  /** A column is built iff its type has one and takes every value that is there. */
  lemma {:induction false} ConversionSucceedsIff(t: SolType, o: Options, vals: Rows)
    ensures ToArrow(t, o, vals).Success? <==> HasColumn(t) && RowsAccepted(t, o, vals)
    decreases t, 1
  {
    AnnouncedIff(t, o);
    ConstructionNeverFails(t, o, vals);
    match t
    case Function =>
    case Array(e) =>
      ConversionSucceedsIff(e, o, A.Concat(ItemRows(vals)));
      if ListRows(vals) {
        ListRowsAcceptedIff(e, o, vals);
      }
    case FixedArray(e, n) =>
      ConversionSucceedsIff(e, o, A.Concat(PaddedRows(n, vals)));
      if FixedRows(n, vals) {
        FixedRowsAcceptedIff(e, n, o, vals);
      }
    case Tuple(fields) =>
      if fields != [] {
        TupleSucceedsIff(fields, o, vals);
      }
    case _ =>
      forall v | v in vals && v.Some? ensures LeafCell(t, o, v).Success? <==> Accepts(t, o, v.value) {
        LeafAcceptedIff(t, o, v.value);
      }
  }

  predicate ColumnAccepted(t: SolType, o: Options, vals: Rows) {
    HasColumn(t) && RowsAccepted(t, o, vals)
  }

  predicate ColumnsAccepted(fields: seq<SolType>, k: nat, o: Options, vals: Rows) {
    forall j | 0 <= j < |fields| :: ColumnAccepted(fields[j], o, ColumnOf(vals, k + j))
  }

  lemma {:induction false} ColumnsAcceptedStep(fields: seq<SolType>, k: nat, o: Options, vals: Rows)
    requires fields != []
    ensures ColumnsAccepted(fields, k, o, vals)
       <==> ColumnAccepted(fields[0], o, ColumnOf(vals, k)) && ColumnsAccepted(fields[1..], k + 1, o, vals)
  {
    if ColumnsAccepted(fields, k, o, vals) {
      assert ColumnAccepted(fields[0], o, ColumnOf(vals, k + 0));
      forall i | 0 <= i < |fields[1..]| ensures ColumnAccepted(fields[1..][i], o, ColumnOf(vals, k + 1 + i)) {
        var j := i + 1;
        assert ColumnAccepted(fields[j], o, ColumnOf(vals, k + j));
      }
    }
    if ColumnAccepted(fields[0], o, ColumnOf(vals, k)) && ColumnsAccepted(fields[1..], k + 1, o, vals) {
      forall j | 0 <= j < |fields| ensures ColumnAccepted(fields[j], o, ColumnOf(vals, k + j)) {
        if j > 0 {
          var i := j - 1;
          assert ColumnAccepted(fields[1..][i], o, ColumnOf(vals, k + 1 + i));
        }
      }
    }
  }

  lemma {:induction false} ColumnsSucceedIff(fields: seq<SolType>, k: nat, o: Options, vals: Rows)
    ensures ToColumns(fields, k, o, vals).Success? <==> ColumnsAccepted(fields, k, o, vals)
    decreases fields, 0
  {
    if fields != [] {
      ConversionSucceedsIff(fields[0], o, ColumnOf(vals, k));
      ColumnsSucceedIff(fields[1..], k + 1, o, vals);
      ColumnsAcceptedStep(fields, k, o, vals);
    }
  }

  predicate AllHaveColumns(fields: seq<SolType>) {
    forall f | f in fields :: HasColumn(f)
  }

  /** The columns are accepted iff the tuples are. */
  lemma {:induction false} TupleSucceedsIff(fields: seq<SolType>, o: Options, vals: Rows)
    requires fields != []
    ensures TupleRows(|fields|, vals) && ToColumns(fields, 0, o, vals).Success?
       <==> AllHaveColumns(fields) && RowsAccepted(Tuple(fields), o, vals)
    decreases fields, 1
  {
    ColumnsSucceedIff(fields, 0, o, vals);
    if TupleRows(|fields|, vals) {
      TupleRowsAcceptedIff(fields, o, vals);
    } else {
      var v :| v in vals && v.Some? && !(v.value.TupleValue? && |v.value.items| == |fields|);
      assert !Accepts(Tuple(fields), o, v.value);
    }
  }

  lemma {:induction false} FieldRow(fields: seq<SolType>, o: Options, vals: Rows, v: Option<SolValue>, j: nat)
    requires TupleRows(|fields|, vals) && v in vals && v.Some? && j < |fields|
    requires RowsAccepted(fields[j], o, ColumnOf(vals, 0 + j))
    ensures Accepts(fields[j], o, v.value.items[j])
  {
    var i :| 0 <= i < |vals| && vals[i] == v;
    assert ColumnOf(vals, 0 + j)[i] == Some(v.value.items[j]) && ColumnOf(vals, 0 + j)[i] in ColumnOf(vals, 0 + j);
  }

  lemma {:induction false} RowField(fields: seq<SolType>, o: Options, vals: Rows, x: Option<SolValue>, j: nat)
    requires fields != [] && RowsAccepted(Tuple(fields), o, vals) && j < |fields|
    requires x in ColumnOf(vals, 0 + j) && x.Some?
    ensures Accepts(fields[j], o, x.value)
  {
    var i :| 0 <= i < |vals| && ColumnOf(vals, 0 + j)[i] == x;
    assert vals[i] in vals && vals[i].Some?;
    assert FieldsAccepted(fields, o, vals[i].value.items);
    assert x == Some(vals[i].value.items[j]);
  }

  lemma {:induction false} TupleRowsAcceptedIff(fields: seq<SolType>, o: Options, vals: Rows)
    requires fields != [] && TupleRows(|fields|, vals)
    ensures ColumnsAccepted(fields, 0, o, vals) <==> AllHaveColumns(fields) && RowsAccepted(Tuple(fields), o, vals)
  {
    if ColumnsAccepted(fields, 0, o, vals) {
      forall j | 0 <= j < |fields| ensures HasColumn(fields[j]) && RowsAccepted(fields[j], o, ColumnOf(vals, 0 + j)) {
        assert ColumnAccepted(fields[j], o, ColumnOf(vals, 0 + j));
      }
      forall v | v in vals && v.Some? ensures Accepts(Tuple(fields), o, v.value) {
        forall j | 0 <= j < |fields| ensures Accepts(fields[j], o, v.value.items[j]) {
          FieldRow(fields, o, vals, v, j);
        }
      }
    }
    if AllHaveColumns(fields) && RowsAccepted(Tuple(fields), o, vals) {
      forall j | 0 <= j < |fields| ensures ColumnAccepted(fields[j], o, ColumnOf(vals, 0 + j)) {
        assert fields[j] in fields;
        forall x | x in ColumnOf(vals, 0 + j) && x.Some? ensures Accepts(fields[j], o, x.value) {
          RowField(fields, o, vals, x, j);
        }
      }
    }
  }

  /** Success, type and rows of a column together. */
  lemma {:induction false} ColumnIsAsAnnounced(t: SolType, o: Options, vals: Rows)
    ensures ToArrow(t, o, vals).Success? <==> HasColumn(t) && RowsAccepted(t, o, vals)
    ensures ToArrow(t, o, vals).Success? ==>
              && HoldsRows(t, o, vals, ToArrow(t, o, vals).value)
              && TypeFits(t, o, A.TypeOf(ToArrow(t, o, vals).value))
  {
    ConversionSucceedsIff(t, o, vals);
    if ToArrow(t, o, vals).Success? {
      ShreddingIsFaithful(t, o, vals);
      ColumnHoldsValues(t, o, vals);
      AnnouncedTypeFits(t, o);
    }
  }
}
