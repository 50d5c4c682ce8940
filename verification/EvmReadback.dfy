/** Which ABI-decoded values can be told apart by reading the columns back. */
module EvmReadback {
  import opened Wrappers
  import opened Bytes
  import opened WideInts
  import opened EvmShred
  import A = Arrow

  // ---------------------------------------------------------------- values of a type

  /** What the ABI decoder makes of a type and shredding accepts. The decoder does not check that a word
      stays within the declared width. */
  predicate OfType(t: SolType, o: Options, v: SolValue)
    decreases t, 0
  {
    match t
    case Bool => v.BoolValue?
    case Int(bits) => v.IntValue? && v.bits == bits && NumberCell(bits, true, v.i, o).Success?
    case Uint(bits) => v.UintValue? && v.bits == bits && NumberCell(bits, false, v.u, o).Success?
    case FixedBytes(_) => v.FixedBytesValue?
    case Address => v.AddressValue?
    case Bytes => v.BytesValue?
    case String => v.StringValue?
    case Function => false
    case Array(e) => v.ArrayValue? && AllOfType(e, o, v.items)
    case FixedArray(e, n) => v.FixedArrayValue? && |v.items| == n && AllOfType(e, o, v.items)
    case Tuple(fields) => v.TupleValue? && FieldsOfType(fields, o, v.items)
  }

  predicate AllOfType(e: SolType, o: Options, xs: seq<SolValue>)
    decreases e, 1
  {
    forall x | x in xs :: OfType(e, o, x)
  }

  predicate FieldsOfType(fields: seq<SolType>, o: Options, xs: seq<SolValue>)
    decreases fields, 0
  {
    |xs| == |fields| && forall k | 0 <= k < |fields| :: OfType(fields[k], o, xs[k])
  }

  predicate RowOfType(t: SolType, o: Options, v: Option<SolValue>) {
    v.Some? ==> OfType(t, o, v.value)
  }

  // ---------------------------------------------------------------- what is kept

  /** Integer columns that keep all 256-bit words apart: native ones when overflow is an error, binary
      ones, and decimals of 256 bits. */
  predicate KeepsNumbers(bits: Bits, o: Options) {
    if bits <= 64 then !o.allowFail else o.largeIntAsBinary || bits > 128
  }

  predicate Keeps(t: SolType, o: Options)
    decreases t, 0
  {
    match t
    case Int(bits) => KeepsNumbers(bits, o)
    case Uint(bits) => KeepsNumbers(bits, o)
    case Array(e) => Keeps(e, o)
    case FixedArray(e, _) => Keeps(e, o)
    case Tuple(fields) => AllKept(fields, o)
    case _ => true
  }

  predicate AllKept(fields: seq<SolType>, o: Options)
    decreases fields, 0
  {
    forall f | f in fields :: Keeps(f, o)
  }

  /** A missing row shows: in every type but tuples without a column. */
  predicate Visible(t: SolType)
    decreases t, 0
  {
    t.Tuple? ==> AnyVisible(t.fields)
  }

  predicate AnyVisible(fields: seq<SolType>)
    decreases fields, 0
  {
    exists f | f in fields :: Visible(f)
  }

  // ---------------------------------------------------------------- kept types read back

  lemma {:induction false} WordDetermines(v: int, w: int)
    requires (FitsSigned(v, 32) && FitsSigned(w, 32)) || (FitsUnsigned(v, 32) && FitsUnsigned(w, 32))
    requires Word(v) == Word(w)
    ensures v == w
  {
    BeRoundTrip(Pattern(v, 32), 32);
    BeRoundTrip(Pattern(w, 32), 32);
  }

  lemma {:induction false} Decimal256Determines(v: int, w: int)
    requires InWord(v) && InWord(w) && ToDecimal256(v) == ToDecimal256(w)
    ensures Word(v) == Word(w)
  {
    Be32IsWord(v);
    Be32IsWord(w);
  }

  lemma {:induction false} NumberReadsBack(bits: Bits, signed: bool, v: int, w: int, o: Options)
    requires (FitsSigned(v, 32) && FitsSigned(w, 32)) || (FitsUnsigned(v, 32) && FitsUnsigned(w, 32))
    requires KeepsNumbers(bits, o) && NumberCell(bits, signed, v, o).Success?
    ensures NumberCell(bits, signed, v, o).value.Some?
    ensures NumberCell(bits, signed, v, o) == NumberCell(bits, signed, w, o) ==> v == w
  {
    if bits > 64 && NumberCell(bits, signed, v, o) == NumberCell(bits, signed, w, o) {
      if !o.largeIntAsBinary {
        Decimal256Determines(v, w);
      }
      WordDetermines(v, w);
    }
  }

  lemma {:induction false} IntReadsBack(t: SolType, o: Options, v: SolValue, w: SolValue)
    requires t.Int? && Keeps(t, o) && OfType(t, o, v) && OfType(t, o, w)
    ensures Meaning(t, o, Some(v)).Scalar?
    ensures Meaning(t, o, Some(v)) == Meaning(t, o, Some(w)) ==> v == w
  {
    NumberReadsBack(t.bits, true, v.i, w.i, o);
    NumberReadsBack(t.bits, true, w.i, v.i, o);
  }

  lemma {:induction false} UintReadsBack(t: SolType, o: Options, v: SolValue, w: SolValue)
    requires t.Uint? && Keeps(t, o) && OfType(t, o, v) && OfType(t, o, w)
    ensures Meaning(t, o, Some(v)).Scalar?
    ensures Meaning(t, o, Some(v)) == Meaning(t, o, Some(w)) ==> v == w
  {
    NumberReadsBack(t.bits, false, v.u, w.u, o);
    NumberReadsBack(t.bits, false, w.u, v.u, o);
  }

  lemma {:induction false} LeafReadsBack(t: SolType, o: Options, v: SolValue, w: SolValue)
    requires IsLeaf(t) && Keeps(t, o) && OfType(t, o, v) && OfType(t, o, w)
    ensures Meaning(t, o, Some(v)).Scalar?
    ensures Meaning(t, o, Some(v)) == Meaning(t, o, Some(w)) ==> v == w
  {
    match t
    case Int(_) =>
      IntReadsBack(t, o, v, w);
    case Uint(_) =>
      UintReadsBack(t, o, v, w);
    case _ =>
  }

  /** On a kept type two values that read alike are equal. */
  lemma {:induction false} ReadsBack(t: SolType, o: Options, v: SolValue, w: SolValue)
    requires Keeps(t, o) && OfType(t, o, v) && OfType(t, o, w)
    requires Meaning(t, o, Some(v)) == Meaning(t, o, Some(w))
    ensures v == w
    decreases t, 0
  {
    match t
    case Array(e) =>
      ItemsReadBack(e, o, v.items, w.items);
    case FixedArray(e, _) =>
      ItemsReadBack(e, o, v.items, w.items);
    case Tuple(fields) =>
      FieldsReadBack(fields, o, v, w);
    case _ =>
      LeafReadsBack(t, o, v, w);
  }

  lemma {:induction false} ItemsReadBack(e: SolType, o: Options, xs: seq<SolValue>, ys: seq<SolValue>)
    requires Keeps(e, o) && AllOfType(e, o, xs) && AllOfType(e, o, ys)
    requires ItemMeanings(e, o, xs) == ItemMeanings(e, o, ys)
    ensures xs == ys
    decreases e, 1
  {
    assert |xs| == |ItemMeanings(e, o, xs)| == |ys|;
    forall k | 0 <= k < |xs| ensures xs[k] == ys[k] {
      assert ItemMeanings(e, o, xs)[k] == ItemMeanings(e, o, ys)[k];
      ReadsBack(e, o, xs[k], ys[k]);
    }
  }

  lemma {:induction false} FieldsReadBack(fields: seq<SolType>, o: Options, v: SolValue, w: SolValue)
    requires AllKept(fields, o) && v.TupleValue? && w.TupleValue?
    requires FieldsOfType(fields, o, v.items) && FieldsOfType(fields, o, w.items)
    requires FieldMeanings(fields, o, Some(v)) == FieldMeanings(fields, o, Some(w))
    ensures v == w
    decreases fields, 0
  {
    forall k | 0 <= k < |fields| ensures v.items[k] == w.items[k] {
      assert FieldMeanings(fields, o, Some(v))[k] == FieldMeanings(fields, o, Some(w))[k];
      ReadsBack(fields[k], o, v.items[k], w.items[k]);
    }
    assert v.items == w.items;
  }

  /** Where values are kept, a value reads as a missing row exactly when the type has no column. */
  lemma {:induction false} MissingIffNoColumn(t: SolType, o: Options, v: SolValue)
    requires Keeps(t, o) && OfType(t, o, v)
    ensures Meaning(t, o, Some(v)) == Meaning(t, o, None) <==> !Visible(t)
    decreases t, 0
  {
    match t
    case Array(_) =>
    case FixedArray(_, _) =>
    case Tuple(fields) =>
      MissingFieldsIff(fields, o, v);
    case _ =>
      LeafReadsBack(t, o, v, v);
  }

  lemma {:induction false} MissingFieldsIff(fields: seq<SolType>, o: Options, v: SolValue)
    requires AllKept(fields, o) && v.TupleValue? && FieldsOfType(fields, o, v.items)
    ensures FieldMeanings(fields, o, Some(v)) == FieldMeanings(fields, o, None) <==> !AnyVisible(fields)
    decreases fields, 0
  {
    var mine, missing := FieldMeanings(fields, o, Some(v)), FieldMeanings(fields, o, None);
    forall k | 0 <= k < |fields| ensures mine[k] == missing[k] <==> !Visible(fields[k]) {
      MissingIffNoColumn(fields[k], o, v.items[k]);
    }
    if mine == missing {
      forall f | f in fields ensures !Visible(f) {
        var k :| 0 <= k < |fields| && fields[k] == f;
        assert mine[k] == missing[k];
      }
    }
    if !AnyVisible(fields) {
      assert forall k | 0 <= k < |fields| :: fields[k] in fields;
      assert mine == missing;
    }
  }

  // ---------------------------------------------------------------- other types collide

  /** Some value of the type. */
  function Sample(t: SolType): SolValue
    decreases t, 0
  {
    match t
    case Int(bits) => IntValue(0, bits)
    case Uint(bits) => UintValue(0, bits)
    case FixedBytes(_) => FixedBytesValue([])
    case Address => AddressValue([])
    case Bytes => BytesValue([])
    case String => StringValue("")
    case Array(_) => ArrayValue([])
    case FixedArray(e, n) => FixedArrayValue(seq(n, i => Sample(e)))
    case Tuple(fields) => TupleValue(Samples(fields))
    case _ => BoolValue(false)
  }

  function Samples(fields: seq<SolType>): seq<SolValue>
    decreases fields, 0
  {
    seq(|fields|, k requires 0 <= k < |fields| => Sample(fields[k]))
  }

  lemma {:induction false} FieldDtypeAt(fields: seq<SolType>, from: nat, o: Options, k: nat)
    requires FieldDtypes(fields, from, o).Success? && k < |fields|
    ensures ToDtype(fields[k], o).Success?
  {
    if k > 0 {
      FieldDtypeAt(fields[1..], from + 1, o, k - 1);
    }
  }

  lemma {:induction false} SampleIsOfType(t: SolType, o: Options)
    requires ToDtype(t, o).Success?
    ensures OfType(t, o, Sample(t))
    decreases t, 0
  {
    match t
    case FixedArray(e, _) =>
      SampleIsOfType(e, o);
    case Tuple(fields) =>
      SamplesAreOfType(fields, o);
    case _ =>
  }

  lemma {:induction false} SamplesAreOfType(fields: seq<SolType>, o: Options)
    requires FieldDtypes(fields, 0, o).Success?
    ensures FieldsOfType(fields, o, Samples(fields))
    decreases fields, 0
  {
    forall k | 0 <= k < |fields| ensures OfType(fields[k], o, Samples(fields)[k]) {
      FieldDtypeAt(fields, 0, o, k);
      SampleIsOfType(fields[k], o);
    }
  }

  lemma {:induction false} PowGrows(m: nat, n: nat)
    requires m <= n
    ensures Pow256(m) <= Pow256(n)
  {
    if m < n {
      PowGrows(m, n - 1);
    }
  }

  /** In both ranges of 256-bit integers, with room for one more. */
  predicate InBothRanges(v: nat) {
    FitsSigned(v, 32) && FitsUnsigned(v, 32)
  }

  lemma {:induction false} PowerHasRoom(w: nat, n: nat)
    requires 0 < w < n
    ensures Pow256(w) > 0 && 2 * (Pow256(w) + 1) < Pow256(n)
  {
    PowGrows(1, w);
    PowGrows(w + 1, n);
  }

  lemma {:induction false} PowerInBothRanges(w: nat, v: nat)
    requires 0 < w < 32 && v == Pow256(w)
    ensures InBothRanges(v) && InBothRanges(v + 1)
  {
    PowerHasRoom(w, 32);
  }

  /** A word no native column holds. */
  lemma {:induction false} Overflows(bits: Bits, signed: bool, o: Options, w: nat, v: nat)
    requires bits <= 64 && o.allowFail && NativeBits(bits) / 8 <= w && v >= Pow256(w) && InWord(v)
    ensures NumberCell(bits, signed, v, o) == Success(None)
  {
    PowGrows(NativeBits(bits) / 8, w);
  }

  lemma {:induction false} NoMultipleButZero(m: nat, k: int, d: int)
    requires m > 0 && d == m + k * m && -(m as int) < d < m
    ensures d == 0
  {
    assert m + k * m == (k + 1) * m;
    NoMultipleBetween(m, k + 1);
  }

  lemma {:induction false} LowHalfIsZero(m: nat)
    requires m == Pow256(16) && InWord(m)
    ensures ToDecimal128(m) == 0
  {
    Decimal128IsCongruent(m);
    var k: int :| ToDecimal128(m) == m + k * Pow256(16);
    NoMultipleButZero(m, k, ToDecimal128(m));
  }

  /** Two words with the same low half. */
  lemma {:induction false} HalvesCollide(bits: Bits, signed: bool, o: Options, v: nat)
    requires 64 < bits <= 128 && !o.largeIntAsBinary && InWord(0) && InWord(v)
    requires ToDecimal128(0) == 0 == ToDecimal128(v)
    ensures NumberCell(bits, signed, 0, o) == Success(Some(A.Int(0))) == NumberCell(bits, signed, v, o)
  {
  }

  lemma {:induction false} DecimalOfZero()
    ensures InBothRanges(0) && ToDecimal128(0) == 0
  {
    Decimal128IsExact(0);
  }

  lemma {:induction false} LowHalves() returns (v: nat)
    ensures v > 0 && InBothRanges(0) && InBothRanges(v) && ToDecimal128(0) == 0 == ToDecimal128(v)
  {
    v := Pow256(16);
    PowerInBothRanges(16, v);
    LowHalfIsZero(v);
    DecimalOfZero();
  }

  lemma {:induction false} NumbersCollide(bits: Bits, signed: bool, o: Options) returns (v: nat, w: nat)
    requires !KeepsNumbers(bits, o)
    ensures v != w && InBothRanges(v) && InBothRanges(w)
    ensures NumberCell(bits, signed, v, o).Success? && NumberCell(bits, signed, v, o) == NumberCell(bits, signed, w, o)
  {
    if bits <= 64 {
      v := Pow256(8);
      w := v + 1;
      PowerInBothRanges(8, v);
      Overflows(bits, signed, o, 8, v);
      Overflows(bits, signed, o, 8, w);
    } else {
      w := LowHalves();
      v := 0;
      HalvesCollide(bits, signed, o, w);
    }
  }

  ghost predicate Collide(t: SolType, o: Options, v: SolValue, w: SolValue) {
    v != w && OfType(t, o, v) && OfType(t, o, w) && Meaning(t, o, Some(v)) == Meaning(t, o, Some(w))
  }

  function Copies(n: nat, x: SolValue): seq<SolValue>
  {
    seq(n, i => x)
  }

  lemma {:induction false} ItemsCollide(e: SolType, o: Options, n: nat, x: SolValue, y: SolValue)
    requires n > 0 && Collide(e, o, x, y)
    ensures Copies(n, x) != Copies(n, y) && AllOfType(e, o, Copies(n, x)) && AllOfType(e, o, Copies(n, y))
    ensures ItemMeanings(e, o, Copies(n, x)) == ItemMeanings(e, o, Copies(n, y))
  {
    var xs, ys := Copies(n, x), Copies(n, y);
    assert xs[0] == x && ys[0] == y;
    assert (forall v | v in xs :: v == x) && (forall v | v in ys :: v == y);
    assert |ItemMeanings(e, o, xs)| == n == |ItemMeanings(e, o, ys)|;
  }

  lemma {:induction false} LostNumbersCollide(t: SolType, o: Options) returns (v: SolValue, w: SolValue)
    requires (t.Int? || t.Uint?) && !Keeps(t, o)
    ensures Collide(t, o, v, w)
  {
    var m, n := NumbersCollide(t.bits, t.Int?, o);
    if t.Int? {
      v, w := IntValue(m, t.bits), IntValue(n, t.bits);
    } else {
      v, w := UintValue(m, t.bits), UintValue(n, t.bits);
    }
  }

  /** On any other type two different values read alike. */
  lemma {:induction false} LostValuesCollide(t: SolType, o: Options) returns (v: SolValue, w: SolValue)
    requires ToDtype(t, o).Success? && !Keeps(t, o)
    ensures Collide(t, o, v, w)
    decreases t, 0
  {
    match t
    case Int(_) =>
      v, w := LostNumbersCollide(t, o);
    case Uint(_) =>
      v, w := LostNumbersCollide(t, o);
    case Array(e) =>
      var x, y := LostValuesCollide(e, o);
      ItemsCollide(e, o, 1, x, y);
      v, w := ArrayValue(Copies(1, x)), ArrayValue(Copies(1, y));
    case FixedArray(e, n) =>
      var x, y := LostValuesCollide(e, o);
      ItemsCollide(e, o, n, x, y);
      v, w := FixedArrayValue(Copies(n, x)), FixedArrayValue(Copies(n, y));
    case Tuple(fields) =>
      v, w := LostFieldsCollide(fields, o);
  }

  lemma {:induction false} LostFieldsCollide(fields: seq<SolType>, o: Options) returns (v: SolValue, w: SolValue)
    requires FieldDtypes(fields, 0, o).Success? && !AllKept(fields, o)
    ensures Collide(Tuple(fields), o, v, w)
    decreases fields, 0
  {
    var k :| 0 <= k < |fields| && !Keeps(fields[k], o);
    FieldDtypeAt(fields, 0, o, k);
    var x, y := LostValuesCollide(fields[k], o);
    SamplesAreOfType(fields, o);
    v, w := TupleValue(Samples(fields)[k := x]), TupleValue(Samples(fields)[k := y]);
    assert v.items[k] != w.items[k];
    assert FieldMeanings(fields, o, Some(v)) == FieldMeanings(fields, o, Some(w));
  }

  // ---------------------------------------------------------------- the condition

  /** Rows that read alike are equal, missing ones included. */
  ghost predicate Injective(t: SolType, o: Options) {
    forall v, w | RowOfType(t, o, v) && RowOfType(t, o, w) && Meaning(t, o, v) == Meaning(t, o, w) :: v == w
  }

  /** Columns of a type determine their rows exactly when no integer in it can overflow into a null or be
      cut to a 128-bit decimal, and a missing row shows. */
  lemma {:induction false} InjectiveIffKept(t: SolType, o: Options)
    requires ToDtype(t, o).Success?
    ensures Injective(t, o) <==> Keeps(t, o) && Visible(t)
  {
    if !Keeps(t, o) {
      var v, w := LostValuesCollide(t, o);
      assert RowOfType(t, o, Some(v)) && RowOfType(t, o, Some(w)) && Some(v) != Some(w);
    } else {
      SampleIsOfType(t, o);
      MissingIffNoColumn(t, o, Sample(t));
      assert RowOfType(t, o, None) && RowOfType(t, o, Some(Sample(t)));
      if Visible(t) {
        forall v, w | RowOfType(t, o, v) && RowOfType(t, o, w) && Meaning(t, o, v) == Meaning(t, o, w)
          ensures v == w
        {
          KeptRowsReadBack(t, o, v, w);
        }
      }
    }
  }

  lemma {:induction false} KeptRowsReadBack(t: SolType, o: Options, v: Option<SolValue>, w: Option<SolValue>)
    requires Keeps(t, o) && Visible(t) && RowOfType(t, o, v) && RowOfType(t, o, w)
    requires Meaning(t, o, v) == Meaning(t, o, w)
    ensures v == w
  {
    if v.Some? && w.Some? {
      ReadsBack(t, o, v.value, w.value);
    } else if v.Some? {
      MissingIffNoColumn(t, o, v.value);
    } else if w.Some? {
      MissingIffNoColumn(t, o, w.value);
    }
  }

  /** Equal columns of such a type come from equal rows. */
  lemma {:induction false} ColumnsDetermineRows(t: SolType, o: Options, vals: Rows, others: Rows)
    requires Keeps(t, o) && Visible(t)
    requires (forall v | v in vals :: RowOfType(t, o, v)) && (forall v | v in others :: RowOfType(t, o, v))
    requires ToArrow(t, o, vals).Success? && ToArrow(t, o, vals) == ToArrow(t, o, others)
    ensures vals == others
  {
    ShreddingIsFaithful(t, o, vals);
    ShreddingIsFaithful(t, o, others);
    forall i | 0 <= i < |vals| ensures vals[i] == others[i] {
      assert vals[i] in vals && others[i] in others;
      KeptRowsReadBack(t, o, vals[i], others[i]);
    }
  }
}
