/** 128- and 256-bit integers between ABI words, Arrow decimals and binary columns. */
module WideInts {
  import opened Wrappers
  import opened Bytes

  // ---------------------------------------------------------------- positional notation

  lemma {:induction false} PowAdd(m: nat, n: nat)
    ensures Pow256(m + n) == Pow256(m) * Pow256(n)
  {
    if n > 0 {
      PowAdd(m, n - 1);
    }
  }

  /** The value of a concatenation. */
  lemma {:induction false} FromBeConcat(a: seq<byte>, b: seq<byte>)
    ensures FromBe(a + b) == FromBe(a) * Pow256(|b|) + FromBe(b)
  {
    if b == [] {
      assert a + b == a;
    } else {
      var n := |b| - 1;
      FromBeConcat(a, b[..n]);
      assert (a + b)[..|a + b| - 1] == a + b[..n];
      assert FromBe(a + b) == 256 * FromBe(a + b[..n]) + b[n];
      Shifted(FromBe(a), Pow256(n), FromBe(b[..n]), b[n]);
    }
  }

  lemma {:induction false} Shifted(a: nat, p: nat, b: nat, x: nat)
    ensures 256 * (a * p + b) + x == a * (256 * p) + (256 * b + x)
  {
  }

  function Repeat(b: byte, n: nat): seq<byte>
  {
    seq(n, i => b)
  }

  lemma {:induction false} ZeroBytes(n: nat)
    ensures ToBe(0, n) == Repeat(0, n) && FromBe(Repeat(0, n)) == 0
  {
    if n > 0 {
      ZeroBytes(n - 1);
      assert Repeat(0, n)[..n - 1] == Repeat(0, n - 1);
    }
  }

  lemma {:induction false} FullBytes(n: nat)
    ensures ToBe(Pow256(n) - 1, n) == Repeat(255, n)
  {
    if n > 0 {
      FullBytes(n - 1);
      assert (Pow256(n) - 1) / 256 == Pow256(n - 1) - 1;
    }
  }

  /** Quotient and remainder by m are determined by the value. */
  lemma {:induction false} SameParts(m: nat, a: int, x: int, b: int, y: int)
    requires 0 <= x < m && 0 <= y < m && a * m + x == b * m + y
    ensures a == b && x == y
  {
    assert (a - b) * m == y - x;
    NoMultipleBetween(m, a - b);
  }

  lemma {:induction false} NoMultipleBetween(m: nat, k: int)
    requires -(m as int) < k * m < m
    ensures k == 0
  {
    if k >= 1 {
    } else if k <= -1 {
    }
  }

  // ---------------------------------------------------------------- decimals of ABI words

  /** Values of `intN` are signed 256-bit, values of `uintN` unsigned. */
  predicate InWord(v: int) {
    FitsSigned(v, 32) || FitsUnsigned(v, 32)
  }

  /** The 32-byte word `to_binary_from_int_word` emits. */
  function Word(v: int): (r: seq<byte>)
    requires InWord(v)
    ensures |r| == 32
  {
    ToBe(Pattern(v, 32), 32)
  }

  /** `to_decimal128`: the low half of the word, read as i128. */
  function ToDecimal128(v: int): int
    requires InWord(v)
  {
    Signed(FromBe(Word(v)[16..]), 16)
  }

  /** `to_decimal256`: the word, read as i256. */
  function ToDecimal256(v: int): int
    requires InWord(v)
  {
    Signed(FromBe(Word(v)), 32)
  }

  /** One row of `decimal128_to_be16`. */
  function Be16(d: int): (r: seq<byte>)
    requires FitsSigned(d, 16)
    ensures |r| == 16
  {
    ToBe(Pattern(d, 16), 16)
  }

  /** One row of `decimal256_to_be32`. */
  function Be32(d: int): (r: seq<byte>)
    requires FitsSigned(d, 32)
    ensures |r| == 32
  {
    ToBe(Pattern(d, 32), 32)
  }

  /** High and low half of a number of 2n bytes. */
  lemma {:induction false} HalvesOf(p: nat, n: nat)
    requires p < Pow256(n + n)
    ensures var w := ToBe(p, n + n);
            && p == FromBe(w[..n]) * Pow256(n) + FromBe(w[n..])
            && FromBe(w[..n]) < Pow256(n) && FromBe(w[n..]) < Pow256(n)
  {
    var w := ToBe(p, n + n);
    var high, low := w[..n], w[n..];
    assert |high| == n && |low| == n;
    assert high + low == w;
    assert FromBe(w) == p by {
      BeRoundTrip(p, n + n);
    }
    JoinedHalves(high, low);
  }

  lemma {:induction false} JoinedHalves(high: seq<byte>, low: seq<byte>)
    ensures FromBe(high + low) == FromBe(high) * Pow256(|low|) + FromBe(low)
    ensures FromBe(high) < Pow256(|high|) && FromBe(low) < Pow256(|low|)
  {
    FromBeConcat(high, low);
    BeIsOnto(high);
    BeIsOnto(low);
  }

  lemma {:induction false} SmallHighHalf(p: nat, n: nat)
    requires p < Pow256(n) && p < Pow256(n + n)
    ensures ToBe(p, n + n)[..n] == Repeat(0, n)
  {
    var w := ToBe(p, n + n);
    HalvesOf(p, n);
    BeIsOnto(w[..n]);
    SameParts(Pow256(n), FromBe(w[..n]), FromBe(w[n..]), 0, p);
    ZeroBytes(n);
  }

  lemma {:induction false} Borrow(m: nat, v: int)
    ensures (m - 1) * m + (m + v) == m * m + v
  {
  }

  lemma {:induction false} NegativeHighHalf(v: int, n: nat)
    requires v < 0 && FitsSigned(v, n) && 0 <= v + Pow256(n + n)
    ensures ToBe(v + Pow256(n + n), n + n)[..n] == Repeat(255, n)
  {
    var m, p := Pow256(n), v + Pow256(n + n);
    var w := ToBe(p, n + n);
    PowAdd(n, n);
    HalvesOf(p, n);
    BeIsOnto(w[..n]);
    Borrow(m, v);
    SameParts(m, FromBe(w[..n]), FromBe(w[n..]), m - 1, m + v);
    FullBytes(n);
  }

  lemma {:induction false} CarryOut(h: int, m: nat, l: int, v: int)
    requires h * m + l == v || h * m + l == v + m * m
    ensures exists k: int :: l == v + k * m
  {
    if h * m + l == v {
      assert l == v + (-h) * m;
    } else {
      assert l == v + (m - h) * m;
    }
  }

  lemma {:induction false} LowHalfIsCongruent(v: int, n: nat)
    requires FitsSigned(v, n + n) || FitsUnsigned(v, n + n)
    ensures exists k: int :: FromBe(ToBe(Pattern(v, n + n), n + n)[n..]) == v + k * Pow256(n)
  {
    var p := Pattern(v, n + n);
    var w := ToBe(p, n + n);
    HalvesOf(p, n);
    PowAdd(n, n);
    CarryOut(FromBe(w[..n]), Pow256(n), FromBe(w[n..]), v);
  }

  lemma {:induction false} SignedIsCongruent(u: nat, n: nat, v: int, k: int)
    requires u < Pow256(n) && u == v + k * Pow256(n)
    ensures FitsSigned(Signed(u, n), n)
    ensures exists j: int :: Signed(u, n) == v + j * Pow256(n)
  {
    if Signed(u, n) == u {
    } else {
      assert Signed(u, n) == v + (k - 1) * Pow256(n);
    }
  }

  /** The decimal of any value is congruent to it modulo 2^128. */
  lemma {:induction false} Decimal128IsCongruent(v: int)
    requires InWord(v)
    ensures FitsSigned(ToDecimal128(v), 16)
    ensures exists k: int :: ToDecimal128(v) == v + k * Pow256(16)
  {
    LowHalfIsCongruent(v, 16);
    var low := Word(v)[16..];
    BeIsOnto(low);
    var k: int :| FromBe(low) == v + k * Pow256(16);
    SignedIsCongruent(FromBe(low), 16, v, k);
  }

  /** The decimal is the value itself exactly when that fits i128: all of `intN` and `uintM` for
      N <= 128 and M < 128, and the `uint128` below 2^127. */
  lemma {:induction false} Decimal128IsExact(v: int)
    requires InWord(v)
    ensures ToDecimal128(v) == v <==> FitsSigned(v, 16)
  {
    Decimal128IsCongruent(v);
    var m := Pow256(16);
    var k: int :| ToDecimal128(v) == v + k * m;
    if FitsSigned(v, 16) {
      NoMultipleBetween(m, k);
    }
  }

  lemma {:induction false} Decimal256IsExact(v: int)
    requires InWord(v)
    ensures FitsSigned(ToDecimal256(v), 32)
    ensures ToDecimal256(v) == v <==> FitsSigned(v, 32)
  {
    BeRoundTrip(Pattern(v, 32), 32);
    PatternOfSigned(Pattern(v, 32), 32);
  }

  /** The 32-byte form of the decimal is the word. */
  lemma {:induction false} Be32IsWord(v: int)
    requires InWord(v)
    ensures FitsSigned(ToDecimal256(v), 32) && Be32(ToDecimal256(v)) == Word(v)
  {
    BeIsOnto(Word(v));
    PatternOfSigned(FromBe(Word(v)), 32);
  }

  /** The 16-byte form of the decimal is the last 16 bytes of the word, not the word; the bytes before it
      repeat the sign of a value that fits i128, and are zero for every value of `uint128`. */
  lemma {:induction false} Be16IsLowHalf(v: int)
    requires InWord(v)
    ensures FitsSigned(ToDecimal128(v), 16) && Be16(ToDecimal128(v)) == Word(v)[16..] != Word(v)
    ensures FitsSigned(v, 16) ==> Word(v)[..16] == Repeat(if v < 0 then 255 else 0, 16)
    ensures FitsUnsigned(v, 16) ==> Word(v)[..16] == Repeat(0, 16)
  {
    var low := Word(v)[16..];
    BeIsOnto(low);
    PatternOfSigned(FromBe(low), 16);
    HighHalf(v);
  }

  lemma {:induction false} SquareIsLarger(m: nat)
    requires m > 0
    ensures m * m >= m
  {
  }

  lemma {:induction false} HighHalfAt(v: int, n: nat)
    requires FitsSigned(v, n) || FitsUnsigned(v, n)
    ensures 0 <= v + Pow256(n + n) && Pattern(v, n + n) < Pow256(n + n)
    ensures ToBe(Pattern(v, n + n), n + n)[..n] == Repeat(if v < 0 then 255 else 0, n)
  {
    PowAdd(n, n);
    SquareIsLarger(Pow256(n));
    if v >= 0 {
      SmallHighHalf(v, n);
    } else {
      NegativeHighHalf(v, n);
    }
  }

  lemma {:induction false} HighHalf(v: int)
    requires InWord(v)
    ensures FitsSigned(v, 16) ==> Word(v)[..16] == Repeat(if v < 0 then 255 else 0, 16)
    ensures FitsUnsigned(v, 16) ==> Word(v)[..16] == Repeat(0, 16)
  {
    if FitsSigned(v, 16) || FitsUnsigned(v, 16) {
      HighHalfAt(v, 16);
    }
  }

  // ---------------------------------------------------------------- u256 columns

  /** Without leading zero bytes. */
  function Trim(b: seq<byte>): seq<byte> {
    if b == [] || b[0] != 0 then b else Trim(b[1..])
  }

  /** One row of `u256_column_from_binary`: at most 32 bytes, below 2^255. */
  function FromBinary(b: seq<byte>): Result<int> {
    if |b| <= 32 && FitsSigned(FromBe(b), 32) then Success(FromBe(b)) else Failure
  }

  /** One row of `u256_column_to_binary`: non-negative values, trimmed. */
  function ToBinary(d: int): Result<seq<byte>>
    requires FitsSigned(d, 32)
  {
    if d < 0 then Failure else Success(Trim(ToBe(d, 32)))
  }

  lemma {:induction false} TrimKeepsValue(b: seq<byte>)
    ensures FromBe(Trim(b)) == FromBe(b) && |Trim(b)| <= |b|
    ensures Trim(b) != [] ==> Trim(b)[0] != 0
  {
    if b != [] && b[0] == 0 {
      TrimKeepsValue(b[1..]);
      FromBeConcat([0], b[1..]);
      assert [0] + b[1..] == b && FromBe([0]) == 256 * FromBe([0][..0]) + 0;
      assert FromBe(b) == 0 * Pow256(|b[1..]|) + FromBe(b[1..]);
    }
  }

  lemma {:induction false} TrimZeros(n: nat, b: seq<byte>)
    ensures Trim(Repeat(0, n) + b) == Trim(b)
  {
    if n == 0 {
      assert Repeat(0, n) + b == b;
    } else {
      assert (Repeat(0, n) + b)[1..] == Repeat(0, n - 1) + b;
      TrimZeros(n - 1, b);
    }
  }

  lemma {:induction false} Padded(b: seq<byte>, w: nat)
    requires |b| <= w
    ensures ToBe(FromBe(b), w) == Repeat(0, w - |b|) + b
  {
    var p := Repeat(0, w - |b|) + b;
    ZeroBytes(w - |b|);
    FromBeConcat(Repeat(0, w - |b|), b);
    assert FromBe(p) == 0 * Pow256(|b|) + FromBe(b);
    BeIsOnto(p);
  }

  /** Decimals survive the trip through binary, and exactly the negative ones are refused. */
  lemma {:induction false} DecimalRoundTrip(d: int)
    requires FitsSigned(d, 32)
    ensures ToBinary(d).Success? <==> d >= 0
    ensures d >= 0 ==> FromBinary(ToBinary(d).value) == Success(d)
    ensures d > 0 ==> ToBinary(d).value != [] && ToBinary(d).value[0] != 0
  {
    if d >= 0 {
      BeRoundTrip(d, 32);
      TrimKeepsValue(ToBe(d, 32));
    }
  }

  /** Binary survives up to its leading zeros. */
  lemma {:induction false} BinaryRoundTrip(b: seq<byte>)
    requires FromBinary(b).Success?
    ensures FitsSigned(FromBinary(b).value, 32) && ToBinary(FromBinary(b).value) == Success(Trim(b))
  {
    Padded(b, 32);
    TrimZeros(32 - |b|, b);
  }

  // ---------------------------------------------------------------- column loops

  type BinaryColumn = seq<Option<seq<byte>>>

  type DecimalColumn = seq<Option<int>>

  predicate AllFit(col: DecimalColumn, w: nat) {
    forall d | d in col && d.Some? :: FitsSigned(d.value, w)
  }

  /** One slot of `u256_column_from_binary`; nulls stay. */
  function DecimalOf(b: Option<seq<byte>>): (r: Result<Option<int>>)
    ensures r.Success? <==> b.Some? ==> FromBinary(b.value).Success?
    ensures r.Success? && r.value.Some? ==> FitsSigned(r.value.value, 32)
  {
    if b.None? then Success(None)
    else if FromBinary(b.value).Failure? then Failure
    else Success(Some(FromBinary(b.value).value))
  }

  method U256ColumnFromBinary(col: BinaryColumn) returns (r: Result<DecimalColumn>)
    ensures r.Success? <==> forall v | v in col && v.Some? :: FromBinary(v.value).Success?
    ensures r.Success? ==> |r.value| == |col| && AllFit(r.value, 32)
    ensures r.Success? ==> forall i | 0 <= i < |col| ::
                             r.value[i] == if col[i].Some? then Some(FromBinary(col[i].value).value) else None
  {
    var arr := [];
    for i := 0 to |col|
      invariant |arr| == i
      invariant forall j | 0 <= j < i :: DecimalOf(col[j]) == Success(arr[j])
    {
      var v := DecimalOf(col[i]);
      if v.Failure? {
        assert col[i] in col;
        return Failure;
      }
      arr := arr + [v.value];
    }
    return Success(arr);
  }

  method U256ColumnToBinary(col: DecimalColumn) returns (r: Result<BinaryColumn>)
    requires AllFit(col, 32)
    ensures r.Success? <==> forall v | v in col && v.Some? :: v.value >= 0
    ensures r.Success? ==> |r.value| == |col|
    ensures r.Success? ==> forall i | 0 <= i < |col| ::
                             r.value[i] == if col[i].Some? then Some(Trim(ToBe(col[i].value, 32))) else None
  {
    var arr := [];
    for i := 0 to |col|
      invariant |arr| == i
      invariant forall v | v in col[..i] && v.Some? :: v.value >= 0
      invariant forall j | 0 <= j < i :: arr[j] == if col[j].Some? then Some(Trim(ToBe(col[j].value, 32))) else None
    {
      assert col[i] in col && col[..i + 1] == col[..i] + [col[i]];
      if col[i].Some? {
        var v := ToBinary(col[i].value);
        if v.Failure? {
          return Failure;
        }
        arr := arr + [Some(v.value)];
      } else {
        arr := arr + [None];
      }
    }
    assert col[..|col|] == col;
    return Success(arr);
  }

  method Decimal256ToBe32(col: DecimalColumn) returns (arr: BinaryColumn)
    requires AllFit(col, 32)
    ensures |arr| == |col|
    ensures forall i | 0 <= i < |col| :: arr[i] == if col[i].Some? then Some(Be32(col[i].value)) else None
  {
    arr := [];
    for i := 0 to |col|
      invariant |arr| == i
      invariant forall j | 0 <= j < i :: arr[j] == if col[j].Some? then Some(Be32(col[j].value)) else None
    {
      assert col[i] in col;
      arr := arr + [if col[i].Some? then Some(Be32(col[i].value)) else None];
    }
  }

  method Decimal128ToBe16(col: DecimalColumn) returns (arr: BinaryColumn)
    requires AllFit(col, 16)
    ensures |arr| == |col|
    ensures forall i | 0 <= i < |col| :: arr[i] == if col[i].Some? then Some(Be16(col[i].value)) else None
  {
    arr := [];
    for i := 0 to |col|
      invariant |arr| == i
      invariant forall j | 0 <= j < i :: arr[j] == if col[j].Some? then Some(Be16(col[j].value)) else None
    {
      assert col[i] in col;
      arr := arr + [if col[i].Some? then Some(Be16(col[i].value)) else None];
    }
  }
}
