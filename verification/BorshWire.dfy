/** What stands on the wire for a value, byte by byte, and that the decoder reads exactly that. */
module BorshWire {
  import opened Wrappers
  import opened Bytes
  import opened DynTypes
  import opened Borsh

  // ---------------------------------------------------------------- little-endian integers

  function Le16(b: seq<byte>): nat
    requires |b| == 2
  {
    var low: nat, high: nat := b[0], b[1];
    low + 0x100 * high
  }

  function Le32(b: seq<byte>): nat
    requires |b| == 4
  {
    Le16(b[..2]) + 0x1_0000 * Le16(b[2..])
  }

  function Le64(b: seq<byte>): nat
    requires |b| == 8
  {
    Le32(b[..4]) + 0x1_0000_0000 * Le32(b[4..])
  }

  function Le128(b: seq<byte>): nat
    requires |b| == 16
  {
    Le64(b[..8]) + 0x1_0000_0000_0000_0000 * Le64(b[8..])
  }

  /** n in two's complement is u, below m. */
  predicate TwosComplement(n: int, u: nat, m: nat) {
    n == if u < m / 2 then u else u - m
  }

  predicate NumberOnWire(k: IntKind, n: int, b: seq<byte>) {
    match k
    case U8 => |b| == 1 && n == b[0]
    case I8 => |b| == 1 && TwosComplement(n, b[0], 0x100)
    case U16 => |b| == 2 && n == Le16(b)
    case I16 => |b| == 2 && TwosComplement(n, Le16(b), 0x1_0000)
    case U32 => |b| == 4 && n == Le32(b)
    case I32 => |b| == 4 && TwosComplement(n, Le32(b), 0x1_0000_0000)
    case U64 => |b| == 8 && n == Le64(b)
    case I64 => |b| == 8 && TwosComplement(n, Le64(b), 0x1_0000_0000_0000_0000)
    case U128 => |b| == 16 && n == Le128(b)
    case I128 => |b| == 16 && TwosComplement(n, Le128(b), 0x1_0000_0000_0000_0000_0000_0000_0000_0000)
  }

  lemma {:induction false} PowersOf256()
    ensures Pow256(1) == 0x100 && Pow256(2) == 0x1_0000 && Pow256(4) == 0x1_0000_0000
    ensures Pow256(8) == 0x1_0000_0000_0000_0000
    ensures Pow256(16) == 0x1_0000_0000_0000_0000_0000_0000_0000_0000
  {
  }

  lemma {:induction false} FromLeConcat(a: seq<byte>, b: seq<byte>)
    ensures FromLe(a + b) == FromLe(a) + Pow256(|a|) * FromLe(b)
  {
    if a == [] {
      assert a + b == b;
    } else {
      assert (a + b)[1..] == a[1..] + b;
      FromLeConcat(a[1..], b);
      Scaled(a[0], FromLe(a[1..]), Pow256(|a| - 1), FromLe(b));
    }
  }

  lemma {:induction false} Scaled(x: nat, y: nat, p: nat, z: nat)
    ensures x + 256 * (y + p * z) == x + 256 * y + 256 * p * z
  {
  }

  lemma {:induction false} Halved(b: seq<byte>, n: nat)
    requires n <= |b|
    ensures FromLe(b) == FromLe(b[..n]) + Pow256(n) * FromLe(b[n..])
  {
    FromLeConcat(b[..n], b[n..]);
    assert b[..n] + b[n..] == b;
  }

  lemma {:induction false} OneByte(b: seq<byte>)
    requires |b| == 1
    ensures FromLe(b) == b[0]
  {
    assert b[1..] == [];
  }

  lemma {:induction false} TwoBytes(b: seq<byte>)
    requires |b| == 2
    ensures FromLe(b) == Le16(b)
  {
    OneByte(b[1..]);
  }

  lemma {:induction false} FourBytes(b: seq<byte>)
    requires |b| == 4
    ensures FromLe(b) == Le32(b)
  {
    PowersOf256();
    Halved(b, 2);
    TwoBytes(b[..2]);
    TwoBytes(b[2..]);
  }

  lemma {:induction false} EightBytes(b: seq<byte>)
    requires |b| == 8
    ensures FromLe(b) == Le64(b)
  {
    PowersOf256();
    Halved(b, 4);
    FourBytes(b[..4]);
    FourBytes(b[4..]);
  }

  lemma {:induction false} SixteenBytes(b: seq<byte>)
    requires |b| == 16
    ensures FromLe(b) == Le128(b)
  {
    PowersOf256();
    Halved(b, 8);
    EightBytes(b[..8]);
    EightBytes(b[8..]);
  }

  /** The decoder takes the bytes of an integer and reads its value. */
  lemma {:induction false} NumberReads(k: IntKind, d: seq<byte>)
    ensures DecodeNumber(k, d).Success? <==> |d| >= Width(k)
    ensures DecodeNumber(k, d).Success? ==>
              && DecodeNumber(k, d).value.value.Num? && DecodeNumber(k, d).value.value.kind == k
              && DecodeNumber(k, d).value.rest == d[Width(k)..]
              && NumberOnWire(k, DecodeNumber(k, d).value.value.n, d[..Width(k)])
  {
    if |d| >= Width(k) {
      var b := d[..Width(k)];
      PowersOf256();
      match k
      case I8 | U8 => OneByte(b);
      case I16 | U16 => TwoBytes(b);
      case I32 | U32 => FourBytes(b);
      case I64 | U64 => EightBytes(b);
      case I128 | U128 => SixteenBytes(b);
    }
  }

  /** The range of each kind. */
  predicate NativeRange(k: IntKind, n: int) {
    match k
    case U8 => 0 <= n < 0x100
    case I8 => -0x80 <= n < 0x80
    case U16 => 0 <= n < 0x1_0000
    case I16 => -0x8000 <= n < 0x8000
    case U32 => 0 <= n < 0x1_0000_0000
    case I32 => -0x8000_0000 <= n < 0x8000_0000
    case U64 => 0 <= n < 0x1_0000_0000_0000_0000
    case I64 => -0x8000_0000_0000_0000 <= n < 0x8000_0000_0000_0000
    case U128 => 0 <= n < 0x1_0000_0000_0000_0000_0000_0000_0000_0000
    case I128 => -0x8000_0000_0000_0000_0000_0000_0000_0000 <= n < 0x8000_0000_0000_0000_0000_0000_0000_0000
  }

  /** The values of each kind are those of its native type. */
  lemma {:induction false} RangesAreNative(k: IntKind, n: int)
    ensures InRange(k, n) <==> NativeRange(k, n)
  {
    PowersOf256();
  }

  // ---------------------------------------------------------------- values

  /** b is the value, and nothing else. */
  ghost predicate OnWire(t: DynType, v: DynValue, b: seq<byte>)
    decreases t, 0, 0
  {
    match t
    case Prim(k) => v.Num? && v.kind == k && NumberOnWire(k, v.n, b)
    case Boolean => v.Bool? && |b| == 1 && (v.b <==> b[0] != 0)
    case FixedArray(e, n) => (e.Prim? || e.Boolean?) && v.Arr? && |v.elems| == n && ManyOnWire(e, v.elems, b)
    case Array(e) => v.Arr? && |b| >= 4 && |v.elems| == Le32(b[..4]) && ManyOnWire(e, v.elems, b[4..])
    case Struct(fields) => v.Record? && FieldsOnWire(fields, v.fields, b)
    case Enum(variants) =>
      && v.Chosen? && b != [] && b[0] < |variants| && v.name == variants[b[0]].name
      && (if variants[b[0]].payload.None? then v.payload.None? && |b| == 1
          else v.payload.Some? && OnWire(variants[b[0]].payload.value, v.payload.value, b[1..]))
    case Opt(e) =>
      v.Maybe? && if v.inner.None? then b == [0] else b != [] && b[0] == 1 && OnWire(e, v.inner.value, b[1..])
  }

  function Joined(parts: seq<seq<byte>>): seq<byte> {
    if parts == [] then [] else parts[0] + Joined(parts[1..])
  }

  /** The values one behind the other. */
  ghost predicate ManyOnWire(t: DynType, vs: seq<DynValue>, b: seq<byte>)
    decreases t, 2, |vs|
  {
    exists parts :: EachOnWire(t, vs, parts) && Joined(parts) == b
  }

  ghost predicate EachOnWire(t: DynType, vs: seq<DynValue>, parts: seq<seq<byte>>)
    decreases t, 1, |vs|
  {
    if vs == [] then parts == []
    else parts != [] && OnWire(t, vs[0], parts[0]) && EachOnWire(t, vs[1..], parts[1..])
  }

  ghost predicate FieldsOnWire(fields: seq<NamedType>, vs: seq<NamedValue>, b: seq<byte>)
    decreases fields, 1, 0
  {
    exists parts :: EachFieldOnWire(fields, vs, parts) && Joined(parts) == b
  }

  ghost predicate EachFieldOnWire(fields: seq<NamedType>, vs: seq<NamedValue>, parts: seq<seq<byte>>)
    decreases fields, 0, 0
  {
    if fields == [] then vs == [] && parts == []
    else
      && vs != [] && parts != [] && vs[0].name == fields[0].name && OnWire(fields[0].ty, vs[0].value, parts[0])
      && EachFieldOnWire(fields[1..], vs[1..], parts[1..])
  }

  lemma {:induction false} FixedElements(e: DynType)
    ensures TypeSize(e).Some? <==> e.Prim? || e.Boolean?
  {
  }

  /** The decoder reads any bytes that stand for a value as that value, whatever follows. */
  lemma {:induction false} WireDecodes(t: DynType, v: DynValue, b: seq<byte>, rest: seq<byte>)
    ensures OnWire(t, v, b) ==> Decode(t, b + rest) == Success(Parsed(v, rest))
    decreases t, 0, 0
  {
    if OnWire(t, v, b) {
      var d := b + rest;
      match t
      case Prim(k) =>
        NumberWireDecodes(k, v.n, b, rest);
      case Boolean =>
        assert d[1..] == rest;
      case FixedArray(e, n) =>
        ManyWireDecodes(e, v.elems, b, rest);
      case Array(e) =>
        assert d[..4] == b[..4] && d[4..] == b[4..] + rest;
        FourBytes(b[..4]);
        ManyWireDecodes(e, v.elems, b[4..], rest);
      case Struct(fields) =>
        FieldsWireDecode(fields, v.fields, b, rest);
      case Enum(variants) =>
        assert d[1..] == b[1..] + rest;
        if v.payload.Some? {
          WireDecodes(variants[b[0]].payload.value, v.payload.value, b[1..], rest);
        } else {
          assert d[1..] == rest;
        }
      case Opt(e) =>
        assert d[1..] == b[1..] + rest;
        if v.inner.Some? {
          WireDecodes(e, v.inner.value, b[1..], rest);
        } else {
          assert d[1..] == rest;
        }
    }
  }

  lemma {:induction false} NumberWireDecodes(k: IntKind, n: int, b: seq<byte>, rest: seq<byte>)
    requires NumberOnWire(k, n, b)
    ensures DecodeNumber(k, b + rest) == Success(Parsed(Num(k, n), rest))
  {
    NumberReads(k, b + rest);
    assert |b| == Width(k) && (b + rest)[..Width(k)] == b && (b + rest)[Width(k)..] == rest;
    SameNumber(k, n, DecodeNumber(k, b + rest).value.value.n, b);
  }

  lemma {:induction false} SameNumber(k: IntKind, m: int, n: int, b: seq<byte>)
    requires NumberOnWire(k, m, b) && NumberOnWire(k, n, b)
    ensures m == n
  {
  }

  lemma {:induction false} ManyWireDecodes(t: DynType, vs: seq<DynValue>, b: seq<byte>, rest: seq<byte>)
    requires ManyOnWire(t, vs, b)
    ensures DecodeMany(t, |vs|, b + rest) == Success(Parsed(vs, rest))
    decreases t, 2, 0
  {
    var parts :| EachOnWire(t, vs, parts) && Joined(parts) == b;
    PartsDecode(t, vs, parts, rest);
  }

  lemma {:induction false} OneMoreDecoded(t: DynType, vs: seq<DynValue>, d: seq<byte>, mid: seq<byte>, rest: seq<byte>)
    requires vs != [] && Decode(t, d) == Success(Parsed(vs[0], mid))
    requires DecodeMany(t, |vs| - 1, mid) == Success(Parsed(vs[1..], rest))
    ensures DecodeMany(t, |vs|, d) == Success(Parsed(vs, rest))
  {
    assert vs == [vs[0]] + vs[1..];
  }

  lemma {:induction false} PartsDecode(t: DynType, vs: seq<DynValue>, parts: seq<seq<byte>>, rest: seq<byte>)
    ensures EachOnWire(t, vs, parts) ==> DecodeMany(t, |vs|, Joined(parts) + rest) == Success(Parsed(vs, rest))
    decreases t, 1, |vs|
  {
    if vs == [] {
      assert Joined([]) + rest == rest;
    } else if EachOnWire(t, vs, parts) {
      var mid := Joined(parts[1..]) + rest;
      assert Joined(parts) + rest == parts[0] + mid;
      WireDecodes(t, vs[0], parts[0], mid);
      PartsDecode(t, vs[1..], parts[1..], rest);
      OneMoreDecoded(t, vs, parts[0] + mid, mid, rest);
    }
  }

  lemma {:induction false} FieldsWireDecode(fields: seq<NamedType>, vs: seq<NamedValue>, b: seq<byte>, rest: seq<byte>)
    requires FieldsOnWire(fields, vs, b)
    ensures DecodeFields(fields, b + rest) == Success(Parsed(vs, rest))
    decreases fields, 1, 0
  {
    var parts :| EachFieldOnWire(fields, vs, parts) && Joined(parts) == b;
    FieldPartsDecode(fields, vs, parts, rest);
  }

  lemma {:induction false} FieldPartsDecode(fields: seq<NamedType>, vs: seq<NamedValue>, parts: seq<seq<byte>>,
                                            rest: seq<byte>)
    ensures EachFieldOnWire(fields, vs, parts) ==>
              DecodeFields(fields, Joined(parts) + rest) == Success(Parsed(vs, rest))
    decreases fields, 0, 0
  {
    if fields == [] {
      assert Joined([]) + rest == rest;
    } else if EachFieldOnWire(fields, vs, parts) {
      var mid := Joined(parts[1..]) + rest;
      assert Joined(parts) + rest == parts[0] + mid;
      WireDecodes(fields[0].ty, vs[0].value, parts[0], mid);
      FieldPartsDecode(fields[1..], vs[1..], parts[1..], rest);
      assert vs == [vs[0]] + vs[1..];
    }
  }

  /** What the decoder has read stands in the bytes it has consumed. */
  lemma {:induction false} DecodedFromWire(t: DynType, d: seq<byte>)
    requires Decode(t, d).Success?
    ensures Suffix(Decode(t, d).value.rest, d)
    ensures OnWire(t, Decode(t, d).value.value, Used(d, Decode(t, d).value.rest))
    decreases t, 0, 0
  {
    match t
    case Prim(k) =>
      NumberReads(k, d);
      UsedFront(d, Width(k), []);
    case Boolean =>
      UsedFront(d, 1, []);
    case FixedArray(e, n) =>
      ManyFromWire(e, n, d);
    case Array(e) =>
      ArrayFromWire(e, d);
    case Struct(fields) =>
      FieldsFromWire(fields, d);
    case Enum(variants) =>
      EnumFromWire(variants, d);
    case Opt(e) =>
      OptionFromWire(e, d);
  }

  lemma {:induction false} OptionFromWire(e: DynType, d: seq<byte>)
    requires Decode(Opt(e), d).Success?
    ensures var p := Decode(Opt(e), d).value;
            Suffix(p.rest, d) && OnWire(Opt(e), p.value, Used(d, p.rest))
    decreases e, 3, 0
  {
    if d[0] == 1 {
      DecodedFromWire(e, d[1..]);
    }
    UsedByte(d, Decode(Opt(e), d).value.rest, []);
  }

  lemma {:induction false} ArrayFromWire(e: DynType, d: seq<byte>)
    requires Decode(Array(e), d).Success?
    ensures var p := Decode(Array(e), d).value;
            Suffix(p.rest, d) && OnWire(Array(e), p.value, Used(d, p.rest))
    decreases e, 3, 0
  {
    var rest := Decode(Array(e), d).value.rest;
    FourBytes(d[..4]);
    ManyFromWire(e, FromLe(d[..4]), d[4..]);
    UsedTwice(d, d[4..], rest, []);
    var b := Used(d, rest);
    assert b[..4] == d[..4] && b[4..] == Used(d[4..], rest);
  }

  lemma {:induction false} EnumFromWire(variants: seq<Variant>, d: seq<byte>)
    requires Decode(Enum(variants), d).Success?
    ensures var p := Decode(Enum(variants), d).value;
            Suffix(p.rest, d) && OnWire(Enum(variants), p.value, Used(d, p.rest))
    decreases variants, 1, 0
  {
    if variants[d[0]].payload.Some? {
      DecodedFromWire(variants[d[0]].payload.value, d[1..]);
    }
    UsedByte(d, Decode(Enum(variants), d).value.rest, []);
  }

  lemma {:induction false} ManyFromWire(t: DynType, n: nat, d: seq<byte>)
    requires DecodeMany(t, n, d).Success?
    ensures var p := DecodeMany(t, n, d).value;
            Suffix(p.rest, d) && |p.value| == n && ManyOnWire(t, p.value, Used(d, p.rest))
    decreases t, 2, 0
  {
    var parts := PartsFromWire(t, n, d);
  }

  lemma {:induction false} OneMorePart(t: DynType, v: DynValue, vs: seq<DynValue>, b: seq<byte>,
                                       parts: seq<seq<byte>>)
    ensures OnWire(t, v, b) && EachOnWire(t, vs, parts) ==> EachOnWire(t, [v] + vs, [b] + parts)
    ensures Joined([b] + parts) == b + Joined(parts)
  {
    assert ([b] + parts)[1..] == parts && ([v] + vs)[1..] == vs;
  }

  lemma {:induction false} PartsFromWire(t: DynType, n: nat, d: seq<byte>) returns (parts: seq<seq<byte>>)
    requires DecodeMany(t, n, d).Success?
    ensures var p := DecodeMany(t, n, d).value;
            && Suffix(p.rest, d) && |p.value| == n
            && EachOnWire(t, p.value, parts) && Joined(parts) == Used(d, p.rest)
    decreases t, 1, n
  {
    if n == 0 {
      parts := [];
    } else {
      var first := Decode(t, d).value;
      var more := DecodeMany(t, n - 1, first.rest).value;
      assert DecodeMany(t, n, d).value == Parsed([first.value] + more.value, more.rest);
      DecodedFromWire(t, d);
      var others := PartsFromWire(t, n - 1, first.rest);
      UsedTwice(d, first.rest, more.rest, []);
      OneMorePart(t, first.value, more.value, Used(d, first.rest), others);
      parts := [Used(d, first.rest)] + others;
    }
  }

  lemma {:induction false} FieldsFromWire(fields: seq<NamedType>, d: seq<byte>)
    requires DecodeFields(fields, d).Success?
    ensures var p := DecodeFields(fields, d).value;
            Suffix(p.rest, d) && FieldsOnWire(fields, p.value, Used(d, p.rest))
    decreases fields, 1, 0
  {
    var parts := FieldPartsFromWire(fields, d);
  }

  lemma {:induction false} OneMoreFieldPart(fields: seq<NamedType>, v: DynValue, vs: seq<NamedValue>, b: seq<byte>,
                                            parts: seq<seq<byte>>)
    requires fields != []
    ensures OnWire(fields[0].ty, v, b) && EachFieldOnWire(fields[1..], vs, parts) ==>
              EachFieldOnWire(fields, [NamedValue(fields[0].name, v)] + vs, [b] + parts)
    ensures Joined([b] + parts) == b + Joined(parts)
  {
    assert ([b] + parts)[1..] == parts;
    assert ([NamedValue(fields[0].name, v)] + vs)[1..] == vs;
  }

  lemma {:induction false} FieldPartsFromWire(fields: seq<NamedType>, d: seq<byte>) returns (parts: seq<seq<byte>>)
    requires DecodeFields(fields, d).Success?
    ensures var p := DecodeFields(fields, d).value;
            Suffix(p.rest, d) && EachFieldOnWire(fields, p.value, parts) && Joined(parts) == Used(d, p.rest)
    decreases fields, 0, 0
  {
    if fields == [] {
      parts := [];
    } else {
      var first := Decode(fields[0].ty, d).value;
      var more := DecodeFields(fields[1..], first.rest).value;
      DecodedFromWire(fields[0].ty, d);
      var others := FieldPartsFromWire(fields[1..], first.rest);
      UsedTwice(d, first.rest, more.rest, []);
      OneMoreFieldPart(fields, first.value, more.value, Used(d, first.rest), others);
      parts := [Used(d, first.rest)] + others;
    }
  }

  /** The decoder succeeds with this value and this rest exactly when the input is bytes of the value
      and the rest. */
  lemma {:induction false} DecodesIffOnWire(t: DynType, d: seq<byte>, v: DynValue, rest: seq<byte>)
    ensures Decode(t, d) == Success(Parsed(v, rest)) <==> Suffix(rest, d) && OnWire(t, v, Used(d, rest))
  {
    if Decode(t, d) == Success(Parsed(v, rest)) {
      DecodedFromWire(t, d);
    }
    if Suffix(rest, d) && OnWire(t, v, Used(d, rest)) {
      WireDecodes(t, v, Used(d, rest), rest);
      assert Used(d, rest) + rest == d;
    }
  }

  /** The same for the fields of a struct. */
  lemma {:induction false} FieldsDecodeIffOnWire(fields: seq<NamedType>, d: seq<byte>, vs: seq<NamedValue>,
                                                 rest: seq<byte>)
    ensures DecodeFields(fields, d) == Success(Parsed(vs, rest))
       <==> Suffix(rest, d) && FieldsOnWire(fields, vs, Used(d, rest))
  {
    if DecodeFields(fields, d) == Success(Parsed(vs, rest)) {
      FieldsFromWire(fields, d);
    }
    if Suffix(rest, d) && FieldsOnWire(fields, vs, Used(d, rest)) {
      FieldsWireDecode(fields, vs, Used(d, rest), rest);
      assert Used(d, rest) + rest == d;
    }
  }

  /** The encoding of a value is bytes that stand for it. */
  lemma {:induction false} EncodingIsOnWire(t: DynType, v: DynValue)
    requires WellTyped(t, v)
    ensures OnWire(t, v, Encode(t, v))
  {
    var b := Encode(t, v);
    RoundTrip(t, v, []);
    assert b + [] == b;
    DecodedFromWire(t, b);
    assert Used(b, []) == b;
  }
}
