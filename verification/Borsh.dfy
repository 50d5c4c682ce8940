/** The Borsh decoder of the SVM decoder, against an encoder written from the Borsh specification. */
module Borsh {
  import opened Wrappers
  import opened Bytes
  import opened DynTypes

  /** A decoded value and the input that is left. */
  datatype Parsed<+T> = Parsed(value: T, rest: seq<byte>)

  // ---------------------------------------------------------------- the format

  /** The integer of kind k at the front of the input. */
  function DecodeNumber(k: IntKind, d: seq<byte>): Result<Parsed<DynValue>> {
    var w := Width(k);
    if |d| < w then Failure
    else
      var u := FromLe(d[..w]);
      Success(Parsed(Num(k, if IsSigned(k) then Signed(u, w) else u), d[w..]))
  }

  function Decode(t: DynType, d: seq<byte>): Result<Parsed<DynValue>>
    decreases t, 0, 0
  {
    match t
    case Prim(k) => DecodeNumber(k, d)
    case Boolean => if d == [] then Failure else Success(Parsed(Bool(d[0] != 0), d[1..]))
    case FixedArray(e, n) => if TypeSize(e).None? then Failure else ToArr(DecodeMany(e, n, d))
    case Array(e) => if |d| < 4 then Failure else ToArr(DecodeMany(e, FromLe(d[..4]), d[4..]))
    case Struct(fields) =>
      var p := DecodeFields(fields, d);
      if p.Failure? then Failure else Success(Parsed(Record(p.value.value), p.value.rest))
    case Enum(variants) =>
      if d == [] || d[0] >= |variants| then Failure
      else if variants[d[0]].payload.None? then Success(Parsed(Chosen(variants[d[0]].name, None), d[1..]))
      else
        var p := Decode(variants[d[0]].payload.value, d[1..]);
        if p.Failure? then Failure
        else Success(Parsed(Chosen(variants[d[0]].name, Some(p.value.value)), p.value.rest))
    case Opt(e) =>
      if d == [] then Failure
      else if d[0] == 0 then Success(Parsed(Maybe(None), d[1..]))
      else if d[0] == 1 then
        var p := Decode(e, d[1..]);
        if p.Failure? then Failure else Success(Parsed(Maybe(Some(p.value.value)), p.value.rest))
      else Failure
  }

  function ToArr(p: Result<Parsed<seq<DynValue>>>): Result<Parsed<DynValue>> {
    if p.Failure? then Failure else Success(Parsed(Arr(p.value.value), p.value.rest))
  }

  /** Values already decoded, put in front of a parse. */
  function Behind<T>(values: seq<T>, r: Result<Parsed<seq<T>>>): Result<Parsed<seq<T>>> {
    if r.Failure? then Failure else Success(Parsed(values + r.value.value, r.value.rest))
  }

  /** n values of one type in sequence. */
  function DecodeMany(t: DynType, n: nat, d: seq<byte>): Result<Parsed<seq<DynValue>>>
    decreases t, 1, n
  {
    if n == 0 then Success(Parsed([], d))
    else
      var p := Decode(t, d);
      if p.Failure? then Failure
      else
        var q := DecodeMany(t, n - 1, p.value.rest);
        if q.Failure? then Failure else Success(Parsed([p.value.value] + q.value.value, q.value.rest))
  }

  /** One value for each field, in order. */
  function DecodeFields(fields: seq<NamedType>, d: seq<byte>): Result<Parsed<seq<NamedValue>>>
    decreases fields, 0, 0
  {
    if fields == [] then Success(Parsed([], d))
    else
      var p := Decode(fields[0].ty, d);
      if p.Failure? then Failure
      else
        var q := DecodeFields(fields[1..], p.value.rest);
        if q.Failure? then Failure
        else Success(Parsed([NamedValue(fields[0].name, p.value.value)] + q.value.value, q.value.rest))
  }

  function EncodeNumber(k: IntKind, n: int): seq<byte>
    requires InRange(k, n)
  {
    ToLe(Pattern(n, Width(k)), Width(k))
  }

  function Encode(t: DynType, v: DynValue): seq<byte>
    requires WellTyped(t, v)
    decreases t, 0, 0
  {
    match t
    case Prim(k) => EncodeNumber(k, v.n)
    case Boolean => if v.b then [1] else [0]
    case FixedArray(e, _) => EncodeMany(e, v.elems)
    case Array(e) => ToLe(|v.elems|, 4) + EncodeMany(e, v.elems)
    case Struct(fields) => EncodeFields(fields, v.fields)
    case Enum(variants) =>
      var i := Position(variants, v.name);
      [i] + if v.payload.Some? then Encode(variants[i].payload.value, v.payload.value) else []
    case Opt(e) => if v.inner.Some? then [1] + Encode(e, v.inner.value) else [0]
  }

  function EncodeMany(t: DynType, vs: seq<DynValue>): seq<byte>
    requires AllTyped(t, vs)
    decreases t, 1, vs
  {
    if vs == [] then [] else Encode(t, vs[0]) + EncodeMany(t, vs[1..])
  }

  function EncodeFields(fields: seq<NamedType>, vs: seq<NamedValue>): seq<byte>
    requires FieldsTyped(fields, vs)
    decreases fields, 0, 0
  {
    if fields == [] then [] else Encode(fields[0].ty, vs[0].value) + EncodeFields(fields[1..], vs[1..])
  }

  // ---------------------------------------------------------------- round trip

  lemma {:induction false} PatternRoundTrip(n: int, w: nat, rest: seq<byte>)
    requires FitsSigned(n, w) || FitsUnsigned(n, w)
    ensures var d := ToLe(Pattern(n, w), w) + rest;
            && FromLe(d[..w]) == Pattern(n, w) && d[w..] == rest
            && (FitsSigned(n, w) ==> Signed(Pattern(n, w), w) == n)
  {
    var d := ToLe(Pattern(n, w), w) + rest;
    LeRoundTrip(Pattern(n, w), w);
    assert d[..w] == ToLe(Pattern(n, w), w) && d[w..] == rest;
  }

  lemma {:induction false} NumberRoundTrip(k: IntKind, n: int, rest: seq<byte>)
    requires InRange(k, n)
    ensures DecodeNumber(k, EncodeNumber(k, n) + rest) == Success(Parsed(Num(k, n), rest))
  {
    PatternRoundTrip(n, Width(k), rest);
  }

  /** Decoding an encoded value gives it back, with whatever follows it. */
  lemma {:induction false} RoundTrip(t: DynType, v: DynValue, rest: seq<byte>)
    requires WellTyped(t, v)
    ensures Decode(t, Encode(t, v) + rest) == Success(Parsed(v, rest))
    decreases t, 0, 0
  {
    var d := Encode(t, v) + rest;
    match t
    case Prim(k) =>
      NumberRoundTrip(k, v.n, rest);
    case Boolean =>
      assert d[1..] == rest;
    case FixedArray(e, n) =>
      RoundTripMany(e, v.elems, rest);
    case Array(e) =>
      RoundTripArray(e, v, rest);
    case Struct(fields) =>
      RoundTripFields(fields, v.fields, rest);
    case Enum(variants) =>
      RoundTripEnum(variants, v, rest);
    case Opt(e) =>
      if v.inner.Some? {
        assert d[1..] == Encode(e, v.inner.value) + rest;
        RoundTrip(e, v.inner.value, rest);
      } else {
        assert d[1..] == rest;
      }
  }

  lemma {:induction false} RoundTripArray(e: DynType, v: DynValue, rest: seq<byte>)
    requires WellTyped(Array(e), v)
    ensures Decode(Array(e), Encode(Array(e), v) + rest) == Success(Parsed(v, rest))
    decreases e, 2, 0
  {
    var d := Encode(Array(e), v) + rest;
    LeRoundTrip(|v.elems|, 4);
    assert d[..4] == ToLe(|v.elems|, 4) && d[4..] == EncodeMany(e, v.elems) + rest;
    RoundTripMany(e, v.elems, rest);
  }

  lemma {:induction false} RoundTripEnum(variants: seq<Variant>, v: DynValue, rest: seq<byte>)
    requires WellTyped(Enum(variants), v)
    ensures Decode(Enum(variants), Encode(Enum(variants), v) + rest) == Success(Parsed(v, rest))
    decreases variants, 1, 0
  {
    var d := Encode(Enum(variants), v) + rest;
    var x := variants[Position(variants, v.name)];
    if v.payload.Some? {
      assert d[1..] == Encode(x.payload.value, v.payload.value) + rest;
      RoundTrip(x.payload.value, v.payload.value, rest);
    } else {
      assert d[1..] == rest;
    }
  }

  lemma {:induction false} RoundTripMany(t: DynType, vs: seq<DynValue>, rest: seq<byte>)
    requires AllTyped(t, vs)
    ensures DecodeMany(t, |vs|, EncodeMany(t, vs) + rest) == Success(Parsed(vs, rest))
    decreases t, 1, vs
  {
    if vs == [] {
      assert EncodeMany(t, vs) + rest == rest;
    } else {
      var tail := EncodeMany(t, vs[1..]) + rest;
      assert EncodeMany(t, vs) + rest == Encode(t, vs[0]) + tail;
      RoundTrip(t, vs[0], tail);
      RoundTripMany(t, vs[1..], rest);
      assert vs == [vs[0]] + vs[1..];
    }
  }

  lemma {:induction false} RoundTripFields(fields: seq<NamedType>, vs: seq<NamedValue>, rest: seq<byte>)
    requires FieldsTyped(fields, vs)
    ensures DecodeFields(fields, EncodeFields(fields, vs) + rest) == Success(Parsed(vs, rest))
    decreases fields, 0, 0
  {
    if fields == [] {
      assert EncodeFields(fields, vs) + rest == rest;
    } else {
      var tail := EncodeFields(fields[1..], vs[1..]) + rest;
      assert EncodeFields(fields, vs) + rest == Encode(fields[0].ty, vs[0].value) + tail;
      RoundTrip(fields[0].ty, vs[0].value, tail);
      RoundTripFields(fields[1..], vs[1..], rest);
      assert vs == [vs[0]] + vs[1..];
    }
  }

  // ---------------------------------------------------------------- framing

  /** What a parse has consumed of its input. */
  predicate Suffix(rest: seq<byte>, d: seq<byte>) {
    |rest| <= |d| && d[|d| - |rest|..] == rest
  }

  function Used(d: seq<byte>, rest: seq<byte>): seq<byte>
    requires |rest| <= |d|
  {
    d[..|d| - |rest|]
  }

  lemma {:induction false} UsedTwice(d: seq<byte>, mid: seq<byte>, rest: seq<byte>, other: seq<byte>)
    requires Suffix(mid, d) && Suffix(rest, mid)
    ensures Suffix(rest, d)
    ensures Used(d, rest) == Used(d, mid) + Used(mid, rest)
    ensures Used(d, rest) + other == Used(d, mid) + (Used(mid, rest) + other)
  {
  }

  lemma {:induction false} UsedByte(d: seq<byte>, rest: seq<byte>, other: seq<byte>)
    requires d != [] && Suffix(rest, d[1..])
    ensures Suffix(rest, d) && Used(d, rest) == [d[0]] + Used(d[1..], rest)
    ensures Used(d, rest) + other != [] && (Used(d, rest) + other)[0] == d[0]
    ensures (Used(d, rest) + other)[1..] == Used(d[1..], rest) + other
  {
    var u := Used(d[1..], rest);
    assert Used(d, rest) == [d[0]] + u;
    assert Used(d, rest) + other == [d[0]] + (u + other);
  }

  lemma {:induction false} UsedFront(d: seq<byte>, w: nat, other: seq<byte>)
    requires w <= |d|
    ensures Suffix(d[w..], d) && Used(d, d[w..]) == d[..w]
    ensures (d[..w] + other)[..w] == d[..w] && (d[..w] + other)[w..] == other
  {
  }

  /** Every success splits the input into a consumed prefix and the rest, and depends on the prefix
      alone: with anything else behind the prefix the same value is decoded and that is left. */
  lemma {:induction false} Framing(t: DynType, d: seq<byte>, other: seq<byte>)
    requires Decode(t, d).Success?
    ensures var p := Decode(t, d).value;
            && Suffix(p.rest, d)
            && Decode(t, Used(d, p.rest) + other) == Success(Parsed(p.value, other))
    decreases t, 0, 0
  {
    match t
    case Prim(k) =>
      FramingNumber(k, d, other);
    case Boolean =>
      UsedByte(d, d[1..], other);
    case FixedArray(e, n) =>
      FramingMany(e, n, d, other);
    case Array(e) =>
      FramingArray(e, d, other);
    case Struct(fields) =>
      FramingFields(fields, d, other);
    case Enum(variants) =>
      FramingEnum(variants, d, other);
    case Opt(e) =>
      FramingOption(e, d, other);
  }

  lemma {:induction false} FramingNumber(k: IntKind, d: seq<byte>, other: seq<byte>)
    requires DecodeNumber(k, d).Success?
    ensures var p := DecodeNumber(k, d).value;
            && Suffix(p.rest, d)
            && DecodeNumber(k, Used(d, p.rest) + other) == Success(Parsed(p.value, other))
  {
    UsedFront(d, Width(k), other);
  }

  lemma {:induction false} FramingArray(e: DynType, d: seq<byte>, other: seq<byte>)
    requires Decode(Array(e), d).Success?
    ensures var p := Decode(Array(e), d).value;
            && Suffix(p.rest, d)
            && Decode(Array(e), Used(d, p.rest) + other) == Success(Parsed(p.value, other))
    decreases e, 2, 0
  {
    var n := FromLe(d[..4]);
    var rest := DecodeMany(e, n, d[4..]).value.rest;
    FramingMany(e, n, d[4..], other);
    UsedFront(d, 4, Used(d[4..], rest) + other);
    UsedTwice(d, d[4..], rest, other);
  }

  lemma {:induction false} FramingEnum(variants: seq<Variant>, d: seq<byte>, other: seq<byte>)
    requires Decode(Enum(variants), d).Success?
    ensures var p := Decode(Enum(variants), d).value;
            && Suffix(p.rest, d)
            && Decode(Enum(variants), Used(d, p.rest) + other) == Success(Parsed(p.value, other))
    decreases variants, 1, 0
  {
    var rest := Decode(Enum(variants), d).value.rest;
    if variants[d[0]].payload.Some? {
      Framing(variants[d[0]].payload.value, d[1..], other);
    }
    UsedByte(d, rest, other);
  }

  lemma {:induction false} FramingOption(e: DynType, d: seq<byte>, other: seq<byte>)
    requires Decode(Opt(e), d).Success?
    ensures var p := Decode(Opt(e), d).value;
            && Suffix(p.rest, d)
            && Decode(Opt(e), Used(d, p.rest) + other) == Success(Parsed(p.value, other))
    decreases e, 2, 0
  {
    var rest := Decode(Opt(e), d).value.rest;
    if d[0] == 1 {
      Framing(e, d[1..], other);
    }
    UsedByte(d, rest, other);
  }

  lemma {:induction false} FramingMany(t: DynType, n: nat, d: seq<byte>, other: seq<byte>)
    requires DecodeMany(t, n, d).Success?
    ensures var p := DecodeMany(t, n, d).value;
            && Suffix(p.rest, d)
            && DecodeMany(t, n, Used(d, p.rest) + other) == Success(Parsed(p.value, other))
    decreases t, 1, n
  {
    if n == 0 {
      assert Used(d, d) + other == other;
    } else {
      var mid := Decode(t, d).value.rest;
      var rest := DecodeMany(t, n - 1, mid).value.rest;
      FramingMany(t, n - 1, mid, other);
      var tail := Used(mid, rest) + other;
      Framing(t, d, tail);
      UsedTwice(d, mid, rest, other);
      FramedStep(t, n, d, Used(d, mid) + tail, tail, other);
    }
  }

  /** An input whose head and tail decode to what those of d do decodes to what d does. */
  lemma {:induction false} FramedStep(t: DynType, n: nat, d: seq<byte>, e: seq<byte>, tail: seq<byte>, other: seq<byte>)
    requires n > 0 && DecodeMany(t, n, d).Success?
    requires Decode(t, e) == Success(Parsed(Decode(t, d).value.value, tail))
    requires DecodeMany(t, n - 1, tail)
          == Success(Parsed(DecodeMany(t, n - 1, Decode(t, d).value.rest).value.value, other))
    ensures DecodeMany(t, n, e) == Success(Parsed(DecodeMany(t, n, d).value.value, other))
  {
  }

  lemma {:induction false} FramingFields(fields: seq<NamedType>, d: seq<byte>, other: seq<byte>)
    requires DecodeFields(fields, d).Success?
    ensures var p := DecodeFields(fields, d).value;
            && Suffix(p.rest, d)
            && DecodeFields(fields, Used(d, p.rest) + other) == Success(Parsed(p.value, other))
    decreases fields, 0, 0
  {
    if fields == [] {
      assert Used(d, d) + other == other;
    } else {
      var mid := Decode(fields[0].ty, d).value.rest;
      var rest := DecodeFields(fields[1..], mid).value.rest;
      FramingFields(fields[1..], mid, other);
      var tail := Used(mid, rest) + other;
      Framing(fields[0].ty, d, tail);
      UsedTwice(d, mid, rest, other);
      FramedFieldStep(fields, d, Used(d, mid) + tail, tail, other);
    }
  }

  lemma {:induction false} FramedFieldStep(fields: seq<NamedType>, d: seq<byte>, e: seq<byte>, tail: seq<byte>,
                                           other: seq<byte>)
    requires fields != [] && DecodeFields(fields, d).Success?
    requires Decode(fields[0].ty, e) == Success(Parsed(Decode(fields[0].ty, d).value.value, tail))
    requires DecodeFields(fields[1..], tail)
          == Success(Parsed(DecodeFields(fields[1..], Decode(fields[0].ty, d).value.rest).value.value, other))
    ensures DecodeFields(fields, e) == Success(Parsed(DecodeFields(fields, d).value.value, other))
  {
  }

  /** More input behind one that decodes changes nothing but what is left. */
  lemma {:induction false} MoreInput(t: DynType, d: seq<byte>, more: seq<byte>)
    requires Decode(t, d).Success?
    ensures Decode(t, d + more) == Success(Parsed(Decode(t, d).value.value, Decode(t, d).value.rest + more))
  {
    var rest := Decode(t, d).value.rest;
    Framing(t, d, rest + more);
    assert d + more == Used(d, rest) + (rest + more);
  }

  /** No value's encoding is a proper prefix of another's of the same type. */
  lemma {:induction false} PrefixFree(t: DynType, v: DynValue, w: DynValue)
    requires WellTyped(t, v) && WellTyped(t, w) && Encode(t, v) <= Encode(t, w)
    ensures v == w
  {
    var more := Encode(t, w)[|Encode(t, v)|..];
    assert Encode(t, v) + more == Encode(t, w) + [];
    RoundTrip(t, v, more);
    RoundTrip(t, w, []);
  }

  // ---------------------------------------------------------------- re-encoding

  /** b is a, up to non-zero bytes that became 1 where booleans are involved. */
  predicate SameUpToBools(bools: bool, a: seq<byte>, b: seq<byte>) {
    && |a| == |b|
    && forall i | 0 <= i < |a| :: a[i] == b[i] || (bools && a[i] != 0 && b[i] == 1)
  }

  lemma {:induction false} SameUpToBoolsJoins(p: bool, q: bool, bools: bool, a: seq<byte>, b: seq<byte>, c: seq<byte>,
                                              d: seq<byte>)
    requires SameUpToBools(p, a, b) && SameUpToBools(q, c, d) && (p || q ==> bools)
    ensures SameUpToBools(bools, a + c, b + d)
  {
  }

  lemma {:induction false} NumberReencodes(k: IntKind, d: seq<byte>)
    requires |d| >= Width(k)
    ensures var v := DecodeNumber(k, d).value.value;
            InRange(k, v.n) && EncodeNumber(k, v.n) == d[..Width(k)]
  {
    var w := Width(k);
    LeIsOnto(d[..w]);
    PatternOfSigned(FromLe(d[..w]), w);
  }

  lemma {:induction false} DistinctPosition(variants: seq<Variant>, i: nat)
    requires DistinctNames(variants) && i < |variants|
    ensures Position(variants, variants[i].name) == i
  {
    assert Position(variants, variants[i].name) <= i;
  }

  ghost predicate Reencodes(t: DynType, v: DynValue, used: seq<byte>) {
    WellTyped(t, v) && SameUpToBools(MentionsBool(t), used, Encode(t, v))
  }

  /** A decoded value has its type, and encoding it gives the consumed bytes back, except that non-zero
      boolean bytes become 1; a type without booleans gives back exactly what was consumed. */
  lemma {:induction false} Reencoding(t: DynType, d: seq<byte>)
    requires DistinctVariants(t) && Decode(t, d).Success?
    ensures Suffix(Decode(t, d).value.rest, d)
    ensures Reencodes(t, Decode(t, d).value.value, Used(d, Decode(t, d).value.rest))
    decreases t, 0, 0
  {
    var p := Decode(t, d).value;
    Framing(t, d, []);
    match t
    case Prim(k) =>
      NumberReencodes(k, d);
    case Boolean =>
    case FixedArray(e, n) =>
      ReencodingMany(e, n, d);
    case Array(e) =>
      ReencodingArray(e, d);
    case Struct(fields) =>
      ReencodingFields(fields, d);
      assert MentionsBool(t) <==> BoolInFields(fields);
    case Enum(variants) =>
      ReencodingEnum(variants, d);
    case Opt(e) =>
      UsedByte(d, p.rest, []);
      if d[0] == 1 {
        Reencoding(e, d[1..]);
      }
  }

  predicate BoolInFields(fields: seq<NamedType>) {
    exists f :: f in fields && MentionsBool(f.ty)
  }

  ghost predicate ReencodesMany(t: DynType, vs: seq<DynValue>, used: seq<byte>) {
    AllTyped(t, vs) && SameUpToBools(MentionsBool(t), used, EncodeMany(t, vs))
  }

  ghost predicate ReencodesFields(fields: seq<NamedType>, vs: seq<NamedValue>, used: seq<byte>) {
    FieldsTyped(fields, vs) && SameUpToBools(BoolInFields(fields), used, EncodeFields(fields, vs))
  }

  lemma {:induction false} OneMoreReencodes(t: DynType, v: DynValue, vs: seq<DynValue>, first: seq<byte>,
                                            others: seq<byte>)
    requires Reencodes(t, v, first) && ReencodesMany(t, vs, others)
    ensures ReencodesMany(t, [v] + vs, first + others)
  {
    var b := MentionsBool(t);
    SameUpToBoolsJoins(b, b, b, first, Encode(t, v), others, EncodeMany(t, vs));
    assert ([v] + vs)[1..] == vs;
  }

  lemma {:induction false} OneMoreFieldReencodes(fields: seq<NamedType>, v: DynValue, vs: seq<NamedValue>,
                                                 first: seq<byte>, others: seq<byte>)
    requires fields != [] && Reencodes(fields[0].ty, v, first) && ReencodesFields(fields[1..], vs, others)
    ensures ReencodesFields(fields, [NamedValue(fields[0].name, v)] + vs, first + others)
  {
    var all := [NamedValue(fields[0].name, v)] + vs;
    assert all[1..] == vs && all[0].value == v;
    FieldsTypedStep(fields, all);
    SameUpToBoolsJoins(MentionsBool(fields[0].ty), BoolInFields(fields[1..]), BoolInFields(fields),
                       first, Encode(fields[0].ty, v), others, EncodeFields(fields[1..], vs));
  }

  lemma {:induction false} FieldsTypedStep(fields: seq<NamedType>, vs: seq<NamedValue>)
    requires fields != [] && vs != [] && FieldsTyped(fields[1..], vs[1..])
    requires vs[0].name == fields[0].name && WellTyped(fields[0].ty, vs[0].value)
    ensures FieldsTyped(fields, vs)
  {
    forall i | 0 <= i < |fields| ensures vs[i].name == fields[i].name && WellTyped(fields[i].ty, vs[i].value) {
      if i > 0 {
        assert fields[i] == fields[1..][i - 1] && vs[i] == vs[1..][i - 1];
      }
    }
  }

  lemma {:induction false} ReencodingMany(t: DynType, n: nat, d: seq<byte>)
    requires DistinctVariants(t) && DecodeMany(t, n, d).Success?
    ensures var p := DecodeMany(t, n, d).value;
            Suffix(p.rest, d) && |p.value| == n && ReencodesMany(t, p.value, Used(d, p.rest))
    decreases t, 1, n
  {
    if n > 0 {
      var first := Decode(t, d).value;
      var others := DecodeMany(t, n - 1, first.rest).value;
      Reencoding(t, d);
      ReencodingMany(t, n - 1, first.rest);
      UsedTwice(d, first.rest, others.rest, []);
      OneMoreReencodes(t, first.value, others.value, Used(d, first.rest), Used(first.rest, others.rest));
    }
  }

  lemma {:induction false} ReencodingArray(e: DynType, d: seq<byte>)
    requires DistinctVariants(e) && Decode(Array(e), d).Success?
    ensures Suffix(Decode(Array(e), d).value.rest, d)
    ensures Reencodes(Array(e), Decode(Array(e), d).value.value, Used(d, Decode(Array(e), d).value.rest))
    decreases e, 2, 0
  {
    var n := FromLe(d[..4]);
    LeIsOnto(d[..4]);
    ReencodingMany(e, n, d[4..]);
    var p := DecodeMany(e, n, d[4..]).value;
    UsedTwice(d, d[4..], p.rest, []);
    SameUpToBoolsJoins(false, MentionsBool(e), MentionsBool(e), d[..4], ToLe(n, 4), Used(d[4..], p.rest),
                       EncodeMany(e, p.value));
  }

  lemma {:induction false} ReencodingFields(fields: seq<NamedType>, d: seq<byte>)
    requires DistinctInFields(fields) && DecodeFields(fields, d).Success?
    ensures var p := DecodeFields(fields, d).value;
            Suffix(p.rest, d) && ReencodesFields(fields, p.value, Used(d, p.rest))
    decreases fields, 0, 0
  {
    if fields != [] {
      var first := Decode(fields[0].ty, d).value;
      var others := DecodeFields(fields[1..], first.rest).value;
      Reencoding(fields[0].ty, d);
      ReencodingFields(fields[1..], first.rest);
      UsedTwice(d, first.rest, others.rest, []);
      OneMoreFieldReencodes(fields, first.value, others.value, Used(d, first.rest), Used(first.rest, others.rest));
    }
  }

  lemma {:induction false} ReencodingEnum(variants: seq<Variant>, d: seq<byte>)
    requires DistinctVariants(Enum(variants)) && Decode(Enum(variants), d).Success?
    ensures var p := Decode(Enum(variants), d).value;
            Suffix(p.rest, d) && Reencodes(Enum(variants), p.value, Used(d, p.rest))
    decreases variants, 1, 0
  {
    var p := Decode(Enum(variants), d).value;
    var x := variants[d[0]];
    DistinctPosition(variants, d[0]);
    if x.payload.Some? {
      Reencoding(x.payload.value, d[1..]);
      UsedByte(d, p.rest, []);
      SameUpToBoolsJoins(false, MentionsBool(x.payload.value), MentionsBool(Enum(variants)), [d[0]], [d[0]],
                         Used(d[1..], p.rest), Encode(x.payload.value, p.value.payload.value));
    } else {
      UsedByte(d, p.rest, []);
    }
  }
}
