/** The decoder as it runs: slices, chunks and loops over the remaining input. */
module Deserialize {
  import opened Wrappers
  import opened Bytes
  import opened DynTypes
  import opened Borsh

  lemma {:induction false} BehindNothing<T>(r: Result<Parsed<seq<T>>>)
    ensures Behind([], r) == r
  {
    if r.Success? {
      assert [] + r.value.value == r.value.value;
    }
  }

  lemma {:induction false} NothingBehind<T>(values: seq<T>, rest: seq<byte>)
    ensures Behind(values, Success(Parsed([], rest))) == Success(Parsed(values, rest))
  {
    assert values + [] == values;
  }

  lemma {:induction false} BehindOneMore<T>(values: seq<T>, x: T, r: Result<Parsed<seq<T>>>)
    ensures Behind(values, Behind([x], r)) == Behind(values + [x], r)
  {
    if r.Success? {
      assert values + ([x] + r.value.value) == (values + [x]) + r.value.value;
    }
  }

  /** One chunk of a fixed array is consumed exactly. */
  lemma {:induction false} ChunkIsConsumed(e: DynType, chunk: seq<byte>)
    requires TypeSize(e).Some? && |chunk| == TypeSize(e).value
    ensures Decode(e, chunk).Success? && Decode(e, chunk).value.rest == []
  {
  }

  /** A fixed array decodes exactly when there is input for all its elements, and takes just that. */
  lemma {:induction false} FixedArrayFits(e: DynType, n: nat, d: seq<byte>)
    requires TypeSize(e).Some?
    ensures DecodeMany(e, n, d).Success? <==> |d| >= TypeSize(e).value * n
    ensures DecodeMany(e, n, d).Success? ==> |DecodeMany(e, n, d).value.rest| == |d| - TypeSize(e).value * n
  {
    var w := TypeSize(e).value;
    if n > 0 {
      assert w * n == w + w * (n - 1);
      if |d| >= w {
        ChunkIsConsumed(e, d[..w]);
        MoreInput(e, d[..w], d[w..]);
        assert d[..w] + d[w..] == d && [] + d[w..] == d[w..];
        FixedArrayFits(e, n - 1, d[w..]);
      } else {
        assert w * (n - 1) >= 0;
        assert Decode(e, d).Failure?;
      }
    }
  }

  lemma {:induction false} ChunkSizes(w: nat, n: nat, size: nat)
    requires n > 0 && size == w * n
    ensures size - w == w * (n - 1) && size >= w
  {
    assert w * n == w * (n - 1) + w;
  }

  lemma {:induction false} ChunkThenMany(e: DynType, n: nat, chunk: seq<byte>, more: seq<byte>)
    requires n > 0 && TypeSize(e).Some? && |chunk| == TypeSize(e).value
    ensures Decode(e, chunk).Success?
    ensures DecodeMany(e, n, chunk + more) == Behind([Decode(e, chunk).value.value], DecodeMany(e, n - 1, more))
  {
    ChunkIsConsumed(e, chunk);
    MoreInput(e, chunk, more);
    assert [] + more == more;
  }

  lemma {:induction false} ChunkStep(e: DynType, n: nat, values: seq<DynValue>, chunks: seq<byte>, rest: seq<byte>)
    requires n > 0 && TypeSize(e).Some? && |chunks| == TypeSize(e).value * n
    ensures var w := TypeSize(e).value;
            && |chunks| >= w && |chunks[w..]| == w * (n - 1)
            && Decode(e, chunks[..w]).Success?
            && Behind(values, DecodeMany(e, n, chunks + rest))
            == Behind(values + [Decode(e, chunks[..w]).value.value], DecodeMany(e, n - 1, chunks[w..] + rest))
  {
    var w := TypeSize(e).value;
    ChunkSizes(w, n, |chunks|);
    var chunk, more := chunks[..w], chunks[w..] + rest;
    assert chunks + rest == chunk + more;
    ChunkThenMany(e, n, chunk, more);
    BehindOneMore(values, Decode(e, chunk).value.value, DecodeMany(e, n - 1, more));
  }

  /** The chunks of a fixed array's bytes, each decoded by itself. */
  method DeserializeChunks(e: DynType, size: nat, data: seq<byte>,
                           ghost rest: seq<byte>) returns (values: seq<DynValue>)
    requires TypeSize(e).Some? && |data| == TypeSize(e).value * size
    ensures DecodeMany(e, size, data + rest) == Success(Parsed(values, rest))
    decreases e, 1
  {
    var w, chunks := TypeSize(e).value, data;
    values := [];
    BehindNothing(DecodeMany(e, size, data + rest));
    for i := 0 to size
      invariant |chunks| == w * (size - i)
      invariant DecodeMany(e, size, data + rest) == Behind(values, DecodeMany(e, size - i, chunks + rest))
    {
      ChunkStep(e, size - i, values, chunks, rest);
      var p := DeserializeValue(e, chunks[..w]);
      values, chunks := values + [p.value.value], chunks[w..];
    }
    assert chunks + rest == rest;
    NothingBehind(values, rest);
  }

  /** The fixed array branch: the bytes of the whole array, cut into chunks of the element's size. It
      agrees with decoding the element type `size` times in sequence. */
  method DeserializeFixedArray(e: DynType, size: nat, data: seq<byte>) returns (r: Result<Parsed<seq<DynValue>>>)
    requires TypeSize(e).Some?
    ensures r == DecodeMany(e, size, data)
    decreases e, 2
  {
    var total := TypeSize(e).value * size;
    FixedArrayFits(e, size, data);
    if |data| < total {
      return Failure;
    }
    var values := DeserializeChunks(e, size, data[..total], data[total..]);
    assert data[..total] + data[total..] == data;
    return Success(Parsed(values, data[total..]));
  }

  /** The array branch, after the length. */
  method DeserializeArray(e: DynType, length: nat, data: seq<byte>) returns (r: Result<Parsed<seq<DynValue>>>)
    ensures r == DecodeMany(e, length, data)
    decreases e, 1
  {
    var values, remaining := [], data;
    BehindNothing(DecodeMany(e, length, data));
    for i := 0 to length
      invariant |values| == i
      invariant DecodeMany(e, length, data) == Behind(values, DecodeMany(e, length - i, remaining))
    {
      var p := DeserializeValue(e, remaining);
      if p.Failure? {
        return Failure;
      }
      BehindOneMore(values, p.value.value, DecodeMany(e, length - i - 1, p.value.rest));
      values, remaining := values + [p.value.value], p.value.rest;
    }
    NothingBehind(values, remaining);
    return Success(Parsed(values, remaining));
  }

  /** The struct branch. */
  method DeserializeStruct(fields: seq<NamedType>, data: seq<byte>) returns (r: Result<Parsed<seq<NamedValue>>>)
    ensures r == DecodeFields(fields, data)
    decreases fields, 1
  {
    var values, remaining := [], data;
    assert fields[0..] == fields;
    BehindNothing(DecodeFields(fields, data));
    for i := 0 to |fields|
      invariant |values| == i
      invariant DecodeFields(fields, data) == Behind(values, DecodeFields(fields[i..], remaining))
    {
      var p := DeserializeValue(fields[i].ty, remaining);
      assert fields[i..][0] == fields[i] && fields[i..][1..] == fields[i + 1..];
      if p.Failure? {
        return Failure;
      }
      var named := NamedValue(fields[i].name, p.value.value);
      BehindOneMore(values, named, DecodeFields(fields[i + 1..], p.value.rest));
      values, remaining := values + [named], p.value.rest;
    }
    NothingBehind(values, remaining);
    return Success(Parsed(values, remaining));
  }

  method DeserializeValue(t: DynType, data: seq<byte>) returns (r: Result<Parsed<DynValue>>)
    ensures r == Decode(t, data)
    decreases t, 0
  {
    match t
    case Prim(k) =>
      return DecodeNumber(k, data);
    case Boolean =>
      return if data == [] then Failure else Success(Parsed(Bool(data[0] != 0), data[1..]));
    case FixedArray(e, n) =>
      if TypeSize(e).None? {
        return Failure;
      }
      var p := DeserializeFixedArray(e, n, data);
      return ToArr(p);
    case Array(e) =>
      if |data| < 4 {
        return Failure;
      }
      var p := DeserializeArray(e, FromLe(data[..4]), data[4..]);
      return ToArr(p);
    case Struct(fields) =>
      var p := DeserializeStruct(fields, data);
      return if p.Failure? then Failure else Success(Parsed(Record(p.value.value), p.value.rest));
    case Enum(variants) =>
      if data == [] || data[0] >= |variants| {
        return Failure;
      }
      var x := variants[data[0]];
      if x.payload.None? {
        return Success(Parsed(Chosen(x.name, None), data[1..]));
      }
      var p := DeserializeValue(x.payload.value, data[1..]);
      return if p.Failure? then Failure else Success(Parsed(Chosen(x.name, Some(p.value.value)), p.value.rest));
    case Opt(e) =>
      if data == [] || data[0] > 1 {
        return Failure;
      }
      if data[0] == 0 {
        return Success(Parsed(Maybe(None), data[1..]));
      }
      var p := DeserializeValue(e, data[1..]);
      return if p.Failure? then Failure else Success(Parsed(Maybe(Some(p.value.value)), p.value.rest));
  }

  // ---------------------------------------------------------------- instruction data

  function Values(vs: seq<NamedValue>): (r: seq<DynValue>)
    ensures |r| == |vs|
    ensures forall i | 0 <= i < |vs| :: r[i] == vs[i].value
  {
    seq(|vs|, i requires 0 <= i < |vs| => vs[i].value)
  }

  function DecodeData(data: seq<byte>, params: seq<NamedType>, errorOnRemaining: bool): Result<seq<DynValue>> {
    var p := DecodeFields(params, data);
    if p.Failure? || (errorOnRemaining && p.value.rest != []) then Failure else Success(Values(p.value.value))
  }

  method DeserializeData(data: seq<byte>, params: seq<NamedType>, errorOnRemaining: bool)
    returns (r: Result<seq<DynValue>>)
    ensures r == DecodeData(data, params, errorOnRemaining)
  {
    var values, remaining := [], data;
    ghost var named: seq<NamedValue> := [];
    assert params[0..] == params;
    BehindNothing(DecodeFields(params, data));
    for i := 0 to |params|
      invariant |named| == i && values == Values(named)
      invariant DecodeFields(params, data) == Behind(named, DecodeFields(params[i..], remaining))
    {
      assert params[i..][0] == params[i] && params[i..][1..] == params[i + 1..];
      var p := DeserializeValue(params[i].ty, remaining);
      if p.Failure? {
        return Failure;
      }
      ghost var x := NamedValue(params[i].name, p.value.value);
      BehindOneMore(named, x, DecodeFields(params[i + 1..], p.value.rest));
      values, remaining, named := values + [p.value.value], p.value.rest, named + [x];
    }
    NothingBehind(named, remaining);
    return if errorOnRemaining && remaining != [] then Failure else Success(values);
  }

  /** Instruction data written field by field decodes to the values written; trailing bytes are an error
      exactly when they are not allowed. */
  lemma {:induction false} DataRoundTrip(params: seq<NamedType>, vs: seq<NamedValue>, rest: seq<byte>,
                                         errorOnRemaining: bool)
    requires FieldsTyped(params, vs)
    ensures DecodeData(EncodeFields(params, vs) + rest, params, errorOnRemaining)
         == if errorOnRemaining && rest != [] then Failure else Success(Values(vs))
  {
    RoundTripFields(params, vs, rest);
  }

  /** Without trailing bytes a success determines the data, up to the bytes of booleans. */
  lemma {:induction false} StrictDataIsCanonical(data: seq<byte>, params: seq<NamedType>)
    requires DistinctInFields(params) && DecodeData(data, params, true).Success?
    ensures exists vs ::
              && FieldsTyped(params, vs) && DecodeData(data, params, true).value == Values(vs)
              && SameUpToBools(BoolInFields(params), data, EncodeFields(params, vs))
  {
    ReencodingFields(params, data);
    var vs := DecodeFields(params, data).value.value;
    assert Used(data, []) == data;
    assert FieldsTyped(params, vs);
  }
}
