/** Instruction decoding as it runs: one vector for each parameter, grown row by row. */
module SvmDecodeRun {
  import opened Wrappers
  import opened DynTypes
  import opened Deserialize
  import opened SvmDecode
  import B = SvmBatches
  import S = SvmShred
  import Run = SvmShredRun
  import A = Arrow

  /** Pushes a row onto every vector: its values, or a missing value for each parameter. */
  method PushDecoded(vectors: seq<S.Rows>, row: Option<seq<DynValue>>) returns (r: seq<S.Rows>)
    requires row.Some? ==> |row.value| == |vectors|
    ensures |r| == |vectors|
    ensures forall k: nat | k < |vectors| :: r[k] == vectors[k] + [if row.Some? then Some(row.value[k]) else None]
  {
    r := vectors;
    for k := 0 to |vectors|
      invariant |r| == |vectors|
      invariant forall j: nat | j < |vectors| ::
                  r[j] == if j < k then vectors[j] + [if row.Some? then Some(row.value[j]) else None] else vectors[j]
    {
      r := r[k := r[k] + [if row.Some? then Some(row.value[k]) else None]];
    }
  }

  /** One row: null data, a foreign discriminator and malformed parameters all leave nothing. */
  method DecodeOne(sig: Signature, data: Option<Blob>) returns (row: Option<seq<DynValue>>)
    ensures row == DecodeRow(sig, data)
  {
    if data.None? {
      return None;
    }
    var rest := MatchDiscriminators(data.value, sig.discriminator);
    if rest.Failure? {
      return None;
    }
    var values := DeserializeData(rest.value, sig.params, false);
    return if values.Failure? then None else Some(values.value);
  }

  /** The row loop of `decode_instructions`. */
  method DecodeRows(sig: Signature, data: seq<Option<Blob>>, allowFail: bool) returns (ok: bool, vectors: seq<S.Rows>)
    ensures ok <==> Acceptable(sig, data, allowFail)
    ensures ok ==> |vectors| == |sig.params|
    ensures ok ==> forall k: nat | k < |sig.params| :: vectors[k] == ParamColumn(sig, k, data)
  {
    vectors := seq(|sig.params|, k => []);
    for i := 0 to |data|
      invariant Acceptable(sig, data[..i], allowFail)
      invariant |vectors| == |sig.params|
      invariant forall k: nat | k < |sig.params| :: vectors[k] == ParamColumn(sig, k, data[..i])
    {
      assert data[i] in data && data[..i + 1] == data[..i] + [data[i]];
      var row := DecodeOne(sig, data[i]);
      if row.None? && !allowFail {
        return false, vectors;
      }
      vectors := PushDecoded(vectors, row);
      assert forall k: nat | k < |sig.params| :: vectors[k] == ParamColumn(sig, k, data[..i + 1]);
    }
    assert data[..|data|] == data;
    ok := true;
  }

  /** The loop that turns the vectors into arrays. */
  method BuildParams(sig: Signature, data: seq<Option<Blob>>,
                     vectors: seq<S.Rows>) returns (r: Result<seq<A.ArrowArray>>)
    requires |vectors| == |sig.params| && forall k: nat | k < |sig.params| :: vectors[k] == ParamColumn(sig, k, data)
    ensures r == ParamArrays(sig, 0, data)
  {
    var arrays: seq<A.ArrowArray> := [];
    assert ParamArrays(sig, 0, data).Success? ==>
             [] + ParamArrays(sig, 0, data).value == ParamArrays(sig, 0, data).value;
    for k := 0 to |sig.params|
      invariant ParamArrays(sig, 0, data) == A.InFront(arrays, ParamArrays(sig, k, data))
    {
      var a := Run.ToArrowArray(sig.params[k].ty, vectors[k]);
      if a.Failure? {
        return Failure;
      }
      A.OneMoreInFront(arrays, a.value, ParamArrays(sig, k + 1, data));
      arrays := arrays + [a.value];
    }
    assert arrays + [] == arrays;
    return Success(arrays);
  }

  method DecodeInstructionRows(sig: Signature, accounts: seq<seq<Option<Blob>>>, data: seq<Option<Blob>>,
                               allowFail: bool)
    returns (r: Result<seq<A.ArrowColumn>>)
    ensures r == DecodeInstructions(sig, accounts, data, allowFail)
  {
    var ok, vectors := DecodeRows(sig, data, allowFail);
    if !ok {
      return Failure;
    }
    var params := BuildParams(sig, data, vectors);
    var fields := S.FieldDtypes(sig.params);
    if params.Failure? || fields.Failure? || |accounts| < |sig.accountNames| {
      return Failure;
    }
    return A.TryNewBatch(fields.value + AccountFields(sig), params.value + AccountArrays(sig, accounts));
  }

  /** `unpack_rest_of_accounts`: checks every list, then fills one column for each account. */
  method UnpackRestOfAccounts(n: nat, rest: seq<Option<seq<Option<Blob>>>>, arrays: seq<seq<Option<Blob>>>)
    returns (r: Result<seq<seq<Option<Blob>>>>)
    ensures r == if LongEnough(n, rest) then Success(arrays + Unpacked(rest, n)) else Failure
  {
    for row := 0 to |rest|
      invariant LongEnough(n, rest[..row])
    {
      assert rest[row] in rest && rest[..row + 1] == rest[..row] + [rest[row]];
      if rest[row].Some? && |rest[row].value| < n {
        return Failure;
      }
    }
    assert rest[..|rest|] == rest;
    var columns: seq<seq<Option<Blob>>> := [];
    for i := 0 to n
      invariant |columns| == i && forall j | 0 <= j < i :: columns[j] == UnpackedColumn(rest, j)
    {
      var column: seq<Option<Blob>> := [];
      for row := 0 to |rest|
        invariant |column| == row && forall j | 0 <= j < row :: column[j] == AccountOf(rest[j], i)
      {
        assert rest[row] in rest;
        column := column + [if rest[row].Some? then rest[row].value[i] else None];
      }
      assert column == UnpackedColumn(rest, i);
      columns := columns + [column];
    }
    assert columns == Unpacked(rest, n);
    return Success(arrays + columns);
  }

  lemma {:induction false} FixedFailLater(b: Batch, i: nat, n: nat)
    requires i <= n <= |b.accounts| && FixedAccounts(b, i).Failure?
    ensures FixedAccounts(b, n).Failure?
  {
    if i < n {
      FixedFailLater(b, i, n - 1);
    }
  }

  method GatherAccounts(sig: Signature, b: Batch) returns (r: Result<seq<seq<Option<Blob>>>>)
    requires |b.accounts| == 10
    ensures r == Accounts(sig, b)
  {
    var n := if |sig.accountNames| < 10 then |sig.accountNames| else 10;
    var arrays: seq<seq<Option<Blob>>> := [];
    for i := 0 to n
      invariant FixedAccounts(b, i) == Success(arrays)
    {
      if b.accounts[i].Missing? {
        FixedFailLater(b, i + 1, n);
        return Failure;
      }
      if b.accounts[i].Cells? {
        arrays := arrays + [b.accounts[i].cells];
      }
    }
    if |sig.accountNames| <= 10 {
      return Success(arrays);
    }
    match b.rest
    case Missing =>
      r := Failure;
    case OtherType =>
      r := Success(arrays);
    case Cells(rest) =>
      r := UnpackRestOfAccounts(|sig.accountNames| - 10, rest, arrays);
  }

  /** `hstack_impl` */
  method HStack(decoded: seq<A.ArrowColumn>, input: seq<A.ArrowColumn>) returns (r: Result<seq<A.ArrowColumn>>)
    ensures r == A.StackBatch(decoded, input)
  {
    var fields, arrays := A.Fields(decoded), A.DataOf(decoded);
    for i := 0 to |input|
      invariant fields == A.Fields(decoded) + A.Fields(input)[..i]
      invariant arrays == A.DataOf(decoded) + A.DataOf(input)[..i]
    {
      fields := fields + [A.ArrowField(input[i].name, A.TypeOf(input[i].data))];
      arrays := arrays + [input[i].data];
    }
    assert fields == A.Fields(decoded) + A.Fields(input) && arrays == A.DataOf(decoded) + A.DataOf(input);
    return A.TryNewBatch(fields, arrays);
  }

  method DecodeInstructionsBatch(sig: Signature, b: Batch, allowFail: bool, filter: bool, stack: bool)
    returns (r: Result<seq<A.ArrowColumn>>)
    requires |b.accounts| == 10
    ensures r == DecodeBatch(sig, b, allowFail, filter, stack)
    ensures ValidBatch(b) ==> exists rows ::
              && B.OutputRows(sig, b, filter, rows) && (r.Success? <==> B.BatchDecodes(sig, b, allowFail, rows))
              && (r.Success? ==> B.ShowsBatch(sig, b, stack, rows, r.value))
  {
    if ValidBatch(b) {
      ghost var rows := B.BatchIsDecoded(sig, b, allowFail, filter, stack);
    }
    var batch := b;
    if filter {
      var kept := FilterByDiscriminator(sig, b);
      if kept.Failure? {
        return Failure;
      }
      batch := kept.value;
    }
    var accounts := GatherAccounts(sig, batch);
    if accounts.Failure? || !batch.data.Cells? {
      return Failure;
    }
    r := DecodeInstructionRows(sig, accounts.value, batch.data.cells, allowFail);
    if stack && r.Success? {
      r := HStack(r.value, batch.columns);
    }
  }
}
