/** A decoded instruction batch, told from the bytes of the input batch alone. */
module SvmBatches {
  import opened Wrappers
  import opened DynTypes
  import opened Deserialize
  import opened BorshWire
  import opened SvmDecode
  import S = SvmShred
  import L = SvmLossless
  import M = SvmMeaning
  import N = NameCollisions
  import A = Arrow
  import T = Tables
  import K = Kernels
  import Q = QueryLaws

  // ---------------------------------------------------------------- one instruction

  /** The data is the discriminator, n bytes that stand for these parameters, and anything. */
  ghost predicate ReadsAs(sig: Signature, d: Blob, vs: seq<NamedValue>, n: nat) {
    var from := |sig.discriminator|;
    && from + n <= |d| && d[..from] == sig.discriminator && FieldsOnWire(sig.params, vs, d[from..from + n])
  }

  ghost predicate Readable(sig: Signature, d: Option<Blob>) {
    d.Some? && exists vs, n :: ReadsAs(sig, d.value, vs, n)
  }

  lemma {:induction false} ReadsDecode(sig: Signature, d: Blob, vs: seq<NamedValue>, n: nat)
    ensures ReadsAs(sig, d, vs, n) ==> DecodeRow(sig, Some(d)) == Some(Values(vs)) && |vs| == |sig.params|
  {
    if ReadsAs(sig, d, vs, n) {
      var rest := d[|sig.discriminator|..];
      assert rest[..n] == d[|sig.discriminator|..|sig.discriminator| + n];
      FieldsWireDecode(sig.params, vs, rest[..n], rest[n..]);
      assert rest[..n] + rest[n..] == rest;
      DecodedFields(sig.params, rest);
    }
  }

  lemma {:induction false} DecodedReads(sig: Signature, d: Blob) returns (vs: seq<NamedValue>, n: nat)
    requires DecodeRow(sig, Some(d)).Some?
    ensures ReadsAs(sig, d, vs, n) && DecodeRow(sig, Some(d)) == Some(Values(vs))
  {
    var from := |sig.discriminator|;
    var rest := d[from..];
    var p := Borsh.DecodeFields(sig.params, rest).value;
    FieldsFromWire(sig.params, rest);
    vs, n := p.value, |rest| - |p.rest|;
    assert d[from..from + n] == Borsh.Used(rest, p.rest);
  }

  /** A row is decoded exactly when its data can be read. */
  lemma {:induction false} DecodedIffReadable(sig: Signature, d: Option<Blob>)
    ensures DecodeRow(sig, d).Some? <==> Readable(sig, d)
  {
    if d.Some? {
      if DecodeRow(sig, d).Some? {
        var vs, n := DecodedReads(sig, d.value);
      }
      if vs, n :| ReadsAs(sig, d.value, vs, n) {
        ReadsDecode(sig, d.value, vs, n);
      }
    }
  }

  /** Whatever follows the parameters, they are decoded to what was written. */
  lemma {:induction false} WrittenRowIsRead(sig: Signature, data: seq<Option<Blob>>, row: nat, vs: seq<NamedValue>,
                                            rest: Blob, k: nat)
    requires FieldsTyped(sig.params, vs) && row < |data| && k < |sig.params|
    requires data[row] == Some(sig.discriminator + Borsh.EncodeFields(sig.params, vs) + rest)
    ensures ParamColumn(sig, k, data)[row] == Some(vs[k].value)
  {
    var b, d := Borsh.EncodeFields(sig.params, vs), data[row].value;
    Borsh.RoundTripFields(sig.params, vs, rest);
    assert d[|sig.discriminator|..] == b + rest;
    assert sig.discriminator <= d;
  }

  /** A row has no parameters exactly when its data is null, starts differently, or has no parameters
      behind the discriminator. */
  lemma {:induction false} MissingIff(sig: Signature, data: seq<Option<Blob>>, row: nat, k: nat)
    requires row < |data| && k < |sig.params|
    ensures ParamColumn(sig, k, data)[row].None? <==>
            || data[row].None?
            || !(|sig.discriminator| <= |data[row].value|
                 && data[row].value[..|sig.discriminator|] == sig.discriminator)
            || !(exists vs, n :: ReadsAs(sig, data[row].value, vs, n))
  {
    DecodedIffReadable(sig, data[row]);
  }

  // ---------------------------------------------------------------- what a row of the input says

  function DataAt(b: Batch, i: nat): Option<Blob> {
    if b.data.Cells? && i < |b.data.cells| then b.data.cells[i] else None
  }

  function RestAt(b: Batch, i: nat): Option<seq<Option<Blob>>> {
    if b.rest.Cells? && i < |b.rest.cells| then b.rest.cells[i] else None
  }

  /** Account j of row i: column `a{j}`, from the tenth on element j - 10 of `rest_of_accounts`. */
  function AccountAt(b: Batch, j: nat, i: nat): Option<Blob>
    requires |b.accounts| == 10
  {
    if j < 10 then
      if b.accounts[j].Cells? && i < |b.accounts[j].cells| then b.accounts[j].cells[i] else None
    else if RestAt(b, i).Some? && j - 10 < |RestAt(b, i).value| then RestAt(b, i).value[j - 10]
    else None
  }

  function BlobCell(c: Option<Blob>): A.Cell {
    if c.Some? then A.Scalar(A.Blob(c.value)) else A.Null
  }

  /** The cells of a row hold the parameters that were read, or are all missing. */
  ghost predicate ParamsShown(sig: Signature, d: Option<Blob>, out: seq<A.ArrowColumn>, r: nat)
    requires |sig.params| <= |out|
  {
    && (d.Some? ==> forall vs, n | ReadsAs(sig, d.value, vs, n) :: ParamsHeld(sig, vs, out, r))
    && (!Readable(sig, d) ==> forall k | 0 <= k < |sig.params| :: M.Missing(sig.params[k].ty, A.At(out[k].data, r)))
  }

  predicate ParamsHeld(sig: Signature, vs: seq<NamedValue>, out: seq<A.ArrowColumn>, r: nat)
    requires |sig.params| <= |out|
  {
    && |vs| == |sig.params|
    && forall k | 0 <= k < |sig.params| :: M.IsCellOf(sig.params[k].ty, vs[k].value, A.At(out[k].data, r))
  }

  predicate AccountShown(sig: Signature, b: Batch, j: nat, i: nat, out: seq<A.ArrowColumn>, r: nat)
    requires |b.accounts| == 10 && j < |sig.accountNames| && |sig.params| + |sig.accountNames| <= |out|
  {
    A.At(out[|sig.params| + j].data, r) == BlobCell(AccountAt(b, j, i))
  }

  ghost predicate RowShown(sig: Signature, b: Batch, i: nat, out: seq<A.ArrowColumn>, r: nat)
    requires |b.accounts| == 10 && |sig.params| + |sig.accountNames| <= |out|
  {
    && ParamsShown(sig, DataAt(b, i), out, r)
    && forall j | 0 <= j < |sig.accountNames| :: AccountShown(sig, b, j, i, out, r)
  }

  /** Parameters under their names, accounts under theirs or `a` and their number. */
  predicate FieldsShown(sig: Signature, out: seq<A.ArrowColumn>) {
    && |sig.params| + |sig.accountNames| <= |out|
    && (forall k | 0 <= k < |sig.params| ::
          out[k].name == sig.params[k].name && M.TypeFits(sig.params[k].ty, A.TypeOf(out[k].data)))
    && (forall j | 0 <= j < |sig.accountNames| :: AccountNamed(sig, j, out))
  }

  predicate AccountNamed(sig: Signature, j: nat, out: seq<A.ArrowColumn>)
    requires j < |sig.accountNames| && |sig.params| + |sig.accountNames| <= |out|
  {
    var c := out[|sig.params| + j];
    && c.name == (if sig.accountNames[j] == "" then "a" + N.Decimal(j) else sig.accountNames[j])
    && A.TypeOf(c.data) == A.Binary
  }

  // ---------------------------------------------------------------- when a batch is decoded

  /** The columns decoding needs are of the expected types. */
  predicate ColumnsThere(sig: Signature, b: Batch)
    requires |b.accounts| == 10
  {
    && b.data.Cells? && (forall j | 0 <= j < 10 && j < |sig.accountNames| :: b.accounts[j].Cells?)
    && (|sig.accountNames| > 10 ==> b.rest.Cells?)
  }

  /** Parameters that are read fit their columns; a row without any is allowed to fail. */
  ghost predicate DataTaken(sig: Signature, allowFail: bool, d: Option<Blob>) {
    && (allowFail || Readable(sig, d))
    && (d.Some? ==> forall vs, n | ReadsAs(sig, d.value, vs, n) :: ParamsAccepted(sig, vs))
  }

  predicate ParamsAccepted(sig: Signature, vs: seq<NamedValue>) {
    |vs| == |sig.params| && forall k | 0 <= k < |sig.params| :: M.Accepts(sig.params[k].ty, vs[k].value)
  }

  /** A list of further accounts is long enough. */
  predicate ListTaken(sig: Signature, l: Option<seq<Option<Blob>>>) {
    l.Some? ==> |sig.accountNames| <= 10 + |l.value|
  }

  ghost predicate RowTaken(sig: Signature, allowFail: bool, b: Batch, i: nat) {
    DataTaken(sig, allowFail, DataAt(b, i)) && (|sig.accountNames| > 10 ==> ListTaken(sig, RestAt(b, i)))
  }

  ghost predicate BatchDecodes(sig: Signature, b: Batch, allowFail: bool, rows: seq<nat>)
    requires |b.accounts| == 10
  {
    && ColumnsThere(sig, b) && (sig.params != [] || sig.accountNames != [])
    && (forall p | p in sig.params :: L.Shreddable(p.ty))
    && forall i | i in rows :: RowTaken(sig, allowFail, b, i)
  }

  lemma {:induction false} FixedThere(b: Batch, n: nat)
    requires |b.accounts| == 10 && n <= 10
    ensures FixedAccounts(b, n).Success? ==> |FixedAccounts(b, n).value| <= n
    ensures FixedAccounts(b, n).Success? && |FixedAccounts(b, n).value| == n
       <==> forall j | 0 <= j < n :: b.accounts[j].Cells?
  {
    if n > 0 {
      FixedThere(b, n - 1);
    }
  }

  predicate ListsLongEnough(sig: Signature, b: Batch) {
    |sig.accountNames| > 10 ==> b.rest.Cells? && LongEnough(|sig.accountNames| - 10, b.rest.cells)
  }

  lemma {:induction false} AccountsThere(sig: Signature, b: Batch)
    requires |b.accounts| == 10 && b.data.Cells?
    ensures Accounts(sig, b).Success? && |sig.accountNames| <= |Accounts(sig, b).value|
       <==> ColumnsThere(sig, b) && ListsLongEnough(sig, b)
  {
    var n := |sig.accountNames|;
    FixedThere(b, if n < 10 then n else 10);
  }

  predicate ParamConverts(sig: Signature, j: nat, data: seq<Option<Blob>>)
    requires j < |sig.params|
  {
    S.ToArrow(sig.params[j].ty, ParamColumn(sig, j, data)).Success?
  }

  /** The parameter columns, one by one. */
  lemma {:induction false} ParamArraysEach(sig: Signature, k: nat, data: seq<Option<Blob>>)
    requires k <= |sig.params|
    ensures ParamArrays(sig, k, data).Success? <==> forall j | k <= j < |sig.params| :: ParamConverts(sig, j, data)
    decreases |sig.params| - k
  {
    if k < |sig.params| {
      ParamArraysEach(sig, k + 1, data);
      if ParamConverts(sig, k, data) {
        assert (forall j | k <= j < |sig.params| :: ParamConverts(sig, j, data))
          <==> forall j | k + 1 <= j < |sig.params| :: ParamConverts(sig, j, data);
      }
    }
  }

  lemma {:induction false} ParamArrayAt(sig: Signature, k: nat, data: seq<Option<Blob>>, j: nat)
    requires k <= j < |sig.params| && ParamArrays(sig, k, data).Success?
    ensures |ParamArrays(sig, k, data).value| == |sig.params| - k
    ensures ParamConverts(sig, j, data)
    ensures ParamArrays(sig, k, data).value[j - k] == S.ToArrow(sig.params[j].ty, ParamColumn(sig, j, data)).value
    decreases |sig.params| - k
  {
    ParamArraysCount(sig, k, data);
    if k < j {
      ParamArrayAt(sig, k + 1, data, j);
    }
  }

  // ---------------------------------------------------------------- acceptance, row by row

  predicate DecodedAccepted(sig: Signature, d: Option<Blob>) {
    var row := DecodeRow(sig, d);
    row.Some? ==> forall k | 0 <= k < |sig.params| :: M.Accepts(sig.params[k].ty, row.value[k])
  }

  lemma {:induction false} AcceptedIffRead(sig: Signature, d: Option<Blob>)
    ensures DecodedAccepted(sig, d)
       <==> (d.Some? ==> forall vs, n | ReadsAs(sig, d.value, vs, n) :: ParamsAccepted(sig, vs))
  {
    if d.Some? {
      if DecodedAccepted(sig, d) {
        forall vs, n | ReadsAs(sig, d.value, vs, n) ensures ParamsAccepted(sig, vs) {
          ReadsDecode(sig, d.value, vs, n);
        }
      }
      if DecodeRow(sig, d).Some? && forall vs, n | ReadsAs(sig, d.value, vs, n) :: ParamsAccepted(sig, vs) {
        var vs, n := DecodedReads(sig, d.value);
        assert ParamsAccepted(sig, vs);
      }
    }
  }

  predicate EveryParamAccepted(sig: Signature, data: seq<Option<Blob>>) {
    forall k: nat | k < |sig.params| :: M.RowsAccepted(sig.params[k].ty, ParamColumn(sig, k, data))
  }

  lemma {:induction false} ColumnsAcceptedIffRows(sig: Signature, data: seq<Option<Blob>>)
    ensures EveryParamAccepted(sig, data) <==> forall d | d in data :: DecodedAccepted(sig, d)
  {
    if EveryParamAccepted(sig, data) {
      forall i | 0 <= i < |data| ensures DecodedAccepted(sig, data[i]) {
        forall k: nat | k < |sig.params| && DecodeRow(sig, data[i]).Some?
          ensures M.Accepts(sig.params[k].ty, DecodeRow(sig, data[i]).value[k])
        {
          assert M.RowsAccepted(sig.params[k].ty, ParamColumn(sig, k, data));
          assert ParamColumn(sig, k, data)[i] in ParamColumn(sig, k, data);
        }
      }
    }
    if forall d | d in data :: DecodedAccepted(sig, d) {
      forall k: nat | k < |sig.params| ensures M.RowsAccepted(sig.params[k].ty, ParamColumn(sig, k, data)) {
        forall v | v in ParamColumn(sig, k, data) && v.Some? ensures M.Accepts(sig.params[k].ty, v.value) {
          var i :| 0 <= i < |data| && ParamColumn(sig, k, data)[i] == v;
          assert data[i] in data && DecodedAccepted(sig, data[i]);
        }
      }
    }
  }

  /** The parameter columns are built iff every type has a column and takes what was read. */
  lemma {:induction false} ParamArraysIff(sig: Signature, data: seq<Option<Blob>>)
    ensures ParamArrays(sig, 0, data).Success?
       <==> (forall p | p in sig.params :: L.Shreddable(p.ty)) && forall d | d in data :: DecodedAccepted(sig, d)
  {
    ParamArraysEach(sig, 0, data);
    ColumnsAcceptedIffRows(sig, data);
    forall k: nat | k < |sig.params|
      ensures ParamConverts(sig, k, data)
         <==> L.Shreddable(sig.params[k].ty) && M.RowsAccepted(sig.params[k].ty, ParamColumn(sig, k, data))
    {
      M.ColumnIsAsAnnounced(sig.params[k].ty, ParamColumn(sig, k, data));
    }
    if ParamArrays(sig, 0, data).Success? {
      forall k: nat | k < |sig.params|
        ensures L.Shreddable(sig.params[k].ty) && M.RowsAccepted(sig.params[k].ty, ParamColumn(sig, k, data))
      {
        assert ParamConverts(sig, k, data);
      }
    }
    if EveryParamAccepted(sig, data) && forall p | p in sig.params :: L.Shreddable(p.ty) {
      forall k: nat | k < |sig.params| ensures ParamConverts(sig, k, data) {
        assert sig.params[k] in sig.params;
      }
    }
  }

  /** The announced fields have the types of the parameter columns. */
  lemma {:induction false} ParamFields(sig: Signature, k: nat, data: seq<Option<Blob>>)
    requires k <= |sig.params| && ParamArrays(sig, k, data).Success?
    ensures S.FieldDtypes(sig.params[k..]).Success?
    ensures var fs, arrays := S.FieldDtypes(sig.params[k..]).value, ParamArrays(sig, k, data).value;
            |fs| == |arrays| && forall j | 0 <= j < |arrays| :: A.TypeOf(arrays[j]) == fs[j].ty
    decreases |sig.params| - k
  {
    if k < |sig.params| {
      ParamFields(sig, k + 1, data);
      S.ShreddingIsFaithful(sig.params[k].ty, ParamColumn(sig, k, data));
      assert sig.params[k..][0] == sig.params[k] && sig.params[k..][1..] == sig.params[k + 1..];
    }
  }

  // ---------------------------------------------------------------- the whole input batch

  function Schema(sig: Signature): seq<A.ArrowField>
    requires S.FieldDtypes(sig.params).Success?
  {
    S.FieldDtypes(sig.params).value + AccountFields(sig)
  }

  function Arrays(sig: Signature, b: Batch): seq<A.ArrowArray>
    requires |b.accounts| == 10 && b.data.Cells? && ParamArrays(sig, 0, b.data.cells).Success?
    requires Accounts(sig, b).Success? && |sig.accountNames| <= |Accounts(sig, b).value|
  {
    ParamArrays(sig, 0, b.data.cells).value + AccountArrays(sig, Accounts(sig, b).value)
  }

  predicate ColumnsFit(fields: seq<A.ArrowField>, arrays: seq<A.ArrowArray>, rows: nat) {
    && |fields| == |arrays|
    && forall k | 0 <= k < |arrays| :: A.TypeOf(arrays[k]) == fields[k].ty && A.Len(arrays[k]) == rows
  }

  lemma {:induction false} FitsTogether(f: seq<A.ArrowField>, g: seq<A.ArrowField>, x: seq<A.ArrowArray>,
                                        y: seq<A.ArrowArray>, rows: nat)
    requires ColumnsFit(f, x, rows) && ColumnsFit(g, y, rows)
    ensures ColumnsFit(f + g, x + y, rows)
  {
  }

  lemma {:induction false} ParamsFit(sig: Signature, data: seq<Option<Blob>>)
    requires ParamArrays(sig, 0, data).Success?
    ensures S.FieldDtypes(sig.params).Success? && |ParamArrays(sig, 0, data).value| == |sig.params|
    ensures ColumnsFit(S.FieldDtypes(sig.params).value, ParamArrays(sig, 0, data).value, |data|)
  {
    assert sig.params[0..] == sig.params;
    ParamFields(sig, 0, data);
    ParamArraysCount(sig, 0, data);
    ParamArraysLength(sig, 0, data);
    var arrays := ParamArrays(sig, 0, data).value;
    forall k | 0 <= k < |arrays| ensures A.Len(arrays[k]) == |data| {
      assert arrays[k] in arrays;
    }
  }

  lemma {:induction false} AccountsFit(sig: Signature, b: Batch)
    requires ValidBatch(b) && Accounts(sig, b).Success? && |sig.accountNames| <= |Accounts(sig, b).value|
    ensures ColumnsFit(AccountFields(sig), AccountArrays(sig, Accounts(sig, b).value), b.rows)
  {
    AccountsLength(sig, b);
    forall j | 0 <= j < |sig.accountNames| ensures |Accounts(sig, b).value[j]| == b.rows {
      assert Accounts(sig, b).value[j] in Accounts(sig, b).value;
    }
  }

  /** Everything decoded makes a batch, if there is a column at all. */
  lemma {:induction false} BatchBuilt(sig: Signature, b: Batch)
    requires ValidBatch(b) && b.data.Cells? && ParamArrays(sig, 0, b.data.cells).Success?
    requires Accounts(sig, b).Success? && |sig.accountNames| <= |Accounts(sig, b).value|
    ensures S.FieldDtypes(sig.params).Success? && ColumnsFit(Schema(sig), Arrays(sig, b), b.rows)
    ensures A.TryNewBatch(Schema(sig), Arrays(sig, b)).Success? <==> sig.params != [] || sig.accountNames != []
  {
    ParamsFit(sig, b.data.cells);
    AccountsFit(sig, b);
    FitsTogether(S.FieldDtypes(sig.params).value, AccountFields(sig),
                 ParamArrays(sig, 0, b.data.cells).value, AccountArrays(sig, Accounts(sig, b).value), b.rows);
  }

  lemma {:induction false} ListsOfRows(sig: Signature, b: Batch)
    requires ValidBatch(b) && b.rest.Cells? && |sig.accountNames| > 10
    ensures LongEnough(|sig.accountNames| - 10, b.rest.cells)
       <==> forall i | 0 <= i < b.rows :: ListTaken(sig, RestAt(b, i))
  {
    if LongEnough(|sig.accountNames| - 10, b.rest.cells) {
      forall i | 0 <= i < b.rows ensures ListTaken(sig, RestAt(b, i)) {
        assert b.rest.cells[i] in b.rest.cells;
      }
    }
    if forall i | 0 <= i < b.rows :: ListTaken(sig, RestAt(b, i)) {
      forall l | l in b.rest.cells && l.Some? ensures |l.value| >= |sig.accountNames| - 10 {
        var i :| 0 <= i < |b.rest.cells| && b.rest.cells[i] == l;
        assert ListTaken(sig, RestAt(b, i));
      }
    }
  }

  lemma {:induction false} RowsOfData(sig: Signature, b: Batch, allowFail: bool)
    requires ValidBatch(b) && b.data.Cells?
    ensures Acceptable(sig, b.data.cells, allowFail) && (forall d | d in b.data.cells :: DecodedAccepted(sig, d))
       <==> forall i | 0 <= i < b.rows :: DataTaken(sig, allowFail, DataAt(b, i))
  {
    var data := b.data.cells;
    forall i | 0 <= i < b.rows
      ensures data[i] in data && DataAt(b, i) == data[i]
      ensures DataTaken(sig, allowFail, data[i])
         <==> (allowFail || DecodeRow(sig, data[i]).Some?) && DecodedAccepted(sig, data[i])
    {
      DecodedIffReadable(sig, data[i]);
      AcceptedIffRead(sig, data[i]);
    }
    if forall i | 0 <= i < b.rows :: DataTaken(sig, allowFail, DataAt(b, i)) {
      forall d | d in data ensures (allowFail || DecodeRow(sig, d).Some?) && DecodedAccepted(sig, d) {
        var i :| 0 <= i < |data| && data[i] == d;
        assert DataTaken(sig, allowFail, DataAt(b, i));
      }
    }
  }

  /** When a batch without the filter in front is decoded. */
  lemma {:induction false} UnfilteredDecodesIff(sig: Signature, b: Batch, allowFail: bool)
    requires ValidBatch(b)
    ensures DecodeUnfiltered(sig, b, allowFail).Success? <==> BatchDecodes(sig, b, allowFail, K.Range(0, b.rows))
  {
    if b.data.Cells? {
      AccountsThere(sig, b);
      ParamArraysIff(sig, b.data.cells);
      RowsOfData(sig, b, allowFail);
      RowsOfRange(sig, b, allowFail);
      if b.rest.Cells? && |sig.accountNames| > 10 {
        ListsOfRows(sig, b);
      }
      if && ParamArrays(sig, 0, b.data.cells).Success?
         && Accounts(sig, b).Success? && |sig.accountNames| <= |Accounts(sig, b).value|
      {
        BatchBuilt(sig, b);
      }
    }
  }

  lemma {:induction false} RowsOfRange(sig: Signature, b: Batch, allowFail: bool)
    requires ValidBatch(b)
    ensures (forall i | i in K.Range(0, b.rows) :: RowTaken(sig, allowFail, b, i))
       <==> && (forall i | 0 <= i < b.rows :: DataTaken(sig, allowFail, DataAt(b, i)))
            && (|sig.accountNames| > 10 ==> forall i | 0 <= i < b.rows :: ListTaken(sig, RestAt(b, i)))
  {
    forall i | 0 <= i < b.rows ensures i in K.Range(0, b.rows) {
      assert K.Range(0, b.rows)[i] == i;
    }
    if forall i | i in K.Range(0, b.rows) :: RowTaken(sig, allowFail, b, i) {
      forall i | 0 <= i < b.rows
        ensures DataTaken(sig, allowFail, DataAt(b, i)) && (|sig.accountNames| > 10 ==> ListTaken(sig, RestAt(b, i)))
      {
        assert RowTaken(sig, allowFail, b, i);
      }
    }
  }

  /** Row i of the parameter columns. */
  lemma {:induction false} ParamRow(sig: Signature, b: Batch, out: seq<A.ArrowColumn>, i: nat)
    requires b.data.Cells? && i < |b.data.cells| && ParamArrays(sig, 0, b.data.cells).Success?
    requires |sig.params| <= |out| && |ParamArrays(sig, 0, b.data.cells).value| == |sig.params|
    requires forall k | 0 <= k < |sig.params| :: out[k].data == ParamArrays(sig, 0, b.data.cells).value[k]
    ensures ParamsShown(sig, DataAt(b, i), out, i)
  {
    var data := b.data.cells;
    forall k: nat | k < |sig.params|
      ensures M.RowHeld(sig.params[k].ty, ParamCell(sig, k, data[i]), A.At(out[k].data, i))
    {
      ParamArrayAt(sig, 0, data, k);
      M.ColumnIsAsAnnounced(sig.params[k].ty, ParamColumn(sig, k, data));
      assert ParamColumn(sig, k, data)[i] == ParamCell(sig, k, data[i]);
    }
    if data[i].Some? {
      forall vs, n | ReadsAs(sig, data[i].value, vs, n) ensures ParamsHeld(sig, vs, out, i) {
        ReadsDecode(sig, data[i].value, vs, n);
      }
    }
    DecodedIffReadable(sig, data[i]);
  }

  lemma {:induction false} FixedCells(b: Batch, n: nat, j: nat)
    requires ValidBatch(b) && j < n <= 10 && FixedAccounts(b, n).Success? && |FixedAccounts(b, n).value| == n
    ensures b.accounts[j].Cells? && FixedAccounts(b, n).value[j] == b.accounts[j].cells
  {
    FixedThere(b, n - 1);
    if j < n - 1 {
      FixedCells(b, n - 1, j);
    }
  }

  /** Account column j, cell by cell. */
  lemma {:induction false} AccountRow(sig: Signature, b: Batch, j: nat, i: nat)
    requires ValidBatch(b) && b.data.Cells? && Accounts(sig, b).Success?
    requires j < |sig.accountNames| <= |Accounts(sig, b).value| && i < b.rows
    ensures A.At(BinaryLeaf(Accounts(sig, b).value[j]), i) == BlobCell(AccountAt(b, j, i))
  {
    var n := |sig.accountNames|;
    FixedThere(b, if n < 10 then n else 10);
    if j < 10 {
      FixedCells(b, if n < 10 then n else 10, j);
      assert b.accounts[j] in b.accounts;
    }
  }

  /** What is decoded without the filter: its fields, and row for row the input. */
  lemma {:induction false} UnfilteredShown(sig: Signature, b: Batch, allowFail: bool)
    requires ValidBatch(b) && DecodeUnfiltered(sig, b, allowFail).Success?
    ensures |DecodeUnfiltered(sig, b, allowFail).value| == |sig.params| + |sig.accountNames|
    ensures FieldsShown(sig, DecodeUnfiltered(sig, b, allowFail).value)
    ensures A.Aligned(DecodeUnfiltered(sig, b, allowFail).value, b.rows)
    ensures forall i | 0 <= i < b.rows :: RowShown(sig, b, i, DecodeUnfiltered(sig, b, allowFail).value, i)
  {
    var out, data := DecodeUnfiltered(sig, b, allowFail).value, b.data.cells;
    DecodedAligned(sig, b, allowFail);
    BatchBuilt(sig, b);
    ParamsFit(sig, data);
    M.AnnouncedFieldsFit(sig.params);
    var accounts := Accounts(sig, b).value;
    forall k | 0 <= k < |sig.params| ensures out[k].data == ParamArrays(sig, 0, data).value[k] {
    }
    forall j | 0 <= j < |sig.accountNames|
      ensures AccountNamed(sig, j, out) && out[|sig.params| + j].data == BinaryLeaf(accounts[j])
    {
      assert Schema(sig)[|sig.params| + j] == AccountFields(sig)[j];
      assert Arrays(sig, b)[|sig.params| + j] == AccountArrays(sig, accounts)[j];
    }
    forall i | 0 <= i < b.rows ensures RowShown(sig, b, i, out, i) {
      ParamRow(sig, b, out, i);
      forall j | 0 <= j < |sig.accountNames| ensures AccountShown(sig, b, j, i, out, i) {
        AccountRow(sig, b, j, i);
      }
    }
  }

  // ---------------------------------------------------------------- behind the filter

  /** The rows that reach the output: all of them, or with the filter those whose data starts with the
      discriminator. */
  ghost predicate OutputRows(sig: Signature, b: Batch, filter: bool, rows: seq<nat>) {
    && Q.Ascending(rows)
    && forall i: nat :: i in rows <==> i < b.rows && (filter && b.data.Cells? ==> StartsRight(sig, DataAt(b, i)))
  }

  predicate StartsRight(sig: Signature, d: Option<Blob>) {
    && d.Some? && |sig.discriminator| <= |d.value|
    && forall j | 0 <= j < |sig.discriminator| :: d.value[j] == sig.discriminator[j]
  }

  /** The output: the announced columns, then the input's when stacked, and in row r what row rows[r] of the
      input says. */
  ghost predicate ShowsBatch(sig: Signature, b: Batch, stack: bool, rows: seq<nat>, out: seq<A.ArrowColumn>)
    requires |b.accounts| == 10
  {
    && |out| == |sig.params| + |sig.accountNames| + (if stack then |b.columns| else 0) && A.Aligned(out, |rows|)
    && FieldsShown(sig, out)
    && (forall r | 0 <= r < |rows| :: RowShown(sig, b, rows[r], out, r))
    && (stack ==> StackedShown(b, rows, out[|sig.params| + |sig.accountNames|..]))
  }

  predicate StackedShown(b: Batch, rows: seq<nat>, out: seq<A.ArrowColumn>) {
    && A.Fields(out) == A.Fields(b.columns)
    && forall r | 0 <= r < |rows| :: A.CellsAt(out, r) == A.CellsAt(b.columns, rows[r])
  }

  /** Row r of what is kept says what row i says. */
  ghost predicate SameRow(kept: Batch, r: nat, b: Batch, i: nat)
    requires |b.accounts| == 10 && |kept.accounts| == 10
  {
    && DataAt(kept, r) == DataAt(b, i) && RestAt(kept, r) == RestAt(b, i)
    && forall j: nat :: AccountAt(kept, j, r) == AccountAt(b, j, i)
  }

  lemma {:induction false} KeptCell<X>(c: Column<X>, rows: nat, m: T.Mask, r: nat)
    requires Fits(c, rows) && |m| == rows && r < |Q.Positions(m, 0)| && c.Cells?
    ensures var kept := KeepColumn(c, m);
            kept.Cells? && |kept.cells| == |Q.Positions(m, 0)| && Q.Positions(m, 0)[r] < rows
            && kept.cells[r] == c.cells[Q.Positions(m, 0)[r]]
  {
    Q.KeepAtPositions(c.cells, m, 0);
  }

  lemma {:induction false} KeptRowSame(b: Batch, m: T.Mask, r: nat)
    requires ValidBatch(b) && |m| == b.rows && r < |Q.Positions(m, 0)|
    ensures Q.Positions(m, 0)[r] < b.rows && SameRow(KeepRows(b, m), r, b, Q.Positions(m, 0)[r])
  {
    var kept, i := KeepRows(b, m), Q.Positions(m, 0)[r];
    Q.PositionsMember(m, 0, i);
    if b.data.Cells? {
      KeptCell(b.data, b.rows, m, r);
    }
    if b.rest.Cells? {
      KeptCell(b.rest, b.rows, m, r);
    }
    forall j: nat ensures AccountAt(kept, j, r) == AccountAt(b, j, i) {
      if j < 10 {
        assert b.accounts[j] in b.accounts && kept.accounts[j] == KeepColumn(b.accounts[j], m);
        if b.accounts[j].Cells? {
          KeptCell(b.accounts[j], b.rows, m, r);
        }
      }
    }
  }

  lemma {:induction false} KeptColumnsThere(sig: Signature, b: Batch, m: T.Mask)
    requires |b.accounts| == 10
    ensures ColumnsThere(sig, KeepRows(b, m)) <==> ColumnsThere(sig, b)
  {
    forall j | 0 <= j < 10 ensures KeepRows(b, m).accounts[j].Cells? <==> b.accounts[j].Cells? {
    }
  }

  lemma {:induction false} KeptDecodesIff(sig: Signature, b: Batch, allowFail: bool, m: T.Mask)
    requires ValidBatch(b) && |m| == b.rows
    ensures var rows := Q.Positions(m, 0);
            BatchDecodes(sig, KeepRows(b, m), allowFail, K.Range(0, |rows|)) <==> BatchDecodes(sig, b, allowFail, rows)
  {
    var kept, rows := KeepRows(b, m), Q.Positions(m, 0);
    KeptColumnsThere(sig, b, m);
    forall r | 0 <= r < |rows|
      ensures r in K.Range(0, |rows|) && rows[r] in rows
      ensures RowTaken(sig, allowFail, kept, r) <==> RowTaken(sig, allowFail, b, rows[r])
    {
      assert K.Range(0, |rows|)[r] == r;
      KeptRowSame(b, m, r);
    }
    if forall i | i in K.Range(0, |rows|) :: RowTaken(sig, allowFail, kept, i) {
      forall i | i in rows ensures RowTaken(sig, allowFail, b, i) {
        var r :| 0 <= r < |rows| && rows[r] == i;
        assert RowTaken(sig, allowFail, kept, r);
      }
    }
    if forall i | i in rows :: RowTaken(sig, allowFail, b, i) {
      forall r | r in K.Range(0, |rows|) ensures RowTaken(sig, allowFail, kept, r) {
        assert RowTaken(sig, allowFail, b, rows[r]);
      }
    }
  }

  lemma {:induction false} KeptRowShown(sig: Signature, b: Batch, m: T.Mask, out: seq<A.ArrowColumn>, r: nat)
    requires ValidBatch(b) && |m| == b.rows && r < |Q.Positions(m, 0)|
    requires |sig.params| + |sig.accountNames| <= |out| && RowShown(sig, KeepRows(b, m), r, out, r)
    ensures RowShown(sig, b, Q.Positions(m, 0)[r], out, r)
  {
    KeptRowSame(b, m, r);
    forall j | 0 <= j < |sig.accountNames| ensures AccountShown(sig, b, j, Q.Positions(m, 0)[r], out, r) {
      assert AccountShown(sig, KeepRows(b, m), j, r, out, r);
    }
  }

  lemma {:induction false} MaskedRows(sig: Signature, b: Batch)
    requires ValidBatch(b) && b.data.Cells?
    ensures OutputRows(sig, b, true, Q.Positions(DiscriminatorMask(sig, b.data.cells), 0))
  {
    var m := DiscriminatorMask(sig, b.data.cells);
    Q.PositionsAscend(m, 0);
    forall i: nat
      ensures i in Q.Positions(m, 0) <==> i < b.rows && (b.data.Cells? ==> StartsRight(sig, DataAt(b, i)))
    {
      Q.PositionsMember(m, 0, i);
    }
  }

  lemma {:induction false} EveryRow(sig: Signature, b: Batch, filter: bool)
    requires !filter || !b.data.Cells?
    ensures OutputRows(sig, b, filter, K.Range(0, b.rows))
  {
    forall i: nat | i < b.rows ensures i in K.Range(0, b.rows) {
      assert K.Range(0, b.rows)[i] == i;
    }
  }

  lemma {:induction false} RowShownInFront(sig: Signature, b: Batch, i: nat, out: seq<A.ArrowColumn>,
                                           more: seq<A.ArrowColumn>, r: nat)
    requires |b.accounts| == 10 && |out| == |sig.params| + |sig.accountNames| && RowShown(sig, b, i, out, r)
    ensures RowShown(sig, b, i, out + more, r)
  {
    var all := out + more;
    forall k | 0 <= k < |out| ensures all[k] == out[k] {
    }
    forall j | 0 <= j < |sig.accountNames| ensures AccountShown(sig, b, j, i, all, r) {
      assert AccountShown(sig, b, j, i, out, r) && all[|sig.params| + j] == out[|sig.params| + j];
    }
    if DataAt(b, i).Some? {
      forall vs, n | ReadsAs(sig, DataAt(b, i).value, vs, n) ensures ParamsHeld(sig, vs, all, r) {
        assert ParamsHeld(sig, vs, out, r);
      }
    }
  }

  lemma {:induction false} FieldsShownInFront(sig: Signature, out: seq<A.ArrowColumn>, more: seq<A.ArrowColumn>)
    requires |out| == |sig.params| + |sig.accountNames| && FieldsShown(sig, out)
    ensures FieldsShown(sig, out + more)
  {
    forall j | 0 <= j < |sig.accountNames| ensures AccountNamed(sig, j, out + more) {
      assert AccountNamed(sig, j, out);
    }
  }

  /** Decoding without the filter, stacked or not. */
  lemma {:induction false} WholeBatchDecodes(sig: Signature, b: Batch, allowFail: bool, stack: bool)
    requires ValidBatch(b)
    ensures DecodeKept(sig, b, allowFail, stack).Success? <==> BatchDecodes(sig, b, allowFail, K.Range(0, b.rows))
    ensures DecodeKept(sig, b, allowFail, stack).Success? ==>
              ShowsBatch(sig, b, stack, K.Range(0, b.rows), DecodeKept(sig, b, allowFail, stack).value)
  {
    UnfilteredDecodesIff(sig, b, allowFail);
    StackingAppendsInput(sig, b, allowFail);
    if DecodeUnfiltered(sig, b, allowFail).Success? {
      var out, more := DecodeUnfiltered(sig, b, allowFail).value, if stack then b.columns else [];
      UnfilteredShown(sig, b, allowFail);
      FieldsShownInFront(sig, out, more);
      var rows := K.Range(0, b.rows);
      forall r | 0 <= r < |rows| ensures RowShown(sig, b, rows[r], out + more, r) {
        assert RowShown(sig, b, r, out, r);
        RowShownInFront(sig, b, r, out, more, r);
      }
      assert (out + more)[|out|..] == more;
      assert out + [] == out;
    }
  }

  /** What is shown of the kept rows is shown of the rows at their positions. */
  lemma {:induction false} KeptBatchShown(sig: Signature, b: Batch, m: T.Mask, stack: bool, out: seq<A.ArrowColumn>)
    requires ValidBatch(b) && |m| == b.rows
    requires ShowsBatch(sig, KeepRows(b, m), stack, K.Range(0, |Q.Positions(m, 0)|), out)
    ensures ShowsBatch(sig, b, stack, Q.Positions(m, 0), out)
  {
    var rows, kept := Q.Positions(m, 0), KeepRows(b, m);
    forall r | 0 <= r < |rows| ensures RowShown(sig, b, rows[r], out, r) {
      assert K.Range(0, |rows|)[r] == r && RowShown(sig, kept, K.Range(0, |rows|)[r], out, r);
      KeptRowShown(sig, b, m, out, r);
    }
    if stack {
      forall r | 0 <= r < |rows| ensures A.CellsAt(kept.columns, r) == A.CellsAt(b.columns, rows[r]) {
        GatheredRow(b, m, r);
      }
      forall r | 0 <= r < |rows|
        ensures A.CellsAt(out[|sig.params| + |sig.accountNames|..], r) == A.CellsAt(b.columns, rows[r])
      {
        assert K.Range(0, |rows|)[r] == r;
      }
    }
  }

  lemma {:induction false} GatheredRow(b: Batch, m: T.Mask, r: nat)
    requires ValidBatch(b) && |m| == b.rows && r < |Q.Positions(m, 0)|
    ensures A.CellsAt(KeepRows(b, m).columns, r) == A.CellsAt(b.columns, Q.Positions(m, 0)[r])
  {
    var rows := Q.Positions(m, 0);
    forall i | i in rows ensures i < b.rows {
      Q.PositionsMember(m, 0, i);
    }
    K.TakeColumnsGather(b.columns, b.rows, rows);
  }

  /** Decoding a batch, filtered or not, stacked or not: it succeeds exactly when the columns are there and
      every row that reaches the output can be decoded, or is allowed not to; and then it shows exactly
      those rows, in order. */
  lemma {:induction false} BatchIsDecoded(sig: Signature, b: Batch, allowFail: bool, filter: bool, stack: bool)
    returns (rows: seq<nat>)
    requires ValidBatch(b)
    ensures OutputRows(sig, b, filter, rows)
    ensures DecodeBatch(sig, b, allowFail, filter, stack).Success? <==> BatchDecodes(sig, b, allowFail, rows)
    ensures DecodeBatch(sig, b, allowFail, filter, stack).Success? ==>
              ShowsBatch(sig, b, stack, rows, DecodeBatch(sig, b, allowFail, filter, stack).value)
  {
    if filter && b.data.Cells? {
      var m := DiscriminatorMask(sig, b.data.cells);
      var kept := KeepRows(b, m);
      rows := Q.Positions(m, 0);
      MaskedRows(sig, b);
      Q.PositionsAscend(m, 0);
      KeptBatchValid(b, m);
      WholeBatchDecodes(sig, kept, allowFail, stack);
      KeptDecodesIff(sig, b, allowFail, m);
      if DecodeKept(sig, kept, allowFail, stack).Success? {
        KeptBatchShown(sig, b, m, stack, DecodeKept(sig, kept, allowFail, stack).value);
      }
    } else {
      rows := K.Range(0, b.rows);
      EveryRow(sig, b, filter);
      WholeBatchDecodes(sig, b, allowFail, stack);
    }
  }
}
