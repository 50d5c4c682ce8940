/** Decoding instruction batches: discriminators, parameters, accounts, and the filter in front. */
module SvmDecode {
  import opened Wrappers
  import opened Bytes
  import opened DynTypes
  import opened Deserialize
  import T = Tables
  import Borsh
  import S = SvmShred
  import L = SvmLossless
  import N = NameCollisions
  import A = Arrow
  import K = Kernels
  import Q = QueryLaws

  type Blob = seq<byte>

  /** A column of the input batch; both binary widths read the same. */
  datatype Column<T> = Missing | OtherType | Cells(cells: seq<Option<T>>)

  /** The columns decoding looks at, `data`, `a0` to `a9` and `rest_of_accounts`, and all columns. */
  datatype Batch = Batch(rows: nat, data: Column<Blob>, accounts: seq<Column<Blob>>, rest: Column<seq<Option<Blob>>>,
                         columns: seq<A.ArrowColumn>)

  datatype Signature = Signature(discriminator: Blob, params: seq<NamedType>, accountNames: seq<string>)

  predicate Fits<T>(c: Column<T>, rows: nat) {
    c.Cells? ==> |c.cells| == rows
  }

  predicate ValidBatch(b: Batch) {
    && Fits(b.data, b.rows) && Fits(b.rest, b.rows)
    && |b.accounts| == 10 && (forall c | c in b.accounts :: Fits(c, b.rows))
    && A.Aligned(b.columns, b.rows)
  }

  // ---------------------------------------------------------------- one row

  /** `match_discriminators` */
  function MatchDiscriminators(data: Blob, discriminator: Blob): Result<Blob> {
    if discriminator <= data then Success(data[|discriminator|..]) else Failure
  }

  /** The parameters of one instruction; nothing when the data is null, of another instruction or
      malformed. Bytes behind the last parameter are ignored. */
  function DecodeRow(sig: Signature, data: Option<Blob>): (r: Option<seq<DynValue>>)
    ensures r.Some? ==> |r.value| == |sig.params|
  {
    if data.None? then None
    else
      var rest := MatchDiscriminators(data.value, sig.discriminator);
      if rest.Failure? then None
      else
        var values := DecodeData(rest.value, sig.params, false);
        if values.Failure? then None
        else
          DecodedFields(sig.params, rest.value);
          Some(values.value)
  }

  lemma {:induction false} DecodedFields(fields: seq<NamedType>, d: seq<byte>)
    ensures Borsh.DecodeFields(fields, d).Success? ==> |Borsh.DecodeFields(fields, d).value.value| == |fields|
  {
    if fields != [] {
      var p := Borsh.Decode(fields[0].ty, d);
      if p.Success? {
        DecodedFields(fields[1..], p.value.rest);
      }
    }
  }

  /** A row's value of parameter k. */
  function ParamCell(sig: Signature, k: nat, data: Option<Blob>): Option<DynValue>
    requires k < |sig.params|
  {
    var row := DecodeRow(sig, data);
    if row.Some? then Some(row.value[k]) else None
  }

  function ParamColumn(sig: Signature, k: nat, data: seq<Option<Blob>>): S.Rows
    requires k < |sig.params|
  {
    seq(|data|, i requires 0 <= i < |data| => ParamCell(sig, k, data[i]))
  }

  // ---------------------------------------------------------------- a column of data

  function AccountName(sig: Signature, i: nat): string
    requires i < |sig.accountNames|
  {
    if sig.accountNames[i] == "" then "a" + N.Decimal(i) else sig.accountNames[i]
  }

  function BinaryLeaf(cells: seq<Option<Blob>>): (a: A.ArrowArray)
    ensures A.Len(a) == |cells| && A.TypeOf(a) == A.Binary && A.WellFormed(a)
  {
    A.Leaf(A.Binary, seq(|cells|, i requires 0 <= i < |cells| => BinaryCell(cells[i])))
  }

  function BinaryCell(c: Option<Blob>): Option<A.Datum> {
    if c.Some? then Some(A.Blob(c.value)) else None
  }

  /** The parameter columns from number k on. */
  function ParamArrays(sig: Signature, k: nat, data: seq<Option<Blob>>): Result<seq<A.ArrowArray>>
    requires k <= |sig.params|
    decreases |sig.params| - k
  {
    if k == |sig.params| then Success([])
    else
      var first, others := S.ToArrow(sig.params[k].ty, ParamColumn(sig, k, data)), ParamArrays(sig, k + 1, data);
      if first.Failure? || others.Failure? then Failure else Success([first.value] + others.value)
  }

  function AccountFields(sig: Signature): seq<A.ArrowField>
  {
    seq(|sig.accountNames|, i requires 0 <= i < |sig.accountNames| => A.ArrowField(AccountName(sig, i), A.Binary))
  }

  function AccountArrays(sig: Signature, accounts: seq<seq<Option<Blob>>>): seq<A.ArrowArray>
    requires |sig.accountNames| <= |accounts|
  {
    seq(|sig.accountNames|, i requires 0 <= i < |sig.accountNames| => BinaryLeaf(accounts[i]))
  }

  predicate Acceptable(sig: Signature, data: seq<Option<Blob>>, allowFail: bool) {
    allowFail || forall d | d in data :: DecodeRow(sig, d).Some?
  }

  /** `decode_instructions` */
  function DecodeInstructions(sig: Signature, accounts: seq<seq<Option<Blob>>>, data: seq<Option<Blob>>,
                              allowFail: bool)
    : Result<seq<A.ArrowColumn>>
  {
    var params, fields := ParamArrays(sig, 0, data), S.FieldDtypes(sig.params);
    if !Acceptable(sig, data, allowFail) || params.Failure? || fields.Failure? then Failure
    else if |accounts| < |sig.accountNames| then Failure
    else A.TryNewBatch(fields.value + AccountFields(sig), params.value + AccountArrays(sig, accounts))
  }

  // ---------------------------------------------------------------- a batch

  /** `build_discriminator_mask`: null where the data is. */
  function DiscriminatorMask(sig: Signature, data: seq<Option<Blob>>): T.Mask
  {
    seq(|data|, i requires 0 <= i < |data| => if data[i].Some? then Some(sig.discriminator <= data[i].value) else None)
  }

  function KeepColumn<X>(c: Column<X>, m: T.Mask): Column<X> {
    if c.Cells? then Cells(T.Keep(c.cells, m)) else c
  }

  /** `filter_by_discriminator_impl`: without a data column nothing is filtered, and one of another type
      is an error. */
  function FilterByDiscriminator(sig: Signature, b: Batch): Result<Batch> {
    match b.data
    case Missing => Success(b)
    case OtherType => Failure
    case Cells(data) => Success(KeepRows(b, DiscriminatorMask(sig, data)))
  }

  function KeepRows(b: Batch, m: T.Mask): Batch {
    Batch(T.CountTrue(m), KeepColumn(b.data, m),
          seq(|b.accounts|, i requires 0 <= i < |b.accounts| => KeepColumn(b.accounts[i], m)), KeepColumn(b.rest, m),
          K.TakeColumns(b.columns, Q.Positions(m, 0)))
  }

  /** The account columns asked for among a0 to a9; one of another type is skipped. */
  function FixedAccounts(b: Batch, n: nat): Result<seq<seq<Option<Blob>>>>
    requires n <= |b.accounts|
  {
    if n == 0 then Success([])
    else
      var before := FixedAccounts(b, n - 1);
      if before.Failure? || b.accounts[n - 1].Missing? then Failure
      else if b.accounts[n - 1].OtherType? then before
      else Success(before.value + [b.accounts[n - 1].cells])
  }

  predicate LongEnough(n: nat, rest: seq<Option<seq<Option<Blob>>>>) {
    forall l | l in rest && l.Some? :: |l.value| >= n
  }

  function AccountOf(l: Option<seq<Option<Blob>>>, i: nat): Option<Blob> {
    if l.Some? && i < |l.value| then l.value[i] else None
  }

  function UnpackedColumn(rest: seq<Option<seq<Option<Blob>>>>, i: nat): seq<Option<Blob>>
  {
    seq(|rest|, row requires 0 <= row < |rest| => AccountOf(rest[row], i))
  }

  function Unpacked(rest: seq<Option<seq<Option<Blob>>>>, n: nat): seq<seq<Option<Blob>>>
  {
    seq(n, i requires 0 <= i < n => UnpackedColumn(rest, i))
  }

  /** All account columns: at most ten fixed ones, the others unpacked from `rest_of_accounts`. */
  function Accounts(sig: Signature, b: Batch): Result<seq<seq<Option<Blob>>>>
    requires |b.accounts| == 10
  {
    var n := |sig.accountNames|;
    var fixed := FixedAccounts(b, if n < 10 then n else 10);
    if fixed.Failure? then Failure
    else if n <= 10 then fixed
    else
      match b.rest
      case Missing => Failure
      case OtherType => fixed
      case Cells(rest) =>
        if LongEnough(n - 10, rest) then Success(fixed.value + Unpacked(rest, n - 10)) else Failure
  }

  /** `decode_instructions_batch` */
  function DecodeBatch(sig: Signature, b: Batch, allowFail: bool, filter: bool, stack: bool): Result<seq<A.ArrowColumn>>
    requires |b.accounts| == 10
  {
    if filter then
      var kept := FilterByDiscriminator(sig, b);
      if kept.Failure? then Failure else DecodeKept(sig, kept.value, allowFail, stack)
    else DecodeKept(sig, b, allowFail, stack)
  }

  function DecodeKept(sig: Signature, b: Batch, allowFail: bool, stack: bool): Result<seq<A.ArrowColumn>>
    requires |b.accounts| == 10
  {
    var decoded := DecodeUnfiltered(sig, b, allowFail);
    if decoded.Failure? || !stack then decoded else A.StackBatch(decoded.value, b.columns)
  }

  function DecodeUnfiltered(sig: Signature, b: Batch, allowFail: bool): Result<seq<A.ArrowColumn>>
    requires |b.accounts| == 10
  {
    var accounts := Accounts(sig, b);
    if accounts.Failure? || !b.data.Cells? then Failure
    else DecodeInstructions(sig, accounts.value, b.data.cells, allowFail)
  }

  // ---------------------------------------------------------------- rows are decoded whole or not at all

  /** In each row either every parameter has its decoded value, or every parameter is missing. */
  lemma {:induction false} RowIsWholeOrMissing(sig: Signature, data: seq<Option<Blob>>, row: nat)
    requires row < |data|
    ensures (forall k: nat | k < |sig.params| :: ParamColumn(sig, k, data)[row].Some?)
         || (forall k: nat | k < |sig.params| :: ParamColumn(sig, k, data)[row].None?)
    ensures sig.params != [] && ParamColumn(sig, 0, data)[row].Some? ==>
              && data[row].Some? && sig.discriminator <= data[row].value
              && var rest := data[row].value[|sig.discriminator|..];
                 DecodeData(rest, sig.params, false)
                 == Success(seq(|sig.params|, k requires 0 <= k < |sig.params| => ParamColumn(sig, k, data)[row].value))
  {
    if DecodeRow(sig, data[row]).Some? {
      var values := DecodeRow(sig, data[row]).value;
      assert values == seq(|sig.params|, k requires 0 <= k < |sig.params| => ParamColumn(sig, k, data)[row].value);
    }
  }

  /** A row the filter drops is a row decoding leaves out of every parameter. */
  lemma {:induction false} DroppedRowsAreMissing(sig: Signature, data: seq<Option<Blob>>, row: nat, k: nat)
    requires row < |data| && k < |sig.params| && DiscriminatorMask(sig, data)[row] != Some(true)
    ensures ParamColumn(sig, k, data)[row].None?
  {
  }

  // ---------------------------------------------------------------- filtering commutes with decoding

  function Map<X, Y>(f: X -> Y, xs: seq<X>): seq<Y>
  {
    seq(|xs|, i requires 0 <= i < |xs| => f(xs[i]))
  }

  lemma {:induction false} KeepOfMap<X, Y>(f: X -> Y, xs: seq<X>, m: T.Mask)
    ensures T.Keep(Map(f, xs), m) == Map(f, T.Keep(xs, m))
  {
    if xs == [] || m == [] {
    } else {
      KeepOfMap(f, xs[1..], m[1..]);
      assert Map(f, xs)[1..] == Map(f, xs[1..]);
      assert T.Keep(Map(f, xs), m) == (if m[0] == Some(true) then [f(xs[0])] else []) + Map(f, T.Keep(xs[1..], m[1..]));
    }
  }

  lemma {:induction false} KeptMembers<X>(xs: seq<X>, m: T.Mask, x: X)
    requires x in T.Keep(xs, m)
    ensures x in xs
  {
    if xs != [] && m != [] && x in T.Keep(xs[1..], m[1..]) {
      KeptMembers(xs[1..], m[1..], x);
    }
  }

  lemma {:induction false} KeptLength<X>(xs: seq<X>, m: T.Mask)
    requires |xs| == |m|
    ensures |T.Keep(xs, m)| == T.CountTrue(m)
  {
    if xs != [] {
      KeptLength(xs[1..], m[1..]);
    }
  }

  /** The cells of a column, row by row. */
  function RowCells(a: A.ArrowArray): seq<A.Cell>
  {
    seq(A.Len(a), i requires 0 <= i < A.Len(a) => A.At(a, i))
  }

  lemma {:induction false} ParamColumnOfKept(sig: Signature, k: nat, data: seq<Option<Blob>>, m: T.Mask)
    requires k < |sig.params|
    ensures ParamColumn(sig, k, T.Keep(data, m)) == T.Keep(ParamColumn(sig, k, data), m)
  {
    var f := (d: Option<Blob>) => if k < |sig.params| then ParamCell(sig, k, d) else None;
    KeepOfMap(f, data, m);
    assert ParamColumn(sig, k, data) == Map(f, data);
    assert ParamColumn(sig, k, T.Keep(data, m)) == Map(f, T.Keep(data, m));
  }

  lemma {:induction false} ShreddingOfKept(t: DynType, vals: S.Rows, m: T.Mask)
    requires S.ToArrow(t, vals).Success?
    ensures S.ToArrow(t, T.Keep(vals, m)).Success?
    ensures A.TypeOf(S.ToArrow(t, T.Keep(vals, m)).value) == A.TypeOf(S.ToArrow(t, vals).value)
    ensures RowCells(S.ToArrow(t, T.Keep(vals, m)).value) == T.Keep(RowCells(S.ToArrow(t, vals).value), m)
  {
    var kept := T.Keep(vals, m);
    L.SucceedsIff(t, vals);
    forall v | v in kept ensures L.RowOk(t, v) {
      KeptMembers(vals, m, v);
    }
    L.SucceedsIff(t, kept);
    S.ShreddingIsFaithful(t, vals);
    S.ShreddingIsFaithful(t, kept);
    var f := (v: Option<DynValue>) => S.Meaning(t, v);
    KeepOfMap(f, vals, m);
    assert RowCells(S.ToArrow(t, vals).value) == Map(f, vals);
    assert RowCells(S.ToArrow(t, kept).value) == Map(f, kept);
  }

  lemma {:induction false} BinaryOfKept(cells: seq<Option<Blob>>, m: T.Mask)
    ensures RowCells(BinaryLeaf(T.Keep(cells, m))) == T.Keep(RowCells(BinaryLeaf(cells)), m)
  {
    var f := (c: Option<Blob>) => if c.Some? then A.Scalar(A.Blob(c.value)) else A.Null;
    KeepOfMap(f, cells, m);
    assert RowCells(BinaryLeaf(cells)) == Map(f, cells);
    assert RowCells(BinaryLeaf(T.Keep(cells, m))) == Map(f, T.Keep(cells, m));
  }

  /** Column by column: same type, and exactly the kept rows. */
  predicate KeptArrays(kept: seq<A.ArrowArray>, whole: seq<A.ArrowArray>, m: T.Mask) {
    && |kept| == |whole|
    && forall k | 0 <= k < |whole| ::
         && A.TypeOf(kept[k]) == A.TypeOf(whole[k])
         && RowCells(kept[k]) == T.Keep(RowCells(whole[k]), m)
  }

  lemma {:induction false} ParamArraysOfKept(sig: Signature, k: nat, data: seq<Option<Blob>>, m: T.Mask)
    requires k <= |sig.params| && ParamArrays(sig, k, data).Success?
    ensures ParamArrays(sig, k, T.Keep(data, m)).Success?
    ensures KeptArrays(ParamArrays(sig, k, T.Keep(data, m)).value, ParamArrays(sig, k, data).value, m)
    decreases |sig.params| - k
  {
    if k < |sig.params| {
      ParamColumnOfKept(sig, k, data, m);
      ShreddingOfKept(sig.params[k].ty, ParamColumn(sig, k, data), m);
      ParamArraysOfKept(sig, k + 1, data, m);
    }
  }

  predicate KeptAccounts(kept: seq<seq<Option<Blob>>>, whole: seq<seq<Option<Blob>>>, m: T.Mask) {
    |kept| == |whole| && forall i | 0 <= i < |whole| :: kept[i] == T.Keep(whole[i], m)
  }

  lemma {:induction false} FixedAccountsOfKept(b: Batch, n: nat, m: T.Mask)
    requires n <= |b.accounts| && FixedAccounts(b, n).Success?
    ensures FixedAccounts(KeepRows(b, m), n).Success?
    ensures KeptAccounts(FixedAccounts(KeepRows(b, m), n).value, FixedAccounts(b, n).value, m)
  {
    if n > 0 {
      FixedAccountsOfKept(b, n - 1, m);
      assert KeepRows(b, m).accounts[n - 1] == KeepColumn(b.accounts[n - 1], m);
    }
  }

  lemma {:induction false} UnpackedOfKept(rest: seq<Option<seq<Option<Blob>>>>, n: nat, m: T.Mask)
    requires LongEnough(n, rest)
    ensures LongEnough(n, T.Keep(rest, m)) && KeptAccounts(Unpacked(T.Keep(rest, m), n), Unpacked(rest, n), m)
  {
    forall l | l in T.Keep(rest, m) && l.Some? ensures |l.value| >= n {
      KeptMembers(rest, m, l);
    }
    forall i: nat | i < n ensures UnpackedColumn(T.Keep(rest, m), i) == T.Keep(UnpackedColumn(rest, i), m) {
      var f := (l: Option<seq<Option<Blob>>>) => AccountOf(l, i);
      KeepOfMap(f, rest, m);
      assert UnpackedColumn(rest, i) == Map(f, rest);
      assert UnpackedColumn(T.Keep(rest, m), i) == Map(f, T.Keep(rest, m));
    }
  }

  lemma {:induction false} AccountsOfKept(sig: Signature, b: Batch, m: T.Mask)
    requires |b.accounts| == 10 && Accounts(sig, b).Success?
    ensures Accounts(sig, KeepRows(b, m)).Success?
    ensures KeptAccounts(Accounts(sig, KeepRows(b, m)).value, Accounts(sig, b).value, m)
  {
    var n := |sig.accountNames|;
    FixedAccountsOfKept(b, if n < 10 then n else 10, m);
    if n > 10 && b.rest.Cells? {
      UnpackedOfKept(b.rest.cells, n - 10, m);
    }
  }

  lemma {:induction false} AccountArraysOfKept(sig: Signature, kept: seq<seq<Option<Blob>>>,
                                               whole: seq<seq<Option<Blob>>>,
                                               m: T.Mask)
    requires KeptAccounts(kept, whole, m) && |sig.accountNames| <= |whole|
    ensures KeptArrays(AccountArrays(sig, kept), AccountArrays(sig, whole), m)
  {
    forall i | 0 <= i < |sig.accountNames|
      ensures RowCells(AccountArrays(sig, kept)[i]) == T.Keep(RowCells(AccountArrays(sig, whole)[i]), m)
    {
      BinaryOfKept(whole[i], m);
    }
  }

  predicate KeptColumns(kept: seq<A.ArrowColumn>, whole: seq<A.ArrowColumn>, m: T.Mask) {
    && A.Fields(kept) == A.Fields(whole)
    && forall k | 0 <= k < |whole| :: RowCells(kept[k].data) == T.Keep(RowCells(whole[k].data), m)
  }

  lemma {:induction false} BatchOfKept(schema: seq<A.ArrowField>, kept: seq<A.ArrowArray>, whole: seq<A.ArrowArray>,
                                       m: T.Mask)
    requires KeptArrays(kept, whole, m) && A.TryNewBatch(schema, whole).Success?
    requires |m| == A.Len(whole[0])
    ensures A.TryNewBatch(schema, kept).Success?
    ensures KeptColumns(A.TryNewBatch(schema, kept).value, A.TryNewBatch(schema, whole).value, m)
  {
    forall k | 0 <= k < |kept| ensures A.Len(kept[k]) == T.CountTrue(m) {
      KeptLength(RowCells(whole[k]), m);
    }
  }

  lemma {:induction false} ParamArraysLength(sig: Signature, k: nat, data: seq<Option<Blob>>)
    requires k <= |sig.params| && ParamArrays(sig, k, data).Success?
    ensures forall a | a in ParamArrays(sig, k, data).value :: A.Len(a) == |data| && A.WellFormed(a)
    decreases |sig.params| - k
  {
    if k < |sig.params| {
      S.ShreddingIsFaithful(sig.params[k].ty, ParamColumn(sig, k, data));
      ParamArraysLength(sig, k + 1, data);
    }
  }

  lemma {:induction false} FixedAccountsLength(b: Batch, n: nat)
    requires ValidBatch(b) && n <= 10 && FixedAccounts(b, n).Success?
    ensures forall c | c in FixedAccounts(b, n).value :: |c| == b.rows
  {
    if n > 0 {
      FixedAccountsLength(b, n - 1);
      assert b.accounts[n - 1] in b.accounts;
    }
  }

  lemma {:induction false} AccountsLength(sig: Signature, b: Batch)
    requires ValidBatch(b) && Accounts(sig, b).Success?
    ensures forall c | c in Accounts(sig, b).value :: |c| == b.rows
  {
    var n := |sig.accountNames|;
    FixedAccountsLength(b, if n < 10 then n else 10);
  }

  /** The first column of a decoded batch has a row for every input row. */
  lemma {:induction false} DecodedLength(sig: Signature, b: Batch, accounts: seq<seq<Option<Blob>>>)
    requires ValidBatch(b) && b.data.Cells? && Accounts(sig, b) == Success(accounts)
    requires DecodeInstructions(sig, accounts, b.data.cells, true).Success?
    ensures var arrays := ParamArrays(sig, 0, b.data.cells).value + AccountArrays(sig, accounts);
            arrays != [] && A.Len(arrays[0]) == b.rows
  {
    var params := ParamArrays(sig, 0, b.data.cells).value;
    ParamArraysLength(sig, 0, b.data.cells);
    AccountsLength(sig, b);
    if params != [] {
      assert params[0] in params;
    } else {
      assert accounts[0] in accounts;
    }
  }

  lemma {:induction false} UnfilteredCommutes(sig: Signature, b: Batch)
    requires ValidBatch(b) && DecodeUnfiltered(sig, b, true).Success?
    ensures b.data.Cells? && DecodeUnfiltered(sig, KeepRows(b, DiscriminatorMask(sig, b.data.cells)), true).Success?
    ensures var m := DiscriminatorMask(sig, b.data.cells);
            KeptColumns(DecodeUnfiltered(sig, KeepRows(b, m), true).value, DecodeUnfiltered(sig, b, true).value, m)
  {
    var data, m := b.data.cells, DiscriminatorMask(sig, b.data.cells);
    var accounts := Accounts(sig, b).value;
    AccountsOfKept(sig, b, m);
    var kept := Accounts(sig, KeepRows(b, m)).value;
    ParamArraysOfKept(sig, 0, data, m);
    AccountArraysOfKept(sig, kept, accounts, m);
    DecodedLength(sig, b, accounts);
    BatchOfKept(S.FieldDtypes(sig.params).value + AccountFields(sig),
                ParamArrays(sig, 0, T.Keep(data, m)).value + AccountArrays(sig, kept),
                ParamArrays(sig, 0, data).value + AccountArrays(sig, accounts), m);
  }

  /** Gathering at the positions of a mask keeps the rows the mask keeps. */
  lemma {:induction false} TakenIsKept(a: A.ArrowArray, m: T.Mask)
    requires A.WellFormed(a) && A.Len(a) == |m|
    ensures RowCells(K.Take(a, Q.Positions(m, 0))) == T.Keep(RowCells(a), m)
    ensures A.WellFormed(K.Take(a, Q.Positions(m, 0))) && A.Len(K.Take(a, Q.Positions(m, 0))) == T.CountTrue(m)
  {
    var rows := Q.Positions(m, 0);
    forall i | i in rows ensures i < |m| {
      Q.PositionsMember(m, 0, i);
    }
    Q.PositionsAscend(m, 0);
    K.TakeGathers(a, rows);
    Q.KeepAtPositions(RowCells(a), m, 0);
  }

  lemma {:induction false} InputOfKept(columns: seq<A.ArrowColumn>, rows: nat, m: T.Mask)
    requires A.Aligned(columns, rows) && |m| == rows
    ensures A.Aligned(K.TakeColumns(columns, Q.Positions(m, 0)), T.CountTrue(m))
    ensures KeptColumns(K.TakeColumns(columns, Q.Positions(m, 0)), columns, m)
  {
    var kept := K.TakeColumns(columns, Q.Positions(m, 0));
    forall k | 0 <= k < |columns|
      ensures RowCells(kept[k].data) == T.Keep(RowCells(columns[k].data), m)
      ensures A.WellFormed(kept[k].data) && A.Len(kept[k].data) == T.CountTrue(m)
    {
      assert columns[k] in columns;
      TakenIsKept(columns[k].data, m);
    }
  }

  /** What decoding gives has a row for every input row. */
  lemma {:induction false} DecodedAligned(sig: Signature, b: Batch, allowFail: bool)
    requires ValidBatch(b) && DecodeUnfiltered(sig, b, allowFail).Success?
    ensures DecodeUnfiltered(sig, b, allowFail).value != []
    ensures A.Aligned(DecodeUnfiltered(sig, b, allowFail).value, b.rows)
  {
    var accounts := Accounts(sig, b).value;
    var arrays := ParamArrays(sig, 0, b.data.cells).value + AccountArrays(sig, accounts);
    DecodedLength(sig, b, accounts);
    ParamArraysLength(sig, 0, b.data.cells);
    var out := DecodeUnfiltered(sig, b, allowFail).value;
    forall c | c in out ensures A.Len(c.data) == b.rows && A.WellFormed(c.data) {
      var k :| 0 <= k < |out| && out[k] == c;
      assert c.data == arrays[k];
      assert A.Len(arrays[k]) == A.Len(arrays[0]);
    }
  }

  /** Stacking adds no failure: the input's columns stand behind the decoded ones. */
  lemma {:induction false} StackingAppendsInput(sig: Signature, b: Batch, allowFail: bool)
    requires ValidBatch(b)
    ensures DecodeKept(sig, b, allowFail, true).Success? <==> DecodeKept(sig, b, allowFail, false).Success?
    ensures DecodeKept(sig, b, allowFail, true).Success? ==>
              DecodeKept(sig, b, allowFail, true).value == DecodeKept(sig, b, allowFail, false).value + b.columns
  {
    if DecodeUnfiltered(sig, b, allowFail).Success? {
      DecodedAligned(sig, b, allowFail);
      A.StackedColumns(DecodeUnfiltered(sig, b, allowFail).value, b.columns, b.rows);
    }
  }

  lemma {:induction false} KeptBatchValid(b: Batch, m: T.Mask)
    requires ValidBatch(b) && |m| == b.rows
    ensures ValidBatch(KeepRows(b, m))
  {
    InputOfKept(b.columns, b.rows, m);
    KeptFits(b.data, b.rows, m);
    KeptFits(b.rest, b.rows, m);
    forall i | 0 <= i < 10 ensures Fits(KeepColumn(b.accounts[i], m), T.CountTrue(m)) {
      assert b.accounts[i] in b.accounts;
      KeptFits(b.accounts[i], b.rows, m);
    }
  }

  lemma {:induction false} KeptFits<X>(c: Column<X>, rows: nat, m: T.Mask)
    requires Fits(c, rows) && |m| == rows
    ensures Fits(KeepColumn(c, m), T.CountTrue(m))
  {
    if c.Cells? {
      KeptLength(c.cells, m);
    }
  }

  lemma {:induction false} KeptColumnsJoin(a: seq<A.ArrowColumn>, b: seq<A.ArrowColumn>, c: seq<A.ArrowColumn>,
                                           d: seq<A.ArrowColumn>, m: T.Mask)
    requires KeptColumns(a, b, m) && KeptColumns(c, d, m)
    ensures KeptColumns(a + c, b + d, m)
  {
    assert A.Fields(a + c) == A.Fields(a) + A.Fields(c) && A.Fields(b + d) == A.Fields(b) + A.Fields(d);
    assert |a| == |A.Fields(a)| && |b| == |A.Fields(b)|;
  }

  /** With failures allowed: when decoding the whole batch succeeds, so does decoding the filtered one,
      and it gives exactly the rows of the whole result whose data starts with the discriminator, in
      every parameter and account column and in every column stacked behind them. */
  lemma {:induction false} FilteringCommutesWithDecoding(sig: Signature, b: Batch, stack: bool)
    requires ValidBatch(b) && DecodeBatch(sig, b, true, false, stack).Success?
    ensures b.data.Cells? && DecodeBatch(sig, b, true, true, stack).Success?
    ensures KeptColumns(DecodeBatch(sig, b, true, true, stack).value, DecodeBatch(sig, b, true, false, stack).value,
                        DiscriminatorMask(sig, b.data.cells))
  {
    UnfilteredCommutes(sig, b);
    if stack {
      var m := DiscriminatorMask(sig, b.data.cells);
      StackingAppendsInput(sig, b, true);
      KeptBatchValid(b, m);
      StackingAppendsInput(sig, KeepRows(b, m), true);
      InputOfKept(b.columns, b.rows, m);
      KeptColumnsJoin(DecodeUnfiltered(sig, KeepRows(b, m), true).value, DecodeUnfiltered(sig, b, true).value,
                      KeepRows(b, m).columns, b.columns, m);
    }
  }

  // ---------------------------------------------------------------- accounts stay in place

  /** The cells of account i of a batch, if the batch has them. */
  function AccountCells(b: Batch, i: nat): Option<seq<Option<Blob>>>
    requires |b.accounts| == 10
  {
    if i < 10 then (if b.accounts[i].Cells? then Some(b.accounts[i].cells) else None)
    else if b.rest.Cells? then Some(UnpackedColumn(b.rest.cells, i - 10))
    else None
  }

  lemma {:induction false} FixedInPlace(b: Batch, n: nat)
    requires |b.accounts| == 10 && n <= 10 && FixedAccounts(b, n).Success?
    ensures |FixedAccounts(b, n).value| <= n
    ensures |FixedAccounts(b, n).value| == n ==>
              forall i | 0 <= i < n :: AccountCells(b, i) == Some(FixedAccounts(b, n).value[i])
  {
    if n > 0 {
      FixedInPlace(b, n - 1);
    }
  }

  lemma {:induction false} GatheredInPlace(sig: Signature, b: Batch)
    requires |b.accounts| == 10 && Accounts(sig, b).Success? && |sig.accountNames| <= |Accounts(sig, b).value|
    ensures |Accounts(sig, b).value| == |sig.accountNames|
    ensures forall i | 0 <= i < |sig.accountNames| :: AccountCells(b, i) == Some(Accounts(sig, b).value[i])
  {
    FixedInPlace(b, if |sig.accountNames| < 10 then |sig.accountNames| else 10);
  }

  /** Although a column of another type is skipped, a successful decode never shifts accounts: the column
      of account i holds the cells of `a{i}`, or from the tenth on of element i - 10 of
      `rest_of_accounts`. */
  lemma {:induction false} AccountsStayInPlace(sig: Signature, b: Batch, allowFail: bool)
    requires |b.accounts| == 10 && DecodeUnfiltered(sig, b, allowFail).Success?
    ensures |DecodeUnfiltered(sig, b, allowFail).value| == |sig.params| + |sig.accountNames|
    ensures forall i: nat | i < |sig.accountNames| ::
              && AccountCells(b, i).Some?
              && DecodeUnfiltered(sig, b, allowFail).value[|sig.params| + i]
                 == A.ArrowColumn(AccountName(sig, i), BinaryLeaf(AccountCells(b, i).value))
  {
    var accounts := Accounts(sig, b).value;
    GatheredInPlace(sig, b);
    ParamArraysCount(sig, 0, b.data.cells);
  }

  lemma {:induction false} ParamArraysCount(sig: Signature, k: nat, data: seq<Option<Blob>>)
    requires k <= |sig.params| && ParamArrays(sig, k, data).Success?
    ensures |ParamArrays(sig, k, data).value| == |sig.params| - k
    decreases |sig.params| - k
  {
    if k < |sig.params| {
      ParamArraysCount(sig, k + 1, data);
    }
  }
}
