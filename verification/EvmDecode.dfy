/** Decoding calls: the schema announced for a function's parameters and the batch that is built. */
module EvmDecode {
  import opened Wrappers
  import opened EvmShred
  import opened EvmMeaning
  import opened NameCollisions
  import EvmShredRun
  import Flatten
  import FlattenBatch
  import A = Arrow

  /** A JSON ABI parameter. A plain one has the type its text parses to, if any; one with components is
      `tuple` followed by array suffixes, innermost first (`None` for `[]`). */
  datatype Param =
    | Plain(name: string, ty: Result<SolType>)
    | WithComponents(name: string, components: seq<Param>, suffixes: seq<Option<Size>>)

  function ParamName(p: Param, i: nat): string {
    if p.name == "" then DefaultName(i) else p.name
  }

  function Wrap(t: SolType, suffixes: seq<Option<Size>>): SolType
    decreases |suffixes|
  {
    if suffixes == [] then t
    else Wrap(if suffixes[0].Some? then FixedArray(t, suffixes[0].value) else Array(t), suffixes[1..])
  }

  /** The library's `resolve`; `tuple` without components is no type. */
  function Resolve(p: Param): Result<SolType>
    decreases p, 0
  {
    match p
    case Plain(_, ty) => ty
    case WithComponents(_, components, suffixes) =>
      var inner := ResolveAll(components);
      if components == [] || inner.Failure? then Failure else Success(Wrap(Tuple(inner.value), suffixes))
  }

  function ResolveAll(params: seq<Param>): (r: Result<seq<SolType>>)
    ensures r.Success? ==> |r.value| == |params|
    decreases params, 0
  {
    if params == [] then Success([])
    else
      var first, others := Resolve(params[0]), ResolveAll(params[1..]);
      if first.Failure? || others.Failure? then Failure else Success([first.value] + others.value)
  }

  // ---------------------------------------------------------------- the announced schema

  /** `param_to_arrow_dtype`: a plain tuple keeps its component names; anything else, arrays of tuples
      included, goes through the resolved type. */
  function ParamDtype(p: Param, o: Options): Result<A.ArrowType>
    decreases p, 1
  {
    if p.WithComponents? && p.components != [] && p.suffixes == [] then
      var inner := SchemaFields(p.components, 0, o);
      if inner.Failure? then Failure else Success(A.Struct(inner.value))
    else
      var t := Resolve(p);
      if t.Failure? then Failure else ToDtype(t.value, o)
  }

  /** One field for each parameter, the first of which is number k. */
  function SchemaFields(params: seq<Param>, k: nat, o: Options): Result<seq<A.ArrowField>>
    decreases params, 1
  {
    if params == [] then Success([])
    else
      var first, others := ParamDtype(params[0], o), SchemaFields(params[1..], k + 1, o);
      if first.Failure? || others.Failure? then Failure
      else Success([A.ArrowField(ParamName(params[0], k), first.value)] + others.value)
  }

  /** One side of `function_signature_to_arrow_schemas`. */
  function AnnouncedSchema(params: seq<Param>, o: Options): Result<seq<A.ArrowField>> {
    var fields := SchemaFields(params, 0, o);
    if ResolveAll(params).Failure? || fields.Failure? then Failure
    else Success(FlattenBatch.FlattenSchema(fields.value))
  }

  // ---------------------------------------------------------------- named shredding

  function Components(p: Param): seq<Param> {
    if p.WithComponents? then p.components else []
  }

  /** One column of `to_struct_named`: named below a tuple with components, unnamed otherwise. */
  function NamedColumn(t: SolType, p: Param, o: Options, vals: Rows): Result<A.ArrowArray>
    decreases t, 1
  {
    if t.Tuple? && Components(p) != [] then ToStructNamed(t.fields, Components(p), o, vals) else ToArrow(t, o, vals)
  }

  /** `to_struct_named` */
  function ToStructNamed(fields: seq<SolType>, named: seq<Param>, o: Options, vals: Rows): Result<A.ArrowArray>
    decreases fields, 1
  {
    if fields == [] then Success(A.StructArray(|vals|, [], None))
    else
      var columns := NamedColumns(fields, named, 0, o, vals);
      if !TupleRows(|fields|, vals) || columns.Failure? then Failure else A.TryNewStruct(columns.value)
  }

  function NamedColumns(fields: seq<SolType>, named: seq<Param>, k: nat, o: Options,
                        vals: Rows): Result<seq<A.ArrowColumn>>
    decreases fields, 0
  {
    if fields == [] || named == [] then Success([])
    else
      var first := NamedColumn(fields[0], named[0], o, ColumnOf(vals, k));
      var others := NamedColumns(fields[1..], named[1..], k + 1, o, vals);
      if first.Failure? || others.Failure? then Failure
      else Success([A.ArrowColumn(ParamName(named[0], k), first.value)] + others.value)
  }

  // ---------------------------------------------------------------- they agree

  lemma {:induction false} WrapIsNoTuple(t: SolType, suffixes: seq<Option<Size>>)
    requires suffixes != []
    ensures !Wrap(t, suffixes).Tuple?
    decreases |suffixes|
  {
    if |suffixes| > 1 {
      WrapIsNoTuple(if suffixes[0].Some? then FixedArray(t, suffixes[0].value) else Array(t), suffixes[1..]);
    }
  }

  /** A column's type is the one announced for its parameter, names included, and every row reads as its
      value. */
  lemma {:induction false} NamedColumnAgrees(t: SolType, p: Param, o: Options, vals: Rows)
    requires Resolve(p) == Success(t) && NamedColumn(t, p, o, vals).Success?
    ensures var a := NamedColumn(t, p, o, vals).value;
            ParamDtype(p, o) == Success(A.TypeOf(a)) && Holds(t, o, vals, a)
    decreases t, 1
  {
    if t.Tuple? && Components(p) != [] {
      if p.suffixes != [] {
        WrapIsNoTuple(Tuple(ResolveAll(p.components).value), p.suffixes);
      }
      NamedStructAgrees(t.fields, p.components, o, vals);
    } else {
      ShreddingIsFaithful(t, o, vals);
    }
  }

  lemma {:induction false} NamedStructAgrees(fields: seq<SolType>, named: seq<Param>, o: Options, vals: Rows)
    requires ResolveAll(named) == Success(fields) && ToStructNamed(fields, named, o, vals).Success?
    ensures var a := ToStructNamed(fields, named, o, vals).value;
            && a.StructArray? && a.validity.None?
            && SchemaFields(named, 0, o) == Success(A.Fields(a.columns))
            && Holds(Tuple(fields), o, vals, a)
    decreases fields, 1
  {
    if fields != [] {
      NamedColumnsAgree(fields, named, 0, o, vals);
      TupleHolds(fields, o, vals, NamedColumns(fields, named, 0, o, vals).value);
    }
  }

  lemma {:induction false} NamedColumnsAgree(fields: seq<SolType>, named: seq<Param>, k: nat, o: Options, vals: Rows)
    requires ResolveAll(named) == Success(fields) && NamedColumns(fields, named, k, o, vals).Success?
    ensures var columns := NamedColumns(fields, named, k, o, vals).value;
            HoldColumns(fields, k, o, vals, columns) && SchemaFields(named, k, o) == Success(A.Fields(columns))
    decreases fields, 0
  {
    if fields != [] {
      assert fields[0] == Resolve(named[0]).value && fields[1..] == ResolveAll(named[1..]).value;
      NamedColumnAgrees(fields[0], named[0], o, ColumnOf(vals, k));
      NamedColumnsAgree(fields[1..], named[1..], k + 1, o, vals);
      ColumnsStep(fields, k, o, vals,
                  A.ArrowColumn(ParamName(named[0], k), NamedColumn(fields[0], named[0], o, ColumnOf(vals, k)).value),
                  NamedColumns(fields[1..], named[1..], k + 1, o, vals).value);
    }
  }

  // ---------------------------------------------------------------- named and positional alike

  /** Naming components changes neither what has a column nor what is accepted. */
  lemma {:induction false} NamedSucceedsIff(t: SolType, p: Param, o: Options, vals: Rows)
    requires Resolve(p) == Success(t)
    ensures NamedColumn(t, p, o, vals).Success? <==> ToArrow(t, o, vals).Success?
    decreases t, 1
  {
    if t.Tuple? && Components(p) != [] {
      if p.suffixes != [] {
        WrapIsNoTuple(Tuple(ResolveAll(p.components).value), p.suffixes);
      }
      NamedStructSucceedsIff(t.fields, p.components, o, vals);
    }
  }

  lemma {:induction false} NamedStructSucceedsIff(fields: seq<SolType>, named: seq<Param>, o: Options, vals: Rows)
    requires ResolveAll(named) == Success(fields)
    ensures ToStructNamed(fields, named, o, vals).Success? <==> ToArrow(Tuple(fields), o, vals).Success?
    decreases fields, 1
  {
    if fields != [] {
      NamedColumnsSucceedIff(fields, named, 0, o, vals);
      ConstructionNeverFails(Tuple(fields), o, vals);
      if NamedColumns(fields, named, 0, o, vals).Success? {
        NamedColumnsAgree(fields, named, 0, o, vals);
        TupleHolds(fields, o, vals, NamedColumns(fields, named, 0, o, vals).value);
      }
    }
  }

  lemma {:induction false} NamedColumnsSucceedIff(fields: seq<SolType>, named: seq<Param>, k: nat, o: Options,
                                                  vals: Rows)
    requires ResolveAll(named) == Success(fields)
    ensures NamedColumns(fields, named, k, o, vals).Success? <==> ToColumns(fields, k, o, vals).Success?
    decreases fields, 0
  {
    if fields != [] {
      assert fields[0] == Resolve(named[0]).value && fields[1..] == ResolveAll(named[1..]).value;
      NamedSucceedsIff(fields[0], named[0], o, ColumnOf(vals, k));
      NamedColumnsSucceedIff(fields[1..], named[1..], k + 1, o, vals);
    }
  }

  /** A parameter is announced iff its type has a column. */
  lemma {:induction false} ParamAnnouncedIff(p: Param, o: Options)
    requires Resolve(p).Success?
    ensures ParamDtype(p, o).Success? <==> HasColumn(Resolve(p).value)
    decreases p, 0
  {
    AnnouncedIff(Resolve(p).value, o);
    if p.WithComponents? && p.suffixes == [] {
      ParamsAnnouncedIff(p.components, 0, o);
    }
  }

  lemma {:induction false} ParamsAnnouncedIff(params: seq<Param>, k: nat, o: Options)
    requires ResolveAll(params).Success?
    ensures SchemaFields(params, k, o).Success? <==> AllHaveColumns(ResolveAll(params).value)
    decreases params, 0
  {
    if params != [] {
      var types := ResolveAll(params).value;
      assert types[0] == Resolve(params[0]).value && types[1..] == ResolveAll(params[1..]).value;
      ParamAnnouncedIff(params[0], o);
      ParamsAnnouncedIff(params[1..], k + 1, o);
      assert types == [types[0]] + types[1..];
    }
  }

  /** A parameter's name, or `param` and its number. */
  predicate IsNameOf(p: Param, i: nat, name: string) {
    name == if p.name == "" then "param" + Decimal(i) else p.name
  }

  /** The announced type of a parameter: below a plain tuple its component names, elsewhere the column
      type of its resolved type. */
  predicate ParamTypeFits(p: Param, o: Options, ty: A.ArrowType)
    decreases p, 0
  {
    if p.WithComponents? && p.suffixes == [] then ty.Struct? && ParamFieldsFit(p.components, 0, o, ty.fields)
    else Resolve(p).Success? && TypeFits(Resolve(p).value, o, ty)
  }

  predicate ParamFieldsFit(params: seq<Param>, k: nat, o: Options, fs: seq<A.ArrowField>)
    decreases params, 0
  {
    && |fs| == |params|
    && forall j | 0 <= j < |params| :: IsNameOf(params[j], k + j, fs[j].name) && ParamTypeFits(params[j], o, fs[j].ty)
  }

  lemma {:induction false} AnnouncedParamFits(p: Param, o: Options)
    ensures ParamDtype(p, o).Success? ==> ParamTypeFits(p, o, ParamDtype(p, o).value)
    decreases p, 0
  {
    if p.WithComponents? && p.components != [] && p.suffixes == [] {
      AnnouncedParamsFit(p.components, 0, o);
    } else if Resolve(p).Success? {
      AnnouncedTypeFits(Resolve(p).value, o);
    }
  }

  lemma {:induction false} AnnouncedParamsFit(params: seq<Param>, k: nat, o: Options)
    ensures SchemaFields(params, k, o).Success? ==> ParamFieldsFit(params, k, o, SchemaFields(params, k, o).value)
    decreases params, 0
  {
    if params != [] {
      AnnouncedParamFits(params[0], o);
      AnnouncedParamsFit(params[1..], k + 1, o);
      if SchemaFields(params, k, o).Success? {
        var fs := SchemaFields(params, k, o).value;
        forall j | 0 <= j < |params|
          ensures IsNameOf(params[j], k + j, fs[j].name) && ParamTypeFits(params[j], o, fs[j].ty)
        {
          if j > 0 {
            var i := j - 1;
            assert fs[1..] == SchemaFields(params[1..], k + 1, o).value;
            assert params[1..][i] == params[j] && fs[1..][i] == fs[j] && k + 1 + i == k + j;
          }
        }
      }
    }
  }

  /** Array suffixes apply from the inside out: the last one is the outermost. */
  lemma {:induction false} LastSuffixIsOutermost(t: SolType, suffixes: seq<Option<Size>>, last: Option<Size>)
    ensures Wrap(t, []) == t
    ensures Wrap(t, suffixes + [last])
         == if last.Some? then FixedArray(Wrap(t, suffixes), last.value) else Array(Wrap(t, suffixes))
    decreases |suffixes|
  {
    if suffixes == [] {
      assert [last][1..] == [] && suffixes + [last] == [last];
    } else {
      var inner := if suffixes[0].Some? then FixedArray(t, suffixes[0].value) else Array(t);
      assert (suffixes + [last])[1..] == suffixes[1..] + [last];
      LastSuffixIsOutermost(inner, suffixes[1..], last);
    }
  }

  // ---------------------------------------------------------------- decoding a call

  /** A row of call data: missing, or what the ABI decoder made of it. */
  type Blob = Option<Result<seq<SolValue>>>

  predicate Decodes(b: Blob, o: Options) {
    b.Some? && b.value.Failure? ==> o.allowFail
  }

  /** A row that cannot be decoded is a missing row. */
  function Decoded(b: Blob): Option<SolValue> {
    if b.Some? && b.value.Success? then Some(TupleValue(b.value.value)) else None
  }

  function DecodedRows(data: seq<Blob>): Rows
  {
    seq(|data|, i requires 0 <= i < |data| => Decoded(data[i]))
  }

  /** `decode_call_impl`, for the inputs or the outputs of a function. */
  function DecodeCall(render: Flatten.Renderer, params: seq<Param>, o: Options,
                      data: seq<Blob>): Result<seq<A.ArrowColumn>> {
    var types, schema := ResolveAll(params), SchemaFields(params, 0, o);
    if types.Failure? || schema.Failure? || exists b :: b in data && !Decodes(b, o) then Failure
    else
      var a := ToStructNamed(types.value, params, o, DecodedRows(data));
      if a.Failure? || !a.value.StructArray? then Failure
      else
        var batch := A.TryNewBatch(schema.value, A.DataOf(a.value.columns));
        if batch.Failure? then Failure else FlattenBatch.FlattenRecordBatch(render, batch.value)
  }

  /** The batch under the announced schema is never refused for its types or lengths: it is built
      whenever there is a parameter, and without one it never is. */
  lemma {:induction false} BatchMatchesSchema(params: seq<Param>, o: Options, vals: Rows)
    requires ResolveAll(params).Success? && ToStructNamed(ResolveAll(params).value, params, o, vals).Success?
    ensures var a := ToStructNamed(ResolveAll(params).value, params, o, vals).value;
            && a.StructArray? && SchemaFields(params, 0, o).Success?
            && var batch := A.TryNewBatch(SchemaFields(params, 0, o).value, A.DataOf(a.columns));
               && (batch.Success? <==> params != [])
               && (batch.Success? ==> batch.value == a.columns && A.Aligned(a.columns, |vals|))
  {
    var types := ResolveAll(params).value;
    NamedStructAgrees(types, params, o, vals);
    var a := ToStructNamed(types, params, o, vals).value;
    if params != [] {
      NamedColumnsAgree(types, params, 0, o, vals);
      A.BatchOfColumns(a.columns, SchemaFields(params, 0, o).value, |vals|);
    }
  }

  /** Cells that hold these values, or the missing ones, in flat form. */
  ghost predicate ShowsValues(render: Flatten.Renderer, types: seq<SolType>, schema: seq<A.ArrowField>, o: Options,
                              vs: seq<SolValue>, row: seq<A.Cell>)
  {
    var cells := FieldMeanings(types, o, Some(TupleValue(vs)));
    && |schema| == |cells| && FieldsHeld(types, o, vs, cells)
    && row == FlattenBatch.FlatRow(render, schema, cells)
  }

  ghost predicate ShowsNothing(render: Flatten.Renderer, types: seq<SolType>, schema: seq<A.ArrowField>, o: Options,
                               row: seq<A.Cell>)
  {
    var cells := FieldMeanings(types, o, None);
    |schema| == |cells| && AllMissing(types, cells) && row == FlattenBatch.FlatRow(render, schema, cells)
  }

  /** Each row shows the values its blob was decoded to, and nothing where the blob is missing or was not
      decoded. */
  ghost predicate ShowsBlobs(render: Flatten.Renderer, types: seq<SolType>, schema: seq<A.ArrowField>, o: Options,
                             data: seq<Blob>, out: seq<A.ArrowColumn>)
  {
    forall i | 0 <= i < |data| :: ShowsBlob(render, types, schema, o, data[i], A.CellsAt(out, i))
  }

  ghost predicate ShowsBlob(render: Flatten.Renderer, types: seq<SolType>, schema: seq<A.ArrowField>, o: Options,
                            b: Blob, row: seq<A.Cell>)
  {
    match b
    case Some(Success(vs)) => ShowsValues(render, types, schema, o, vs, row)
    case Some(Failure) => ShowsNothing(render, types, schema, o, row)
    case None => ShowsNothing(render, types, schema, o, row)
  }

  /** A decoded call: the announced schema, a row for each blob, and what the blobs were decoded to. */
  ghost predicate ShowsCall(render: Flatten.Renderer, params: seq<Param>, o: Options, data: seq<Blob>,
                            out: seq<A.ArrowColumn>)
  {
    && ResolveAll(params).Success? && SchemaFields(params, 0, o).Success?
    && ParamFieldsFit(params, 0, o, SchemaFields(params, 0, o).value)
    && AnnouncedSchema(params, o) == Success(A.Fields(out)) && A.Aligned(out, |data|)
    && ShowsBlobs(render, ResolveAll(params).value, SchemaFields(params, 0, o).value, o, data, out)
  }

  lemma {:induction false} OneFieldEach(params: seq<Param>, k: nat, o: Options)
    requires SchemaFields(params, k, o).Success?
    ensures |SchemaFields(params, k, o).value| == |params|
    decreases params
  {
    if params != [] {
      OneFieldEach(params[1..], k + 1, o);
    }
  }

  lemma {:induction false} CallRowsRead(params: seq<Param>, o: Options, vals: Rows, i: nat)
    requires ResolveAll(params).Success? && ToStructNamed(ResolveAll(params).value, params, o, vals).Success?
    requires params != [] && i < |vals|
    ensures var a := ToStructNamed(ResolveAll(params).value, params, o, vals).value;
            a.StructArray? && A.CellsAt(a.columns, i) == FieldMeanings(ResolveAll(params).value, o, vals[i])
  {
    var types := ResolveAll(params).value;
    NamedColumnsAgree(types, params, 0, o, vals);
    TupleRowReads(types, o, vals, ToStructNamed(types, params, o, vals).value.columns, i);
  }

  /** A successful call decode flattens the columns of the parameter struct. */
  lemma {:induction false} DecodedCallFlattens(render: Flatten.Renderer, params: seq<Param>, o: Options,
                                               data: seq<Blob>)
    requires DecodeCall(render, params, o, data).Success?
    ensures ResolveAll(params).Success? && SchemaFields(params, 0, o).Success? && params != []
    ensures ToStructNamed(ResolveAll(params).value, params, o, DecodedRows(data)).Success?
    ensures var a := ToStructNamed(ResolveAll(params).value, params, o, DecodedRows(data)).value;
            && a.StructArray? && A.Fields(a.columns) == SchemaFields(params, 0, o).value && A.Aligned(a.columns, |data|)
            && DecodeCall(render, params, o, data) == FlattenBatch.FlattenRecordBatch(render, a.columns)
  {
    var vals := DecodedRows(data);
    BatchMatchesSchema(params, o, vals);
    NamedStructAgrees(ResolveAll(params).value, params, o, vals);
  }

  /** The cells of decoded values hold them. */
  lemma {:induction false} DecodedCellsHold(types: seq<SolType>, o: Options, data: seq<Blob>, i: nat)
    requires types != [] && i < |data| && ToArrow(Tuple(types), o, DecodedRows(data)).Success?
    ensures match data[i]
            case Some(Success(vs)) => FieldsHeld(types, o, vs, FieldMeanings(types, o, Some(TupleValue(vs))))
            case Some(Failure) => AllMissing(types, FieldMeanings(types, o, None))
            case None => AllMissing(types, FieldMeanings(types, o, None))
    ensures FieldMeanings(types, o, Decoded(data[i])) ==
            match data[i]
            case Some(Success(vs)) => FieldMeanings(types, o, Some(TupleValue(vs)))
            case Some(Failure) => FieldMeanings(types, o, None)
            case None => FieldMeanings(types, o, None)
  {
    MeaningHolds(Tuple(types), o, DecodedRows(data));
    MissingFields(types, o);
    assert DecodedRows(data)[i] in DecodedRows(data);
  }

  /** Every successful call decode has exactly the announced schema, one row for each blob, and in each
      row the flat cells of the decoded values, missing throughout where a blob is missing or undecodable. */
  lemma {:induction false} DecodedCallHasAnnouncedSchema(render: Flatten.Renderer, params: seq<Param>, o: Options,
                                                         data: seq<Blob>)
    requires DecodeCall(render, params, o, data).Success?
    ensures ShowsCall(render, params, o, data, DecodeCall(render, params, o, data).value)
  {
    DecodedCallFlattens(render, params, o, data);
    AnnouncedParamsFit(params, 0, o);
    var types := ResolveAll(params).value;
    var columns := ToStructNamed(types, params, o, DecodedRows(data)).value.columns;
    FlattenBatch.FlattenedBatchHasFlattenedSchema(render, columns, |data|);
    NamedStructSucceedsIff(types, params, o, DecodedRows(data));
    forall i | 0 <= i < |data|
      ensures A.CellsAt(columns, i) == FieldMeanings(types, o, Decoded(data[i]))
    {
      CallRowsRead(params, o, DecodedRows(data), i);
    }
    forall i | 0 <= i < |data| ensures ShowsBlob(render, types, SchemaFields(params, 0, o).value, o, data[i],
                                                A.CellsAt(DecodeCall(render, params, o, data).value, i))
    {
      DecodedCellsHold(types, o, data, i);
    }
  }

  /** What the columns take of a row of call data: values they accept, and failures when allowed. */
  predicate BlobTaken(types: seq<SolType>, o: Options, b: Blob) {
    match b
    case Some(Success(vs)) => Accepts(Tuple(types), o, TupleValue(vs))
    case Some(Failure) => o.allowFail
    case None => true
  }

  /** The call has parameters, all with columns; every row is taken; something is left to show, and its
      indices fit. */
  predicate CallDecodes(params: seq<Param>, o: Options, data: seq<Blob>) {
    && params != [] && ResolveAll(params).Success? && AllHaveColumns(ResolveAll(params).value)
    && (forall b | b in data :: BlobTaken(ResolveAll(params).value, o, b))
    && AnnouncedSchema(params, o).Success? && AnnouncedSchema(params, o).value != []
    && FlattenBatch.AllFit(SchemaFields(params, 0, o).value, |data|)
  }

  lemma {:induction false} BlobsTakenIff(types: seq<SolType>, o: Options, data: seq<Blob>)
    ensures (forall b | b in data :: Decodes(b, o)) && RowsAccepted(Tuple(types), o, DecodedRows(data))
       <==> forall b | b in data :: BlobTaken(types, o, b)
  {
    var vals := DecodedRows(data);
    forall i | 0 <= i < |data|
      ensures BlobTaken(types, o, data[i]) <==> Decodes(data[i], o) && RowAccepted(types, o, vals[i])
    {
    }
    if RowsAccepted(Tuple(types), o, vals) && forall b | b in data :: Decodes(b, o) {
      forall i | 0 <= i < |data| ensures BlobTaken(types, o, data[i]) {
        assert vals[i] in vals && data[i] in data;
      }
    }
    if forall b | b in data :: BlobTaken(types, o, b) {
      forall v | v in vals && v.Some? ensures Accepts(Tuple(types), o, v.value) {
        var i :| 0 <= i < |data| && vals[i] == v;
        assert data[i] in data;
      }
    }
  }

  predicate RowAccepted(types: seq<SolType>, o: Options, v: Option<SolValue>) {
    v.Some? ==> Accepts(Tuple(types), o, v.value)
  }

  /** When a call is decoded, told from its parameters and its data. */
  lemma {:induction false} CallDecodesIff(render: Flatten.Renderer, params: seq<Param>, o: Options, data: seq<Blob>)
    ensures DecodeCall(render, params, o, data).Success? <==> CallDecodes(params, o, data)
  {
    if params != [] && ResolveAll(params).Success? && SchemaFields(params, 0, o).Success? {
      var types, vals := ResolveAll(params).value, DecodedRows(data);
      ParamsAnnouncedIff(params, 0, o);
      NamedStructSucceedsIff(types, params, o, vals);
      ConversionSucceedsIff(Tuple(types), o, vals);
      BlobsTakenIff(types, o, data);
      if ToStructNamed(types, params, o, vals).Success? {
        BatchMatchesSchema(params, o, vals);
        NamedStructAgrees(types, params, o, vals);
        FlattenBatch.FlattenedBatchHasFlattenedSchema(render, ToStructNamed(types, params, o, vals).value.columns,
                                                      |data|);
      }
    } else if ResolveAll(params).Success? {
      ParamsAnnouncedIff(params, 0, o);
    }
  }

  lemma {:induction false} NoParametersNeverDecode(render: Flatten.Renderer, o: Options, data: seq<Blob>)
    ensures DecodeCall(render, [], o, data).Failure?
  {
  }

  // ---------------------------------------------------------------- the loops

  lemma {:induction false} NextNamedColumn(fields: seq<SolType>, named: seq<Param>, k: nat, o: Options, vals: Rows,
                                           arrays: seq<A.ArrowColumn>)
    requires k < |fields| == |named|
    ensures var first := NamedColumn(fields[k], named[k], o, ColumnOf(vals, k));
            && (first.Failure? ==> NamedColumns(fields[k..], named[k..], k, o, vals).Failure?)
            && (first.Success? ==> (
                  A.InFront(arrays, NamedColumns(fields[k..], named[k..], k, o, vals))
                  == A.InFront(arrays + [A.ArrowColumn(ParamName(named[k], k), first.value)],
                             NamedColumns(fields[k + 1..], named[k + 1..], k + 1, o, vals))))
  {
    assert fields[k..][0] == fields[k] && fields[k..][1..] == fields[k + 1..];
    assert named[k..][0] == named[k] && named[k..][1..] == named[k + 1..];
    var first := NamedColumn(fields[k], named[k], o, ColumnOf(vals, k));
    var others := NamedColumns(fields[k + 1..], named[k + 1..], k + 1, o, vals);
    if first.Success? && others.Success? {
      var c := A.ArrowColumn(ParamName(named[k], k), first.value);
      assert arrays + ([c] + others.value) == (arrays + [c]) + others.value;
    }
  }

  method BuildStructNamed(fields: seq<SolType>, named: seq<Param>, o: Options,
                          vals: Rows) returns (r: Result<A.ArrowArray>)
    requires |fields| == |named|
    requires ResolveAll(named) == Success(fields)
    ensures r == ToStructNamed(fields, named, o, vals)
    decreases fields, 1
  {
    if fields == [] {
      return Success(A.StructArray(|vals|, [], None));
    }
    var ok, columns := EvmShredRun.Transpose(|fields|, vals);
    if !ok {
      return Failure;
    }
    var arrays: seq<A.ArrowColumn> := [];
    assert fields[0..] == fields && named[0..] == named;
    assert NamedColumns(fields, named, 0, o, vals).Success? ==>
             [] + NamedColumns(fields, named, 0, o, vals).value == NamedColumns(fields, named, 0, o, vals).value;
    for k := 0 to |fields|
      invariant NamedColumns(fields, named, 0, o, vals)
           == A.InFront(arrays, NamedColumns(fields[k..], named[k..], k, o, vals))
    {
      ResolvedAt(named, k);
      var a := BuildNamedColumn(fields[k], named[k], o, columns[k]);
      NextNamedColumn(fields, named, k, o, vals, arrays);
      if a.Failure? {
        return Failure;
      }
      arrays := arrays + [A.ArrowColumn(ParamName(named[k], k), a.value)];
    }
    assert arrays + [] == arrays;
    return A.TryNewStruct(arrays);
  }

  lemma {:induction false} ResolvedAt(params: seq<Param>, k: nat)
    requires ResolveAll(params).Success? && k < |params|
    ensures Resolve(params[k]) == Success(ResolveAll(params).value[k])
  {
    if k > 0 {
      ResolvedAt(params[1..], k - 1);
    }
  }

  method BuildNamedColumn(t: SolType, p: Param, o: Options, vals: Rows) returns (r: Result<A.ArrowArray>)
    requires Resolve(p) == Success(t)
    ensures r == NamedColumn(t, p, o, vals)
    decreases t, 1
  {
    if t.Tuple? && Components(p) != [] {
      ghost var types := ResolveAll(p.components).value;
      if p.suffixes != [] {
        WrapIsNoTuple(Tuple(types), p.suffixes);
      }
      r := BuildStructNamed(t.fields, p.components, o, vals);
    } else {
      r := EvmShredRun.ToArrowArray(t, o, vals);
    }
  }

  /** The loop over the rows: what could not be decoded is missing, or fails the batch. */
  method DecodeBlobs(o: Options, data: seq<Blob>) returns (ok: bool, rows: Rows)
    ensures ok <==> forall b | b in data :: Decodes(b, o)
    ensures ok ==> rows == DecodedRows(data)
  {
    rows := [];
    for i := 0 to |data|
      invariant |rows| == i && forall j | 0 <= j < i :: rows[j] == Decoded(data[j])
      invariant forall b | b in data[..i] :: Decodes(b, o)
    {
      assert data[i] in data && data[..i + 1] == data[..i] + [data[i]];
      if data[i].Some? && data[i].value.Failure? && !o.allowFail {
        return false, rows;
      }
      rows := rows + [Decoded(data[i])];
    }
    assert data[..|data|] == data && rows == DecodedRows(data);
    ok := true;
  }

  lemma {:induction false} CallIsDecoded(render: Flatten.Renderer, params: seq<Param>, o: Options, data: seq<Blob>)
    ensures DecodeCall(render, params, o, data).Success? <==> CallDecodes(params, o, data)
    ensures DecodeCall(render, params, o, data).Success? ==>
              ShowsCall(render, params, o, data, DecodeCall(render, params, o, data).value)
  {
    CallDecodesIff(render, params, o, data);
    if DecodeCall(render, params, o, data).Success? {
      DecodedCallHasAnnouncedSchema(render, params, o, data);
    }
  }

  /** `decode_call_impl` as it runs. */
  method DecodeCallRows(render: Flatten.Renderer, params: seq<Param>, o: Options, data: seq<Blob>)
    returns (r: Result<seq<A.ArrowColumn>>)
    ensures r == DecodeCall(render, params, o, data)
    ensures r.Success? <==> CallDecodes(params, o, data)
    ensures r.Success? ==> ShowsCall(render, params, o, data, r.value)
  {
    CallIsDecoded(render, params, o, data);
    var types, schema := ResolveAll(params), SchemaFields(params, 0, o);
    if types.Failure? || schema.Failure? {
      return Failure;
    }
    var ok, decoded := DecodeBlobs(o, data);
    if !ok {
      return Failure;
    }
    var a := BuildStructNamed(types.value, params, o, decoded);
    if a.Failure? || !a.value.StructArray? {
      return Failure;
    }
    var batch := A.TryNewBatch(schema.value, A.DataOf(a.value.columns));
    if batch.Failure? {
      return Failure;
    }
    r := FlattenBatch.FlattenColumns(render, batch.value);
  }
}
