/** Decoding events: topics come back under positional names, the schema announces component names. */
module EvmEvents {
  import opened Wrappers
  import opened EvmShred
  import opened EvmMeaning
  import opened EvmDecode
  import EvmShredRun
  import Flatten
  import FlattenBatch
  import A = Arrow

  datatype EventParam = EventParam(param: Param, indexed: bool)

  /** The parameters that are indexed, or those that are not, in order. */
  function Select(inputs: seq<EventParam>, indexed: bool): seq<Param> {
    if inputs == [] then []
    else (if inputs[0].indexed == indexed then [inputs[0].param] else []) + Select(inputs[1..], indexed)
  }

  /** Their fields; default names count all parameters, the first of which is number k. */
  function EventFields(inputs: seq<EventParam>, indexed: bool, k: nat, o: Options): Result<seq<A.ArrowField>> {
    if inputs == [] then Success([])
    else
      var others := EventFields(inputs[1..], indexed, k + 1, o);
      if inputs[0].indexed != indexed then others
      else
        var first := ParamDtype(inputs[0].param, o);
        if first.Failure? || others.Failure? then Failure
        else Success([A.ArrowField(ParamName(inputs[0].param, k), first.value)] + others.value)
  }

  /** `event_signature_to_arrow_schema_impl`: indexed parameters first. */
  function EventSchema(inputs: seq<EventParam>, o: Options): Result<seq<A.ArrowField>> {
    var topics, body := EventFields(inputs, true, 0, o), EventFields(inputs, false, 0, o);
    if topics.Failure? || body.Failure? then Failure else Success(topics.value + body.value)
  }

  // ---------------------------------------------------------------- where a parameter comes in the schema

  /** Parameter j is number |Select(inputs[..j], …)| among those that are indexed, or among those that are
      not. */
  lemma {:induction false} SelectAt(inputs: seq<EventParam>, j: nat)
    requires j < |inputs|
    ensures var before := |Select(inputs[..j], inputs[j].indexed)|;
            before < |Select(inputs, inputs[j].indexed)| && Select(inputs, inputs[j].indexed)[before] == inputs[j].param
    decreases inputs
  {
    if j > 0 {
      SelectAt(inputs[1..], j - 1);
      assert inputs[..j][1..] == inputs[1..][..j - 1];
    }
  }

  predicate FieldIsOf(p: Param, i: nat, o: Options, f: A.ArrowField) {
    IsNameOf(p, i, f.name) && ParamTypeFits(p, o, f.ty)
  }

  lemma {:induction false} EventFieldAt(inputs: seq<EventParam>, indexed: bool, k: nat, o: Options, j: nat)
    requires j < |inputs| && inputs[j].indexed == indexed && EventFields(inputs, indexed, k, o).Success?
    ensures var p, fs, before := inputs[j].param, EventFields(inputs, indexed, k, o).value,
                                 |Select(inputs[..j], indexed)|;
            && before < |fs| && ParamDtype(p, o).Success?
            && fs[before] == A.ArrowField(ParamName(p, k + j), ParamDtype(p, o).value)
    decreases |inputs|
  {
    if j > 0 {
      EventFieldAt(inputs[1..], indexed, k + 1, o, j - 1);
      assert inputs[..j][1..] == inputs[1..][..j - 1] && inputs[..j][0] == inputs[0];
      assert k + 1 + (j - 1) == k + j;
      if inputs[0].indexed == indexed {
        assert EventFields(inputs, indexed, k, o).value[1..] == EventFields(inputs[1..], indexed, k + 1, o).value;
      }
    }
  }

  lemma {:induction false} EventFieldCount(inputs: seq<EventParam>, indexed: bool, k: nat, o: Options)
    requires EventFields(inputs, indexed, k, o).Success?
    ensures |EventFields(inputs, indexed, k, o).value| == |Select(inputs, indexed)|
    decreases inputs
  {
    if inputs != [] {
      EventFieldCount(inputs[1..], indexed, k + 1, o);
    }
  }

  /** The place of parameter j in the schema: indexed parameters first. */
  function PlaceOf(inputs: seq<EventParam>, j: nat): nat
    requires j < |inputs|
  {
    (if inputs[j].indexed then 0 else |Select(inputs, true)|) + |Select(inputs[..j], inputs[j].indexed)|
  }

  /** Every parameter has its field, named after it or by its number among all parameters. */
  predicate EventFieldsFit(inputs: seq<EventParam>, o: Options, fs: seq<A.ArrowField>) {
    && |fs| == |inputs|
    && forall j | 0 <= j < |inputs| :: EventFieldFits(inputs, o, fs, j)
  }

  predicate EventFieldFits(inputs: seq<EventParam>, o: Options, fs: seq<A.ArrowField>, j: nat)
    requires j < |inputs|
  {
    PlaceOf(inputs, j) < |fs| && FieldIsOf(inputs[j].param, j, o, fs[PlaceOf(inputs, j)])
  }

  lemma {:induction false} EventSchemaFits(inputs: seq<EventParam>, o: Options)
    requires EventSchema(inputs, o).Success?
    ensures EventFieldsFit(inputs, o, EventSchema(inputs, o).value)
  {
    EventFieldCount(inputs, true, 0, o);
    EventFieldCount(inputs, false, 0, o);
    SelectAll(inputs);
    forall j | 0 <= j < |inputs| ensures EventFieldFits(inputs, o, EventSchema(inputs, o).value, j) {
      EventFieldAt(inputs, inputs[j].indexed, 0, o, j);
      AnnouncedParamFits(inputs[j].param, o);
    }
  }

  lemma {:induction false} SelectAll(inputs: seq<EventParam>)
    ensures |Select(inputs, true)| + |Select(inputs, false)| == |inputs|
  {
    if inputs != [] {
      SelectAll(inputs[1..]);
    }
  }

  // ---------------------------------------------------------------- decoding

  /** A topic of one row: missing, or what the ABI decoder made of it. */
  type Topic = Option<Result<SolValue>>

  predicate TopicsDecode(col: seq<Topic>, o: Options) {
    forall b | b in col :: b.Some? && b.value.Failure? ==> o.allowFail
  }

  function TopicRows(col: seq<Topic>): Rows
  {
    seq(|col|,
        i requires 0 <= i < |col| => if col[i].Some? && col[i].value.Success? then Some(col[i].value.value) else None)
  }

  /** `decode_topic` */
  function DecodeTopic(t: SolType, o: Options, col: seq<Topic>): Result<A.ArrowArray> {
    if TopicsDecode(col, o) then ToArrow(t, o, TopicRows(col)) else Failure
  }

  /** One array for each topic column, as long as there are types for them. */
  function DecodeTopics(types: seq<SolType>, o: Options, topics: seq<seq<Topic>>): Result<seq<A.ArrowArray>>
    decreases |types|
  {
    if types == [] || topics == [] then Success([])
    else
      var first, others := DecodeTopic(types[0], o, topics[0]), DecodeTopics(types[1..], o, topics[1..]);
      if first.Failure? || others.Failure? then Failure else Success([first.value] + others.value)
  }

  /** `decode_body_named` */
  function DecodeBody(params: seq<Param>, o: Options, body: seq<Blob>): Result<seq<A.ArrowArray>> {
    var types := ResolveAll(params);
    if types.Failure? || exists b :: b in body && !Decodes(b, o) then Failure
    else
      var a := ToStructNamed(types.value, params, o, DecodedRows(body));
      if a.Failure? || !a.value.StructArray? then Failure else Success(A.DataOf(a.value.columns))
  }

  /** All arrays of an event batch: topics, then the body. */
  function EventArrays(inputs: seq<EventParam>, o: Options, topics: seq<seq<Topic>>, body: seq<Blob>)
    : Result<seq<A.ArrowArray>>
  {
    var types := ResolveAll(Select(inputs, true));
    if types.Failure? then Failure
    else
      var first, others := DecodeTopics(types.value, o, topics), DecodeBody(Select(inputs, false), o, body);
      if first.Failure? || others.Failure? then Failure else Success(first.value + others.value)
  }

  /** `decode_events` on the columns `topic1` to `topic3` and `data`, behind the topic0 filter; `stacked`
      are the input columns when they are asked for, none otherwise. */
  function DecodeEvents(render: Flatten.Renderer, inputs: seq<EventParam>, o: Options, topics: seq<seq<Topic>>,
                        body: seq<Blob>, stacked: seq<A.ArrowColumn>)
    : Result<seq<A.ArrowColumn>>
  {
    var schema, arrays := EventSchema(inputs, o), EventArrays(inputs, o, topics, body);
    if schema.Failure? || arrays.Failure? then Failure
    else
      var batch := A.TryNewBatch(schema.value + A.Fields(stacked), arrays.value + A.DataOf(stacked));
      if batch.Failure? then Failure else FlattenBatch.FlattenRecordBatch(render, batch.value)
  }

  // ---------------------------------------------------------------- names that survive

  /** Naming a tuple's components as announced is the same as numbering them. */
  predicate DefaultNamed(p: Param)
    decreases p, 0
  {
    p.WithComponents? && p.suffixes == [] ==> AllDefaultNamed(p.components, 0)
  }

  predicate AllDefaultNamed(params: seq<Param>, k: nat)
    decreases params, 0
  {
    params == [] ||
    (ParamName(params[0], k) == DefaultName(k) && DefaultNamed(params[0]) && AllDefaultNamed(params[1..], k + 1))
  }

  /** The announced type and the type of the unnamed column differ in nothing but component names. */
  lemma {:induction false} SameTypeIffDefaultNamed(p: Param, o: Options)
    requires Resolve(p).Success? && ToDtype(Resolve(p).value, o).Success?
    ensures ParamDtype(p, o).Success?
    ensures ParamDtype(p, o) == ToDtype(Resolve(p).value, o) <==> DefaultNamed(p)
    decreases p, 0
  {
    if p.WithComponents? && p.suffixes == [] {
      SameFieldsIffDefaultNamed(p.components, 0, o);
    }
  }

  lemma {:induction false} SameFieldsIffDefaultNamed(params: seq<Param>, k: nat, o: Options)
    requires ResolveAll(params).Success? && FieldDtypes(ResolveAll(params).value, k, o).Success?
    ensures SchemaFields(params, k, o).Success?
    ensures SchemaFields(params, k, o) == FieldDtypes(ResolveAll(params).value, k, o) <==> AllDefaultNamed(params, k)
    decreases params, 0
  {
    if params != [] {
      var types := ResolveAll(params).value;
      assert types[0] == Resolve(params[0]).value && types[1..] == ResolveAll(params[1..]).value;
      SameTypeIffDefaultNamed(params[0], o);
      SameFieldsIffDefaultNamed(params[1..], k + 1, o);
      var f, g := SchemaFields(params, k, o).value, FieldDtypes(types, k, o).value;
      assert f[1..] == SchemaFields(params[1..], k + 1, o).value;
      assert g[1..] == FieldDtypes(types[1..], k + 1, o).value;
      assert f == g <==> f[0] == g[0] && f[1..] == g[1..] by {
        assert f == [f[0]] + f[1..] && g == [g[0]] + g[1..];
      }
    }
  }

  // ---------------------------------------------------------------- when the batch fits its schema

  predicate IndexedDefaultNamed(params: seq<Param>) {
    forall p | p in params :: DefaultNamed(p)
  }

  /** Arrays and fields side by side. */
  predicate TypesMatch(fields: seq<A.ArrowField>, arrays: seq<A.ArrowArray>) {
    |fields| == |arrays| && forall k | 0 <= k < |arrays| :: A.TypeOf(arrays[k]) == fields[k].ty
  }

  predicate AllOfLength(arrays: seq<A.ArrowArray>, rows: nat) {
    forall a | a in arrays :: A.Len(a) == rows && A.WellFormed(a)
  }

  lemma {:induction false} TypesMatchStep(f: A.ArrowField, fields: seq<A.ArrowField>, a: A.ArrowArray,
                                          arrays: seq<A.ArrowArray>)
    ensures TypesMatch([f] + fields, [a] + arrays) <==> A.TypeOf(a) == f.ty && TypesMatch(fields, arrays)
  {
    var fs, xs := [f] + fields, [a] + arrays;
    assert fs[0] == f && xs[0] == a;
    if TypesMatch(fs, xs) {
      forall k | 0 <= k < |arrays| ensures A.TypeOf(arrays[k]) == fields[k].ty {
        assert xs[k + 1] == arrays[k] && fs[k + 1] == fields[k];
      }
    }
  }

  function Min(m: nat, n: nat): nat {
    if m <= n then m else n
  }

  predicate TopicArraysFit(params: seq<Param>, fields: seq<A.ArrowField>, arrays: seq<A.ArrowArray>, topics: nat,
                           rows: nat) {
    && AllOfLength(arrays, rows) && |fields| == |params| && |arrays| == Min(|params|, topics)
    && (|params| <= topics ==> (TypesMatch(fields, arrays) <==> IndexedDefaultNamed(params)))
  }

  /** The topic arrays are of the announced types exactly when there is a column for each and no indexed
      tuple has component names of its own. */
  lemma {:induction false} TopicsMatch(inputs: seq<EventParam>, k: nat, o: Options, topics: seq<seq<Topic>>, rows: nat)
    requires ResolveAll(Select(inputs, true)).Success? && EventFields(inputs, true, k, o).Success?
    requires DecodeTopics(ResolveAll(Select(inputs, true)).value, o, topics).Success?
    requires forall c | c in topics :: |c| == rows
    ensures TopicArraysFit(Select(inputs, true), EventFields(inputs, true, k, o).value,
                           DecodeTopics(ResolveAll(Select(inputs, true)).value, o, topics).value, |topics|, rows)
    decreases inputs
  {
    if inputs != [] {
      if inputs[0].indexed {
        TopicsMatchStep(inputs, k, o, topics, rows);
      } else {
        assert Select(inputs, true) == Select(inputs[1..], true);
        TopicsMatch(inputs[1..], k + 1, o, topics, rows);
      }
    }
  }

  lemma {:induction false} SelectFirst(inputs: seq<EventParam>)
    requires inputs != [] && inputs[0].indexed
    ensures Select(inputs, true) == [inputs[0].param] + Select(inputs[1..], true)
    ensures ResolveAll(Select(inputs, true)).Success? ==> (
              && Resolve(inputs[0].param).Success? && ResolveAll(Select(inputs[1..], true)).Success?
              && ResolveAll(Select(inputs, true)).value
                 == [Resolve(inputs[0].param).value] + ResolveAll(Select(inputs[1..], true)).value)
  {
    assert Select(inputs, true)[1..] == Select(inputs[1..], true);
  }

  lemma {:induction false} TopicsMatchStep(inputs: seq<EventParam>, k: nat, o: Options, topics: seq<seq<Topic>>,
                                           rows: nat)
    requires inputs != [] && inputs[0].indexed
    requires ResolveAll(Select(inputs, true)).Success? && EventFields(inputs, true, k, o).Success?
    requires DecodeTopics(ResolveAll(Select(inputs, true)).value, o, topics).Success?
    requires forall c | c in topics :: |c| == rows
    ensures TopicArraysFit(Select(inputs, true), EventFields(inputs, true, k, o).value,
                           DecodeTopics(ResolveAll(Select(inputs, true)).value, o, topics).value, |topics|, rows)
    decreases inputs, 0
  {
    SelectFirst(inputs);
    var p, rest := inputs[0].param, Select(inputs[1..], true);
    var t, types := Resolve(p).value, ResolveAll(rest).value;
    assert ([t] + types)[1..] == types;
    var others := EventFields(inputs[1..], true, k + 1, o).value;
    if topics == [] {
      assert DecodeTopics(types, o, []) == Success([]);
      TopicsMatch(inputs[1..], k + 1, o, [], rows);
    } else {
      assert topics[0] in topics && forall c | c in topics[1..] :: c in topics;
      TopicsMatch(inputs[1..], k + 1, o, topics[1..], rows);
      ShreddingIsFaithful(t, o, TopicRows(topics[0]));
      SameTypeIffDefaultNamed(p, o);
      var a := DecodeTopic(t, o, topics[0]).value;
      TypesMatchStep(A.ArrowField(ParamName(p, k), ParamDtype(p, o).value), others,
                     a, DecodeTopics(types, o, topics[1..]).value);
      assert IndexedDefaultNamed([p] + rest) <==> DefaultNamed(p) && IndexedDefaultNamed(rest);
    }
  }

  /** Fields that differ in their names at most. */
  predicate SameTypes(f: seq<A.ArrowField>, g: seq<A.ArrowField>) {
    |f| == |g| && forall i | 0 <= i < |f| :: f[i].ty == g[i].ty
  }

  lemma {:induction false} BodyFieldTypes(inputs: seq<EventParam>, k: nat, j: nat, o: Options)
    requires EventFields(inputs, false, k, o).Success?
    ensures SchemaFields(Select(inputs, false), j, o).Success?
    ensures SameTypes(EventFields(inputs, false, k, o).value, SchemaFields(Select(inputs, false), j, o).value)
    decreases inputs
  {
    if inputs != [] {
      if inputs[0].indexed {
        BodyFieldTypes(inputs[1..], k + 1, j, o);
        assert Select(inputs, false) == Select(inputs[1..], false);
      } else {
        BodyFieldTypes(inputs[1..], k + 1, j + 1, o);
        assert Select(inputs, false) == [inputs[0].param] + Select(inputs[1..], false);
        assert Select(inputs, false)[1..] == Select(inputs[1..], false);
      }
    }
  }

  lemma {:induction false} ColumnsOfTypes(fields: seq<A.ArrowField>, columns: seq<A.ArrowColumn>, rows: nat)
    requires A.Aligned(columns, rows) && SameTypes(fields, A.Fields(columns))
    ensures TypesMatch(fields, A.DataOf(columns)) && AllOfLength(A.DataOf(columns), rows)
  {
    forall k | 0 <= k < |columns| ensures A.Len(columns[k].data) == rows && A.WellFormed(columns[k].data) {
      assert columns[k] in columns;
    }
  }

  /** The body arrays always are of the announced types. */
  lemma {:induction false} BodyMatches(inputs: seq<EventParam>, o: Options, body: seq<Blob>)
    requires EventFields(inputs, false, 0, o).Success? && DecodeBody(Select(inputs, false), o, body).Success?
    ensures TypesMatch(EventFields(inputs, false, 0, o).value, DecodeBody(Select(inputs, false), o, body).value)
    ensures AllOfLength(DecodeBody(Select(inputs, false), o, body).value, |body|)
  {
    var params, vals := Select(inputs, false), DecodedRows(body);
    BodyFieldTypes(inputs, 0, 0, o);
    NamedStructAgrees(ResolveAll(params).value, params, o, vals);
    var a := ToStructNamed(ResolveAll(params).value, params, o, vals).value;
    assert A.Len(a) == a.rows == |body|;
    ColumnsOfTypes(EventFields(inputs, false, 0, o).value, a.columns, |body|);
  }

  predicate FitsSchema(inputs: seq<EventParam>, topics: nat, stacked: seq<A.ArrowColumn>) {
    (inputs != [] || stacked != []) && |Select(inputs, true)| <= topics && IndexedDefaultNamed(Select(inputs, true))
  }

  lemma {:induction false} TypesMatchJoin(f: seq<A.ArrowField>, g: seq<A.ArrowField>, x: seq<A.ArrowArray>,
                                          y: seq<A.ArrowArray>)
    requires |f| == |x| && TypesMatch(g, y)
    ensures TypesMatch(f + g, x + y) <==> TypesMatch(f, x)
  {
    if TypesMatch(f + g, x + y) {
      forall k | 0 <= k < |x| ensures A.TypeOf(x[k]) == f[k].ty {
        assert (x + y)[k] == x[k] && (f + g)[k] == f[k];
      }
    }
  }

  lemma {:induction false} BatchIffMatch(fields: seq<A.ArrowField>, arrays: seq<A.ArrowArray>, rows: nat)
    requires AllOfLength(arrays, rows)
    ensures A.TryNewBatch(fields, arrays).Success? <==> arrays != [] && TypesMatch(fields, arrays)
    ensures A.TryNewBatch(fields, arrays).Success? ==> (
              && A.Fields(A.TryNewBatch(fields, arrays).value) == fields
              && A.Aligned(A.TryNewBatch(fields, arrays).value, rows))
  {
    if arrays != [] {
      assert arrays[0] in arrays;
    }
  }

  lemma {:induction false} StackedMatch(stacked: seq<A.ArrowColumn>, rows: nat)
    requires A.Aligned(stacked, rows)
    ensures TypesMatch(A.Fields(stacked), A.DataOf(stacked))
    ensures AllOfLength(A.DataOf(stacked), rows)
  {
    forall k | 0 <= k < |stacked| ensures A.Len(stacked[k].data) == rows && A.WellFormed(stacked[k].data) {
      assert stacked[k] in stacked;
    }
  }

  /** Topics and body against the announced schema, nothing stacked. */
  lemma {:induction false} EventArraysMatch(inputs: seq<EventParam>, o: Options, topics: seq<seq<Topic>>,
                                            body: seq<Blob>)
    requires EventSchema(inputs, o).Success? && EventArrays(inputs, o, topics, body).Success?
    requires forall c | c in topics :: |c| == |body|
    ensures var fields, arrays := EventSchema(inputs, o).value, EventArrays(inputs, o, topics, body).value;
            && AllOfLength(arrays, |body|) && |fields| == |inputs| && |arrays| <= |fields|
            && (TypesMatch(fields, arrays) <==>
                  |Select(inputs, true)| <= |topics| && IndexedDefaultNamed(Select(inputs, true)))
  {
    var f, g := EventFields(inputs, true, 0, o).value, EventFields(inputs, false, 0, o).value;
    var x := DecodeTopics(ResolveAll(Select(inputs, true)).value, o, topics).value;
    var y := DecodeBody(Select(inputs, false), o, body).value;
    TopicsMatch(inputs, 0, o, topics, |body|);
    BodyMatches(inputs, o, body);
    BodyFieldTypes(inputs, 0, 0, o);
    SelectAll(inputs);
    OneFieldEach(Select(inputs, false), 0, o);
    if |f| == |x| {
      TypesMatchJoin(f, g, x, y);
    }
  }

  /** Once topics and body are decoded, the batch under the announced schema, with any input columns
      stacked behind it, is built exactly when there is a column at all, no more than three parameters
      are indexed, and no indexed tuple names its components: topics come back with positional names. */
  lemma {:induction false} EventBatchIff(inputs: seq<EventParam>, o: Options, topics: seq<seq<Topic>>, body: seq<Blob>,
                                         stacked: seq<A.ArrowColumn>)
    requires EventSchema(inputs, o).Success? && EventArrays(inputs, o, topics, body).Success?
    requires (forall c | c in topics :: |c| == |body|) && A.Aligned(stacked, |body|)
    ensures A.TryNewBatch(EventSchema(inputs, o).value + A.Fields(stacked),
                          EventArrays(inputs, o, topics, body).value + A.DataOf(stacked)).Success?
       <==> FitsSchema(inputs, |topics|, stacked)
    ensures AllOfLength(EventArrays(inputs, o, topics, body).value + A.DataOf(stacked), |body|)
  {
    var fields, arrays := EventSchema(inputs, o).value, EventArrays(inputs, o, topics, body).value;
    EventArraysMatch(inputs, o, topics, body);
    StackedMatch(stacked, |body|);
    BatchIffMatch(fields + A.Fields(stacked), arrays + A.DataOf(stacked), |body|);
    if |fields| == |arrays| {
      TypesMatchJoin(fields, A.Fields(stacked), arrays, A.DataOf(stacked));
    }
  }

  /** An event whose indexed parameter is the tuple `p` of one boolean named `a`: schema and arrays are
      both made, and still nothing decodes, whatever the options. */
  lemma {:induction false} NamedTopicTupleNeverDecodes(render: Flatten.Renderer, o: Options)
    ensures var inputs := [EventParam(WithComponents("p", [Plain("a", Success(Bool))], []), true)];
            && EventSchema(inputs, o).Success? && EventArrays(inputs, o, [[None]], [None]).Success?
            && DecodeEvents(render, inputs, o, [[None]], [None], []).Failure?
  {
    var p := WithComponents("p", [Plain("a", Success(Bool))], []);
    NamedTupleResolves(p, o);
    OnlyTopicDecodes(p, Tuple([Bool]), o);
    EventBatchIff([EventParam(p, true)], o, [[None]], [None], []);
  }

  lemma {:induction false} NamedTupleResolves(p: Param, o: Options)
    requires p == WithComponents("p", [Plain("a", Success(Bool))], [])
    ensures Resolve(p) == Success(Tuple([Bool])) && ParamDtype(p, o).Success? && !DefaultNamed(p)
    ensures ToArrow(Tuple([Bool]), o, [None]).Success?
  {
    ResolveOne(p.components[0]);
    BoolTupleShreds(o, [None]);
    SameTypeIffDefaultNamed(p, o);
    assert ParamName(p.components[0], 0) != DefaultName(0);
  }

  /** An event with one indexed parameter, decoded on one row without data. */
  lemma {:induction false} OnlyTopicDecodes(p: Param, t: SolType, o: Options)
    requires Resolve(p) == Success(t) && ParamDtype(p, o).Success? && ToArrow(t, o, [None]).Success?
    ensures var inputs := [EventParam(p, true)];
            && EventSchema(inputs, o).Success? && EventArrays(inputs, o, [[None]], [None]).Success?
            && Select(inputs, true) == [p]
  {
    var inputs := [EventParam(p, true)];
    assert inputs[1..] == [] && Select(inputs[1..], true) == Select(inputs[1..], false) == [];
    assert Select(inputs, true) == [p] + [] == [p];
    assert Select(inputs, false) == [] + Select(inputs[1..], false) == [];
    assert EventFields(inputs[1..], true, 1, o) == EventFields(inputs[1..], false, 1, o) == Success([]);
    assert EventSchema(inputs, o).Success?;
    assert TopicRows([None]) == [None];
    ResolveOne(p);
    OneTopic(t, o, [None]);
    assert DecodedRows([None]) == [None];
    assert DecodeBody([], o, [None]).Success?;
  }

  lemma {:induction false} ResolveOne(p: Param)
    ensures ResolveAll([p]) == if Resolve(p).Failure? then Failure else Success([Resolve(p).value])
  {
    assert [p][1..] == [];
    if Resolve(p).Success? {
      assert [Resolve(p).value] + [] == [Resolve(p).value];
    }
  }

  lemma {:induction false} OneTopic(t: SolType, o: Options, col: seq<Topic>)
    requires DecodeTopic(t, o, col).Success?
    ensures DecodeTopics([t], o, [col]) == Success([DecodeTopic(t, o, col).value])
  {
    assert [t][1..] == [] && [DecodeTopic(t, o, col).value] + [] == [DecodeTopic(t, o, col).value];
  }

  lemma {:induction false} BoolTupleShreds(o: Options, vals: Rows)
    requires vals == [None]
    ensures ToArrow(Tuple([Bool]), o, vals).Success? && ToDtype(Tuple([Bool]), o).Success?
  {
    assert [Bool][1..] == [];
    var a := LeafArray(Bool, o, ColumnOf(vals, 0));
    assert ToArrow(Bool, o, ColumnOf(vals, 0)) == a && a.Success?;
    var column, field := A.ArrowColumn(DefaultName(0), a.value), A.ArrowField(DefaultName(0), A.Boolean);
    assert [column] + [] == [column] && [field] + [] == [field];
    assert ToColumns([Bool], 0, o, vals) == Success([column]);
    assert FieldDtypes([Bool], 0, o) == Success([field]);
  }

  // ---------------------------------------------------------------- what a row holds

  /** What row i of a topic column was decoded to. */
  function TopicOf(col: seq<Topic>, i: nat): Option<SolValue> {
    if i < |col| && col[i].Some? && col[i].value.Success? then Some(col[i].value.value) else None
  }

  function TopicMeanings(types: seq<SolType>, o: Options, topics: seq<seq<Topic>>, i: nat): seq<A.Cell>
  {
    seq(Min(|types|, |topics|),
        k requires 0 <= k < Min(|types|, |topics|) => Meaning(types[k], o, TopicOf(topics[k], i)))
  }

  /** A decoded log: its topics, then the parameters of its body. */
  function EventRow(inputs: seq<EventParam>, o: Options, topics: seq<seq<Topic>>, body: seq<Blob>, i: nat): seq<A.Cell>
    requires ResolveAll(Select(inputs, true)).Success? && ResolveAll(Select(inputs, false)).Success? && i < |body|
  {
    TopicMeanings(ResolveAll(Select(inputs, true)).value, o, topics, i)
    + FieldMeanings(ResolveAll(Select(inputs, false)).value, o, Decoded(body[i]))
  }

  function ArrayCells(arrays: seq<A.ArrowArray>, i: nat): seq<A.Cell>
  {
    seq(|arrays|, k requires 0 <= k < |arrays| => A.At(arrays[k], i))
  }

  lemma {:induction false} TopicCount(types: seq<SolType>, o: Options, topics: seq<seq<Topic>>)
    requires DecodeTopics(types, o, topics).Success?
    ensures |DecodeTopics(types, o, topics).value| == Min(|types|, |topics|)
    decreases |types|
  {
    if types != [] && topics != [] {
      TopicCount(types[1..], o, topics[1..]);
    }
  }

  lemma {:induction false} TopicCell(types: seq<SolType>, o: Options, topics: seq<seq<Topic>>, i: nat, k: nat)
    requires DecodeTopics(types, o, topics).Success? && k < Min(|types|, |topics|) && i < |topics[k]|
    ensures |DecodeTopics(types, o, topics).value| == Min(|types|, |topics|)
    ensures A.At(DecodeTopics(types, o, topics).value[k], i) == Meaning(types[k], o, TopicOf(topics[k], i))
    decreases |types|
  {
    TopicCount(types, o, topics);
    if k == 0 {
      ShreddingIsFaithful(types[0], o, TopicRows(topics[0]));
    } else {
      TopicCell(types[1..], o, topics[1..], i, k - 1);
    }
  }

  lemma {:induction false} TopicCells(types: seq<SolType>, o: Options, topics: seq<seq<Topic>>, rows: nat, i: nat)
    requires DecodeTopics(types, o, topics).Success? && (forall c | c in topics :: |c| == rows) && i < rows
    ensures ArrayCells(DecodeTopics(types, o, topics).value, i) == TopicMeanings(types, o, topics, i)
  {
    var n := Min(|types|, |topics|);
    TopicCount(types, o, topics);
    forall k | 0 <= k < n
      ensures A.At(DecodeTopics(types, o, topics).value[k], i) == Meaning(types[k], o, TopicOf(topics[k], i))
    {
      assert topics[k] in topics;
      TopicCell(types, o, topics, i, k);
    }
  }

  lemma {:induction false} BodyCells(params: seq<Param>, o: Options, body: seq<Blob>, i: nat)
    requires DecodeBody(params, o, body).Success? && i < |body|
    ensures ResolveAll(params).Success?
    ensures ArrayCells(DecodeBody(params, o, body).value, i)
         == FieldMeanings(ResolveAll(params).value, o, Decoded(body[i]))
  {
    var types, vals := ResolveAll(params).value, DecodedRows(body);
    if params != [] {
      CallRowsRead(params, o, vals, i);
      var columns := ToStructNamed(types, params, o, vals).value.columns;
      assert ArrayCells(A.DataOf(columns), i) == A.CellsAt(columns, i);
    }
  }

  lemma {:induction false} CellsJoin(x: seq<A.ArrowArray>, y: seq<A.ArrowArray>, i: nat)
    ensures ArrayCells(x + y, i) == ArrayCells(x, i) + ArrayCells(y, i)
  {
  }

  lemma {:induction false} EventCells(inputs: seq<EventParam>, o: Options, topics: seq<seq<Topic>>, body: seq<Blob>,
                                      stacked: seq<A.ArrowColumn>, i: nat)
    requires EventArrays(inputs, o, topics, body).Success? && (forall c | c in topics :: |c| == |body|) && i < |body|
    ensures ResolveAll(Select(inputs, true)).Success? && ResolveAll(Select(inputs, false)).Success?
    ensures ArrayCells(EventArrays(inputs, o, topics, body).value + A.DataOf(stacked), i)
         == EventRow(inputs, o, topics, body, i) + A.CellsAt(stacked, i)
  {
    var types := ResolveAll(Select(inputs, true)).value;
    TopicCells(types, o, topics, |body|, i);
    BodyCells(Select(inputs, false), o, body, i);
    var x, y := DecodeTopics(types, o, topics).value, DecodeBody(Select(inputs, false), o, body).value;
    var z := A.DataOf(stacked);
    assert ArrayCells(z, i) == A.CellsAt(stacked, i);
    CellsJoin(x, y, i);
    CellsJoin(x + y, z, i);
  }

  lemma {:induction false} BatchCells(fields: seq<A.ArrowField>, arrays: seq<A.ArrowArray>, i: nat)
    requires A.TryNewBatch(fields, arrays).Success?
    ensures A.CellsAt(A.TryNewBatch(fields, arrays).value, i) == ArrayCells(arrays, i)
  {
  }

  /** These cells are the flat form of the row under the schema. */
  ghost predicate IsFlat(render: Flatten.Renderer, schema: seq<A.ArrowField>, row: seq<A.Cell>, cells: seq<A.Cell>) {
    |row| == |schema| && cells == FlattenBatch.FlatRow(render, schema, row)
  }

  // ---------------------------------------------------------------- told from topics and data

  ghost predicate TopicHeld(t: SolType, o: Options, b: Topic, c: A.Cell) {
    match b
    case Some(Success(v)) => IsCellOf(t, o, v, c)
    case Some(Failure) => Missing(t, c)
    case None => Missing(t, c)
  }

  ghost predicate BodyHeld(types: seq<SolType>, o: Options, b: Blob, cs: seq<A.Cell>) {
    match b
    case Some(Success(vs)) => if types == [] then cs == [] else FieldsHeld(types, o, vs, cs)
    case Some(Failure) => AllMissing(types, cs)
    case None => AllMissing(types, cs)
  }

  /** The cells of log i hold what its topics and its data were decoded to, and are missing where nothing
      was decoded. */
  ghost predicate LogHeld(inputs: seq<EventParam>, o: Options, topics: seq<seq<Topic>>, body: seq<Blob>, i: nat,
                          row: seq<A.Cell>)
    requires ResolveAll(Select(inputs, true)).Success? && ResolveAll(Select(inputs, false)).Success? && i < |body|
  {
    var types := ResolveAll(Select(inputs, true)).value;
    && |types| <= |topics| && |types| <= |row|
    && (forall k | 0 <= k < |types| :: i < |topics[k]| && TopicHeld(types[k], o, topics[k][i], row[k]))
    && BodyHeld(ResolveAll(Select(inputs, false)).value, o, body[i], row[|types|..])
  }

  lemma {:induction false} EachTopicDecodes(types: seq<SolType>, o: Options, topics: seq<seq<Topic>>)
    ensures DecodeTopics(types, o, topics).Success?
       <==> forall k: nat | k < Min(|types|, |topics|) :: DecodeTopic(types[k], o, topics[k]).Success?
    decreases |types|
  {
    if types != [] && topics != [] {
      var n := Min(|types|, |topics|);
      EachTopicDecodes(types[1..], o, topics[1..]);
      if forall k: nat | k < n :: DecodeTopic(types[k], o, topics[k]).Success? {
        forall k: nat | k < n - 1 ensures DecodeTopic(types[1..][k], o, topics[1..][k]).Success? {
          assert DecodeTopic(types[k + 1], o, topics[k + 1]).Success?;
        }
      }
      if DecodeTopics(types, o, topics).Success? {
        forall k: nat | k < n ensures DecodeTopic(types[k], o, topics[k]).Success? {
          if k > 0 {
            var j: nat := k - 1;
            assert DecodeTopic(types[1..][j], o, topics[1..][j]).Success?;
          }
        }
      }
    }
  }

  lemma {:induction false} TopicCellHeld(t: SolType, o: Options, col: seq<Topic>, i: nat)
    requires DecodeTopic(t, o, col).Success? && i < |col|
    ensures TopicHeld(t, o, col[i], Meaning(t, o, TopicOf(col, i)))
  {
    MeaningHolds(t, o, TopicRows(col));
    assert TopicRows(col)[i] in TopicRows(col);
    MissingMeaning(t, o);
  }

  lemma {:induction false} BodyCellsHeld(params: seq<Param>, o: Options, body: seq<Blob>, i: nat)
    requires DecodeBody(params, o, body).Success? && i < |body|
    ensures ResolveAll(params).Success?
    ensures BodyHeld(ResolveAll(params).value, o, body[i], FieldMeanings(ResolveAll(params).value, o, Decoded(body[i])))
  {
    var types := ResolveAll(params).value;
    if types != [] {
      NamedStructSucceedsIff(types, params, o, DecodedRows(body));
      DecodedCellsHold(types, o, body, i);
    }
  }

  lemma {:induction false} LogCellsHold(inputs: seq<EventParam>, o: Options, topics: seq<seq<Topic>>, body: seq<Blob>,
                                        i: nat)
    requires EventArrays(inputs, o, topics, body).Success? && |Select(inputs, true)| <= |topics|
    requires (forall c | c in topics :: |c| == |body|) && i < |body|
    ensures ResolveAll(Select(inputs, true)).Success? && ResolveAll(Select(inputs, false)).Success?
    ensures LogHeld(inputs, o, topics, body, i, EventRow(inputs, o, topics, body, i))
  {
    var types := ResolveAll(Select(inputs, true)).value;
    BodyCellsHeld(Select(inputs, false), o, body, i);
    EachTopicDecodes(types, o, topics);
    var row := EventRow(inputs, o, topics, body, i);
    forall k: nat | k < |types| ensures |topics[k]| == |body| && TopicHeld(types[k], o, topics[k][i], row[k]) {
      assert topics[k] in topics && DecodeTopic(types[k], o, topics[k]).Success?;
      TopicCellHeld(types[k], o, topics[k], i);
    }
    assert row[|types|..] == FieldMeanings(ResolveAll(Select(inputs, false)).value, o, Decoded(body[i]));
  }

  /** What a topic column takes of a row: values it accepts, and failures when allowed. */
  predicate TopicTaken(t: SolType, o: Options, b: Topic) {
    match b
    case Some(Success(v)) => Accepts(t, o, v)
    case Some(Failure) => o.allowFail
    case None => true
  }

  predicate TopicColumnTaken(t: SolType, o: Options, col: seq<Topic>) {
    HasColumn(t) && forall b | b in col :: TopicTaken(t, o, b)
  }

  /** Every parameter has a column, and its column takes what stands in each row. */
  predicate LogsTaken(inputs: seq<EventParam>, o: Options, topics: seq<seq<Topic>>, body: seq<Blob>) {
    && ResolveAll(Select(inputs, true)).Success? && ResolveAll(Select(inputs, false)).Success?
    && (forall k: nat | k < Min(|Select(inputs, true)|, |topics|) ::
          TopicColumnTaken(ResolveAll(Select(inputs, true)).value[k], o, topics[k]))
    && AllHaveColumns(ResolveAll(Select(inputs, false)).value)
    && (forall b | b in body :: BlobTaken(ResolveAll(Select(inputs, false)).value, o, b))
  }

  /** When an event is decoded, told from its parameters, topics, data and stacked columns: the batch
      fits its schema, every topic and every row is taken, something is left to show, and its indices fit. */
  predicate EventDecodes(inputs: seq<EventParam>, o: Options, topics: seq<seq<Topic>>, body: seq<Blob>,
                         stacked: seq<A.ArrowColumn>)
  {
    && EventSchema(inputs, o).Success? && LogsTaken(inputs, o, topics, body) && FitsSchema(inputs, |topics|, stacked)
    && var schema := EventSchema(inputs, o).value + A.Fields(stacked);
       FlattenBatch.AllFit(schema, |body|) && FlattenBatch.ExpandSchema(schema) != []
  }

  lemma {:induction false} TakenTopicDecodes(t: SolType, o: Options, col: seq<Topic>)
    requires forall b | b in col :: TopicTaken(t, o, b)
    ensures TopicsDecode(col, o) && RowsAccepted(t, o, TopicRows(col))
  {
    forall b | b in col && b.Some? && b.value.Failure? ensures o.allowFail {
      assert TopicTaken(t, o, b);
    }
    forall v | v in TopicRows(col) && v.Some? ensures Accepts(t, o, v.value) {
      var i :| 0 <= i < |col| && TopicRows(col)[i] == v;
      assert col[i] in col && TopicTaken(t, o, col[i]);
    }
  }

  lemma {:induction false} DecodedTopicTaken(t: SolType, o: Options, col: seq<Topic>)
    requires TopicsDecode(col, o) && RowsAccepted(t, o, TopicRows(col))
    ensures forall b | b in col :: TopicTaken(t, o, b)
  {
    forall b | b in col ensures TopicTaken(t, o, b) {
      var i :| 0 <= i < |col| && col[i] == b;
      assert TopicRows(col)[i] in TopicRows(col);
    }
  }

  lemma {:induction false} TopicDecodesIff(t: SolType, o: Options, col: seq<Topic>)
    ensures DecodeTopic(t, o, col).Success? <==> TopicColumnTaken(t, o, col)
  {
    ConversionSucceedsIff(t, o, TopicRows(col));
    if TopicColumnTaken(t, o, col) {
      TakenTopicDecodes(t, o, col);
    }
    if DecodeTopic(t, o, col).Success? {
      DecodedTopicTaken(t, o, col);
    }
  }

  lemma {:induction false} BodyDecodesIff(params: seq<Param>, o: Options, body: seq<Blob>)
    ensures DecodeBody(params, o, body).Success?
       <==> && ResolveAll(params).Success? && AllHaveColumns(ResolveAll(params).value)
            && forall b | b in body :: BlobTaken(ResolveAll(params).value, o, b)
  {
    if ResolveAll(params).Success? {
      var types, vals := ResolveAll(params).value, DecodedRows(body);
      NamedStructSucceedsIff(types, params, o, vals);
      ConversionSucceedsIff(Tuple(types), o, vals);
      BlobsTakenIff(types, o, body);
      if ToStructNamed(types, params, o, vals).Success? {
        NamedStructAgrees(types, params, o, vals);
      }
    }
  }

  lemma {:induction false} ArraysDecodeIff(inputs: seq<EventParam>, o: Options, topics: seq<seq<Topic>>,
                                           body: seq<Blob>)
    ensures EventArrays(inputs, o, topics, body).Success? <==> LogsTaken(inputs, o, topics, body)
  {
    BodyDecodesIff(Select(inputs, false), o, body);
    if ResolveAll(Select(inputs, true)).Success? {
      var types := ResolveAll(Select(inputs, true)).value;
      EachTopicDecodes(types, o, topics);
      forall k: nat | k < Min(|types|, |topics|)
        ensures DecodeTopic(types[k], o, topics[k]).Success? <==> TopicColumnTaken(types[k], o, topics[k])
      {
        TopicDecodesIff(types[k], o, topics[k]);
      }
    }
  }

  /** When an event is decoded. */
  lemma {:induction false} EventDecodesIff(render: Flatten.Renderer, inputs: seq<EventParam>, o: Options,
                                           topics: seq<seq<Topic>>, body: seq<Blob>, stacked: seq<A.ArrowColumn>)
    requires (forall c | c in topics :: |c| == |body|) && A.Aligned(stacked, |body|)
    ensures DecodeEvents(render, inputs, o, topics, body, stacked).Success?
       <==> EventDecodes(inputs, o, topics, body, stacked)
  {
    ArraysDecodeIff(inputs, o, topics, body);
    if EventSchema(inputs, o).Success? && EventArrays(inputs, o, topics, body).Success? {
      EventBatchIff(inputs, o, topics, body, stacked);
      var schema := EventSchema(inputs, o).value + A.Fields(stacked);
      var arrays := EventArrays(inputs, o, topics, body).value + A.DataOf(stacked);
      BatchIffMatch(schema, arrays, |body|);
      if A.TryNewBatch(schema, arrays).Success? {
        FlattenBatch.FlattenedBatchHasFlattenedSchema(render, A.TryNewBatch(schema, arrays).value, |body|);
      }
    }
  }

  /** In each row the flat cells of the decoded log and of the columns stacked behind it. */
  ghost predicate HoldsLogs(render: Flatten.Renderer, inputs: seq<EventParam>, o: Options, topics: seq<seq<Topic>>,
                            body: seq<Blob>, stacked: seq<A.ArrowColumn>, out: seq<A.ArrowColumn>)
    requires EventSchema(inputs, o).Success?
    requires ResolveAll(Select(inputs, true)).Success? && ResolveAll(Select(inputs, false)).Success?
  {
    var schema := EventSchema(inputs, o).value + A.Fields(stacked);
    forall i | 0 <= i < |body| ::
      && LogHeld(inputs, o, topics, body, i, EventRow(inputs, o, topics, body, i))
      && IsFlat(render, schema, EventRow(inputs, o, topics, body, i) + A.CellsAt(stacked, i), A.CellsAt(out, i))
  }

  /** Decoded logs: the announced schema, then that of the stacked columns, and a row for every log. */
  ghost predicate ShowsEvents(render: Flatten.Renderer, inputs: seq<EventParam>, o: Options, topics: seq<seq<Topic>>,
                              body: seq<Blob>, stacked: seq<A.ArrowColumn>, out: seq<A.ArrowColumn>)
  {
    && EventSchema(inputs, o).Success?
    && ResolveAll(Select(inputs, true)).Success? && ResolveAll(Select(inputs, false)).Success?
    && A.Fields(out) == FlattenBatch.FlattenSchema(EventSchema(inputs, o).value + A.Fields(stacked))
    && EventFieldsFit(inputs, o, EventSchema(inputs, o).value)
    && A.Aligned(out, |body|) && FitsSchema(inputs, |topics|, stacked)
    && HoldsLogs(render, inputs, o, topics, body, stacked, out)
  }

  predicate SameRows(topics: seq<seq<Topic>>, body: seq<Blob>, stacked: seq<A.ArrowColumn>) {
    (forall c | c in topics :: |c| == |body|) && A.Aligned(stacked, |body|)
  }

  /** A successful event decode has exactly the announced schema, followed by that of the stacked columns,
      a row for every log, and in it the flat cells of the decoded topics and body, null where a log is
      missing or undecodable. */
  lemma {:induction false} DecodedEventHasAnnouncedSchema(render: Flatten.Renderer, inputs: seq<EventParam>, o: Options,
                                                          topics: seq<seq<Topic>>, body: seq<Blob>,
                                                          stacked: seq<A.ArrowColumn>)
    requires DecodeEvents(render, inputs, o, topics, body, stacked).Success?
    requires SameRows(topics, body, stacked)
    ensures ShowsEvents(render, inputs, o, topics, body, stacked,
                        DecodeEvents(render, inputs, o, topics, body, stacked).value)
  {
    var schema := EventSchema(inputs, o).value + A.Fields(stacked);
    var arrays := EventArrays(inputs, o, topics, body).value + A.DataOf(stacked);
    EventBatchIff(inputs, o, topics, body, stacked);
    EventSchemaFits(inputs, o);
    BatchIffMatch(schema, arrays, |body|);
    var batch := A.TryNewBatch(schema, arrays).value;
    FlattenBatch.FlattenedBatchHasFlattenedSchema(render, batch, |body|);
    BodyResolves(inputs, o, body);
    forall i | 0 <= i < |body|
      ensures LogHeld(inputs, o, topics, body, i, EventRow(inputs, o, topics, body, i))
      ensures A.CellsAt(batch, i) == EventRow(inputs, o, topics, body, i) + A.CellsAt(stacked, i)
    {
      LogCellsHold(inputs, o, topics, body, i);
      EventCells(inputs, o, topics, body, stacked, i);
      BatchCells(schema, arrays, i);
    }
  }

  lemma {:induction false} BodyResolves(inputs: seq<EventParam>, o: Options, body: seq<Blob>)
    requires DecodeBody(Select(inputs, false), o, body).Success?
    ensures ResolveAll(Select(inputs, false)).Success?
  {
  }

  lemma {:induction false} EventIsDecoded(render: Flatten.Renderer, inputs: seq<EventParam>, o: Options,
                                          topics: seq<seq<Topic>>, body: seq<Blob>, stacked: seq<A.ArrowColumn>)
    requires SameRows(topics, body, stacked)
    ensures var r := DecodeEvents(render, inputs, o, topics, body, stacked);
            && (r.Success? <==> EventDecodes(inputs, o, topics, body, stacked))
            && (r.Success? ==> ShowsEvents(render, inputs, o, topics, body, stacked, r.value))
  {
    EventDecodesIff(render, inputs, o, topics, body, stacked);
    if DecodeEvents(render, inputs, o, topics, body, stacked).Success? {
      DecodedEventHasAnnouncedSchema(render, inputs, o, topics, body, stacked);
    }
  }

  // ---------------------------------------------------------------- the loops

  method DecodeTopicColumn(t: SolType, o: Options, col: seq<Topic>) returns (r: Result<A.ArrowArray>)
    ensures r == DecodeTopic(t, o, col)
  {
    var decoded: Rows := [];
    for i := 0 to |col|
      invariant |decoded| == i && forall j | 0 <= j < i :: decoded[j] == TopicRows(col)[j]
      invariant TopicsDecode(col[..i], o)
    {
      assert col[i] in col && col[..i + 1] == col[..i] + [col[i]];
      if col[i].Some? && col[i].value.Failure? && !o.allowFail {
        return Failure;
      }
      decoded := decoded + [if col[i].Some? && col[i].value.Success? then Some(col[i].value.value) else None];
    }
    assert col[..|col|] == col && decoded == TopicRows(col);
    r := EvmShredRun.ToArrowArray(t, o, decoded);
  }

  lemma {:induction false} NextTopic(types: seq<SolType>, o: Options, topics: seq<seq<Topic>>, k: nat)
    requires k < |types| && k < |topics|
    ensures var first, others := DecodeTopic(types[k], o, topics[k]), DecodeTopics(types[k + 1..], o, topics[k + 1..]);
            DecodeTopics(types[k..], o, topics[k..])
            == if first.Failure? then Failure else A.InFront([first.value], others)
  {
    assert types[k..][0] == types[k] && types[k..][1..] == types[k + 1..];
    assert topics[k..][0] == topics[k] && topics[k..][1..] == topics[k + 1..];
  }

  method DecodeTopicColumns(types: seq<SolType>, o: Options,
                            topics: seq<seq<Topic>>) returns (r: Result<seq<A.ArrowArray>>)
    ensures r == DecodeTopics(types, o, topics)
  {
    var arrays: seq<A.ArrowArray> := [];
    var n := Min(|types|, |topics|);
    assert types[0..] == types && topics[0..] == topics;
    assert DecodeTopics(types, o, topics).Success? ==>
             [] + DecodeTopics(types, o, topics).value == DecodeTopics(types, o, topics).value;
    for k := 0 to n
      invariant DecodeTopics(types, o, topics) == A.InFront(arrays, DecodeTopics(types[k..], o, topics[k..]))
    {
      var a := DecodeTopicColumn(types[k], o, topics[k]);
      NextTopic(types, o, topics, k);
      if a.Failure? {
        return Failure;
      }
      A.OneMoreInFront(arrays, a.value, DecodeTopics(types[k + 1..], o, topics[k + 1..]));
      arrays := arrays + [a.value];
    }
    assert arrays + [] == arrays;
    return Success(arrays);
  }

  method DecodeBodyColumns(params: seq<Param>, o: Options, body: seq<Blob>) returns (r: Result<seq<A.ArrowArray>>)
    ensures r == DecodeBody(params, o, body)
  {
    var types := ResolveAll(params);
    if types.Failure? {
      return Failure;
    }
    var ok, decoded := DecodeBlobs(o, body);
    if !ok {
      return Failure;
    }
    var a := BuildStructNamed(types.value, params, o, decoded);
    return if a.Failure? || !a.value.StructArray? then Failure else Success(A.DataOf(a.value.columns));
  }

  /** Appends the input's fields and columns to those decoded. */
  method StackColumns(stacked: seq<A.ArrowColumn>, fields: seq<A.ArrowField>, arrays: seq<A.ArrowArray>)
    returns (allFields: seq<A.ArrowField>, allArrays: seq<A.ArrowArray>)
    ensures allFields == fields + A.Fields(stacked)
    ensures allArrays == arrays + A.DataOf(stacked)
  {
    allFields, allArrays := fields, arrays;
    for i := 0 to |stacked|
      invariant allFields == fields + A.Fields(stacked)[..i]
      invariant allArrays == arrays + A.DataOf(stacked)[..i]
    {
      allFields := allFields + [A.ArrowField(stacked[i].name, A.TypeOf(stacked[i].data))];
      allArrays := allArrays + [stacked[i].data];
    }
  }

  /** `decode_events` behind the filter. */
  method DecodeEventRows(render: Flatten.Renderer, inputs: seq<EventParam>, o: Options, topics: seq<seq<Topic>>,
                         body: seq<Blob>, stacked: seq<A.ArrowColumn>)
    returns (r: Result<seq<A.ArrowColumn>>)
    ensures r == DecodeEvents(render, inputs, o, topics, body, stacked)
    ensures SameRows(topics, body, stacked) ==>
              && (r.Success? <==> EventDecodes(inputs, o, topics, body, stacked))
              && (r.Success? ==> ShowsEvents(render, inputs, o, topics, body, stacked, r.value))
  {
    if SameRows(topics, body, stacked) {
      EventIsDecoded(render, inputs, o, topics, body, stacked);
    }
    var schema, types := EventSchema(inputs, o), ResolveAll(Select(inputs, true));
    if schema.Failure? || types.Failure? {
      return Failure;
    }
    var first := DecodeTopicColumns(types.value, o, topics);
    var others := DecodeBodyColumns(Select(inputs, false), o, body);
    if first.Failure? || others.Failure? {
      return Failure;
    }
    var fields, arrays := StackColumns(stacked, schema.value, first.value + others.value);
    var batch := A.TryNewBatch(fields, arrays);
    if batch.Failure? {
      return Failure;
    }
    r := FlattenBatch.FlattenColumns(render, batch.value);
  }
}
