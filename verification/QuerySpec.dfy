/** What a query means: which rows of which table it selects. Nothing here mentions masks being
    folded, caches or indices; QueryEngine.dfy proves the evaluator against these definitions. */
module QuerySpec {
  import opened Wrappers
  import opened Tables

  datatype Filter =
    | ContainsAny(dtype: DataType, values: seq<Value>)
    | StartsWith(dtype: DataType, prefixes: seq<Value>)
    | BoolEq(expected: bool)

  datatype NamedFilter = NamedFilter(column: FieldName, filter: Filter)

  datatype Include = Include(target: TableName, fieldNames: seq<FieldName>, targetFieldNames: seq<FieldName>)

  datatype TableSelection = TableSelection(filters: seq<NamedFilter>, includes: seq<Include>)

  datatype TableRules = TableRules(table: TableName, selections: seq<TableSelection>)

  /** The selection map is only ever iterated, so it is its entry list. */
  datatype Query = Query(selection: seq<TableRules>, fields: map<TableName, seq<FieldName>>)

  /** `RowConverter` encodes equal tuples, and only those, to equal bytes; null equals null. */
  type Key = seq<Option<Value>>

  predicate IsPrefixOf(p: Value, v: Value) {
    p.Bytes? && v.Bytes? && p.b <= v.b
  }

  /** One slot under one filter. A null slot fails a membership or prefix filter; under a boolean
      filter it is null, because the program ANDs a nullable mask with the validity bits. */
  function Verdict(f: Filter, c: Cell): Option<bool> {
    match f
    case ContainsAny(_, values) => Some(c.valid && c.raw in values)
    case StartsWith(_, prefixes) => Some(c.valid && exists p | p in prefixes :: IsPrefixOf(p, c.raw))
    case BoolEq(expected) => if c.valid then Some(c.raw == Bool(expected)) else None
  }

  /** The column types each filter accepts. */
  predicate Applies(f: Filter, dtype: DataType) {
    match f
    case ContainsAny(dt, _) => dtype == dt && (dtype.Integer? || dtype.Binary? || dtype.Utf8?)
    case StartsWith(dt, _) => dtype == dt && (dtype.Binary? || dtype.Utf8?)
    case BoolEq(_) => dtype.Boolean?
  }

  predicate FilterOk(t: Table, f: NamedFilter) {
    var c := Find(t.columns, f.column);
    c.Some? && Applies(f.filter, c.value.dtype)
  }

  function RowVerdict(t: Table, f: NamedFilter, row: nat): Option<bool> {
    Verdict(f.filter, CellOf(t, f.column, row))
  }

  /** The row satisfies every filter. */
  ghost predicate Passes(t: Table, filters: seq<NamedFilter>, row: nat) {
    forall f | f in filters :: RowVerdict(t, f, row) == Some(true)
  }

  /** Some filter has no answer on this row. */
  ghost predicate Undecided(t: Table, filters: seq<NamedFilter>, row: nat) {
    exists f | f in filters :: RowVerdict(t, f, row) == None
  }

  function CellKey(c: Cell): Option<Value> {
    if c.valid then Some(c.raw) else None
  }

  function KeyAt(t: Table, names: seq<FieldName>, row: nat): Key
  {
    seq(|names|, k requires 0 <= k < |names| => CellKey(CellOf(t, names[k], row)))
  }

  predicate KeyColumnOk(t: Table, name: FieldName) {
    var c := Find(t.columns, name);
    c.Some? && (c.value.dtype.Opaque? ==> c.value.dtype.sortable)
  }

  predicate KeyOk(t: Table, names: seq<FieldName>) {
    names != [] && forall n | n in names :: KeyColumnOk(t, n)
  }

  /** One selection together with the table it is on. */
  datatype Rule = Rule(source: TableName, sel: TableSelection)

  function Rules(q: Query): set<Rule> {
    set a, k | 0 <= a < |q.selection| && 0 <= k < |q.selection[a].selections| ::
      Rule(q.selection[a].table, q.selection[a].selections[k])
  }

  predicate IncludeOk(data: Data, source: TableName, inc: Include) {
    && |inc.fieldNames| == |inc.targetFieldNames|
    && inc.target in data
    && KeyOk(TableOf(data, source), inc.fieldNames)
    && KeyOk(TableOf(data, inc.target), inc.targetFieldNames)
  }

  predicate RuleOk(data: Data, r: Rule) {
    && r.source in data
    && (forall f | f in r.sel.filters :: FilterOk(TableOf(data, r.source), f))
    && (forall inc | inc in r.sel.includes :: IncludeOk(data, r.source, inc))
  }

  predicate RulesOk(data: Data, rules: set<Rule>) {
    forall r | r in rules :: RuleOk(data, r)
  }

  /** Row s of the source table passes the filters and has the key of this target row. */
  ghost predicate SeedAt(data: Data, source: TableName, filters: seq<NamedFilter>, inc: Include, s: nat, row: nat) {
    && s < TableOf(data, source).rows
    && Passes(TableOf(data, source), filters, s)
    && KeyAt(TableOf(data, source), inc.fieldNames, s) == KeyAt(TableOf(data, inc.target), inc.targetFieldNames, row)
  }

  ghost predicate HasSeed(data: Data, source: TableName, filters: seq<NamedFilter>, inc: Include, row: nat) {
    exists s: nat :: SeedAt(data, source, filters, inc, s, row)
  }

  /** A join of the rule brings in this row of t. */
  ghost predicate JoinsRow(data: Data, r: Rule, inc: Include, t: TableName, row: nat) {
    inc.target == t && HasSeed(data, r.source, r.sel.filters, inc, row)
  }

  /** The rule selects this row of table t: directly, or through one of its joins. */
  ghost predicate SelectsRow(data: Data, r: Rule, t: TableName, row: nat) {
    || (r.source == t && Passes(TableOf(data, r.source), r.sel.filters, row))
    || exists inc | inc in r.sel.includes :: JoinsRow(data, r, inc, t, row)
  }

  /** The row is selected by some rule. Joins are one hop: seeds come from the filters alone, never
      from rows another join brought in. */
  ghost predicate Selected(data: Data, rules: set<Rule>, t: TableName, row: nat) {
    exists r | r in rules :: SelectsRow(data, r, t, row)
  }

  /** A rule on t itself has a filter without an answer on this row. */
  ghost predicate BlursRow(data: Data, r: Rule, t: TableName, row: nat) {
    r.source == t && Undecided(TableOf(data, r.source), r.sel.filters, row)
  }

  ghost predicate Blurred(data: Data, rules: set<Rule>, t: TableName, row: nat) {
    exists r | r in rules :: BlursRow(data, r, t, row)
  }

  predicate Mentions(r: Rule, t: TableName) {
    r.source == t || exists inc | inc in r.sel.includes :: inc.target == t
  }

  /** Only tables that some rule names, as a source or a join target, reach the output. */
  predicate Touched(rules: set<Rule>, t: TableName) {
    exists r | r in rules :: Mentions(r, t)
  }

  ghost function RowMask(data: Data, rules: set<Rule>, t: TableName, row: nat): Option<bool> {
    if Blurred(data, rules, t, row) then None else Some(Selected(data, rules, t, row))
  }

  ghost function TableMask(data: Data, rules: set<Rule>, t: TableName): Mask
  {
    seq(TableOf(data, t).rows, row requires 0 <= row => RowMask(data, rules, t, row))
  }

  /** The surviving rows of table t, in order, with its requested columns. */
  ghost function TableOutcome(data: Data, q: Query, t: TableName): Table {
    FilterTable(Project(TableOf(data, t), if t in q.fields then q.fields[t] else []), TableMask(data, Rules(q), t))
  }

  ghost predicate Answers(data: Data, q: Query) {
    RulesOk(data, Rules(q)) && q.fields.Keys <= data.Keys
  }

  ghost function Outcome(data: Data, q: Query): Result<Data> {
    if !Answers(data, q) then Failure
    else Success(map t | t in q.fields && Touched(Rules(q), t) :: TableOutcome(data, q, t))
  }

  ghost predicate IsOutcome(data: Data, q: Query, out: Data) {
    && (forall t :: t in out <==> t in q.fields && Touched(Rules(q), t))
    && forall t | t in out :: out[t] == TableOutcome(data, q, t)
  }

  lemma {:induction false} OutcomeIsUnique(data: Data, q: Query, out: Data)
    requires Answers(data, q) && IsOutcome(data, q, out)
    ensures Outcome(data, q) == Success(out)
  {
    var o := Outcome(data, q).value;
    assert o.Keys == out.Keys;
    assert forall t | t in o :: o[t] == out[t];
    assert o == out;
  }

  // Growing the rule set one selection, then one table, at a time.

  lemma {:induction false} RulesOfPrefix(t: TableName, sels: seq<TableSelection>, k: nat,
                                         fields: map<TableName, seq<FieldName>>)
    requires k < |sels|
    ensures Rules(Query([TableRules(t, sels[..k + 1])], fields))
         == Rules(Query([TableRules(t, sels[..k])], fields)) + {Rule(t, sels[k])}
  {
    var now, next := Query([TableRules(t, sels[..k])], fields), Query([TableRules(t, sels[..k + 1])], fields);
    forall r | r in Rules(now) + {Rule(t, sels[k])} ensures r in Rules(next) {
      var j :| 0 <= j <= k && r == Rule(t, sels[j]);
      assert r == Rule(next.selection[0].table, next.selection[0].selections[j]);
    }
    forall r | r in Rules(next) ensures r in Rules(now) + {Rule(t, sels[k])} {
      var j :| 0 <= j <= k && r == Rule(t, next.selection[0].selections[j]);
      if j < k {
        assert r == Rule(now.selection[0].table, now.selection[0].selections[j]);
      }
    }
  }

  lemma {:induction false} RulesOfNextTable(q: Query, a: nat)
    requires a < |q.selection|
    ensures var all := q.selection[a].selections;
            (Rules(Query(q.selection[..a + 1], q.fields))
             == Rules(Query(q.selection[..a], q.fields))
                + Rules(Query([TableRules(q.selection[a].table, all[..|all|])], q.fields)))
  {
    var all := q.selection[a].selections;
    var now, next := Query(q.selection[..a], q.fields), Query(q.selection[..a + 1], q.fields);
    var own := Query([TableRules(q.selection[a].table, all[..|all|])], q.fields);
    forall r | r in Rules(now) ensures r in Rules(next) {
      var b, j :| 0 <= b < a && 0 <= j < |now.selection[b].selections|
                  && r == Rule(now.selection[b].table, now.selection[b].selections[j]);
      assert next.selection[b] == now.selection[b];
    }
    forall r | r in Rules(own) ensures r in Rules(next) {
      var j :| 0 <= j < |all| && r == Rule(q.selection[a].table, all[j]);
      assert r == Rule(next.selection[a].table, next.selection[a].selections[j]);
    }
    forall r | r in Rules(next) ensures r in Rules(now) + Rules(own) {
      var b, j :| 0 <= b <= a && 0 <= j < |next.selection[b].selections|
                  && r == Rule(next.selection[b].table, next.selection[b].selections[j]);
      if b < a {
        assert r == Rule(now.selection[b].table, now.selection[b].selections[j]);
      } else {
        assert r == Rule(own.selection[0].table, own.selection[0].selections[j]);
      }
    }
  }
}
