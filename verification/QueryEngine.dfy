/** The evaluator: masks folded over filters and selections, a key cache, a hash index.
    Every method is proved against the meaning in QuerySpec.dfy. */
module QueryEngine {
  import opened Wrappers
  import opened Tables
  import opened QuerySpec
  import opened HashIndex

  type ValueHash = Value -> nat
  type KeyHash = Key -> nat

  function Validity(cells: seq<Cell>): Mask {
    seq(|cells|, i requires 0 <= i < |cells| => Some(cells[i].valid))
  }

  /** `Filter::check`, `Contains::contains` and `StartsWith::starts_with`: a mask over raw values,
      ANDed with the validity bits when the column has a null. */
  method CheckFilter(f: Filter, c: Column, hash: ValueHash) returns (r: Result<Mask>)
    ensures r.Success? <==> Applies(f, c.dtype)
    ensures r.Success? ==> |r.value| == |c.cells|
    ensures r.Success? ==> forall i :: 0 <= i < |c.cells| ==> r.value[i] == Verdict(f, c.cells[i])
  {
    if !Applies(f, c.dtype) {
      return Failure;
    }
    var mask: Mask;
    match f {
      case ContainsAny(_, values) =>
        var contains := new Contains<Value>(values, hash);
        mask := contains.RawMask(seq(|c.cells|, i requires 0 <= i < |c.cells| => c.cells[i].raw));
      case StartsWith(_, prefixes) =>
        mask := StartsWithBytes(prefixes, c.cells);
      case BoolEq(expected) =>
        mask := seq(|c.cells|, i requires 0 <= i < |c.cells| =>
          if c.cells[i].valid then Some(c.cells[i].raw == Bool(expected)) else None);
    }
    if exists cell | cell in c.cells :: !cell.valid {
      mask := And(mask, Validity(c.cells));
    } else {
      assert forall i :: 0 <= i < |c.cells| ==> c.cells[i] in c.cells;
    }
    return Success(mask);
  }

  method StartsWithBytes(prefixes: seq<Value>, cells: seq<Cell>) returns (filter: Mask)
    ensures |filter| == |cells|
    ensures forall i :: 0 <= i < |cells| ==>
              filter[i] == Some(exists p | p in prefixes :: IsPrefixOf(p, cells[i].raw))
  {
    filter := [];
    for i := 0 to |cells|
      invariant |filter| == i
      invariant forall j :: 0 <= j < i ==>
                  filter[j] == Some(exists p | p in prefixes :: IsPrefixOf(p, cells[j].raw))
    {
      var found := false;
      var k := 0;
      while k < |prefixes| && !found
        invariant 0 <= k <= |prefixes|
        invariant found <==> exists p | p in prefixes[..k] :: IsPrefixOf(p, cells[i].raw)
      {
        assert prefixes[..k + 1] == prefixes[..k] + [prefixes[k]];
        found := IsPrefixOf(prefixes[k], cells[i].raw);
        k := k + 1;
      }
      assert found || prefixes[..k] == prefixes;
      filter := filter + [Some(found)];
    }
  }

  /** The conjunction of the filters on one row: null as soon as one of them is. */
  ghost function FilterVerdict(t: Table, filters: seq<NamedFilter>, row: nat): Option<bool> {
    if Undecided(t, filters, row) then None else Some(Passes(t, filters, row))
  }

  lemma {:induction false} FilterVerdictStep(t: Table, filters: seq<NamedFilter>, f: NamedFilter, row: nat)
    ensures FilterVerdict(t, filters + [f], row) == And1(FilterVerdict(t, filters, row), RowVerdict(t, f, row))
  {
  }

  /** The filters of one selection, ANDed. */
  method FilterMask(t: Table, filters: seq<NamedFilter>, hash: ValueHash) returns (r: Result<Mask>)
    requires ValidTable(t)
    ensures r.Success? <==> forall f | f in filters :: FilterOk(t, f)
    ensures r.Success? ==> |r.value| == t.rows
    ensures r.Success? ==> forall i :: 0 <= i < t.rows ==> r.value[i] == FilterVerdict(t, filters, i)
  {
    var combined: Option<Mask> := None;
    for k := 0 to |filters|
      invariant forall f | f in filters[..k] :: FilterOk(t, f)
      invariant combined.None? ==> k == 0
      invariant combined.Some? ==> |combined.value| == t.rows
      invariant combined.Some? ==> forall i :: 0 <= i < t.rows ==>
                  combined.value[i] == FilterVerdict(t, filters[..k], i)
    {
      var column := Find(t.columns, filters[k].column);
      assert filters[..k + 1] == filters[..k] + [filters[k]];
      if column.None? {
        assert !FilterOk(t, filters[k]);
        return Failure;
      }
      FindFinds(t.columns, filters[k].column);
      var f := CheckFilter(filters[k].filter, column.value, hash);
      if f.Failure? {
        assert !FilterOk(t, filters[k]);
        return Failure;
      }
      forall i | 0 <= i < t.rows
        ensures FilterVerdict(t, filters[..k + 1], i) == And1(FilterVerdict(t, filters[..k], i), f.value[i])
      {
        FilterVerdictStep(t, filters[..k], filters[k], i);
      }
      combined := Some(if combined.Some? then And(combined.value, f.value) else f.value);
    }
    assert filters[..|filters|] == filters;
    if combined.Some? {
      return Success(combined.value);
    }
    return Success(seq(t.rows, i => Some(true)));
  }

  function KeyArray(t: Table, names: seq<FieldName>): seq<Key>
  {
    seq(t.rows, i requires 0 <= i < t.rows => KeyAt(t, names, i))
  }

  /** Two rows agree in every one of these columns; two nulls agree. */
  predicate AgreeIn(t: Table, names: seq<FieldName>, i: nat, j: nat) {
    forall n | n in names :: CellKey(CellOf(t, n, i)) == CellKey(CellOf(t, n, j))
  }

  lemma {:induction false} EqualKeysIffAgree(t: Table, names: seq<FieldName>, i: nat, j: nat)
    ensures KeyAt(t, names, i) == KeyAt(t, names, j) <==> AgreeIn(t, names, i, j)
  {
    var a, b := KeyAt(t, names, i), KeyAt(t, names, j);
    forall k | 0 <= k < |names|
      ensures a[k] == b[k] <==> CellKey(CellOf(t, names[k], i)) == CellKey(CellOf(t, names[k], j))
    {
    }
    if AgreeIn(t, names, i, j) {
      forall k | 0 <= k < |names| ensures a[k] == b[k] {
        assert names[k] in names;
      }
      assert a == b;
    }
  }

  /** The columns of these names, each of a type the row converter sorts; fails on any other name. */
  method KeyColumns(t: Table, names: seq<FieldName>) returns (r: Result<seq<Column>>)
    requires ValidTable(t)
    ensures r.Success? <==> KeyOk(t, names)
    ensures r.Success? ==> |r.value| == |names|
    ensures r.Success? ==> forall k | 0 <= k < |names| ::
              Find(t.columns, names[k]) == Some(r.value[k]) && |r.value[k].cells| == t.rows
  {
    var fields: seq<DataType> := [];
    for k := 0 to |names|
      invariant |fields| == k
      invariant forall j | 0 <= j < k ::
                  Find(t.columns, names[j]).Some? && Find(t.columns, names[j]).value.dtype == fields[j]
    {
      var f := Find(t.columns, names[k]);
      if f.None? {
        assert !KeyColumnOk(t, names[k]);
        return Failure;
      }
      fields := fields + [f.value.dtype];
    }
    if names == [] {
      return Failure;
    }
    if k :| 0 <= k < |fields| && fields[k].Opaque? && !fields[k].sortable {
      assert !KeyColumnOk(t, names[k]);
      return Failure;
    }
    var columns: seq<Column> := [];
    for k := 0 to |names|
      invariant |columns| == k
      invariant forall j | 0 <= j < k :: Find(t.columns, names[j]) == Some(columns[j]) && |columns[j].cells| == t.rows
    {
      FindFinds(t.columns, names[k]);
      columns := columns + [Find(t.columns, names[k]).value];
    }
    return Success(columns);
  }

  /** `columns_to_binary_array`: one key for each row; two keys are equal iff their rows agree in every
      key column. */
  method ColumnsToBinaryArray(t: Table, names: seq<FieldName>) returns (r: Result<seq<Key>>)
    requires ValidTable(t)
    ensures r.Success? <==> KeyOk(t, names)
    ensures r.Success? ==> |r.value| == t.rows
    ensures r.Success? ==> forall i | 0 <= i < t.rows :: r.value[i] == KeyAt(t, names, i)
    ensures r.Success? ==> forall i: nat, j: nat | i < t.rows && j < t.rows ::
              r.value[i] == r.value[j] <==> AgreeIn(t, names, i, j)
  {
    var columns := KeyColumns(t, names);
    if columns.Failure? {
      return Failure;
    }
    var keys: seq<Key> := [];
    for i := 0 to t.rows
      invariant |keys| == i
      invariant forall j | 0 <= j < i :: keys[j] == KeyAt(t, names, j)
    {
      var key := seq(|names|, k requires 0 <= k < |names| => CellKey(columns.value[k].cells[i]));
      assert key == KeyAt(t, names, i);
      keys := keys + [key];
    }
    forall i: nat, j: nat | i < t.rows && j < t.rows ensures keys[i] == keys[j] <==> AgreeIn(t, names, i, j) {
      EqualKeysIffAgree(t, names, i, j);
    }
    return Success(keys);
  }

  lemma {:induction false} KeepMembers<T>(xs: seq<T>, m: Mask, x: T)
    requires |xs| == |m|
    ensures x in Keep(xs, m) <==> exists i :: 0 <= i < |xs| && xs[i] == x && m[i] == Some(true)
  {
    if xs != [] {
      KeepMembers(xs[1..], m[1..], x);
      if i :| 0 <= i < |xs| && xs[i] == x && m[i] == Some(true) {
        assert i > 0 ==> xs[1..][i - 1] == x && m[1..][i - 1] == Some(true);
      }
    }
  }

  /** A row of the table passes the filters and has this key. */
  ghost predicate SeedKey(t: Table, filters: seq<NamedFilter>, names: seq<FieldName>, key: Key) {
    exists s: nat :: s < t.rows && Passes(t, filters, s) && KeyAt(t, names, s) == key
  }

  /** What a cached join filter must hold: the keys of the rows that pass, and no others. */
  ghost predicate HoldsSeedKeys(t: Table, filters: seq<NamedFilter>, names: seq<FieldName>, keys: seq<Key>) {
    forall key :: key in keys <==> SeedKey(t, filters, names, key)
  }

  lemma {:induction false} KeepHoldsSeedKeys(t: Table, filters: seq<NamedFilter>, names: seq<FieldName>, m: Mask)
    requires |m| == t.rows
    requires forall i :: 0 <= i < |m| ==> m[i] == FilterVerdict(t, filters, i)
    ensures HoldsSeedKeys(t, filters, names, Keep(KeyArray(t, names), m))
  {
    var all := KeyArray(t, names);
    forall key ensures key in Keep(all, m) <==> SeedKey(t, filters, names, key) {
      KeepMembers(all, m, key);
      if SeedKey(t, filters, names, key) {
        var s: nat :| s < t.rows && Passes(t, filters, s) && KeyAt(t, names, s) == key;
        assert all[s] == key && m[s] == Some(true);
      }
    }
  }

  lemma {:induction false} SeedKeysAnswerJoin(data: Data, r: Rule, inc: Include, keys: seq<Key>, row: nat)
    requires HoldsSeedKeys(TableOf(data, r.source), r.sel.filters, inc.fieldNames, keys)
    ensures KeyAt(TableOf(data, inc.target), inc.targetFieldNames, row) in keys
       <==> JoinsRow(data, r, inc, inc.target, row)
  {
    var key := KeyAt(TableOf(data, inc.target), inc.targetFieldNames, row);
    var t := TableOf(data, r.source);
    if SeedKey(t, r.sel.filters, inc.fieldNames, key) {
      var s: nat :| s < t.rows && Passes(t, r.sel.filters, s) && KeyAt(t, inc.fieldNames, s) == key;
      assert SeedAt(data, r.source, r.sel.filters, inc, s, row);
    }
    if s: nat :| SeedAt(data, r.source, r.sel.filters, inc, s, row) {
      assert SeedKey(t, r.sel.filters, inc.fieldNames, key);
    }
  }

  /** One join: the key filter from the cache, or built from the filtered source keys and cached,
      then asked about every key of the target. A cached filter holds what recomputing would give. */
  method JoinMask(data: Data, r: Rule, inc: Include, mask: Mask, cache: map<seq<FieldName>, Contains<Key>>,
                  keyHash: KeyHash)
    returns (f: Result<Mask>, newCache: map<seq<FieldName>, Contains<Key>>)
    requires ValidData(data) && r.source in data && |mask| == TableOf(data, r.source).rows
    requires forall i :: 0 <= i < |mask| ==> mask[i] == FilterVerdict(TableOf(data, r.source), r.sel.filters, i)
    requires forall names | names in cache :: cache[names].Valid()
    requires forall names | names in cache ::
               HoldsSeedKeys(TableOf(data, r.source), r.sel.filters, names, cache[names].values)
    ensures f.Success? <==> IncludeOk(data, r.source, inc)
    ensures f.Success? ==> |f.value| == TableOf(data, inc.target).rows
    ensures f.Success? ==> forall i :: 0 <= i < |f.value| ==> f.value[i] == Some(JoinsRow(data, r, inc, inc.target, i))
    ensures forall names | names in newCache :: newCache[names].Valid()
    ensures forall names | names in newCache ::
              HoldsSeedKeys(TableOf(data, r.source), r.sel.filters, names, newCache[names].values)
  {
    newCache := cache;
    if |inc.targetFieldNames| != |inc.fieldNames| || inc.target !in data {
      return Failure, cache;
    }
    var table := TableOf(data, r.source);
    var selfKeys := ColumnsToBinaryArray(table, inc.fieldNames);
    if selfKeys.Failure? {
      return Failure, cache;
    }
    assert selfKeys.value == KeyArray(table, inc.fieldNames);
    if inc.fieldNames !in cache {
      KeepHoldsSeedKeys(table, r.sel.filters, inc.fieldNames, mask);
      var seeds := new Contains<Key>(Keep(selfKeys.value, mask), keyHash);
      newCache := cache[inc.fieldNames := seeds];
    }
    var contains := newCache[inc.fieldNames];
    var targetKeys := ColumnsToBinaryArray(data[inc.target], inc.targetFieldNames);
    if targetKeys.Failure? {
      return Failure, newCache;
    }
    var joined := contains.RawMask(targetKeys.value);
    forall i | 0 <= i < |joined| ensures joined[i] == Some(JoinsRow(data, r, inc, inc.target, i)) {
      SeedKeysAnswerJoin(data, r, inc, contains.values, i);
    }
    return Success(joined), newCache;
  }

  /** ORs a mask into the entry of its table, or makes it the entry. */
  function OrInto(out: map<TableName, Mask>, t: TableName, f: Mask): map<TableName, Mask>
    requires t in out ==> |out[t]| == |f|
  {
    out[t := if t in out then Or(out[t], f) else f]
  }

  ghost function RuleVerdict(data: Data, r: Rule, t: TableName, row: nat): Option<bool> {
    if BlursRow(data, r, t, row) then None else Some(SelectsRow(data, r, t, row))
  }

  /** The masks of one rule: an entry for every table it mentions. */
  ghost predicate RuleMasks(data: Data, r: Rule, out: map<TableName, Mask>) {
    && (forall t :: t in out <==> Mentions(r, t))
    && (forall t | t in out :: |out[t]| == TableOf(data, t).rows)
    && (forall t, i | t in out && 0 <= i < |out[t]| :: out[t][i] == RuleVerdict(data, r, t, i))
  }

  /** The rule with one more join. */
  function WithJoin(r: Rule, inc: Include): Rule {
    Rule(r.source, TableSelection(r.sel.filters, r.sel.includes + [inc]))
  }

  lemma {:induction false} VerdictWithJoin(data: Data, r: Rule, inc: Include, t: TableName, row: nat)
    ensures RuleVerdict(data, WithJoin(r, inc), t, row)
         == Or1(RuleVerdict(data, r, t, row), Some(JoinsRow(data, r, inc, t, row)))
    ensures Mentions(WithJoin(r, inc), t) <==> Mentions(r, t) || inc.target == t
    ensures !Mentions(r, t) ==> RuleVerdict(data, r, t, row) == Some(false)
  {
    var more := WithJoin(r, inc);
    forall i ensures JoinsRow(data, more, i, t, row) <==> JoinsRow(data, r, i, t, row) {
    }
    assert forall i :: i in more.sel.includes <==> i in r.sel.includes || i == inc;
  }

  lemma {:induction false} OrIntoStep(data: Data, r: Rule, inc: Include, out: map<TableName, Mask>, f: Mask)
    requires RuleMasks(data, r, out) && |f| == TableOf(data, inc.target).rows
    requires forall i :: 0 <= i < |f| ==> f[i] == Some(JoinsRow(data, r, inc, inc.target, i))
    ensures RuleMasks(data, WithJoin(r, inc), OrInto(out, inc.target, f))
  {
    var next := OrInto(out, inc.target, f);
    forall t ensures t in next <==> Mentions(WithJoin(r, inc), t) {
      VerdictWithJoin(data, r, inc, t, 0);
    }
    forall t, i | t in next && 0 <= i < |next[t]| ensures next[t][i] == RuleVerdict(data, WithJoin(r, inc), t, i) {
      VerdictWithJoin(data, r, inc, t, i);
    }
  }

  /** `run_table_selection`: the source table's own mask, then one mask per join, ORed per target. */
  method RunTableSelection(data: Data, r: Rule, hash: ValueHash, keyHash: KeyHash)
    returns (masks: Result<map<TableName, Mask>>)
    requires ValidData(data)
    ensures masks.Success? <==> RuleOk(data, r)
    ensures masks.Success? ==> RuleMasks(data, r, masks.value)
  {
    if r.source !in data {
      return Failure;
    }
    var mask := FilterMask(data[r.source], r.sel.filters, hash);
    if mask.Failure? {
      return Failure;
    }
    var out: map<TableName, Mask> := map[r.source := mask.value];
    var cache: map<seq<FieldName>, Contains<Key>> := map[];
    var done := r.(sel := r.sel.(includes := []));
    assert RuleMasks(data, done, out);
    for n := 0 to |r.sel.includes|
      invariant done == r.(sel := r.sel.(includes := r.sel.includes[..n]))
      invariant forall inc | inc in done.sel.includes :: IncludeOk(data, r.source, inc)
      invariant RuleMasks(data, done, out)
      invariant forall names | names in cache :: cache[names].Valid()
      invariant forall names | names in cache ::
                  HoldsSeedKeys(TableOf(data, r.source), r.sel.filters, names, cache[names].values)
    {
      var inc := r.sel.includes[n];
      var f, newCache := JoinMask(data, done, inc, mask.value, cache, keyHash);
      cache := newCache;
      if f.Failure? {
        assert inc in r.sel.includes;
        return Failure;
      }
      OrIntoStep(data, done, inc, out, f.value);
      out := OrInto(out, inc.target, f.value);
      done := WithJoin(done, inc);
      assert r.sel.includes[..n + 1] == r.sel.includes[..n] + [inc];
    }
    assert done == r;
    return Success(out);
  }

  /** `select_fields` */
  method SelectFields(data: Data, fields: map<TableName, seq<FieldName>>) returns (r: Result<Data>)
    ensures r.Success? <==> fields.Keys <= data.Keys
    ensures r.Success? ==> r.value.Keys == fields.Keys
    ensures r.Success? ==> forall t | t in fields :: r.value[t] == Project(TableOf(data, t), fields[t])
  {
    var out: Data := map[];
    var rest := fields.Keys;
    while rest != {}
      invariant rest <= fields.Keys && fields.Keys - rest <= data.Keys
      invariant out.Keys == fields.Keys - rest
      invariant forall t | t in out :: out[t] == Project(TableOf(data, t), fields[t])
      decreases rest
    {
      var t :| t in rest;
      if t !in data {
        return Failure;
      }
      out := out[t := Project(data[t], fields[t])];
      rest := rest - {t};
    }
    return Success(out);
  }

  /** The masks of every selection, nested as the query nests them. */
  ghost predicate AllMasks(data: Data, q: Query, filters: seq<seq<map<TableName, Mask>>>) {
    && |filters| == |q.selection|
    && (forall a :: 0 <= a < |filters| ==> |filters[a]| == |q.selection[a].selections|)
    && (forall a, k | 0 <= a < |filters| && 0 <= k < |filters[a]| ::
          RuleMasks(data, Rule(q.selection[a].table, q.selection[a].selections[k]), filters[a][k]))
  }

  /** The first pass of `run_query`. The parallel maps are taken in order. */
  method RunSelections(data: Data, q: Query, hash: ValueHash, keyHash: KeyHash)
    returns (r: Result<seq<seq<map<TableName, Mask>>>>)
    requires ValidData(data)
    ensures r.Success? <==> RulesOk(data, Rules(q))
    ensures r.Success? ==> AllMasks(data, q, r.value)
  {
    var filters: seq<seq<map<TableName, Mask>>> := [];
    for a := 0 to |q.selection|
      invariant |filters| == a
      invariant forall b :: 0 <= b < a ==> |filters[b]| == |q.selection[b].selections|
      invariant forall b, k | 0 <= b < a && 0 <= k < |filters[b]| ::
                  RuleOk(data, Rule(q.selection[b].table, q.selection[b].selections[k]))
      invariant forall b, k | 0 <= b < a && 0 <= k < |filters[b]| ::
                  RuleMasks(data, Rule(q.selection[b].table, q.selection[b].selections[k]), filters[b][k])
    {
      var table, selections := q.selection[a].table, q.selection[a].selections;
      var masks: seq<map<TableName, Mask>> := [];
      for k := 0 to |selections|
        invariant |masks| == k
        invariant forall j | 0 <= j < k :: RuleOk(data, Rule(table, selections[j]))
        invariant forall j | 0 <= j < k :: RuleMasks(data, Rule(table, selections[j]), masks[j])
      {
        var m := RunTableSelection(data, Rule(table, selections[k]), hash, keyHash);
        if m.Failure? {
          assert Rule(q.selection[a].table, q.selection[a].selections[k]) in Rules(q);
          return Failure;
        }
        masks := masks + [m.value];
      }
      filters := filters + [masks];
    }
    return Success(filters);
  }

  /** The accumulator of the mask fold once these rules have been seen. */
  ghost predicate Combined(data: Data, seen: set<Rule>, t: TableName, combined: Option<Mask>) {
    combined == if Touched(seen, t) then Some(TableMask(data, seen, t)) else None
  }

  lemma {:induction false} RowMaskStep(data: Data, seen: set<Rule>, r: Rule, t: TableName, row: nat)
    ensures RowMask(data, seen + {r}, t, row) == Or1(RowMask(data, seen, t, row), RuleVerdict(data, r, t, row))
    ensures !Mentions(r, t) ==> RuleVerdict(data, r, t, row) == Some(false)
    ensures !Touched(seen, t) ==> RowMask(data, seen, t, row) == Some(false)
  {
  }

  lemma {:induction false} UnmentionedStep(data: Data, seen: set<Rule>, r: Rule, t: TableName)
    requires !Mentions(r, t)
    ensures Touched(seen + {r}, t) <==> Touched(seen, t)
    ensures TableMask(data, seen + {r}, t) == TableMask(data, seen, t)
  {
    forall i: nat ensures RowMask(data, seen + {r}, t, i) == RowMask(data, seen, t, i) {
      RowMaskStep(data, seen, r, t, i);
    }
  }

  lemma {:induction false} MentionedStep(data: Data, seen: set<Rule>, r: Rule, t: TableName, m: Mask)
    requires Mentions(r, t) && |m| == TableOf(data, t).rows
    requires forall i :: 0 <= i < |m| ==> m[i] == RuleVerdict(data, r, t, i)
    ensures Touched(seen + {r}, t)
    ensures TableMask(data, seen + {r}, t) == if Touched(seen, t) then Or(TableMask(data, seen, t), m) else m
  {
    forall i: nat | i < |m|
      ensures RowMask(data, seen + {r}, t, i) == Or1(RowMask(data, seen, t, i), m[i])
      ensures !Touched(seen, t) ==> RowMask(data, seen, t, i) == Some(false)
    {
      RowMaskStep(data, seen, r, t, i);
    }
  }

  /** The mask fold of `run_query` for one table; no mask at all means the table is left out. */
  method CombineMasks(data: Data, q: Query, filters: seq<seq<map<TableName, Mask>>>, t: TableName)
    returns (combined: Option<Mask>)
    requires AllMasks(data, q, filters)
    ensures combined.Some? <==> Touched(Rules(q), t)
    ensures combined.Some? ==> combined.value == TableMask(data, Rules(q), t)
  {
    combined := None;
    ghost var seen: set<Rule> := {};
    for a := 0 to |filters|
      invariant seen == Rules(Query(q.selection[..a], q.fields))
      invariant Combined(data, seen, t, combined)
    {
      ghost var before := seen;
      for k := 0 to |filters[a]|
        invariant seen
             == before + Rules(Query([TableRules(q.selection[a].table, q.selection[a].selections[..k])], q.fields))
        invariant Combined(data, seen, t, combined)
      {
        ghost var r := Rule(q.selection[a].table, q.selection[a].selections[k]);
        if t in filters[a][k] {
          MentionedStep(data, seen, r, t, filters[a][k][t]);
          combined := Some(if combined.Some? then Or(combined.value, filters[a][k][t]) else filters[a][k][t]);
        } else {
          UnmentionedStep(data, seen, r, t);
        }
        seen := seen + {r};
        RulesOfPrefix(q.selection[a].table, q.selection[a].selections, k, q.fields);
      }
      RulesOfNextTable(q, a);
    }
    assert q.selection[..|filters|] == q.selection;
    assert Query(q.selection[..|filters|], q.fields) == q;
  }

  /** The second pass of `run_query`, over the projected tables in any order. */
  method FilterTables(data: Data, q: Query, filters: seq<seq<map<TableName, Mask>>>, projected: Data)
    returns (out: Data)
    requires AllMasks(data, q, filters) && projected.Keys == q.fields.Keys
    requires forall t | t in projected :: projected[t] == Project(TableOf(data, t), q.fields[t])
    ensures IsOutcome(data, q, out)
  {
    out := map[];
    var rest := projected.Keys;
    while rest != {}
      invariant rest <= projected.Keys
      invariant forall t :: t in out <==> t in q.fields && t !in rest && Touched(Rules(q), t)
      invariant forall t | t in out :: out[t] == TableOutcome(data, q, t)
      decreases rest
    {
      var t :| t in rest;
      var combined := CombineMasks(data, q, filters, t);
      rest := rest - {t};
      if combined.Some? {
        var table := FilterTable(projected[t], combined.value);
        assert table == TableOutcome(data, q, t);
        out := out[t := table];
      }
    }
  }

  /** `run_query`, for any hash functions and any order in which the tables are visited. */
  method RunQuery(data: Data, q: Query, hash: ValueHash, keyHash: KeyHash) returns (r: Result<Data>)
    requires ValidData(data)
    ensures r == Outcome(data, q)
  {
    var filters := RunSelections(data, q, hash, keyHash);
    if filters.Failure? {
      return Failure;
    }
    var selected := SelectFields(data, q.fields);
    if selected.Failure? {
      return Failure;
    }
    var out := FilterTables(data, q, filters.value, selected.value);
    OutcomeIsUnique(data, q, out);
    return Success(out);
  }
}
