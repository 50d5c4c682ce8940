/** Fetching only the columns a query reads: the request-field closure, and why running the query on
    the pruned data gives the same answer. */
module Pruning {
  import opened Tables
  import opened QuerySpec

  type Fields = map<TableName, seq<FieldName>>

  predicate FilterReads(source: TableName, f: NamedFilter, t: TableName, col: FieldName) {
    source == t && f.column == col
  }

  predicate IncludeReads(source: TableName, inc: Include, t: TableName, col: FieldName) {
    || (inc.target == t && col in inc.targetFieldNames)
    || (source == t && col in inc.fieldNames)
  }

  predicate FiltersRead(source: TableName, filters: seq<NamedFilter>, t: TableName, col: FieldName) {
    exists f | f in filters :: FilterReads(source, f, t, col)
  }

  predicate IncludesRead(source: TableName, includes: seq<Include>, t: TableName, col: FieldName) {
    exists inc | inc in includes :: IncludeReads(source, inc, t, col)
  }

  lemma {:induction false} FiltersReadStep(source: TableName, filters: seq<NamedFilter>, k: nat)
    requires k < |filters|
    ensures forall t, col :: FiltersRead(source, filters[..k + 1], t, col)
                        <==> FiltersRead(source, filters[..k], t, col) || FilterReads(source, filters[k], t, col)
  {
    var next := filters[..k] + [filters[k]];
    assert filters[..k + 1] == next;
    assert forall f :: f in next <==> f in filters[..k] || f == filters[k];
  }

  lemma {:induction false} IncludesReadStep(source: TableName, includes: seq<Include>, k: nat)
    requires k < |includes|
    ensures forall t, col :: IncludesRead(source, includes[..k + 1], t, col)
                        <==> IncludesRead(source, includes[..k], t, col) || IncludeReads(source, includes[k], t, col)
  {
    var next := includes[..k] + [includes[k]];
    assert includes[..k + 1] == next;
    assert forall inc :: inc in next <==> inc in includes[..k] || inc == includes[k];
  }

  /** Evaluating the rule looks at this column. */
  predicate Reads(r: Rule, t: TableName, col: FieldName) {
    FiltersRead(r.source, r.sel.filters, t, col) || IncludesRead(r.source, r.sel.includes, t, col)
  }

  predicate AnyReads(rules: set<Rule>, t: TableName, col: FieldName) {
    exists r | r in rules :: Reads(r, t, col)
  }

  /** The closure needs a column list for this table. */
  predicate Asks(r: Rule, t: TableName) {
    || (r.source == t && (r.sel.filters != [] || r.sel.includes != []))
    || exists inc | inc in r.sel.includes :: inc.target == t
  }

  predicate AnyAsks(rules: set<Rule>, t: TableName) {
    exists r | r in rules :: Asks(r, t)
  }

  /** `after` lists what `before` lists, in the same place, plus exactly the columns in `extra`. */
  ghost predicate Grown(before: Fields, after: Fields, extra: (TableName, FieldName) -> bool) {
    && after.Keys == before.Keys
    && (forall t | t in before :: before[t] <= after[t])
    && (forall t, col | t in before :: col in after[t] <==> col in before[t] || extra(t, col))
  }

  lemma {:induction false} GrownTwice(a: Fields, b: Fields, c: Fields, first: (TableName, FieldName) -> bool,
                   second: (TableName, FieldName) -> bool, both: (TableName, FieldName) -> bool)
    requires Grown(a, b, first) && Grown(b, c, second)
    requires forall t, col :: both(t, col) <==> first(t, col) || second(t, col)
    ensures Grown(a, c, both)
  {
  }

  /** The query object whose field lists the request closure updates in place. */
  class RequestQuery {
    const selection: seq<TableRules>
    var fields: Fields

    constructor (q: Query)
      ensures selection == q.selection && fields == q.fields
    {
      selection := q.selection;
      fields := q.fields;
    }

    /** `get_mut(table)` and `extend_from_slice`. */
    method Extend(t: TableName, cols: seq<FieldName>) returns (ok: bool)
      modifies this
      ensures ok <==> t in old(fields)
      ensures fields == if ok then old(fields)[t := old(fields)[t] + cols] else old(fields)
      ensures ok ==> Grown(old(fields), fields, (u, col) => u == t && col in cols)
    {
      ok := t in fields;
      if ok {
        fields := fields[t := fields[t] + cols];
      }
    }

    method AddFilterField(source: TableName, f: NamedFilter) returns (ok: bool)
      modifies this
      ensures ok <==> source in old(fields)
      ensures ok ==> Grown(old(fields), fields, (t, col) => FilterReads(source, f, t, col))
    {
      ok := Extend(source, [f.column]);
    }

    method AddIncludeFields(source: TableName, inc: Include) returns (ok: bool)
      modifies this
      ensures ok <==> inc.target in old(fields) && source in old(fields)
      ensures ok ==> Grown(old(fields), fields, (t, col) => IncludeReads(source, inc, t, col))
    {
      ghost var before := fields;
      ok := Extend(inc.target, inc.targetFieldNames);
      if ok {
        ghost var mid := fields;
        ok := Extend(source, inc.fieldNames);
        if ok {
          GrownTwice(before, mid, fields, (t, col) => t == inc.target && col in inc.targetFieldNames,
                     (t, col) => t == source && col in inc.fieldNames,
                     (t, col) => IncludeReads(source, inc, t, col));
        }
      }
    }

    method AddFilterFields(source: TableName, filters: seq<NamedFilter>) returns (ok: bool)
      modifies this
      ensures ok <==> (filters != [] ==> source in old(fields))
      ensures ok ==> Grown(old(fields), fields, (t, col) => FiltersRead(source, filters, t, col))
    {
      ghost var before := fields;
      for k := 0 to |filters|
        invariant k > 0 ==> source in before
        invariant Grown(before, fields, (t, col) => FiltersRead(source, filters[..k], t, col))
      {
        ghost var mid := fields;
        ok := AddFilterField(source, filters[k]);
        if !ok {
          return;
        }
        FiltersReadStep(source, filters, k);
        GrownTwice(before, mid, fields, (t, col) => FiltersRead(source, filters[..k], t, col),
                   (t, col) => FilterReads(source, filters[k], t, col),
                   (t, col) => FiltersRead(source, filters[..k + 1], t, col));
      }
      assert filters[..|filters|] == filters;
      return true;
    }

    method AddIncludesFields(source: TableName, includes: seq<Include>) returns (ok: bool)
      modifies this
      ensures ok <==> forall inc | inc in includes :: inc.target in old(fields) && source in old(fields)
      ensures ok ==> Grown(old(fields), fields, (t, col) => IncludesRead(source, includes, t, col))
    {
      ghost var before := fields;
      for k := 0 to |includes|
        invariant forall inc | inc in includes[..k] :: inc.target in before && source in before
        invariant Grown(before, fields, (t, col) => IncludesRead(source, includes[..k], t, col))
      {
        ghost var mid := fields;
        ok := AddIncludeFields(source, includes[k]);
        if !ok {
          assert includes[k] in includes;
          return;
        }
        IncludesReadStep(source, includes, k);
        GrownTwice(before, mid, fields, (t, col) => IncludesRead(source, includes[..k], t, col),
                   (t, col) => IncludeReads(source, includes[k], t, col),
                   (t, col) => IncludesRead(source, includes[..k + 1], t, col));
      }
      assert includes[..|includes|] == includes;
      return true;
    }

    method AddSelectionFields(r: Rule) returns (ok: bool)
      modifies this
      ensures ok <==> forall t | Asks(r, t) :: t in old(fields)
      ensures ok ==> Grown(old(fields), fields, (t, col) => Reads(r, t, col))
    {
      ghost var before := fields;
      ok := AddFilterFields(r.source, r.sel.filters);
      if !ok {
        assert Asks(r, r.source);
        return;
      }
      ghost var mid := fields;
      ok := AddIncludesFields(r.source, r.sel.includes);
      if ok {
        GrownTwice(before, mid, fields, (t, col) => FiltersRead(r.source, r.sel.filters, t, col),
                   (t, col) => IncludesRead(r.source, r.sel.includes, t, col), (t, col) => Reads(r, t, col));
        assert r.sel.includes != [] ==> r.sel.includes[0] in r.sel.includes;
      } else {
        ghost var inc :| inc in r.sel.includes && !(inc.target in before && r.source in before);
        assert Asks(r, r.source) && Asks(r, inc.target);
      }
    }

    /** `add_request_and_include_fields`: succeeds when every table a rule asks about has a column
        list, and then the lists have grown by exactly the columns evaluation reads. */
    method AddRequestAndIncludeFields() returns (ok: bool)
      modifies this
      ensures ok <==> forall t | AnyAsks(Rules(Query(selection, map[])), t) :: t in old(fields)
      ensures ok ==> Grown(old(fields), fields, (t, col) => AnyReads(Rules(Query(selection, map[])), t, col))
    {
      ghost var before := fields;
      ghost var seen: set<Rule> := {};
      ghost var q := Query(selection, map[]);
      for a := 0 to |selection|
        invariant seen == Rules(Query(selection[..a], map[]))
        invariant forall t | AnyAsks(seen, t) :: t in before
        invariant Grown(before, fields, (t, col) => AnyReads(seen, t, col))
      {
        var table, sels := selection[a].table, selection[a].selections;
        ghost var earlier := seen;
        for k := 0 to |sels|
          invariant seen == earlier + Rules(Query([TableRules(table, sels[..k])], map[]))
          invariant forall t | AnyAsks(seen, t) :: t in before
          invariant Grown(before, fields, (t, col) => AnyReads(seen, t, col))
        {
          var r := Rule(table, sels[k]);
          ghost var prev, mid := seen, fields;
          ok := AddSelectionFields(r);
          if !ok {
            assert Rule(selection[a].table, selection[a].selections[k]) in Rules(q);
            return;
          }
          RulesOfPrefix(table, sels, k, map[]);
          seen := prev + {r};
          GrownTwice(before, mid, fields, (t, col) => AnyReads(prev, t, col), (t, col) => Reads(r, t, col),
                     (t, col) => AnyReads(seen, t, col));
        }
        RulesOfNextTable(q, a);
      }
      assert selection[..|selection|] == selection;
      return true;
    }
  }

  lemma {:induction false} FindPicked(columns: seq<Column>, names: seq<FieldName>, name: FieldName)
    requires name in names
    ensures Find(PickColumns(columns, names), name) == Find(columns, name)
  {
    if columns != [] {
      FindPicked(columns[1..], names, name);
      if columns[0].name in names {
        assert PickColumns(columns, names)[1..] == PickColumns(columns[1..], names);
      }
    }
  }

  lemma {:induction false} PickTwice(columns: seq<Column>, wide: seq<FieldName>, narrow: seq<FieldName>)
    requires forall n | n in narrow :: n in wide
    ensures PickColumns(PickColumns(columns, wide), narrow) == PickColumns(columns, narrow)
  {
    if columns != [] {
      PickTwice(columns[1..], wide, narrow);
      if columns[0].name in wide {
        assert PickColumns(columns, wide)[1..] == PickColumns(columns[1..], wide);
      }
    }
  }

  /** A column list holding everything the query outputs or reads. */
  ghost predicate CoversQuery(q: Query, request: Fields) {
    && (forall t | t in q.fields :: t in request && forall n | n in q.fields[t] :: n in request[t])
    && (forall t, col | t in q.fields && AnyReads(Rules(q), t, col) :: col in request[t])
  }

  /** On each of the query's tables `pruned` has the requested columns of `full`. Other columns may be
      missing, null or anything else, and so may other tables. */
  ghost predicate Prunes(full: Data, pruned: Data, q: Query, request: Fields) {
    forall t | t in q.fields && t in request ::
      && (t in pruned <==> t in full)
      && (t in full ==> Project(pruned[t], request[t]) == Project(full[t], request[t]))
  }

  /** Every table the query selects from or joins into is one of its output tables. */
  ghost predicate TablesListed(q: Query) {
    forall t | Touched(Rules(q), t) :: t in q.fields
  }

  /** Pruned and full data agree on a table, as far as these columns go. */
  ghost predicate AgreeOn(full: Data, pruned: Data, t: TableName, names: iset<FieldName>) {
    && (t in full <==> t in pruned)
    && TableOf(full, t).rows == TableOf(pruned, t).rows
    && (forall n | n in names :: Find(TableOf(full, t).columns, n) == Find(TableOf(pruned, t).columns, n))
  }

  ghost function ReadColumns(r: Rule, t: TableName): iset<FieldName> {
    iset n | Reads(r, t, n)
  }

  ghost predicate AgreeForRule(full: Data, pruned: Data, r: Rule) {
    forall t | Mentions(r, t) :: AgreeOn(full, pruned, t, ReadColumns(r, t))
  }

  lemma {:induction false} RuleOkWhenAgree(full: Data, pruned: Data, r: Rule)
    requires AgreeForRule(full, pruned, r)
    ensures RuleOk(full, r) <==> RuleOk(pruned, r)
  {
    assert AgreeOn(full, pruned, r.source, ReadColumns(r, r.source));
    forall f | f in r.sel.filters
      ensures FilterOk(TableOf(full, r.source), f) <==> FilterOk(TableOf(pruned, r.source), f)
    {
      assert FilterReads(r.source, f, r.source, f.column);
      assert f.column in ReadColumns(r, r.source);
    }
    forall inc | inc in r.sel.includes ensures IncludeOk(full, r.source, inc) <==> IncludeOk(pruned, r.source, inc) {
      assert AgreeOn(full, pruned, inc.target, ReadColumns(r, inc.target));
      forall n | n in inc.fieldNames
        ensures KeyColumnOk(TableOf(full, r.source), n) <==> KeyColumnOk(TableOf(pruned, r.source), n)
      {
        assert IncludeReads(r.source, inc, r.source, n) && n in ReadColumns(r, r.source);
      }
      forall n | n in inc.targetFieldNames
        ensures KeyColumnOk(TableOf(full, inc.target), n) <==> KeyColumnOk(TableOf(pruned, inc.target), n)
      {
        assert IncludeReads(r.source, inc, inc.target, n) && n in ReadColumns(r, inc.target);
      }
    }
  }

  lemma {:induction false} VerdictsWhenAgree(full: Data, pruned: Data, r: Rule, row: nat)
    requires AgreeForRule(full, pruned, r)
    ensures Passes(TableOf(full, r.source), r.sel.filters, row)
       <==> Passes(TableOf(pruned, r.source), r.sel.filters, row)
    ensures Undecided(TableOf(full, r.source), r.sel.filters, row)
       <==> Undecided(TableOf(pruned, r.source), r.sel.filters, row)
  {
    assert AgreeOn(full, pruned, r.source, ReadColumns(r, r.source));
    forall f | f in r.sel.filters
      ensures RowVerdict(TableOf(full, r.source), f, row) == RowVerdict(TableOf(pruned, r.source), f, row)
    {
      assert FilterReads(r.source, f, r.source, f.column);
      assert f.column in ReadColumns(r, r.source);
    }
  }

  lemma {:induction false} KeyWhenAgree(full: Data, pruned: Data, t: TableName, names: iset<FieldName>,
                                        key: seq<FieldName>, row: nat)
    requires AgreeOn(full, pruned, t, names) && forall n | n in key :: n in names
    ensures KeyAt(TableOf(full, t), key, row) == KeyAt(TableOf(pruned, t), key, row)
  {
    assert forall k | 0 <= k < |key| :: key[k] in key;
  }

  lemma {:induction false} JoinsWhenAgree(full: Data, pruned: Data, r: Rule, inc: Include, t: TableName, row: nat)
    requires AgreeForRule(full, pruned, r) && inc in r.sel.includes
    ensures JoinsRow(full, r, inc, t, row) <==> JoinsRow(pruned, r, inc, t, row)
  {
    assert AgreeOn(full, pruned, r.source, ReadColumns(r, r.source));
    assert AgreeOn(full, pruned, inc.target, ReadColumns(r, inc.target));
    forall n | n in inc.fieldNames ensures n in ReadColumns(r, r.source) {
      assert IncludeReads(r.source, inc, r.source, n);
    }
    forall n | n in inc.targetFieldNames ensures n in ReadColumns(r, inc.target) {
      assert IncludeReads(r.source, inc, inc.target, n);
    }
    KeyWhenAgree(full, pruned, inc.target, ReadColumns(r, inc.target), inc.targetFieldNames, row);
    forall s: nat
      ensures SeedAt(full, r.source, r.sel.filters, inc, s, row)
         <==> SeedAt(pruned, r.source, r.sel.filters, inc, s, row)
    {
      VerdictsWhenAgree(full, pruned, r, s);
      KeyWhenAgree(full, pruned, r.source, ReadColumns(r, r.source), inc.fieldNames, s);
    }
  }

  lemma {:induction false} RuleSelectsWhenAgree(full: Data, pruned: Data, r: Rule, t: TableName, row: nat)
    requires AgreeForRule(full, pruned, r)
    ensures SelectsRow(full, r, t, row) <==> SelectsRow(pruned, r, t, row)
    ensures BlursRow(full, r, t, row) <==> BlursRow(pruned, r, t, row)
  {
    VerdictsWhenAgree(full, pruned, r, row);
    forall inc | inc in r.sel.includes ensures JoinsRow(full, r, inc, t, row) <==> JoinsRow(pruned, r, inc, t, row) {
      JoinsWhenAgree(full, pruned, r, inc, t, row);
    }
  }

  lemma {:induction false} PrunedAgrees(full: Data, pruned: Data, q: Query, request: Fields, r: Rule)
    requires CoversQuery(q, request) && Prunes(full, pruned, q, request) && TablesListed(q) && r in Rules(q)
    ensures AgreeForRule(full, pruned, r)
  {
    forall t | Mentions(r, t) ensures AgreeOn(full, pruned, t, ReadColumns(r, t)) {
      assert Touched(Rules(q), t);
      if t in full {
        forall n | n in ReadColumns(r, t) ensures Find(full[t].columns, n) == Find(pruned[t].columns, n) {
          assert AnyReads(Rules(q), t, n);
          FindPicked(full[t].columns, request[t], n);
          FindPicked(pruned[t].columns, request[t], n);
        }
      }
    }
  }

  lemma {:induction false} SameTableOutcome(full: Data, pruned: Data, q: Query, request: Fields, t: TableName)
    requires CoversQuery(q, request) && Prunes(full, pruned, q, request) && TablesListed(q) && t in q.fields
    ensures TableOutcome(pruned, q, t) == TableOutcome(full, q, t)
  {
    if t in full {
      PickTwice(full[t].columns, request[t], q.fields[t]);
      PickTwice(pruned[t].columns, request[t], q.fields[t]);
    }
    forall row: nat ensures RowMask(pruned, Rules(q), t, row) == RowMask(full, Rules(q), t, row) {
      forall r | r in Rules(q)
        ensures SelectsRow(full, r, t, row) <==> SelectsRow(pruned, r, t, row)
        ensures BlursRow(full, r, t, row) <==> BlursRow(pruned, r, t, row)
      {
        PrunedAgrees(full, pruned, q, request, r);
        RuleSelectsWhenAgree(full, pruned, r, t, row);
      }
    }
    assert TableMask(pruned, Rules(q), t) == TableMask(full, Rules(q), t);
  }

  /** Column pruning preserves meaning: on data that keeps the columns of any lists covering the query,
      it succeeds exactly when it does on the full data, with the same output. */
  lemma {:induction false} PruningPreservesOutcome(full: Data, pruned: Data, q: Query, request: Fields)
    requires CoversQuery(q, request) && Prunes(full, pruned, q, request) && TablesListed(q)
    ensures Outcome(pruned, q) == Outcome(full, q)
  {
    forall r | r in Rules(q) ensures RuleOk(full, r) <==> RuleOk(pruned, r) {
      PrunedAgrees(full, pruned, q, request, r);
      RuleOkWhenAgree(full, pruned, r);
    }
    assert forall t | t in q.fields :: t in full <==> t in pruned;
    if Answers(full, q) {
      var out := Outcome(pruned, q).value;
      forall t | t in out ensures out[t] == TableOutcome(full, q, t) {
        SameTableOutcome(full, pruned, q, request, t);
      }
      OutcomeIsUnique(full, q, out);
    }
  }

  /** The closure the program computes is such a column list. */
  lemma {:induction false} ClosureCovers(q: Query, request: Fields)
    requires Grown(q.fields, request, (t, col) => AnyReads(Rules(q), t, col))
    ensures CoversQuery(q, request)
  {
    forall t, n | t in q.fields && n in q.fields[t] ensures n in request[t] {
      assert q.fields[t] <= request[t];
    }
  }

  /** The closure succeeds on every query whose touched tables are output tables, as compiled ones are. */
  lemma {:induction false} ClosureSucceeds(q: Query)
    requires TablesListed(q)
    ensures forall t | AnyAsks(Rules(q), t) :: t in q.fields
  {
    forall t | AnyAsks(Rules(q), t) ensures Touched(Rules(q), t) {
      var r :| r in Rules(q) && Asks(r, t);
      assert Mentions(r, t);
    }
  }

  lemma {:induction false} RulesIgnoreFields(q: Query, fields: Fields)
    ensures Rules(Query(q.selection, fields)) == Rules(q)
  {
  }
}
