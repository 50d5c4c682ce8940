/** What the output of a query is, row by row, and what it does not depend on. */
module QueryLaws {
  import opened Wrappers
  import opened Tables
  import opened QuerySpec

  /** The positions a mask keeps, counted from `base`. */
  function Positions(m: Mask, base: nat): seq<nat> {
    if m == [] then []
    else if m[0] == Some(true) then [base] + Positions(m[1..], base + 1)
    else Positions(m[1..], base + 1)
  }

  predicate Ascending(s: seq<nat>) {
    forall i, j :: 0 <= i < j < |s| ==> s[i] < s[j]
  }

  lemma {:induction false} PositionsMember(m: Mask, base: nat, p: nat)
    ensures p in Positions(m, base) <==> base <= p < base + |m| && m[p - base] == Some(true)
  {
    if m != [] {
      PositionsMember(m[1..], base + 1, p);
    }
  }

  lemma {:induction false} PositionsAscend(m: Mask, base: nat)
    ensures Ascending(Positions(m, base))
    ensures |Positions(m, base)| == CountTrue(m)
  {
    if m != [] {
      PositionsAscend(m[1..], base + 1);
      var rest := Positions(m[1..], base + 1);
      forall k | 0 <= k < |rest| ensures base < rest[k] {
        PositionsMember(m[1..], base + 1, rest[k]);
      }
    }
  }

  lemma {:induction false} KeepAtPositions<T>(xs: seq<T>, m: Mask, base: nat)
    requires |xs| == |m|
    ensures |Keep(xs, m)| == |Positions(m, base)|
    ensures forall k :: 0 <= k < |Keep(xs, m)| ==>
              base <= Positions(m, base)[k] < base + |xs| && Keep(xs, m)[k] == xs[Positions(m, base)[k] - base]
  {
    if xs != [] {
      KeepAtPositions(xs[1..], m[1..], base + 1);
    }
  }

  /** The rows of t that reach the output. */
  ghost function Survivors(data: Data, q: Query, t: TableName): seq<nat> {
    Positions(TableMask(data, Rules(q), t), 0)
  }

  /** A row survives when some rule selects it and no boolean filter on its table is left without an
      answer; survivors keep their order. */
  lemma {:induction false} SurvivingRows(data: Data, q: Query, t: TableName)
    ensures Ascending(Survivors(data, q, t))
    ensures |Survivors(data, q, t)| == TableOutcome(data, q, t).rows
    ensures forall r: nat :: r in Survivors(data, q, t) <==>
              r < TableOf(data, t).rows && Selected(data, Rules(q), t, r) && !Blurred(data, Rules(q), t, r)
  {
    var m := TableMask(data, Rules(q), t);
    PositionsAscend(m, 0);
    forall r: nat ensures r in Survivors(data, q, t) <==> r < |m| && m[r] == Some(true) {
      PositionsMember(m, 0, r);
    }
  }

  /** The output table holds the requested columns of the input, each with exactly the cells of the
      surviving rows. */
  lemma {:induction false} OutputCells(data: Data, q: Query, t: TableName, c: nat, k: nat)
    requires ValidData(data) && t in data && t in q.fields
    requires c < |Project(data[t], q.fields[t]).columns| && k < |Survivors(data, q, t)|
    ensures var from, out := Project(data[t], q.fields[t]).columns[c], TableOutcome(data, q, t).columns;
            && |out| == |Project(data[t], q.fields[t]).columns|
            && out[c].name == from.name && out[c].dtype == from.dtype
            && |out[c].cells| == |Survivors(data, q, t)| && Survivors(data, q, t)[k] < |from.cells|
            && out[c].cells[k] == from.cells[Survivors(data, q, t)[k]]
  {
    var from := Project(data[t], q.fields[t]).columns[c];
    assert from in Project(data[t], q.fields[t]).columns;
    KeepAtPositions(from.cells, TableMask(data, Rules(q), t), 0);
  }

  /** A boolean filter of a rule on t whose column is null on this row. */
  predicate NullBooleanFilter(data: Data, r: Rule, f: NamedFilter, t: TableName, row: nat) {
    r.source == t && f.filter.BoolEq? && !CellOf(TableOf(data, t), f.column, row).valid
  }

  ghost predicate NullBoolean(data: Data, rules: set<Rule>, t: TableName, row: nat) {
    exists r, f | r in rules && f in r.sel.filters :: NullBooleanFilter(data, r, f, t, row)
  }

  /** Only null slots under boolean filters blur a row: membership and prefix masks are null-free. */
  lemma {:induction false} BlurredIffNullBoolean(data: Data, rules: set<Rule>, t: TableName, row: nat)
    ensures Blurred(data, rules, t, row) <==> NullBoolean(data, rules, t, row)
  {
    forall r, f | r in rules && f in r.sel.filters
      ensures r.source == t && RowVerdict(TableOf(data, t), f, row) == None <==> NullBooleanFilter(data, r, f, t, row)
    {
    }
  }

  /** The documented meaning, "a row passes if it matches any selection", holds of a table exactly
      when no selected row has a null under a boolean filter on that table. */
  lemma {:induction false} RelationalMeaning(data: Data, q: Query, t: TableName)
    ensures (forall r: nat :: r < TableOf(data, t).rows ==>
               (r in Survivors(data, q, t) <==> Selected(data, Rules(q), t, r)))
       <==> (forall r: nat :: r < TableOf(data, t).rows && Selected(data, Rules(q), t, r) ==>
               !NullBoolean(data, Rules(q), t, r))
  {
    SurvivingRows(data, q, t);
    forall r: nat ensures Blurred(data, Rules(q), t, r) <==> NullBoolean(data, Rules(q), t, r) {
      BlurredIffNullBoolean(data, Rules(q), t, r);
    }
  }

  /** A row one selection asks for is lost because another selection's boolean column is null there. */
  lemma {:induction false} NullBooleanLosesSelectedRow() returns (data: Data, q: Query, t: TableName)
    ensures ValidData(data) && Answers(data, q) && t in data && t in q.fields
    ensures data[t].rows == 1 && Selected(data, Rules(q), t, 0)
    ensures TableOutcome(data, q, t).rows == 0
  {
    t := OtherTable("t");
    var u8 := Integer(8, false);
    var n := Column("n", u8, [Cell(true, Int(1))]);
    var ok := Column("ok", Boolean, [Cell(false, Bool(true))]);
    data := map[t := Table(1, [n, ok])];
    var byNumber := TableSelection([NamedFilter("n", ContainsAny(u8, [Int(1)]))], []);
    var byFlag := TableSelection([NamedFilter("ok", BoolEq(true))], []);
    q := Query([TableRules(t, [byNumber, byFlag])], map[t := ["n"]]);
    assert Find(data[t].columns, "n") == Some(n);
    assert Find(data[t].columns[1..], "ok") == Some(ok);
    assert Rule(t, q.selection[0].selections[0]) in Rules(q) && SelectsRow(data, Rule(t, byNumber), t, 0);
    assert RowVerdict(data[t], byFlag.filters[0], 0) == None;
    assert Rule(t, q.selection[0].selections[1]) in Rules(q) && BlursRow(data, Rule(t, byFlag), t, 0);
    assert TableMask(data, Rules(q), t) == [None];
    var blank: Mask := [None];
    assert blank[1..] == [];
  }

  /** The same table, the same filters and the same joins, as sets. */
  ghost predicate SameRule(r: Rule, r': Rule) {
    && r.source == r'.source
    && (forall f :: f in r.sel.filters <==> f in r'.sel.filters)
    && (forall inc :: inc in r.sel.includes <==> inc in r'.sel.includes)
  }

  /** Every rule of the first set is, up to order, a rule of the second. */
  ghost predicate Covered(rules: set<Rule>, rules': set<Rule>) {
    forall r | r in rules :: exists r' | r' in rules' :: SameRule(r, r')
  }

  lemma {:induction false} SameRuleSelectsSame(data: Data, r: Rule, r': Rule)
    requires SameRule(r, r')
    ensures RuleOk(data, r) <==> RuleOk(data, r')
    ensures forall t :: Mentions(r, t) <==> Mentions(r', t)
    ensures forall t, row :: SelectsRow(data, r, t, row) <==> SelectsRow(data, r', t, row)
    ensures forall t, row :: BlursRow(data, r, t, row) <==> BlursRow(data, r', t, row)
  {
    var table := TableOf(data, r.source);
    forall row ensures Passes(table, r.sel.filters, row) <==> Passes(table, r'.sel.filters, row) {
    }
    forall inc, row
      ensures HasSeed(data, r.source, r.sel.filters, inc, row) <==> HasSeed(data, r'.source, r'.sel.filters, inc, row)
    {
      forall s: nat ensures SeedAt(data, r.source, r.sel.filters, inc, s, row)
                       <==> SeedAt(data, r'.source, r'.sel.filters, inc, s, row)
      {
      }
    }
  }

  /** The first rules need no more of the data and select no more than the second. */
  ghost predicate Within(data: Data, rules: set<Rule>, rules': set<Rule>) {
    && (RulesOk(data, rules') ==> RulesOk(data, rules))
    && (forall t :: Touched(rules, t) ==> Touched(rules', t))
    && (forall t, row :: Selected(data, rules, t, row) ==> Selected(data, rules', t, row))
    && (forall t, row :: Blurred(data, rules, t, row) ==> Blurred(data, rules', t, row))
  }

  lemma {:induction false} CoveredIsWithin(data: Data, rules: set<Rule>, rules': set<Rule>)
    requires Covered(rules, rules')
    ensures Within(data, rules, rules')
  {
    forall r | r in rules
      ensures exists r' | r' in rules' ::
        && (RuleOk(data, r') ==> RuleOk(data, r))
        && (forall t :: Mentions(r, t) ==> Mentions(r', t))
        && (forall t, row :: SelectsRow(data, r, t, row) ==> SelectsRow(data, r', t, row))
        && (forall t, row :: BlursRow(data, r, t, row) ==> BlursRow(data, r', t, row))
    {
      var r' :| r' in rules' && SameRule(r, r');
      SameRuleSelectsSame(data, r, r');
    }
  }

  lemma {:induction false} SameTableOutcome(data: Data, q: Query, q': Query, t: TableName)
    requires q.fields == q'.fields
    requires forall row :: Selected(data, Rules(q), t, row) <==> Selected(data, Rules(q'), t, row)
    requires forall row :: Blurred(data, Rules(q), t, row) <==> Blurred(data, Rules(q'), t, row)
    ensures TableOutcome(data, q, t) == TableOutcome(data, q', t)
  {
    assert TableMask(data, Rules(q), t) == TableMask(data, Rules(q'), t);
  }

  lemma {:induction false} WithinBothWays(data: Data, q: Query, q': Query)
    requires q.fields == q'.fields && Within(data, Rules(q), Rules(q')) && Within(data, Rules(q'), Rules(q))
    ensures Outcome(data, q) == Outcome(data, q')
  {
    if Answers(data, q) {
      var out := Outcome(data, q').value;
      forall t | t in out ensures out[t] == TableOutcome(data, q, t) {
        SameTableOutcome(data, q, q', t);
      }
      OutcomeIsUnique(data, q, out);
    }
  }

  /** Reordering or repeating selections, filters or joins changes neither success nor output. */
  lemma {:induction false} OrderDoesNotMatter(data: Data, q: Query, q': Query)
    requires q.fields == q'.fields && Covered(Rules(q), Rules(q')) && Covered(Rules(q'), Rules(q))
    ensures Outcome(data, q) == Outcome(data, q')
  {
    CoveredIsWithin(data, Rules(q), Rules(q'));
    CoveredIsWithin(data, Rules(q'), Rules(q));
    WithinBothWays(data, q, q');
  }
}
