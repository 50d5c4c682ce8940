/** Running the query chunk by chunk, as the stream does, against running it once on everything. */
module Streaming {
  import opened Wrappers
  import opened Tables
  import opened QuerySpec
  import opened LastBlock
  import QueryEngine

  /** The column holding the block number or slot of each table. */
  type BlockColumns = TableName -> FieldName

  predicate KeyedByBlock(source: TableName, inc: Include, block: BlockColumns) {
    && inc.fieldNames != [] && inc.fieldNames[0] == block(source)
    && inc.targetFieldNames != [] && inc.targetFieldNames[0] == block(inc.target)
  }

  /** Every join has the block column as its first key on both sides. */
  predicate BlockKeyed(rules: set<Rule>, block: BlockColumns) {
    forall r, inc | r in rules && inc in r.sel.includes :: KeyedByBlock(r.source, inc, block)
  }

  predicate SameColumns(t: Table, u: Table) {
    && |t.columns| == |u.columns|
    && forall k | 0 <= k < |t.columns| ::
         t.columns[k].name == u.columns[k].name && t.columns[k].dtype == u.columns[k].dtype
  }

  predicate SameSchema(d: Data, e: Data) {
    && d.Keys == e.Keys
    && forall t | t in d :: SameColumns(d[t], e[t])
  }

  function AppendColumns(cs: seq<Column>, ds: seq<Column>): seq<Column>
    requires |cs| == |ds|
  {
    seq(|cs|, k requires 0 <= k < |cs| => cs[k].(cells := cs[k].cells + ds[k].cells))
  }

  function AppendTable(t: Table, u: Table): (r: Table)
    requires SameColumns(t, u)
    ensures ValidTable(t) && ValidTable(u) ==> ValidTable(r)
    ensures SameColumns(r, t)
  {
    var r := Table(t.rows + u.rows, AppendColumns(t.columns, u.columns));
    assert ValidTable(t) && ValidTable(u) ==> forall k | 0 <= k < |r.columns| :: |r.columns[k].cells| == r.rows by {
      assert forall k | 0 <= k < |t.columns| :: t.columns[k] in t.columns && u.columns[k] in u.columns;
    }
    r
  }

  /** The chunks' rows, one chunk after the other. */
  function Append(d: Data, e: Data): (r: Data)
    requires SameSchema(d, e)
    ensures ValidData(d) && ValidData(e) ==> ValidData(r)
    ensures SameSchema(r, d)
  {
    map t | t in d :: AppendTable(d[t], e[t])
  }

  predicate OneSchema(chunks: seq<Data>) {
    && (forall i | 0 <= i < |chunks| :: ValidData(chunks[i]))
    && (forall i, j | 0 <= i < |chunks| && 0 <= j < |chunks| :: SameSchema(chunks[i], chunks[j]))
  }

  function AppendAll(chunks: seq<Data>): (r: Data)
    requires chunks != [] && OneSchema(chunks)
    ensures ValidData(r) && SameSchema(r, chunks[0])
  {
    if |chunks| == 1 then chunks[0]
    else Append(chunks[0], AppendAll(chunks[1..]))
  }

  /** A table that takes part in some join. */
  predicate Joined(rules: set<Rule>, t: TableName) {
    exists r, inc | r in rules && inc in r.sel.includes :: r.source == t || inc.target == t
  }

  predicate BlocksDiffer(t: Table, tBlock: FieldName, r: nat, u: Table, uBlock: FieldName, s: nat) {
    var b, c := CellOf(t, tBlock, r), CellOf(u, uBlock, s);
    b.valid && c.valid && b.raw != c.raw
  }

  /** Block ids of joined tables are non-null in both chunks, and no id occurs in both. */
  ghost predicate DisjointBlocks(rules: set<Rule>, block: BlockColumns, d: Data, e: Data) {
    forall t, u, r: nat, s: nat |
      Joined(rules, t) && Joined(rules, u) && r < TableOf(d, t).rows && s < TableOf(e, u).rows ::
      BlocksDiffer(TableOf(d, t), block(t), r, TableOf(e, u), block(u), s)
  }

  function Glue(a: Result<Data>, b: Result<Data>): Result<Data> {
    if a.Success? && b.Success? && SameSchema(a.value, b.value) then Success(Append(a.value, b.value)) else Failure
  }

  // -------- one row of the concatenation is one row of one chunk --------

  /** The columns found under one name in two tables and in their concatenation. */
  predicate Concatenates(f: Option<Column>, g: Option<Column>, h: Option<Column>) {
    && (h.Some? <==> f.Some?) && (g.Some? <==> f.Some?)
    && (h.Some? ==> h.value.dtype == f.value.dtype == g.value.dtype && h.value.cells == f.value.cells + g.value.cells)
  }

  lemma {:induction false} FindInAppended(cs: seq<Column>, ds: seq<Column>, name: FieldName)
    requires |cs| == |ds|
    requires forall k | 0 <= k < |cs| :: cs[k].name == ds[k].name && cs[k].dtype == ds[k].dtype
    ensures Concatenates(Find(cs, name), Find(ds, name), Find(AppendColumns(cs, ds), name))
  {
    if cs != [] {
      FindInAppended(cs[1..], ds[1..], name);
      assert AppendColumns(cs, ds)[1..] == AppendColumns(cs[1..], ds[1..]);
    }
  }

  lemma {:induction false} AppendedFinds(t: Table, u: Table, name: FieldName)
    requires SameColumns(t, u)
    ensures Concatenates(Find(t.columns, name), Find(u.columns, name), Find(AppendTable(t, u).columns, name))
  {
    FindInAppended(t.columns, u.columns, name);
  }

  predicate OfLength(c: Option<Column>, n: nat) {
    c.Some? ==> |c.value.cells| == n
  }

  lemma {:induction false} FoundLength(t: Table, name: FieldName)
    requires ValidTable(t)
    ensures OfLength(Find(t.columns, name), t.rows)
  {
    FindFinds(t.columns, name);
  }

  /** A slot of a column that is a concatenation. */
  lemma {:induction false} CellInWhole(t: Table, u: Table, whole: Table, name: FieldName, row: nat)
    requires Concatenates(Find(t.columns, name), Find(u.columns, name), Find(whole.columns, name))
    requires OfLength(Find(t.columns, name), t.rows) && OfLength(Find(u.columns, name), u.rows)
    requires row < t.rows + u.rows
    ensures CellOf(whole, name, row) == if row < t.rows then CellOf(t, name, row) else CellOf(u, name, row - t.rows)
  {
  }

  lemma {:induction false} CellInAppended(t: Table, u: Table, name: FieldName, row: nat)
    requires SameColumns(t, u) && ValidTable(t) && ValidTable(u) && row < t.rows + u.rows
    ensures CellOf(AppendTable(t, u), name, row)
         == if row < t.rows then CellOf(t, name, row) else CellOf(u, name, row - t.rows)
  {
    AppendedFinds(t, u, name);
    FoundLength(t, name);
    FoundLength(u, name);
    CellInWhole(t, u, AppendTable(t, u), name, row);
  }

  ghost predicate SameRow(part: Table, row: nat, whole: Table, at: nat) {
    forall name :: CellOf(part, name, row) == CellOf(whole, name, at + row)
  }

  /** The rows of `part` are the rows of `whole` from `at` on. */
  ghost predicate IsSlice(whole: Table, at: nat, part: Table) {
    && at + part.rows <= whole.rows
    && forall row: nat | row < part.rows :: SameRow(part, row, whole, at)
  }

  /** `whole` is `d` followed by `e`, table by table. */
  ghost predicate Split(whole: Data, d: Data, e: Data) {
    && whole.Keys == d.Keys == e.Keys
    && forall t ::
         && TableOf(whole, t).rows == TableOf(d, t).rows + TableOf(e, t).rows
         && IsSlice(TableOf(whole, t), 0, TableOf(d, t))
         && IsSlice(TableOf(whole, t), TableOf(d, t).rows, TableOf(e, t))
  }

  lemma {:induction false} AppendedFirstRow(t: Table, u: Table, row: nat)
    requires ValidTable(t) && ValidTable(u) && SameColumns(t, u) && row < t.rows
    ensures SameRow(t, row, AppendTable(t, u), 0)
  {
    forall name ensures CellOf(t, name, row) == CellOf(AppendTable(t, u), name, 0 + row) {
      CellInAppended(t, u, name, row);
    }
  }

  lemma {:induction false} CellOfSecond(t: Table, u: Table, name: FieldName, row: nat, at: nat)
    requires ValidTable(t) && ValidTable(u) && SameColumns(t, u) && row < u.rows && at == t.rows + row
    ensures CellOf(u, name, row) == CellOf(AppendTable(t, u), name, at)
  {
    CellInAppended(t, u, name, at);
  }

  lemma {:induction false} AppendedSecondRow(t: Table, u: Table, row: nat)
    requires ValidTable(t) && ValidTable(u) && SameColumns(t, u) && row < u.rows
    ensures SameRow(u, row, AppendTable(t, u), t.rows)
  {
    forall name ensures CellOf(u, name, row) == CellOf(AppendTable(t, u), name, t.rows + row) {
      CellOfSecond(t, u, name, row, t.rows + row);
    }
  }

  lemma {:induction false} AppendedSlices(t: Table, u: Table)
    requires ValidTable(t) && ValidTable(u) && SameColumns(t, u)
    ensures IsSlice(AppendTable(t, u), 0, t) && IsSlice(AppendTable(t, u), t.rows, u)
  {
    var whole := AppendTable(t, u);
    forall row: nat | row < t.rows ensures SameRow(t, row, whole, 0) {
      AppendedFirstRow(t, u, row);
    }
    forall row: nat | row < u.rows ensures SameRow(u, row, whole, t.rows) {
      AppendedSecondRow(t, u, row);
    }
  }

  lemma {:induction false} AppendSplits(d: Data, e: Data)
    requires ValidData(d) && ValidData(e) && SameSchema(d, e)
    ensures Split(Append(d, e), d, e)
  {
    forall t | t in d ensures IsSlice(Append(d, e)[t], 0, d[t]) && IsSlice(Append(d, e)[t], d[t].rows, e[t]) {
      AppendedSlices(d[t], e[t]);
    }
  }

  lemma {:induction false} VerdictsInSlice(whole: Table, at: nat, part: Table, filters: seq<NamedFilter>, row: nat)
    requires IsSlice(whole, at, part) && row < part.rows
    ensures Passes(whole, filters, at + row) <==> Passes(part, filters, row)
    ensures Undecided(whole, filters, at + row) <==> Undecided(part, filters, row)
  {
    assert SameRow(part, row, whole, at);
  }

  lemma {:induction false} KeyInSlice(whole: Table, at: nat, part: Table, names: seq<FieldName>, row: nat)
    requires IsSlice(whole, at, part) && row < part.rows
    ensures KeyAt(whole, names, at + row) == KeyAt(part, names, row)
  {
    assert SameRow(part, row, whole, at);
  }

  // -------- failure depends on the schema alone --------

  lemma {:induction false} FindBySchema(cs: seq<Column>, ds: seq<Column>, name: FieldName)
    requires |cs| == |ds|
    requires forall k | 0 <= k < |cs| :: cs[k].name == ds[k].name && cs[k].dtype == ds[k].dtype
    ensures Find(cs, name).Some? <==> Find(ds, name).Some?
    ensures Find(cs, name).Some? ==> Find(cs, name).value.dtype == Find(ds, name).value.dtype
  {
    if cs != [] {
      FindBySchema(cs[1..], ds[1..], name);
    }
  }

  lemma {:induction false} RuleOkBySchema(d: Data, e: Data, r: Rule)
    requires SameSchema(d, e)
    ensures RuleOk(d, r) <==> RuleOk(e, r)
  {
    forall t, n
      ensures Find(TableOf(d, t).columns, n).Some? <==> Find(TableOf(e, t).columns, n).Some?
      ensures Find(TableOf(d, t).columns, n).Some? ==>
                Find(TableOf(d, t).columns, n).value.dtype == Find(TableOf(e, t).columns, n).value.dtype
    {
      FindBySchema(TableOf(d, t).columns, TableOf(e, t).columns, n);
    }
    assert forall t, n :: KeyColumnOk(TableOf(d, t), n) <==> KeyColumnOk(TableOf(e, t), n);
    assert forall t, f :: FilterOk(TableOf(d, t), f) <==> FilterOk(TableOf(e, t), f);
    forall inc ensures IncludeOk(d, r.source, inc) <==> IncludeOk(e, r.source, inc) {
    }
  }

  lemma {:induction false} AnswersBySchema(d: Data, e: Data, q: Query)
    requires SameSchema(d, e)
    ensures Answers(d, q) <==> Answers(e, q)
  {
    forall r | r in Rules(q) ensures RuleOk(d, r) <==> RuleOk(e, r) {
      RuleOkBySchema(d, e, r);
    }
  }

  // -------- a seed with the target row's block id is in the target row's chunk --------

  lemma {:induction false} DifferentBlocksDifferentKeys(t: Table, ts: seq<FieldName>, r: nat, u: Table,
                                                        us: seq<FieldName>, s: nat)
    requires ts != [] && us != [] && BlocksDiffer(t, ts[0], r, u, us[0], s)
    ensures KeyAt(t, ts, r) != KeyAt(u, us, s)
  {
    assert KeyAt(t, ts, r)[0] == CellKey(CellOf(t, ts[0], r));
    assert KeyAt(u, us, s)[0] == CellKey(CellOf(u, us[0], s));
  }

  /** `whole` consists of `part`, starting at row `at(t)` of each table, and `other`. */
  ghost predicate HalfOf(whole: Data, part: Data, at: TableName -> nat, other: Data, otherAt: TableName -> nat,
                         t: TableName)
  {
    && IsSlice(TableOf(whole, t), at(t), TableOf(part, t))
    && IsSlice(TableOf(whole, t), otherAt(t), TableOf(other, t))
    && TableOf(whole, t).rows == TableOf(part, t).rows + TableOf(other, t).rows
    && ((at(t) == 0 && otherAt(t) == TableOf(part, t).rows) || (otherAt(t) == 0 && at(t) == TableOf(other, t).rows))
  }

  lemma {:induction false} SeedInSamePart(whole: Data, part: Data, at: TableName -> nat, r: Rule, inc: Include, s: nat,
                                          row: nat)
    requires IsSlice(TableOf(whole, r.source), at(r.source), TableOf(part, r.source))
    requires IsSlice(TableOf(whole, inc.target), at(inc.target), TableOf(part, inc.target))
    requires row < TableOf(part, inc.target).rows && s < TableOf(part, r.source).rows
    ensures SeedAt(whole, r.source, r.sel.filters, inc, at(r.source) + s, at(inc.target) + row)
       <==> SeedAt(part, r.source, r.sel.filters, inc, s, row)
  {
    KeyInSlice(TableOf(whole, inc.target), at(inc.target), TableOf(part, inc.target), inc.targetFieldNames, row);
    KeyInSlice(TableOf(whole, r.source), at(r.source), TableOf(part, r.source), inc.fieldNames, s);
    VerdictsInSlice(TableOf(whole, r.source), at(r.source), TableOf(part, r.source), r.sel.filters, s);
  }

  lemma {:induction false} NoSeedInOtherPart(whole: Data, part: Data, at: TableName -> nat, other: Data,
                                             otherAt: TableName -> nat, r: Rule,
                          inc: Include, block: BlockColumns, s: nat, row: nat)
    requires IsSlice(TableOf(whole, r.source), otherAt(r.source), TableOf(other, r.source))
    requires IsSlice(TableOf(whole, inc.target), at(inc.target), TableOf(part, inc.target))
    requires row < TableOf(part, inc.target).rows && s < TableOf(other, r.source).rows
    requires KeyedByBlock(r.source, inc, block)
    requires BlocksDiffer(TableOf(part, inc.target), block(inc.target), row, TableOf(other, r.source), block(r.source),
                          s)
    ensures !SeedAt(whole, r.source, r.sel.filters, inc, otherAt(r.source) + s, at(inc.target) + row)
  {
    KeyInSlice(TableOf(whole, inc.target), at(inc.target), TableOf(part, inc.target), inc.targetFieldNames, row);
    KeyInSlice(TableOf(whole, r.source), otherAt(r.source), TableOf(other, r.source), inc.fieldNames, s);
    DifferentBlocksDifferentKeys(TableOf(part, inc.target), inc.targetFieldNames, row,
                                 TableOf(other, r.source), inc.fieldNames, s);
  }

  /** Part of a concatenation, the other part's blocks being different, with joins keyed by block. */
  ghost predicate Separate(whole: Data, part: Data, at: TableName -> nat, other: Data, otherAt: TableName -> nat,
                           rules: set<Rule>, block: BlockColumns)
  {
    && (forall t :: HalfOf(whole, part, at, other, otherAt, t))
    && BlockKeyed(rules, block) && DisjointBlocks(rules, block, part, other)
  }

  lemma {:induction false} SeedIsLocal(whole: Data, part: Data, at: TableName -> nat, other: Data,
                                       otherAt: TableName -> nat,
                    r: Rule, inc: Include, block: BlockColumns, s: nat, row: nat)
    requires HalfOf(whole, part, at, other, otherAt, r.source) && HalfOf(whole, part, at, other, otherAt, inc.target)
    requires KeyedByBlock(r.source, inc, block) && row < TableOf(part, inc.target).rows
    requires forall s: nat | s < TableOf(other, r.source).rows ::
               BlocksDiffer(TableOf(part, inc.target), block(inc.target), row, TableOf(other, r.source),
                            block(r.source), s)
    requires SeedAt(whole, r.source, r.sel.filters, inc, s, at(inc.target) + row)
    ensures HasSeed(part, r.source, r.sel.filters, inc, row)
  {
    if at(r.source) <= s < at(r.source) + TableOf(part, r.source).rows {
      var local := s - at(r.source);
      SeedInSamePart(whole, part, at, r, inc, local, row);
      assert SeedAt(part, r.source, r.sel.filters, inc, local, row);
    } else {
      NoSeedInOtherPart(whole, part, at, other, otherAt, r, inc, block, s - otherAt(r.source), row);
    }
  }

  lemma {:induction false} JoinInPart(whole: Data, part: Data, at: TableName -> nat, other: Data,
                                      otherAt: TableName -> nat,
                   r: Rule, inc: Include, block: BlockColumns, row: nat)
    requires HalfOf(whole, part, at, other, otherAt, r.source) && HalfOf(whole, part, at, other, otherAt, inc.target)
    requires KeyedByBlock(r.source, inc, block) && row < TableOf(part, inc.target).rows
    requires forall s: nat | s < TableOf(other, r.source).rows ::
               BlocksDiffer(TableOf(part, inc.target), block(inc.target), row, TableOf(other, r.source),
                            block(r.source), s)
    ensures HasSeed(whole, r.source, r.sel.filters, inc, at(inc.target) + row)
       <==> HasSeed(part, r.source, r.sel.filters, inc, row)
  {
    var i := at(inc.target) + row;
    if s: nat :| SeedAt(whole, r.source, r.sel.filters, inc, s, i) {
      SeedIsLocal(whole, part, at, other, otherAt, r, inc, block, s, row);
    }
    if s: nat :| SeedAt(part, r.source, r.sel.filters, inc, s, row) {
      SeedInSamePart(whole, part, at, r, inc, s, row);
      assert SeedAt(whole, r.source, r.sel.filters, inc, at(r.source) + s, i);
    }
  }

  lemma {:induction false} JoinsInPart(whole: Data, part: Data, at: TableName -> nat, other: Data,
                                       otherAt: TableName -> nat,
                    rules: set<Rule>, block: BlockColumns, r: Rule, inc: Include, t: TableName, row: nat)
    requires Separate(whole, part, at, other, otherAt, rules, block) && r in rules && inc in r.sel.includes
    requires row < TableOf(part, t).rows
    ensures JoinsRow(whole, r, inc, t, at(t) + row) <==> JoinsRow(part, r, inc, t, row)
  {
    assert HalfOf(whole, part, at, other, otherAt, t) && HalfOf(whole, part, at, other, otherAt, r.source);
    if inc.target == t {
      assert Joined(rules, r.source) && Joined(rules, t);
      JoinInPart(whole, part, at, other, otherAt, r, inc, block, row);
    }
  }

  lemma {:induction false} RuleInPart(whole: Data, part: Data, at: TableName -> nat, other: Data,
                                      otherAt: TableName -> nat,
                   rules: set<Rule>, block: BlockColumns, r: Rule, t: TableName, row: nat)
    requires Separate(whole, part, at, other, otherAt, rules, block) && r in rules && row < TableOf(part, t).rows
    ensures SelectsRow(whole, r, t, at(t) + row) <==> SelectsRow(part, r, t, row)
    ensures BlursRow(whole, r, t, at(t) + row) <==> BlursRow(part, r, t, row)
  {
    assert HalfOf(whole, part, at, other, otherAt, t);
    VerdictsInSlice(TableOf(whole, t), at(t), TableOf(part, t), r.sel.filters, row);
    forall inc | inc in r.sel.includes
      ensures JoinsRow(whole, r, inc, t, at(t) + row) <==> JoinsRow(part, r, inc, t, row)
    {
      JoinsInPart(whole, part, at, other, otherAt, rules, block, r, inc, t, row);
    }
  }

  lemma {:induction false} RowInPart(whole: Data, part: Data, at: TableName -> nat, other: Data,
                                     otherAt: TableName -> nat,
                  rules: set<Rule>, block: BlockColumns, t: TableName, row: nat)
    requires Separate(whole, part, at, other, otherAt, rules, block) && row < TableOf(part, t).rows
    ensures RowMask(whole, rules, t, at(t) + row) == RowMask(part, rules, t, row)
  {
    var i := at(t) + row;
    forall r | r in rules
      ensures SelectsRow(whole, r, t, i) <==> SelectsRow(part, r, t, row)
      ensures BlursRow(whole, r, t, i) <==> BlursRow(part, r, t, row)
    {
      RuleInPart(whole, part, at, other, otherAt, rules, block, r, t, row);
    }
  }

  lemma {:induction false} DisjointBothWays(rules: set<Rule>, block: BlockColumns, d: Data, e: Data)
    requires DisjointBlocks(rules, block, d, e)
    ensures DisjointBlocks(rules, block, e, d)
  {
    forall t, u, r: nat, s: nat |
      Joined(rules, t) && Joined(rules, u) && r < TableOf(e, t).rows && s < TableOf(d, u).rows
      ensures BlocksDiffer(TableOf(e, t), block(t), r, TableOf(d, u), block(u), s)
    {
      assert BlocksDiffer(TableOf(d, u), block(u), s, TableOf(e, t), block(t), r);
    }
  }

  lemma {:induction false} SplitSeparates(whole: Data, d: Data, e: Data, first: TableName -> nat,
                                          second: TableName -> nat,
                       rules: set<Rule>, block: BlockColumns)
    requires Split(whole, d, e) && BlockKeyed(rules, block) && DisjointBlocks(rules, block, d, e)
    requires forall t :: first(t) == 0 && second(t) == TableOf(d, t).rows
    ensures Separate(whole, d, first, e, second, rules, block)
    ensures Separate(whole, e, second, d, first, rules, block)
  {
    DisjointBothWays(rules, block, d, e);
  }

  lemma {:induction false} MaskOfPart(whole: Data, part: Data, at: TableName -> nat, other: Data,
                                      otherAt: TableName -> nat,
                   rules: set<Rule>, block: BlockColumns, t: TableName)
    requires Separate(whole, part, at, other, otherAt, rules, block)
    ensures at(t) + TableOf(part, t).rows <= TableOf(whole, t).rows
    ensures TableMask(whole, rules, t)[at(t)..at(t) + TableOf(part, t).rows] == TableMask(part, rules, t)
  {
    assert HalfOf(whole, part, at, other, otherAt, t);
    var all, own := TableMask(whole, rules, t), TableMask(part, rules, t);
    forall row: nat | row < |own| ensures all[at(t) + row] == own[row] {
      RowInPart(whole, part, at, other, otherAt, rules, block, t, row);
    }
  }

  lemma {:induction false} GluedMaskSlices(whole: Data, d: Data, e: Data, rules: set<Rule>, block: BlockColumns,
                                           t: TableName)
    requires Split(whole, d, e) && BlockKeyed(rules, block) && DisjointBlocks(rules, block, d, e)
    ensures TableOf(whole, t).rows == TableOf(d, t).rows + TableOf(e, t).rows
    ensures TableMask(whole, rules, t)[..TableOf(d, t).rows] == TableMask(d, rules, t)
    ensures TableMask(whole, rules, t)[TableOf(d, t).rows..] == TableMask(e, rules, t)
  {
    var first: TableName -> nat := u => 0;
    var second: TableName -> nat := u => TableOf(d, u).rows;
    SplitSeparates(whole, d, e, first, second, rules, block);
    MaskOfPart(whole, d, first, e, second, rules, block, t);
    MaskOfPart(whole, e, second, d, first, rules, block, t);
  }

  lemma {:induction false} MaskInGlued(whole: Data, d: Data, e: Data, rules: set<Rule>, block: BlockColumns,
                                       t: TableName)
    requires Split(whole, d, e) && BlockKeyed(rules, block) && DisjointBlocks(rules, block, d, e)
    ensures TableMask(whole, rules, t) == TableMask(d, rules, t) + TableMask(e, rules, t)
  {
    GluedMaskSlices(whole, d, e, rules, block, t);
    var all, n := TableMask(whole, rules, t), TableOf(d, t).rows;
    assert all == all[..n] + all[n..];
  }

  // -------- filtering and projecting distribute over concatenation --------

  lemma {:induction false} KeepAppend<T>(xs: seq<T>, ys: seq<T>, m: Mask, n: Mask)
    requires |xs| == |m| && |ys| == |n|
    ensures Keep(xs + ys, m + n) == Keep(xs, m) + Keep(ys, n)
  {
    if xs == [] {
      assert xs + ys == ys && m + n == n;
    } else {
      assert (xs + ys)[1..] == xs[1..] + ys && (m + n)[1..] == m[1..] + n;
      KeepAppend(xs[1..], ys, m[1..], n);
    }
  }

  lemma {:induction false} CountAppend(m: Mask, n: Mask)
    ensures CountTrue(m + n) == CountTrue(m) + CountTrue(n)
  {
    if m == [] {
      assert m + n == n;
    } else {
      assert (m + n)[1..] == m[1..] + n;
      CountAppend(m[1..], n);
    }
  }

  lemma {:induction false} FilterAppend(t: Table, u: Table, m: Mask, n: Mask)
    requires SameColumns(t, u) && ValidTable(t) && ValidTable(u) && |m| == t.rows && |n| == u.rows
    ensures SameColumns(FilterTable(t, m), FilterTable(u, n))
    ensures FilterTable(AppendTable(t, u), m + n) == AppendTable(FilterTable(t, m), FilterTable(u, n))
  {
    CountAppend(m, n);
    var whole, parts := FilterTable(AppendTable(t, u), m + n), AppendTable(FilterTable(t, m), FilterTable(u, n));
    forall k | 0 <= k < |t.columns| ensures whole.columns[k] == parts.columns[k] {
      assert t.columns[k] in t.columns && u.columns[k] in u.columns;
      KeepAppend(t.columns[k].cells, u.columns[k].cells, m, n);
    }
    assert whole.columns == parts.columns;
  }

  lemma {:induction false} PickAppend(cs: seq<Column>, ds: seq<Column>, names: seq<FieldName>)
    requires |cs| == |ds|
    requires forall k | 0 <= k < |cs| :: cs[k].name == ds[k].name && cs[k].dtype == ds[k].dtype
    ensures var p, r := PickColumns(cs, names), PickColumns(ds, names);
            && |p| == |r|
            && (forall k | 0 <= k < |p| :: p[k].name == r[k].name && p[k].dtype == r[k].dtype)
            && PickColumns(AppendColumns(cs, ds), names) == AppendColumns(p, r)
  {
    if cs != [] {
      PickAppend(cs[1..], ds[1..], names);
      assert AppendColumns(cs, ds)[1..] == AppendColumns(cs[1..], ds[1..]);
    }
  }

  lemma {:induction false} ProjectAppend(t: Table, u: Table, names: seq<FieldName>)
    requires SameColumns(t, u)
    ensures SameColumns(Project(t, names), Project(u, names))
    ensures Project(AppendTable(t, u), names) == AppendTable(Project(t, names), Project(u, names))
  {
    PickAppend(t.columns, u.columns, names);
  }

  /** The hypotheses under which two neighbouring parts of a stream may be glued. */
  ghost predicate Neighbours(d: Data, e: Data, q: Query, block: BlockColumns) {
    && ValidData(d) && ValidData(e) && SameSchema(d, e)
    && BlockKeyed(Rules(q), block) && DisjointBlocks(Rules(q), block, d, e)
  }

  lemma {:induction false} TableInAppended(d: Data, e: Data, q: Query, block: BlockColumns, t: TableName)
    requires Neighbours(d, e, q, block) && t in d && t in q.fields
    ensures SameColumns(TableOutcome(d, q, t), TableOutcome(e, q, t))
    ensures TableOutcome(Append(d, e), q, t) == AppendTable(TableOutcome(d, q, t), TableOutcome(e, q, t))
  {
    AppendSplits(d, e);
    MaskInGlued(Append(d, e), d, e, Rules(q), block, t);
    ProjectAppend(d[t], e[t], q.fields[t]);
    FilterAppend(Project(d[t], q.fields[t]), Project(e[t], q.fields[t]),
                 TableMask(d, Rules(q), t), TableMask(e, Rules(q), t));
  }

  lemma {:induction false} OutcomeSchema(d: Data, e: Data, q: Query, block: BlockColumns)
    requires Neighbours(d, e, q, block) && Answers(d, q)
    ensures Answers(e, q) && SameSchema(Outcome(d, q).value, Outcome(e, q).value)
  {
    AnswersBySchema(d, e, q);
    var o, p := Outcome(d, q).value, Outcome(e, q).value;
    assert o.Keys == p.Keys;
    forall t | t in o ensures SameColumns(o[t], p[t]) {
      TableInAppended(d, e, q, block, t);
    }
  }

  lemma {:induction false} TwoChunks(d: Data, e: Data, q: Query, block: BlockColumns)
    requires Neighbours(d, e, q, block)
    ensures Outcome(Append(d, e), q) == Glue(Outcome(d, q), Outcome(e, q))
  {
    AnswersBySchema(d, e, q);
    AnswersBySchema(Append(d, e), d, q);
    if Answers(d, q) {
      OutcomeSchema(d, e, q, block);
      var out := Append(Outcome(d, q).value, Outcome(e, q).value);
      forall t | t in out ensures out[t] == TableOutcome(Append(d, e), q, t) {
        TableInAppended(d, e, q, block, t);
      }
      OutcomeIsUnique(Append(d, e), q, out);
    }
  }

  // -------- whole streams --------

  /** Valid chunks of one schema whose block ids are non-null and pairwise disjoint. */
  ghost predicate GoodStream(chunks: seq<Data>, rules: set<Rule>, block: BlockColumns) {
    && chunks != [] && OneSchema(chunks)
    && (forall i, j | 0 <= i < j < |chunks| :: DisjointBlocks(rules, block, chunks[i], chunks[j]))
  }

  lemma {:induction false} DisjointFromBoth(whole: Data, e: Data, f: Data, d: Data, rules: set<Rule>,
                                            block: BlockColumns)
    requires Split(whole, e, f) && DisjointBlocks(rules, block, d, e) && DisjointBlocks(rules, block, d, f)
    ensures DisjointBlocks(rules, block, d, whole)
  {
    forall t, u, r: nat, s: nat |
      Joined(rules, t) && Joined(rules, u) && r < TableOf(d, t).rows && s < TableOf(whole, u).rows
      ensures BlocksDiffer(TableOf(d, t), block(t), r, TableOf(whole, u), block(u), s)
    {
      var n := TableOf(e, u).rows;
      if s < n {
        assert BlocksDiffer(TableOf(d, t), block(t), r, TableOf(e, u), block(u), s);
        assert SameRow(TableOf(e, u), s, TableOf(whole, u), 0);
      } else {
        assert BlocksDiffer(TableOf(d, t), block(t), r, TableOf(f, u), block(u), s - n);
        assert SameRow(TableOf(f, u), s - n, TableOf(whole, u), n);
      }
    }
  }

  lemma {:induction false} DisjointFromRest(d: Data, rest: seq<Data>, rules: set<Rule>, block: BlockColumns)
    requires GoodStream(rest, rules, block)
    requires forall i | 0 <= i < |rest| :: DisjointBlocks(rules, block, d, rest[i])
    ensures DisjointBlocks(rules, block, d, AppendAll(rest))
  {
    if |rest| > 1 {
      assert forall i | 0 <= i < |rest[1..]| :: rest[1..][i] == rest[i + 1];
      DisjointFromRest(d, rest[1..], rules, block);
      AppendSplits(rest[0], AppendAll(rest[1..]));
      DisjointFromBoth(AppendAll(rest), rest[0], AppendAll(rest[1..]), d, rules, block);
    }
  }

  /** The per-chunk results of a stream, concatenated; a failed chunk fails the whole. */
  ghost function PerChunk(chunks: seq<Data>, q: Query): Result<Data>
    requires chunks != []
  {
    if |chunks| == 1 then Outcome(chunks[0], q)
    else Glue(Outcome(chunks[0], q), PerChunk(chunks[1..], q))
  }

  /** Streaming equals batch: for a query whose joins are keyed by block, running it on each chunk and
      concatenating is running it once on the concatenation, failures included. */
  lemma {:induction false} StreamingEqualsBatch(chunks: seq<Data>, q: Query, block: BlockColumns)
    requires BlockKeyed(Rules(q), block) && GoodStream(chunks, Rules(q), block)
    ensures PerChunk(chunks, q) == Outcome(AppendAll(chunks), q)
  {
    if |chunks| > 1 {
      var rest := chunks[1..];
      assert forall i | 0 <= i < |rest| :: rest[i] == chunks[i + 1];
      StreamingEqualsBatch(rest, q, block);
      DisjointFromRest(chunks[0], rest, Rules(q), block);
      TwoChunks(chunks[0], AppendAll(rest), q, block);
    }
  }

  /** One item of the stream: the query's answer on a chunk and the chunk's highest block id. */
  datatype StreamItem = StreamItem(data: Data, lastBlock: Option<int>)

  /** The item for what the provider sent: its error, or the chunk's outcome and last block. */
  ghost predicate ItemFor(arrived: Result<Data>, q: Query, item: Result<StreamItem>) {
    if arrived.Failure? then item.Failure?
    else
      && (item.Success? <==> Outcome(arrived.value, q).Success?)
      && (item.Success? ==> item.value.data == Outcome(arrived.value, q).value)
      && (item.Success? ==> IsLastBlock(arrived.value, item.value.lastBlock))
  }

  /** The stream's `then` step: the query on every chunk that arrives, in order. */
  method RunStream(arrived: seq<Result<Data>>, q: Query, hash: QueryEngine.ValueHash, keyHash: QueryEngine.KeyHash)
    returns (items: seq<Result<StreamItem>>)
    requires forall i | 0 <= i < |arrived| && arrived[i].Success? :: ValidData(arrived[i].value)
    ensures |items| == |arrived|
    ensures forall i | 0 <= i < |arrived| :: ItemFor(arrived[i], q, items[i])
  {
    items := [];
    for i := 0 to |arrived|
      invariant |items| == i
      invariant forall j | 0 <= j < i :: ItemFor(arrived[j], q, items[j])
    {
      var item: Result<StreamItem> := Failure;
      if arrived[i].Success? {
        var lastBlock := ExtractLastBlock(arrived[i].value);
        var data := QueryEngine.RunQuery(arrived[i].value, q, hash, keyHash);
        if data.Success? {
          item := Success(StreamItem(data.value, lastBlock));
        }
      }
      items := items + [item];
    }
  }
}
