/** Compiled queries mean what the requests ask: the rules select exactly the wanted rows. */
module RequestLaws {
  import opened Wrappers
  import opened Bytes
  import opened Tables
  import opened QuerySpec
  import opened Requests
  import opened Pruning
  import opened Streaming
  import opened Compile
  import opened QueryLaws

  lemma {:induction false} ListVerdict(t: Table, l: ColumnList, row: nat)
    ensures RowVerdict(t, ToFilter(l), row) == Some(InList(t, l, row))
  {
  }

  /** The cell is one of these byte strings. */
  predicate IsOneOf(c: Cell, blobs: seq<Blob>) {
    exists b | b in blobs :: c == Cell(true, Bytes(b))
  }

  /** What a list of byte strings, texts or numbers accepts, value by value. */
  lemma {:induction false} ValuesAreAccepted(t: Table, column: FieldName, blobs: seq<Blob>, numbers: seq<byte>,
                                             row: nat)
    ensures column != "data" ==>
              && (InList(t, Binaries(column, blobs), row) <==> IsOneOf(CellOf(t, column, row), blobs))
              && (InList(t, Strings(column, blobs), row) <==> IsOneOf(CellOf(t, column, row), blobs))
              && (InList(t, Numbers(column, numbers), row)
                  <==> exists n | n in numbers :: CellOf(t, column, row) == Cell(true, Int(n)))
    ensures InList(t, Binaries("data", blobs), row) <==>
              var c := CellOf(t, "data", row);
              c.valid && c.raw.Bytes? && exists b :: b in blobs && b <= c.raw.b
    ensures Binaries(column, blobs).values == [] <==> blobs == []
    ensures Strings(column, blobs).values == [] <==> blobs == []
    ensures Numbers(column, numbers).values == [] <==> numbers == []
  {
    ValuesListed(column, blobs, numbers);
    var c := CellOf(t, "data", row);
    var l := Binaries("data", blobs);
    if c.valid && c.raw.Bytes? {
      if b :| b in blobs && b <= c.raw.b {
        ValuesListed("data", blobs, []);
        assert Bytes(b) in l.values && IsPrefixOf(Bytes(b), c.raw);
      }
      if v :| v in l.values && IsPrefixOf(v, c.raw) {
        ValuesListed("data", blobs, []);
        assert v.b in blobs;
      }
    }
  }

  lemma {:induction false} ValuesListed(column: FieldName, blobs: seq<Blob>, numbers: seq<byte>)
    ensures forall v :: v in Binaries(column, blobs).values <==> v.Bytes? && v.b in blobs
    ensures forall v :: v in Strings(column, blobs).values <==> v.Bytes? && v.b in blobs
    ensures forall v :: v in Numbers(column, numbers).values <==> v.Int? && v.n in numbers
  {
    forall b | b in blobs
      ensures Bytes(b) in Binaries(column, blobs).values && Bytes(b) in Strings(column, blobs).values
    {
      var k :| 0 <= k < |blobs| && blobs[k] == b;
      assert Binaries(column, blobs).values[k] == Bytes(b) == Strings(column, blobs).values[k];
    }
    forall n | n in numbers ensures Int(n) in Numbers(column, numbers).values {
      var k :| 0 <= k < |numbers| && numbers[k] == n;
      assert Numbers(column, numbers).values[k] == Int(n);
    }
  }

  /** The compiled filters accept what the request's lists accept, and have no answer only where the
      request wants committed rows and the flag is null. */
  lemma {:induction false} FiltersAccept(t: Table, a: Ask, row: nat)
    ensures Passes(t, FiltersOf(a), row) <==> Accepts(t, a, row)
    ensures Undecided(t, FiltersOf(a), row) <==> a.committed && !CellOf(t, "is_committed", row).valid
  {
    var lists := ToFilters(a.lists);
    forall l | l in a.lists && l.values != []
      ensures ToFilter(l) in lists && RowVerdict(t, ToFilter(l), row) == Some(InList(t, l, row))
    {
      ListVerdict(t, l, row);
    }
    forall f | f in lists
      ensures exists l :: l in a.lists && l.values != [] && f == ToFilter(l)
                          && RowVerdict(t, f, row) == Some(InList(t, l, row))
    {
      var l :| l in a.lists && l.values != [] && f == ToFilter(l);
      ListVerdict(t, l, row);
    }
    assert forall f :: f in FiltersOf(a) <==> f in lists || (a.committed && f == COMMITTED);
    if a.committed {
      assert COMMITTED in FiltersOf(a);
    }
  }

  lemma {:induction false} RelatedIffKeysEqual(keys: Keys, l: Link, source: TableName, t: Table, s: nat, u: Table,
                                               row: nat)
    ensures Related(keys, l.relation, source, t, s, l.target, u, row)
       <==> KeyAt(t, JoinOf(keys, source, l).fieldNames, s) == KeyAt(u, JoinOf(keys, source, l).targetFieldNames, row)
  {
    var names, others := keys(source, l.relation), keys(l.target, l.relation);
    var mine, theirs := KeyAt(t, names, s), KeyAt(u, others, row);
    assert |mine| == |names| && |theirs| == |others|;
    forall k | 0 <= k < |names| && k < |others|
      ensures mine[k] == theirs[k] <==> SameCell(t, names[k], s, u, others[k], row)
    {
    }
    if mine == theirs {
      assert forall k | 0 <= k < |names| :: mine[k] == theirs[k];
    }
  }

  lemma {:induction false} LeadsIffJoins(data: Data, keys: Keys, a: Ask, r: Rule, l: Link, t: TableName, row: nat)
    requires CompilesTo(keys, a, r)
    ensures JoinsRow(data, r, JoinOf(keys, a.table, l), t, row) <==> LeadsTo(data, keys, a, l, t, row)
  {
    var inc := JoinOf(keys, a.table, l);
    forall s: nat
      ensures SeedAt(data, r.source, r.sel.filters, inc, s, row) <==> LeadsFrom(data, keys, a, l, s, row)
    {
      FiltersAccept(TableOf(data, a.table), a, s);
      RelatedIffKeysEqual(keys, l, a.table, TableOf(data, a.table), s, TableOf(data, l.target), row);
    }
  }

  lemma {:induction false} JoinsIffLinked(data: Data, keys: Keys, a: Ask, r: Rule, t: TableName, row: nat)
    requires CompilesTo(keys, a, r)
    ensures (exists inc | inc in r.sel.includes :: JoinsRow(data, r, inc, t, row))
       <==> (exists l | l in a.links :: LeadsTo(data, keys, a, l, t, row))
  {
    if inc :| inc in r.sel.includes && JoinsRow(data, r, inc, t, row) {
      var l :| l in a.links && inc == JoinOf(keys, a.table, l);
      LeadsIffJoins(data, keys, a, r, l, t, row);
    }
    if l :| l in a.links && LeadsTo(data, keys, a, l, t, row) {
      LeadsIffJoins(data, keys, a, r, l, t, row);
      assert JoinOf(keys, a.table, l) in r.sel.includes;
    }
  }

  lemma {:induction false} RuleSelectsWanted(data: Data, keys: Keys, a: Ask, r: Rule, t: TableName, row: nat)
    requires CompilesTo(keys, a, r)
    ensures SelectsRow(data, r, t, row) <==> AskWants(data, keys, a, t, row)
  {
    FiltersAccept(TableOf(data, a.table), a, row);
    JoinsIffLinked(data, keys, a, r, t, row);
  }

  lemma {:induction false} RuleBlursUnsettled(data: Data, keys: Keys, a: Ask, r: Rule, t: TableName, row: nat)
    requires CompilesTo(keys, a, r)
    ensures BlursRow(data, r, t, row) <==> AskUnsettled(data, a, t, row)
  {
    FiltersAccept(TableOf(data, a.table), a, row);
  }

  /** A compiled query selects a row iff some request accepts it, or some request's include flag leads
      to it from a row that request accepts. */
  lemma {:induction false} SelectedIffWanted(data: Data, keys: Keys, asks: seq<Ask>, rules: set<Rule>, t: TableName,
                                             row: nat)
    requires Implements(keys, asks, rules)
    ensures Selected(data, rules, t, row) <==> Wanted(data, keys, asks, t, row)
  {
    if r :| r in rules && SelectsRow(data, r, t, row) {
      assert HasAsk(keys, asks, r);
      var a :| a in asks && CompilesTo(keys, a, r);
      RuleSelectsWanted(data, keys, a, r, t, row);
    }
    if a :| a in asks && AskWants(data, keys, a, t, row) {
      assert HasRule(keys, a, rules);
      var r :| r in rules && CompilesTo(keys, a, r);
      RuleSelectsWanted(data, keys, a, r, t, row);
    }
  }

  lemma {:induction false} BlurredIffUnsettled(data: Data, keys: Keys, asks: seq<Ask>, rules: set<Rule>, t: TableName,
                                               row: nat)
    requires Implements(keys, asks, rules)
    ensures Blurred(data, rules, t, row) <==> Unsettled(data, asks, t, row)
  {
    if r :| r in rules && BlursRow(data, r, t, row) {
      assert HasAsk(keys, asks, r);
      var a :| a in asks && CompilesTo(keys, a, r);
      RuleBlursUnsettled(data, keys, a, r, t, row);
    }
    if a :| a in asks && AskUnsettled(data, a, t, row) {
      assert HasRule(keys, a, rules);
      var r :| r in rules && CompilesTo(keys, a, r);
      RuleBlursUnsettled(data, keys, a, r, t, row);
    }
  }

  // ---------------------------------------------------------------- reading the block column

  /** A link of the request starts or ends at this table. */
  predicate LinksTable(a: Ask, t: TableName) {
    exists l | l in a.links :: a.table == t || l.target == t
  }

  predicate Linked(asks: seq<Ask>, t: TableName) {
    exists a | a in asks :: LinksTable(a, t)
  }

  /** No list of the request, and no committed flag, is on the block column. */
  predicate AvoidsBlock(a: Ask, block: BlockColumns) {
    block(a.table) != "is_committed" && forall l | l in a.lists :: l.column != block(a.table)
  }

  ghost predicate AllAvoid(asks: seq<Ask>, block: BlockColumns) {
    forall a | a in asks :: AvoidsBlock(a, block)
  }

  lemma {:induction false} RuleReadsBlock(keys: Keys, a: Ask, r: Rule, t: TableName, block: BlockColumns)
    requires CompilesTo(keys, a, r) && AvoidsBlock(a, block) && BlockFirst(keys, block)
    ensures Reads(r, t, block(t)) <==> LinksTable(a, t)
  {
    assert !FiltersRead(r.source, r.sel.filters, t, block(t));
    forall l ensures IncludeReads(a.table, JoinOf(keys, a.table, l), t, block(t)) <==> a.table == t || l.target == t {
      assert keys(a.table, l.relation)[0] in keys(a.table, l.relation);
      assert keys(l.target, l.relation)[0] in keys(l.target, l.relation);
    }
    if inc :| inc in r.sel.includes && IncludeReads(r.source, inc, t, block(t)) {
      var l :| l in a.links && inc == JoinOf(keys, a.table, l);
      assert a.table == t || l.target == t;
    }
    if l :| l in a.links && (a.table == t || l.target == t) {
      assert JoinOf(keys, a.table, l) in r.sel.includes;
    }
  }

  /** Evaluating a compiled query looks at the block column of exactly the linked tables. */
  lemma {:induction false} ReadsBlockIffLinked(keys: Keys, asks: seq<Ask>, rules: set<Rule>, t: TableName,
                                               block: BlockColumns)
    requires Implements(keys, asks, rules) && BlockFirst(keys, block)
    requires AllAvoid(asks, block)
    ensures AnyReads(rules, t, block(t)) <==> Linked(asks, t)
  {
    if r :| r in rules && Reads(r, t, block(t)) {
      assert HasAsk(keys, asks, r);
      var a :| a in asks && CompilesTo(keys, a, r);
      RuleReadsBlock(keys, a, r, t, block);
    }
    if a :| a in asks && LinksTable(a, t) {
      assert HasRule(keys, a, rules);
      var r :| r in rules && CompilesTo(keys, a, r);
      RuleReadsBlock(keys, a, r, t, block);
    }
  }

  lemma {:induction false} AsksAvoidBlock<R>(requests: seq<R>, ask: R -> Ask, block: BlockColumns)
    requires forall r :: AvoidsBlock(ask(r), block)
    ensures AllAvoid(AsksOf(requests, ask), block)
  {
  }

  lemma {:induction false} BothAvoid(some: seq<Ask>, others: seq<Ask>, block: BlockColumns)
    requires AllAvoid(some, block) && AllAvoid(others, block)
    ensures AllAvoid(some + others, block)
  {
  }

  lemma {:induction false} EvmTransactionsAvoidBlock(requests: seq<EvmTransactionRequest>)
    ensures AllAvoid(AsksOf(requests, EvmTransactionAsk), EvmBlockColumn)
  {
    AsksAvoidBlock(requests, EvmTransactionAsk, EvmBlockColumn);
  }

  lemma {:induction false} EvmTracesAvoidBlock(requests: seq<EvmTraceRequest>)
    ensures AllAvoid(AsksOf(requests, EvmTraceAsk), EvmBlockColumn)
  {
    AsksAvoidBlock(requests, EvmTraceAsk, EvmBlockColumn);
  }

  lemma {:induction false} EvmLogsAvoidBlock(requests: seq<EvmLogRequest>)
    ensures AllAvoid(AsksOf(requests, EvmLogAsk), EvmBlockColumn)
  {
    AsksAvoidBlock(requests, EvmLogAsk, EvmBlockColumn);
  }

  lemma {:induction false} EvmListsAvoidBlock(q: EvmQuery)
    ensures AllAvoid(EvmAsks(q), EvmBlockColumn)
  {
    var tx, tr, lg := AsksOf(q.transactions, EvmTransactionAsk), AsksOf(q.traces, EvmTraceAsk),
      AsksOf(q.logs, EvmLogAsk);
    EvmTransactionsAvoidBlock(q.transactions);
    EvmTracesAvoidBlock(q.traces);
    EvmLogsAvoidBlock(q.logs);
    BothAvoid(tx, tr, EvmBlockColumn);
    BothAvoid(tx + tr, lg, EvmBlockColumn);
    BothAvoid(tx + tr + lg, AllBlocks(q.includeAllBlocks), EvmBlockColumn);
  }

  // ---------------------------------------------------------------- what the caller receives

  /** The cells at these rows, in this order. */
  function CellsAt(cells: seq<Cell>, rows: seq<nat>): seq<Cell> {
    seq(|rows|, k requires 0 <= k < |rows| => if rows[k] < |cells| then cells[rows[k]] else Cell(false, Blob(0)))
  }

  function RowsAt(t: Table, rows: seq<nat>): Table {
    Table(|rows|, seq(|t.columns|, c requires 0 <= c < |t.columns| =>
      t.columns[c].(cells := CellsAt(t.columns[c].cells, rows))))
  }

  /** The row is wanted and no request that wants committed rows is left without an answer on it. */
  ghost predicate Due(data: Data, keys: Keys, asks: seq<Ask>, t: TableName, row: nat) {
    Wanted(data, keys, asks, t, row) && !Unsettled(data, asks, t, row)
  }

  /** These are the rows of t that are due, in the order of the table. */
  ghost predicate DueRows(data: Data, keys: Keys, asks: seq<Ask>, t: TableName, rows: seq<nat>) {
    && Ascending(rows)
    && forall r: nat :: r in rows <==> r < TableOf(data, t).rows && Due(data, keys, asks, t, r)
  }

  /** The output table holds the requested columns of exactly the rows that are due. */
  ghost predicate Delivers(data: Data, keys: Keys, asks: seq<Ask>, t: TableName, names: seq<FieldName>, out: Table) {
    exists rows | DueRows(data, keys, asks, t, rows) :: out == RowsAt(Project(TableOf(data, t), names), rows)
  }

  lemma {:induction false} SurvivorsAreDue(data: Data, q: Query, keys: Keys, asks: seq<Ask>, t: TableName)
    requires Implements(keys, asks, Rules(q))
    ensures DueRows(data, keys, asks, t, Survivors(data, q, t))
  {
    SurvivingRows(data, q, t);
    forall r: nat
      ensures Selected(data, Rules(q), t, r) && !Blurred(data, Rules(q), t, r) <==> Due(data, keys, asks, t, r)
    {
      SelectedIffWanted(data, keys, asks, Rules(q), t, r);
      BlurredIffUnsettled(data, keys, asks, Rules(q), t, r);
    }
  }

  lemma {:induction false} KeptCells(cells: seq<Cell>, m: Mask)
    requires |cells| == |m|
    ensures Keep(cells, m) == CellsAt(cells, Positions(m, 0))
  {
    KeepAtPositions(cells, m, 0);
  }

  lemma {:induction false} FilteredRows(t: Table, m: Mask)
    requires ValidTable(t) && |m| == t.rows
    ensures FilterTable(t, m) == RowsAt(t, Positions(m, 0))
  {
    PositionsAscend(m, 0);
    var kept, gathered := FilterTable(t, m), RowsAt(t, Positions(m, 0));
    forall c | 0 <= c < |t.columns| ensures kept.columns[c] == gathered.columns[c] {
      assert t.columns[c] in t.columns;
      KeptCells(t.columns[c].cells, m);
    }
    assert kept.columns == gathered.columns;
  }

  /** Every output table of a compiled query holds the requested columns of exactly the rows the
      requests ask for, in order. */
  lemma {:induction false} OutcomeDelivers(data: Data, q: Query, keys: Keys, asks: seq<Ask>, t: TableName)
    requires ValidData(data) && Implements(keys, asks, Rules(q)) && t in q.fields
    ensures Delivers(data, keys, asks, t, q.fields[t], TableOutcome(data, q, t))
  {
    SurvivorsAreDue(data, q, keys, asks, t);
    assert ValidTable(TableOf(data, t));
    FilteredRows(Project(TableOf(data, t), q.fields[t]), TableMask(data, Rules(q), t));
  }

  lemma {:induction false} UnsettledAsks<R>(requests: seq<R>, ask: R -> Ask, data: Data, t: TableName, row: nat)
    ensures Unsettled(data, AsksOf(requests, ask), t, row)
       <==> exists r | r in requests :: AskUnsettled(data, ask(r), t, row)
  {
    var asks := AsksOf(requests, ask);
    if a :| a in asks && AskUnsettled(data, a, t, row) {
      var k :| 0 <= k < |requests| && asks[k] == a;
      assert requests[k] in requests && AskUnsettled(data, ask(requests[k]), t, row);
    }
    if r :| r in requests && AskUnsettled(data, ask(r), t, row) {
      var k :| 0 <= k < |requests| && requests[k] == r;
      assert asks[k] in asks;
    }
  }

  lemma {:induction false} UnsettledByEither(some: seq<Ask>, others: seq<Ask>, data: Data, t: TableName, row: nat)
    ensures Unsettled(data, some + others, t, row) <==> Unsettled(data, some, t, row) || Unsettled(data, others, t, row)
  {
    var all := some + others;
    if a :| a in some && AskUnsettled(data, a, t, row) {
      assert a in all;
    }
    if a :| a in others && AskUnsettled(data, a, t, row) {
      assert a in all;
    }
  }

  /** EVM requests leave nothing unsettled: exactly the wanted rows are due. */
  lemma {:induction false} EvmSettled(q: EvmQuery, data: Data, t: TableName, row: nat)
    ensures !Unsettled(data, EvmAsks(q), t, row)
  {
    var tx, tr, lg := AsksOf(q.transactions, EvmTransactionAsk), AsksOf(q.traces, EvmTraceAsk),
      AsksOf(q.logs, EvmLogAsk);
    UnsettledAsks(q.transactions, EvmTransactionAsk, data, t, row);
    UnsettledAsks(q.traces, EvmTraceAsk, data, t, row);
    UnsettledAsks(q.logs, EvmLogAsk, data, t, row);
    UnsettledByEither(tx, tr, data, t, row);
    UnsettledByEither(tx + tr, lg, data, t, row);
    UnsettledByEither(tx + tr + lg, AllBlocks(q.includeAllBlocks), data, t, row);
  }

  /** Of the Solana requests, only those for committed instructions can be left unsettled. */
  lemma {:induction false} SvmUnsettledIff(q: SvmQuery, data: Data, t: TableName, row: nat)
    ensures Unsettled(data, SvmAsks(q), t, row) <==>
              && t == Instructions && (exists r | r in q.instructions :: r.isCommitted)
              && !CellOf(TableOf(data, Instructions), "is_committed", row).valid
  {
    var i, x, l := AsksOf(q.instructions, SvmInstructionAsk), AsksOf(q.transactions, SvmTransactionAsk),
      AsksOf(q.logs, SvmLogAsk);
    var b, tb, w := AsksOf(q.balances, SvmBalanceAsk), AsksOf(q.tokenBalances, SvmTokenBalanceAsk),
      AsksOf(q.rewards, SvmRewardAsk);
    UnsettledAsks(q.instructions, SvmInstructionAsk, data, t, row);
    UnsettledAsks(q.transactions, SvmTransactionAsk, data, t, row);
    UnsettledAsks(q.logs, SvmLogAsk, data, t, row);
    UnsettledAsks(q.balances, SvmBalanceAsk, data, t, row);
    UnsettledAsks(q.tokenBalances, SvmTokenBalanceAsk, data, t, row);
    UnsettledAsks(q.rewards, SvmRewardAsk, data, t, row);
    UnsettledByEither(i, x, data, t, row);
    UnsettledByEither(i + x, l, data, t, row);
    UnsettledByEither(i + x + l, b, data, t, row);
    UnsettledByEither(i + x + l + b, tb, data, t, row);
    UnsettledByEither(i + x + l + b + tb, w, data, t, row);
    UnsettledByEither(i + x + l + b + tb + w, AllBlocks(q.includeAllBlocks), data, t, row);
  }

  lemma {:induction false} OfInstruction(q: SvmQuery, r: SvmInstructionRequest)
    requires r in q.instructions
    ensures SvmInstructionAsk(r) in SvmAsks(q)
  {
    var k :| 0 <= k < |q.instructions| && q.instructions[k] == r;
    assert AsksOf(q.instructions, SvmInstructionAsk)[k] == SvmInstructionAsk(r);
  }

  lemma {:induction false} WantedByLink(data: Data, keys: Keys, asks: seq<Ask>, a: Ask, l: Link, s: nat, row: nat)
    requires a in asks && l in a.links && LeadsFrom(data, keys, a, l, s, row)
    ensures Wanted(data, keys, asks, l.target, row)
  {
    assert LeadsTo(data, keys, a, l, l.target, row);
    assert AskWants(data, keys, a, l.target, row);
  }

  predicate SameAddressRows(t: Table, s: nat, row: nat) {
    && SameCell(t, "block_slot", s, t, "block_slot", row)
    && SameCell(t, "instruction_address", s, t, "instruction_address", row)
  }

  lemma {:induction false} AddressLeads(data: Data, a: Ask, s: nat, row: nat)
    requires var t := TableOf(data, Instructions); s < t.rows && Accepts(t, a, s) && SameAddressRows(t, s, row)
    requires a.table == Instructions
    ensures LeadsFrom(data, SvmKeys, a, Link(Instructions, SameAddress), s, row)
  {
  }

  /** `include_logs` brings in every instruction of the same slot and address, in whatever transaction. */
  lemma {:induction false} IncludeLogsBringsAddress(q: SvmQuery, a: Ask, r: SvmInstructionRequest, data: Data, s: nat,
                                                    row: nat)
    requires a == SvmInstructionAsk(r) && r in q.instructions && r.includeLogs
    requires var t := TableOf(data, Instructions); s < t.rows && Accepts(t, a, s) && SameAddressRows(t, s, row)
    ensures Wanted(data, SvmKeys, SvmAsks(q), Instructions, row)
  {
    var asks := SvmAsks(q);
    OfInstruction(q, r);
    LogsLinkAddress(r);
    AddressLeads(data, a, s, row);
    WantedByLink(data, SvmKeys, asks, a, Link(Instructions, SameAddress), s, row);
  }

  lemma {:induction false} LogsLinkAddress(r: SvmInstructionRequest)
    requires r.includeLogs
    ensures Link(Instructions, SameAddress) in SvmInstructionLinks(r)
  {
    assert Link(Instructions, SameAddress) in When(r.includeLogs, Instructions, SameAddress);
  }

  /** The request for program [1] with its logs. */
  function LogsOfProgram(): SvmInstructionRequest {
    SvmInstructionRequest([[1]], [], [], [], [], [], [], [], [], [], [], [], [], [], [], [], [],
                          false, false, false, true, false, false)
  }

  lemma {:induction false} NoValues()
    ensures forall column :: Binaries(column, []).values == []
  {
  }

  /** All lists but the first are empty. */
  lemma {:induction false} OnlyFirstList(lists: seq<ColumnList>)
    requires lists == SvmInstructionLists(LogsOfProgram())
    ensures forall l | l in lists && l.values != [] :: l == lists[0]
  {
    NoValues();
    forall k | 0 < k < |lists| ensures lists[k].values == [] {
    }
  }

  lemma {:induction false} OnlyProgramId(t: Table, a: Ask, row: nat)
    requires a == SvmInstructionAsk(LogsOfProgram())
    requires CellOf(t, "program_id", row) == Cell(true, Bytes([1]))
    ensures Accepts(t, a, row)
  {
    OnlyFirstList(a.lists);
    assert a.lists[0] == Binaries("program_id", [[1]]);
    assert a.lists[0].values[0] == Bytes([1]);
  }

  /** A column is found under its name when no earlier column has it. */
  lemma {:induction false} FindAt(columns: seq<Column>, k: nat)
    requires k < |columns| && forall j | 0 <= j < k :: columns[j].name != columns[k].name
    ensures Find(columns, columns[k].name) == Some(columns[k])
  {
    if k > 0 {
      FindAt(columns[1..], k - 1);
    }
  }

  /** The instructions table of a slot with these columns. */
  predicate TwoInstructions(t: Table) {
    && t.rows == 2 && ValidTable(t)
    && CellOf(t, "program_id", 0) == Cell(true, Bytes([1])) && CellOf(t, "program_id", 1) == Cell(true, Bytes([2]))
    && SameAddressRows(t, 0, 1) && !SameCell(t, "transaction_index", 0, t, "transaction_index", 1)
  }

  lemma {:induction false} SomeTwoInstructions() returns (t: Table)
    ensures TwoInstructions(t)
  {
    var slot := Column("block_slot", Integer(64, false), [Cell(true, Int(7)), Cell(true, Int(7))]);
    var tx := Column("transaction_index", Integer(32, false), [Cell(true, Int(0)), Cell(true, Int(1))]);
    var address := Column("instruction_address", Opaque(0, true), [Cell(true, Blob(0)), Cell(true, Blob(0))]);
    var program := Column("program_id", Binary, [Cell(true, Bytes([1])), Cell(true, Bytes([2]))]);
    t := Table(2, [slot, tx, address, program]);
    FindAt(t.columns, 0);
    FindAt(t.columns, 1);
    FindAt(t.columns, 2);
    FindAt(t.columns, 3);
  }

  /** Two instructions of different programs and transactions: the request names the first program and
      asks for its logs, and gets the second instruction too. */
  lemma {:induction false} IncludeLogsCrossesTransactions(q: SvmQuery) returns (data: Data)
    requires q.instructions == [LogsOfProgram()]
    ensures Instructions in data && TwoInstructions(data[Instructions])
    ensures Wanted(data, SvmKeys, SvmAsks(q), Instructions, 1)
  {
    var t := SomeTwoInstructions();
    data := map[Instructions := t];
    OnlyProgramId(t, SvmInstructionAsk(LogsOfProgram()), 0);
    assert q.instructions[0] in q.instructions;
    IncludeLogsBringsAddress(q, SvmInstructionAsk(LogsOfProgram()), LogsOfProgram(), data, 0, 1);
  }
}
