/** The query compilers: EVM and Solana requests become the generic query run on every chunk. */
module Compile {
  import opened Wrappers
  import opened Tables
  import opened QuerySpec
  import opened Requests
  import opened Streaming
  import opened Pruning

  // ---------------------------------------------------------------- what a compiled query must be

  /** The `filter_map` of every selection: non-empty lists become membership filters, the `data`
      list (present only in instruction requests) a prefix filter. */
  function ToFilters(lists: seq<ColumnList>): (r: seq<NamedFilter>)
    ensures forall f :: f in r <==>
              exists l :: l in lists && l.values != [] && f == ToFilter(l)
  {
    if lists == [] then []
    else (if lists[0].values == [] then [] else [ToFilter(lists[0])]) + ToFilters(lists[1..])
  }

  function ToFilter(l: ColumnList): NamedFilter {
    NamedFilter(l.column, if l.column == "data" then StartsWith(l.dtype, l.values) else ContainsAny(l.dtype, l.values))
  }

  const COMMITTED: NamedFilter := NamedFilter("is_committed", BoolEq(true))

  function FiltersOf(a: Ask): seq<NamedFilter> {
    ToFilters(a.lists) + if a.committed then [COMMITTED] else []
  }

  /** The join a link stands for. */
  function JoinOf(keys: Keys, source: TableName, l: Link): Include {
    Include(l.target, keys(source, l.relation), keys(l.target, l.relation))
  }

  /** The joins of these links, key columns included, and no others. */
  ghost predicate JoinsExactly(keys: Keys, source: TableName, links: set<Link>, includes: seq<Include>) {
    forall inc :: inc in includes <==> exists l | l in links :: inc == JoinOf(keys, source, l)
  }

  ghost predicate Compiles(keys: Keys, a: Ask, sel: TableSelection) {
    sel.filters == FiltersOf(a) && JoinsExactly(keys, a.table, a.links, sel.includes)
  }

  ghost predicate CompilesTo(keys: Keys, a: Ask, r: Rule) {
    r.source == a.table && Compiles(keys, a, r.sel)
  }

  ghost predicate HasRule(keys: Keys, a: Ask, rules: set<Rule>) {
    exists r | r in rules :: CompilesTo(keys, a, r)
  }

  ghost predicate HasAsk(keys: Keys, asks: seq<Ask>, r: Rule) {
    exists a | a in asks :: CompilesTo(keys, a, r)
  }

  /** Every request has its rule, and every rule is that of a request. */
  ghost predicate Implements(keys: Keys, asks: seq<Ask>, rules: set<Rule>) {
    && (forall a | a in asks :: HasRule(keys, a, rules))
    && (forall r | r in rules :: HasAsk(keys, asks, r))
  }

  /** The selections of one table, compiled in order. */
  ghost predicate CompiledList(keys: Keys, t: TableName, asks: seq<Ask>, sels: seq<TableSelection>) {
    && |sels| == |asks|
    && forall k | 0 <= k < |asks| :: asks[k].table == t && Compiles(keys, asks[k], sels[k])
  }

  lemma {:induction false} RulesOfNext(q: Query, t: TableName, sels: seq<TableSelection>)
    ensures Rules(Query(q.selection + [TableRules(t, sels)], q.fields))
         == Rules(q) + set k | 0 <= k < |sels| :: Rule(t, sels[k])
  {
    var next := Query(q.selection + [TableRules(t, sels)], q.fields);
    var a, own := |q.selection|, Query([TableRules(t, sels[..|sels|])], q.fields);
    assert sels[..|sels|] == sels && next.selection[..a] == q.selection;
    RulesOfNextTable(next, a);
    forall k | 0 <= k < |sels| ensures Rule(t, sels[k]) in Rules(own) {
      assert Rule(t, sels[k]) == Rule(own.selection[0].table, own.selection[0].selections[k]);
    }
  }

  lemma {:induction false} ImplementsBoth(keys: Keys, asks: seq<Ask>, rules: set<Rule>, t: TableName, more: seq<Ask>,
                                          sels: seq<TableSelection>, all: set<Rule>)
    requires Implements(keys, asks, rules) && CompiledList(keys, t, more, sels)
    requires all == rules + set k | 0 <= k < |sels| :: Rule(t, sels[k])
    ensures Implements(keys, asks + more, all)
  {
    forall x | x in asks + more ensures HasRule(keys, x, all) {
      if x in asks {
        assert HasRule(keys, x, rules);
        var r :| r in rules && CompilesTo(keys, x, r);
        assert r in all;
      } else {
        var k :| 0 <= k < |more| && more[k] == x;
        assert Rule(t, sels[k]) in all && CompilesTo(keys, x, Rule(t, sels[k]));
      }
    }
    forall r | r in all ensures HasAsk(keys, asks + more, r) {
      if r in rules {
        assert HasAsk(keys, asks, r);
        var x :| x in asks && CompilesTo(keys, x, r);
        assert x in asks + more;
      } else {
        var k :| 0 <= k < |sels| && r == Rule(t, sels[k]);
        assert more[k] in asks + more && CompilesTo(keys, more[k], r);
      }
    }
  }

  /** `selection.insert(table, selections)` */
  method Insert(selection: seq<TableRules>, t: TableName, sels: seq<TableSelection>, ghost keys: Keys,
                ghost fields: Fields, ghost asks: seq<Ask>, ghost own: seq<Ask>)
    returns (next: seq<TableRules>, ghost all: seq<Ask>)
    requires Implements(keys, asks, Rules(Query(selection, fields))) && CompiledList(keys, t, own, sels)
    ensures next == selection + [TableRules(t, sels)] && all == asks + own
    ensures Implements(keys, all, Rules(Query(next, fields)))
  {
    next := selection + [TableRules(t, sels)];
    all := asks + own;
    RulesOfNext(Query(selection, fields), t, sels);
    ImplementsBoth(keys, asks, Rules(Query(selection, fields)), t, own, sels, Rules(Query(next, fields)));
  }

  lemma {:induction false} NothingYet(keys: Keys, fields: Fields)
    ensures Implements(keys, [], Rules(Query([], fields)))
  {
  }

  lemma {:induction false} MentionsIffReaches(keys: Keys, a: Ask, r: Rule, t: TableName)
    requires CompilesTo(keys, a, r)
    ensures Mentions(r, t) <==> AskReaches(a, t)
  {
    if inc :| inc in r.sel.includes && inc.target == t {
      var l :| l in a.links && inc == JoinOf(keys, a.table, l);
      assert l.target == t;
    }
    if l :| l in a.links && l.target == t {
      assert JoinOf(keys, a.table, l) in r.sel.includes;
    }
  }

  /** The rules touch exactly the tables the requests reach. */
  lemma {:induction false} TouchedIffReached(keys: Keys, asks: seq<Ask>, rules: set<Rule>, t: TableName)
    requires Implements(keys, asks, rules)
    ensures Touched(rules, t) <==> Reached(asks, t)
  {
    if r :| r in rules && Mentions(r, t) {
      assert HasAsk(keys, asks, r);
      var a :| a in asks && CompilesTo(keys, a, r);
      MentionsIffReaches(keys, a, r, t);
    }
    if a :| a in asks && AskReaches(a, t) {
      assert HasRule(keys, a, rules);
      var r :| r in rules && CompilesTo(keys, a, r);
      MentionsIffReaches(keys, a, r, t);
    }
  }

  /** Relations of every kind start with the block. */
  ghost predicate BlockFirst(keys: Keys, block: BlockColumns) {
    forall t, rel :: keys(t, rel) != [] && keys(t, rel)[0] == block(t)
  }

  lemma {:induction false} ImplementedIsKeyed(keys: Keys, asks: seq<Ask>, rules: set<Rule>, block: BlockColumns)
    requires Implements(keys, asks, rules) && BlockFirst(keys, block)
    ensures BlockKeyed(rules, block)
  {
    forall r, inc | r in rules && inc in r.sel.includes ensures KeyedByBlock(r.source, inc, block) {
      var a :| a in asks && CompilesTo(keys, a, r);
      var l :| l in a.links && inc == JoinOf(keys, a.table, l);
    }
  }

  /** `if flag { include.push(inc) }` */
  method PushIf(flag: bool, includes: seq<Include>, inc: Include, ghost keys: Keys, ghost source: TableName,
                ghost links: set<Link>, ghost l: Link)
    returns (out: seq<Include>, ghost pushed: set<Link>)
    requires JoinsExactly(keys, source, links, includes) && inc == JoinOf(keys, source, l)
    ensures pushed == links + When(flag, l.target, l.relation)
    ensures JoinsExactly(keys, source, pushed, out)
  {
    out := includes;
    pushed := links + When(flag, l.target, l.relation);
    if flag {
      out := out + [inc];
      assert pushed == links + {l};
    } else {
      assert pushed == links;
    }
  }

  // ---------------------------------------------------------------- EVM

  method EvmTransactionSelection(r: EvmTransactionRequest) returns (sel: TableSelection)
    ensures Compiles(EvmKeys, EvmTransactionAsk(r), sel)
  {
    var txKey := ["block_number", "transaction_index"];
    var traceKey := ["block_number", "transaction_position"];
    var inc: seq<Include> := [];
    ghost var k, t := EvmKeys, Transactions;
    ghost var ls: set<Link> := {};
    inc, ls := PushIf(r.includeLogs, inc, Include(Logs, txKey, txKey), k, t, ls, Link(Logs, SameTransaction));
    inc, ls := PushIf(r.includeTraces, inc, Include(Traces, txKey, traceKey), k, t, ls, Link(Traces, SameTransaction));
    inc, ls := PushIf(r.includeBlocks, inc, Include(Blocks, ["block_number"], ["number"]), k, t, ls,
                      Link(Blocks, SameBlock));
    assert ls == EvmTransactionAsk(r).links;
    var filters := ToFilters(
      [Binaries("from", r.from), Binaries("to", r.to), Binaries("sighash", r.sighash), Numbers("status", r.status),
       Numbers("type", r.kind), Binaries("contract_deployment_address", r.contractDeploymentAddress),
       Binaries("hash", r.hash)]);
    return TableSelection(filters, inc);
  }

  method EvmTraceJoins(r: EvmTraceRequest) returns (inc: seq<Include>)
    ensures JoinsExactly(EvmKeys, Traces, EvmTraceAsk(r).links, inc)
  {
    var txKey := ["block_number", "transaction_index"];
    var traceKey := ["block_number", "transaction_position"];
    inc := [];
    ghost var k, t := EvmKeys, Traces;
    ghost var ls: set<Link> := {};
    inc, ls := PushIf(r.includeTransactionLogs, inc, Include(Logs, traceKey, txKey), k, t, ls,
                      Link(Logs, SameTransaction));
    inc, ls := PushIf(r.includeTransactionTraces, inc, Include(Traces, traceKey, traceKey), k, t, ls,
                      Link(Traces, SameTransaction));
    inc, ls := PushIf(r.includeTransactions, inc, Include(Transactions, traceKey, txKey), k, t, ls,
                      Link(Transactions, SameTransaction));
    inc, ls := PushIf(r.includeBlocks, inc, Include(Blocks, ["block_number"], ["number"]), k, t, ls,
                      Link(Blocks, SameBlock));
    assert ls == EvmTraceAsk(r).links;
  }

  method EvmTraceSelection(r: EvmTraceRequest) returns (sel: TableSelection)
    ensures Compiles(EvmKeys, EvmTraceAsk(r), sel)
  {
    var inc := EvmTraceJoins(r);
    var filters := ToFilters(
      [Binaries("from", r.from), Binaries("to", r.to), Binaries("address", r.address), Strings("call_type", r.callType),
       Strings("reward_type", r.rewardType), Strings("type", r.kind), Binaries("sighash", r.sighash),
       Binaries("author", r.author)]);
    return TableSelection(filters, inc);
  }

  method EvmLogSelection(r: EvmLogRequest) returns (sel: TableSelection)
    ensures Compiles(EvmKeys, EvmLogAsk(r), sel)
  {
    var txKey := ["block_number", "transaction_index"];
    var traceKey := ["block_number", "transaction_position"];
    var inc: seq<Include> := [];
    ghost var k, t := EvmKeys, Logs;
    ghost var ls: set<Link> := {};
    inc, ls := PushIf(r.includeTransactionLogs, inc, Include(Logs, txKey, txKey), k, t, ls,
                      Link(Logs, SameTransaction));
    inc, ls := PushIf(r.includeTransactions, inc, Include(Transactions, txKey, txKey), k, t, ls,
                      Link(Transactions, SameTransaction));
    inc, ls := PushIf(r.includeTransactionTraces, inc, Include(Traces, txKey, traceKey), k, t, ls,
                      Link(Traces, SameTransaction));
    inc, ls := PushIf(r.includeBlocks, inc, Include(Blocks, ["block_number"], ["number"]), k, t, ls,
                      Link(Blocks, SameBlock));
    assert ls == EvmLogAsk(r).links;
    var filters := ToFilters(
      [Binaries("address", r.address), Binaries("topic0", r.topic0), Binaries("topic1", r.topic1),
       Binaries("topic2", r.topic2), Binaries("topic3", r.topic3)]);
    return TableSelection(filters, inc);
  }

  method EvmTransactionRules(requests: seq<EvmTransactionRequest>) returns (sels: seq<TableSelection>)
    ensures CompiledList(EvmKeys, Transactions, AsksOf(requests, EvmTransactionAsk), sels)
  {
    sels := [];
    for k := 0 to |requests|
      invariant |sels| == k
      invariant forall j | 0 <= j < k :: Compiles(EvmKeys, EvmTransactionAsk(requests[j]), sels[j])
    {
      var sel := EvmTransactionSelection(requests[k]);
      sels := sels + [sel];
    }
  }

  method EvmTraceRules(requests: seq<EvmTraceRequest>) returns (sels: seq<TableSelection>)
    ensures CompiledList(EvmKeys, Traces, AsksOf(requests, EvmTraceAsk), sels)
  {
    sels := [];
    for k := 0 to |requests|
      invariant |sels| == k
      invariant forall j | 0 <= j < k :: Compiles(EvmKeys, EvmTraceAsk(requests[j]), sels[j])
    {
      var sel := EvmTraceSelection(requests[k]);
      sels := sels + [sel];
    }
  }

  method EvmLogRules(requests: seq<EvmLogRequest>) returns (sels: seq<TableSelection>)
    ensures CompiledList(EvmKeys, Logs, AsksOf(requests, EvmLogAsk), sels)
  {
    sels := [];
    for k := 0 to |requests|
      invariant |sels| == k
      invariant forall j | 0 <= j < k :: Compiles(EvmKeys, EvmLogAsk(requests[j]), sels[j])
    {
      var sel := EvmLogSelection(requests[k]);
      sels := sels + [sel];
    }
  }

  /** The selection map, built by inserts. */
  method EvmSelection(q: EvmQuery, ghost fields: Fields) returns (selection: seq<TableRules>)
    ensures Implements(EvmKeys, EvmAsks(q), Rules(Query(selection, fields)))
  {
    selection := [];
    NothingYet(EvmKeys, fields);
    ghost var asks: seq<Ask> := [];
    var sels := EvmTransactionRules(q.transactions);
    selection, asks := Insert(selection, Transactions, sels, EvmKeys, fields, asks,
                              AsksOf(q.transactions, EvmTransactionAsk));
    assert asks == AsksOf(q.transactions, EvmTransactionAsk);
    sels := EvmTraceRules(q.traces);
    selection, asks := Insert(selection, Traces, sels, EvmKeys, fields, asks,
                              AsksOf(q.traces, EvmTraceAsk));
    sels := EvmLogRules(q.logs);
    selection, asks := Insert(selection, Logs, sels, EvmKeys, fields, asks,
                              AsksOf(q.logs, EvmLogAsk));
    if q.includeAllBlocks {
      selection, asks := Insert(selection, Blocks, [TableSelection([], [])], EvmKeys, fields, asks, AllBlocks(true));
    }
  }

  lemma {:induction false} AsksOfReach<R>(requests: seq<R>, ask: R -> Ask, t: TableName)
    ensures Reached(AsksOf(requests, ask), t) <==> exists r | r in requests :: AskReaches(ask(r), t)
  {
    var asks := AsksOf(requests, ask);
    if a :| a in asks && AskReaches(a, t) {
      var k :| 0 <= k < |requests| && asks[k] == a;
      assert requests[k] in requests && AskReaches(ask(requests[k]), t);
    }
    if r :| r in requests && AskReaches(ask(r), t) {
      var k :| 0 <= k < |requests| && requests[k] == r;
      assert asks[k] in asks;
    }
  }

  lemma {:induction false} ReachedByEither(some: seq<Ask>, others: seq<Ask>, t: TableName)
    ensures Reached(some + others, t) <==> Reached(some, t) || Reached(others, t)
  {
    var all := some + others;
    if a :| a in all && AskReaches(a, t) {
      assert a in some || a in others;
    }
    if a :| a in some && AskReaches(a, t) {
      assert a in all;
    }
    if a :| a in others && AskReaches(a, t) {
      assert a in all;
    }
  }

  lemma {:induction false} AllBlocksReach(flag: bool, t: TableName)
    ensures Reached(AllBlocks(flag), t) <==> t == Blocks && flag
  {
    if flag && t == Blocks {
      assert AllBlocks(flag)[0] in AllBlocks(flag) && AskReaches(AllBlocks(flag)[0], t);
    }
  }

  /** What an EVM query reaches, request kind by request kind. */
  lemma {:induction false} EvmReached(q: EvmQuery, t: TableName)
    ensures Reached(EvmAsks(q), t) <==>
              || (exists r | r in q.transactions :: AskReaches(EvmTransactionAsk(r), t))
              || (exists r | r in q.traces :: AskReaches(EvmTraceAsk(r), t))
              || (exists r | r in q.logs :: AskReaches(EvmLogAsk(r), t))
              || (t == Blocks && q.includeAllBlocks)
  {
    var tx, tr, lg := AsksOf(q.transactions, EvmTransactionAsk), AsksOf(q.traces, EvmTraceAsk),
      AsksOf(q.logs, EvmLogAsk);
    AsksOfReach(q.transactions, EvmTransactionAsk, t);
    AsksOfReach(q.traces, EvmTraceAsk, t);
    AsksOfReach(q.logs, EvmLogAsk, t);
    ReachedByEither(tx, tr, t);
    ReachedByEither(tx + tr, lg, t);
    ReachedByEither(tx + tr + lg, AllBlocks(q.includeAllBlocks), t);
    AllBlocksReach(q.includeAllBlocks, t);
  }

  predicate TransactionFlags(r: EvmTransactionRequest, t: TableName) {
    || t == Transactions || (t == Logs && r.includeLogs) || (t == Traces && r.includeTraces)
    || (t == Blocks && r.includeBlocks)
  }

  predicate TraceFlags(r: EvmTraceRequest, t: TableName) {
    || t == Traces || (t == Logs && r.includeTransactionLogs) || (t == Transactions && r.includeTransactions)
    || (t == Blocks && r.includeBlocks)
  }

  predicate LogFlags(r: EvmLogRequest, t: TableName) {
    || t == Logs || (t == Transactions && r.includeTransactions) || (t == Traces && r.includeTransactionTraces)
    || (t == Blocks && r.includeBlocks)
  }

  lemma {:induction false} EvmTransactionReaches(r: EvmTransactionRequest, t: TableName)
    ensures AskReaches(EvmTransactionAsk(r), t) <==> TransactionFlags(r, t)
  {
    var links := EvmTransactionAsk(r).links;
    assert r.includeLogs <==> Link(Logs, SameTransaction) in links;
    assert r.includeTraces <==> Link(Traces, SameTransaction) in links;
    assert r.includeBlocks <==> Link(Blocks, SameBlock) in links;
  }

  lemma {:induction false} EvmTraceReaches(r: EvmTraceRequest, t: TableName)
    ensures AskReaches(EvmTraceAsk(r), t) <==> TraceFlags(r, t)
  {
    var links := EvmTraceAsk(r).links;
    assert r.includeTransactionLogs <==> Link(Logs, SameTransaction) in links;
    assert r.includeTransactions <==> Link(Transactions, SameTransaction) in links;
    assert r.includeBlocks <==> Link(Blocks, SameBlock) in links;
  }

  lemma {:induction false} EvmLogReaches(r: EvmLogRequest, t: TableName)
    ensures AskReaches(EvmLogAsk(r), t) <==> LogFlags(r, t)
  {
    var links := EvmLogAsk(r).links;
    assert r.includeTransactions <==> Link(Transactions, SameTransaction) in links;
    assert r.includeTransactionTraces <==> Link(Traces, SameTransaction) in links;
    assert r.includeBlocks <==> Link(Blocks, SameBlock) in links;
  }

  lemma {:induction false} EvmFlags(q: EvmQuery, t: TableName)
    ensures forall r: EvmTransactionRequest :: AskReaches(EvmTransactionAsk(r), t) <==> TransactionFlags(r, t)
    ensures forall r: EvmTraceRequest :: AskReaches(EvmTraceAsk(r), t) <==> TraceFlags(r, t)
    ensures forall r: EvmLogRequest :: AskReaches(EvmLogAsk(r), t) <==> LogFlags(r, t)
  {
    forall r { EvmTransactionReaches(r, t); }
    forall r { EvmTraceReaches(r, t); }
    forall r { EvmLogReaches(r, t); }
  }

  /** The flags the validation looks at, table by table, say exactly what can be brought in. */
  lemma {:induction false} TransactionsReached(q: EvmQuery)
    ensures Reached(EvmAsks(q), Transactions) <==>
              q.transactions != [] || (exists r | r in q.logs :: r.includeTransactions)
              || exists r | r in q.traces :: r.includeTransactions
  {
    EvmReached(q, Transactions);
    EvmFlags(q, Transactions);
    assert q.transactions != [] ==> q.transactions[0] in q.transactions;
  }

  lemma {:induction false} LogsReached(q: EvmQuery)
    ensures Reached(EvmAsks(q), Logs) <==>
              q.logs != [] || (exists r | r in q.transactions :: r.includeLogs)
              || exists r | r in q.traces :: r.includeTransactionLogs
  {
    EvmReached(q, Logs);
    EvmFlags(q, Logs);
    assert q.logs != [] ==> q.logs[0] in q.logs;
  }

  lemma {:induction false} TracesReached(q: EvmQuery)
    ensures Reached(EvmAsks(q), Traces) <==>
              q.traces != [] || (exists r | r in q.transactions :: r.includeTraces)
              || (exists r | r in q.logs :: r.includeTransactionTraces)
              || exists r | r in q.traces :: r.includeTransactionTraces
  {
    EvmReached(q, Traces);
    EvmFlags(q, Traces);
    assert q.traces != [] ==> q.traces[0] in q.traces;
  }

  lemma {:induction false} BlocksReached(q: EvmQuery)
    ensures Reached(EvmAsks(q), Blocks) <==>
              q.includeAllBlocks || (exists r | r in q.transactions :: r.includeBlocks)
              || (exists r | r in q.logs :: r.includeBlocks)
              || exists r | r in q.traces :: r.includeBlocks
  {
    EvmReached(q, Blocks);
    EvmFlags(q, Blocks);
  }

  /** The validation at the head of `evm_query_to_generic`. */
  method EvmFieldsFetched(q: EvmQuery) returns (ok: bool)
    ensures ok <==> forall t | EvmFieldsOf(q, t) != [] :: Reached(EvmAsks(q), t)
  {
    TransactionsReached(q);
    LogsReached(q);
    TracesReached(q);
    BlocksReached(q);
    var anyIncludesTransactions := (exists r | r in q.logs :: r.includeTransactions)
      || exists r | r in q.traces :: r.includeTransactions;
    if q.transactionFields != [] && q.transactions == [] && !anyIncludesTransactions {
      assert EvmFieldsOf(q, Transactions) != [];
      return false;
    }
    var anyIncludesLogs := (exists r | r in q.transactions :: r.includeLogs)
      || exists r | r in q.traces :: r.includeTransactionLogs;
    if q.logFields != [] && q.logs == [] && !anyIncludesLogs {
      assert EvmFieldsOf(q, Logs) != [];
      return false;
    }
    var anyIncludesTraces := (exists r | r in q.transactions :: r.includeTraces)
      || (exists r | r in q.logs :: r.includeTransactionTraces)
      || exists r | r in q.traces :: r.includeTransactionTraces;
    if q.traceFields != [] && q.traces == [] && !anyIncludesTraces {
      assert EvmFieldsOf(q, Traces) != [];
      return false;
    }
    var anyIncludesBlocks := (exists r | r in q.transactions :: r.includeBlocks)
      || (exists r | r in q.logs :: r.includeBlocks)
      || exists r | r in q.traces :: r.includeBlocks;
    if q.blockFields != [] && !q.includeAllBlocks && !anyIncludesBlocks {
      assert EvmFieldsOf(q, Blocks) != [];
      return false;
    }
    return true;
  }

  function EvmFields(q: EvmQuery): Fields {
    map[Blocks := q.blockFields, Transactions := q.transactionFields, Traces := q.traceFields, Logs := q.logFields]
  }

  lemma {:induction false} EvmFieldsListed(q: EvmQuery)
    ensures EvmFields(q).Keys == EVM_TABLES
    ensures forall t | t in EVM_TABLES :: EvmFields(q)[t] == EvmFieldsOf(q, t)
  {
  }

  lemma {:induction false} EvmReachesListed(q: EvmQuery, t: TableName)
    requires Reached(EvmAsks(q), t)
    ensures t in EvmFields(q)
  {
    EvmReached(q, t);
    EvmFlags(q, t);
  }

  /** What holds of every compiled query: it has a rule for each request and no other, every join is
      keyed by block, and each table a rule touches is an output table. */
  ghost predicate IsCompiled(keys: Keys, asks: seq<Ask>, block: BlockColumns, q: Query) {
    && Implements(keys, asks, Rules(q)) && BlockKeyed(Rules(q), block) && TablesListed(q)
    && forall t :: Touched(Rules(q), t) <==> Reached(asks, t)
  }

  lemma {:induction false} ImplementsCompiles(keys: Keys, asks: seq<Ask>, block: BlockColumns, q: Query)
    requires Implements(keys, asks, Rules(q)) && BlockFirst(keys, block)
    requires forall t | Reached(asks, t) :: t in q.fields
    ensures IsCompiled(keys, asks, block, q)
  {
    ImplementedIsKeyed(keys, asks, Rules(q), block);
    forall t ensures Touched(Rules(q), t) <==> Reached(asks, t) {
      TouchedIffReached(keys, asks, Rules(q), t);
    }
  }

  /** `evm_query_to_generic`: fails exactly when columns are requested of a table no request can bring
      in; otherwise the compiled query is that of the requests. */
  method EvmQueryToGeneric(q: EvmQuery) returns (r: Result<Query>)
    ensures r.Failure? <==> exists t :: EvmFieldsOf(q, t) != [] && !Reached(EvmAsks(q), t)
    ensures r.Success? ==> IsCompiled(EvmKeys, EvmAsks(q), EvmBlockColumn, r.value)
    ensures r.Success? ==> r.value.fields.Keys == EVM_TABLES
    ensures r.Success? ==> forall t | t in EVM_TABLES :: r.value.fields[t] == EvmFieldsOf(q, t)
  {
    var fetched := EvmFieldsFetched(q);
    if !fetched {
      return Failure;
    }
    var selection := EvmSelection(q, EvmFields(q));
    var query := Query(selection, EvmFields(q));
    forall t | Reached(EvmAsks(q), t) ensures t in query.fields {
      EvmReachesListed(q, t);
    }
    ImplementsCompiles(EvmKeys, EvmAsks(q), EvmBlockColumn, query);
    EvmFieldsListed(q);
    return Success(query);
  }

  // ---------------------------------------------------------------- Solana

  method SvmInstructionIncludes(r: SvmInstructionRequest) returns (inc: seq<Include>)
    ensures JoinsExactly(SvmKeys, Instructions, SvmInstructionLinks(r), inc)
  {
    var txKey := ["block_slot", "transaction_index"];
    var logKey := ["block_slot", "transaction_index", "instruction_address"];
    var addressKey := ["block_slot", "instruction_address"];
    inc := [];
    ghost var k, t := SvmKeys, Instructions;
    ghost var ls: set<Link> := {};
    inc, ls := PushIf(r.includeLogs, inc, Include(Logs, logKey, logKey), k, t, ls, Link(Logs, SameInstruction));
    inc, ls := PushIf(r.includeBlocks, inc, Include(Blocks, ["block_slot"], ["slot"]), k, t, ls,
                      Link(Blocks, SameBlock));
    inc, ls := PushIf(r.includeTransactions, inc, Include(Transactions, txKey, txKey), k, t, ls,
                      Link(Transactions, SameTransaction));
    inc, ls := PushIf(r.includeInnerInstructions, inc, Include(Instructions, txKey, txKey), k, t, ls,
                      Link(Instructions, SameTransaction));
    inc, ls := PushIf(r.includeLogs, inc, Include(Instructions, addressKey, addressKey), k, t, ls,
                      Link(Instructions, SameAddress));
    inc, ls := PushIf(r.includeTransactionTokenBalances, inc, Include(TokenBalances, txKey, txKey), k, t, ls,
                      Link(TokenBalances, SameTransaction));
    assert ls == SvmInstructionLinks(r);
  }

  method SvmInstructionSelection(r: SvmInstructionRequest) returns (sel: TableSelection)
    ensures Compiles(SvmKeys, SvmInstructionAsk(r), sel)
  {
    var filters := ToFilters(
      [Binaries("program_id", r.programId), Binaries("data", r.discriminator), Binaries("d1", r.d1),
       Binaries("d2", r.d2), Binaries("d3", r.d3), Binaries("d4", r.d4), Binaries("d8", r.d8), Binaries("a0", r.a0),
       Binaries("a1", r.a1), Binaries("a2", r.a2), Binaries("a3", r.a3), Binaries("a4", r.a4), Binaries("a5", r.a5),
       Binaries("a6", r.a6), Binaries("a7", r.a7), Binaries("a8", r.a8), Binaries("a9", r.a9)]);
    if r.isCommitted {
      filters := filters + [NamedFilter("is_committed", BoolEq(true))];
    }
    var includes := SvmInstructionIncludes(r);
    return TableSelection(filters, includes);
  }

  method SvmTransactionSelection(r: SvmTransactionRequest) returns (sel: TableSelection)
    ensures Compiles(SvmKeys, SvmTransactionAsk(r), sel)
  {
    var txKey := ["block_slot", "transaction_index"];
    var inc: seq<Include> := [];
    ghost var k, t := SvmKeys, Transactions;
    ghost var ls: set<Link> := {};
    inc, ls := PushIf(r.includeLogs, inc, Include(Logs, txKey, txKey), k, t, ls, Link(Logs, SameTransaction));
    inc, ls := PushIf(r.includeInstructions, inc, Include(Instructions, txKey, txKey), k, t, ls,
                      Link(Instructions, SameTransaction));
    inc, ls := PushIf(r.includeBlocks, inc, Include(Blocks, ["block_slot"], ["slot"]), k, t, ls,
                      Link(Blocks, SameBlock));
    assert ls == SvmTransactionAsk(r).links;
    return TableSelection(ToFilters([Binaries("fee_payer", r.feePayer)]), inc);
  }

  method SvmLogSelection(r: SvmLogRequest) returns (sel: TableSelection)
    ensures Compiles(SvmKeys, SvmLogAsk(r), sel)
  {
    var txKey := ["block_slot", "transaction_index"];
    var inc: seq<Include> := [];
    ghost var k, t := SvmKeys, Logs;
    ghost var ls: set<Link> := {};
    inc, ls := PushIf(r.includeTransactions, inc, Include(Transactions, txKey, txKey), k, t, ls,
                      Link(Transactions, SameTransaction));
    inc, ls := PushIf(r.includeInstructions, inc, Include(Instructions, txKey, txKey), k, t, ls,
                      Link(Instructions, SameTransaction));
    inc, ls := PushIf(r.includeBlocks, inc, Include(Blocks, ["block_slot"], ["slot"]), k, t, ls,
                      Link(Blocks, SameBlock));
    assert ls == SvmLogAsk(r).links;
    return TableSelection(ToFilters([Binaries("program_id", r.programId), Strings("kind", r.kind)]), inc);
  }

  method SvmBalanceSelection(r: SvmBalanceRequest) returns (sel: TableSelection)
    ensures Compiles(SvmKeys, SvmBalanceAsk(r), sel)
  {
    var txKey := ["block_slot", "transaction_index"];
    var inc: seq<Include> := [];
    ghost var k, t := SvmKeys, Balances;
    ghost var ls: set<Link> := {};
    inc, ls := PushIf(r.includeTransactions, inc, Include(Transactions, txKey, txKey), k, t, ls,
                      Link(Transactions, SameTransaction));
    inc, ls := PushIf(r.includeTransactionInstructions, inc, Include(Instructions, txKey, txKey), k, t, ls,
                      Link(Instructions, SameTransaction));
    inc, ls := PushIf(r.includeBlocks, inc, Include(Blocks, ["block_slot"], ["slot"]), k, t, ls,
                      Link(Blocks, SameBlock));
    assert ls == SvmBalanceAsk(r).links;
    return TableSelection(ToFilters([Binaries("account", r.account)]), inc);
  }

  method SvmTokenBalanceSelection(r: SvmTokenBalanceRequest) returns (sel: TableSelection)
    ensures Compiles(SvmKeys, SvmTokenBalanceAsk(r), sel)
  {
    var txKey := ["block_slot", "transaction_index"];
    var inc: seq<Include> := [];
    ghost var k, t := SvmKeys, TokenBalances;
    ghost var ls: set<Link> := {};
    inc, ls := PushIf(r.includeTransactions, inc, Include(Transactions, txKey, txKey), k, t, ls,
                      Link(Transactions, SameTransaction));
    inc, ls := PushIf(r.includeTransactionInstructions, inc, Include(Instructions, txKey, txKey), k, t, ls,
                      Link(Instructions, SameTransaction));
    inc, ls := PushIf(r.includeBlocks, inc, Include(Blocks, ["block_slot"], ["slot"]), k, t, ls,
                      Link(Blocks, SameBlock));
    assert ls == SvmTokenBalanceAsk(r).links;
    var filters := ToFilters(
      [Binaries("account", r.account), Binaries("pre_program_id", r.preProgramId),
       Binaries("post_program_id", r.postProgramId), Binaries("pre_mint", r.preMint), Binaries("post_mint", r.postMint),
       Binaries("pre_owner", r.preOwner), Binaries("post_owner", r.postOwner)]);
    return TableSelection(filters, inc);
  }

  method SvmRewardSelection(r: SvmRewardRequest) returns (sel: TableSelection)
    ensures Compiles(SvmKeys, SvmRewardAsk(r), sel)
  {
    ghost var k, t := SvmKeys, Rewards;
    ghost var ls: set<Link> := {};
    var inc;
    inc, ls := PushIf(r.includeBlocks, [], Include(Blocks, ["block_slot"], ["slot"]), k, t, ls,
                      Link(Blocks, SameBlock));
    assert ls == SvmRewardAsk(r).links;
    return TableSelection(ToFilters([Binaries("pubkey", r.pubkey)]), inc);
  }

  method SvmInstructionRules(requests: seq<SvmInstructionRequest>) returns (sels: seq<TableSelection>)
    ensures CompiledList(SvmKeys, Instructions, AsksOf(requests, SvmInstructionAsk), sels)
  {
    sels := [];
    for k := 0 to |requests|
      invariant |sels| == k
      invariant forall j | 0 <= j < k :: Compiles(SvmKeys, SvmInstructionAsk(requests[j]), sels[j])
    {
      var sel := SvmInstructionSelection(requests[k]);
      sels := sels + [sel];
    }
  }

  method SvmTransactionRules(requests: seq<SvmTransactionRequest>) returns (sels: seq<TableSelection>)
    ensures CompiledList(SvmKeys, Transactions, AsksOf(requests, SvmTransactionAsk), sels)
  {
    sels := [];
    for k := 0 to |requests|
      invariant |sels| == k
      invariant forall j | 0 <= j < k :: Compiles(SvmKeys, SvmTransactionAsk(requests[j]), sels[j])
    {
      var sel := SvmTransactionSelection(requests[k]);
      sels := sels + [sel];
    }
  }

  method SvmLogRules(requests: seq<SvmLogRequest>) returns (sels: seq<TableSelection>)
    ensures CompiledList(SvmKeys, Logs, AsksOf(requests, SvmLogAsk), sels)
  {
    sels := [];
    for k := 0 to |requests|
      invariant |sels| == k
      invariant forall j | 0 <= j < k :: Compiles(SvmKeys, SvmLogAsk(requests[j]), sels[j])
    {
      var sel := SvmLogSelection(requests[k]);
      sels := sels + [sel];
    }
  }

  method SvmBalanceRules(requests: seq<SvmBalanceRequest>) returns (sels: seq<TableSelection>)
    ensures CompiledList(SvmKeys, Balances, AsksOf(requests, SvmBalanceAsk), sels)
  {
    sels := [];
    for k := 0 to |requests|
      invariant |sels| == k
      invariant forall j | 0 <= j < k :: Compiles(SvmKeys, SvmBalanceAsk(requests[j]), sels[j])
    {
      var sel := SvmBalanceSelection(requests[k]);
      sels := sels + [sel];
    }
  }

  method SvmTokenBalanceRules(requests: seq<SvmTokenBalanceRequest>) returns (sels: seq<TableSelection>)
    ensures CompiledList(SvmKeys, TokenBalances, AsksOf(requests, SvmTokenBalanceAsk), sels)
  {
    sels := [];
    for k := 0 to |requests|
      invariant |sels| == k
      invariant forall j | 0 <= j < k :: Compiles(SvmKeys, SvmTokenBalanceAsk(requests[j]), sels[j])
    {
      var sel := SvmTokenBalanceSelection(requests[k]);
      sels := sels + [sel];
    }
  }

  method SvmRewardRules(requests: seq<SvmRewardRequest>) returns (sels: seq<TableSelection>)
    ensures CompiledList(SvmKeys, Rewards, AsksOf(requests, SvmRewardAsk), sels)
  {
    sels := [];
    for k := 0 to |requests|
      invariant |sels| == k
      invariant forall j | 0 <= j < k :: Compiles(SvmKeys, SvmRewardAsk(requests[j]), sels[j])
    {
      var sel := SvmRewardSelection(requests[k]);
      sels := sels + [sel];
    }
  }

  /** The selection map, built by inserts. */
  method SvmSelection(q: SvmQuery, ghost fields: Fields) returns (selection: seq<TableRules>)
    ensures Implements(SvmKeys, SvmAsks(q), Rules(Query(selection, fields)))
  {
    selection := [];
    NothingYet(SvmKeys, fields);
    ghost var asks: seq<Ask> := [];
    var sels := SvmInstructionRules(q.instructions);
    selection, asks := Insert(selection, Instructions, sels, SvmKeys, fields, asks,
                              AsksOf(q.instructions, SvmInstructionAsk));
    assert asks == AsksOf(q.instructions, SvmInstructionAsk);
    sels := SvmTransactionRules(q.transactions);
    selection, asks := Insert(selection, Transactions, sels, SvmKeys, fields, asks,
                              AsksOf(q.transactions, SvmTransactionAsk));
    sels := SvmLogRules(q.logs);
    selection, asks := Insert(selection, Logs, sels, SvmKeys, fields, asks,
                              AsksOf(q.logs, SvmLogAsk));
    sels := SvmBalanceRules(q.balances);
    selection, asks := Insert(selection, Balances, sels, SvmKeys, fields, asks,
                              AsksOf(q.balances, SvmBalanceAsk));
    sels := SvmTokenBalanceRules(q.tokenBalances);
    selection, asks := Insert(selection, TokenBalances, sels, SvmKeys, fields, asks,
                              AsksOf(q.tokenBalances, SvmTokenBalanceAsk));
    sels := SvmRewardRules(q.rewards);
    selection, asks := Insert(selection, Rewards, sels, SvmKeys, fields, asks,
                              AsksOf(q.rewards, SvmRewardAsk));
    if q.includeAllBlocks {
      selection, asks := Insert(selection, Blocks, [TableSelection([], [])], SvmKeys, fields, asks, AllBlocks(true));
    }
  }

  function SvmFields(q: SvmQuery): Fields {
    map[Instructions := q.instructionFields, Transactions := q.transactionFields, Logs := q.logFields,
        Balances := q.balanceFields, TokenBalances := q.tokenBalanceFields, Rewards := q.rewardFields,
        Blocks := q.blockFields]
  }

  /** A request on, and leading to, Solana tables only. */
  predicate SvmOnly(a: Ask, fields: Fields) {
    a.table in fields && forall l | l in a.links :: l.target in fields
  }

  ghost predicate AllSvm(asks: seq<Ask>, fields: Fields) {
    forall a | a in asks :: SvmOnly(a, fields)
  }

  lemma {:induction false} AsksOfStaySvm<R>(requests: seq<R>, ask: R -> Ask, fields: Fields)
    requires forall r :: SvmOnly(ask(r), fields)
    ensures AllSvm(AsksOf(requests, ask), fields)
  {
  }

  lemma {:induction false} BothStaySvm(some: seq<Ask>, others: seq<Ask>, fields: Fields)
    requires AllSvm(some, fields) && AllSvm(others, fields)
    ensures AllSvm(some + others, fields)
  {
  }

  lemma {:induction false} ProgramAsksStaySvm(q: SvmQuery, f: Fields)
    requires f == SvmFields(q)
    ensures AllSvm(AsksOf(q.instructions, SvmInstructionAsk) + AsksOf(q.transactions, SvmTransactionAsk)
                   + AsksOf(q.logs, SvmLogAsk), f)
  {
    var i, t, l := AsksOf(q.instructions, SvmInstructionAsk), AsksOf(q.transactions, SvmTransactionAsk),
      AsksOf(q.logs, SvmLogAsk);
    AsksOfStaySvm(q.instructions, SvmInstructionAsk, f);
    AsksOfStaySvm(q.transactions, SvmTransactionAsk, f);
    AsksOfStaySvm(q.logs, SvmLogAsk, f);
    BothStaySvm(i, t, f);
    BothStaySvm(i + t, l, f);
  }

  lemma {:induction false} SvmAsksStaySvm(q: SvmQuery, f: Fields)
    requires f == SvmFields(q)
    ensures AllSvm(SvmAsks(q), f)
  {
    var first := AsksOf(q.instructions, SvmInstructionAsk) + AsksOf(q.transactions, SvmTransactionAsk)
      + AsksOf(q.logs, SvmLogAsk);
    var b, tb, w := AsksOf(q.balances, SvmBalanceAsk), AsksOf(q.tokenBalances, SvmTokenBalanceAsk),
      AsksOf(q.rewards, SvmRewardAsk);
    ProgramAsksStaySvm(q, f);
    AsksOfStaySvm(q.balances, SvmBalanceAsk, f);
    AsksOfStaySvm(q.tokenBalances, SvmTokenBalanceAsk, f);
    AsksOfStaySvm(q.rewards, SvmRewardAsk, f);
    BothStaySvm(first, b, f);
    BothStaySvm(first + b, tb, f);
    BothStaySvm(first + b + tb, w, f);
    BothStaySvm(first + b + tb + w, AllBlocks(q.includeAllBlocks), f);
  }

  lemma {:induction false} SvmFieldsListed(q: SvmQuery)
    ensures SvmFields(q).Keys == SVM_TABLES
    ensures forall t | t in SVM_TABLES :: SvmFields(q)[t] == SvmFieldsOf(q, t)
  {
  }

  lemma {:induction false} SvmReachesListed(q: SvmQuery, t: TableName)
    requires Reached(SvmAsks(q), t)
    ensures t in SvmFields(q)
  {
    SvmAsksStaySvm(q, SvmFields(q));
    var a :| a in SvmAsks(q) && AskReaches(a, t);
    assert SvmOnly(a, SvmFields(q));
  }

  /** `svm_query_to_generic` never fails: the compiled query is that of the requests. */
  method SvmQueryToGeneric(q: SvmQuery) returns (r: Query)
    ensures IsCompiled(SvmKeys, SvmAsks(q), SvmBlockColumn, r)
    ensures r.fields.Keys == SVM_TABLES
    ensures forall t | t in SVM_TABLES :: r.fields[t] == SvmFieldsOf(q, t)
  {
    var selection := SvmSelection(q, SvmFields(q));
    r := Query(selection, SvmFields(q));
    forall t | Reached(SvmAsks(q), t) ensures t in r.fields {
      SvmReachesListed(q, t);
    }
    ImplementsCompiles(SvmKeys, SvmAsks(q), SvmBlockColumn, r);
    SvmFieldsListed(q);
  }
}
