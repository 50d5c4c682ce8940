/** When a compiled query can be evaluated at all: on any data, and on data of the published schemas. */
module SchemaLaws {
  import opened Wrappers
  import opened Tables
  import opened QuerySpec
  import opened Requests
  import opened Compile
  import opened RequestLaws

  predicate HasColumn(t: Table, name: FieldName, dtype: DataType) {
    var c := Find(t.columns, name);
    c.Some? && c.value.dtype == dtype
  }

  /** The column is there with the type of the list: binary or text, or an integer where values are
      compared as a whole. */
  predicate ListAnswered(t: Table, l: ColumnList) {
    && HasColumn(t, l.column, l.dtype)
    && (l.dtype.Binary? || l.dtype.Utf8? || (l.dtype.Integer? && l.column != "data"))
  }

  predicate LinkAnswered(data: Data, keys: Keys, source: TableName, l: Link) {
    && l.target in data && |keys(source, l.relation)| == |keys(l.target, l.relation)|
    && KeyOk(TableOf(data, source), keys(source, l.relation))
    && KeyOk(TableOf(data, l.target), keys(l.target, l.relation))
  }

  /** The data has the table, the columns of the request's lists, and the key columns of its links. */
  predicate AskAnswered(data: Data, keys: Keys, a: Ask) {
    && a.table in data
    && (forall l | l in a.lists && l.values != [] :: ListAnswered(data[a.table], l))
    && (a.committed ==> HasColumn(data[a.table], "is_committed", Boolean))
    && (forall l | l in a.links :: LinkAnswered(data, keys, a.table, l))
  }

  lemma {:induction false} ListApplies(t: Table, l: ColumnList)
    ensures FilterOk(t, ToFilter(l)) <==> ListAnswered(t, l)
  {
  }

  lemma {:induction false} FiltersApply(t: Table, a: Ask)
    ensures (forall f | f in FiltersOf(a) :: FilterOk(t, f)) <==>
              && (forall l | l in a.lists && l.values != [] :: ListAnswered(t, l))
              && (a.committed ==> HasColumn(t, "is_committed", Boolean))
  {
    var lists := ToFilters(a.lists);
    forall l | l in a.lists && l.values != []
      ensures ToFilter(l) in lists && (FilterOk(t, ToFilter(l)) <==> ListAnswered(t, l))
    {
      ListApplies(t, l);
    }
    assert FilterOk(t, COMMITTED) <==> HasColumn(t, "is_committed", Boolean);
    assert forall f :: f in FiltersOf(a) <==> f in lists || (a.committed && f == COMMITTED);
    if a.committed {
      assert COMMITTED in FiltersOf(a);
    }
  }

  lemma {:induction false} JoinsApply(data: Data, keys: Keys, a: Ask, r: Rule)
    requires CompilesTo(keys, a, r)
    ensures (forall inc | inc in r.sel.includes :: IncludeOk(data, r.source, inc))
       <==> (forall l | l in a.links :: LinkAnswered(data, keys, a.table, l))
  {
    forall l | l in a.links
      ensures JoinOf(keys, a.table, l) in r.sel.includes
      ensures IncludeOk(data, r.source, JoinOf(keys, a.table, l)) <==> LinkAnswered(data, keys, a.table, l)
    {
    }
  }

  lemma {:induction false} RuleAnswered(data: Data, keys: Keys, a: Ask, r: Rule)
    requires CompilesTo(keys, a, r)
    ensures RuleOk(data, r) <==> AskAnswered(data, keys, a)
  {
    FiltersApply(TableOf(data, r.source), a);
    JoinsApply(data, keys, a, r);
  }

  /** A compiled query is evaluated without failure iff the data answers every request. */
  lemma {:induction false} RulesOkIffAnswered(data: Data, keys: Keys, asks: seq<Ask>, rules: set<Rule>)
    requires Implements(keys, asks, rules)
    ensures RulesOk(data, rules) <==> forall a | a in asks :: AskAnswered(data, keys, a)
  {
    forall r | r in rules ensures exists a :: a in asks && (RuleOk(data, r) <==> AskAnswered(data, keys, a)) {
      assert HasAsk(keys, asks, r);
      var a :| a in asks && CompilesTo(keys, a, r);
      RuleAnswered(data, keys, a, r);
    }
    forall a | a in asks ensures exists r :: r in rules && (RuleOk(data, r) <==> AskAnswered(data, keys, a)) {
      assert HasRule(keys, a, rules);
      var r :| r in rules && CompilesTo(keys, a, r);
      RuleAnswered(data, keys, a, r);
    }
  }

  lemma {:induction false} AsksAnswered<R>(requests: seq<R>, ask: R -> Ask, data: Data, keys: Keys)
    ensures (forall a | a in AsksOf(requests, ask) :: AskAnswered(data, keys, a))
       <==> (forall r | r in requests :: AskAnswered(data, keys, ask(r)))
  {
    var asks := AsksOf(requests, ask);
    forall r | r in requests ensures ask(r) in asks {
      var k :| 0 <= k < |requests| && requests[k] == r;
      assert asks[k] == ask(r);
    }
    forall a | a in asks ensures exists r :: r in requests && ask(r) == a {
      var k :| 0 <= k < |asks| && asks[k] == a;
      assert requests[k] in requests;
    }
  }

  // ---------------------------------------------------------------- the published schemas

  const U32: DataType := Integer(32, false)
  const U64: DataType := Integer(64, false)

  /** The columns of the EVM schemas that requests filter or join on. */
  predicate EvmBlocks(t: Table) {
    HasColumn(t, "number", U64)
  }

  predicate EvmTransactions(t: Table) {
    && HasColumn(t, "block_number", U64) && HasColumn(t, "transaction_index", U64)
    && HasColumn(t, "from", Binary) && HasColumn(t, "to", Binary) && HasColumn(t, "sighash", Binary)
    && HasColumn(t, "status", U8) && HasColumn(t, "type", U8) && HasColumn(t, "hash", Binary)
    && Find(t.columns, "contract_deployment_address").None?
  }

  predicate EvmTraces(t: Table) {
    && HasColumn(t, "block_number", U64) && HasColumn(t, "transaction_position", U64)
    && HasColumn(t, "from", Binary) && HasColumn(t, "to", Binary) && HasColumn(t, "address", Binary)
    && HasColumn(t, "call_type", Utf8) && HasColumn(t, "reward_type", Utf8) && HasColumn(t, "type", Utf8)
    && HasColumn(t, "sighash", Binary) && HasColumn(t, "author", Binary)
  }

  predicate EvmLogs(t: Table) {
    && HasColumn(t, "block_number", U64) && HasColumn(t, "transaction_index", U64)
    && HasColumn(t, "address", Binary) && HasColumn(t, "topic0", Binary) && HasColumn(t, "topic1", Binary)
    && HasColumn(t, "topic2", Binary) && HasColumn(t, "topic3", Binary)
  }

  predicate EvmSchema(data: Data) {
    && EVM_TABLES <= data.Keys && EvmBlocks(data[Blocks]) && EvmTransactions(data[Transactions])
    && EvmTraces(data[Traces]) && EvmLogs(data[Logs])
  }

  lemma {:induction false} EvmLinksAnswered(data: Data, source: TableName, links: set<Link>)
    requires EvmSchema(data) && source in EVM_TABLES
    requires forall l | l in links :: l.target in EVM_TABLES && l.relation in {SameBlock, SameTransaction}
    requires forall l | l in links && l.relation == SameTransaction :: source != Blocks && l.target != Blocks
    ensures forall l | l in links :: LinkAnswered(data, EvmKeys, source, l)
  {
    forall l | l in links ensures LinkAnswered(data, EvmKeys, source, l) {
      EvmKeysFound(data, source, l.relation);
      EvmKeysFound(data, l.target, l.relation);
    }
  }

  lemma {:induction false} EvmKeysFound(data: Data, t: TableName, relation: Relation)
    requires EvmSchema(data) && t in EVM_TABLES && (relation == SameBlock || t != Blocks)
    ensures KeyOk(TableOf(data, t), EvmKeys(t, relation))
  {
  }

  predicate ListsAnswered(t: Table, lists: seq<ColumnList>) {
    forall l | l in lists && l.values != [] :: ListAnswered(t, l)
  }

  lemma {:induction false} EvmTransactionListsAnswered(t: Table, r: EvmTransactionRequest)
    requires EvmTransactions(t)
    ensures ListsAnswered(t, EvmTransactionLists(r)) <==> r.contractDeploymentAddress == []
  {
    var lists := EvmTransactionLists(r);
    assert lists[5] in lists;
  }

  lemma {:induction false} EvmTraceListsAnswered(t: Table, r: EvmTraceRequest)
    requires EvmTraces(t)
    ensures ListsAnswered(t, EvmTraceLists(r))
  {
  }

  lemma {:induction false} EvmLogListsAnswered(t: Table, r: EvmLogRequest)
    requires EvmLogs(t)
    ensures ListsAnswered(t, EvmLogLists(r))
  {
  }

  lemma {:induction false} EvmTransactionAnswered(data: Data, r: EvmTransactionRequest)
    requires EvmSchema(data)
    ensures AskAnswered(data, EvmKeys, EvmTransactionAsk(r)) <==> r.contractDeploymentAddress == []
  {
    EvmLinksAnswered(data, Transactions, EvmTransactionAsk(r).links);
    EvmTransactionListsAnswered(data[Transactions], r);
  }

  lemma {:induction false} EvmTraceAnswered(data: Data, r: EvmTraceRequest)
    requires EvmSchema(data)
    ensures AskAnswered(data, EvmKeys, EvmTraceAsk(r))
  {
    EvmLinksAnswered(data, Traces, EvmTraceAsk(r).links);
    EvmTraceListsAnswered(data[Traces], r);
  }

  lemma {:induction false} EvmLogAnswered(data: Data, r: EvmLogRequest)
    requires EvmSchema(data)
    ensures AskAnswered(data, EvmKeys, EvmLogAsk(r))
  {
    EvmLinksAnswered(data, Logs, EvmLogAsk(r).links);
    EvmLogListsAnswered(data[Logs], r);
  }

  /** On data of the EVM schemas a compiled query is evaluated without failure iff no transaction request
      names deployed contracts: that column is in no schema. */
  lemma {:induction false} EvmAnswersOnSchema(q: EvmQuery, query: Query, data: Data)
    requires EvmSchema(data) && Implements(EvmKeys, EvmAsks(q), Rules(query)) && query.fields.Keys == EVM_TABLES
    ensures Outcome(data, query).Success? <==> forall r | r in q.transactions :: r.contractDeploymentAddress == []
  {
    RulesOkIffAnswered(data, EvmKeys, EvmAsks(q), Rules(query));
    var tx, tr, lg := AsksOf(q.transactions, EvmTransactionAsk), AsksOf(q.traces, EvmTraceAsk),
      AsksOf(q.logs, EvmLogAsk);
    forall r { EvmTransactionAnswered(data, r); }
    forall r { EvmTraceAnswered(data, r); }
    forall r { EvmLogAnswered(data, r); }
    AsksAnswered(q.transactions, EvmTransactionAsk, data, EvmKeys);
    AsksAnswered(q.traces, EvmTraceAsk, data, EvmKeys);
    AsksAnswered(q.logs, EvmLogAsk, data, EvmKeys);
    assert forall a :: a in EvmAsks(q) <==> a in tx || a in tr || a in lg || a in AllBlocks(q.includeAllBlocks);
  }

  /** The same of the Solana schemas. */
  predicate SvmTransactions(t: Table) {
    HasColumn(t, "block_slot", U64) && HasColumn(t, "transaction_index", U32) && HasColumn(t, "fee_payer", Binary)
  }

  predicate SvmLogs(t: Table) {
    && HasColumn(t, "block_slot", U64) && HasColumn(t, "transaction_index", U32)
    && SortableColumn(t, "instruction_address")
    && HasColumn(t, "program_id", Binary) && HasColumn(t, "kind", Utf8)
  }

  /** A list of indices: no type the filters look into, but one that keys can have. */
  predicate SortableColumn(t: Table, name: FieldName) {
    var c := Find(t.columns, name);
    c.Some? && c.value.dtype.Opaque? && c.value.dtype.sortable
  }

  predicate SvmInstructions(t: Table) {
    && HasColumn(t, "block_slot", U64) && HasColumn(t, "transaction_index", U32)
    && SortableColumn(t, "instruction_address")
    && HasColumn(t, "program_id", Binary) && HasColumn(t, "data", Binary) && HasColumn(t, "is_committed", Boolean)
    && HasColumn(t, "d1", Binary) && HasColumn(t, "d2", Binary) && HasColumn(t, "d4", Binary)
    && HasColumn(t, "d8", Binary) && HasColumn(t, "a0", Binary) && HasColumn(t, "a1", Binary)
    && HasColumn(t, "a2", Binary) && HasColumn(t, "a3", Binary) && HasColumn(t, "a4", Binary)
    && HasColumn(t, "a5", Binary) && HasColumn(t, "a6", Binary) && HasColumn(t, "a7", Binary)
    && HasColumn(t, "a8", Binary) && HasColumn(t, "a9", Binary)
    && Find(t.columns, "d3").None?
  }

  predicate SvmBalances(t: Table) {
    HasColumn(t, "block_slot", U64) && HasColumn(t, "transaction_index", U32) && HasColumn(t, "account", Binary)
  }

  predicate SvmTokenBalances(t: Table) {
    && SvmBalances(t) && HasColumn(t, "pre_program_id", Binary) && HasColumn(t, "post_program_id", Binary)
    && HasColumn(t, "pre_mint", Binary) && HasColumn(t, "post_mint", Binary)
    && HasColumn(t, "pre_owner", Binary) && HasColumn(t, "post_owner", Binary)
  }

  predicate SvmRewards(t: Table) {
    HasColumn(t, "block_slot", U64) && HasColumn(t, "pubkey", Binary)
  }

  predicate SvmSchema(data: Data) {
    && SVM_TABLES <= data.Keys && HasColumn(data[Blocks], "slot", U64)
    && SvmTransactions(data[Transactions]) && SvmLogs(data[Logs]) && SvmInstructions(data[Instructions])
    && SvmBalances(data[Balances]) && SvmTokenBalances(data[TokenBalances]) && SvmRewards(data[Rewards])
  }

  /** The relations a table has the key columns of. */
  predicate HasKeys(t: TableName, relation: Relation) {
    match relation
    case SameBlock => t in SVM_TABLES
    case SameTransaction => t in {Transactions, Logs, Instructions, Balances, TokenBalances}
    case SameInstruction => t in {Logs, Instructions}
    case SameAddress => t in {Logs, Instructions}
  }

  lemma {:induction false} SvmKeysFound(data: Data, t: TableName, relation: Relation)
    requires SvmSchema(data) && HasKeys(t, relation)
    ensures t in data && KeyOk(TableOf(data, t), SvmKeys(t, relation))
  {
  }

  lemma {:induction false} SvmLinksAnswered(data: Data, source: TableName, links: set<Link>)
    requires SvmSchema(data)
    requires forall l | l in links :: HasKeys(source, l.relation) && HasKeys(l.target, l.relation)
    ensures forall l | l in links :: LinkAnswered(data, SvmKeys, source, l)
  {
    forall l | l in links ensures LinkAnswered(data, SvmKeys, source, l) {
      SvmKeysFound(data, source, l.relation);
      SvmKeysFound(data, l.target, l.relation);
    }
  }

  /** Lists of byte strings for columns of bytes, but for the one at `missing`. */
  predicate BinaryLists(t: Table, lists: seq<ColumnList>, missing: nat) {
    forall k | 0 <= k < |lists| && k != missing :: lists[k].dtype == Binary && HasColumn(t, lists[k].column, Binary)
  }

  lemma {:induction false} BinaryListsAnswered(t: Table, lists: seq<ColumnList>, missing: nat)
    requires BinaryLists(t, lists, missing) && missing < |lists| && Find(t.columns, lists[missing].column).None?
    ensures ListsAnswered(t, lists) <==> lists[missing].values == []
  {
    assert lists[missing] in lists;
    assert forall k | 0 <= k < |lists| && k != missing :: ListAnswered(t, lists[k]);
  }

  lemma {:induction false} SvmInstructionListsAnswered(t: Table, r: SvmInstructionRequest)
    requires SvmInstructions(t)
    ensures ListsAnswered(t, SvmInstructionLists(r)) <==> r.d3 == []
  {
    var lists := SvmInstructionLists(r);
    assert lists[4] == Binaries("d3", r.d3);
    BinaryListsAnswered(t, lists, 4);
  }

  lemma {:induction false} SvmTokenBalanceListsAnswered(t: Table, r: SvmTokenBalanceRequest)
    requires SvmTokenBalances(t)
    ensures ListsAnswered(t, SvmTokenBalanceLists(r))
  {
  }

  lemma {:induction false} SvmInstructionAnswered(data: Data, r: SvmInstructionRequest)
    requires SvmSchema(data)
    ensures AskAnswered(data, SvmKeys, SvmInstructionAsk(r)) <==> r.d3 == []
  {
    SvmLinksAnswered(data, Instructions, SvmInstructionLinks(r));
    SvmInstructionListsAnswered(data[Instructions], r);
  }

  lemma {:induction false} SvmTransactionAnswered(data: Data, r: SvmTransactionRequest)
    requires SvmSchema(data)
    ensures AskAnswered(data, SvmKeys, SvmTransactionAsk(r))
  {
    SvmLinksAnswered(data, Transactions, SvmTransactionAsk(r).links);
  }

  lemma {:induction false} SvmLogAnswered(data: Data, r: SvmLogRequest)
    requires SvmSchema(data)
    ensures AskAnswered(data, SvmKeys, SvmLogAsk(r))
  {
    SvmLinksAnswered(data, Logs, SvmLogAsk(r).links);
  }

  lemma {:induction false} SvmBalanceAnswered(data: Data, r: SvmBalanceRequest)
    requires SvmSchema(data)
    ensures AskAnswered(data, SvmKeys, SvmBalanceAsk(r))
  {
    SvmLinksAnswered(data, Balances, SvmBalanceAsk(r).links);
  }

  lemma {:induction false} SvmTokenBalanceAnswered(data: Data, r: SvmTokenBalanceRequest)
    requires SvmSchema(data)
    ensures AskAnswered(data, SvmKeys, SvmTokenBalanceAsk(r))
  {
    SvmLinksAnswered(data, TokenBalances, SvmTokenBalanceAsk(r).links);
    SvmTokenBalanceListsAnswered(data[TokenBalances], r);
  }

  lemma {:induction false} SvmRewardAnswered(data: Data, r: SvmRewardRequest)
    requires SvmSchema(data)
    ensures AskAnswered(data, SvmKeys, SvmRewardAsk(r))
  {
    SvmLinksAnswered(data, Rewards, SvmRewardAsk(r).links);
  }

  lemma {:induction false} SvmInstructionsAnswered(requests: seq<SvmInstructionRequest>, data: Data)
    requires SvmSchema(data)
    ensures (forall a | a in AsksOf(requests, SvmInstructionAsk) :: AskAnswered(data, SvmKeys, a))
       <==> (forall r | r in requests :: r.d3 == [])
  {
    forall r { SvmInstructionAnswered(data, r); }
    AsksAnswered(requests, SvmInstructionAsk, data, SvmKeys);
  }

  lemma {:induction false} SvmAsksAnswered(q: SvmQuery, data: Data)
    requires SvmSchema(data)
    ensures forall a | a in AsksOf(q.transactions, SvmTransactionAsk) + AsksOf(q.logs, SvmLogAsk)
                            + AsksOf(q.balances, SvmBalanceAsk) + AsksOf(q.tokenBalances, SvmTokenBalanceAsk)
                            + AsksOf(q.rewards, SvmRewardAsk) :: AskAnswered(data, SvmKeys, a)
  {
    forall r { SvmTransactionAnswered(data, r); }
    forall r { SvmLogAnswered(data, r); }
    forall r { SvmBalanceAnswered(data, r); }
    forall r { SvmTokenBalanceAnswered(data, r); }
    forall r { SvmRewardAnswered(data, r); }
    AsksAnswered(q.transactions, SvmTransactionAsk, data, SvmKeys);
    AsksAnswered(q.logs, SvmLogAsk, data, SvmKeys);
    AsksAnswered(q.balances, SvmBalanceAsk, data, SvmKeys);
    AsksAnswered(q.tokenBalances, SvmTokenBalanceAsk, data, SvmKeys);
    AsksAnswered(q.rewards, SvmRewardAsk, data, SvmKeys);
  }

  /** On data of the Solana schemas a compiled query is evaluated without failure iff no instruction
      request names three-byte discriminators: there is no column `d3`. */
  lemma {:induction false} SvmAnswersOnSchema(q: SvmQuery, query: Query, data: Data)
    requires SvmSchema(data) && Implements(SvmKeys, SvmAsks(q), Rules(query)) && query.fields.Keys == SVM_TABLES
    ensures Outcome(data, query).Success? <==> forall r | r in q.instructions :: r.d3 == []
  {
    RulesOkIffAnswered(data, SvmKeys, SvmAsks(q), Rules(query));
    var i := AsksOf(q.instructions, SvmInstructionAsk);
    var others := AsksOf(q.transactions, SvmTransactionAsk) + AsksOf(q.logs, SvmLogAsk)
      + AsksOf(q.balances, SvmBalanceAsk) + AsksOf(q.tokenBalances, SvmTokenBalanceAsk)
      + AsksOf(q.rewards, SvmRewardAsk);
    SvmInstructionsAnswered(q.instructions, data);
    SvmAsksAnswered(q, data);
    assert SvmAsks(q) == i + others + AllBlocks(q.includeAllBlocks);
  }
}
