/** What EVM and Solana requests ask for, in their own terms: which rows a request accepts, and which
    rows of other tables its include flags bring in. Nothing here mentions filters, joins or rules. */
module Requests {
  import opened Bytes
  import opened Tables
  import opened QuerySpec

  type Blob = seq<byte>

  /** A request list for one column; an empty list asks for nothing. */
  datatype ColumnList = ColumnList(column: FieldName, dtype: DataType, values: seq<Value>)

  const U8: DataType := Integer(8, false)

  function Binaries(column: FieldName, values: seq<Blob>): ColumnList {
    ColumnList(column, Binary, seq(|values|, i requires 0 <= i < |values| => Bytes(values[i])))
  }

  function Strings(column: FieldName, values: seq<Blob>): ColumnList {
    ColumnList(column, Utf8, seq(|values|, i requires 0 <= i < |values| => Bytes(values[i])))
  }

  function Numbers(column: FieldName, values: seq<byte>): ColumnList {
    ColumnList(column, U8, seq(|values|, i requires 0 <= i < |values| => Int(values[i])))
  }

  /** How a row an include flag brings in stands to a row the request accepts. */
  datatype Relation = SameBlock | SameTransaction | SameInstruction | SameAddress

  datatype Link = Link(target: TableName, relation: Relation)

  /** One request: the table it is on, its lists, whether it wants committed rows only, its links. */
  datatype Ask = Ask(table: TableName, lists: seq<ColumnList>, committed: bool, links: set<Link>)

  /** The columns of a table that must agree for two rows to stand in a relation. */
  type Keys = (TableName, Relation) -> seq<FieldName>

  function When(flag: bool, target: TableName, relation: Relation): set<Link> {
    if flag then {Link(target, relation)} else {}
  }

  // ---------------------------------------------------------------- meaning

  /** The row's value is in the list, or, in the discriminator's column, starts with one of its values. */
  predicate InList(t: Table, l: ColumnList, row: nat) {
    var c := CellOf(t, l.column, row);
    && c.valid
    && (if l.column == "data" then exists v | v in l.values :: IsPrefixOf(v, c.raw) else c.raw in l.values)
  }

  predicate IsCommitted(t: Table, row: nat) {
    var c := CellOf(t, "is_committed", row);
    c.valid && c.raw == Bool(true)
  }

  /** The row is in every list that is not empty, and committed if the request wants that. */
  predicate Accepts(t: Table, a: Ask, row: nat) {
    && (forall l | l in a.lists && l.values != [] :: InList(t, l, row))
    && (a.committed ==> IsCommitted(t, row))
  }

  predicate SameCell(t: Table, n: FieldName, r: nat, u: Table, m: FieldName, s: nat) {
    CellKey(CellOf(t, n, r)) == CellKey(CellOf(u, m, s))
  }

  /** The two rows agree in every key column of the relation; two nulls agree. */
  predicate Related(keys: Keys, relation: Relation, source: TableName, t: Table, r: nat, target: TableName, u: Table,
                    s: nat)
  {
    && |keys(source, relation)| == |keys(target, relation)|
    && forall k | 0 <= k < |keys(source, relation)| ::
         SameCell(t, keys(source, relation)[k], r, u, keys(target, relation)[k], s)
  }

  /** Row s is accepted, and the link leads from it to this row of the link's target. */
  predicate LeadsFrom(data: Data, keys: Keys, a: Ask, l: Link, s: nat, row: nat) {
    && s < TableOf(data, a.table).rows && Accepts(TableOf(data, a.table), a, s)
    && Related(keys, l.relation, a.table, TableOf(data, a.table), s, l.target, TableOf(data, l.target), row)
  }

  ghost predicate LeadsTo(data: Data, keys: Keys, a: Ask, l: Link, t: TableName, row: nat) {
    l.target == t && exists s: nat :: LeadsFrom(data, keys, a, l, s, row)
  }

  /** The request wants this row of table t: it accepts it, or a link leads there from a row it accepts. */
  ghost predicate AskWants(data: Data, keys: Keys, a: Ask, t: TableName, row: nat) {
    || (a.table == t && Accepts(TableOf(data, t), a, row))
    || exists l | l in a.links :: LeadsTo(data, keys, a, l, t, row)
  }

  ghost predicate Wanted(data: Data, keys: Keys, asks: seq<Ask>, t: TableName, row: nat) {
    exists a | a in asks :: AskWants(data, keys, a, t, row)
  }

  /** A request on t wants committed rows only, and nothing is known about this one. */
  predicate AskUnsettled(data: Data, a: Ask, t: TableName, row: nat) {
    a.table == t && a.committed && !CellOf(TableOf(data, t), "is_committed", row).valid
  }

  predicate Unsettled(data: Data, asks: seq<Ask>, t: TableName, row: nat) {
    exists a | a in asks :: AskUnsettled(data, a, t, row)
  }

  predicate AskReaches(a: Ask, t: TableName) {
    a.table == t || exists l | l in a.links :: l.target == t
  }

  /** Some request can bring rows of this table into the output. */
  predicate Reached(asks: seq<Ask>, t: TableName) {
    exists a | a in asks :: AskReaches(a, t)
  }

  /** `include_all_blocks` asks for every block. */
  function AllBlocks(flag: bool): seq<Ask> {
    if flag then [Ask(Blocks, [], false, {})] else []
  }

  // ---------------------------------------------------------------- EVM

  datatype EvmTransactionRequest = EvmTransactionRequest(
    from: seq<Blob>, to: seq<Blob>, sighash: seq<Blob>, status: seq<byte>, kind: seq<byte>,
    contractDeploymentAddress: seq<Blob>, hash: seq<Blob>,
    includeLogs: bool, includeTraces: bool, includeBlocks: bool)

  datatype EvmTraceRequest = EvmTraceRequest(
    from: seq<Blob>, to: seq<Blob>, address: seq<Blob>, callType: seq<Blob>, rewardType: seq<Blob>, kind: seq<Blob>,
    sighash: seq<Blob>, author: seq<Blob>,
    includeTransactions: bool, includeTransactionLogs: bool, includeTransactionTraces: bool, includeBlocks: bool)

  datatype EvmLogRequest = EvmLogRequest(
    address: seq<Blob>, topic0: seq<Blob>, topic1: seq<Blob>, topic2: seq<Blob>, topic3: seq<Blob>,
    includeTransactions: bool, includeTransactionLogs: bool, includeTransactionTraces: bool, includeBlocks: bool)

  /** The column lists are the sets of field names the request switched on. */
  datatype EvmQuery = EvmQuery(
    includeAllBlocks: bool,
    transactions: seq<EvmTransactionRequest>, traces: seq<EvmTraceRequest>, logs: seq<EvmLogRequest>,
    blockFields: seq<FieldName>, transactionFields: seq<FieldName>, traceFields: seq<FieldName>,
    logFields: seq<FieldName>)

  function EvmBlockColumn(t: TableName): FieldName {
    if t == Blocks then "number" else "block_number"
  }

  /** Traces name the index of their transaction differently. */
  function EvmKeys(t: TableName, r: Relation): seq<FieldName> {
    if r == SameBlock then [EvmBlockColumn(t)]
    else [EvmBlockColumn(t), if t == Traces then "transaction_position" else "transaction_index"]
  }

  function EvmTransactionLists(r: EvmTransactionRequest): seq<ColumnList> {
    [Binaries("from", r.from), Binaries("to", r.to), Binaries("sighash", r.sighash), Numbers("status", r.status),
     Numbers("type", r.kind), Binaries("contract_deployment_address", r.contractDeploymentAddress),
     Binaries("hash", r.hash)]
  }

  function EvmTransactionAsk(r: EvmTransactionRequest): Ask {
    Ask(Transactions, EvmTransactionLists(r), false,
        When(r.includeLogs, Logs, SameTransaction) + When(r.includeTraces, Traces, SameTransaction)
        + When(r.includeBlocks, Blocks, SameBlock))
  }

  function EvmTraceLists(r: EvmTraceRequest): seq<ColumnList> {
    [Binaries("from", r.from), Binaries("to", r.to), Binaries("address", r.address), Strings("call_type", r.callType),
     Strings("reward_type", r.rewardType), Strings("type", r.kind), Binaries("sighash", r.sighash),
     Binaries("author", r.author)]
  }

  function EvmTraceAsk(r: EvmTraceRequest): Ask {
    Ask(Traces, EvmTraceLists(r), false,
        When(r.includeTransactionLogs, Logs, SameTransaction)
        + When(r.includeTransactionTraces, Traces, SameTransaction)
        + When(r.includeTransactions, Transactions, SameTransaction) + When(r.includeBlocks, Blocks, SameBlock))
  }

  function EvmLogLists(r: EvmLogRequest): seq<ColumnList> {
    [Binaries("address", r.address), Binaries("topic0", r.topic0), Binaries("topic1", r.topic1),
     Binaries("topic2", r.topic2), Binaries("topic3", r.topic3)]
  }

  function EvmLogAsk(r: EvmLogRequest): Ask {
    Ask(Logs, EvmLogLists(r), false,
        When(r.includeTransactionLogs, Logs, SameTransaction)
        + When(r.includeTransactions, Transactions, SameTransaction)
        + When(r.includeTransactionTraces, Traces, SameTransaction) + When(r.includeBlocks, Blocks, SameBlock))
  }

  function AsksOf<R>(requests: seq<R>, ask: R -> Ask): seq<Ask> {
    seq(|requests|, i requires 0 <= i < |requests| => ask(requests[i]))
  }

  function EvmAsks(q: EvmQuery): seq<Ask> {
    AsksOf(q.transactions, EvmTransactionAsk) + AsksOf(q.traces, EvmTraceAsk) + AsksOf(q.logs, EvmLogAsk)
    + AllBlocks(q.includeAllBlocks)
  }

  /** The tables of an EVM answer. */
  const EVM_TABLES: set<TableName> := {Blocks, Transactions, Traces, Logs}

  /** The requested columns of a table. */
  function EvmFieldsOf(q: EvmQuery, t: TableName): seq<FieldName> {
    if t == Blocks then q.blockFields else if t == Transactions then q.transactionFields
    else if t == Traces then q.traceFields else if t == Logs then q.logFields else []
  }

  // ---------------------------------------------------------------- Solana

  datatype SvmInstructionRequest = SvmInstructionRequest(
    programId: seq<Blob>, discriminator: seq<Blob>, d1: seq<Blob>, d2: seq<Blob>, d3: seq<Blob>, d4: seq<Blob>,
    d8: seq<Blob>, a0: seq<Blob>, a1: seq<Blob>, a2: seq<Blob>, a3: seq<Blob>, a4: seq<Blob>, a5: seq<Blob>,
    a6: seq<Blob>, a7: seq<Blob>, a8: seq<Blob>, a9: seq<Blob>,
    isCommitted: bool, includeTransactions: bool, includeTransactionTokenBalances: bool, includeLogs: bool,
    includeInnerInstructions: bool, includeBlocks: bool)

  datatype SvmTransactionRequest = SvmTransactionRequest(
    feePayer: seq<Blob>, includeInstructions: bool, includeLogs: bool, includeBlocks: bool)

  datatype SvmLogRequest = SvmLogRequest(
    programId: seq<Blob>, kind: seq<Blob>, includeTransactions: bool, includeInstructions: bool, includeBlocks: bool)

  datatype SvmBalanceRequest = SvmBalanceRequest(
    account: seq<Blob>, includeTransactions: bool, includeTransactionInstructions: bool, includeBlocks: bool)

  datatype SvmTokenBalanceRequest = SvmTokenBalanceRequest(
    account: seq<Blob>, preProgramId: seq<Blob>, postProgramId: seq<Blob>, preMint: seq<Blob>, postMint: seq<Blob>,
    preOwner: seq<Blob>, postOwner: seq<Blob>,
    includeTransactions: bool, includeTransactionInstructions: bool, includeBlocks: bool)

  datatype SvmRewardRequest = SvmRewardRequest(pubkey: seq<Blob>, includeBlocks: bool)

  datatype SvmQuery = SvmQuery(
    includeAllBlocks: bool,
    instructions: seq<SvmInstructionRequest>, transactions: seq<SvmTransactionRequest>, logs: seq<SvmLogRequest>,
    balances: seq<SvmBalanceRequest>, tokenBalances: seq<SvmTokenBalanceRequest>, rewards: seq<SvmRewardRequest>,
    instructionFields: seq<FieldName>, transactionFields: seq<FieldName>, logFields: seq<FieldName>,
    balanceFields: seq<FieldName>, tokenBalanceFields: seq<FieldName>, rewardFields: seq<FieldName>,
    blockFields: seq<FieldName>)

  /** The tables of a Solana answer. */
  const SVM_TABLES: set<TableName> :=
    {Blocks, Transactions, Logs, Instructions, Balances, TokenBalances, Rewards}

  /** The requested columns of a table. */
  function SvmFieldsOf(q: SvmQuery, t: TableName): seq<FieldName> {
    match t
    case Blocks => q.blockFields
    case Transactions => q.transactionFields
    case Logs => q.logFields
    case Instructions => q.instructionFields
    case Balances => q.balanceFields
    case TokenBalances => q.tokenBalanceFields
    case Rewards => q.rewardFields
    case _ => []
  }

  function SvmBlockColumn(t: TableName): FieldName {
    if t == Blocks then "slot" else "block_slot"
  }

  function SvmKeys(t: TableName, r: Relation): seq<FieldName> {
    match r
    case SameBlock => [SvmBlockColumn(t)]
    case SameTransaction => [SvmBlockColumn(t), "transaction_index"]
    case SameInstruction => [SvmBlockColumn(t), "transaction_index", "instruction_address"]
    case SameAddress => [SvmBlockColumn(t), "instruction_address"]
  }

  function SvmInstructionLists(r: SvmInstructionRequest): seq<ColumnList> {
    [Binaries("program_id", r.programId), Binaries("data", r.discriminator), Binaries("d1", r.d1), Binaries("d2", r.d2),
     Binaries("d3", r.d3), Binaries("d4", r.d4), Binaries("d8", r.d8), Binaries("a0", r.a0), Binaries("a1", r.a1),
     Binaries("a2", r.a2), Binaries("a3", r.a3), Binaries("a4", r.a4), Binaries("a5", r.a5), Binaries("a6", r.a6),
     Binaries("a7", r.a7), Binaries("a8", r.a8), Binaries("a9", r.a9)]
  }

  /** With `include_logs`, instructions of the same slot and address come in as well, whatever their
      transaction. */
  function SvmInstructionLinks(r: SvmInstructionRequest): set<Link> {
    When(r.includeLogs, Logs, SameInstruction) + When(r.includeBlocks, Blocks, SameBlock)
    + When(r.includeTransactions, Transactions, SameTransaction)
    + When(r.includeInnerInstructions, Instructions, SameTransaction)
    + When(r.includeLogs, Instructions, SameAddress)
    + When(r.includeTransactionTokenBalances, TokenBalances, SameTransaction)
  }

  function SvmInstructionAsk(r: SvmInstructionRequest): Ask {
    Ask(Instructions, SvmInstructionLists(r), r.isCommitted, SvmInstructionLinks(r))
  }

  function SvmTransactionAsk(r: SvmTransactionRequest): Ask {
    Ask(Transactions, [Binaries("fee_payer", r.feePayer)], false,
        When(r.includeLogs, Logs, SameTransaction) + When(r.includeInstructions, Instructions, SameTransaction)
        + When(r.includeBlocks, Blocks, SameBlock))
  }

  function SvmLogAsk(r: SvmLogRequest): Ask {
    Ask(Logs, [Binaries("program_id", r.programId), Strings("kind", r.kind)], false,
        When(r.includeTransactions, Transactions, SameTransaction)
        + When(r.includeInstructions, Instructions, SameTransaction) + When(r.includeBlocks, Blocks, SameBlock))
  }

  function SvmBalanceAsk(r: SvmBalanceRequest): Ask {
    Ask(Balances, [Binaries("account", r.account)], false,
        When(r.includeTransactions, Transactions, SameTransaction)
        + When(r.includeTransactionInstructions, Instructions, SameTransaction)
        + When(r.includeBlocks, Blocks, SameBlock))
  }

  function SvmTokenBalanceLists(r: SvmTokenBalanceRequest): seq<ColumnList> {
    [Binaries("account", r.account), Binaries("pre_program_id", r.preProgramId),
     Binaries("post_program_id", r.postProgramId), Binaries("pre_mint", r.preMint), Binaries("post_mint", r.postMint),
     Binaries("pre_owner", r.preOwner), Binaries("post_owner", r.postOwner)]
  }

  function SvmTokenBalanceAsk(r: SvmTokenBalanceRequest): Ask {
    Ask(TokenBalances, SvmTokenBalanceLists(r), false,
        When(r.includeTransactions, Transactions, SameTransaction)
        + When(r.includeTransactionInstructions, Instructions, SameTransaction)
        + When(r.includeBlocks, Blocks, SameBlock))
  }

  function SvmRewardAsk(r: SvmRewardRequest): Ask {
    Ask(Rewards, [Binaries("pubkey", r.pubkey)], false, When(r.includeBlocks, Blocks, SameBlock))
  }

  function SvmAsks(q: SvmQuery): seq<Ask> {
    AsksOf(q.instructions, SvmInstructionAsk) + AsksOf(q.transactions, SvmTransactionAsk) + AsksOf(q.logs, SvmLogAsk)
    + AsksOf(q.balances, SvmBalanceAsk) + AsksOf(q.tokenBalances, SvmTokenBalanceAsk)
    + AsksOf(q.rewards, SvmRewardAsk) + AllBlocks(q.includeAllBlocks)
  }
}
