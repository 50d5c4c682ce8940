/** The whole ingest step: a compiled query, run on the chunks a HyperSync run delivers. */
module Ingest {
  import opened Wrappers
  import opened Tables
  import opened QuerySpec
  import opened LastBlock
  import opened Requests
  import opened Pruning
  import opened Streaming
  import opened Compile
  import opened RequestLaws
  import QueryEngine
  import HyperSync

  /** Every row of a table that takes part in a join carries a block id of the delivered range. */
  ghost predicate ChunkWithin(d: Data, range: HyperSync.Range, rules: set<Rule>, block: BlockColumns) {
    forall t, row: nat | Joined(rules, t) && row < TableOf(d, t).rows ::
      RowWithin(TableOf(d, t), block(t), row, range)
  }

  predicate RowWithin(t: Table, block: FieldName, row: nat, range: HyperSync.Range) {
    var c := CellOf(t, block, row);
    c.valid && c.raw.Int? && c.raw.n >= 0 && HyperSync.Covers(range, c.raw.n)
  }

  lemma {:induction false} RangesApart(d: Data, r: HyperSync.Range, e: Data, s: HyperSync.Range, rules: set<Rule>,
                                       block: BlockColumns)
    requires ChunkWithin(d, r, rules, block) && ChunkWithin(e, s, rules, block) && r.end <= s.first
    ensures DisjointBlocks(rules, block, d, e)
  {
    forall t, u, i: nat, j: nat |
      Joined(rules, t) && Joined(rules, u) && i < TableOf(d, t).rows && j < TableOf(e, u).rows
      ensures BlocksDiffer(TableOf(d, t), block(t), i, TableOf(e, u), block(u), j)
    {
      assert RowWithin(TableOf(d, t), block(t), i, r) && RowWithin(TableOf(e, u), block(u), j, s);
    }
  }

  /** The chunks of a driver run, one for each delivered range. */
  ghost predicate Chunks(chunks: seq<Data>, ranges: seq<HyperSync.Range>, rules: set<Rule>, block: BlockColumns) {
    && |chunks| == |ranges| && chunks != [] && OneSchema(chunks)
    && forall i | 0 <= i < |chunks| :: ChunkWithin(chunks[i], ranges[i], rules, block)
  }

  /** What the driver delivers is a stream on which running chunk by chunk is sound. */
  lemma {:induction false} RunDeliversGoodStream(cfg: HyperSync.Config, script: seq<HyperSync.Event>,
                                                 trace: seq<HyperSync.State>,
                              chunks: seq<Data>, rules: set<Rule>, block: BlockColumns)
    requires HyperSync.IsRun(cfg, script, trace)
    requires Chunks(chunks, trace[|script|].delivered, rules, block)
    ensures GoodStream(chunks, rules, block)
  {
    var ranges := trace[|script|].delivered;
    HyperSync.EveryStateSound(cfg, script, trace, |script|);
    forall i, j | 0 <= i < j < |chunks| ensures DisjointBlocks(rules, block, chunks[i], chunks[j]) {
      HyperSync.TilesAreOrdered(cfg.firstBlock, ranges, i, j);
      RangesApart(chunks[i], ranges[i], chunks[j], ranges[j], rules, block);
    }
  }

  // ---------------------------------------------------------------- last blocks

  predicate InRange(range: HyperSync.Range, n: int) {
    range.first <= n < range.end
  }

  ghost predicate IdsWithin(d: Data, range: HyperSync.Range) {
    forall n | n in BlockIds(d) :: InRange(range, n)
  }

  /** On a driver run every item's last block lies in the configured window, and later items have
      higher ones. */
  lemma {:induction false} LastBlocksAdvance(cfg: HyperSync.Config, script: seq<HyperSync.Event>,
                                             trace: seq<HyperSync.State>, chunks: seq<Data>, lasts: seq<Option<int>>)
    requires HyperSync.IsRun(cfg, script, trace)
    requires |lasts| == |chunks| == |trace[|script|].delivered|
    requires forall i | 0 <= i < |chunks| ::
               IdsWithin(chunks[i], trace[|script|].delivered[i]) && IsLastBlock(chunks[i], lasts[i])
    ensures forall i | 0 <= i < |lasts| && lasts[i].Some? :: cfg.firstBlock <= lasts[i].value
    ensures HyperSync.Ordered(cfg) && cfg.lastBlock.Some? ==>
              forall i | 0 <= i < |lasts| && lasts[i].Some? :: lasts[i].value <= cfg.lastBlock.value
    ensures forall i, j | 0 <= i < j < |lasts| && lasts[i].Some? && lasts[j].Some? :: lasts[i].value < lasts[j].value
  {
    var ranges := trace[|script|].delivered;
    HyperSync.EveryStateSound(cfg, script, trace, |script|);
    forall i | 0 <= i < |lasts| && lasts[i].Some?
      ensures InRange(ranges[i], lasts[i].value)
      ensures cfg.firstBlock <= lasts[i].value < HyperSync.TilesEnd(cfg.firstBlock, ranges)
    {
      assert IdsWithin(chunks[i], ranges[i]) && lasts[i].value in BlockIds(chunks[i]);
      var n: nat := lasts[i].value;
      HyperSync.TilesCover(cfg.firstBlock, ranges, n);
      assert HyperSync.Covers(ranges[i], n);
    }
    forall i, j | 0 <= i < j < |lasts| && lasts[i].Some? && lasts[j].Some? ensures lasts[i].value < lasts[j].value {
      HyperSync.TilesAreOrdered(cfg.firstBlock, ranges, i, j);
    }
  }

  /** The block column of a table is fetched iff the caller asked for it or some request's link starts or
      ends there; otherwise a chunk need not show the block of any of that table's rows. */
  lemma {:induction false} BlockColumnFetchedIff(q: EvmQuery, query: Query, request: Fields, t: TableName)
    requires IsCompiled(EvmKeys, EvmAsks(q), EvmBlockColumn, query) && t in query.fields
    requires Grown(query.fields, request, (u, col) => AnyReads(Rules(query), u, col))
    ensures EvmBlockColumn(t) in request[t] <==> EvmBlockColumn(t) in query.fields[t] || Linked(EvmAsks(q), t)
  {
    EvmListsAvoidBlock(q);
    ReadsBlockIffLinked(EvmKeys, EvmAsks(q), Rules(query), t, EvmBlockColumn);
  }

  // ---------------------------------------------------------------- the whole step

  /** The data of the items of a stream, concatenated; a failed item fails the whole. */
  function Joining(items: seq<Result<StreamItem>>): Result<Data>
    requires items != []
  {
    var first := if items[0].Success? then Success(items[0].value.data) else Failure;
    if |items| == 1 then first else Glue(first, Joining(items[1..]))
  }

  /** Each arrived chunk has the requested columns of the full chunk it stands for. */
  ghost predicate Sends(arrived: seq<Result<Data>>, full: seq<Data>, q: Query, request: Fields) {
    && |full| <= |arrived|
    && forall i | 0 <= i < |full| :: arrived[i].Success? && Prunes(full[i], arrived[i].value, q, request)
  }

  lemma {:induction false} ItemsJoin(items: seq<Result<StreamItem>>, arrived: seq<Result<Data>>, full: seq<Data>,
                                     q: Query,
                                     request: Fields)
    requires full != [] && |items| == |arrived| == |full| && Sends(arrived, full, q, request)
    requires CoversQuery(q, request) && TablesListed(q)
    requires forall i | 0 <= i < |arrived| :: ItemFor(arrived[i], q, items[i])
    ensures Joining(items) == PerChunk(full, q)
  {
    PruningPreservesOutcome(full[0], arrived[0].value, q, request);
    if |items| > 1 {
      ItemsJoin(items[1..], arrived[1..], full[1..], q, request);
    }
  }

  /** The caller gets every table the requests reach, with the requested columns of exactly the rows
      that are due. */
  ghost predicate Answered(whole: Data, all: Data, keys: Keys, asks: seq<Ask>, fields: Fields) {
    && (forall t :: t in whole <==> t in fields && Reached(asks, t))
    && forall t | t in whole :: Delivers(all, keys, asks, t, fields[t], whole[t])
  }

  lemma {:induction false} OutcomeAnswers(all: Data, q: Query, keys: Keys, asks: seq<Ask>, block: BlockColumns)
    requires ValidData(all) && IsCompiled(keys, asks, block, q) && Outcome(all, q).Success?
    ensures Answered(Outcome(all, q).value, all, keys, asks, q.fields)
  {
    forall t | t in Outcome(all, q).value ensures Delivers(all, keys, asks, t, q.fields[t], Outcome(all, q).value[t]) {
      OutcomeDelivers(all, q, keys, asks, t);
    }
  }

  /** What a stream over these chunks gives: the items of the chunks concatenate to the answer over
      all of them. */
  ghost predicate StreamAnswers(items: seq<Result<StreamItem>>, full: seq<Data>, q: Query, keys: Keys, asks: seq<Ask>)
    requires full != [] && OneSchema(full)
  {
    && |full| <= |items|
    && Joining(items[..|full|]) == Outcome(AppendAll(full), q)
    && (Joining(items[..|full|]).Success? ==>
          Answered(Joining(items[..|full|]).value, AppendAll(full), keys, asks, q.fields))
  }

  lemma {:induction false} GoodStreamAnswers(items: seq<Result<StreamItem>>, arrived: seq<Result<Data>>,
                                             full: seq<Data>,
                                             q: Query, request: Fields, keys: Keys, asks: seq<Ask>, block: BlockColumns)
    requires IsCompiled(keys, asks, block, q) && CoversQuery(q, request)
    requires |items| == |arrived| && Sends(arrived, full, q, request)
    requires forall i | 0 <= i < |arrived| :: ItemFor(arrived[i], q, items[i])
    requires GoodStream(full, Rules(q), block)
    ensures StreamAnswers(items, full, q, keys, asks)
  {
    var n := |full|;
    ItemsJoin(items[..n], arrived[..n], full, q, request);
    StreamingEqualsBatch(full, q, block);
    if Outcome(AppendAll(full), q).Success? {
      OutcomeAnswers(AppendAll(full), q, keys, asks, block);
    }
  }

  /** `make_req_fields`, short of its serialisation: the columns to fetch. */
  method MakeRequestFields(q: Query) returns (r: Result<Fields>)
    ensures TablesListed(q) ==> r.Success?
    ensures r.Success? ==> Grown(q.fields, r.value, (t, col) => AnyReads(Rules(q), t, col))
    ensures r.Success? ==> CoversQuery(q, r.value)
  {
    var request := new RequestQuery(q);
    RulesIgnoreFields(q, map[]);
    var ok := request.AddRequestAndIncludeFields();
    if !ok {
      if TablesListed(q) {
        ClosureSucceeds(q);
      }
      return Failure;
    }
    ClosureCovers(q, request.fields);
    return Success(request.fields);
  }

  /** Compiles an EVM query, widens its columns and runs it on everything a provider sends. It fails
      iff columns are requested of a table nothing brings in. On the chunks of a driver run, whatever
      columns beyond the requested ones they hold, the items concatenate to the answer over all
      delivered blocks: exactly the rows the requests ask for. */
  method StreamEvm(q: EvmQuery, arrived: seq<Result<Data>>, hash: QueryEngine.ValueHash,
                   keyHash: QueryEngine.KeyHash, ghost full: seq<Data>, ghost cfg: HyperSync.Config,
                   ghost script: seq<HyperSync.Event>, ghost trace: seq<HyperSync.State>)
    returns (compiled: Result<Query>, request: Fields, items: seq<Result<StreamItem>>)
    requires forall i | 0 <= i < |arrived| && arrived[i].Success? :: ValidData(arrived[i].value)
    requires HyperSync.IsRun(cfg, script, trace)
    ensures compiled.Failure? <==> exists t :: EvmFieldsOf(q, t) != [] && !Reached(EvmAsks(q), t)
    ensures compiled.Success? ==> compiled.value.fields.Keys == EVM_TABLES
    ensures compiled.Success? ==> forall t | t in EVM_TABLES :: compiled.value.fields[t] == EvmFieldsOf(q, t)
    ensures compiled.Success? ==>
              Grown(compiled.value.fields, request, (t, col) => AnyReads(Rules(compiled.value), t, col))
    ensures compiled.Success? ==>
              |items| == |arrived| && forall i | 0 <= i < |arrived| :: ItemFor(arrived[i], compiled.value, items[i])
    ensures (compiled.Success? && Sends(arrived, full, compiled.value, request)
             && Chunks(full, trace[|script|].delivered, Rules(compiled.value), EvmBlockColumn)) ==>
              StreamAnswers(items, full, compiled.value, EvmKeys, EvmAsks(q))
  {
    items, request := [], map[];
    compiled := EvmQueryToGeneric(q);
    if compiled.Failure? {
      return;
    }
    var query := compiled.value;
    var columns := MakeRequestFields(query);
    request := columns.value;
    items := RunStream(arrived, query, hash, keyHash);
    if Sends(arrived, full, query, request) && Chunks(full, trace[|script|].delivered, Rules(query), EvmBlockColumn) {
      RunDeliversGoodStream(cfg, script, trace, full, Rules(query), EvmBlockColumn);
      GoodStreamAnswers(items, arrived, full, query, request, EvmKeys, EvmAsks(q), EvmBlockColumn);
    }
  }

  /** The same for a Solana query, which always compiles, and any source of chunks with disjoint slots. */
  method StreamSvm(q: SvmQuery, arrived: seq<Result<Data>>, hash: QueryEngine.ValueHash, keyHash: QueryEngine.KeyHash,
                   ghost full: seq<Data>)
    returns (compiled: Query, request: Fields, items: seq<Result<StreamItem>>)
    requires forall i | 0 <= i < |arrived| && arrived[i].Success? :: ValidData(arrived[i].value)
    ensures compiled.fields.Keys == SVM_TABLES
    ensures forall t | t in SVM_TABLES :: compiled.fields[t] == SvmFieldsOf(q, t)
    ensures Grown(compiled.fields, request, (t, col) => AnyReads(Rules(compiled), t, col))
    ensures |items| == |arrived| && forall i | 0 <= i < |arrived| :: ItemFor(arrived[i], compiled, items[i])
    ensures Sends(arrived, full, compiled, request) && GoodStream(full, Rules(compiled), SvmBlockColumn) ==>
              StreamAnswers(items, full, compiled, SvmKeys, SvmAsks(q))
  {
    compiled := SvmQueryToGeneric(q);
    var columns := MakeRequestFields(compiled);
    request := columns.value;
    items := RunStream(arrived, compiled, hash, keyHash);
    if Sends(arrived, full, compiled, request) && GoodStream(full, Rules(compiled), SvmBlockColumn) {
      GoodStreamAnswers(items, arrived, full, compiled, request, SvmKeys, SvmAsks(q), SvmBlockColumn);
    }
  }
}
