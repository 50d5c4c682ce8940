# Tiders: the data path, modelled and proved in Dafny

Tiders fetches blockchain data from a provider range by range, filters and joins every chunk locally, decodes
contract data, and flattens the result into columns. This project models that path and proves what it promises.
`dafny verify dfyconfig.toml` checks all of it. Every induction is written out: lemmas carry
`{:induction false}`.

| part | files |
|---|---|
| local query engine: filters, selections, one-hop joins, hash index, column pruning | `Tables`, `HashIndex`, `QuerySpec`, `QueryEngine`, `QueryLaws`, `Pruning` |
| what requests ask for, their compilers, chunk-by-chunk use, HyperSync driver, all together | `Requests`, `Compile`, `RequestLaws`, `SchemaLaws`, `Streaming`, `LastBlock`, `HyperSync`, `Ingest` |
| discriminator pushdown to SQD | `SqdPushdown` |
| Borsh decoding | `Bytes`, `DynTypes`, `Borsh`, `BorshWire`, `Deserialize` |
| Solana shredding and instruction batches | `SvmShred`, `SvmShredRun`, `SvmMeaning`, `SvmLossless`, `SvmReadback`, `SvmDecode`, `SvmBatches`, `SvmDecodeRun` |
| Solidity shredding, calls and events | `EvmShred`, `EvmShredRun`, `EvmMeaning`, `EvmReadback`, `EvmDecode`, `EvmEvents`, `EvmLogs` |
| Arrow layout, flattening, column names, wide integers | `Arrow`, `Kernels`, `Flatten`, `FlattenBatch`, `NameCollisions`, `WideInts` |

What the specification functions compute is fixed a second time, without them, in bytes, cells and plain numbers:
`BorshWire` says what stands on the wire, `EvmMeaning` and `SvmMeaning` what cell holds which value and what type a
column has, `SvmBatches`, `EvmDecode.ShowsCall` and `EvmEvents.ShowsEvents` what a decoded batch shows.

Where the program works by loops and updates, a method with the same loops is proved to compute a specification
function or to keep the state the specification describes; the theorems are about the specification. Data that is
only read is a value: a record batch is a row count and named columns, a mask a sequence of optional booleans, a
join key a tuple in which null equals null. The hash is an arbitrary function, the server and its head height are
events outside the program's control, and ABI decoding starts from already decoded values. Library array
constructors are modelled with the checks they make, so that "construction never fails" is a theorem.

## What turned out different

- A null under a boolean filter makes the mask null, and a later OR keeps it null: a row that another selection
  asks for is lost (`QueryLaws.NullBooleanLosesSelectedRow`). The documented meaning holds of a table exactly when
  no selected row has such a null (`QueryLaws.RelationalMeaning`).
- The comment at `cast/src/lib.rs:506-510` says the 16-byte form of a `Decimal128` is what `large_int_as_binary`
  emits. The code emits 32 bytes (`evm-decode/src/arrow_convert.rs:248-280`); the 16 bytes are the low half of that
  word (`WideInts.Be16IsLowHalf`).
- Shredding loses the difference between an empty option and an option whose content reads as null. A type keeps
  all its values apart exactly when it has no such option (`SvmReadback.InjectiveIffLossless`).
- A call without parameters never decodes: a record batch needs a column (`EvmDecode.NoParametersNeverDecode`).
- Topics come back under positional names, the announced schema has component names. Event batches are built
  exactly when no more than three parameters are indexed and no indexed tuple names its components
  (`EvmEvents.EventBatchIff`; `EvmEvents.NamedTopicTupleNeverDecodes` is an event that never decodes).
- A head request can be empty when the configured range is reversed and the driver goes to the head, and only then
  (`HyperSync.HeadRequestsNonEmptyIff`).
- Discriminators of 5 to 7 or more than 8 bytes are cut before they are pushed down; the remote request then accepts
  more than the local filter, never less (`SqdPushdown.ExactIffUncut`, `SqdPushdown.PushdownLosesNothing`).
- Renamed columns can still collide with an original name (`NameCollisions.RenamedOntoTakenName`); the exact condition
  is `NameCollisions.DistinctIffNoClash`.
- An instruction request with `include_logs` also brings in the instructions of the same slot and address, in other
  transactions too (`RequestLaws.IncludeLogsBringsAddress`, `RequestLaws.IncludeLogsCrossesTransactions`).
- An instruction that one request asks for is lost when another request wants committed ones and its flag is null
  (`RequestLaws.SvmUnsettledIff`); EVM requests cannot disturb one another so (`RequestLaws.EvmSettled`).
- The comment at `ingest/src/lib.rs:177-182` says the block id columns are guaranteed to be there and are named `slot`
  in Solana tables. Only the blocks table has a `slot`, the others have `block_slot`, which is not looked for
  (`LastBlock.SlotsOfInstructionsUnseen`); and an EVM request without includes does not fetch the block column
  (`Ingest.BlockColumnFetchedIff`). Where block ids are there, last blocks do advance (`Ingest.LastBlocksAdvance`).
- The compilers filter on columns the schema crates lack: on data of the published schemas a compiled EVM query fails
  exactly when it names deployed contracts (`SchemaLaws.EvmAnswersOnSchema`), a Solana query exactly when it names
  3-byte discriminators (`SchemaLaws.SvmAnswersOnSchema`).
- Under `allow_decode_fail` a native integer column shows an overflowing word as a null, and without
  `large_int_as_binary` a column of 65 to 128 bits keeps only the low half of each word. Columns determine their rows
  exactly without such integers (`EvmReadback.InjectiveIffKept`).

## Model

| member | source | states |
|---|---|---|
| HashIndex.HashTable.WithCapacity | query/src/lib.rs:176-180 | a new index holds nothing, under any hash |
| HashIndex.HashTable.InsertUnique | query/src/lib.rs:181-185 | whatever growing and rehashing happens, exactly the new element is added and every element stays under its hash |
| HashIndex.HashTable.Find | query/src/lib.rs:467-474 | a probe succeeds iff some stored element of that hash matches |
| HashIndex.StoredInItsBucket | query/src/lib.rs:176-204 | an element is found in the bucket its hash selects or nowhere |
| HashIndex.Contains.constructor | query/src/lib.rs:289-303 | the filter answers for exactly the given values, index or not |
| HashIndex.Contains.Probe | query/src/lib.rs:457-508 | on both sides of the threshold of 128, for any hash and with duplicates, a value is found iff it is one of the filter's values |
| HashIndex.Contains.RawMask | query/src/lib.rs:457-508 | the mask over raw values is membership, slot by slot |
| QueryEngine.CheckFilter | query/src/lib.rs:135-164 | one column under one filter: fails iff the type does not fit, else every slot has its three-valued verdict |
| QueryEngine.StartsWithBytes | query/src/lib.rs:584-602 | a slot passes iff it starts with one of the prefixes |
| QueryEngine.FilterMask | query/src/lib.rs:733-762 | the AND of all filters of a selection, null where a boolean filter is undecided |
| QueryEngine.ColumnsToBinaryArray | query/src/lib.rs:827-862 | join keys: fails iff a key column is missing or cannot be sorted; else one key for each row, and two rows have equal keys iff they agree in every key column, null with null |
| QueryEngine.KeyColumns | query/src/lib.rs:831-852 | the two column loops find every key column, in order, or fail |
| QueryEngine.JoinMask | query/src/lib.rs:783-809 | one include through the per-selection key cache: a target row is marked iff it has a seed row with an equal key |
| QueryEngine.RunTableSelection | query/src/lib.rs:726-825 | one selection: the masks it leaves for every table it mentions are those of the relational rule |
| QueryEngine.SelectFields | query/src/lib.rs:697-724 | projection: fails iff a requested table is missing, else the requested columns in batch order |
| QueryEngine.CombineMasks | query/src/lib.rs:657-682 | the OR over all selections is the mask of the relational specification, absent iff nothing mentions the table |
| QueryEngine.RunQuery | query/src/lib.rs:633-694 | the evaluator returns exactly the relational outcome of the query, failures included |
| QueryLaws.SurvivingRows | query/src/lib.rs:633-694 | a row survives, in order, iff some selection or join selects it and no boolean filter is undecided on it |
| QueryLaws.OutputCells | query/src/lib.rs:684-691 | the output holds the requested columns with exactly the surviving rows' cells |
| Tables.PickedInOrder | query/src/lib.rs:697-724 | the requested columns come out in the order of the batch |
| QueryLaws.BlurredIffNullBoolean | query/src/lib.rs:138-164 | only null slots under boolean filters leave a row undecided |
| QueryLaws.RelationalMeaning | query/src/lib.rs:43-45 | "a row passes if it matches any selection" holds iff no selected row has a null under a boolean filter |
| QueryLaws.NullBooleanLosesSelectedRow | query/src/lib.rs:665-674 | a concrete query in which a selected row is lost to a null |
| QueryLaws.OrderDoesNotMatter | query/src/lib.rs:637-680 | reordering or repeating selections, filters or joins changes neither success nor output |
| Pruning.RequestQuery.AddFilterField | query/src/lib.rs:57-63 | adds the filter's column, fails iff the table has no field entry |
| Pruning.RequestQuery.AddIncludeFields | query/src/lib.rs:65-78 | adds the key columns on both sides, fails iff a side has no field entry |
| Pruning.RequestQuery.AddSelectionFields | query/src/lib.rs:56-80 | adds exactly the columns one selection reads |
| Pruning.RequestQuery.AddRequestAndIncludeFields | query/src/lib.rs:54-83 | the closure succeeds iff every table it needs has a field entry, keeps what was requested and adds exactly the columns the evaluator reads |
| Pruning.ClosureCovers | query/src/lib.rs:54-83 | what the closure adds covers every read of the evaluator |
| Pruning.PruningPreservesOutcome | ingest/src/lib.rs:203-226 | on data that keeps the columns of any superset of the closure, whatever its other columns hold, the query has the same outcome as on the full data, failures included |
| Pruning.ClosureSucceeds | query/src/lib.rs:54-83 | on a query whose touched tables all have field entries, as every compiled query has, the closure never fails |
| Compile.ToFilters | ingest/src/provider/common.rs:564-575 | exactly the non-empty request lists become filters |
| Compile.EvmTransactionSelection | ingest/src/provider/common.rs:114-194 | for a transaction request: the filters of its non-empty lists, and for each include flag that is set the join with all its key columns on both sides, and no other join |
| Compile.EvmTraceSelection | ingest/src/provider/common.rs:200-286 | the same for traces, whose transaction index has another name |
| Compile.EvmLogSelection | ingest/src/provider/common.rs:292-372 | the same for logs |
| Compile.EvmQueryToGeneric | ingest/src/provider/common.rs:16-108 | fails iff columns are requested of a table no request reaches; else the query has a rule for every request and no other, every join is keyed by block, exactly the reached tables are touched, and of each of the four EVM tables the columns requested of it are asked for |
| Compile.SvmInstructionSelection | ingest/src/provider/common.rs:491-643 | the same for instructions, with the discriminator as a prefix filter and the commitment filter iff asked for |
| Compile.SvmTransactionSelection | ingest/src/provider/common.rs:649-694 | the same for Solana transactions |
| Compile.SvmLogSelection | ingest/src/provider/common.rs:700-748 | the same for program logs |
| Compile.SvmBalanceSelection | ingest/src/provider/common.rs:754-799 | the same for balances |
| Compile.SvmTokenBalanceSelection | ingest/src/provider/common.rs:805-876 | the same for token balances |
| Compile.SvmRewardSelection | ingest/src/provider/common.rs:882-911 | the same for rewards |
| Compile.SvmQueryToGeneric | ingest/src/provider/common.rs:374-485 | never fails: a rule for every request of every kind and no other, every join keyed by slot, every touched table with a field entry, and of each Solana table the columns requested of it |
| Compile.TouchedIffReached | ingest/src/provider/common.rs:161-191 | the compiled rules touch a table iff a request is on it or a set include flag leads there |
| RequestLaws.FiltersAccept | ingest/src/provider/common.rs:564-579 | the compiled filters pass exactly the rows that are in every non-empty list of the request, and are undecided only where a committed request meets a null flag |
| RequestLaws.ValuesAreAccepted | ingest/src/provider/common.rs:564-575 | a list of byte strings, texts or numbers accepts exactly the cells that are one of them; on instruction data, the data that starts with one of them |
| RequestLaws.SelectedIffWanted | ingest/src/provider/common.rs:114-911 | a compiled query selects a row iff some request accepts it, or it agrees in the key columns of a set include flag (same block, transaction, instruction or address) with a row that request accepts |
| RequestLaws.BlurredIffUnsettled | ingest/src/provider/common.rs:577-579 | a row is left undecided iff a request on its table wants committed rows and its flag is null |
| RequestLaws.EvmSettled | ingest/src/provider/common.rs:16-108 | EVM requests never leave a row undecided |
| RequestLaws.SvmUnsettledIff | ingest/src/provider/common.rs:577-579 | Solana requests do so only on instructions with a null commitment flag, and only if some request wants committed ones |
| RequestLaws.OutcomeDelivers | query/src/lib.rs:684-691 | each output table of a compiled query is the requested columns of exactly the rows the requests ask for, in order |
| RequestLaws.ReadsBlockIffLinked | ingest/src/provider/common.rs:161-191 | evaluating a compiled query reads the block column of exactly the tables some set include flag starts or ends at |
| RequestLaws.IncludeLogsBringsAddress | ingest/src/provider/common.rs:623-632 | with `include_logs` every instruction of the slot and address of an accepted one comes in, in whatever transaction |
| RequestLaws.IncludeLogsCrossesTransactions | ingest/src/provider/common.rs:623-632 | two concrete instructions of different programs and transactions, of which the second comes in that way |
| SchemaLaws.RulesOkIffAnswered | query/src/lib.rs:633-825 | a compiled query is evaluated without failure iff the data has the columns of every request's non-empty lists, of a type that can be compared, and the keys of its joins |
| SchemaLaws.EvmAnswersOnSchema | evm-schema/src/lib.rs:27-202 | on data of the EVM schemas a compiled query fails iff a transaction request names deployed contracts |
| SchemaLaws.SvmAnswersOnSchema | svm-schema/src/lib.rs:26-202 | on data of the Solana schemas a compiled query fails iff an instruction request names 3-byte discriminators |
| Streaming.TwoChunks | query/src/lib.rs:633-825 | on two chunks with disjoint non-null block ids, one run on both is the concatenation of two runs, failures included |
| Streaming.StreamingEqualsBatch | ingest/src/lib.rs:260-275 | the same for any number of chunks and any query whose joins are keyed by block |
| Streaming.RunStream | ingest/src/lib.rs:260-275 | every item is the provider's error, or the query's outcome on the chunk with the chunk's last block, in order |
| LastBlock.ArrayMax | ingest/src/lib.rs:192-197 | the maximum of the non-null values, none if there are none |
| LastBlock.ExtractLastBlock | ingest/src/lib.rs:183-201 | the largest value in any 64-bit column named `block_number`, `number` or `slot` of any table, none if there is none |
| LastBlock.SlotsOfInstructionsUnseen | ingest/src/lib.rs:177-184 | a chunk with an instruction in slot 7 and no last block |
| HyperSync.Driver.constructor | ingest/src/provider/hypersync.rs:162-166 | the driver starts at the first block with nothing asked or delivered |
| HyperSync.Driver.Issue | ingest/src/provider/hypersync.rs:271-277 | a request is bounded by the original bound and the safe height |
| HyperSync.Driver.BulkItem | ingest/src/provider/hypersync.rs:175-201 | one item of the bulk stream is one step of the state machine |
| HyperSync.Driver.ReadBulk | ingest/src/provider/hypersync.rs:174-201 | the bulk phase runs to its end and decides whether to finish, stop or go to the head |
| HyperSync.Driver.WaitForHead | ingest/src/provider/hypersync.rs:239-247 | polling ends exactly when the next block is old enough |
| HyperSync.Driver.TakeAnswer | ingest/src/provider/hypersync.rs:251-267 | one answer at the head is one step of the state machine |
| HyperSync.Driver.ChainHeadStream | ingest/src/provider/hypersync.rs:228-269 | the head loop ends in the state the run reaches |
| HyperSync.Driver.Run | ingest/src/provider/hypersync.rs:160-219 | the whole task, on any run, ends in the state the run reaches, and every request it makes ends 199 blocks below a height just reported, or behind the last block asked for |
| HyperSync.StepKeepsSound | ingest/src/provider/hypersync.rs:160-277 | every step keeps the deliveries tiled and every request good: at most safe height plus one, never past the last block, and at the head not empty unless the range is reversed |
| HyperSync.EveryStateSound | ingest/src/provider/hypersync.rs:160-277 | that holds in every state of every run, whatever heights are reported |
| HyperSync.StepKeepsDistance | ingest/src/provider/hypersync.rs:239-277 | a step makes at most one request: at reported height h it ends at h - 199 (at block 1 below 200), or behind the last block asked for if that is earlier; at the head it starts 200 blocks below h or at 0, and is made as soon as that is so |
| HyperSync.EveryRequestKeepsDistance | ingest/src/provider/hypersync.rs:239-277 | that holds of every request of every run, and only what was asked for is delivered |
| HyperSync.DeliveredBlocksAreOld | ingest/src/provider/hypersync.rs:271-281 | no block other than 0 is delivered before a height at least 200 above it was reported |
| HyperSync.TilesCover | ingest/src/provider/hypersync.rs:179-181 | tiled deliveries cover exactly one interval, every block once |
| HyperSync.FinishedRunCoversRange | ingest/src/provider/hypersync.rs:193-197 | a run that finishes by itself has delivered exactly the blocks from first to last inclusive, each once |
| HyperSync.BatchesMakeProgress | ingest/src/provider/hypersync.rs:251-267 | every batch strictly shrinks the rest of the request, and no run delivers more batches than there are blocks |
| HyperSync.ReversedRun | ingest/src/provider/hypersync.rs:239-251 | the run in which a reversed range leads to an empty head request |
| HyperSync.HeadRequestsNonEmptyIff | ingest/src/provider/hypersync.rs:239-251 | head requests are non-empty in all runs iff the range is not reversed or the driver stops at the head |
| Ingest.RunDeliversGoodStream | ingest/src/provider/hypersync.rs:160-269 | chunks of a driver run meet the disjointness hypothesis of the streaming theorem |
| Ingest.LastBlocksAdvance | ingest/src/lib.rs:408-430 | on every driver run the last blocks of the items lie in the configured window and strictly increase |
| Ingest.BlockColumnFetchedIff | ingest/src/lib.rs:177-182 | the block column of an EVM table is fetched iff the caller asked for it or a set include flag starts or ends at the table |
| Ingest.MakeRequestFields | ingest/src/lib.rs:203-207 | the columns to fetch: never fails on a compiled query, grows by exactly the columns evaluation reads and covers them |
| Ingest.StreamEvm | ingest/src/lib.rs:229-278 | end to end: compile, widen the columns, run on everything the provider sends. On the chunks of a driver run, whatever else they hold beside the requested columns, the items concatenate to one query over all delivered blocks, and hold of each of the four tables the columns requested of it, in exactly the rows the requests ask for |
| Ingest.StreamSvm | ingest/src/lib.rs:229-278 | the same for Solana queries, which always compile, over chunks with disjoint slots |
| SqdPushdown.PushDown | ingest/src/provider/sqd.rs:131-173 | fails iff a discriminator is empty or two differ in length; else each one, cut to the widest of 1, 2, 3, 4 and 8 bytes it has, joins the list of that width, and the other lists stay |
| SqdPushdown.PushdownLosesNothing | ingest/src/provider/sqd.rs:142-173 | an instruction the local filters accept satisfies all remote lists together |
| SqdPushdown.ExactIffUncut | ingest/src/provider/sqd.rs:149-171 | discriminators alone are pushed down exactly iff their length is 1, 2, 3, 4 or 8 |
| Borsh.RoundTrip | svm-decode/src/deserialize.rs:236-440 | decoding the encoding of a well-typed value gives the value and leaves what follows |
| Borsh.Framing | svm-decode/src/deserialize.rs:236-440 | every success splits the input into a consumed prefix and the rest and depends on the prefix alone |
| Borsh.MoreInput | svm-decode/src/deserialize.rs:236-440 | more input behind a decodable one changes nothing but the rest |
| Borsh.PrefixFree | svm-decode/src/deserialize.rs:236-440 | no value's encoding is a proper prefix of another's of the same type |
| Borsh.Reencoding | svm-decode/src/deserialize.rs:236-440 | a decoded value has its type, and encoding it gives the consumed bytes back, non-zero boolean bytes becoming 1 |
| BorshWire.DecodesIffOnWire | svm-decode/src/deserialize.rs:236-440 | the decoder succeeds with a value and a rest iff the input is the rest behind bytes that stand for the value: little-endian two's complement of 1 to 16 bytes, a byte for booleans, variants and options, a 4-byte count for arrays, parts one behind the other |
| BorshWire.FieldsDecodeIffOnWire | svm-decode/src/deserialize.rs:404-413 | the same for the fields of a struct or the parameters of an instruction |
| BorshWire.EncodingIsOnWire | svm-decode/src/deserialize.rs:236-440 | every well-typed value has bytes that stand for it |
| BorshWire.RangesAreNative | svm-decode/src/deserialize.rs:249-354 | the values of each of the ten integer kinds are those of its native type |
| Deserialize.ChunkIsConsumed | svm-decode/src/deserialize.rs:373-380 | one chunk of a fixed array is consumed exactly |
| Deserialize.FixedArrayFits | svm-decode/src/deserialize.rs:362-372 | a fixed array decodes iff the input holds size times the element's bytes |
| Deserialize.DeserializeFixedArray | svm-decode/src/deserialize.rs:362-382 | cutting into chunks gives the values and the rest of sequential decoding, or fails with it |
| Deserialize.DeserializeArray | svm-decode/src/deserialize.rs:383-403 | the array loop decodes the announced number of elements in sequence |
| Deserialize.DeserializeStruct | svm-decode/src/deserialize.rs:404-413 | the struct loop decodes the fields in order |
| Deserialize.DeserializeValue | svm-decode/src/deserialize.rs:236-440 | the decoder computes the format's decoding function |
| Deserialize.DeserializeData | svm-decode/src/deserialize.rs:198-219 | all parameters in sequence; trailing bytes are an error iff asked for |
| Deserialize.DataRoundTrip | svm-decode/src/deserialize.rs:198-219 | written parameters decode to themselves, with trailing bytes refused iff they are not allowed |
| Deserialize.StrictDataIsCanonical | svm-decode/src/deserialize.rs:198-219 | without trailing bytes a success determines the data up to boolean bytes |
| SvmShred.EnumDtype | svm-decode/src/arrow_converter.rs:79-103 | the announced type of an enum is the type of the struct it is rewritten to |
| SvmShred.EnumMeaning | svm-decode/src/arrow_converter.rs:399-434 | the rewritten struct reads as the index and the chosen payload, every other variant missing |
| SvmShred.ListFaithful | svm-decode/src/arrow_converter.rs:332-377 | the list array is accepted and row i reads as item list i through the offsets |
| SvmShred.ShreddingIsFaithful | svm-decode/src/arrow_converter.rs:22-525 | a successful array has the announced type and the input's length, and row i reads back as value i |
| SvmShredRun.ToNumber | svm-decode/src/arrow_converter.rs:153-221 | any integer that fits the column's type is taken, nothing else |
| SvmShredRun.ToDecimal128 | svm-decode/src/arrow_converter.rs:233-259 | 128-bit integers within i128 are taken, nothing else |
| SvmShredRun.ToBinary | svm-decode/src/arrow_converter.rs:303-322 | arrays of u8 become byte strings |
| SvmShredRun.ToList | svm-decode/src/arrow_converter.rs:332-377 | lengths, gathered items and validity of all rows, as specified |
| SvmShredRun.ToEnum | svm-decode/src/arrow_converter.rs:392-463 | enum rows are rewritten to structs and shredded |
| SvmShredRun.ToOption | svm-decode/src/arrow_converter.rs:127-141 | options are stripped row by row |
| SvmShredRun.ToStructArray | svm-decode/src/arrow_converter.rs:473-525 | one column for each field, grown in lockstep |
| SvmShredRun.ToArrowArray | svm-decode/src/arrow_converter.rs:22-40 | the dispatcher computes the specified array: it succeeds iff the type has a column form and every value is accepted, and then every row holds its value in a column of the tabulated type |
| SvmLossless.SucceedsIff | svm-decode/src/arrow_converter.rs:22-525 | shredding succeeds iff the type has a column form and the builders accept every row; list and batch construction add no failure |
| SvmMeaning.MeaningHolds | svm-decode/src/arrow_converter.rs:153-463 | what an accepted value reads as: the integer, the boolean, the bytes of a u8 array, the items, the fields, the index of the first variant of the name with the payload in its place, the content of an option or a missing cell |
| SvmMeaning.RowOkIffAccepted | svm-decode/src/arrow_converter.rs:153-463 | the builders take exactly the values the type accepts: integers in the native range, 128-bit ones within i128, byte arrays, and what is built from those |
| SvmMeaning.AnnouncedTypeFits | svm-decode/src/arrow_converter.rs:49-117 | the announced type of every Solana type, kind by kind |
| SvmMeaning.ColumnIsAsAnnounced | svm-decode/src/arrow_converter.rs:22-525 | a column is built iff the type has one and takes every value, has the tabulated type, and holds its value in every row |
| SvmReadback.TypedRowOk | svm-decode/src/arrow_converter.rs:233-259 | a well-typed value is refused for nothing but a u128 above the signed range |
| SvmReadback.ReadsBack | svm-decode/src/arrow_converter.rs:22-525 | on a lossless type two well-typed values that read alike are equal |
| SvmReadback.LossyCollides | svm-decode/src/arrow_converter.rs:127-141 | on any other type two different values have the same columns |
| SvmReadback.InjectiveIffLossless | svm-decode/src/arrow_converter.rs:22-525 | reading back is injective iff no option's content can itself read as null |
| SvmReadback.VariantIndexIsWireByte | svm-decode/src/arrow_converter.rs:401-434 | `variant_index` is the byte the value was decoded from, and the other variants read as missing |
| SvmReadback.ColumnsDetermineRows | svm-decode/src/arrow_converter.rs:22-525 | equal arrays of a lossless type come from equal rows |
| SvmDecode.RowIsWholeOrMissing | svm-decode/src/lib.rs:292-348 | a row is decoded in full or missing in every parameter |
| SvmBatches.DecodedIffReadable | svm-decode/src/lib.rs:292-348 | a row is decoded iff its data is the discriminator, bytes that stand for the parameters, and anything |
| SvmBatches.WrittenRowIsRead | svm-decode/src/lib.rs:322-328 | a row written as discriminator, parameters and any trailing bytes has exactly those parameters |
| SvmBatches.MissingIff | svm-decode/src/lib.rs:292-348 | a row has no parameter iff its data is null, starts differently, or has no parameters behind the discriminator |
| SvmBatches.BatchIsDecoded | svm-decode/src/lib.rs:153-409 | decoding a batch, filtered or not, stacked or not, succeeds iff the columns are there and every row that reaches the output is decoded with values its columns accept, or may fail; then exactly those rows come out in order, with their parameters, accounts and stacked columns under the announced names and types |
| SvmDecode.DroppedRowsAreMissing | svm-decode/src/lib.rs:585-612 | a row the filter drops has no parameter |
| SvmDecode.FilteringCommutesWithDecoding | svm-decode/src/lib.rs:153-279 | decoding the filtered batch gives exactly the matching rows of the decoded whole, in every parameter, account and stacked column, and succeeds when that does |
| SvmDecode.AccountsStayInPlace | svm-decode/src/lib.rs:167-242 | on success the column of account i holds the cells of `a{i}`, from the tenth on of element i - 10 of `rest_of_accounts`, although columns of another type are skipped |
| SvmDecode.StackingAppendsInput | svm-decode/src/lib.rs:614-625 | stacking adds no failure and puts the input's columns behind the decoded ones |
| SvmDecodeRun.DecodeRows | svm-decode/src/lib.rs:287-348 | all parameter vectors grow in lockstep; without leave to fail the first bad row is an error |
| SvmDecodeRun.DecodeInstructionRows | svm-decode/src/lib.rs:281-409 | parameters and accounts under their names, as specified |
| SvmDecodeRun.UnpackRestOfAccounts | svm-decode/src/lib.rs:106-147 | fails iff a list is too short, else column i holds account i of every row |
| SvmDecodeRun.GatherAccounts | svm-decode/src/lib.rs:167-242 | ten fixed account columns at most, the others unpacked; a column of another type is skipped |
| SvmDecodeRun.HStack | svm-decode/src/lib.rs:614-625 | the stacking loop builds the specified batch |
| SvmDecodeRun.DecodeInstructionsBatch | svm-decode/src/lib.rs:153-279 | the batch decoder, filter and stacking included, computes the specified columns, and succeeds and shows what `SvmBatches.BatchIsDecoded` says |
| WideInts.Decimal128IsCongruent | evm-decode/src/arrow_convert.rs:292-329 | the decimal of any value is congruent to it modulo 2^128 |
| WideInts.Decimal128IsExact | evm-decode/src/arrow_convert.rs:282-291 | it is the value iff the value fits i128 |
| WideInts.Decimal256IsExact | evm-decode/src/arrow_convert.rs:331-371 | the 256-bit decimal is the value iff the value fits i256 |
| WideInts.Be32IsWord | cast/src/lib.rs:487-504 | the 32-byte form of the decimal is the ABI word |
| WideInts.Be16IsLowHalf | cast/src/lib.rs:506-522 | the 16-byte form is the low half of the word, whose high half is the sign or zero extension |
| WideInts.DecimalRoundTrip | cast/src/lib.rs:419-462 | decimals survive the trip through binary, which has no leading zero; exactly the negative ones are refused |
| WideInts.BinaryRoundTrip | cast/src/lib.rs:419-462 | binary survives up to its leading zeros |
| WideInts.U256ColumnFromBinary | cast/src/lib.rs:419-442 | fails iff some value has more than 32 bytes or reaches 2^255; nulls stay |
| WideInts.U256ColumnToBinary | cast/src/lib.rs:445-462 | fails iff some value is negative, else trimmed bytes; nulls stay |
| WideInts.Decimal256ToBe32 | cast/src/lib.rs:493-504 | 32 bytes of two's complement for every value; nulls stay |
| WideInts.Decimal128ToBe16 | cast/src/lib.rs:511-522 | 16 bytes of two's complement for every value; nulls stay |
| EvmShred.FixedListFaithful | evm-decode/src/arrow_convert.rs:486-545 | missing rows take n missing items, so that row i starts at i * n; accepted iff n fits 32 bits |
| EvmShred.ShreddingIsFaithful | evm-decode/src/arrow_convert.rs:162-208 | a successful array has the announced type and the input's length, and row i reads back as value i |
| EvmShred.ConstructionNeverFails | evm-decode/src/arrow_convert.rs:432-613 | list, fixed list and struct construction refuse nothing their children accept |
| EvmShred.BinaryFlagKeepsDecimals | evm-decode/src/arrow_convert.rs:174-187 | the binary form under `large_int_as_binary` is, or ends in, the fixed binary form of the decimal |
| EvmMeaning.ColumnHoldsValues | evm-decode/src/arrow_convert.rs:162-700 | every row of a column holds its value: booleans, texts and bytes as they are, integers that fit the native type as themselves, wide ones as their word or the decimal congruent to them, and items and fields likewise; missing values are null, missing tuples have missing fields |
| EvmMeaning.AnnouncedTypeFits | evm-decode/src/arrow_convert.rs:29-158 | the announced type of every Solidity type: the smallest native integer, decimals or bytes, components numbered from 0 |
| EvmMeaning.AnnouncedIff | evm-decode/src/arrow_convert.rs:29-78 | a type is announced iff it holds no function and no size of 2^31 or more |
| EvmMeaning.ConversionSucceedsIff | evm-decode/src/arrow_convert.rs:162-700 | a column is built iff its type is announced and takes every value |
| EvmReadback.ReadsBack | evm-decode/src/arrow_convert.rs:162-208 | where integers are kept apart, two values that read alike are equal |
| EvmReadback.LostValuesCollide | evm-decode/src/arrow_convert.rs:282-329 | on any other type two different values have the same columns |
| EvmReadback.InjectiveIffKept | evm-decode/src/arrow_convert.rs:162-208 | columns determine their rows, missing ones included, iff no integer in the type can overflow into a null or be cut to a 128-bit decimal and the type has a column |
| EvmReadback.ColumnsDetermineRows | evm-decode/src/arrow_convert.rs:162-208 | equal columns of such a type come from equal rows |
| EvmShredRun.ListParts | evm-decode/src/arrow_convert.rs:438-463 | lengths, gathered items and validity of all rows |
| EvmShredRun.FixedParts | evm-decode/src/arrow_convert.rs:493-522 | gathered items with padding, and validity |
| EvmShredRun.ToStruct | evm-decode/src/arrow_convert.rs:547-613 | one column for each tuple field, named by position |
| EvmShredRun.ToArrowArray | evm-decode/src/arrow_convert.rs:162-208 | the dispatcher computes the specified array: it succeeds iff the type has a column and takes every value, and then every row holds its value in a column of the tabulated type |
| EvmDecode.NamedColumnAgrees | evm-decode/src/arrow_convert.rs:702-785 | a named column has the type `param_to_arrow_dtype` announces, names and arrays of tuples included |
| EvmDecode.NamedSucceedsIff | evm-decode/src/arrow_convert.rs:702-785 | naming the components of a tuple changes neither what has a column nor what is accepted |
| EvmDecode.AnnouncedParamsFit | evm-decode/src/arrow_convert.rs:83-118 | announced fields are named after their parameters or by number, with component names below plain tuples and column types elsewhere |
| EvmDecode.BatchMatchesSchema | evm-decode/src/lib.rs:144-162 | the batch under the announced schema is built iff there is a parameter, never refused for types or lengths |
| EvmDecode.DecodedCallHasAnnouncedSchema | evm-decode/src/lib.rs:92-213 | every successful call decode has exactly the announced flat schema, one row per blob, and in it flat cells that hold the values the blob was decoded to, or are missing where there is no blob or it was not decoded |
| EvmDecode.CallDecodesIff | evm-decode/src/lib.rs:92-213 | a call is decoded iff it has parameters, all with columns, every blob was decoded to values they take or may fail, and flattening leaves a column and its indices fit |
| EvmDecode.NoParametersNeverDecode | evm-decode/src/lib.rs:157-163 | without parameters the batch is refused |
| EvmDecode.BuildStructNamed | evm-decode/src/arrow_convert.rs:702-785 | the loops of `to_struct_named` compute the specified struct |
| EvmDecode.DecodeCallRows | evm-decode/src/lib.rs:92-164 | call decoding computes the specified batch, succeeds iff `EvmDecode.CallDecodesIff` says so, and shows in every row what its blob was decoded to |
| EvmEvents.SameTypeIffDefaultNamed | evm-decode/src/arrow_convert.rs:83-118 | announced and positional types agree iff every component is named by its position |
| EvmEvents.EventBatchIff | evm-decode/src/lib.rs:278-363 | the event batch, with or without stacked columns, is built iff there is a column, at most three parameters are indexed, and no indexed tuple names its components |
| EvmEvents.NamedTopicTupleNeverDecodes | evm-decode/src/lib.rs:354-364 | a concrete event whose schema and arrays are made and that still never decodes |
| EvmEvents.DecodedEventHasAnnouncedSchema | evm-decode/src/lib.rs:275-364 | every successful event decode has exactly the announced flat schema, indexed parameters first, then that of the stacked columns, a row for every log, and in it flat cells that hold what its topics and its body were decoded to, or are missing where nothing was |
| EvmEvents.EventDecodesIff | evm-decode/src/lib.rs:275-364 | an event is decoded iff the batch fits its schema, every topic and body was decoded to values its columns take or may fail, and flattening leaves a column and its indices fit |
| EvmEvents.EventSchemaFits | evm-decode/src/lib.rs:385-427 | every parameter has its announced field, at its place among the indexed or the other parameters, named after it or by its number among all |
| EvmEvents.DecodeTopicColumn | evm-decode/src/arrow_convert.rs:788-819 | one topic column, undecodable rows missing or an error |
| EvmEvents.DecodeBodyColumns | evm-decode/src/arrow_convert.rs:823-875 | the body columns under component names |
| EvmEvents.DecodeEventRows | evm-decode/src/lib.rs:275-364 | event decoding behind the filter computes the specified batch, succeeds iff `EvmEvents.EventDecodesIff` says so, and shows in every row what its log was decoded to |
| EvmEvents.StackColumns | evm-decode/src/lib.rs:354-359 | the input's fields and arrays are appended in order |
| EvmLogs.MatchingRows | evm-decode/src/arrow_convert.rs:884-901 | the filter keeps the rows whose topic0 is the selector, in order, and no others |
| EvmLogs.KeptRowDecodesAlike | evm-decode/src/lib.rs:459-478 | a kept log decodes to what it did at its place in the whole batch |
| EvmLogs.DecodedLogsAreTheMatchingOnes | evm-decode/src/lib.rs:258-365 | decoding a batch, filtered or not, stacked or not: on success exactly the matching logs, in order, each decoded, under the announced schema |
| EvmLogs.LogsDecodeIff | evm-decode/src/lib.rs:258-365 | a batch of logs is decoded iff `topic0` is binary where it is filtered on and the logs that reach the output can be decoded, whatever the others hold |
| EvmLogs.FilterByTopic0 | evm-decode/src/lib.rs:459-478 | the mask loop and filter: without a `topic0` column nothing is dropped, one of another type is an error |
| EvmLogs.DecodeLogRows | evm-decode/src/lib.rs:258-365 | the whole of `decode_events` computes the specified batch, and on success shows exactly the matching logs, each holding what it was decoded to |
| Kernels.TakeGathers | cast/src/lib.rs:653-654 | gathering rows keeps them readable as they were, through lists, fixed lists and structs |
| Kernels.PropagateReads | cast/src/lib.rs:705-720 | rows null in the parent become null, all others stay |
| Flatten.ElementReads | cast/src/lib.rs:648-656 | the gather at r * n + i is exactly element i of row r, null when the row is |
| Flatten.IndicesFitIff | cast/src/lib.rs:649-652 | the indices of an element fit iff each r * n + i is below 2^31 |
| Flatten.FlatteningIsFaithful | cast/src/lib.rs:614-701 | expansion succeeds iff the gather indices fit 32 bits; then fields are those of the schema mirror and every row holds its flat cells |
| FlattenBatch.FlatColumnMeaning | cast/src/lib.rs:614-678 | the flat column of a path is named by the dotted names on the way, has the type found there and holds the nested cell at the path, as text exactly for lists of structs, null iff the cell or an ancestor is |
| FlattenBatch.FlattenedBatchHasFlattenedSchema | cast/src/lib.rs:587-612 | a batch flattens iff the indices fit and a column comes out, and has exactly the flattened schema |
| FlattenBatch.ExpandInto | cast/src/lib.rs:614-678 | expansion pushes the flat columns behind those already out |
| FlattenBatch.GatherIndices | cast/src/lib.rs:649-652 | the indices are r * n + i, in order; fails iff one of them reaches 2^31 |
| FlattenBatch.FlattenColumns | cast/src/lib.rs:587-599 | flattening a batch computes the specified columns |
| NameCollisions.ResolveNameCollisions | cast/src/lib.rs:724-745 | in place: each repeated field gets the number of earlier fields of its name, types and order stay |
| NameCollisions.FirstsAreKept | cast/src/lib.rs:722-723 | a field keeps its name iff it is the first of that name |
| NameCollisions.GeneratedInjective | cast/src/lib.rs:735 | two generated names are equal only for the same name and number |
| NameCollisions.DecimalReads | cast/src/lib.rs:735 | the number in a name is written in decimal digits that stand for it, without a leading zero |
| NameCollisions.DistinctIffNoClash | cast/src/lib.rs:724-745 | the resulting names are pairwise distinct iff no original name is a generated one |
| NameCollisions.RenamedOntoTakenName | cast/src/lib.rs:724-745 | the names a, a, a_1 come out as a, a_1, a_1 |

## Left out

- Network clients, retries, channels, thread pools and logging: parallel maps are ordered maps, the server is a sequence of events with a stated contract (an answer continues inside the requested range).
- Error texts: a failure carries no message.
- QuerySpec.KeyOk: an include without key columns counts as a failure, because what the row converter makes of no columns is the library's.
- QuerySpec.KeyAt: keys of columns of different types are compared by value, while the row encoding also depends on the type; compiled joins pair columns of equal type.
- QueryEngine.RunQuery: filter arrays are taken as non-nullable, as their constructors demand.
- Ingest.StreamSvm: the chunks' disjoint slots are a hypothesis, because the SQD client that produces them is not part of this model.
- Ingest.StreamEvm: that a chunk holds rows of one schema and of its delivered range only, with non-null block numbers in joined tables, is the provider's promise and a hypothesis.
- Ingest.MakeRequestFields: the serialisation of the column lists into the provider's field structs (`ingest/src/lib.rs:209-225`) is not modelled.
- HyperSync.Driver.Run: block numbers are unbounded, so the overflow of the last block plus one at 2^64 - 1 is not captured; sleeping between polls has no effect.
- SqdPushdown.PushdownLosesNothing: hex encoding is taken as injective, and the columns `d1` to `d8` are taken to be prefixes of `data`.
- Borsh and Deserialize: sizes are unbounded, so the overflow of element size times array size is not captured, nor is running out of memory for a huge announced length.
- SvmShred.ShreddingIsFaithful and EvmShred.ShreddingIsFaithful: list offsets are unbounded; more than 2^31 items in one column are not captured.
- Arrow: all fields are nullable and item fields unnamed, as everywhere in the decoders; sliced buffers, whose bit offset `propagate_nulls` discards, do not occur.
- Flatten: the text of a list of structs is an arbitrary function of the cell; only its type and nullness are fixed.
- EvmShred: ABI decoding, signature parsing and selectors are the library's; values are already decoded, array sizes positive and widths at most 256 bits, as the type parser guarantees.
- EvmReadback.InjectiveIffKept: integers range over all 256-bit words, whatever their declared width, because what the ABI decoder checks is not part of this model.
- EvmEvents.DecodeEventRows: the columns `topic1` to `topic3` and `data` exist and are binary.
- `decode_logs_batch` of the Solana decoder repeats the instruction path behind base64.
- Wide integers: the batch-level wrappers that pick columns by type would add only easy members.
- RPC and SQD field mappings, schema crates, hex and base58 codecs, Python bindings: tables and plumbing without a hard property.
