/** Decoding a batch of logs: the topic0 filter in front, the input's columns stacked behind. */
module EvmLogs {
  import opened Wrappers
  import opened Bytes
  import opened EvmShred
  import opened EvmMeaning
  import opened EvmDecode
  import opened EvmEvents
  import Flatten
  import FlattenBatch
  import Kernels
  import A = Arrow

  /** The `topic0` column; without it nothing is filtered, and one of another type is an error. */
  datatype Topic0 = Absent | NotBinary | Hashes(cells: seq<Option<seq<byte>>>)

  /** A batch of logs: what decoding looks at, and all its columns. */
  datatype LogBatch = LogBatch(topic0: Topic0, topics: seq<seq<Topic>>, body: seq<Blob>, columns: seq<A.ArrowColumn>)

  predicate ValidLogs(b: LogBatch) {
    && (b.topic0.Hashes? ==> |b.topic0.cells| == |b.body|)
    && (forall c | c in b.topics :: |c| == |b.body|)
    && A.Aligned(b.columns, |b.body|)
  }

  /** The first n positions at which the hash is the selector. */
  function Matching(hashes: seq<Option<seq<byte>>>, selector: seq<byte>, n: nat): seq<nat>
    requires n <= |hashes|
  {
    if n == 0 then []
    else Matching(hashes, selector, n - 1) + if hashes[n - 1] == Some(selector) then [n - 1] else []
  }

  predicate InOrder(rows: seq<nat>) {
    forall j, k | 0 <= j < k < |rows| :: rows[j] < rows[k]
  }

  /** The rows of a matching hash, in order, and no others. */
  lemma {:induction false} MatchingRows(hashes: seq<Option<seq<byte>>>, selector: seq<byte>, n: nat)
    requires n <= |hashes|
    ensures forall i: nat :: i in Matching(hashes, selector, n) <==> i < n && hashes[i] == Some(selector)
    ensures InOrder(Matching(hashes, selector, n))
  {
    if n > 0 {
      MatchingRows(hashes, selector, n - 1);
      var before, m := Matching(hashes, selector, n - 1), Matching(hashes, selector, n);
      var last := if hashes[n - 1] == Some(selector) then [n - 1] else [];
      assert m == before + last;
      forall i: nat ensures i in m <==> i < n && hashes[i] == Some(selector) {
        assert i in m <==> i in before || i in last;
        assert i in last <==> i == n - 1 && hashes[n - 1] == Some(selector);
      }
      forall j, k | 0 <= j < k < |m| ensures m[j] < m[k] {
        assert m[j] == before[j] && before[j] in before;
        if k < |before| {
          assert before[j] < before[k] && m[k] == before[k];
        } else {
          assert m[k] == n - 1;
        }
      }
    }
  }

  function RowsOf<X>(xs: seq<X>, rows: seq<nat>): seq<X>
    requires Kernels.InBounds(rows, |xs|)
  {
    seq(|rows|, k requires 0 <= k < |rows| => assert rows[k] in rows; xs[rows[k]])
  }

  /** `filter_record_batch` */
  function KeepLogs(b: LogBatch, rows: seq<nat>): LogBatch
    requires ValidLogs(b) && Kernels.InBounds(rows, |b.body|)
  {
    LogBatch(if b.topic0.Hashes? then Hashes(RowsOf(b.topic0.cells, rows)) else b.topic0,
             seq(|b.topics|,
                 k requires 0 <= k < |b.topics| => assert b.topics[k] in b.topics; RowsOf(b.topics[k], rows)),
             RowsOf(b.body, rows), Kernels.TakeColumns(b.columns, rows))
  }

  lemma {:induction false} EveryRow(n: nat)
    ensures forall i: nat :: i in Kernels.Range(0, n) <==> i < n
  {
    forall i: nat | i < n ensures i in Kernels.Range(0, n) {
      assert Kernels.Range(0, n)[i] == i;
    }
  }

  /** The rows `filter_by_topic0` leaves. */
  function RowsLeft(b: LogBatch, selector: seq<byte>): (rows: seq<nat>)
    requires ValidLogs(b)
    ensures Kernels.InBounds(rows, |b.body|)
  {
    if b.topic0.Hashes? then
      MatchingRows(b.topic0.cells, selector, |b.body|);
      Matching(b.topic0.cells, selector, |b.body|)
    else
      EveryRow(|b.body|);
      Kernels.Range(0, |b.body|)
  }

  function Stacked(b: LogBatch, stack: bool): seq<A.ArrowColumn> {
    if stack then b.columns else []
  }

  /** `decode_events` on a whole batch. */
  function DecodeLogs(render: Flatten.Renderer, inputs: seq<EventParam>, o: Options, selector: seq<byte>, b: LogBatch,
                      filter: bool, stack: bool)
    : Result<seq<A.ArrowColumn>>
    requires ValidLogs(b)
  {
    if filter && b.topic0.NotBinary? then Failure
    else
      var kept := if filter && b.topic0.Hashes? then KeepLogs(b, RowsLeft(b, selector)) else b;
      DecodeEvents(render, inputs, o, kept.topics, kept.body, Stacked(kept, stack))
  }

  // ---------------------------------------------------------------- what is left

  lemma {:induction false} KeptLogsValid(b: LogBatch, rows: seq<nat>)
    requires ValidLogs(b) && Kernels.InBounds(rows, |b.body|)
    ensures ValidLogs(KeepLogs(b, rows))
    ensures forall k | 0 <= k < |rows| ::
              rows[k] < |b.body| && A.CellsAt(KeepLogs(b, rows).columns, k) == A.CellsAt(b.columns, rows[k])
  {
    var kept := KeepLogs(b, rows);
    Kernels.TakeColumnsGather(b.columns, |b.body|, rows);
    forall c | c in kept.columns ensures A.Len(c.data) == |rows| && A.WellFormed(c.data) {
      var k :| 0 <= k < |kept.columns| && kept.columns[k] == c;
      assert Kernels.Gathers(kept.columns[k].data, b.columns[k].data, rows);
    }
    forall k | 0 <= k < |rows|
      ensures rows[k] < |b.body| && A.CellsAt(kept.columns, k) == A.CellsAt(b.columns, rows[k])
    {
      assert rows[k] in rows;
    }
  }

  lemma {:induction false} KeptTopic(b: LogBatch, rows: seq<nat>, j: nat, k: nat)
    requires ValidLogs(b) && Kernels.InBounds(rows, |b.body|) && k < |rows| && j < |b.topics|
    ensures TopicOf(KeepLogs(b, rows).topics[j], k) == TopicOf(b.topics[j], rows[k])
  {
    assert b.topics[j] in b.topics && rows[k] in rows;
  }

  lemma {:induction false} KeptTopics(types: seq<SolType>, o: Options, b: LogBatch, rows: seq<nat>, k: nat)
    requires ValidLogs(b) && Kernels.InBounds(rows, |b.body|) && k < |rows|
    ensures TopicMeanings(types, o, KeepLogs(b, rows).topics, k) == TopicMeanings(types, o, b.topics, rows[k])
  {
    var mine := TopicMeanings(types, o, KeepLogs(b, rows).topics, k);
    var theirs := TopicMeanings(types, o, b.topics, rows[k]);
    assert |mine| == |theirs|;
    forall j | 0 <= j < |mine| ensures mine[j] == theirs[j] {
      KeptTopic(b, rows, j, k);
    }
  }

  /** The filter keeps logs as they are: row k of what it leaves decodes to what the log at its position
      does. */
  lemma {:induction false} KeptRowDecodesAlike(inputs: seq<EventParam>, o: Options, b: LogBatch, rows: seq<nat>, k: nat)
    requires ValidLogs(b) && Kernels.InBounds(rows, |b.body|) && k < |rows| && rows[k] < |b.body|
    requires ResolveAll(Select(inputs, true)).Success? && ResolveAll(Select(inputs, false)).Success?
    ensures EventRow(inputs, o, KeepLogs(b, rows).topics, KeepLogs(b, rows).body, k)
         == EventRow(inputs, o, b.topics, b.body, rows[k])
  {
    KeptTopics(ResolveAll(Select(inputs, true)).value, o, b, rows, k);
    assert KeepLogs(b, rows).body[k] == b.body[rows[k]];
  }

  /** The logs that reach the output: all of them, or with the filter those whose topic0 is the selector. */
  ghost predicate OutputRows(b: LogBatch, selector: seq<byte>, filter: bool, rows: seq<nat>) {
    && InOrder(rows)
    && forall i: nat :: i in rows <==>
         i < |b.body| && (filter && b.topic0.Hashes? ==> i < |b.topic0.cells| && b.topic0.cells[i] == Some(selector))
  }

  /** What a log decodes to, with the input's own columns behind it when they are stacked. */
  function LogRow(inputs: seq<EventParam>, o: Options, b: LogBatch, stacked: seq<A.ArrowColumn>, i: nat): seq<A.Cell>
    requires ResolveAll(Select(inputs, true)).Success? && ResolveAll(Select(inputs, false)).Success? && i < |b.body|
  {
    EventRow(inputs, o, b.topics, b.body, i) + A.CellsAt(stacked, i)
  }

  /** These cells are the flat form of log i, which holds what its topics and its data were decoded to. */
  ghost predicate LogShown(render: Flatten.Renderer, schema: seq<A.ArrowField>, inputs: seq<EventParam>, o: Options,
                           b: LogBatch, stacked: seq<A.ArrowColumn>, i: nat, cells: seq<A.Cell>)
    requires ResolveAll(Select(inputs, true)).Success? && ResolveAll(Select(inputs, false)).Success?
  {
    && i < |b.body| && LogHeld(inputs, o, b.topics, b.body, i, EventRow(inputs, o, b.topics, b.body, i))
    && IsFlat(render, schema, LogRow(inputs, o, b, stacked, i), cells)
  }

  /** Row k of the output shows log rows[k]. */
  ghost predicate HoldsLogsAt(render: Flatten.Renderer, inputs: seq<EventParam>, o: Options, b: LogBatch,
                              stacked: seq<A.ArrowColumn>, rows: seq<nat>, out: seq<A.ArrowColumn>)
    requires EventSchema(inputs, o).Success?
    requires ResolveAll(Select(inputs, true)).Success? && ResolveAll(Select(inputs, false)).Success?
  {
    var schema := EventSchema(inputs, o).value + A.Fields(stacked);
    forall k | 0 <= k < |rows| :: LogShown(render, schema, inputs, o, b, stacked, rows[k], A.CellsAt(out, k))
  }

  lemma {:induction false} RowsLeftAreOutput(b: LogBatch, selector: seq<byte>)
    requires ValidLogs(b)
    ensures b.topic0.Hashes? ==> OutputRows(b, selector, true, RowsLeft(b, selector))
  {
    if b.topic0.Hashes? {
      var rows := RowsLeft(b, selector);
      MatchingRows(b.topic0.cells, selector, |b.body|);
      assert rows == Matching(b.topic0.cells, selector, |b.body|);
    }
  }

  lemma {:induction false} EveryRowIsOutput(b: LogBatch, selector: seq<byte>, filter: bool)
    requires !filter || !b.topic0.Hashes?
    ensures OutputRows(b, selector, filter, Kernels.Range(0, |b.body|))
  {
    EveryRow(|b.body|);
  }

  /** The output of a decode: the announced schema, then that of the stacked columns, and these logs. */
  ghost predicate IsDecoded(render: Flatten.Renderer, inputs: seq<EventParam>, o: Options, b: LogBatch,
                            stacked: seq<A.ArrowColumn>, rows: seq<nat>, out: seq<A.ArrowColumn>)
  {
    && EventSchema(inputs, o).Success?
    && ResolveAll(Select(inputs, true)).Success? && ResolveAll(Select(inputs, false)).Success?
    && A.Fields(out) == FlattenBatch.FlattenSchema(EventSchema(inputs, o).value + A.Fields(stacked))
    && EventFieldsFit(inputs, o, EventSchema(inputs, o).value)
    && A.Aligned(out, |rows|) && HoldsLogsAt(render, inputs, o, b, stacked, rows, out)
  }

  lemma {:induction false} UnfilteredLogs(render: Flatten.Renderer, inputs: seq<EventParam>, o: Options, b: LogBatch,
                                          stacked: seq<A.ArrowColumn>)
    requires ValidLogs(b) && A.Aligned(stacked, |b.body|)
    requires DecodeEvents(render, inputs, o, b.topics, b.body, stacked).Success?
    ensures IsDecoded(render, inputs, o, b, stacked, Kernels.Range(0, |b.body|),
                      DecodeEvents(render, inputs, o, b.topics, b.body, stacked).value)
  {
    DecodedEventHasAnnouncedSchema(render, inputs, o, b.topics, b.body, stacked);
  }

  /** A kept log holds what the log at its position does. */
  lemma {:induction false} KeptLogHeld(inputs: seq<EventParam>, o: Options, b: LogBatch, rows: seq<nat>, k: nat,
                                       row: seq<A.Cell>)
    requires ValidLogs(b) && Kernels.InBounds(rows, |b.body|) && k < |rows| && rows[k] < |b.body|
    requires ResolveAll(Select(inputs, true)).Success? && ResolveAll(Select(inputs, false)).Success?
    requires LogHeld(inputs, o, KeepLogs(b, rows).topics, KeepLogs(b, rows).body, k, row)
    ensures LogHeld(inputs, o, b.topics, b.body, rows[k], row)
  {
    var types, kept := ResolveAll(Select(inputs, true)).value, KeepLogs(b, rows);
    forall j | 0 <= j < |types|
      ensures rows[k] < |b.topics[j]| && TopicHeld(types[j], o, b.topics[j][rows[k]], row[j])
    {
      assert b.topics[j] in b.topics && kept.topics[j][k] == b.topics[j][rows[k]];
    }
    assert kept.body[k] == b.body[rows[k]];
  }

  /** A kept log is shown as the log at its position. */
  lemma {:induction false} KeptLogShown(render: Flatten.Renderer, schema: seq<A.ArrowField>, inputs: seq<EventParam>,
                                        o: Options, b: LogBatch, stack: bool, rows: seq<nat>, k: nat,
                                        cells: seq<A.Cell>)
    requires ValidLogs(b) && Kernels.InBounds(rows, |b.body|) && k < |rows|
    requires ResolveAll(Select(inputs, true)).Success? && ResolveAll(Select(inputs, false)).Success?
    requires LogShown(render, schema, inputs, o, KeepLogs(b, rows), Stacked(KeepLogs(b, rows), stack), k, cells)
    ensures LogShown(render, schema, inputs, o, b, Stacked(b, stack), rows[k], cells)
  {
    var kept := KeepLogs(b, rows);
    assert rows[k] in rows;
    KeptLogsValid(b, rows);
    KeptRowDecodesAlike(inputs, o, b, rows, k);
    KeptLogHeld(inputs, o, b, rows, k, EventRow(inputs, o, kept.topics, kept.body, k));
    assert A.CellsAt(Stacked(kept, stack), k) == A.CellsAt(Stacked(b, stack), rows[k]);
  }

  /** What is decoded from the kept logs is decoded from the logs at their positions. */
  lemma {:induction false} KeptLogs(render: Flatten.Renderer, inputs: seq<EventParam>, o: Options, b: LogBatch,
                                    kept: LogBatch, stack: bool, rows: seq<nat>, out: seq<A.ArrowColumn>)
    requires ValidLogs(b) && Kernels.InBounds(rows, |b.body|) && kept == KeepLogs(b, rows)
    requires IsDecoded(render, inputs, o, kept, Stacked(kept, stack), Kernels.Range(0, |rows|), out)
    ensures IsDecoded(render, inputs, o, b, Stacked(b, stack), rows, out)
  {
    var schema := EventSchema(inputs, o).value + A.Fields(Stacked(b, stack));
    KeptFields(b, rows, stack);
    forall k | 0 <= k < |rows|
      ensures LogShown(render, schema, inputs, o, b, Stacked(b, stack), rows[k], A.CellsAt(out, k))
    {
      assert Kernels.Range(0, |rows|)[k] == k;
      KeptLogShown(render, schema, inputs, o, b, stack, rows, k, A.CellsAt(out, k));
    }
  }

  lemma {:induction false} KeptFields(b: LogBatch, rows: seq<nat>, stack: bool)
    requires ValidLogs(b) && Kernels.InBounds(rows, |b.body|)
    ensures A.Fields(Stacked(KeepLogs(b, rows), stack)) == A.Fields(Stacked(b, stack))
    ensures ValidLogs(KeepLogs(b, rows))
  {
    KeptLogsValid(b, rows);
  }

  /** Decoding a batch, filtered or not, stacked or not: on success the output is the announced schema,
      then the input's when stacked, with exactly the matching logs, in order, each decoded. */
  lemma {:induction false} DecodedLogsAreTheMatchingOnes(render: Flatten.Renderer, inputs: seq<EventParam>, o: Options,
                                                         selector: seq<byte>, b: LogBatch, filter: bool, stack: bool)
    returns (rows: seq<nat>)
    requires ValidLogs(b) && DecodeLogs(render, inputs, o, selector, b, filter, stack).Success?
    ensures OutputRows(b, selector, filter, rows)
    ensures IsDecoded(render, inputs, o, b, Stacked(b, stack), rows,
                      DecodeLogs(render, inputs, o, selector, b, filter, stack).value)
  {
    if filter && b.topic0.Hashes? {
      rows := RowsLeft(b, selector);
      RowsLeftAreOutput(b, selector);
      var kept := KeepLogs(b, rows);
      KeptLogsValid(b, rows);
      UnfilteredLogs(render, inputs, o, kept, Stacked(kept, stack));
      KeptLogs(render, inputs, o, b, kept, stack, rows,
               DecodeLogs(render, inputs, o, selector, b, filter, stack).value);
    } else {
      rows := Kernels.Range(0, |b.body|);
      EveryRowIsOutput(b, selector, filter);
      UnfilteredLogs(render, inputs, o, b, Stacked(b, stack));
    }
  }

  // ---------------------------------------------------------------- when a batch is decoded

  /** The positions of the logs that reach the output. */
  function RowsOut(b: LogBatch, selector: seq<byte>, filter: bool): (rows: seq<nat>)
    requires ValidLogs(b)
    ensures OutputRows(b, selector, filter, rows) && Kernels.InBounds(rows, |b.body|)
  {
    EveryRow(|b.body|);
    if filter && b.topic0.Hashes? then
      RowsLeftAreOutput(b, selector);
      RowsLeft(b, selector)
    else
      EveryRowIsOutput(b, selector, filter);
      Kernels.Range(0, |b.body|)
  }

  /** The columns take the topics and the data of log i. */
  predicate LogTaken(inputs: seq<EventParam>, o: Options, b: LogBatch, i: nat)
    requires ResolveAll(Select(inputs, true)).Success? && ResolveAll(Select(inputs, false)).Success?
    requires ValidLogs(b) && i < |b.body|
  {
    && BlobTaken(ResolveAll(Select(inputs, false)).value, o, b.body[i])
    && forall k: nat | k < Min(|Select(inputs, true)|, |b.topics|) ::
         assert b.topics[k] in b.topics;
         TopicTaken(ResolveAll(Select(inputs, true)).value[k], o, b.topics[k][i])
  }

  /** When these logs are decoded; the others do not matter. */
  predicate LogsDecode(inputs: seq<EventParam>, o: Options, b: LogBatch, stacked: seq<A.ArrowColumn>, rows: seq<nat>)
    requires ValidLogs(b) && Kernels.InBounds(rows, |b.body|)
  {
    && EventSchema(inputs, o).Success? && FitsSchema(inputs, |b.topics|, stacked)
    && ResolveAll(Select(inputs, true)).Success? && ResolveAll(Select(inputs, false)).Success?
    && AllHaveColumns(ResolveAll(Select(inputs, true)).value)
    && AllHaveColumns(ResolveAll(Select(inputs, false)).value)
    && (forall i | i in rows :: LogTaken(inputs, o, b, i))
    && var schema := EventSchema(inputs, o).value + A.Fields(stacked);
       FlattenBatch.AllFit(schema, |rows|) && FlattenBatch.ExpandSchema(schema) != []
  }

  lemma {:induction false} KeptBodyTakenIff(types: seq<SolType>, o: Options, b: LogBatch, rows: seq<nat>)
    requires ValidLogs(b) && Kernels.InBounds(rows, |b.body|)
    ensures (forall x | x in KeepLogs(b, rows).body :: BlobTaken(types, o, x))
       <==> forall i | i in rows && i < |b.body| :: BlobTaken(types, o, b.body[i])
  {
    var kept := KeepLogs(b, rows);
    forall k | 0 <= k < |rows|
      ensures rows[k] in rows && rows[k] < |b.body| && kept.body[k] == b.body[rows[k]] && kept.body[k] in kept.body
    {
    }
  }

  lemma {:induction false} KeptTopicTakenIff(t: SolType, o: Options, b: LogBatch, rows: seq<nat>, j: nat)
    requires ValidLogs(b) && Kernels.InBounds(rows, |b.body|) && j < |b.topics| && |b.topics[j]| == |b.body|
    ensures (forall x | x in KeepLogs(b, rows).topics[j] :: TopicTaken(t, o, x))
       <==> TopicOfRowsTaken(t, o, b, rows, j)
  {
    var col := KeepLogs(b, rows).topics[j];
    forall k | 0 <= k < |rows|
      ensures rows[k] in rows && rows[k] < |b.body| && col[k] == b.topics[j][rows[k]] && col[k] in col
    {
    }
  }

  lemma {:induction false} LogsTakenIff(inputs: seq<EventParam>, o: Options, b: LogBatch, rows: seq<nat>)
    requires ResolveAll(Select(inputs, true)).Success? && ResolveAll(Select(inputs, false)).Success?
    requires ValidLogs(b) && Kernels.InBounds(rows, |b.body|) && |Select(inputs, true)| <= |b.topics|
    ensures LogsTaken(inputs, o, KeepLogs(b, rows).topics, KeepLogs(b, rows).body)
       <==> && AllHaveColumns(ResolveAll(Select(inputs, true)).value)
            && AllHaveColumns(ResolveAll(Select(inputs, false)).value)
            && forall i | i in rows :: LogTaken(inputs, o, b, i)
  {
    var types, kept := ResolveAll(Select(inputs, true)).value, KeepLogs(b, rows);
    KeptBodyTakenIff(ResolveAll(Select(inputs, false)).value, o, b, rows);
    forall j: nat | j < |types|
      ensures TopicColumnTaken(types[j], o, kept.topics[j])
         <==> HasColumn(types[j]) && TopicOfRowsTaken(types[j], o, b, rows, j)
    {
      assert b.topics[j] in b.topics;
      KeptTopicTakenIff(types[j], o, b, rows, j);
    }
    if LogsTaken(inputs, o, kept.topics, kept.body) {
      forall i | i in rows ensures LogTaken(inputs, o, b, i) {
        forall j: nat | j < |types| ensures b.topics[j] in b.topics && TopicTaken(types[j], o, b.topics[j][i]) {
          assert TopicColumnTaken(types[j], o, kept.topics[j]);
        }
      }
    }
    if AllHaveColumns(types) && forall i | i in rows :: LogTaken(inputs, o, b, i) {
      forall j: nat | j < |types| ensures TopicColumnTaken(types[j], o, kept.topics[j]) {
        assert types[j] in types && b.topics[j] in b.topics;
        forall i | i in rows ensures TopicTaken(types[j], o, b.topics[j][i]) {
          assert LogTaken(inputs, o, b, i);
        }
      }
    }
  }

  predicate TopicOfRowsTaken(t: SolType, o: Options, b: LogBatch, rows: seq<nat>, j: nat)
    requires j < |b.topics| && |b.topics[j]| == |b.body|
  {
    forall i | i in rows && i < |b.body| :: TopicTaken(t, o, b.topics[j][i])
  }

  /** Decoding a batch fails exactly when its `topic0` is of another type under the filter, or one of the
      logs that reach the output cannot be decoded under the announced schema. */
  lemma {:induction false} LogsDecodeIff(render: Flatten.Renderer, inputs: seq<EventParam>, o: Options,
                                         selector: seq<byte>, b: LogBatch, filter: bool, stack: bool)
    requires ValidLogs(b)
    ensures DecodeLogs(render, inputs, o, selector, b, filter, stack).Success?
       <==> && !(filter && b.topic0.NotBinary?)
            && LogsDecode(inputs, o, b, Stacked(b, stack), RowsOut(b, selector, filter))
  {
    var rows := RowsOut(b, selector, filter);
    if filter && b.topic0.Hashes? {
      KeptDecodeIff(render, inputs, o, b, stack, rows);
    } else {
      EventDecodesIff(render, inputs, o, b.topics, b.body, Stacked(b, stack));
      EveryLogKept(b);
      if && FitsSchema(inputs, |b.topics|, Stacked(b, stack))
         && ResolveAll(Select(inputs, true)).Success? && ResolveAll(Select(inputs, false)).Success?
      {
        LogsTakenIff(inputs, o, b, rows);
      }
    }
  }

  lemma {:induction false} EveryLogKept(b: LogBatch)
    requires ValidLogs(b)
    ensures Kernels.InBounds(Kernels.Range(0, |b.body|), |b.body|)
    ensures KeepLogs(b, Kernels.Range(0, |b.body|)).topics == b.topics
    ensures KeepLogs(b, Kernels.Range(0, |b.body|)).body == b.body
  {
    EveryRow(|b.body|);
    var rows := Kernels.Range(0, |b.body|);
    forall k | 0 <= k < |b.topics| ensures KeepLogs(b, rows).topics[k] == b.topics[k] {
      assert b.topics[k] in b.topics;
      assert RowsOf(b.topics[k], rows) == b.topics[k];
    }
    assert RowsOf(b.body, rows) == b.body;
  }

  lemma {:induction false} KeptDecodeIff(render: Flatten.Renderer, inputs: seq<EventParam>, o: Options, b: LogBatch,
                                         stack: bool, rows: seq<nat>)
    requires ValidLogs(b) && Kernels.InBounds(rows, |b.body|)
    ensures var kept := KeepLogs(b, rows);
            DecodeEvents(render, inputs, o, kept.topics, kept.body, Stacked(kept, stack)).Success?
            <==> LogsDecode(inputs, o, b, Stacked(b, stack), rows)
  {
    var kept := KeepLogs(b, rows);
    KeptFields(b, rows, stack);
    EventDecodesIff(render, inputs, o, kept.topics, kept.body, Stacked(kept, stack));
    assert |Stacked(kept, stack)| == |Stacked(b, stack)|;
    if && FitsSchema(inputs, |b.topics|, Stacked(b, stack))
       && ResolveAll(Select(inputs, true)).Success? && ResolveAll(Select(inputs, false)).Success?
    {
      LogsTakenIff(inputs, o, b, rows);
    }
  }

  // ---------------------------------------------------------------- the loops

  /** The mask loop and the filter behind it: the rows whose topic0 is the selector. */
  method FilterByTopic0(b: LogBatch, selector: seq<byte>) returns (r: Result<LogBatch>)
    requires ValidLogs(b)
    ensures r.Failure? <==> b.topic0.NotBinary?
    ensures r.Success? ==> r.value == if b.topic0.Hashes? then KeepLogs(b, RowsLeft(b, selector)) else b
  {
    match b.topic0
    case Absent =>
      return Success(b);
    case NotBinary =>
      return Failure;
    case Hashes(cells) =>
      var rows: seq<nat> := [];
      for i := 0 to |cells|
        invariant rows == Matching(cells, selector, i)
      {
        if cells[i] == Some(selector) {
          rows := rows + [i];
        }
      }
      assert rows == RowsLeft(b, selector);
      return Success(KeepLogs(b, rows));
  }

  /** `decode_events` */
  method DecodeLogRows(render: Flatten.Renderer, inputs: seq<EventParam>, o: Options, selector: seq<byte>, b: LogBatch,
                       filter: bool, stack: bool)
    returns (r: Result<seq<A.ArrowColumn>>)
    requires ValidLogs(b)
    ensures r == DecodeLogs(render, inputs, o, selector, b, filter, stack)
    ensures r.Success? <==> && !(filter && b.topic0.NotBinary?)
                            && LogsDecode(inputs, o, b, Stacked(b, stack), RowsOut(b, selector, filter))
    ensures r.Success? ==> exists rows :: OutputRows(b, selector, filter, rows)
                                       && IsDecoded(render, inputs, o, b, Stacked(b, stack), rows, r.value)
  {
    LogsDecodeIff(render, inputs, o, selector, b, filter, stack);
    if DecodeLogs(render, inputs, o, selector, b, filter, stack).Success? {
      ghost var rows := DecodedLogsAreTheMatchingOnes(render, inputs, o, selector, b, filter, stack);
    }
    var logs := b;
    if filter {
      var kept := FilterByTopic0(b, selector);
      if kept.Failure? {
        return Failure;
      }
      logs := kept.value;
    }
    r := DecodeEventRows(render, inputs, o, logs.topics, logs.body, Stacked(logs, stack));
  }
}
