/** The HyperSync range driver: one bulk stream up to a safe height, then requests at the chain head.
    The server and the height it reports are events the driver does not control. */
module HyperSync {
  import opened Wrappers

  const ROLLBACK_OFFSET: nat := 200

  /** Both block bounds are inclusive; without `lastBlock` the stream never ends by itself. */
  datatype Config = Config(firstBlock: nat, lastBlock: Option<nat>, stopOnHead: bool)

  /** `query_to_hypersync` turns the inclusive bound into an exclusive one. */
  function OriginalTo(cfg: Config): Option<nat> {
    if cfg.lastBlock.Some? then Some(cfg.lastBlock.value + 1) else None
  }

  function SafeHeight(height: nat): nat {
    if height < ROLLBACK_OFFSET then 0 else height - ROLLBACK_OFFSET
  }

  function MakeToBlock(originalTo: Option<nat>, height: nat): nat {
    var safeEnd := SafeHeight(height) + 1;
    if originalTo.Some? && originalTo.value < safeEnd then originalTo.value else safeEnd
  }

  /** What the driver hears: a height, a batch with the block to continue from, the end of the bulk
      stream, or any error. `alive` is whether the receiving side still takes data. */
  datatype Event =
    | HeightIs(height: nat)
    | Batch(nextBlock: nat, archiveHeight: Option<nat>, alive: bool)
    | EndOfStream
    | Fault

  datatype Phase =
    | Starting   // first height not known yet
    | Bulk       // reading the bulk stream
    | Polling    // waiting for the head to reach the next block
    | Requested  // a head request is out
    | Finished   // the last block has been delivered
    | AtHead     // stopped at the head, as configured
    | Abandoned  // the receiver is gone
    | Broken     // an error was passed on

  /** A request for [from, to), made when blocks up to `safe` were old enough. */
  datatype Request = Request(from: nat, to: nat, safe: nat, atHead: bool)

  /** A batch for [first, end) that reached the receiver. */
  datatype Range = Range(first: nat, end: nat)

  datatype State = State(phase: Phase, from: nat, to: nat, height: nat, requests: seq<Request>, delivered: seq<Range>)

  function Init(cfg: Config): State {
    State(Starting, cfg.firstBlock, 0, 0, [], [])
  }

  /** The events a phase waits for. The server answers a request for [from, to) with a batch that
      continues somewhere in (from, to]. */
  predicate Enabled(s: State, e: Event) {
    match s.phase
    case Starting => e.HeightIs? || e.Fault?
    case Bulk => e.EndOfStream? || e.Fault? || (e.Batch? && s.from < e.nextBlock <= s.to)
    case Polling => e.HeightIs? || e.Fault?
    case Requested => e.Fault? || (e.Batch? && s.from < e.nextBlock <= s.to)
    case _ => false
  }

  function Ask(cfg: Config, s: State, atHead: bool): State {
    var to := MakeToBlock(OriginalTo(cfg), s.height);
    s.(phase := if atHead then Requested else Bulk, to := to,
       requests := s.requests + [Request(s.from, to, SafeHeight(s.height), atHead)])
  }

  /** The top of the head loop. */
  function AskOrPoll(cfg: Config, s: State): State {
    if SafeHeight(s.height) < s.from then s.(phase := Polling) else Ask(cfg, s, true)
  }

  function Step(cfg: Config, s: State, e: Event): State {
    match (s.phase, e)
    case (_, Fault) => s.(phase := Broken)
    case (Starting, HeightIs(h)) => Ask(cfg, s.(height := h), false)
    case (Bulk, Batch(next, _, alive)) =>
      if alive then s.(from := next, delivered := s.delivered + [Range(s.from, next)])
      else s.(phase := Abandoned, from := next)
    case (Bulk, EndOfStream) =>
      if OriginalTo(cfg) == Some(s.from) then s.(phase := Finished)
      else if cfg.stopOnHead then s.(phase := AtHead)
      else s.(phase := Polling)
    case (Polling, HeightIs(h)) => AskOrPoll(cfg, s.(height := h))
    case (Requested, Batch(next, archiveHeight, alive)) =>
      if !alive then s.(phase := Abandoned)
      else
        var t := s.(from := next, height := if archiveHeight.Some? then archiveHeight.value else 0,
                    delivered := s.delivered + [Range(s.from, next)]);
        if OriginalTo(cfg) == Some(next) then t.(phase := Finished) else AskOrPoll(cfg, t)
    case _ => s
  }

  /** One event, in the phase that waits for it. */
  predicate Happens(cfg: Config, before: State, e: Event, after: State) {
    Enabled(before, e) && after == Step(cfg, before, e)
  }

  predicate HappensAt(cfg: Config, script: seq<Event>, trace: seq<State>, i: nat)
    requires i < |script| && |trace| == |script| + 1
  {
    Happens(cfg, trace[i], script[i], trace[i + 1])
  }

  /** `trace` is the states of a run in which the events of `script` happen. */
  predicate IsRun(cfg: Config, script: seq<Event>, trace: seq<State>) {
    && |trace| == |script| + 1
    && trace[0] == Init(cfg)
    && forall i: nat {:trigger HappensAt(cfg, script, trace, i)} | i < |script| :: HappensAt(cfg, script, trace, i)
  }

  /** A phase that waits for nothing ends the run. */
  lemma {:induction false} NothingAfter(cfg: Config, script: seq<Event>, trace: seq<State>, i: nat)
    requires IsRun(cfg, script, trace) && i <= |script|
    requires trace[i].phase in {Finished, AtHead, Abandoned, Broken}
    ensures i == |script|
  {
    if i < |script| {
      var _ := HappensAt(cfg, script, trace, i);
      assert false;
    }
  }

  /** The end of a script whose last event was an error. */
  lemma {:induction false} BrokenAfter(cfg: Config, script: seq<Event>, trace: seq<State>, i: nat)
    requires IsRun(cfg, script, trace) && i < |script| && script[i].Fault?
    ensures i + 1 == |script| && trace[i + 1] == trace[i].(phase := Broken)
  {
    assert HappensAt(cfg, script, trace, i);
    NothingAfter(cfg, script, trace, i + 1);
  }

  /** While the head is too low, a height that arrives is looked at like the first one. */
  lemma {:induction false} KeepPolling(cfg: Config, script: seq<Event>, trace: seq<State>, i: nat)
    requires IsRun(cfg, script, trace) && i < |script| && trace[i].phase == Polling
    ensures script[i].HeightIs? || script[i].Fault?
    ensures script[i].HeightIs? ==> trace[i + 1] == AskOrPoll(cfg, trace[i].(height := script[i].height))
  {
    assert HappensAt(cfg, script, trace, i);
  }

  // ---------------------------------------------------------------- the driver

  /** The driver task and the query it keeps updating. It is run against a script of events and
      stops where the script does, so every finite run is one of its executions. */
  class Driver {
    const cfg: Config
    var fromBlock: nat
    var toBlock: nat
    var height: nat
    var requests: seq<Request>
    var delivered: seq<Range>

    constructor (cfg: Config)
      ensures this.cfg == cfg && View(Starting) == Init(cfg)
    {
      this.cfg := cfg;
      fromBlock, toBlock, height, requests, delivered := cfg.firstBlock, 0, 0, [], [];
    }

    function View(phase: Phase): State
      reads this
    {
      State(phase, fromBlock, toBlock, height, requests, delivered)
    }

    /** Sets the bound from the last height and sends the request. */
    method Issue(atHead: bool)
      modifies this`toBlock, this`requests
      ensures View(if atHead then Requested else Bulk) == Ask(cfg, old(View(Polling)), atHead)
    {
      toBlock := MakeToBlock(OriginalTo(cfg), height);
      requests := requests + [Request(fromBlock, toBlock, SafeHeight(height), atHead)];
    }

    /** The whole task: first height, bulk stream, then the head loop. */
    method Run(script: seq<Event>, ghost trace: seq<State>) returns (phase: Phase)
      requires View(Starting) == Init(cfg) && IsRun(cfg, script, trace)
      modifies this
      ensures View(phase) == trace[|script|]
      ensures forall r | r in requests :: MadeDuring(cfg, script, r)
    {
      EveryRequestKeepsDistance(cfg, script, trace, |script|);
      if script == [] {
        return Starting;
      }
      assert HappensAt(cfg, script, trace, 0);
      if script[0].Fault? {
        NothingAfter(cfg, script, trace, 1);
        return Broken;
      }
      height := script[0].height;
      Issue(false);
      var i, next := ReadBulk(script, trace, 1);
      phase := next;
      if phase == Polling {
        phase := ChainHeadStream(script, trace, i);
      }
    }

    /** One item of the bulk stream; the phase it leaves the driver in. */
    method BulkItem(e: Event) returns (phase: Phase)
      requires Enabled(View(Bulk), e)
      modifies this`fromBlock, this`delivered
      ensures View(phase) == Step(cfg, old(View(Bulk)), e)
      ensures phase in {Bulk, Broken, Abandoned} || (e.EndOfStream? && phase in {Finished, AtHead, Polling})
    {
      if e.Fault? {
        return Broken;
      }
      if e.EndOfStream? {
        return if OriginalTo(cfg) == Some(fromBlock) then Finished else if cfg.stopOnHead then AtHead else Polling;
      }
      var first := fromBlock;
      fromBlock := e.nextBlock;
      if !e.alive {
        return Abandoned;
      }
      delivered := delivered + [Range(first, e.nextBlock)];
      return Bulk;
    }

    /** Reads the bulk stream to its end and decides what comes after it. */
    method ReadBulk(script: seq<Event>, ghost trace: seq<State>, at: nat) returns (i: nat, phase: Phase)
      requires IsRun(cfg, script, trace) && at <= |script| && View(Bulk) == trace[at]
      modifies this`fromBlock, this`delivered
      ensures i <= |script| && View(phase) == trace[i]
      ensures phase != Polling ==> i == |script|
    {
      i, phase := at, Bulk;
      while i < |script| && phase == Bulk
        invariant i <= |script| && View(phase) == trace[i]
        invariant phase in {Bulk, Broken, Abandoned, Finished, AtHead, Polling}
      {
        assert HappensAt(cfg, script, trace, i);
        phase := BulkItem(script[i]);
        i := i + 1;
      }
      if phase in {Finished, AtHead, Abandoned, Broken} {
        NothingAfter(cfg, script, trace, i);
      }
    }

    /** The inner loop: polls until blocks up to `fromBlock` are old enough. The phase is Requested as
        soon as they are, the request itself being for the caller to send. */
    method WaitForHead(script: seq<Event>, ghost trace: seq<State>, at: nat) returns (i: nat, phase: Phase)
      requires IsRun(cfg, script, trace) && at <= |script|
      requires trace[at] == AskOrPoll(cfg, View(Polling))
      modifies this`height
      ensures at <= i <= |script|
      ensures phase == Requested ==> trace[i] == Ask(cfg, View(Polling), true)
      ensures phase != Requested ==> View(phase) == trace[|script|]
    {
      i := at;
      while SafeHeight(height) < fromBlock
        invariant at <= i <= |script|
        invariant trace[i] == AskOrPoll(cfg, View(Polling))
        decreases |script| - i
      {
        if i == |script| {
          return i, Polling;
        }
        KeepPolling(cfg, script, trace, i);
        if script[i].Fault? {
          BrokenAfter(cfg, script, trace, i);
          return i + 1, Broken;
        }
        height, i := script[i].height, i + 1;
      }
      return i, Requested;
    }

    /** What the driver does with the answer to a head request: delivers it and moves on, unless the
        range is done, the receiver is gone or the answer is an error. Polling stands for the next turn. */
    method TakeAnswer(e: Event) returns (phase: Phase)
      requires Enabled(View(Requested), e)
      modifies this`fromBlock, this`height, this`delivered
      ensures phase in {Broken, Abandoned, Finished, Polling}
      ensures Step(cfg, old(View(Requested)), e)
           == if phase == Polling then AskOrPoll(cfg, View(Polling)) else View(phase)
    {
      if e.Fault? {
        return Broken;
      }
      if !e.alive {
        return Abandoned;
      }
      delivered := delivered + [Range(fromBlock, e.nextBlock)];
      fromBlock := e.nextBlock;
      height := if e.archiveHeight.Some? then e.archiveHeight.value else 0;
      if OriginalTo(cfg) == Some(fromBlock) {
        return Finished;
      }
      return Polling;
    }

    /** One turn of the loop: waits for the head, asks, delivers. `done` when it is the last turn. */
    method HeadTurn(script: seq<Event>, ghost trace: seq<State>, at: nat) returns (i: nat, done: bool, phase: Phase)
      requires IsRun(cfg, script, trace) && at <= |script|
      requires trace[at] == AskOrPoll(cfg, View(Polling))
      modifies this
      ensures done ==> View(phase) == trace[|script|]
      ensures !done ==> at < i <= |script| && trace[i] == AskOrPoll(cfg, View(Polling))
    {
      i, phase := WaitForHead(script, trace, at);
      if phase != Requested {
        return i, true, phase;
      }
      Issue(true);
      if i == |script| {
        return i, true, Requested;
      }
      assert HappensAt(cfg, script, trace, i);
      phase := TakeAnswer(script[i]);
      i, done := i + 1, phase != Polling;
      if done {
        NothingAfter(cfg, script, trace, i);
      }
    }

    /** `chain_head_stream`: fetches the height, then takes turns. */
    method ChainHeadStream(script: seq<Event>, ghost trace: seq<State>, at: nat) returns (phase: Phase)
      requires IsRun(cfg, script, trace) && at <= |script| && View(Polling) == trace[at]
      modifies this
      ensures View(phase) == trace[|script|]
    {
      if at == |script| {
        return Polling;
      }
      KeepPolling(cfg, script, trace, at);
      if script[at].Fault? {
        BrokenAfter(cfg, script, trace, at);
        return Broken;
      }
      height := script[at].height;
      var i, done := at + 1, false;
      phase := Polling;
      while !done
        invariant !done ==> i <= |script| && trace[i] == AskOrPoll(cfg, View(Polling))
        invariant done ==> View(phase) == trace[|script|]
        decreases !done, |script| - i
      {
        i, done, phase := HeadTurn(script, trace, i);
      }
    }
  }

  // ---------------------------------------------------------------- coverage over whole runs

  /** Non-empty ranges, each starting where the one before ends, the first at `from`. */
  predicate Tiles(from: nat, ranges: seq<Range>) {
    && (forall i | 0 <= i < |ranges| :: ranges[i].first < ranges[i].end)
    && (forall i, j | 0 <= i < |ranges| && j == i + 1 < |ranges| :: ranges[j].first == ranges[i].end)
    && (ranges != [] ==> ranges[0].first == from)
  }

  function TilesEnd(from: nat, ranges: seq<Range>): nat {
    if ranges == [] then from else ranges[|ranges| - 1].end
  }

  lemma {:induction false} OneMoreTile(from: nat, ranges: seq<Range>, next: nat)
    requires Tiles(from, ranges) && TilesEnd(from, ranges) < next
    ensures Tiles(from, ranges + [Range(TilesEnd(from, ranges), next)])
    ensures TilesEnd(from, ranges + [Range(TilesEnd(from, ranges), next)]) == next
  {
  }

  /** The range of a configuration is not reversed, reading the exclusive bound. */
  predicate Ordered(cfg: Config) {
    OriginalTo(cfg).Some? ==> cfg.firstBlock <= OriginalTo(cfg).value
  }

  predicate UpToLast(cfg: Config, block: nat) {
    OriginalTo(cfg).Some? ==> block <= OriginalTo(cfg).value
  }

  /** What a request promises: blocks young enough to be rolled back are never asked for, and neither
      are blocks past the last one; a head request is not empty, unless the configured range is reversed. */
  predicate GoodRequest(cfg: Config, r: Request) {
    && r.to <= r.safe + 1 && UpToLast(cfg, r.to)
    && (r.atHead ==> r.from <= r.safe && !cfg.stopOnHead)
    && (r.atHead && Ordered(cfg) ==> r.from < r.to)
  }

  predicate GoodRequests(cfg: Config, requests: seq<Request>) {
    forall r | r in requests :: GoodRequest(cfg, r)
  }

  predicate DeliveredInOrder(cfg: Config, s: State) {
    && Tiles(cfg.firstBlock, s.delivered)
    && (s.phase == Abandoned || s.from == TilesEnd(cfg.firstBlock, s.delivered))
    && (Ordered(cfg) ==> UpToLast(cfg, s.from) && UpToLast(cfg, TilesEnd(cfg.firstBlock, s.delivered)))
  }

  /** What each phase knows about the block to continue from. */
  predicate PhaseFits(cfg: Config, s: State) {
    match s.phase
    case Starting => s.requests == []
    case Bulk => UpToLast(cfg, s.to)
    case Polling => OriginalTo(cfg) != Some(s.from) && !cfg.stopOnHead
    case Requested => OriginalTo(cfg) != Some(s.from) && !cfg.stopOnHead && UpToLast(cfg, s.to)
    case Finished => OriginalTo(cfg) == Some(s.from)
    case AtHead => cfg.stopOnHead
    case _ => true
  }

  /** What every state of every run satisfies, whatever heights the server reports. */
  predicate Sound(cfg: Config, s: State) {
    DeliveredInOrder(cfg, s) && GoodRequests(cfg, s.requests) && PhaseFits(cfg, s)
  }

  lemma {:induction false} AskKeepsSound(cfg: Config, s: State, atHead: bool)
    requires Sound(cfg, s) && s.phase != Abandoned
    requires atHead ==> s.from <= SafeHeight(s.height) && OriginalTo(cfg) != Some(s.from) && !cfg.stopOnHead
    ensures Sound(cfg, Ask(cfg, s, atHead))
  {
    var to := MakeToBlock(OriginalTo(cfg), s.height);
    var r := Request(s.from, to, SafeHeight(s.height), atHead);
    assert GoodRequest(cfg, r);
    assert GoodRequests(cfg, s.requests + [r]);
  }

  lemma {:induction false} AskOrPollKeepsSound(cfg: Config, s: State)
    requires Sound(cfg, s.(phase := Polling)) && s.phase != Abandoned
    ensures Sound(cfg, AskOrPoll(cfg, s))
  {
    if s.from <= SafeHeight(s.height) {
      AskKeepsSound(cfg, s.(phase := Polling), true);
      assert AskOrPoll(cfg, s) == Ask(cfg, s.(phase := Polling), true);
    }
  }

  lemma {:induction false} BatchKeepsSound(cfg: Config, s: State, e: Event)
    requires Sound(cfg, s) && Enabled(s, e) && e.Batch?
    ensures Sound(cfg, Step(cfg, s, e))
  {
    OneMoreTile(cfg.firstBlock, s.delivered, e.nextBlock);
    if s.phase == Requested && e.alive && OriginalTo(cfg) != Some(e.nextBlock) {
      var t := s.(from := e.nextBlock, height := if e.archiveHeight.Some? then e.archiveHeight.value else 0,
                  delivered := s.delivered + [Range(s.from, e.nextBlock)]);
      AskOrPollKeepsSound(cfg, t);
    }
  }

  lemma {:induction false} StepKeepsSound(cfg: Config, s: State, e: Event)
    requires Sound(cfg, s) && Enabled(s, e)
    ensures Sound(cfg, Step(cfg, s, e))
  {
    match e
    case Batch(_, _, _) =>
      BatchKeepsSound(cfg, s, e);
    case HeightIs(h) =>
      if s.phase == Starting {
        AskKeepsSound(cfg, s.(height := h), false);
      } else {
        AskOrPollKeepsSound(cfg, s.(height := h));
      }
    case _ =>
  }

  lemma {:induction false} EveryStateSound(cfg: Config, script: seq<Event>, trace: seq<State>, i: nat)
    requires IsRun(cfg, script, trace) && i <= |script|
    ensures Sound(cfg, trace[i])
  {
    if i > 0 {
      EveryStateSound(cfg, script, trace, i - 1);
      assert HappensAt(cfg, script, trace, i - 1);
      StepKeepsSound(cfg, trace[i - 1], script[i - 1]);
    }
  }

  // ---------------------------------------------------------------- the distance to the head

  /** The event reports this height; an answer without one counts as height 0. */
  predicate Reports(e: Event, height: nat) {
    match e
    case HeightIs(h) => h == height
    case Batch(_, archiveHeight, _) => height == if archiveHeight.Some? then archiveHeight.value else 0
    case _ => false
  }

  /** A request made at this height ends 199 blocks below it, or with the first block if the chain is
      shorter, or behind the last block asked for if that comes first. At the head it starts at least 200
      blocks below the height, unless at block 0. */
  predicate KeepsDistance(cfg: Config, r: Request, height: nat) {
    var end := if height < 200 then 1 else height - 199;
    && r.to == (if cfg.lastBlock.Some? && cfg.lastBlock.value + 1 < end then cfg.lastBlock.value + 1 else end)
    && (r.atHead ==> r.from == 0 || r.from + 200 <= height)
  }

  predicate MadeAt(cfg: Config, script: seq<Event>, r: Request, i: nat, height: nat) {
    i < |script| && Reports(script[i], height) && KeepsDistance(cfg, r, height)
  }

  ghost predicate MadeDuring(cfg: Config, script: seq<Event>, r: Request) {
    exists i, height :: MadeAt(cfg, script, r, i, height)
  }

  lemma {:induction false} AskKeepsDistance(cfg: Config, s: State, atHead: bool)
    requires atHead ==> SafeHeight(s.height) >= s.from
    ensures var t := Ask(cfg, s, atHead);
            && |t.requests| == |s.requests| + 1 && t.requests[..|s.requests|] == s.requests
            && t.requests[|s.requests|].from == s.from && t.requests[|s.requests|].to == t.to
            && KeepsDistance(cfg, t.requests[|s.requests|], s.height)
  {
  }

  /** A step makes at most one request, in the very step in which the height it keeps its distance to is
      reported. At the head it does make one as soon as the next block is 200 blocks old. */
  lemma {:induction false} StepKeepsDistance(cfg: Config, s: State, e: Event)
    requires Enabled(s, e)
    ensures var t, n := Step(cfg, s, e), |s.requests|;
            && n <= |t.requests| <= n + 1 && t.requests[..n] == s.requests
            && (|t.requests| == n + 1 ==>
                  && t.requests[n].from == t.from && t.requests[n].to == t.to
                  && exists h :: Reports(e, h) && KeepsDistance(cfg, t.requests[n], h))
    ensures s.phase == Polling && e.HeightIs? ==>
              (|Step(cfg, s, e).requests| == |s.requests| + 1 <==> s.from == 0 || s.from + 200 <= e.height)
  {
    var t := Step(cfg, s, e);
    if |t.requests| != |s.requests| {
      match e
      case HeightIs(h) =>
        AskKeepsDistance(cfg, s.(height := h), s.phase == Polling);
        assert Reports(e, h);
      case Batch(next, archiveHeight, _) =>
        var h := if archiveHeight.Some? then archiveHeight.value else 0;
        AskKeepsDistance(cfg, s.(from := next, height := h, delivered := s.delivered + [Range(s.from, next)]), true);
        assert Reports(e, h);
    }
  }

  /** What was delivered lies within what was asked for. */
  ghost predicate DeliveredWithin(s: State) {
    && (forall d | d in s.delivered :: exists r :: r in s.requests && d.end <= r.to)
    && (s.phase == Bulk || s.phase == Requested ==> exists r :: r in s.requests && s.to == r.to)
  }

  lemma {:induction false} StepDeliversWithin(cfg: Config, s: State, e: Event)
    requires Enabled(s, e) && DeliveredWithin(s)
    ensures DeliveredWithin(Step(cfg, s, e))
  {
    StepKeepsDistance(cfg, s, e);
    var t, n := Step(cfg, s, e), |s.requests|;
    forall r | r in s.requests ensures r in t.requests {
      assert r in t.requests[..n];
    }
    if |t.requests| == n + 1 {
      assert t.requests[n] in t.requests;
    }
  }

  /** In every state of every run each request was made at a reported height and keeps its distance to it,
      and nothing was delivered that was not asked for. */
  lemma {:induction false} EveryRequestKeepsDistance(cfg: Config, script: seq<Event>, trace: seq<State>, i: nat)
    requires IsRun(cfg, script, trace) && i <= |script|
    ensures forall r | r in trace[i].requests :: MadeDuring(cfg, script, r)
    ensures DeliveredWithin(trace[i])
  {
    if i > 0 {
      var j, n := i - 1, |trace[i - 1].requests|;
      EveryRequestKeepsDistance(cfg, script, trace, j);
      assert HappensAt(cfg, script, trace, j);
      StepKeepsDistance(cfg, trace[j], script[j]);
      StepDeliversWithin(cfg, trace[j], script[j]);
      forall r | r in trace[i].requests ensures MadeDuring(cfg, script, r) {
        if r in trace[i].requests[..n] {
        } else {
          var h :| Reports(script[j], h) && KeepsDistance(cfg, r, h);
          assert MadeAt(cfg, script, r, j, h);
        }
      }
    }
  }

  /** No block is delivered before a height at least 200 above it was reported, block 0 excepted. */
  lemma {:induction false} DeliveredBlocksAreOld(cfg: Config, script: seq<Event>, trace: seq<State>, d: Range,
                                                 block: nat)
    requires IsRun(cfg, script, trace) && d in trace[|script|].delivered && Covers(d, block)
    ensures block == 0
         || exists i: nat, height: nat :: i < |script| && Reports(script[i], height) && block + 200 <= height
  {
    EveryRequestKeepsDistance(cfg, script, trace, |script|);
    var r :| r in trace[|script|].requests && d.end <= r.to;
    var i: nat, height :| MadeAt(cfg, script, r, i, height);
    assert Reports(script[i], height);
  }

  predicate Covers(r: Range, block: nat) {
    r.first <= block < r.end
  }

  lemma {:induction false} TilesAreOrdered(from: nat, ranges: seq<Range>, i: nat, j: nat)
    requires Tiles(from, ranges) && i < j < |ranges|
    ensures ranges[i].end <= ranges[j].first
  {
    if i + 1 < j {
      TilesAreOrdered(from, ranges, i, j - 1);
      var k := j - 1;
      assert ranges[k].first < ranges[k].end;
    }
  }

  /** Tiles cover exactly [from, end), and every block once. */
  lemma {:induction false} TilesCover(from: nat, ranges: seq<Range>, block: nat)
    requires Tiles(from, ranges)
    ensures from <= block < TilesEnd(from, ranges) <==> exists i :: 0 <= i < |ranges| && Covers(ranges[i], block)
    ensures forall i, j | 0 <= i < j < |ranges| :: !(Covers(ranges[i], block) && Covers(ranges[j], block))
    ensures |ranges| <= TilesEnd(from, ranges) - from
  {
    forall i, j | 0 <= i < j < |ranges| ensures !(Covers(ranges[i], block) && Covers(ranges[j], block)) {
      TilesAreOrdered(from, ranges, i, j);
    }
    if ranges != [] {
      var n := |ranges| - 1;
      var before := ranges[..n];
      TilesCover(from, before, block);
      assert TilesEnd(from, before) == ranges[n].first by {
        if n > 0 {
          var k := n - 1;
          assert ranges[n].first == ranges[k].end;
        }
      }
      if i :| 0 <= i < |before| && Covers(before[i], block) {
        assert Covers(ranges[i], block);
      }
      if i :| 0 <= i < |ranges| && Covers(ranges[i], block) {
        assert i == n || Covers(before[i], block);
      }
      assert Covers(ranges[n], block) <==> ranges[n].first <= block < ranges[n].end;
    }
  }

  /** Every run that ends by itself without stopping at the head has delivered every block from the
      first to the last, bounds included, each in exactly one range, and no other block. */
  lemma {:induction false} FinishedRunCoversRange(cfg: Config, script: seq<Event>, trace: seq<State>, block: nat)
    requires IsRun(cfg, script, trace) && trace[|script|].phase == Finished
    ensures cfg.lastBlock.Some?
    ensures var ranges := trace[|script|].delivered;
            && ((exists i :: 0 <= i < |ranges| && Covers(ranges[i], block))
                 <==> cfg.firstBlock <= block <= cfg.lastBlock.value)
            && (forall i, j | 0 <= i < j < |ranges| :: !(Covers(ranges[i], block) && Covers(ranges[j], block)))
  {
    EveryStateSound(cfg, script, trace, |script|);
    TilesCover(cfg.firstBlock, trace[|script|].delivered, block);
  }

  /** Each batch strictly shrinks what is left of the request, so that no run delivers more batches
      than there are blocks. */
  lemma {:induction false} BatchesMakeProgress(cfg: Config, script: seq<Event>, trace: seq<State>, i: nat)
    requires IsRun(cfg, script, trace) && i < |script| && script[i].Batch?
    ensures trace[i].phase in {Bulk, Requested} && trace[i].from < script[i].nextBlock <= trace[i].to
    ensures trace[i].phase == Bulk ==> trace[i + 1].to - trace[i + 1].from < trace[i].to - trace[i].from
    ensures cfg.lastBlock.Some? && Ordered(cfg) ==>
              |trace[i + 1].delivered| <= cfg.lastBlock.value + 1 - cfg.firstBlock
  {
    assert HappensAt(cfg, script, trace, i);
    EveryStateSound(cfg, script, trace, i + 1);
    TilesCover(cfg.firstBlock, trace[i + 1].delivered, 0);
  }

  /** A reversed range meets the head: the run that asks for it. */
  function ReversedScript(cfg: Config): seq<Event> {
    var h := HeightIs(cfg.firstBlock + ROLLBACK_OFFSET);
    [h, EndOfStream, h]
  }

  function ReversedTrace(cfg: Config): seq<State> {
    var script := ReversedScript(cfg);
    var asked := Step(cfg, Init(cfg), script[0]);
    var polling := Step(cfg, asked, script[1]);
    [Init(cfg), asked, polling, Step(cfg, polling, script[2])]
  }

  lemma {:induction false} ReversedRun(cfg: Config)
    requires !cfg.stopOnHead && !Ordered(cfg)
    ensures IsRun(cfg, ReversedScript(cfg), ReversedTrace(cfg))
    ensures exists r :: r in ReversedTrace(cfg)[3].requests && r.atHead && r.to <= r.from
  {
    var script, trace := ReversedScript(cfg), ReversedTrace(cfg);
    assert HappensAt(cfg, script, trace, 0);
    assert HappensAt(cfg, script, trace, 1);
    assert HappensAt(cfg, script, trace, 2);
    assert trace[3].requests[1] in trace[3].requests;
  }

  ghost predicate HeadRequestsNeverEmpty(cfg: Config) {
    forall script, trace: seq<State>, r |
      IsRun(cfg, script, trace) && r in trace[|script|].requests && r.atHead :: r.from < r.to
  }

  /** Head requests are non-empty in every run exactly when the configured range is not reversed, or
      the driver never goes to the head. */
  lemma {:induction false} HeadRequestsNonEmptyIff(cfg: Config)
    ensures HeadRequestsNeverEmpty(cfg) <==> cfg.stopOnHead || Ordered(cfg)
  {
    if cfg.stopOnHead || Ordered(cfg) {
      forall script, trace: seq<State>, r | IsRun(cfg, script, trace) && r in trace[|script|].requests && r.atHead
        ensures r.from < r.to
      {
        EveryStateSound(cfg, script, trace, |script|);
      }
    } else {
      ReversedRun(cfg);
      var script, trace := ReversedScript(cfg), ReversedTrace(cfg);
      assert IsRun(cfg, script, trace) && trace[|script|] == trace[3];
    }
  }
}
