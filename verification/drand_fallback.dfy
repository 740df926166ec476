/** The drand fallback reconciliation step
    (gelato/web3-functions/drand-fallback/index.ts). One run scans new
    `RequestedRandomness` logs from a persisted block cursor and appends the
    decoded requests to a persisted queue. It drops the requests that are no
    longer pending and those whose fingerprint no longer matches, then
    persists the queue and the cursor. Among the requests older than
    `RequestAge` it picks one at random, re-reads its log, and returns the
    `fulfillRandomness` call once a dry run of it passed. */
module DrandFallback {
  import opened Common
  import opened W3f

  const MaxFilterRange: nat := 5000
  const MaxFilterRequests: nat := 5
  const MaxMulticallRequests: nat := 100
  const RequestAge: int := 60

  /** A `RequestedRandomness(round, data)` log of the consumer contract. */
  datatype Log = Log(blockHash: nat, transactionHash: nat, logIndex: nat, round: nat, consumerData: ConsumerData)

  /** A queued request, as persisted under the key "requests". `timestamp` is
      the drand round's time in seconds and `requestedHash` the fingerprint
      computed when the log was decoded. */
  datatype Request = Request(
    blockHash: nat,
    transactionHash: nat,
    timestamp: int,
    logIndex: nat,
    requestId: nat,
    round: nat,
    requestedHash: Hash)

  /** The run's persisted storage: "lastBlock" and "requests" (absent keys are `None`). */
  datatype Storage = Storage(lastBlock: Option<int>, requests: Option<seq<Request>>)

  datatype Message =
    | LogsFailed(fromBlock: int, toBlock: int)
    | AllFulfilled(lastBlock: int)
    | NoLongerValid(request: Request)
    | SimulationFailed

  /** Everything a run reads from outside. `None` answers are calls that throw.
      `chunks[k]` answers the k-th range query of the scan; `random` is the
      value of `Math.random()`. */
  datatype Env = Env(
    consumer: Address,
    fromBlock: Option<int>,
    currentBlock: int,
    chunks: seq<Option<seq<Log>>>,
    roundTimeMs: nat -> int,
    requestPending: Option<nat -> nat>,
    requestedHash: Option<nat -> Hash>,
    nowMs: int,
    random: real,
    logsInBlock: nat -> Option<seq<Log>>,
    randomness: nat -> Option<nat>,
    simulate: Call -> bool)

  predicate ValidEnv(env: Env) {
    |env.chunks| == MaxFilterRequests && 0.0 <= env.random < 1.0
  }

  // ---------------------------------------------------------------- scanning

  datatype BlockRange = BlockRange(fromBlock: int, toBlock: int)

  datatype ScanResult =
    | Scanned(logs: seq<Log>, cursor: int, ranges: seq<BlockRange>)
    | ScanFailed(failed: BlockRange, done: seq<BlockRange>)

  /** The range queried after block `lastBlock`. */
  function NextChunk(lastBlock: int, currentBlock: int): BlockRange {
    BlockRange(lastBlock + 1, Min(lastBlock + MaxFilterRange, currentBlock))
  }

  /** `ranges` start right after `start`, follow each other without gap or
      overlap, are each at most `MaxFilterRange` blocks wide and end at `end`,
      never past `currentBlock`. */
  predicate Chained(start: int, ranges: seq<BlockRange>, end: int, currentBlock: int)
    decreases |ranges|
  {
    if |ranges| == 0 then end == start
    else
      && ranges[0].fromBlock == start + 1
      && ranges[0].fromBlock <= ranges[0].toBlock <= currentBlock
      && ranges[0].toBlock - ranges[0].fromBlock < MaxFilterRange
      && Chained(ranges[0].toBlock, ranges[1..], end, currentBlock)
  }

  /** The logs of successful answers, in query order. */
  function Joined(answers: seq<Option<seq<Log>>>): seq<Log> {
    if |answers| == 0 then [] else answers[0].GetOr([]) + Joined(answers[1..])
  }

  /** The scan loop from query number `n` on: while the cursor is behind
      `currentBlock` and fewer than `MaxFilterRequests` queries were made,
      query the next chunk and move the cursor to its end. A failure reports
      the failed range and the ranges that succeeded before it. */
  function Scan(lastBlock: int, currentBlock: int, chunks: seq<Option<seq<Log>>>, n: nat): (r: ScanResult)
    requires n <= MaxFilterRequests == |chunks|
    decreases MaxFilterRequests - n
    ensures r.Scanned? ==> |r.ranges| <= MaxFilterRequests - n
    ensures r.Scanned? ==> Chained(lastBlock, r.ranges, r.cursor, currentBlock)
    ensures r.Scanned? ==> lastBlock <= r.cursor && (r.cursor == lastBlock || r.cursor <= currentBlock)
    ensures r.Scanned? ==> r.cursor >= currentBlock || |r.ranges| == MaxFilterRequests - n
    ensures r.Scanned? ==> forall k :: n <= k < n + |r.ranges| ==> chunks[k].Some?
    ensures r.Scanned? ==> r.logs == Joined(chunks[n..n + |r.ranges|])
    ensures r.ScanFailed? ==> lastBlock < r.failed.fromBlock <= r.failed.toBlock <= currentBlock
    // a scan fails only on a failed query: the first one after the successes in `done`,
    // for the chunk right after them
    ensures r.ScanFailed? ==>
      && n + |r.done| < MaxFilterRequests
      && chunks[n + |r.done|].None?
      && (forall k :: n <= k < n + |r.done| ==> chunks[k].Some?)
    ensures r.ScanFailed? ==> FailedAfter(lastBlock, r.done, r.failed, currentBlock)
    // and when every query succeeds, the scan succeeds
    ensures (forall k :: n <= k < |chunks| ==> chunks[k].Some?) ==> r.Scanned?
  {
    if lastBlock < currentBlock && n < MaxFilterRequests then
      var range := NextChunk(lastBlock, currentBlock);
      match chunks[n]
      case None => ScanFailed(range, [])
      case Some(found) =>
        match Scan(range.toBlock, currentBlock, chunks, n + 1)
        case ScanFailed(failed, done) =>
          FailedAfterQuery(lastBlock, currentBlock, chunks, n, range, done, failed);
          ScanFailed(failed, [range] + done)
        case Scanned(logs, cursor, ranges) =>
          ScannedAfterQuery(lastBlock, currentBlock, chunks, n, range, logs, cursor, ranges);
          Scanned(found + logs, cursor, [range] + ranges)
    else
      Scanned([], lastBlock, [])
  }

  /** The rest of a successful scan, seen from query `n` when that query succeeded. */
  lemma ScannedAfterQuery(
    lastBlock: int, currentBlock: int, chunks: seq<Option<seq<Log>>>, n: nat,
    range: BlockRange, logs: seq<Log>, cursor: int, ranges: seq<BlockRange>)
    requires n < MaxFilterRequests == |chunks| && chunks[n].Some?
    requires lastBlock < currentBlock && range == NextChunk(lastBlock, currentBlock)
    requires |ranges| <= MaxFilterRequests - (n + 1)
    requires Chained(range.toBlock, ranges, cursor, currentBlock)
    requires range.toBlock <= cursor && (cursor == range.toBlock || cursor <= currentBlock)
    requires cursor >= currentBlock || |ranges| == MaxFilterRequests - (n + 1)
    requires forall k :: n + 1 <= k < n + 1 + |ranges| ==> chunks[k].Some?
    requires logs == Joined(chunks[n + 1..n + 1 + |ranges|])
    ensures |[range] + ranges| <= MaxFilterRequests - n
    ensures Chained(lastBlock, [range] + ranges, cursor, currentBlock)
    ensures lastBlock <= cursor && (cursor == lastBlock || cursor <= currentBlock)
    ensures cursor >= currentBlock || |[range] + ranges| == MaxFilterRequests - n
    ensures forall k :: n <= k < n + |[range] + ranges| ==> chunks[k].Some?
    ensures chunks[n].value + logs == Joined(chunks[n..n + |[range] + ranges|])
  {
    assert ([range] + ranges)[1..] == ranges;
    assert chunks[n..n + 1 + |ranges|][1..] == chunks[n + 1..n + 1 + |ranges|];
  }

  /** A failure later in the scan, seen from query `n` when that query succeeded. */
  lemma FailedAfterQuery(
    lastBlock: int, currentBlock: int, chunks: seq<Option<seq<Log>>>, n: nat,
    range: BlockRange, done: seq<BlockRange>, failed: BlockRange)
    requires n < MaxFilterRequests == |chunks| && chunks[n].Some?
    requires lastBlock < currentBlock && range == NextChunk(lastBlock, currentBlock)
    requires range.toBlock < failed.fromBlock <= failed.toBlock <= currentBlock
    requires n + 1 + |done| < MaxFilterRequests && chunks[n + 1 + |done|].None?
    requires forall k :: n + 1 <= k < n + 1 + |done| ==> chunks[k].Some?
    requires FailedAfter(range.toBlock, done, failed, currentBlock)
    ensures lastBlock < failed.fromBlock <= failed.toBlock <= currentBlock
    ensures n + |[range] + done| < MaxFilterRequests && chunks[n + |[range] + done|].None?
    ensures forall k :: n <= k < n + |[range] + done| ==> chunks[k].Some?
    ensures FailedAfter(lastBlock, [range] + done, failed, currentBlock)
  {
    FailedAfterCons(lastBlock, range, done, failed, currentBlock);
  }

  /** `failed` is the chunk queried right after the ranges `done`, which
      chain from `start` to just before it. */
  predicate FailedAfter(start: int, done: seq<BlockRange>, failed: BlockRange, currentBlock: int) {
    && Chained(start, done, failed.fromBlock - 1, currentBlock)
    && failed.fromBlock - 1 < currentBlock
    && failed == NextChunk(failed.fromBlock - 1, currentBlock)
  }

  /** A failure after the next chunk is a failure after the ranges that
      begin with that chunk. */
  lemma FailedAfterCons(start: int, range: BlockRange, done: seq<BlockRange>, failed: BlockRange, currentBlock: int)
    requires start < currentBlock && range == NextChunk(start, currentBlock)
    requires FailedAfter(range.toBlock, done, failed, currentBlock)
    ensures FailedAfter(start, [range] + done, failed, currentBlock)
  {
    assert ([range] + done)[1..] == done;
  }

  function Width(r: BlockRange): int {
    r.toBlock - r.fromBlock + 1
  }

  function TotalWidth(ranges: seq<BlockRange>): int {
    if |ranges| == 0 then 0 else Width(ranges[0]) + TotalWidth(ranges[1..])
  }

  /** Chained ranges leave no gap: together they cover exactly the blocks
      between the old and the new cursor. */
  lemma {:induction false} ChainedCoversGap(start: int, ranges: seq<BlockRange>, end: int, currentBlock: int)
    requires Chained(start, ranges, end, currentBlock)
    ensures TotalWidth(ranges) == end - start
    ensures |ranges| > 0 ==> end <= currentBlock
    ensures start <= end
    decreases |ranges|
  {
    if |ranges| > 0 {
      ChainedCoversGap(ranges[0].toBlock, ranges[1..], end, currentBlock);
    }
  }

  /** Chained ranges do not overlap: each one ends before the next starts,
      and every block of every range lies after `start` and up to `end`. */
  lemma {:induction false} ChainedDisjoint(start: int, ranges: seq<BlockRange>, end: int, currentBlock: int)
    requires Chained(start, ranges, end, currentBlock)
    ensures forall i, j :: 0 <= i < j < |ranges| ==> ranges[i].toBlock < ranges[j].fromBlock
    ensures forall i :: 0 <= i < |ranges| ==> start < ranges[i].fromBlock <= ranges[i].toBlock <= end
    decreases |ranges|
  {
    if |ranges| > 0 {
      var rest := ranges[1..];
      ChainedDisjoint(ranges[0].toBlock, rest, end, currentBlock);
      assert forall j :: 1 <= j < |ranges| ==> ranges[j] == rest[j - 1];
      ChainedCoversGap(ranges[0].toBlock, rest, end, currentBlock);
    }
  }

  /** A run advances the cursor by at most `MaxFilterRange` blocks per query. */
  lemma {:induction false} ScanAdvanceBounded(start: int, ranges: seq<BlockRange>, end: int, currentBlock: int)
    requires Chained(start, ranges, end, currentBlock)
    ensures end - start <= MaxFilterRange * |ranges|
    decreases |ranges|
  {
    if |ranges| > 0 {
      ScanAdvanceBounded(ranges[0].toBlock, ranges[1..], end, currentBlock);
    }
  }

  /** When every query succeeds and the cursor is at least a full budget
      behind, the run uses the whole budget and moves the cursor by exactly
      `MaxFilterRange` blocks per remaining query, stopping short of the head. */
  lemma {:induction false} ScanFullBudget(lastBlock: int, currentBlock: int, chunks: seq<Option<seq<Log>>>, n: nat)
    requires n <= MaxFilterRequests == |chunks|
    requires forall k :: n <= k < |chunks| ==> chunks[k].Some?
    requires lastBlock + MaxFilterRange * (MaxFilterRequests - n) <= currentBlock
    ensures Scan(lastBlock, currentBlock, chunks, n).Scanned?
    ensures Scan(lastBlock, currentBlock, chunks, n).cursor == lastBlock + MaxFilterRange * (MaxFilterRequests - n)
    ensures |Scan(lastBlock, currentBlock, chunks, n).ranges| == MaxFilterRequests - n
    decreases MaxFilterRequests - n
  {
    if n < MaxFilterRequests {
      var range := NextChunk(lastBlock, currentBlock);
      assert range.toBlock == lastBlock + MaxFilterRange;
      ScanFullBudget(range.toBlock, currentBlock, chunks, n + 1);
    }
  }

  /** Worked example: a short gap is covered by one chunk ending at the
      current block. */
  lemma ScanExampleReachesHead(chunks: seq<Option<seq<Log>>>, found: seq<Log>)
    requires |chunks| == MaxFilterRequests && chunks[0] == Some(found)
    ensures Scan(1000, 1250, chunks, 0) == Scanned(found, 1250, [BlockRange(1001, 1250)])
  {
    assert Scan(1250, 1250, chunks, 1) == Scanned([], 1250, []);
  }

  /** Worked example: a failing first query reports its range and leaves
      the stored state as it was. */
  lemma StepExampleLogsFail(stored: Storage, env: Env)
    requires ValidEnv(env) && stored.lastBlock == Some(1000) && env.currentBlock == 1250
    requires env.chunks[0].None?
    ensures Step(stored, env) == StepOutcome(stored, CannotExec(LogsFailed(1001, 1250)))
  {
    assert Scan(1000, 1250, env.chunks, 0) == ScanFailed(BlockRange(1001, 1250), []);
  }

  // ---------------------------------------------------------------- decoding

  /** The payload `fulfillRandomness` must carry for this log:
      `abi.encode(round, consumerData)`. */
  function Payload(log: Log): Encoded {
    RoundAndData(log.round, log.consumerData)
  }

  /** A log as a queued request; `None` when its consumer data does not
      decode (the source throws there). */
  function DecodeLog(log: Log, roundTimeMs: nat -> int): (r: Option<Request>)
    ensures r.Some? <==> log.consumerData.RequestData?
    // the stored fingerprint is the digest of `abi.encode(round, consumerData)` of this very log
    ensures r.Some? ==> r.value.requestedHash == Keccak(Payload(log))
    ensures r.Some? ==> r.value.blockHash == log.blockHash && r.value.logIndex == log.logIndex
  {
    match log.consumerData
    case Unparsable(_) => None
    case RequestData(requestId, _) =>
      Some(Request(
        log.blockHash,
        log.transactionHash,
        roundTimeMs(log.round) / 1000,
        log.logIndex,
        requestId,
        log.round,
        Keccak(RoundAndData(log.round, log.consumerData))))
  }

  /** Every log decoded, in order; `None` if any of them does not decode. */
  function DecodeAll(logs: seq<Log>, roundTimeMs: nat -> int): (r: Option<seq<Request>>)
    ensures r.Some? <==> forall k :: 0 <= k < |logs| ==> logs[k].consumerData.RequestData?
    ensures r.Some? ==> |r.value| == |logs|
    ensures r.Some? ==> forall k :: 0 <= k < |logs| ==> Some(r.value[k]) == DecodeLog(logs[k], roundTimeMs)
  {
    if |logs| == 0 then Some([])
    else
      match DecodeLog(logs[0], roundTimeMs)
      case None => None
      case Some(first) =>
        match DecodeAll(logs[1..], roundTimeMs)
        case None =>
          assert forall k :: 1 <= k < |logs| ==> logs[k] == logs[1..][k - 1];
          None
        case Some(rest) =>
          assert forall k :: 1 <= k < |logs| ==> logs[k] == logs[1..][k - 1];
          Some([first] + rest)
  }

  // ---------------------------------------------------------- verification

  predicate IsPending(requestPending: nat -> nat, r: Request) {
    requestPending(r.requestId) != 0
  }

  predicate HashMatches(requestedHash: nat -> Hash, r: Request) {
    requestedHash(r.requestId) == r.requestedHash
  }

  /** The liveness pass: among the first `MaxMulticallRequests` requests,
      drop those the consumer no longer reports pending; keep the rest. */
  function LivenessPass(requests: seq<Request>, requestPending: nat -> nat): (r: seq<Request>)
    ensures SubsequenceOf(r, requests)
    ensures forall x :: x in requests && x !in r ==>
      x in requests[..Min(MaxMulticallRequests, |requests|)] && requestPending(x.requestId) == 0
    ensures forall x :: x in requests[Min(MaxMulticallRequests, |requests|)..] ==> x in r
    ensures forall x :: x in r && x !in requests[Min(MaxMulticallRequests, |requests|)..] ==>
      IsPending(requestPending, x)
  {
    CheckPrefix(requests, MaxMulticallRequests, x => IsPending(requestPending, x))
  }

  /** The integrity pass, over the list the liveness pass left: among its
      first `MaxMulticallRequests` requests, keep those whose on-chain
      `requestedHash` equals the stored fingerprint. */
  function IntegrityPass(requests: seq<Request>, requestedHash: nat -> Hash): (r: seq<Request>)
    ensures SubsequenceOf(r, requests)
    ensures forall x :: x in requests && x !in r ==>
      x in requests[..Min(MaxMulticallRequests, |requests|)] && requestedHash(x.requestId) != x.requestedHash
    ensures forall x :: x in requests[Min(MaxMulticallRequests, |requests|)..] ==> x in r
    ensures forall x :: x in r && x !in requests[Min(MaxMulticallRequests, |requests|)..] ==>
      HashMatches(requestedHash, x)
  {
    CheckPrefix(requests, MaxMulticallRequests, x => HashMatches(requestedHash, x))
  }

  /** The liveness pass only asks about the first `MaxMulticallRequests`
      requests, yet once it drops one of them the first unchecked request
      moves into that window: the integrity pass then judges it by its
      fingerprint alone, and it is kept without ever having been checked
      for being pending. */
  lemma UncheckedReachesFront(candidates: seq<Request>, requestPending: nat -> nat)
    requires |candidates| > MaxMulticallRequests
    requires !IsPending(requestPending, candidates[0])
    ensures var live := LivenessPass(candidates, requestPending);
      exists j :: 0 <= j < Min(MaxMulticallRequests, |live|) && live[j] == candidates[MaxMulticallRequests]
  {
    var checked := Filter(candidates[..MaxMulticallRequests], x => IsPending(requestPending, x));
    FilterShorter(candidates[..MaxMulticallRequests], x => IsPending(requestPending, x), 0);
    var live := LivenessPass(candidates, requestPending);
    assert live == checked + candidates[MaxMulticallRequests..];
    assert live[|checked|] == candidates[MaxMulticallRequests];
  }

  /** The outcome of scanning, decoding and both verification passes.
      `candidates` is the stored queue followed by the newly decoded requests. */
  datatype Verification =
    | Verified(cursor: int, candidates: seq<Request>, scanned: seq<Log>, queue: seq<Request>)
    | VerifyFailed(failed: BlockRange)
    | VerifyThrown

  /** The cursor a run starts from: the stored one, else the job's
      `fromBlock` argument, else the current block. */
  function StartBlock(stored: Storage, env: Env): int {
    stored.lastBlock.GetOr(env.fromBlock.GetOr(env.currentBlock))
  }

  function Verify(stored: Storage, env: Env): (v: Verification)
    requires ValidEnv(env)
    // the cursor only moves forward, and never past the current block
    ensures v.Verified? ==>
      StartBlock(stored, env) <= v.cursor && (v.cursor == StartBlock(stored, env) || v.cursor <= env.currentBlock)
    // the candidates are the stored queue followed by one request per scanned log,
    // each carrying the digest of the payload of its own log
    ensures v.Verified? ==> |v.candidates| == |stored.requests.GetOr([])| + |v.scanned|
    ensures v.Verified? ==> v.candidates[..|stored.requests.GetOr([])|] == stored.requests.GetOr([])
    ensures v.Verified? ==> forall k :: 0 <= k < |v.scanned| ==>
      v.candidates[|stored.requests.GetOr([])| + k].requestedHash == Keccak(Payload(v.scanned[k]))
    ensures v.Verified? ==> SubsequenceOf(v.queue, v.candidates)
    // a request leaves the queue only on an explicit answer about it
    ensures v.Verified? ==> forall x :: x in v.candidates && x !in v.queue ==>
      env.requestPending.Some? && env.requestedHash.Some? &&
      (env.requestPending.value(x.requestId) == 0 || env.requestedHash.value(x.requestId) != x.requestedHash)
    ensures v.Verified? ==> env.requestPending.Some? && env.requestedHash.Some?
    ensures v.VerifyFailed? <==> Scan(StartBlock(stored, env), env.currentBlock, env.chunks, 0).ScanFailed?
    ensures v.VerifyFailed? ==> v.failed == Scan(StartBlock(stored, env), env.currentBlock, env.chunks, 0).failed
  {
    match Scan(StartBlock(stored, env), env.currentBlock, env.chunks, 0)
    case ScanFailed(failed, _) => VerifyFailed(failed)
    case Scanned(logs, cursor, _) => Admit(stored.requests.GetOr([]), logs, cursor, env)
  }

  /** The part of `Verify` after a successful scan: decode the new logs,
      append them to the stored queue and run both passes over the result. */
  function Admit(stored: seq<Request>, logs: seq<Log>, cursor: int, env: Env): (v: Verification)
    ensures !v.VerifyFailed?
    ensures v.Verified? <==>
      env.requestPending.Some? && env.requestedHash.Some? && DecodeAll(logs, env.roundTimeMs).Some?
    ensures v.Verified? ==> v.cursor == cursor && v.scanned == logs
    ensures v.Verified? ==> |v.candidates| == |stored| + |logs| && v.candidates[..|stored|] == stored
    ensures v.Verified? ==> forall k :: 0 <= k < |logs| ==>
      v.candidates[|stored| + k].requestedHash == Keccak(Payload(logs[k]))
    ensures v.Verified? ==> SubsequenceOf(v.queue, v.candidates)
    ensures v.Verified? ==> forall x :: x in v.candidates && x !in v.queue ==>
      env.requestPending.value(x.requestId) == 0 || env.requestedHash.value(x.requestId) != x.requestedHash
  {
    match DecodeAll(logs, env.roundTimeMs)
    case None => VerifyThrown
    case Some(decoded) =>
      if env.requestPending.None? || env.requestedHash.None? then VerifyThrown
      else
        var candidates := stored + decoded;
        var queue := IntegrityPass(LivenessPass(candidates, env.requestPending.value), env.requestedHash.value);
        CandidatesLayout(stored, logs, decoded, env.roundTimeMs);
        PassesDropOnlyAnswered(candidates, env.requestPending.value, env.requestedHash.value);
        Verified(cursor, candidates, logs, queue)
  }

  /** The stored queue comes first, then one request per scanned log, each
      fingerprinted with its own log's payload. */
  lemma CandidatesLayout(stored: seq<Request>, logs: seq<Log>, decoded: seq<Request>, roundTimeMs: nat -> int)
    requires DecodeAll(logs, roundTimeMs) == Some(decoded)
    ensures |stored + decoded| == |stored| + |logs|
    ensures (stored + decoded)[..|stored|] == stored
    ensures forall k :: 0 <= k < |logs| ==> (stored + decoded)[|stored| + k].requestedHash == Keccak(Payload(logs[k]))
  {
    assert (stored + decoded)[..|stored|] == stored;
  }

  /** The two passes together keep the order, and a request leaves only on
      a "not pending" or "hash differs" answer about it. */
  lemma PassesDropOnlyAnswered(candidates: seq<Request>, requestPending: nat -> nat, requestedHash: nat -> Hash)
    ensures var queue := IntegrityPass(LivenessPass(candidates, requestPending), requestedHash);
      && SubsequenceOf(queue, candidates)
      && forall x :: x in candidates && x !in queue ==>
           requestPending(x.requestId) == 0 || requestedHash(x.requestId) != x.requestedHash
  {
    var live := LivenessPass(candidates, requestPending);
    var queue := IntegrityPass(live, requestedHash);
    SubsequenceTransitive(queue, live, candidates);
  }

  // ------------------------------------------------------------- selection

  function NowSeconds(nowMs: int): int {
    nowMs / 1000
  }

  predicate IsOverdue(nowSeconds: int, r: Request) {
    nowSeconds > r.timestamp + RequestAge
  }

  /** The age gate: the requests strictly older than `RequestAge` seconds. */
  function Overdue(queue: seq<Request>, nowSeconds: int): (r: seq<Request>)
    ensures forall x :: x in r <==> x in queue && IsOverdue(nowSeconds, x)
    ensures SubsequenceOf(r, queue)
  {
    Filter(queue, x => IsOverdue(nowSeconds, x))
  }

  /** `Math.floor(random * Math.min(MaxMulticallRequests, n))`. */
  function PickIndex(random: real, n: nat): (i: nat)
    requires 0.0 <= random < 1.0 && n > 0
    ensures i < Min(MaxMulticallRequests, n)
  {
    ScaledFloor(random, Min(MaxMulticallRequests, n))
  }

  /** `logs.find(l => l.logIndex === logIndex)`. */
  function FindLog(logs: seq<Log>, logIndex: nat): (r: Option<Log>)
    ensures r.None? <==> forall l :: l in logs ==> l.logIndex != logIndex
    ensures r.Some? ==>
      (exists k :: 0 <= k < |logs| && logs[k] == r.value && r.value.logIndex == logIndex &&
         (forall j :: 0 <= j < k ==> logs[j].logIndex != logIndex))
  {
    if |logs| == 0 then None
    else if logs[0].logIndex == logIndex then Some(logs[0])
    else
      var r := FindLog(logs[1..], logIndex);
      assert forall l :: l in logs[1..] ==> l in logs;
      assert forall l :: l in logs ==> l == logs[0] || l in logs[1..];
      if r.Some? then
        var k :| 0 <= k < |logs[1..]| && logs[1..][k] == r.value && r.value.logIndex == logIndex &&
          (forall j :: 0 <= j < k ==> logs[1..][j].logIndex != logIndex);
        assert logs[k + 1] == r.value;
        r
      else r
  }

  /** The call that fulfils a request from its re-read log. */
  function FulfilCall(consumer: Address, randomness: nat, log: Log): Call {
    Call(consumer, FulfillRandomness(randomness, Payload(log)))
  }

  /** `calls` fulfil the request picked among the overdue ones of `queue`:
      one `fulfillRandomness` call carrying the payload of the log re-read at
      the request's block hash and log index, with that log's randomness. */
  predicate FulfilsPick(queue: seq<Request>, env: Env, calls: seq<Call>)
    requires ValidEnv(env)
  {
    var overdue := Overdue(queue, NowSeconds(env.nowMs));
    && |overdue| > 0
    && var picked := overdue[PickIndex(env.random, |overdue|)];
    && env.logsInBlock(picked.blockHash).Some?
    && var found := FindLog(env.logsInBlock(picked.blockHash).value, picked.logIndex);
    && found.Some?
    && env.randomness(found.value.round).Some?
    && calls == [FulfilCall(env.consumer, env.randomness(found.value.round).value, found.value)]
  }

  // ------------------------------------------------------------------ step

  datatype StepOutcome = StepOutcome(storage: Storage, result: RunResult<Message>)

  /** The part of a run after the kept queue and the cursor were written:
      the age gate, the random pick, the re-read of its log and the dry run. */
  function Select(cursor: int, queue: seq<Request>, env: Env): (out: StepOutcome)
    requires ValidEnv(env)
    ensures out.storage.lastBlock == Some(cursor)
    // the persisted queue is the kept one, not age-filtered, unless a stale pick was pruned
    ensures !(out.result.CannotExec? && out.result.message.NoLongerValid?) ==> out.storage.requests == Some(queue)
    // "nothing to do" exactly when no request is overdue
    ensures out.result.CannotExec? && out.result.message.AllFulfilled? <==>
      Overdue(queue, NowSeconds(env.nowMs)) == []
    // a stale pick is removed, and with it every request that is not yet overdue
    ensures out.result.CannotExec? && out.result.message.NoLongerValid? ==>
      var overdue := Overdue(queue, NowSeconds(env.nowMs));
      && |overdue| > 0
      && out.result.message.request == overdue[PickIndex(env.random, |overdue|)]
      && out.storage.requests == Some(RemoveAt(overdue, PickIndex(env.random, |overdue|)))
      && (forall x :: x in out.storage.requests.value ==> x in queue && IsOverdue(NowSeconds(env.nowMs), x))
      && env.logsInBlock(out.result.message.request.blockHash).Some?
      && FindLog(env.logsInBlock(out.result.message.request.blockHash).value, out.result.message.request.logIndex).None?
    // the run aborts exactly when the pick's block or its randomness cannot be read
    ensures out.result.Thrown? <==>
      var overdue := Overdue(queue, NowSeconds(env.nowMs));
      && |overdue| > 0
      && var picked := overdue[PickIndex(env.random, |overdue|)];
      && (|| env.logsInBlock(picked.blockHash).None?
          || (var found := FindLog(env.logsInBlock(picked.blockHash).value, picked.logIndex);
              found.Some? && env.randomness(found.value.round).None?))
    // a pick whose log is no longer in its block is reported and pruned, with every
    // request that is not yet overdue
    ensures
      var overdue := Overdue(queue, NowSeconds(env.nowMs));
      |overdue| > 0 ==>
      var i := PickIndex(env.random, |overdue|);
      env.logsInBlock(overdue[i].blockHash).Some? &&
      FindLog(env.logsInBlock(overdue[i].blockHash).value, overdue[i].logIndex).None? ==>
        && out.result == CannotExec(NoLongerValid(overdue[i]))
        && out.storage.requests == Some(RemoveAt(overdue, i))
    // once the log and its randomness are read, the dry run decides
    ensures
      var overdue := Overdue(queue, NowSeconds(env.nowMs));
      |overdue| > 0 ==>
      var picked := overdue[PickIndex(env.random, |overdue|)];
      env.logsInBlock(picked.blockHash).Some? ==>
      var found := FindLog(env.logsInBlock(picked.blockHash).value, picked.logIndex);
      found.Some? && env.randomness(found.value.round).Some? ==>
        && (out.result.CanExec? <==>
              env.simulate(FulfilCall(env.consumer, env.randomness(found.value.round).value, found.value)))
        && (out.result.CanExec? || out.result == CannotExec(SimulationFailed))
    // an executable result fulfils one overdue request, picked among the first
    // `MaxMulticallRequests` overdue ones, with the payload of its re-read log, after a passing dry run
    ensures out.result.CanExec? ==>
      var overdue := Overdue(queue, NowSeconds(env.nowMs));
      && |overdue| > 0
      && var i := PickIndex(env.random, |overdue|);
      && i < MaxMulticallRequests
      && overdue[i] in queue
      && IsOverdue(NowSeconds(env.nowMs), overdue[i])
      && env.logsInBlock(overdue[i].blockHash).Some?
      && var found := FindLog(env.logsInBlock(overdue[i].blockHash).value, overdue[i].logIndex);
      && found.Some?
      && found.value in env.logsInBlock(overdue[i].blockHash).value
      && found.value.logIndex == overdue[i].logIndex
      && FulfilsPick(queue, env, out.result.calls)
      && env.simulate(out.result.calls[0])
  {
    var written := Storage(Some(cursor), Some(queue));
    var overdue := Overdue(queue, NowSeconds(env.nowMs));
    if |overdue| == 0 then StepOutcome(written, CannotExec(AllFulfilled(cursor)))
    else Resolve(written, overdue, PickIndex(env.random, |overdue|), env)
  }

  /** The part of `Select` after the pick `overdue[i]`: re-read its log at its
      block hash and log index, read the randomness of its round, and dry-run
      the call. A log that is gone prunes the pick from the overdue list. */
  function Resolve(written: Storage, overdue: seq<Request>, i: nat, env: Env): (out: StepOutcome)
    requires i < |overdue|
    ensures out.storage.lastBlock == written.lastBlock
    ensures !(out.result.CannotExec? && out.result.message.NoLongerValid?) ==> out.storage == written
    ensures !(out.result.CannotExec? && (out.result.message.AllFulfilled? || out.result.message.LogsFailed?))
    ensures out.result.Thrown? <==>
      || env.logsInBlock(overdue[i].blockHash).None?
      || (var found := FindLog(env.logsInBlock(overdue[i].blockHash).value, overdue[i].logIndex);
          found.Some? && env.randomness(found.value.round).None?)
    // the pick is pruned exactly when its log is gone
    ensures out.result.CannotExec? && out.result.message.NoLongerValid? <==>
      env.logsInBlock(overdue[i].blockHash).Some? &&
      FindLog(env.logsInBlock(overdue[i].blockHash).value, overdue[i].logIndex).None?
    ensures out.result.CannotExec? && out.result.message.NoLongerValid? ==>
      && out.result.message.request == overdue[i]
      && out.storage == written.(requests := Some(RemoveAt(overdue, i)))
      && forall x :: x in out.storage.requests.value ==> x in overdue
    // once the log and its randomness are read, the dry run decides
    ensures env.logsInBlock(overdue[i].blockHash).Some? ==>
      var found := FindLog(env.logsInBlock(overdue[i].blockHash).value, overdue[i].logIndex);
      found.Some? && env.randomness(found.value.round).Some? ==>
        && (out.result.CanExec? <==>
              env.simulate(FulfilCall(env.consumer, env.randomness(found.value.round).value, found.value)))
        && (out.result.CanExec? || out.result == CannotExec(SimulationFailed))
    ensures out.result.CanExec? ==>
      && env.logsInBlock(overdue[i].blockHash).Some?
      && var found := FindLog(env.logsInBlock(overdue[i].blockHash).value, overdue[i].logIndex);
      && found.Some?
      && env.randomness(found.value.round).Some?
      && out.result.calls == [FulfilCall(env.consumer, env.randomness(found.value.round).value, found.value)]
      && env.simulate(out.result.calls[0])
  {
    var chosen := overdue[i];
    match env.logsInBlock(chosen.blockHash)
    case None => StepOutcome(written, Thrown)
    case Some(logs) =>
      match FindLog(logs, chosen.logIndex)
      case None =>
        var pruned := RemoveAt(overdue, i);
        assert forall x :: x in pruned ==> x in overdue by {
          assert forall x :: x in pruned ==> x in multiset(pruned);
          assert multiset(pruned) <= multiset(overdue);
        }
        StepOutcome(written.(requests := Some(pruned)), CannotExec(NoLongerValid(chosen)))
      case Some(log) =>
        match env.randomness(log.round)
        case None => StepOutcome(written, Thrown)
        case Some(randomness) =>
          var call := FulfilCall(env.consumer, randomness, log);
          if env.simulate(call) then StepOutcome(written, CanExec([call]))
          else StepOutcome(written, CannotExec(SimulationFailed))
  }

  /** One run. The storage returned holds every write the run made before it
      returned or threw. */
  function Step(stored: Storage, env: Env): (out: StepOutcome)
    requires ValidEnv(env)
    // nothing is written unless the scan, the decoding and both passes succeeded
    ensures !Verify(stored, env).Verified? ==> out.storage == stored
    ensures out.result.CannotExec? && out.result.message.LogsFailed? <==> Verify(stored, env).VerifyFailed?
    // otherwise the cursor is written, never moving backwards or past the current block,
    // and the queue written is made of requests the passes kept
    ensures Verify(stored, env).Verified? ==>
      && out.storage.lastBlock.Some?
      && StartBlock(stored, env) <= out.storage.lastBlock.value
      && (out.storage.lastBlock.value == StartBlock(stored, env) || out.storage.lastBlock.value <= env.currentBlock)
      && out.storage.requests.Some?
      && (forall x :: x in out.storage.requests.value ==> x in Verify(stored, env).queue)
    // after a successful verification the run is the selection over the kept queue:
    // the kept queue itself is written unless a stale pick was pruned
    ensures Verify(stored, env).Verified? ==>
      out == Select(Verify(stored, env).cursor, Verify(stored, env).queue, env)
    ensures Verify(stored, env).Verified? && !(out.result.CannotExec? && out.result.message.NoLongerValid?) ==>
      out.storage.requests == Some(Verify(stored, env).queue)
    ensures out.result.Thrown? <==>
      Verify(stored, env).VerifyThrown? ||
      (Verify(stored, env).Verified? && Select(Verify(stored, env).cursor, Verify(stored, env).queue, env).result.Thrown?)
    // an executable result is one call that passed its dry run, fulfilling the request
    // picked among the overdue ones the passes kept, with the payload of its re-read log
    ensures out.result.CanExec? ==>
      var v := Verify(stored, env);
      && v.Verified?
      && |out.result.calls| == 1
      && env.simulate(out.result.calls[0])
      && FulfilsPick(v.queue, env, out.result.calls)
      && exists x :: x in v.queue && IsOverdue(NowSeconds(env.nowMs), x)
  {
    match Verify(stored, env)
    case VerifyFailed(failed) => StepOutcome(stored, CannotExec(LogsFailed(failed.fromBlock, failed.toBlock)))
    case VerifyThrown => StepOutcome(stored, Thrown)
    case Verified(cursor, _, _, queue) =>
      var out := Select(cursor, queue, env);
      assert out.result.CanExec? ==> var overdue := Overdue(queue, NowSeconds(env.nowMs));
        overdue[PickIndex(env.random, |overdue|)] in queue;
      out
  }

  /** When the log re-read for the picked request is the one the request was
      decoded from, the call carries exactly the payload whose digest is the
      request's stored fingerprint. */
  lemma CallCarriesFingerprint(cursor: int, queue: seq<Request>, env: Env, picked: Request, source: Log)
    requires ValidEnv(env)
    requires Select(cursor, queue, env).result.CanExec?
    requires var overdue := Overdue(queue, NowSeconds(env.nowMs));
      |overdue| > 0 && picked == overdue[PickIndex(env.random, |overdue|)]
    requires env.logsInBlock(picked.blockHash).Some?
    requires FindLog(env.logsInBlock(picked.blockHash).value, picked.logIndex) == Some(source)
    requires DecodeLog(source, env.roundTimeMs) == Some(picked)
    ensures var call := Select(cursor, queue, env).result.calls[0];
      && call.to == env.consumer
      && call.data.FulfillRandomness?
      && call.data.data.round == picked.round
      && Keccak(call.data.data) == picked.requestedHash
  {
  }
}
