# Live roulette automation and subgraph bookkeeping, in Dafny

This project models the decision logic behind a live roulette game. There are two parts.

1. **Gelato Web3 Functions.** These are off-chain jobs that decide which contract calls to submit.
   - `drand` fulfils a randomness request when its event arrives.
   - `drand-fallback` reconciles missed requests from a persisted block cursor and request queue.
   - `spin-fallback-onchain` and `fallback` spin rounds that were left open.
   - `refund` refunds stuck single-player bets and stale rounds.
   - `execution` is the periodic spinner.

   Each job is one pure function. Its input is the answers of the chain, the subgraph and the storage. Its output is a `RunResult`:
   - `CanExec(calls)`;
   - `CannotExec(message)`;
   - `Thrown`, an exception that escapes the run.

2. **Subgraph mappings.** `liro-table.ts`, `liro-stat.ts` and `liro.ts` update the entity store on `BetPlaced`, `BetEnded`, `Requested`, table creation and refund events. The store is a record of finite maps, one per entity type (`Entities.Store`). Each handler is a function from store to store. It returns `None` when the AssemblyScript handler would abort the event.

Module layout:

| file | module | models |
|---|---|---|
| common.dfy | `Common` | Option, `toI32`, truncating `%`, `Math.floor(random * n)`, order-preserving filters |
| w3f.dfy | `W3f` | the run result, the calls the jobs emit, and the symbolic ABI encoding and keccak256 |
| drand.dfy | `Drand` | gelato/web3-functions/drand/index.ts |
| drand_fallback.dfy | `DrandFallback` | gelato/web3-functions/drand-fallback/index.ts |
| spin_fallback_onchain.dfy | `SpinFallbackOnchain` | gelato/web3-functions/spin-fallback-onchain/index.ts |
| spin_fallback.dfy | `SpinFallback` | gelato/web3-functions/fallback/index.ts |
| refund.dfy | `Refund` | gelato/web3-functions/refund/index.ts |
| execution.dfy | `Execution` | gelato/web3-functions/execution/index.ts |
| entities.dfy | `Entities` | the subgraph schema: entity records, their ids and events |
| liro_table.dfy | `LiroTable` | graph/src/liro-table.ts |
| liro_stat.dfy | `LiroStat` | graph/src/liro-stat.ts |
| liro.dfy | `Liro` | graph/src/liro.ts |

Modelling conventions:
- **Symbolic encoding and hashing.** ABI encoding and keccak256 are constructors: `RoundAndData(round, data)` and `Digest(e)`. Two digests are equal exactly when their encodings are equal. This is the usual assumption that keccak256 has no collisions.
- **Oracles as parameters.** RPC reads, multicall entries, dry runs (`simulateContract`), the drand beacon and subgraph answers are parameters. A `None` answer is a call that throws.
- **Randomness.** `Math.random()` is a real in `[0, 1)`. The chosen index is `Math.floor(random * n)`, exactly as the code computes it (`Common.ScaledFloor`).
- **Entity ids.** The code builds ids by concatenating bytes. Here they are structured keys. Addresses have a fixed width, so the concatenations are injective. Round numbers in ids go through `toI32()` (`Common.ToI32`), modelled as a wrap to 32 bits, so two rounds that agree in their low 32 bits share an id.

## Model

| member | source | states |
|---|---|---|
| Common.ToI32 | graph/src/liro-table.ts:166 | `toI32()` yields a signed 32-bit value that agrees with the input modulo 2^32, so values outside the i32 range wrap |
| Common.FilterCounts | gelato/web3-functions/spin-fallback-onchain/index.ts:114-129 | a filter keeps every occurrence of an item that passes, and none of one that fails |
| Common.FilterShorter | gelato/web3-functions/drand-fallback/index.ts:133-137 | a filter over a list with a failing item is strictly shorter than the list |
| Common.RemTwo | graph/src/liro-stat.ts:158 | `% 2` truncates toward zero: the result lies in (-2, 2), agrees with the input modulo 2, and is positive only for a positive input and negative only for a negative one |
| Common.ScaledFloor | gelato/web3-functions/refund/index.ts:53 | `Math.floor(Math.random() * n)` is always a valid index into a list of length n > 0 |
| Common.CheckPrefix | gelato/web3-functions/drand-fallback/index.ts:133-137 | a filter that checks only the first `bound` positions is "filter the first `bound` items, keep the rest as is"; the result keeps the input's order, and an item survives iff it is unchecked or passes the test |
| Common.RemoveAt | gelato/web3-functions/drand-fallback/index.ts:193 | `splice(i, 1)` removes exactly one occurrence of the i-th item and keeps the others in order |
| Common.FilterKeepsIncreasing | gelato/web3-functions/spin-fallback-onchain/index.ts:114-129 | filtering an ascending list of rounds leaves an ascending list |
| Drand.Run | gelato/web3-functions/drand/index.ts:33-87 | executable iff the beacon answered, the consumer data decodes, the stored `requestedHash` of its request id equals keccak256 of `encode(round, consumerData)`, and the dry run passed; then there is one `fulfillRandomness` call to the consumer whose payload hashes to the stored fingerprint; the run aborts exactly on unparsable data or a failed read; once every read answered, a mismatch gives "incorrect hash" with both hashes and runs no simulation, and a failed dry run after a match gives "simulation failed" |
| DrandFallback.Scan | gelato/web3-functions/drand-fallback/index.ts:57-85 | the scan makes at most 5 queries; the queried ranges are chained from the old cursor; the cursor never moves back or past the current block; on exit the cursor reached the head or the budget is spent; the logs are those of the successful queries in order; when every query answers, the scan succeeds; a failure comes from the first query that did not answer, after the successful ones; its range is the chunk right after them, between the cursor and the head |
| DrandFallback.ScannedAfterQuery | gelato/web3-functions/drand-fallback/index.ts:57-77 | a successful query followed by a successful rest of the scan yields chained ranges, the joined logs of those queries, and a cursor that never passes the head |
| DrandFallback.FailedAfterQuery | gelato/web3-functions/drand-fallback/index.ts:57-85 | a successful query followed by a failure later on is still a failure on the first unanswered query, whose range follows the successful ones |
| DrandFallback.FailedAfterCons | gelato/web3-functions/drand-fallback/index.ts:57-85 | the chunk after the cursor extends the chain of successful ranges that precede a failed one |
| DrandFallback.ChainedCoversGap | gelato/web3-functions/drand-fallback/index.ts:57-77 | the queried ranges cover exactly the blocks between the old and the new cursor, which never passes the current block |
| DrandFallback.ChainedDisjoint | gelato/web3-functions/drand-fallback/index.ts:57-77 | the queried ranges never overlap, and each lies after the old cursor and up to the new one |
| DrandFallback.ScanAdvanceBounded | gelato/web3-functions/drand-fallback/index.ts:18-19 | each query advances the cursor by at most 5000 blocks |
| DrandFallback.ScanFullBudget | gelato/web3-functions/drand-fallback/index.ts:57-77 | when every query succeeds and the cursor lags by at least 25000 blocks, the run uses all 5 queries and advances exactly 25000 blocks |
| DrandFallback.ScanExampleReachesHead | gelato/web3-functions/drand-fallback/index.ts:57-77 | a 250-block gap is covered by the one range 1001..1250, and the cursor lands on the head |
| DrandFallback.StepExampleLogsFail | gelato/web3-functions/drand-fallback/index.ts:78-84 | a failing first query reports its range and leaves the stored cursor and queue untouched |
| DrandFallback.DecodeLog | gelato/web3-functions/drand-fallback/index.ts:94-117 | a log is queued iff its consumer data decodes; its stored fingerprint is keccak256 of `encode(round, consumerData)` of that very log; the request keeps the log's block hash and log index |
| DrandFallback.DecodeAll | gelato/web3-functions/drand-fallback/index.ts:94-118 | decoding succeeds iff every log decodes; then there is one request per log, in log order |
| DrandFallback.LivenessPass | gelato/web3-functions/drand-fallback/index.ts:121-137 | a request is dropped only if it is among the first 100 and not pending; items from position 100 on are kept unchecked; the order is kept |
| DrandFallback.IntegrityPass | gelato/web3-functions/drand-fallback/index.ts:140-155 | among the first 100 items of the post-liveness list, a request is kept iff its on-chain `requestedHash` equals the stored one; later items are kept; the order is kept |
| DrandFallback.CandidatesLayout | gelato/web3-functions/drand-fallback/index.ts:89-118 | the candidate list is the stored queue followed by one request per scanned log, each carrying the fingerprint of its own log's payload |
| DrandFallback.UncheckedReachesFront | gelato/web3-functions/drand-fallback/index.ts:121-155 | when the liveness pass drops one of the first 100 requests, the request at position 100, which that pass never checked, moves into the first 100 the integrity pass looks at |
| DrandFallback.Admit | gelato/web3-functions/drand-fallback/index.ts:89-155 | after a successful scan, the passes run iff every log decodes and both multicalls answered; the cursor and scanned logs pass through; requests leave only on an explicit answer |
| DrandFallback.PassesDropOnlyAnswered | gelato/web3-functions/drand-fallback/index.ts:121-155 | the two passes together keep the candidates' order and drop a request only on a "not pending" or "hash differs" answer about it |
| DrandFallback.Verify | gelato/web3-functions/drand-fallback/index.ts:47-155 | a scan failure is reported with the failed range iff the scan failed; the candidates are the stored queue followed by one request per scanned log; the kept queue is an order-preserving subsequence of them; a request leaves only on an explicit "not pending" or "hash differs" answer; the cursor only moves forward and never past the head |
| DrandFallback.Overdue | gelato/web3-functions/drand-fallback/index.ts:163-166 | a request is overdue iff the current second is strictly more than 60 s after its round time; the order is kept |
| DrandFallback.PickIndex | gelato/web3-functions/drand-fallback/index.ts:177-180 | the random pick lies in [0, min(100, number of overdue requests)) |
| DrandFallback.FindLog | gelato/web3-functions/drand-fallback/index.ts:188-190 | `find` gives the first log with the log index, and `None` iff there is none |
| DrandFallback.Select | gelato/web3-functions/drand-fallback/index.ts:157-247 | the cursor is written; the kept queue is persisted without age filtering unless a stale pick was pruned; "all fulfilled" iff nothing is overdue; the run aborts exactly when the pick's block or its round's randomness cannot be read; a pick whose log is gone is reported and the stored queue becomes the overdue list minus that pick; once the log and randomness are read, the run is executable iff the dry run passes and reports "simulation failed" otherwise; an executable result is one `fulfillRandomness` to the consumer for the overdue request at the random index (below 100), carrying the payload and randomness of the log re-read at its block hash and log index |
| DrandFallback.Resolve | gelato/web3-functions/drand-fallback/index.ts:182-247 | for a picked request: abort iff its block or its randomness cannot be read; prune it, and only it, iff its log is gone; otherwise executable iff the dry run of the fulfil call passes, else "simulation failed"; the cursor is always written and the queue is untouched unless pruned |
| DrandFallback.CallCarriesFingerprint | gelato/web3-functions/drand-fallback/index.ts:94-117 | when the re-read log is the one the picked request was decoded from, the call goes to the consumer, names the request's round, and its payload hashes to the request's stored fingerprint |
| DrandFallback.Step | gelato/web3-functions/drand-fallback/index.ts:47-247 | storage changes only when the scan, decoding and both passes succeeded; "logs failed" iff a scan query failed; after a successful verification the outcome is exactly the selection over the kept queue, so the written queue is the kept queue unless a stale pick was pruned; the written cursor never moves back or past the head; the run aborts iff the verification or the selection aborts; an executable result is one dry-run-passing `fulfillRandomness` for the request at the random index among the overdue kept ones, with the payload of its re-read log |
| SpinFallbackOnchain.RoundsInDay | gelato/web3-functions/spin-fallback-onchain/index.ts:55-56 | `Math.ceil(86400 / interval)`: the fewest rounds whose total length covers a day |
| SpinFallbackOnchain.RoundsBetween | gelato/web3-functions/spin-fallback-onchain/index.ts:71-74 | every integer from start to end, inclusive and ascending |
| SpinFallbackOnchain.SpinCalls | gelato/web3-functions/spin-fallback-onchain/index.ts:141-151 | one `spin(table, round)` call to the roulette per round, in the same order |
| SpinFallbackOnchain.Run | gelato/web3-functions/spin-fallback-onchain/index.ts:37-159 | a failed read of the current round or the interval gives "Error", and "Error" comes only from a failed read (of those or of the round statuses); the window is [current − roundsInDay + 1, current − 1], and "no rounds in range" holds iff start ≥ end; an executable result spins, in ascending order, exactly the window's rounds whose status is 1 and whose dry run passed; any other refusal means no round of the window is callable; "no rounds need spinning" iff every read answered, the window holds at least two rounds and none has status 1; "none passed simulation" reports the positive number of window rounds with status 1 |
| SpinFallbackOnchain.Sweep | gelato/web3-functions/spin-fallback-onchain/index.ts:89-151 | over a window of at least two rounds: "no rounds need spinning" iff no round has status 1; "none passed simulation" carries the positive count of status-1 rounds; otherwise the calls spin exactly the callable rounds in ascending order; any refusal means no round is callable |
| SpinFallbackOnchain.SpinnableMembership | gelato/web3-functions/spin-fallback-onchain/index.ts:89-101 | a round survives the status filter iff it lies in the window and its status reads 1 |
| SpinFallbackOnchain.CallableRoundIsSpun | gelato/web3-functions/spin-fallback-onchain/index.ts:71-151 | when every read answers, a callable round of the window makes the run executable and is spun |
| SpinFallbackOnchain.CallableMembership | gelato/web3-functions/spin-fallback-onchain/index.ts:89-129 | a round survives the status filter and the dry-run filter iff it is in the window, its status entry succeeded with value 1, and its spin simulates |
| SpinFallbackOnchain.CallsOfCallable | gelato/web3-functions/spin-fallback-onchain/index.ts:114-151 | the emitted calls are sound, complete and strictly ascending for the callable rounds of the window |
| SpinFallbackOnchain.RoundsInDayTwo | gelato/web3-functions/spin-fallback-onchain/index.ts:55-56 | an interval of at least half a day and less than a day gives two rounds per day |
| SpinFallbackOnchain.LongIntervalChecksNothing | gelato/web3-functions/spin-fallback-onchain/index.ts:55-69 | with such an interval the window has one round, and the run refuses with "no rounds in range" without checking it |
| SpinFallback.SpinsOf | gelato/web3-functions/fallback/index.ts:77-87 | one spin call per round, in order, and no other call |
| SpinFallback.SpinsKeepOrder | gelato/web3-functions/fallback/index.ts:40-87 | keeping some rounds and mapping them to spins keeps their relative order |
| SpinFallback.Run | gelato/web3-functions/fallback/index.ts:38-88 | only a failed subgraph request escapes; the calls spin exactly the listed rounds that are not their table's current round and whose dry run passed, in the subgraph's order; "all rounds are closed" iff no listed round qualifies; a current round is never spun |
| Refund.YesterdayCutoff | gelato/web3-functions/refund/index.ts:44 | the cutoff is the floor, in seconds, of one day before now |
| Refund.CutoffIsOneDayBack | gelato/web3-functions/refund/index.ts:44 | the cutoff is the current second minus exactly 86400 |
| Refund.RefundRoundCalls | gelato/web3-functions/refund/index.ts:78-87 | one `refund(table, round)` call per listed round, in query order |
| Refund.FirstRefundable | gelato/web3-functions/refund/index.ts:47-76 | the retry loop settles on a listed bet whose dry run passed, drawn on some attempt k ≤ bets.length after every earlier draw failed; no bet means every one of the bets.length + 1 attempts failed, or there were no bets |
| Refund.Run | gelato/web3-functions/refund/index.ts:34-94 | only a failed subgraph request escapes, and the run is executable iff the subgraph answered; at most one `refundSingleBet`, which passed its dry run and comes first; then every listed round's `refund`, in order |
| Refund.AllRefundableTakesFirstDraw | gelato/web3-functions/refund/index.ts:53-71 | when every open bet is refundable, the first random draw is refunded |
| Execution.Run | gelato/web3-functions/execution/index.ts:37-72 | the target is the round before the current one; executable iff its bank is positive, with exactly one `spin(table, round)` to the roulette; otherwise the message names that round and its zero bank; a failed read or a table still at round 0 aborts |
| LiroStat.GetColor | graph/src/liro-stat.ts:179-186 | 0 is green, a number is red iff it is on the red list, black iff it is on the black list |
| LiroStat.ColorsPartition | graph/src/liro-stat.ts:11-12 | the red and black lists are disjoint, 18 numbers each, and together are exactly 1..36 |
| LiroStat.UnknownOutsideWheel | graph/src/liro-stat.ts:179-186 | a number has no colour iff it lies outside 0..36 |
| LiroStat.IsUniqueRound | graph/src/liro-stat.ts:89-101 | true iff `(table, round)` was not recorded; afterwards it is recorded and nothing else changes |
| LiroStat.UniqueRoundOnce | graph/src/liro-stat.ts:89-101 | after a round has been recorded, every later check of it is false |
| LiroStat.NumberKeyOf | graph/src/liro-stat.ts:58-69 | the per-number id names the table and the i32 number, and the player exactly when the table is the single-player table |
| LiroStat.StatsKeyOf | graph/src/liro-stat.ts:74-84 | the stats id names the table, and the player exactly when the table is the single-player table |
| LiroStat.UpdateRouletteNumber | graph/src/liro-stat.ts:106-128 | a new number row starts at count 1; an existing one gains exactly 1; no other row changes |
| LiroStat.Tally | graph/src/liro-stat.ts:150-169 | a roll adds exactly 1 to the total; 0 counts only as zero; any other roll counts as exactly one of odd and even (odd iff positive with remainder 1) and as red or black by its colour |
| LiroStat.TallyPreservesConsistent | graph/src/liro-stat.ts:142-169 | total = zero + odd + even, and red + black + zero ≤ total, survive every roll |
| LiroStat.TallyAllCounts | graph/src/liro-stat.ts:142-169 | from a consistent record, any run of rolls adds its length to the total and stays consistent |
| LiroStat.UpdateRouletteStats | graph/src/liro-stat.ts:133-172 | the row is created zeroed if absent, then counts one roll; other rows are unchanged; a consistent row stays consistent |
| LiroStat.HandleNumberRolled | graph/src/liro-stat.ts:18-33 | the single-player table counts every roll under the player's own id; a multi-player table counts a round's roll only the first time the round is seen; only numbers and the round record change |
| LiroStat.HandleRouletteStats | graph/src/liro-stat.ts:39-53 | the same gating for the parity and colour tally |
| LiroStat.HandlersRecordRoll | graph/src/liro-stat.ts:18-53 | the two handlers together: the single-player table counts the roll in both the number and the stats rows; a multi-player table records the round, counts the number only the first time the round is seen, and never changes the stats; nothing else changes |
| LiroStat.MultiTableStatsNeverUpdate | graph/src/liro-stat.ts:18-53 | on a multi-player table the number handler records the round first, so the stats handler that follows changes nothing |
| LiroTable.ChipIds | graph/src/liro-table.ts:337-353 | the chip ids of a bet are `bet ++ i` for i from 0, one per amount, in index order |
| LiroTable.ChipsFrom | graph/src/liro-table.ts:342-350 | from position i on, each chip holds `amounts[j]` and `bitmaps[j]`; the call aborts iff a bitmap is missing; other chips are unchanged |
| LiroTable.CreateChips | graph/src/liro-table.ts:337-353 | aborts iff there are fewer bitmaps than amounts; otherwise one chip per amount, saved under its id, returned in index order; other chips are unchanged |
| LiroTable.CreateChipsIdempotent | graph/src/liro-table.ts:337-353 | creating the same chips again leaves the store as the first call left it |
| LiroTable.GetOrCreateRound | graph/src/liro-table.ts:358-388 | an existing round is returned unchanged; otherwise a round with status 1, zero totals, no bets, win number 42 and start `interval × round` is created; it aborts iff the round and its table are both missing |
| LiroTable.GetOrCreateRoundIdempotent | graph/src/liro-table.ts:358-381 | a second get-or-create of the same round changes nothing |
| LiroTable.AccumulateWin | graph/src/liro-table.ts:95-99 | the −1 sentinel is replaced by the win; any other value has the win added |
| LiroTable.FoldWinsAdds | graph/src/liro-table.ts:95-99 | from a non-negative aggregate, ending bets adds up their wins |
| LiroTable.SentinelAggregation | graph/src/liro-table.ts:91-102 | from the sentinel, the aggregate stays −1 until a bet ends and is then exactly the sum of the wins |
| LiroTable.PlacePlayerRound | graph/src/liro-table.ts:223-255 | the first placement creates the aggregate with one bet, its amount and the sentinel win; each later one adds 1 and the amount and keeps everything else |
| LiroTable.PlaceRoundBets | graph/src/liro-table.ts:260-295 | as for the player aggregate, and the chips become the earlier chips followed by this bet's |
| LiroTable.PlacementsCounted | graph/src/liro-table.ts:236-254 | over any run of placements into one aggregate, `betsCount` counts them and `amount` sums their amounts |
| LiroTable.PlaceRoundEntity | graph/src/liro-table.ts:323-332 | the round gains the bet amount and has the bet appended; no other round changes (the evidently intended behaviour, see Findings) |
| LiroTable.PlaceRoundEntityAsWritten | graph/src/liro-table.ts:323-332 | as the code runs: the round gains the bet amount, but its bet list is not changed, because the push goes to a copy |
| LiroTable.AsWrittenRoundsListNoBets | graph/src/liro-table.ts:323-332 | as written, rounds whose bet lists start empty keep them empty after any placement |
| LiroTable.HandleBetPlaced | graph/src/liro-table.ts:163-189 | aborts iff bitmaps are short or a nonzero round's table is missing; writes the single-bet row, both aggregates, the bet (win 0, win number 42) and its chips; the chips gained are exactly this bet's and other chips are unchanged; round 0 leaves the rounds alone, any other round records the bet (the corrected placement, see Findings); tables, stats and ended bets are untouched |
| LiroTable.UpdateIfPresent | graph/src/liro-table.ts:137-147 | an entity is rewritten only if it exists; missing ones stay missing |
| LiroTable.EndRoundEntity | graph/src/liro-table.ts:152-158 | the round adds the win, takes the roll and becomes completed (status 3); no other round changes |
| LiroTable.EndPlacements | graph/src/liro-table.ts:20-48 | the bet is recorded as ended; each existing placement row and the bet take the status and the win; the roll is counted in the number and stats tallies as `LiroStat.HandlersRecordRoll` describes; rounds, tables and chips are untouched |
| LiroTable.HandleBetEnded | graph/src/liro-table.ts:20-54 | aborts iff a nonzero round's table is missing; besides the ended-bet record, the roll is counted in the number and stats tallies (per table, or per player on the single-player table) and a missing nonzero round is created by get-or-create; aggregates replace the sentinel or add the win and keep their counts and chips; an existing bet takes the win, roll and status; a nonzero round is completed with the roll and adds the win |
| Liro.HandleMultiplePlayersTableCreated | graph/src/liro.ts:15-29 | the table is saved with the event's interval; other tables are unchanged |
| Liro.HandleSinglePlayerTableCreated | graph/src/liro.ts:31-44 | the single-player table is saved with interval 0 |
| Liro.SinglePlayerRoundsStartAtZero | graph/src/liro.ts:31-44 | every round then created for the single-player table starts at time 0 |
| Liro.HandleRequested | graph/src/liro.ts:46-53 | round 0 changes nothing; any other round gets status 2 whatever it was, after get-or-create |
| Liro.MarkRefunded | graph/src/liro.ts:64-70 | exactly the listed bets that exist get status 3; missing ones are skipped |
| Liro.HandleRefundMulti | graph/src/liro.ts:56-71 | the round's total win becomes 0 and its status 4; every existing bet of the round gets status 3; nothing else changes |
| Liro.HandleRefundSingle | graph/src/liro.ts:73-80 | an existing bet takes the contract's status and keeps every other field; no other bet and no other entity changes; a missing bet is not created |
| Liro.RefundSingleAfterPlacement | graph/src/liro.ts:73-80 | a placed bet refunded on its own is marked refunded and keeps its amount, chips and round; placement rows, rounds and chips are unchanged |
| Liro.RefundMarksPlacedBet | graph/src/liro.ts:56-71 | a bet placed in a nonzero round is marked refunded when that round is refunded (with the corrected placement) |
| Liro.AsWrittenRefundMarksNothing | graph/src/liro.ts:56-71 | with the placement as written, refunding the round leaves the bets alone, so a placed bet is never marked refunded |
| Liro.RequestReopensCompletedRound | graph/src/liro.ts:46-53 | status writes ignore the prior status: a completed round requested again goes back to 2 |

## Left out

- RPC transport, `getLogs`, multicall transport, GraphQL requests, Gelato storage I/O, secrets and logging. Their answers are parameters of each run.
- ABI encoding and decoding, keccak256 and calldata bytes are symbolic constructors, and hash collisions are assumed away.
- `Number(...)` and `BigInt` conversions. The models compute on unbounded integers, so precision loss above 2^53 is not modelled. Examples are `Number(round.round) === Number(currentRound)` in gelato/web3-functions/fallback/index.ts:52 and `Number(roundBank) > 0` in gelato/web3-functions/execution/index.ts:53.
- The drand helpers `getNextRandomness` and `getRoundTime` are not part of this model. They are opaque functions of the round.
- `Math.random()` and `Date.now()` are inputs. The refund job takes one random value per attempt (`picks`).
- The `setTimeout` delay of the execution job is timing only.
- Chain-id selection (chain, multicall address, block-tip delay) is configuration. `currentBlock` and the chain's answers are inputs.
- The subgraph queries' filters, ordering and `first: 5` / `first: 1` limits run on the subgraph server. The answers are inputs, so those limits are not enforced by the model.
- The `BigDecimal` score strings, `blockNumber`, `blockTimestamp`, `transactionHash` and `lastUpdated` fields of the entities. These are bookkeeping copies of event metadata or decimal formatting.
- Graph runtime bindings: `LiroBetABI.bind`, `dataSource.context` and `TableTemplate.createWithContext`. The bet contract's answers and the single-player table address are inputs.
- AssemblyScript `!==` and `===` on `BigInt` may compare references rather than values. The model uses the intended value comparison.
- LiroTable.PlaceRoundEntity, LiroTable.HandleBetPlaced and Liro.RefundMarksPlacedBet: `round.bets.push(bet)` is modelled as appending to the stored list, which is what the code evidently intends; `HandleBetPlaced` builds the round with this corrected placement. graph-ts entity getters return a copy, so the push does not reach the saved entity; `LiroTable.PlaceRoundEntityAsWritten` and `Liro.AsWrittenRefundMarksNothing` model that (see Findings).
- Common.ToI32: wraps every integer to 32 bits. graph-ts `toI32` aborts the handler for values of 2^32 or more and below −2^32, and this is not modelled. Inside the i32 range both agree (`Common.ToI32Small`).
- DrandFallback.Step: the kept queue is not fully checked. Requests from position 100 on skip the liveness pass and can move into the first 100 (`DrandFallback.UncheckedReachesFront`), and the integrity pass then checks only their fingerprint. The model follows the code here.
- `handleBetPlaced` calls `createChips` three times with the same arguments. The model calls it once; `LiroTable.CreateChipsIdempotent` shows the later calls change nothing.
- Drand-fallback logs whose consumer data does not decode. The code has no guard, so such a log aborts the run, and the model follows the code.
- A zero table interval in the on-chain spin fallback makes `86400 / 0` infinite. The round loop then never ends, so `SpinFallbackOnchain.Run` returns `Thrown` (the run fails).
- A negative round in the on-chain spin fallback cannot be encoded as a `uint256`. Its multicall entry is modelled as a failed entry, which has status 0.
- Refund.Run: `ValidPicks` asks for at least `bets.length + 1` random values in [0, 1). That is one per attempt the loop may make; it is a requirement on the model's input, not on the job's.

## Findings

| source | as written | input that shows it | evidently intended | confidence | as-written member | corrected member |
|---|---|---|---|---|---|---|
| graph/src/liro-table.ts:330 | `round.bets.push(event.params.bet)` pushes onto the array the generated getter returned, a copy, so the saved round keeps its old `bets` list | a `BetPlaced` on a nonzero round, then a `refund(table, round)` call for that round: `handleRefundMulti` walks an empty `bets` list and the bet stays unrefunded | the bet is appended to the round's list, so a round refund marks it refunded | medium, not executed | LiroTable.PlaceRoundEntityAsWritten, Liro.AsWrittenRefundMarksNothing | LiroTable.PlaceRoundEntity, Liro.RefundMarksPlacedBet |
