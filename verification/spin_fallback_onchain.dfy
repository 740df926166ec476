/** The on-chain spin fallback (gelato/web3-functions/spin-fallback-onchain/index.ts).
    It reads the table's current round and interval and checks the rounds of
    the last day before the current one. A round is spun when its status is
    exactly 1 and a dry run of `spin` passes. */
module SpinFallbackOnchain {
  import opened Common
  import opened W3f

  const DayInSeconds: nat := 86400

  /** The round status the table reports for a round that awaits its spin. */
  const StatusSpinnable: nat := 1

  datatype Message =
    | NoRoundsInRange
    | NoRoundsNeedSpinning
    | NonePassedSimulation(spinnable: nat)
    | Error

  /** The chain as this run sees it; `None` is a read that throws. The status
      oracle answers the multicall: an inner `None` is an entry that failed. */
  datatype Oracles = Oracles(
    currentRound: Option<nat>,
    interval: Option<nat>,
    roundStatus: Option<nat -> Option<nat>>,
    simulate: Call -> bool)

  /** `Math.ceil(DayInSeconds / interval)`. */
  function RoundsInDay(interval: nat): (r: nat)
    requires interval > 0
    ensures (r - 1) * interval < DayInSeconds <= r * interval
  {
    (DayInSeconds + interval - 1) / interval
  }

  /** The first round of the day's window that ends just before round `current`. */
  function WindowStart(current: int, interval: nat): int
    requires interval > 0
  {
    current - RoundsInDay(interval) + 1
  }

  /** The rounds from `start` to `end`, both included, ascending. */
  function RoundsBetween(start: int, end: int): (r: seq<int>)
    decreases end - start
    ensures |r| == if start <= end then end - start + 1 else 0
    ensures forall i :: 0 <= i < |r| ==> r[i] == start + i
  {
    if start > end then [] else [start] + RoundsBetween(start + 1, end)
  }

  /** The status the run reads for `round`: a failed entry counts as 0. A
      negative round cannot be encoded as a `uint256`, so its entry fails. */
  function StatusOf(roundStatus: nat -> Option<nat>, round: int): nat {
    if round < 0 then 0 else roundStatus(round).GetOr(0)
  }

  function HasSpinnableStatus(roundStatus: nat -> Option<nat>): int -> bool {
    k => StatusOf(roundStatus, k) == StatusSpinnable
  }

  /** How many rounds of `[start, end]` have status 1. */
  function SpinnableCount(roundStatus: nat -> Option<nat>, start: int, end: int): nat {
    |Filter(RoundsBetween(start, end), HasSpinnableStatus(roundStatus))|
  }

  function PassesDryRun(roulette: Address, table: Address, simulate: Call -> bool): int -> bool {
    k => simulate(SpinCall(roulette, table, k))
  }

  /** One `spin(table, round)` call to the roulette per round, in order. */
  function SpinCalls(roulette: Address, table: Address, rounds: seq<int>): (calls: seq<Call>)
    ensures |calls| == |rounds|
    ensures forall i :: 0 <= i < |rounds| ==> calls[i] == SpinCall(roulette, table, rounds[i])
  {
    if |rounds| == 0 then [] else [SpinCall(roulette, table, rounds[0])] + SpinCalls(roulette, table, rounds[1..])
  }

  /** A round is called when its status is exactly 1 and its dry run passes. */
  predicate Callable(roulette: Address, table: Address, roundStatus: nat -> Option<nat>, simulate: Call -> bool, round: int) {
    StatusOf(roundStatus, round) == StatusSpinnable && simulate(SpinCall(roulette, table, round))
  }

  /** `calls` spins, in ascending order, exactly the callable rounds of `[start, end]`. */
  predicate SpinsExactly(calls: seq<Call>, roulette: Address, table: Address,
                         roundStatus: nat -> Option<nat>, simulate: Call -> bool, start: int, end: int)
  {
    && (forall c :: c in calls ==>
          c.data.Spin? && c == SpinCall(roulette, table, c.data.round) && start <= c.data.round <= end &&
          Callable(roulette, table, roundStatus, simulate, c.data.round))
    && (forall k :: start <= k <= end && Callable(roulette, table, roundStatus, simulate, k) ==>
          SpinCall(roulette, table, k) in calls)
    && (forall i, j :: 0 <= i < j < |calls| ==> calls[i].data.round < calls[j].data.round)
  }

  /** One run for `table`. */
  function Run(roulette: Address, table: Address, chain: Oracles): (r: RunResult<Message>)
    // a failed read or a failed multicall is reported as an error
    ensures chain.currentRound.None? || chain.interval.None? ==> r == CannotExec(Error)
    // and "Error" comes from nothing else
    ensures r == CannotExec(Error) ==> chain.currentRound.None? || chain.interval.None? || chain.roundStatus.None?
    // a zero interval makes the day's window unbounded: the run never returns
    ensures r.Thrown? <==> chain.currentRound.Some? && chain.interval == Some(0)
    // a window `[current - roundsInDay + 1, current - 1]` with fewer than two rounds is rejected
    ensures chain.currentRound.Some? && chain.interval.Some? && chain.interval.value > 0 ==>
      var current := chain.currentRound.value;
      (WindowStart(current, chain.interval.value) >= current - 1 <==> r == CannotExec(NoRoundsInRange))
    // an executable run spins, in ascending order, exactly the rounds of the
    // window whose status is 1 and whose dry run passed
    ensures r.CanExec? ==>
      && chain.currentRound.Some? && chain.interval.Some? && chain.interval.value > 0 && chain.roundStatus.Some?
      && |r.calls| > 0
      && SpinsExactly(r.calls, roulette, table, chain.roundStatus.value, chain.simulate,
                      WindowStart(chain.currentRound.value, chain.interval.value), chain.currentRound.value - 1)
    // "no rounds need spinning" exactly when every read answered, the window holds
    // at least two rounds, and none of them has status 1
    ensures r == CannotExec(NoRoundsNeedSpinning) <==>
      && chain.currentRound.Some? && chain.interval.Some? && chain.interval.value > 0 && chain.roundStatus.Some?
      && var current := chain.currentRound.value;
      && WindowStart(current, chain.interval.value) < current - 1
      && forall k :: WindowStart(current, chain.interval.value) <= k <= current - 1 ==>
           StatusOf(chain.roundStatus.value, k) != StatusSpinnable
    // "none passed simulation" reports how many rounds of the window have status 1, at least one
    ensures r.CannotExec? && r.message.NonePassedSimulation? ==>
      && chain.currentRound.Some? && chain.interval.Some? && chain.interval.value > 0 && chain.roundStatus.Some?
      && var current := chain.currentRound.value;
      && r.message.spinnable > 0
      && r.message.spinnable == SpinnableCount(chain.roundStatus.value, WindowStart(current, chain.interval.value), current - 1)
    // nothing is called only when no round of the window is callable
    ensures r.CannotExec? && r.message != Error && r.message != NoRoundsInRange ==>
      chain.roundStatus.Some? &&
      var current := chain.currentRound.value;
      forall k :: WindowStart(current, chain.interval.value) <= k <= current - 1 ==>
        !Callable(roulette, table, chain.roundStatus.value, chain.simulate, k)
  {
    if chain.currentRound.None? || chain.interval.None? then CannotExec(Error)
    else if chain.interval.value == 0 then Thrown
    else
      var current := chain.currentRound.value;
      var start := WindowStart(current, chain.interval.value);
      var end := current - 1;
      if start >= end then CannotExec(NoRoundsInRange)
      else
        match chain.roundStatus
        case None => CannotExec(Error)
        case Some(roundStatus) => Sweep(roulette, table, roundStatus, chain.simulate, start, end)
  }

  /** The part of a run after the window `[start, end]` was found to hold at
      least two rounds and the status multicall answered: keep the rounds
      with status 1, then those whose dry run passes, and spin them. */
  function Sweep(roulette: Address, table: Address, roundStatus: nat -> Option<nat>, simulate: Call -> bool,
                 start: int, end: int): (r: RunResult<Message>)
    ensures r.CanExec? || r == CannotExec(NoRoundsNeedSpinning) || (r.CannotExec? && r.message.NonePassedSimulation?)
    ensures r.CanExec? ==> |r.calls| > 0 && SpinsExactly(r.calls, roulette, table, roundStatus, simulate, start, end)
    ensures r == CannotExec(NoRoundsNeedSpinning) <==>
      forall k :: start <= k <= end ==> StatusOf(roundStatus, k) != StatusSpinnable
    ensures r.CannotExec? && r.message.NonePassedSimulation? ==>
      r.message.spinnable > 0 && r.message.spinnable == SpinnableCount(roundStatus, start, end)
    ensures r.CannotExec? ==> forall k :: start <= k <= end ==> !Callable(roulette, table, roundStatus, simulate, k)
  {
    var toCheck := RoundsBetween(start, end);
    var spinnable := Filter(toCheck, HasSpinnableStatus(roundStatus));
    var callable := Filter(spinnable, PassesDryRun(roulette, table, simulate));
    CallableMembership(roulette, table, roundStatus, simulate, start, end);
    SpinnableMembership(roundStatus, start, end);
    if |spinnable| == 0 then CannotExec(NoRoundsNeedSpinning)
    else if |callable| == 0 then CannotExec(NonePassedSimulation(|spinnable|))
    else
      var calls := SpinCalls(roulette, table, callable);
      CallsOfCallable(roulette, table, roundStatus, simulate, start, end);
      CanExec(calls)
  }

  lemma WindowMembership(start: int, end: int)
    ensures forall k :: start <= k <= end <==> k in RoundsBetween(start, end)
    ensures StrictlyIncreasing(RoundsBetween(start, end))
  {
    var w := RoundsBetween(start, end);
    forall k | start <= k <= end ensures k in w {
      assert w[k - start] == k;
    }
  }

  lemma SpinCallsMembership(roulette: Address, table: Address, rounds: seq<int>)
    ensures forall c :: c in SpinCalls(roulette, table, rounds) ==>
      c == SpinCall(roulette, table, c.data.round) && c.data.round in rounds
    ensures forall k :: k in rounds ==> SpinCall(roulette, table, k) in SpinCalls(roulette, table, rounds)
  {
    var calls := SpinCalls(roulette, table, rounds);
    forall k | k in rounds ensures SpinCall(roulette, table, k) in calls {
      var i :| 0 <= i < |rounds| && rounds[i] == k;
      assert calls[i] == SpinCall(roulette, table, k);
    }
  }

  /** The rounds that survive the status filter are the window's rounds with status 1. */
  lemma SpinnableMembership(roundStatus: nat -> Option<nat>, start: int, end: int)
    ensures forall k :: k in Filter(RoundsBetween(start, end), HasSpinnableStatus(roundStatus)) <==>
      start <= k <= end && StatusOf(roundStatus, k) == StatusSpinnable
  {
    WindowMembership(start, end);
  }

  /** The rounds that survive both filters are the callable rounds of the window. */
  lemma CallableMembership(roulette: Address, table: Address, roundStatus: nat -> Option<nat>, simulate: Call -> bool,
                           start: int, end: int)
    ensures forall k :: k in Filter(Filter(RoundsBetween(start, end), HasSpinnableStatus(roundStatus)),
                                    PassesDryRun(roulette, table, simulate)) <==>
      start <= k <= end && Callable(roulette, table, roundStatus, simulate, k)
  {
    WindowMembership(start, end);
  }

  lemma CallsOfCallable(roulette: Address, table: Address, roundStatus: nat -> Option<nat>, simulate: Call -> bool,
                        start: int, end: int)
    ensures SpinsExactly(SpinCalls(roulette, table,
                           Filter(Filter(RoundsBetween(start, end), HasSpinnableStatus(roundStatus)),
                                  PassesDryRun(roulette, table, simulate))),
                         roulette, table, roundStatus, simulate, start, end)
  {
    var toCheck := RoundsBetween(start, end);
    var spinnable := Filter(toCheck, HasSpinnableStatus(roundStatus));
    var callable := Filter(spinnable, PassesDryRun(roulette, table, simulate));
    var calls := SpinCalls(roulette, table, callable);
    WindowMembership(start, end);
    FilterKeepsIncreasing(toCheck, HasSpinnableStatus(roundStatus));
    FilterKeepsIncreasing(spinnable, PassesDryRun(roulette, table, simulate));
    SpinCallsMembership(roulette, table, callable);
    CallableMembership(roulette, table, roundStatus, simulate, start, end);
  }

  /** When every read succeeds and the window holds at least two rounds, a
      callable round of the window is always spun. */
  lemma CallableRoundIsSpun(roulette: Address, table: Address, chain: Oracles, k: int)
    requires chain.currentRound.Some? && chain.interval.Some? && chain.interval.value > 0 && chain.roundStatus.Some?
    requires WindowStart(chain.currentRound.value, chain.interval.value) < chain.currentRound.value - 1
    requires WindowStart(chain.currentRound.value, chain.interval.value) <= k <= chain.currentRound.value - 1
    requires Callable(roulette, table, chain.roundStatus.value, chain.simulate, k)
    ensures Run(roulette, table, chain).CanExec?
    ensures SpinCall(roulette, table, k) in Run(roulette, table, chain).calls
  {
  }

  /** `RoundsInDay` is exactly 2 for an interval of at least half a day and
      less than a day. */
  lemma RoundsInDayTwo(interval: nat)
    requires DayInSeconds / 2 <= interval < DayInSeconds
    ensures RoundsInDay(interval) == 2
  {
    var n := DayInSeconds + interval - 1;
    DivUnique(n, interval, 2);
  }

  /** Such an interval leaves the window `[current - 1, current - 1]`, which
      the `start >= end` test rejects although round `current - 1` might still
      await its spin. */
  lemma LongIntervalChecksNothing(roulette: Address, table: Address, chain: Oracles)
    requires chain.currentRound.Some? && chain.interval.Some?
    requires DayInSeconds / 2 <= chain.interval.value < DayInSeconds
    ensures Run(roulette, table, chain) == CannotExec(NoRoundsInRange)
  {
    RoundsInDayTwo(chain.interval.value);
  }
}
