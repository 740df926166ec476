/** The refund job (gelato/web3-functions/refund/index.ts). It asks the
    subgraph for the open bets on single-player tables and for the oldest
    round that asked for randomness more than a day ago. It tries random
    open bets until one passes a dry run of `refundSingleBet`, then
    appends `refund(table, round)` for every listed round. */
module Refund {
  import opened Common
  import opened W3f

  /** One day in milliseconds (`24 * 60 * 60 * 1000`). */
  const DayMs: int := 86_400_000
  const DaySeconds: int := 86_400

  /** A row of the answer's `rounds` list. */
  datatype StaleRound = StaleRound(table: Address, round: nat, started: nat)

  /** The subgraph answer: the ids of the open bets and the stale rounds. */
  datatype Response = Response(bets: seq<Address>, rounds: seq<StaleRound>)

  /** `Math.floor((now - day) / 1000)`: the `started_lt` bound of the query,
      in seconds. */
  function YesterdayCutoff(nowMs: int): (s: int)
    ensures s * 1000 <= nowMs - DayMs < s * 1000 + 1000
  {
    (nowMs - DayMs) / 1000
  }

  /** The cutoff is the current second shifted back by exactly one day. */
  lemma CutoffIsOneDayBack(nowMs: int)
    ensures YesterdayCutoff(nowMs) == nowMs / 1000 - DaySeconds
  {
    var q := nowMs / 1000;
    assert q * 1000 <= nowMs < q * 1000 + 1000;
    DivUnique(nowMs - DayMs, 1000, q - DaySeconds);
  }

  function RefundBetCall(roulette: Address, bet: Address): Call {
    Call(roulette, RefundSingleBet(bet))
  }

  function RefundRoundCall(roulette: Address, r: StaleRound): Call {
    Call(roulette, Refund(r.table, r.round))
  }

  /** One `refund(table, round)` call per stale round, in order. */
  function RefundRoundCalls(roulette: Address, rounds: seq<StaleRound>): (calls: seq<Call>)
    ensures |calls| == |rounds|
    ensures forall i :: 0 <= i < |rounds| ==> calls[i] == RefundRoundCall(roulette, rounds[i])
  {
    if |rounds| == 0 then [] else [RefundRoundCall(roulette, rounds[0])] + RefundRoundCalls(roulette, rounds[1..])
  }

  /** `Math.random()` values, one per attempt the run may make. */
  predicate ValidPicks(picks: seq<real>, bets: seq<Address>) {
    |picks| > |bets| && forall i :: 0 <= i < |picks| ==> 0.0 <= picks[i] < 1.0
  }

  /** The bet drawn on attempt `k`. */
  function Drawn(bets: seq<Address>, picks: seq<real>, k: nat): Address
    requires ValidPicks(picks, bets) && |bets| > 0 && k <= |bets|
  {
    bets[ScaledFloor(picks[k], |bets|)]
  }

  /** The bet the attempts from `tries` on settle on: the first drawn bet whose
      dry run passes, within the `|bets| + 1` attempts the run allows. */
  function FirstRefundable(roulette: Address, bets: seq<Address>, picks: seq<real>, simulate: Call -> bool, tries: nat)
    : (r: Option<Address>)
    requires ValidPicks(picks, bets)
    decreases |bets| + 1 - tries
    ensures r.Some? ==> r.value in bets && simulate(RefundBetCall(roulette, r.value))
    ensures r.Some? ==>
      exists k :: tries <= k <= |bets| && Drawn(bets, picks, k) == r.value &&
        forall j :: tries <= j < k ==> !simulate(RefundBetCall(roulette, Drawn(bets, picks, j)))
    ensures r.None? && |bets| > 0 ==>
      forall k :: tries <= k <= |bets| ==> !simulate(RefundBetCall(roulette, Drawn(bets, picks, k)))
  {
    if tries > |bets| || |bets| == 0 then None
    else
      var bet := Drawn(bets, picks, tries);
      if simulate(RefundBetCall(roulette, bet)) then Some(bet)
      else FirstRefundable(roulette, bets, picks, simulate, tries + 1)
  }

  /** One run. `picks` supplies the successive `Math.random()` values. */
  method Run(roulette: Address, response: Option<Response>, picks: seq<real>, simulate: Call -> bool)
    returns (r: RunResult<()>)
    requires response.Some? ==> ValidPicks(picks, response.value.bets)
    // only a failed subgraph request escapes; otherwise the run always executes
    ensures r.Thrown? <==> response.None?
    ensures r.CanExec? <==> response.Some?
    // at most one single-bet refund, which passed its dry run, then every stale round in order
    ensures r.CanExec? ==>
      var bets := response.value.bets;
      var rounds := response.value.rounds;
      var single := FirstRefundable(roulette, bets, picks, simulate, 0);
      var offset := if single.Some? then 1 else 0;
      && |r.calls| == offset + |rounds|
      && (single.Some? ==> r.calls[0] == RefundBetCall(roulette, single.value))
      && (forall i :: 0 <= i < |rounds| ==> r.calls[offset + i] == RefundRoundCall(roulette, rounds[i]))
  {
    if response.None? {
      return Thrown;
    }
    var bets := response.value.bets;
    var single: Option<Address> := None;
    var tries := 0;
    while true
      invariant 0 <= tries <= |bets| + 1
      invariant FirstRefundable(roulette, bets, picks, simulate, tries) == FirstRefundable(roulette, bets, picks, simulate, 0)
      invariant single.None?
      decreases |bets| + 1 - tries
    {
      if tries > |bets| {
        break;
      }
      if |bets| == 0 {
        // `bets[Math.floor(random * 0)]` is undefined
        break;
      }
      var bet := bets[ScaledFloor(picks[tries], |bets|)];
      if simulate(RefundBetCall(roulette, bet)) {
        single := Some(bet);
        break;
      }
      tries := tries + 1;
    }
    assert single == FirstRefundable(roulette, bets, picks, simulate, 0);
    var head := if single.Some? then [RefundBetCall(roulette, single.value)] else [];
    return CanExec(head + RefundRoundCalls(roulette, response.value.rounds));
  }

  /** On a non-empty list of open bets that are all refundable, the first
      draw is refunded. */
  lemma AllRefundableTakesFirstDraw(roulette: Address, bets: seq<Address>, picks: seq<real>, simulate: Call -> bool)
    requires ValidPicks(picks, bets) && |bets| > 0
    requires forall b :: b in bets ==> simulate(RefundBetCall(roulette, b))
    ensures FirstRefundable(roulette, bets, picks, simulate, 0) == Some(Drawn(bets, picks, 0))
  {
  }
}
