/** The scheduled spinner (gelato/web3-functions/execution/index.ts). After
    a configured delay it looks at the round before the table's current one
    and spins it when its bank is positive. */
module Execution {
  import opened Common
  import opened W3f

  datatype Message = EmptyRound(round: int, bank: nat)

  /** `getCurrentRound()` and `getRoundBank(round)` on the table; `None` is a
      read that throws. */
  datatype Oracles = Oracles(currentRound: Option<nat>, roundBank: nat -> Option<nat>)

  /** `getCurrentRound() - 1n`, which is -1 on a table still at round 0. */
  function PreviousRound(current: nat): int {
    current - 1
  }

  function Run(roulette: Address, table: Address, chain: Oracles): (r: RunResult<Message>)
    // a failed read, or round -1 that cannot be encoded as a uint256, aborts the run
    ensures r.Thrown? <==>
      chain.currentRound.None? || chain.currentRound == Some(0) || chain.roundBank(chain.currentRound.value - 1).None?
    // the previous round is spun exactly when its bank is positive
    ensures r.CanExec? <==>
      && chain.currentRound.Some? && chain.currentRound.value > 0
      && chain.roundBank(chain.currentRound.value - 1).Some?
      && chain.roundBank(chain.currentRound.value - 1).value > 0
    ensures r.CanExec? ==> r.calls == [SpinCall(roulette, table, chain.currentRound.value - 1)]
    // otherwise the message names that round and its empty bank
    ensures r.CannotExec? ==>
      r.message.round + 1 == chain.currentRound.value && r.message.bank == 0
  {
    match chain.currentRound
    case None => Thrown
    case Some(current) =>
      var round := PreviousRound(current);
      if round < 0 then Thrown
      else
        match chain.roundBank(round)
        case None => Thrown
        case Some(bank) =>
          if bank > 0 then CanExec([SpinCall(roulette, table, round)])
          else CannotExec(EmptyRound(round, bank))
  }
}
