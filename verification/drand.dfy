/** The event-driven drand fulfiller: one run per `RequestedRandomness`
    event (gelato/web3-functions/drand/index.ts). It checks that the request's
    fingerprint still matches the consumer's stored `requestedHash`, dry-runs
    `fulfillRandomness`, and then returns that single call. */
module Drand {
  import opened Common
  import opened W3f

  datatype Message =
    | IncorrectHash(onChain: Hash, local: Hash)
    | SimulationFailed

  /** The chain as this run sees it. `Randomness` is the drand beacon
      (`getNextRandomness`), `RequestedHash` the consumer's
      `requestedHash(requestId)` view; `None` is a call that throws. */
  datatype Oracles = Oracles(
    randomness: nat -> Option<nat>,
    requestedHash: nat -> Option<Hash>,
    simulate: Call -> bool)

  /** The request id is the first word of the consumer data. */
  function RequestId(data: ConsumerData): Option<nat> {
    match data
    case RequestData(id, _) => Some(id)
    case Unparsable(_) => None
  }

  /** The call that delivers `randomness` for the request: it carries the
      very bytes whose digest the consumer stored. */
  function FulfilCall(consumer: Address, randomness: nat, payload: Encoded): Call {
    Call(consumer, FulfillRandomness(randomness, payload))
  }

  /** One run on the event `(round, data)` emitted by `consumer`. */
  function Run(consumer: Address, round: nat, data: ConsumerData, chain: Oracles): (r: RunResult<Message>)
    // executable exactly when every read succeeded, the fingerprint matched and the dry run passed
    ensures r.CanExec? <==>
      && chain.randomness(round).Some?
      && data.RequestData?
      && chain.requestedHash(data.requestId) == Some(Keccak(RoundAndData(round, data)))
      && chain.simulate(FulfilCall(consumer, chain.randomness(round).value, RoundAndData(round, data)))
    // an executable run holds one call, which passed its dry run and whose
    // payload hashes to the consumer's stored hash for the id inside it
    ensures r.CanExec? ==>
      && |r.calls| == 1
      && chain.simulate(r.calls[0])
      && r.calls[0].to == consumer
      && r.calls[0].data.FulfillRandomness?
      && r.calls[0].data.data.round == round
      && RequestId(r.calls[0].data.data.data).Some?
      && chain.requestedHash(RequestId(r.calls[0].data.data.data).value) == Some(Keccak(r.calls[0].data.data))
    // a mismatch is reported with both hashes, before any dry run
    ensures r.CannotExec? && r.message.IncorrectHash? ==>
      && r.message.onChain != r.message.local
      && r.message.local == Keccak(RoundAndData(round, data))
      && data.RequestData?
      && Some(r.message.onChain) == chain.requestedHash(data.requestId)
    // a dry-run failure is only reported once the hash matched
    ensures r.CannotExec? && r.message.SimulationFailed? ==>
      data.RequestData? && chain.requestedHash(data.requestId) == Some(Keccak(RoundAndData(round, data)))
    // the run aborts exactly on an unparsable payload or a failed read
    ensures r.Thrown? <==>
      || chain.randomness(round).None?
      || data.Unparsable?
      || chain.requestedHash(data.requestId).None?
    // once every read answered, a mismatch is reported as such, with both hashes
    ensures
      && chain.randomness(round).Some? && data.RequestData? && chain.requestedHash(data.requestId).Some?
      && chain.requestedHash(data.requestId).value != Keccak(RoundAndData(round, data))
      ==> r == CannotExec(IncorrectHash(chain.requestedHash(data.requestId).value, Keccak(RoundAndData(round, data))))
    // and a matching fingerprint whose dry run fails is reported as a simulation failure
    ensures
      && chain.randomness(round).Some? && data.RequestData?
      && chain.requestedHash(data.requestId) == Some(Keccak(RoundAndData(round, data)))
      && !chain.simulate(FulfilCall(consumer, chain.randomness(round).value, RoundAndData(round, data)))
      ==> r == CannotExec(SimulationFailed)
  {
    match chain.randomness(round)
    case None => Thrown
    case Some(randomness) =>
      match RequestId(data)
      case None => Thrown
      case Some(requestId) =>
        match chain.requestedHash(requestId)
        case None => Thrown
        case Some(hash) =>
          var payload := RoundAndData(round, data);
          var local := Keccak(payload);
          if hash != local then CannotExec(IncorrectHash(hash, local))
          else
            var call := FulfilCall(consumer, randomness, payload);
            if chain.simulate(call) then CanExec([call]) else CannotExec(SimulationFailed)
  }
}
