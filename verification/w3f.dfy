/** The shared boundary of the Gelato Web3 Functions: the calls a run may
    return, its result, and the drand request payloads.

    ABI encoding and keccak256 are kept symbolic. `encodeFunctionData` becomes
    the `CallData` constructor that names the function and its arguments, and
    `abi.encode(uint256, bytes)` becomes `Encoded`. A hash is either the digest
    of an encoding or some other 32-byte word read from a contract. Two digests
    are equal exactly when their encodings are equal: this is the usual
    assumption that keccak256 has no collisions. */
module W3f {
  import opened Common

  /** The `bytes consumerData` of a `RequestedRandomness` event. The
      consumer writes `abi.encode(uint256 requestId, bytes extra)` there;
      `Unparsable` stands for bytes that do not decode as that pair. */
  datatype ConsumerData =
    | RequestData(requestId: nat, extra: seq<bv8>)
    | Unparsable(raw: seq<bv8>)

  /** `abi.encode(["uint256", "bytes"], [round, consumerData])`. */
  datatype Encoded = RoundAndData(round: nat, data: ConsumerData)

  /** A bytes32 value: the keccak256 digest of an encoding, or any other
      word (for instance the zero hash of a request that does not exist). */
  datatype Hash = Digest(of: Encoded) | Word(value: nat)

  function Keccak(e: Encoded): Hash {
    Digest(e)
  }

  /** The encoded arguments of the contract functions the jobs call. */
  datatype CallData =
    | Spin(table: Address, round: int)
    | Refund(table: Address, round: int)
    | RefundSingleBet(bet: Address)
    | FulfillRandomness(randomness: nat, data: Encoded)

  datatype Call = Call(to: Address, data: CallData)

  /** `spin(table, round)` on the roulette contract. */
  function SpinCall(roulette: Address, table: Address, round: int): Call {
    Call(roulette, Spin(table, round))
  }

  /** What one run returns. `CanExec` carries the calls to submit,
      `CannotExec` the reason nothing is submitted. `Thrown` is an exception
      that escapes the run: the runtime records a failed run and submits
      nothing. */
  datatype RunResult<+M> =
    | CanExec(calls: seq<Call>)
    | CannotExec(message: M)
    | Thrown
}
