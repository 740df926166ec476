/** The subgraph's entities (the schema behind the handlers under graph/src) and the store
    that holds them.

    An entity id in the source is a byte string built by concatenating a
    20-byte address, a 4-byte `i32` and more addresses. Every part has a fixed
    width, so two ids are equal exactly when their parts are; the model uses
    one key datatype per id shape instead of bytes. Block numbers, timestamps,
    transaction hashes and `BigDecimal` scores are not modelled. */
module Entities {
  import opened Common

  /** `BigInt.fromI32(-1)`: the win amount of a placement that has not ended. */
  const PendingWinAmount: int := -1
  /** `BigInt.fromI32(42)`: the win number before a roll is known. */
  const DefaultWinNumber: int := 42

  /** Round statuses. */
  const StatusPending: int := 1
  const StatusRequested: int := 2
  const StatusCompleted: int := 3
  const StatusRefunded: int := 4

  /** A bet status written by `handleRefundMulti` on every bet of a refunded round. */
  const BetStatusRefunded: int := 3

  /** `Address.zero()`. */
  const ZeroAddress: Address := 0

  datatype Table = Table(address: Address, interval: int)

  datatype Round = Round(
    table: Address,
    round: int,
    winNumber: int,
    status: int,
    started: int,
    totalBetAmount: int,
    totalWinAmount: int,
    bets: seq<Address>)

  datatype ChipKey = ChipKey(bet: Address, index: int)

  datatype Chip = Chip(amount: int, bitMap: int, player: Address)

  datatype Bet = Bet(
    amount: int,
    winAmount: int,
    winNumber: int,
    status: int,
    player: Address,
    chips: seq<ChipKey>,
    table: Address,
    round: int)

  /** `PlayerRoundSingleBetPlaceds`: one row per placed bet. */
  datatype SingleBetPlacement = SingleBetPlacement(
    player: Address,
    bet: Address,
    round: int,
    amount: int,
    winAmount: int,
    table: Address,
    status: int,
    chips: seq<ChipKey>)

  /** `PlayerRoundBetPlaceds`: one player's bets in one round, aggregated. */
  datatype PlayerRoundPlacement = PlayerRoundPlacement(
    player: Address,
    bet: Address,
    betsCount: nat,
    round: int,
    amount: int,
    winAmount: int,
    winNumber: Option<int>,
    table: Address,
    status: int)

  /** `RoundBetPlaceds`: every bet of one round, aggregated. */
  datatype RoundPlacement = RoundPlacement(
    player: Address,
    bet: Address,
    betsCount: nat,
    round: int,
    amount: int,
    winAmount: int,
    winNumber: Option<int>,
    table: Address,
    status: int,
    chips: seq<ChipKey>)

  datatype RouletteNumber = RouletteNumber(number: int, count: nat, table: Address, player: Address)

  datatype RouletteStats = RouletteStats(
    table: Address,
    player: Address,
    totalRolls: nat,
    oddCount: nat,
    evenCount: nat,
    redCount: nat,
    blackCount: nat,
    zeroCount: nat)

  datatype UniqueTableRound = UniqueTableRound(table: Address, round: int)

  /** `table.concatI32(round)`: the id of a `Round` and of a `UniqueTableRounds`. */
  datatype RoundKey = RoundKey(table: Address, round: int)

  /** `table.concatI32(round).concat(player).concat(bet)`. */
  datatype SingleBetKey = SingleBetKey(table: Address, round: int, player: Address, bet: Address)

  /** `table.concatI32(round).concat(player)`, with the bet appended on round 0. */
  datatype PlayerRoundKey = PlayerRoundKey(table: Address, round: int, player: Address, bet: Option<Address>)

  /** `table.concatI32(round)`, with the bet appended on round 0. */
  datatype RoundBetKey = RoundBetKey(table: Address, round: int, bet: Option<Address>)

  /** `table.concatI32(number)`, with the player appended on the single-player table. */
  datatype NumberKey = NumberKey(table: Address, number: int, player: Option<Address>)

  /** `table`, with the player appended on the single-player table. */
  datatype StatsKey = StatsKey(table: Address, player: Option<Address>)

  /** A table's `BetPlaced(bet, round)` event; `address` is the emitting table. */
  datatype BetPlacedEvent = BetPlacedEvent(address: Address, bet: Address, round: int)

  /** A table's `BetEnded(bet, round, value, winAmount)` event; `value` is the rolled number. */
  datatype BetEndedEvent = BetEndedEvent(address: Address, bet: Address, round: int, value: int, winAmount: int, txHash: nat)

  /** The whole entity store: one map per entity type. `endedBets` holds
      the `BetEnded` entities (bet to transaction hash). */
  datatype Store = Store(
    tables: map<Address, Table>,
    rounds: map<RoundKey, Round>,
    bets: map<Address, Bet>,
    chips: map<ChipKey, Chip>,
    singleBets: map<SingleBetKey, SingleBetPlacement>,
    playerRounds: map<PlayerRoundKey, PlayerRoundPlacement>,
    roundBets: map<RoundBetKey, RoundPlacement>,
    endedBets: map<Address, nat>,
    numbers: map<NumberKey, RouletteNumber>,
    stats: map<StatsKey, RouletteStats>,
    uniqueRounds: map<RoundKey, UniqueTableRound>)

  function EmptyStore(): Store {
    Store(map[], map[], map[], map[], map[], map[], map[], map[], map[], map[], map[])
  }

  /** On round 0 (the single-player table) the bet is part of the aggregate ids. */
  function BetSuffix(round32: int, bet: Address): (r: Option<Address>)
    ensures r.Some? <==> round32 == 0
    ensures r.Some? ==> r.value == bet
  {
    if round32 == 0 then Some(bet) else None
  }
}
