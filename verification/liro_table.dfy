/** The table handlers of the subgraph (graph/src/liro-table.ts): what a
    `BetPlaced` and a `BetEnded` event write into the entity store.

    The bet contract's answers (`getPlayer`, `getAmount`, `getTable`,
    `getStatus`, `getBets`) are inputs. A handler that throws aborts the
    whole event; it returns `None`. */
module LiroTable {
  import opened Common
  import opened Entities
  import opened LiroStat

  /** The bet contract's answers during `handleBetPlaced`. */
  datatype PlacedReads = PlacedReads(
    player: Address,
    amount: int,
    table: Address,
    status: int,
    amounts: seq<int>,
    bitmaps: seq<int>)

  /** The bet contract's answers during `handleBetEnded`. */
  datatype EndedReads = EndedReads(player: Address, status: int, table: Address)

  // ---------------------------------------------------------------- chips

  /** The ids `bet ++ i32(i)` of a bet's first `n` chips, in index order. */
  function ChipIds(bet: Address, n: nat): (ids: seq<ChipKey>)
    ensures |ids| == n
    ensures forall i :: 0 <= i < n ==> ids[i] == ChipKey(bet, i)
  {
    seq(n, i => ChipKey(bet, i))
  }

  /** `createChips` from position `i` on. Reading `bitmaps[i]` past its end
      throws, so a bitmap list shorter than the amount list aborts. */
  function ChipsFrom(chips: map<ChipKey, Chip>, bet: Address, player: Address,
                     amounts: seq<int>, bitmaps: seq<int>, i: nat): (r: Option<map<ChipKey, Chip>>)
    requires i <= |amounts|
    decreases |amounts| - i
    ensures r.None? <==> i < |amounts| && |bitmaps| < |amounts|
    ensures r.Some? ==> forall k :: k in r.value <==> k in chips || (k.bet == bet && i <= k.index < |amounts|)
    ensures r.Some? ==> forall j :: i <= j < |amounts| ==> r.value[ChipKey(bet, j)] == Chip(amounts[j], bitmaps[j], player)
    ensures r.Some? ==> forall k :: k in chips && !(k.bet == bet && i <= k.index < |amounts|) ==> r.value[k] == chips[k]
  {
    if i == |amounts| then Some(chips)
    else if i >= |bitmaps| then None
    else ChipsFrom(chips[ChipKey(bet, i) := Chip(amounts[i], bitmaps[i], player)], bet, player, amounts, bitmaps, i + 1)
  }

  /** `createChips`: one chip per amount, saved under `bet ++ i32(i)`; returns
      the store's chips and the ids in index order. */
  function CreateChips(chips: map<ChipKey, Chip>, bet: Address, player: Address, amounts: seq<int>, bitmaps: seq<int>)
    : (r: Option<(map<ChipKey, Chip>, seq<ChipKey>)>)
    ensures r.None? <==> |bitmaps| < |amounts|
    ensures r.Some? ==> r.value.1 == ChipIds(bet, |amounts|)
    ensures r.Some? ==> forall i :: 0 <= i < |amounts| ==>
      ChipKey(bet, i) in r.value.0 && r.value.0[ChipKey(bet, i)] == Chip(amounts[i], bitmaps[i], player)
    ensures r.Some? ==> forall k :: k in r.value.0 <==> k in chips || k in r.value.1
    ensures r.Some? ==> forall k :: k in chips && k !in r.value.1 ==> r.value.0[k] == chips[k]
  {
    match ChipsFrom(chips, bet, player, amounts, bitmaps, 0)
    case None => None
    case Some(m) =>
      var ids := ChipIds(bet, |amounts|);
      assert forall k :: k in ids <==> k.bet == bet && 0 <= k.index < |amounts| by {
        forall k: ChipKey | k.bet == bet && 0 <= k.index < |amounts| ensures k in ids {
          assert ids[k.index] == k;
        }
      }
      Some((m, ids))
  }

  /** Saving the same chips again changes nothing: the handler's three
      `createChips` calls leave what the first one left. */
  lemma CreateChipsIdempotent(chips: map<ChipKey, Chip>, bet: Address, player: Address, amounts: seq<int>, bitmaps: seq<int>)
    requires CreateChips(chips, bet, player, amounts, bitmaps).Some?
    ensures CreateChips(CreateChips(chips, bet, player, amounts, bitmaps).value.0, bet, player, amounts, bitmaps)
            == CreateChips(chips, bet, player, amounts, bitmaps)
  {
    var (m, ids) := CreateChips(chips, bet, player, amounts, bitmaps).value;
    var (m2, ids2) := CreateChips(m, bet, player, amounts, bitmaps).value;
    assert forall k :: k in m2 <==> k in m;
    forall k | k in m2 ensures m2[k] == m[k] {
      if k in ids {
        assert ids[k.index] == k;
      }
    }
    assert m2 == m;
  }

  // ---------------------------------------------------------------- rounds

  /** `getOrCreateRound`. The id keeps only the low 32 bits of the round. */
  function GetOrCreateRound(store: Store, table: Address, round: int): (r: Option<Store>)
    ensures r.None? <==> RoundKey(table, ToI32(round)) !in store.rounds && table !in store.tables
    ensures RoundKey(table, ToI32(round)) in store.rounds ==> r == Some(store)
    ensures r.Some? ==> r.value == store.(rounds := r.value.rounds)
    ensures r.Some? ==> r.value.rounds.Keys == store.rounds.Keys + {RoundKey(table, ToI32(round))}
    ensures r.Some? ==> forall k :: k in store.rounds ==> r.value.rounds[k] == store.rounds[k]
    // a new round is pending, empty, and starts at `interval * round`
    ensures r.Some? && RoundKey(table, ToI32(round)) !in store.rounds ==>
      r.value.rounds[RoundKey(table, ToI32(round))] ==
        Round(table, round, DefaultWinNumber, StatusPending, store.tables[table].interval * round, 0, 0, [])
  {
    var key := RoundKey(table, ToI32(round));
    if key in store.rounds then Some(store)
    else if table !in store.tables then None
    else
      var created := Round(table, round, DefaultWinNumber, StatusPending, StartTime(store.tables[table], round), 0, 0, []);
      Some(store.(rounds := store.rounds[key := created]))
  }

  /** `calculateRoundStartTime`. */
  function StartTime(table: Table, round: int): int {
    table.interval * round
  }

  lemma GetOrCreateRoundIdempotent(store: Store, table: Address, round: int)
    requires GetOrCreateRound(store, table, round).Some?
    ensures GetOrCreateRound(GetOrCreateRound(store, table, round).value, table, round) == GetOrCreateRound(store, table, round)
  {
  }

  /** The round of `table` that the key of `round` designates, once it exists. */
  function RoundAt(store: Store, table: Address, round: int): Round
    requires RoundKey(table, ToI32(round)) in store.rounds
  {
    store.rounds[RoundKey(table, ToI32(round))]
  }

  // ---------------------------------------------------------------- win aggregation

  /** A placement's win amount after one more bet ended: the sentinel is
      replaced, any other value is added to. */
  function AccumulateWin(current: int, win: int): (r: int)
    ensures current == PendingWinAmount ==> r == win
    ensures current != PendingWinAmount ==> r - current == win
  {
    if current != PendingWinAmount then current + win else win
  }

  function Sum(ws: seq<int>): int
    decreases |ws|
  {
    if |ws| == 0 then 0 else ws[0] + Sum(ws[1..])
  }

  /** The win amount after the bets of `ws` ended, in order. */
  function FoldWins(current: int, ws: seq<int>): int
    decreases |ws|
  {
    if |ws| == 0 then current else FoldWins(AccumulateWin(current, ws[0]), ws[1..])
  }

  /** From a non-negative total, ending bets adds their wins. */
  lemma {:induction false} FoldWinsAdds(current: int, ws: seq<int>)
    requires current >= 0
    requires forall i :: 0 <= i < |ws| ==> ws[i] >= 0
    ensures FoldWins(current, ws) == current + Sum(ws)
    decreases |ws|
  {
    if |ws| > 0 {
      FoldWinsAdds(current + ws[0], ws[1..]);
    }
  }

  /** Win amounts are unsigned, so starting from the sentinel the aggregate
      is the sentinel until a bet ends and the exact sum of wins afterwards. */
  lemma {:induction false} SentinelAggregation(ws: seq<int>)
    requires forall i :: 0 <= i < |ws| ==> ws[i] >= 0
    ensures FoldWins(PendingWinAmount, ws) == if |ws| == 0 then PendingWinAmount else Sum(ws)
  {
    if |ws| > 0 {
      FoldWinsAdds(ws[0], ws[1..]);
    }
  }

  // ---------------------------------------------------------------- BetPlaced

  function SingleKeyOfPlaced(event: BetPlacedEvent, answers: PlacedReads): SingleBetKey {
    SingleBetKey(event.address, ToI32(event.round), answers.player, event.bet)
  }

  function PlayerRoundKeyOfPlaced(event: BetPlacedEvent, answers: PlacedReads): PlayerRoundKey {
    PlayerRoundKey(event.address, ToI32(event.round), answers.player, BetSuffix(ToI32(event.round), event.bet))
  }

  function RoundBetKeyOfPlaced(event: BetPlacedEvent): RoundBetKey {
    RoundBetKey(event.address, ToI32(event.round), BetSuffix(ToI32(event.round), event.bet))
  }

  /** `createOrUpdatePlayerRoundBetPlaceds` on the row found under its id. */
  function PlacePlayerRound(found: Option<PlayerRoundPlacement>, event: BetPlacedEvent, answers: PlacedReads)
    : (p: PlayerRoundPlacement)
    ensures p.betsCount == (if found.Some? then found.value.betsCount else 0) + 1
    ensures p.amount == (if found.Some? then found.value.amount else 0) + answers.amount
    ensures p.winAmount == if found.Some? then found.value.winAmount else PendingWinAmount
    ensures found.Some? ==> p == found.value.(betsCount := p.betsCount, amount := p.amount)
  {
    match found
    case None =>
      PlayerRoundPlacement(answers.player, event.bet, 1, event.round, answers.amount, PendingWinAmount, None, answers.table, answers.status)
    case Some(p) => p.(amount := p.amount + answers.amount, betsCount := p.betsCount + 1)
  }

  /** `createOrUpdateRoundBetPlaceds` on the row found under its id. */
  function PlaceRoundBets(found: Option<RoundPlacement>, event: BetPlacedEvent, answers: PlacedReads, chipIds: seq<ChipKey>)
    : (p: RoundPlacement)
    ensures p.betsCount == (if found.Some? then found.value.betsCount else 0) + 1
    ensures p.amount == (if found.Some? then found.value.amount else 0) + answers.amount
    ensures p.winAmount == if found.Some? then found.value.winAmount else PendingWinAmount
    // the round's chips are the earlier chips followed by this bet's
    ensures p.chips == (if found.Some? then found.value.chips else []) + chipIds
    ensures found.Some? ==> p == found.value.(betsCount := p.betsCount, amount := p.amount, chips := p.chips)
  {
    match found
    case None =>
      RoundPlacement(answers.player, event.bet, 1, event.round, answers.amount, PendingWinAmount, None, answers.table, answers.status, chipIds)
    case Some(p) => p.(amount := p.amount + answers.amount, betsCount := p.betsCount + 1, chips := p.chips + chipIds)
  }

  function Lookup<K, V>(m: map<K, V>, k: K): Option<V> {
    if k in m then Some(m[k]) else None
  }

  /** `createOrUpdateRoundEntity`: the bet joins its round's total and list. */
  function PlaceRoundEntity(store: Store, table: Address, round: int, bet: Address, amount: int): (r: Option<Store>)
    ensures r.None? <==> GetOrCreateRound(store, table, round).None?
    ensures r.Some? ==>
      var key := RoundKey(table, ToI32(round));
      var before := GetOrCreateRound(store, table, round).value.rounds[key];
      && r.value == store.(rounds := r.value.rounds)
      && r.value.rounds.Keys == store.rounds.Keys + {key}
      && (forall k :: k in store.rounds && k != key ==> r.value.rounds[k] == store.rounds[k])
      && r.value.rounds[key] == before.(totalBetAmount := before.totalBetAmount + amount, bets := before.bets + [bet])
  {
    match GetOrCreateRound(store, table, round)
    case None => None
    case Some(s) =>
      var key := RoundKey(table, ToI32(round));
      var r := s.rounds[key];
      Some(s.(rounds := s.rounds[key := r.(totalBetAmount := r.totalBetAmount + amount, bets := r.bets + [bet])]))
  }

  /** `createOrUpdateRoundEntity` as the code runs it. The generated `bets`
      getter returns a fresh array, so the push never reaches the saved
      round: only the total changes. */
  function PlaceRoundEntityAsWritten(store: Store, table: Address, round: int, bet: Address, amount: int): (r: Option<Store>)
    ensures r.None? <==> GetOrCreateRound(store, table, round).None?
    ensures r.Some? ==>
      var key := RoundKey(table, ToI32(round));
      var before := GetOrCreateRound(store, table, round).value.rounds[key];
      && r.value == store.(rounds := r.value.rounds)
      && r.value.rounds.Keys == store.rounds.Keys + {key}
      && (forall k :: k in store.rounds && k != key ==> r.value.rounds[k] == store.rounds[k])
      && r.value.rounds[key] == before.(totalBetAmount := before.totalBetAmount + amount)
  {
    match GetOrCreateRound(store, table, round)
    case None => None
    case Some(s) =>
      var key := RoundKey(table, ToI32(round));
      var r := s.rounds[key];
      Some(s.(rounds := s.rounds[key := r.(totalBetAmount := r.totalBetAmount + amount)]))
  }

  /** No stored round lists any bet. */
  predicate NoRoundLists(store: Store) {
    forall k :: k in store.rounds ==> store.rounds[k].bets == []
  }

  /** Under the code as written, rounds are created with an empty list and
      never gain a bet. */
  lemma AsWrittenRoundsListNoBets(store: Store, table: Address, round: int, bet: Address, amount: int)
    requires NoRoundLists(store)
    requires PlaceRoundEntityAsWritten(store, table, round, bet, amount).Some?
    ensures NoRoundLists(PlaceRoundEntityAsWritten(store, table, round, bet, amount).value)
  {
  }

  /** `handleBetPlaced`. */
  function HandleBetPlaced(store: Store, event: BetPlacedEvent, answers: PlacedReads): (r: Option<Store>)
    // the handler aborts on short chip data, or when a nonzero round needs a table that was never created
    ensures r.None? <==>
      |answers.bitmaps| < |answers.amounts| ||
      (event.round != 0 && RoundKey(answers.table, ToI32(event.round)) !in store.rounds && answers.table !in store.tables)
    // a fresh single-bet row, pending its win, with this bet's chips
    ensures r.Some? ==> r.value.singleBets == store.singleBets[SingleKeyOfPlaced(event, answers) :=
      SingleBetPlacement(answers.player, event.bet, event.round, answers.amount, PendingWinAmount, answers.table, answers.status,
                         ChipIds(event.bet, |answers.amounts|))]
    // the aggregates count the bet and add its amount; nothing else of theirs changes
    ensures r.Some? ==> r.value.playerRounds == store.playerRounds[PlayerRoundKeyOfPlaced(event, answers) :=
      PlacePlayerRound(Lookup(store.playerRounds, PlayerRoundKeyOfPlaced(event, answers)), event, answers)]
    ensures r.Some? ==> r.value.roundBets == store.roundBets[RoundBetKeyOfPlaced(event) :=
      PlaceRoundBets(Lookup(store.roundBets, RoundBetKeyOfPlaced(event)), event, answers, ChipIds(event.bet, |answers.amounts|))]
    // the bet itself, with no win yet
    ensures r.Some? ==> r.value.bets == store.bets[event.bet :=
      Bet(answers.amount, 0, DefaultWinNumber, answers.status, answers.player, ChipIds(event.bet, |answers.amounts|), event.address, event.round)]
    // one chip per amount
    ensures r.Some? ==> forall i :: 0 <= i < |answers.amounts| ==>
      ChipKey(event.bet, i) in r.value.chips && r.value.chips[ChipKey(event.bet, i)] == Chip(answers.amounts[i], answers.bitmaps[i], answers.player)
    // and no other chip is created or changed
    ensures r.Some? ==> forall k :: k in r.value.chips <==> k in store.chips || k in ChipIds(event.bet, |answers.amounts|)
    ensures r.Some? ==> forall k :: k in store.chips && k !in ChipIds(event.bet, |answers.amounts|) ==> r.value.chips[k] == store.chips[k]
    // round 0 has no round entity; any other round records the bet
    ensures r.Some? && event.round == 0 ==> r.value.rounds == store.rounds
    ensures r.Some? && event.round != 0 ==>
      var key := RoundKey(answers.table, ToI32(event.round));
      var before := GetOrCreateRound(store, answers.table, event.round).value.rounds[key];
      && r.value.rounds.Keys == store.rounds.Keys + {key}
      && (forall k :: k in store.rounds && k != key ==> r.value.rounds[k] == store.rounds[k])
      && r.value.rounds[key] == before.(totalBetAmount := before.totalBetAmount + answers.amount, bets := before.bets + [event.bet])
    ensures r.Some? ==>
      && r.value.tables == store.tables && r.value.endedBets == store.endedBets
      && r.value.numbers == store.numbers && r.value.stats == store.stats && r.value.uniqueRounds == store.uniqueRounds
  {
    match CreateChips(store.chips, event.bet, answers.player, answers.amounts, answers.bitmaps)
    case None => None
    case Some((chips, ids)) =>
      var single := SingleBetPlacement(answers.player, event.bet, event.round, answers.amount, PendingWinAmount,
                                       answers.table, answers.status, ids);
      var playerKey := PlayerRoundKeyOfPlaced(event, answers);
      var roundKey := RoundBetKeyOfPlaced(event);
      var placed := store.(
        chips := chips,
        singleBets := store.singleBets[SingleKeyOfPlaced(event, answers) := single],
        playerRounds := store.playerRounds[playerKey := PlacePlayerRound(Lookup(store.playerRounds, playerKey), event, answers)],
        roundBets := store.roundBets[roundKey := PlaceRoundBets(Lookup(store.roundBets, roundKey), event, answers, ids)],
        bets := store.bets[event.bet := Bet(answers.amount, 0, DefaultWinNumber, answers.status, answers.player, ids,
                                            event.address, event.round)]);
      if event.round != 0 then PlaceRoundEntity(placed, answers.table, event.round, event.bet, answers.amount)
      else Some(placed)
  }

  /** The placements of a run of events, in order; `None` once one aborts. */
  function ApplyBetsPlaced(store: Store, events: seq<(BetPlacedEvent, PlacedReads)>): Option<Store>
    decreases |events|
  {
    if |events| == 0 then Some(store)
    else
      match HandleBetPlaced(store, events[0].0, events[0].1)
      case None => None
      case Some(next) => ApplyBetsPlaced(next, events[1..])
  }

  function SumPlaced(events: seq<(BetPlacedEvent, PlacedReads)>): int
    decreases |events|
  {
    if |events| == 0 then 0 else events[0].1.amount + SumPlaced(events[1..])
  }

  /** Over any run of placements into one player-round aggregate, `betsCount`
      counts them and `amount` sums their amounts. */
  lemma {:induction false} PlacementsCounted(store: Store, events: seq<(BetPlacedEvent, PlacedReads)>, key: PlayerRoundKey)
    requires ApplyBetsPlaced(store, events).Some?
    requires forall i :: 0 <= i < |events| ==> PlayerRoundKeyOfPlaced(events[i].0, events[i].1) == key
    ensures |events| > 0 || key in store.playerRounds ==>
      var after := ApplyBetsPlaced(store, events).value.playerRounds;
      && key in after
      && after[key].betsCount == (if key in store.playerRounds then store.playerRounds[key].betsCount else 0) + |events|
      && after[key].amount == (if key in store.playerRounds then store.playerRounds[key].amount else 0) + SumPlaced(events)
    decreases |events|
  {
    if |events| > 0 {
      var next := HandleBetPlaced(store, events[0].0, events[0].1).value;
      PlacementsCounted(next, events[1..], key);
    }
  }

  // ---------------------------------------------------------------- BetEnded

  function SingleKeyOfEnded(event: BetEndedEvent, answers: EndedReads): SingleBetKey {
    SingleBetKey(event.address, ToI32(event.round), answers.player, event.bet)
  }

  /** Unlike `handleBetPlaced`, the aggregates are looked up under the bet's `getTable()`. */
  function PlayerRoundKeyOfEnded(event: BetEndedEvent, answers: EndedReads): PlayerRoundKey {
    PlayerRoundKey(answers.table, ToI32(event.round), answers.player, BetSuffix(ToI32(event.round), event.bet))
  }

  function RoundBetKeyOfEnded(event: BetEndedEvent, answers: EndedReads): RoundBetKey {
    RoundBetKey(answers.table, ToI32(event.round), BetSuffix(ToI32(event.round), event.bet))
  }

  /** Writes `f(m[k])` at `k` when `k` is present; otherwise leaves `m` as it is. */
  function UpdateIfPresent<K, V>(m: map<K, V>, k: K, f: V -> V): (r: map<K, V>)
    ensures r.Keys == m.Keys
    ensures forall j :: j in m && j != k ==> r[j] == m[j]
    ensures k in m ==> r[k] == f(m[k])
  {
    if k in m then m[k := f(m[k])] else m
  }

  function EndSingle(status: int, win: int): SingleBetPlacement -> SingleBetPlacement {
    (p: SingleBetPlacement) => p.(status := status, winAmount := win)
  }

  function EndPlayerRound(status: int, value: int, win: int): PlayerRoundPlacement -> PlayerRoundPlacement {
    (p: PlayerRoundPlacement) => p.(status := status, winNumber := Some(value), winAmount := AccumulateWin(p.winAmount, win))
  }

  function EndRoundBets(status: int, value: int, win: int): RoundPlacement -> RoundPlacement {
    (p: RoundPlacement) => p.(status := status, winNumber := Some(value), winAmount := AccumulateWin(p.winAmount, win))
  }

  function EndBet(status: int, value: int, win: int): Bet -> Bet {
    (b: Bet) => b.(winAmount := win, winNumber := value, status := status)
  }

  /** `updateRoundEntity`: the round is completed with the roll and adds the win. */
  function EndRoundEntity(store: Store, table: Address, round: int, value: int, win: int): (r: Option<Store>)
    ensures r.None? <==> GetOrCreateRound(store, table, round).None?
    ensures r.Some? ==>
      var key := RoundKey(table, ToI32(round));
      var before := GetOrCreateRound(store, table, round).value.rounds[key];
      && r.value == store.(rounds := r.value.rounds)
      && r.value.rounds.Keys == store.rounds.Keys + {key}
      && (forall k :: k in store.rounds && k != key ==> r.value.rounds[k] == store.rounds[k])
      && r.value.rounds[key] == before.(totalWinAmount := before.totalWinAmount + win, winNumber := value,
                                        status := StatusCompleted)
  {
    match GetOrCreateRound(store, table, round)
    case None => None
    case Some(s) =>
      var key := RoundKey(table, ToI32(round));
      var r := s.rounds[key];
      Some(s.(rounds := s.rounds[key := r.(totalWinAmount := r.totalWinAmount + win, winNumber := value,
                                           status := StatusCompleted)]))
  }

  /** The entity writes of `handleBetEnded` before the round entity. */
  function EndPlacements(store: Store, event: BetEndedEvent, answers: EndedReads, singlePlayerTable: Address): (r: Store)
    ensures r.rounds == store.rounds && r.tables == store.tables && r.chips == store.chips
    ensures event.bet in r.endedBets
    ensures r.singleBets == UpdateIfPresent(store.singleBets, SingleKeyOfEnded(event, answers), EndSingle(answers.status, event.winAmount))
    ensures r.playerRounds == UpdateIfPresent(store.playerRounds, PlayerRoundKeyOfEnded(event, answers),
                                              EndPlayerRound(answers.status, event.value, event.winAmount))
    ensures r.roundBets == UpdateIfPresent(store.roundBets, RoundBetKeyOfEnded(event, answers),
                                           EndRoundBets(answers.status, event.value, event.winAmount))
    ensures r.bets == UpdateIfPresent(store.bets, event.bet, EndBet(answers.status, event.value, event.winAmount))
    // the roll is counted by the two statistics handlers
    ensures RollRecorded(store, r, event, answers.player, singlePlayerTable)
  {
    var ended := store.(
      endedBets := store.endedBets[event.bet := event.txHash],
      singleBets := UpdateIfPresent(store.singleBets, SingleKeyOfEnded(event, answers), EndSingle(answers.status, event.winAmount)),
      playerRounds := UpdateIfPresent(store.playerRounds, PlayerRoundKeyOfEnded(event, answers),
                                      EndPlayerRound(answers.status, event.value, event.winAmount)),
      roundBets := UpdateIfPresent(store.roundBets, RoundBetKeyOfEnded(event, answers),
                                   EndRoundBets(answers.status, event.value, event.winAmount)));
    var counted := HandleRouletteStats(HandleNumberRolled(ended, event, answers.player, singlePlayerTable),
                                       event, answers.player, singlePlayerTable);
    HandlersRecordRoll(ended, event, answers.player, singlePlayerTable);
    counted.(bets := UpdateIfPresent(counted.bets, event.bet, EndBet(answers.status, event.value, event.winAmount)))
  }

  /** `handleBetEnded`. */
  function HandleBetEnded(store: Store, event: BetEndedEvent, answers: EndedReads, singlePlayerTable: Address)
    : (r: Option<Store>)
    // only a nonzero round whose table was never created aborts
    ensures r.None? <==>
      event.round != 0 && RoundKey(answers.table, ToI32(event.round)) !in store.rounds && answers.table !in store.tables
    ensures r.Some? ==> event.bet in r.value.endedBets
    // existing rows take the status and the win; rows that do not exist stay absent
    ensures r.Some? ==>
      && r.value.singleBets.Keys == store.singleBets.Keys && r.value.playerRounds.Keys == store.playerRounds.Keys
      && r.value.roundBets.Keys == store.roundBets.Keys && r.value.bets.Keys == store.bets.Keys
    ensures r.Some? && SingleKeyOfEnded(event, answers) in store.singleBets ==>
      var p := r.value.singleBets[SingleKeyOfEnded(event, answers)];
      p.status == answers.status && p.winAmount == event.winAmount
    // the aggregates replace the sentinel or add the win
    ensures r.Some? && PlayerRoundKeyOfEnded(event, answers) in store.playerRounds ==>
      var before := store.playerRounds[PlayerRoundKeyOfEnded(event, answers)];
      var p := r.value.playerRounds[PlayerRoundKeyOfEnded(event, answers)];
      && p.winAmount == AccumulateWin(before.winAmount, event.winAmount)
      && p.status == answers.status && p.winNumber == Some(event.value) && p.betsCount == before.betsCount
    ensures r.Some? && RoundBetKeyOfEnded(event, answers) in store.roundBets ==>
      var before := store.roundBets[RoundBetKeyOfEnded(event, answers)];
      var p := r.value.roundBets[RoundBetKeyOfEnded(event, answers)];
      && p.winAmount == AccumulateWin(before.winAmount, event.winAmount)
      && p.status == answers.status && p.winNumber == Some(event.value) && p.chips == before.chips
    ensures r.Some? && event.bet in store.bets ==>
      r.value.bets[event.bet] == store.bets[event.bet].(winAmount := event.winAmount, winNumber := event.value, status := answers.status)
    // a nonzero round is completed with the roll and adds the win
    ensures r.Some? && event.round != 0 ==>
      var key := RoundKey(answers.table, ToI32(event.round));
      var before := GetOrCreateRound(store, answers.table, event.round).value.rounds[key];
      key in r.value.rounds &&
      r.value.rounds[key] == before.(totalWinAmount := before.totalWinAmount + event.winAmount, winNumber := event.value,
                                     status := StatusCompleted)
    ensures r.Some? && event.round == 0 ==> r.value.rounds == store.rounds
    ensures r.Some? ==> r.value.tables == store.tables && r.value.chips == store.chips
    // the roll is counted in the per-number and per-table statistics
    ensures r.Some? ==> RollRecorded(store, r.value, event, answers.player, singlePlayerTable)
  {
    var placed := EndPlacements(store, event, answers, singlePlayerTable);
    if event.round != 0 then EndRoundEntity(placed, answers.table, event.round, event.value, event.winAmount)
    else Some(placed)
  }
}
