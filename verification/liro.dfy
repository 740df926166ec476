/** The roulette contract's handlers in the subgraph (graph/src/liro.ts):
    table creation, the randomness request of a round, and refunds. */
module Liro {
  import opened Common
  import opened Entities
  import opened LiroTable

  /** `handleMultiplePlayersTableCreated`: the table takes the event's interval. */
  function HandleMultiplePlayersTableCreated(store: Store, table: Address, interval: int): (r: Store)
    ensures r.tables.Keys == store.tables.Keys + {table}
    ensures r.tables[table].interval == interval && r.tables[table].address == table
    ensures forall t :: t in store.tables && t != table ==> r.tables[t] == store.tables[t]
    ensures r == store.(tables := r.tables)
  {
    store.(tables := store.tables[table := Table(table, interval)])
  }

  /** `handleSinglePlayerTableCreated`: the single-player table has interval 0. */
  function HandleSinglePlayerTableCreated(store: Store, singlePlayerTable: Address): (r: Store)
    ensures r.tables.Keys == store.tables.Keys + {singlePlayerTable}
    ensures r.tables[singlePlayerTable].interval == 0
    ensures forall t :: t in store.tables && t != singlePlayerTable ==> r.tables[t] == store.tables[t]
    ensures r == store.(tables := r.tables)
  {
    store.(tables := store.tables[singlePlayerTable := Table(singlePlayerTable, 0)])
  }

  /** Every round the single-player table creates afterwards starts at time 0. */
  lemma SinglePlayerRoundsStartAtZero(store: Store, singlePlayerTable: Address, round: int)
    requires RoundKey(singlePlayerTable, ToI32(round)) !in store.rounds
    ensures var s := HandleSinglePlayerTableCreated(store, singlePlayerTable);
            && GetOrCreateRound(s, singlePlayerTable, round).Some?
            && GetOrCreateRound(s, singlePlayerTable, round).value.rounds[RoundKey(singlePlayerTable, ToI32(round))].started == 0
  {
  }

  /** `handleRequested`: a nonzero round is marked as waiting for randomness. */
  function HandleRequested(store: Store, table: Address, round: int): (r: Option<Store>)
    ensures round == 0 ==> r == Some(store)
    ensures round != 0 ==> (r.None? <==> GetOrCreateRound(store, table, round).None?)
    ensures round != 0 && r.Some? ==>
      var key := RoundKey(table, ToI32(round));
      var before := GetOrCreateRound(store, table, round).value.rounds[key];
      && r.value == store.(rounds := r.value.rounds)
      && r.value.rounds.Keys == store.rounds.Keys + {key}
      && (forall k :: k in store.rounds && k != key ==> r.value.rounds[k] == store.rounds[k])
      // whatever the round's status was before
      && r.value.rounds[key] == before.(status := StatusRequested)
  {
    if round == 0 then Some(store)
    else
      match GetOrCreateRound(store, table, round)
      case None => None
      case Some(s) =>
        var key := RoundKey(table, ToI32(round));
        Some(s.(rounds := s.rounds[key := s.rounds[key].(status := StatusRequested)]))
  }

  /** Sets the status of every listed bet that exists to "refunded"; missing bets are skipped. */
  function MarkRefunded(bets: map<Address, Bet>, list: seq<Address>): (r: map<Address, Bet>)
    decreases |list|
    ensures r.Keys == bets.Keys
    ensures forall b :: b in bets ==> r[b] == if b in list then bets[b].(status := BetStatusRefunded) else bets[b]
  {
    if |list| == 0 then bets
    else
      var rest := MarkRefunded(bets, list[1..]);
      if list[0] in rest then rest[list[0] := rest[list[0]].(status := BetStatusRefunded)] else rest
  }

  /** `handleRefundMulti`: the round is refunded with no win, and so is each of its bets. */
  function HandleRefundMulti(store: Store, table: Address, round: int): (r: Option<Store>)
    ensures r.None? <==> GetOrCreateRound(store, table, round).None?
    ensures r.Some? ==>
      var key := RoundKey(table, ToI32(round));
      var before := GetOrCreateRound(store, table, round).value.rounds[key];
      && r.value == store.(rounds := r.value.rounds, bets := r.value.bets)
      && r.value.rounds.Keys == store.rounds.Keys + {key}
      && (forall k :: k in store.rounds && k != key ==> r.value.rounds[k] == store.rounds[k])
      && r.value.rounds[key] == before.(totalWinAmount := 0, status := StatusRefunded)
      && r.value.bets.Keys == store.bets.Keys
      && (forall b :: b in store.bets ==>
            r.value.bets[b] == if b in before.bets then store.bets[b].(status := BetStatusRefunded) else store.bets[b])
  {
    match GetOrCreateRound(store, table, round)
    case None => None
    case Some(s) =>
      var key := RoundKey(table, ToI32(round));
      var refunded := s.rounds[key].(totalWinAmount := 0, status := StatusRefunded);
      Some(s.(rounds := s.rounds[key := refunded], bets := MarkRefunded(s.bets, refunded.bets)))
  }

  /** `handleRefundSingle`: an existing bet takes the contract's status; nothing else changes. */
  function HandleRefundSingle(store: Store, bet: Address, status: int): (r: Store)
    // no bet is created or removed, and only the bet map can change
    ensures r.bets.Keys == store.bets.Keys
    ensures r == store.(bets := r.bets)
    // the bet takes the contract's status, whatever it was; its other fields stay
    ensures bet in store.bets ==> r.bets[bet].status == status && r.bets[bet] == store.bets[bet].(status := r.bets[bet].status)
    // every other bet is untouched
    ensures forall b :: b in store.bets && b != bet ==> r.bets[b] == store.bets[b]
  {
    if bet in store.bets then store.(bets := store.bets[bet := store.bets[bet].(status := status)]) else store
  }

  /** Refunding a single bet right after it was placed marks it refunded and
      keeps what the placement recorded: its amount, chips and round, the
      placement rows, the aggregates and the round totals. */
  lemma RefundSingleAfterPlacement(store: Store, event: BetPlacedEvent, answers: PlacedReads)
    requires HandleBetPlaced(store, event, answers).Some?
    ensures var placed := HandleBetPlaced(store, event, answers).value;
            var refunded := HandleRefundSingle(placed, event.bet, BetStatusRefunded);
            && event.bet in refunded.bets
            && refunded.bets[event.bet].status == BetStatusRefunded
            && refunded.bets[event.bet].amount == answers.amount
            && refunded.bets[event.bet].chips == ChipIds(event.bet, |answers.amounts|)
            && refunded.bets[event.bet].round == event.round
            && refunded.singleBets == placed.singleBets
            && refunded.playerRounds == placed.playerRounds && refunded.roundBets == placed.roundBets
            && refunded.rounds == placed.rounds && refunded.chips == placed.chips
  {
  }

  /** A bet placed in a nonzero round is marked refunded when that round is refunded. */
  lemma {:induction false} RefundMarksPlacedBet(store: Store, event: BetPlacedEvent, answers: PlacedReads)
    requires event.round != 0
    requires HandleBetPlaced(store, event, answers).Some?
    ensures var placed := HandleBetPlaced(store, event, answers).value;
            && HandleRefundMulti(placed, answers.table, event.round).Some?
            && event.bet in HandleRefundMulti(placed, answers.table, event.round).value.bets
            && HandleRefundMulti(placed, answers.table, event.round).value.bets[event.bet].status == BetStatusRefunded
  {
    var placed := HandleBetPlaced(store, event, answers).value;
    var key := RoundKey(answers.table, ToI32(event.round));
    assert key in placed.rounds;
    assert event.bet in placed.rounds[key].bets by {
      var before := GetOrCreateRound(store, answers.table, event.round).value.rounds[key];
      assert placed.rounds[key].bets == before.bets + [event.bet];
    }
    assert event.bet in placed.bets;
  }

  /** The code as written: the placement's push is lost, so refunding the
      round marks none of its bets, and a placed bet keeps its status. */
  lemma AsWrittenRefundMarksNothing(store: Store, table: Address, round: int, bet: Address, amount: int)
    requires NoRoundLists(store)
    requires PlaceRoundEntityAsWritten(store, table, round, bet, amount).Some?
    requires bet in store.bets && store.bets[bet].status != BetStatusRefunded
    ensures var placed := PlaceRoundEntityAsWritten(store, table, round, bet, amount).value;
            && HandleRefundMulti(placed, table, round).Some?
            && HandleRefundMulti(placed, table, round).value.bets == placed.bets
            && HandleRefundMulti(placed, table, round).value.bets[bet].status != BetStatusRefunded
  {
    var placed := PlaceRoundEntityAsWritten(store, table, round, bet, amount).value;
    AsWrittenRoundsListNoBets(store, table, round, bet, amount);
    assert RoundKey(table, ToI32(round)) in placed.rounds;
  }

  /** Status writes never look at the prior status: a completed round that
      is requested again goes back to status 2. */
  lemma RequestReopensCompletedRound(store: Store, table: Address, round: int)
    requires round != 0
    requires RoundKey(table, ToI32(round)) in store.rounds
    requires store.rounds[RoundKey(table, ToI32(round))].status == StatusCompleted
    ensures HandleRequested(store, table, round).Some?
    ensures HandleRequested(store, table, round).value.rounds[RoundKey(table, ToI32(round))].status == StatusRequested
  {
  }
}
