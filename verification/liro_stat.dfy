/** Roll statistics kept by the subgraph (graph/src/liro-stat.ts): a counter
    per rolled number and a parity/colour tally per table (per player on the
    single-player table). On a multi-player table every bet of a round ends
    with the same roll, so a round is counted once, through the
    `UniqueTableRounds` record. */
module LiroStat {
  import opened Common
  import opened Entities

  datatype Color = Green | Red | Black | Unknown

  const RedNumbers: seq<int> := [1, 3, 5, 7, 9, 12, 14, 16, 18, 19, 21, 23, 25, 27, 30, 32, 34, 36]
  const BlackNumbers: seq<int> := [2, 4, 6, 8, 10, 11, 13, 15, 17, 20, 22, 24, 26, 28, 29, 31, 33, 35]

  function GetColor(number: int): (c: Color)
    ensures c == Green <==> number == 0
    ensures c == Red <==> number in RedNumbers
    ensures c == Black <==> number in BlackNumbers
  {
    ColorListsDisjoint();
    if number == 0 then Green
    else if number in RedNumbers then Red
    else if number in BlackNumbers then Black
    else Unknown
  }

  /** The two colour lists are disjoint and together cover 1..36. */
  lemma ColorsPartition()
    ensures forall n :: n in RedNumbers ==> n !in BlackNumbers
    ensures forall n :: 1 <= n <= 36 <==> n in RedNumbers || n in BlackNumbers
    ensures |RedNumbers| == |BlackNumbers| == 18
  {
    ColorListsDisjoint();
    ColorListsCover();
  }

  lemma ColorListsDisjoint()
    ensures forall n :: n in RedNumbers ==> n !in BlackNumbers
  {
  }

  lemma ColorListsCover()
    ensures forall n :: 1 <= n <= 36 ==> n in RedNumbers || n in BlackNumbers
  {
  }

  /** Every number other than 0..36 has no colour. */
  lemma UnknownOutsideWheel(number: int)
    ensures GetColor(number) == Unknown <==> number < 0 || number > 36
  {
    ColorsPartition();
  }

  /** `isUniqueRound`: true the first time `(table, round)` is seen, which it records. */
  function IsUniqueRound(store: Store, table: Address, round: int): (r: (bool, Store))
    ensures r.0 <==> RoundKey(table, ToI32(round)) !in store.uniqueRounds
    ensures RoundKey(table, ToI32(round)) in r.1.uniqueRounds
    ensures r.1.uniqueRounds.Keys == store.uniqueRounds.Keys + {RoundKey(table, ToI32(round))}
    ensures r.1 == store.(uniqueRounds := r.1.uniqueRounds)
    ensures !r.0 ==> r.1 == store
  {
    var key := RoundKey(table, ToI32(round));
    if key in store.uniqueRounds then (false, store)
    else (true, store.(uniqueRounds := store.uniqueRounds[key := UniqueTableRound(table, round)]))
  }

  /** Once recorded, a round is never unique again. */
  lemma UniqueRoundOnce(store: Store, table: Address, round: int, later: Store)
    requires IsUniqueRound(store, table, round).1.uniqueRounds.Keys <= later.uniqueRounds.Keys
    ensures !IsUniqueRound(later, table, round).0
  {
  }

  /** `generateEntityId`. */
  function NumberKeyOf(table: Address, rolled: int, singlePlayerTable: Address, player: Address): (k: NumberKey)
    ensures k.table == table && k.number == ToI32(rolled)
    ensures k.player.Some? <==> table == singlePlayerTable
    ensures k.player.Some? ==> k.player.value == player
  {
    NumberKey(table, ToI32(rolled), if table == singlePlayerTable then Some(player) else None)
  }

  /** `generateStatsEntityId`. */
  function StatsKeyOf(table: Address, singlePlayerTable: Address, player: Address): (k: StatsKey)
    ensures k.table == table
    ensures k.player.Some? <==> table == singlePlayerTable
    ensures k.player.Some? ==> k.player.value == player
  {
    StatsKey(table, if table == singlePlayerTable then Some(player) else None)
  }

  /** The player recorded on a new number or stats row. */
  function RowPlayer(table: Address, singlePlayerTable: Address, player: Address): Address {
    if table == singlePlayerTable then player else ZeroAddress
  }

  /** `updateRouletteNumber`: counts one more roll of the number at `key`. */
  function UpdateRouletteNumber(numbers: map<NumberKey, RouletteNumber>, key: NumberKey, rolled: int,
                                table: Address, player: Address): (r: map<NumberKey, RouletteNumber>)
    ensures r.Keys == numbers.Keys + {key}
    ensures r[key].count == if key in numbers then numbers[key].count + 1 else 1
    ensures key !in numbers ==> r[key] == RouletteNumber(ToI32(rolled), 1, table, player)
    ensures key in numbers ==> r[key] == numbers[key].(count := r[key].count)
    ensures forall k :: k in numbers && k != key ==> r[k] == numbers[k]
  {
    if key !in numbers then numbers[key := RouletteNumber(ToI32(rolled), 1, table, player)]
    else numbers[key := numbers[key].(count := numbers[key].count + 1)]
  }

  function NewStats(table: Address, player: Address): RouletteStats {
    RouletteStats(table, player, 0, 0, 0, 0, 0, 0)
  }

  /** Every roll is counted once as zero, odd or even, and a coloured roll at most once by colour. */
  predicate Consistent(s: RouletteStats) {
    s.totalRolls == s.zeroCount + s.oddCount + s.evenCount &&
    s.redCount + s.blackCount + s.zeroCount <= s.totalRolls
  }

  /** Counts one roll of `rolled` (already read as an `i32`). */
  function Tally(s: RouletteStats, rolled: int): (t: RouletteStats)
    ensures t.table == s.table && t.player == s.player
    ensures t.totalRolls == s.totalRolls + 1
    // zero counts only as zero
    ensures rolled == 0 ==> t == s.(totalRolls := t.totalRolls, zeroCount := s.zeroCount + 1)
    // any other roll counts as exactly one of odd and even ...
    ensures rolled != 0 ==> t.zeroCount == s.zeroCount && t.oddCount + t.evenCount == s.oddCount + s.evenCount + 1
    // ... odd when the truncating remainder is 1, so a negative odd roll counts as even
    ensures rolled != 0 ==> (t.oddCount == s.oddCount + 1 <==> rolled > 0 && rolled % 2 == 1)
    // ... and red or black by its colour, or neither when its colour is unknown
    ensures rolled != 0 ==> t.redCount == s.redCount + (if GetColor(rolled) == Red then 1 else 0)
    ensures rolled != 0 ==> t.blackCount == s.blackCount + (if GetColor(rolled) == Black then 1 else 0)
  {
    var s1 := s.(totalRolls := s.totalRolls + 1);
    if rolled == 0 then s1.(zeroCount := s.zeroCount + 1)
    else
      var s2 := if RemTwo(rolled) == 1 then s1.(oddCount := s.oddCount + 1) else s1.(evenCount := s.evenCount + 1);
      var color := GetColor(rolled);
      if color == Red then s2.(redCount := s.redCount + 1)
      else if color == Black then s2.(blackCount := s.blackCount + 1)
      else s2
  }

  lemma TallyPreservesConsistent(s: RouletteStats, rolled: int)
    requires Consistent(s)
    ensures Consistent(Tally(s, rolled))
  {
  }

  /** The tally after a list of rolls: its total is the number of rolls and
      it stays consistent. */
  function TallyAll(s: RouletteStats, rolls: seq<int>): RouletteStats
    decreases |rolls|
  {
    if |rolls| == 0 then s else TallyAll(Tally(s, rolls[0]), rolls[1..])
  }

  lemma {:induction false} TallyAllCounts(s: RouletteStats, rolls: seq<int>)
    requires Consistent(s)
    ensures TallyAll(s, rolls).totalRolls == s.totalRolls + |rolls|
    ensures Consistent(TallyAll(s, rolls))
    decreases |rolls|
  {
    if |rolls| > 0 {
      TallyPreservesConsistent(s, rolls[0]);
      TallyAllCounts(Tally(s, rolls[0]), rolls[1..]);
    }
  }

  /** `updateRouletteStats`. */
  function UpdateRouletteStats(stats: map<StatsKey, RouletteStats>, key: StatsKey, value: int,
                               table: Address, player: Address): (r: map<StatsKey, RouletteStats>)
    ensures r.Keys == stats.Keys + {key}
    ensures r[key] == Tally(if key in stats then stats[key] else NewStats(table, player), ToI32(value))
    ensures forall k :: k in stats && k != key ==> r[k] == stats[k]
    ensures (key in stats ==> Consistent(stats[key])) ==> Consistent(r[key])
  {
    var base := if key in stats then stats[key] else NewStats(table, player);
    stats[key := Tally(base, ToI32(value))]
  }

  /** Rounds on multi-player tables pass the uniqueness check first. */
  function CountedRound(store: Store, event: BetEndedEvent, singlePlayerTable: Address): (r: (bool, Store)) {
    if singlePlayerTable == event.address then (true, store)
    else IsUniqueRound(store, event.address, event.round)
  }

  /** `handleRouletteNumberRolled`; `player` is the bet contract's `getPlayer()`. */
  function HandleNumberRolled(store: Store, event: BetEndedEvent, player: Address, singlePlayerTable: Address): (r: Store)
    // the single-player table counts every roll, under the player's own key
    ensures singlePlayerTable == event.address ==>
      r == store.(numbers := UpdateRouletteNumber(store.numbers, NumberKeyOf(event.address, event.value, singlePlayerTable, player),
                                                  event.value, event.address, player))
    // a multi-player table counts a round's roll only once
    ensures singlePlayerTable != event.address ==>
      && r.uniqueRounds.Keys == store.uniqueRounds.Keys + {RoundKey(event.address, ToI32(event.round))}
      && (RoundKey(event.address, ToI32(event.round)) in store.uniqueRounds ==> r == store)
      && (RoundKey(event.address, ToI32(event.round)) !in store.uniqueRounds ==>
            r.numbers == UpdateRouletteNumber(store.numbers, NumberKey(event.address, ToI32(event.value), None),
                                              event.value, event.address, ZeroAddress))
    ensures r == store.(numbers := r.numbers, uniqueRounds := r.uniqueRounds)
  {
    var (counted, s1) := CountedRound(store, event, singlePlayerTable);
    if !counted then store
    else
      var key := NumberKeyOf(event.address, event.value, singlePlayerTable, player);
      s1.(numbers := UpdateRouletteNumber(s1.numbers, key, event.value, event.address,
                                          RowPlayer(event.address, singlePlayerTable, player)))
  }

  /** `handleRouletteStats`. */
  function HandleRouletteStats(store: Store, event: BetEndedEvent, player: Address, singlePlayerTable: Address): (r: Store)
    ensures singlePlayerTable == event.address ==>
      r == store.(stats := UpdateRouletteStats(store.stats, StatsKeyOf(event.address, singlePlayerTable, player),
                                               event.value, event.address, player))
    ensures singlePlayerTable != event.address ==>
      && r.uniqueRounds.Keys == store.uniqueRounds.Keys + {RoundKey(event.address, ToI32(event.round))}
      && (RoundKey(event.address, ToI32(event.round)) in store.uniqueRounds ==> r == store)
      && (RoundKey(event.address, ToI32(event.round)) !in store.uniqueRounds ==>
            r.stats == UpdateRouletteStats(store.stats, StatsKey(event.address, None), event.value, event.address, ZeroAddress))
    ensures r == store.(stats := r.stats, uniqueRounds := r.uniqueRounds)
  {
    var (counted, s1) := CountedRound(store, event, singlePlayerTable);
    if !counted then store
    else
      var key := StatsKeyOf(event.address, singlePlayerTable, player);
      s1.(stats := UpdateRouletteStats(s1.stats, key, event.value, event.address,
                                       RowPlayer(event.address, singlePlayerTable, player)))
  }

  /** What the two roll handlers write together, numbers first. The
      single-player table counts every roll under the player's ids. A
      multi-player table records the round; it counts the number only the
      first time the round is seen, and it never changes the stats. */
  predicate RollRecorded(before: Store, after: Store, event: BetEndedEvent, player: Address, singlePlayerTable: Address) {
    if singlePlayerTable == event.address then
      && after.numbers == UpdateRouletteNumber(before.numbers, NumberKeyOf(event.address, event.value, singlePlayerTable, player),
                                               event.value, event.address, player)
      && after.stats == UpdateRouletteStats(before.stats, StatsKeyOf(event.address, singlePlayerTable, player),
                                            event.value, event.address, player)
      && after.uniqueRounds == before.uniqueRounds
    else
      var key := RoundKey(event.address, ToI32(event.round));
      && after.uniqueRounds.Keys == before.uniqueRounds.Keys + {key}
      && after.stats == before.stats
      && after.numbers == if key in before.uniqueRounds then before.numbers
                          else UpdateRouletteNumber(before.numbers, NumberKey(event.address, ToI32(event.value), None),
                                                    event.value, event.address, ZeroAddress)
  }

  /** The handlers, run in the order `handleBetEnded` runs them, record the
      roll as described and write nothing else. */
  lemma HandlersRecordRoll(store: Store, event: BetEndedEvent, player: Address, singlePlayerTable: Address)
    ensures var after := HandleRouletteStats(HandleNumberRolled(store, event, player, singlePlayerTable), event, player, singlePlayerTable);
            && RollRecorded(store, after, event, player, singlePlayerTable)
            && after == store.(numbers := after.numbers, stats := after.stats, uniqueRounds := after.uniqueRounds)
  {
    if singlePlayerTable != event.address {
      MultiTableStatsNeverUpdate(store, event, player, singlePlayerTable);
    }
  }

  /** Both handlers run, numbers first. On a multi-player table the number
      handler has always recorded the round by the time the stats handler
      checks it, so the per-table stats never change. */
  lemma {:induction false} MultiTableStatsNeverUpdate(store: Store, event: BetEndedEvent, player: Address, singlePlayerTable: Address)
    requires singlePlayerTable != event.address
    ensures var afterNumbers := HandleNumberRolled(store, event, player, singlePlayerTable);
            HandleRouletteStats(afterNumbers, event, player, singlePlayerTable) == afterNumbers
    ensures HandleRouletteStats(HandleNumberRolled(store, event, player, singlePlayerTable), event, player, singlePlayerTable).stats
            == store.stats
  {
    var afterNumbers := HandleNumberRolled(store, event, player, singlePlayerTable);
    assert RoundKey(event.address, ToI32(event.round)) in afterNumbers.uniqueRounds;
  }
}
