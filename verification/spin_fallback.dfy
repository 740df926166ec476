/** The subgraph-driven spin fallback (gelato/web3-functions/fallback/index.ts).
    It asks the subgraph for the oldest rounds that still have status 1 and
    spins each one that is not its table's current round and whose dry run
    passes. */
module SpinFallback {
  import opened Common
  import opened W3f

  /** One row of the subgraph answer. */
  datatype PendingRound = PendingRound(round: nat, table: Address, started: nat)

  datatype Message = AllRoundsClosed

  /** The outside world of one run. `response` is the subgraph answer (`None`:
      the request failed); `currentRound` reads `getCurrentRound` on a table
      (`None`: the read throws). */
  datatype Oracles = Oracles(
    response: Option<seq<PendingRound>>,
    currentRound: Address -> Option<nat>,
    simulate: Call -> bool)

  function SpinOf(roulette: Address, p: PendingRound): Call {
    SpinCall(roulette, p.table, p.round)
  }

  /** A listed round is spun when its table answered, it is not the table's
      current round, and the dry run of its spin passed. Any failure skips it. */
  predicate Spinnable(roulette: Address, chain: Oracles, p: PendingRound) {
    && chain.currentRound(p.table).Some?
    && chain.currentRound(p.table).value != p.round
    && chain.simulate(SpinOf(roulette, p))
  }

  function SpinnableTest(roulette: Address, chain: Oracles): PendingRound -> bool {
    p => Spinnable(roulette, chain, p)
  }

  /** The spins of `rounds`, in order. */
  function SpinsOf(roulette: Address, rounds: seq<PendingRound>): (calls: seq<Call>)
    ensures |calls| == |rounds|
    ensures forall i :: 0 <= i < |rounds| ==> calls[i] == SpinOf(roulette, rounds[i])
    ensures forall p :: p in rounds ==> SpinOf(roulette, p) in calls
    ensures forall c :: c in calls ==> exists p :: p in rounds && c == SpinOf(roulette, p)
  {
    if |rounds| == 0 then []
    else
      var rest := SpinsOf(roulette, rounds[1..]);
      assert forall p :: p in rounds[1..] ==> p in rounds;
      [SpinOf(roulette, rounds[0])] + rest
  }

  function Run(roulette: Address, chain: Oracles): (r: RunResult<Message>)
    // only a failed subgraph request escapes the run
    ensures r.Thrown? <==> chain.response.None?
    // every call spins a listed round that passed all checks, and every such round is spun
    ensures r.CanExec? ==>
      && chain.response.Some?
      && 0 < |r.calls| <= |chain.response.value|
      && (forall c :: c in r.calls ==>
            exists p :: p in chain.response.value && Spinnable(roulette, chain, p) && c == SpinOf(roulette, p))
      && (forall p :: p in chain.response.value && Spinnable(roulette, chain, p) ==> SpinOf(roulette, p) in r.calls)
      // the calls keep the order of the subgraph answer
      && SubsequenceOf(r.calls, SpinsOf(roulette, chain.response.value))
    // nothing is called exactly when no listed round passes the checks
    ensures r.CannotExec? <==>
      chain.response.Some? && forall p :: p in chain.response.value ==> !Spinnable(roulette, chain, p)
    // the table's current round is never spun
    ensures r.CanExec? ==> forall c :: c in r.calls ==>
      c.data.Spin? && chain.currentRound(c.data.table).Some? && chain.currentRound(c.data.table).value != c.data.round
  {
    match chain.response
    case None => Thrown
    case Some(rounds) =>
      var callable := Filter(rounds, SpinnableTest(roulette, chain));
      if |callable| == 0 then
        CannotExec(AllRoundsClosed)
      else
        var calls := SpinsOf(roulette, callable);
        assert callable[0] in callable;
        SpinsKeepOrder(roulette, callable, rounds);
        CanExec(calls)
  }

  /** Mapping rounds to their spins keeps a subsequence a subsequence. */
  lemma {:induction false} SpinsKeepOrder(roulette: Address, a: seq<PendingRound>, b: seq<PendingRound>)
    requires SubsequenceOf(a, b)
    ensures SubsequenceOf(SpinsOf(roulette, a), SpinsOf(roulette, b))
    decreases |b|
  {
    var sa, sb := SpinsOf(roulette, a), SpinsOf(roulette, b);
    if |a| > 0 && |b| > 0 {
      assert sa[1..] == SpinsOf(roulette, a[1..]);
      assert sb[1..] == SpinsOf(roulette, b[1..]);
      if a[0] == b[0] {
        SpinsKeepOrder(roulette, a[1..], b[1..]);
      } else {
        SpinsKeepOrder(roulette, a, b[1..]);
        if sa[0] == sb[0] {
          // two different rounds can share a spin only if they differ in `started`
          SubsequenceDrop(sa, sb[1..]);
          SubsequenceSuffix(sa[1..], sb[1..], [sb[0]]);
          assert [sb[0]] + sb[1..] == sb;
        }
      }
    }
  }
}
