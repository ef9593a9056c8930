/** When the pass limit of the fee loop turns a settling request into an "endless loop" failure. */
module PassLimit {
  import opened Options
  import opened Amounts
  import opened Transactions
  import opened FeeLoop
  import opened FeeLoopProgress
  import opened Settling
  import opened CreateTransaction
  import opened TransactionBuilder
  import opened BuildOutcome

  const MAX_SPARE: nat := 0x200_0000   // more coins would make a transaction of 2^32 bytes

  function SpareCoins(req: Request): nat {
    |Coins(req)| - |FirstCoins(req)|
  }

  // ----- the worst request -----

  /** Coins that cost as much to spend as they are worth, so that adding one never cures a dusty change;
      the last one may be worth more. */
  function WorstCoins(n: nat, last: nat): (r: seq<Utxo>)
    ensures |r| == n + 1
  {
    seq(n + 1, (i: nat) => Utxo([], i, if i == 0 then 101_986 else if i == n then last else 1000, 1, 0))
  }

  /** `k` asset keys other than Bitcoin. */
  function OtherAssets(k: nat): (m: map<string, seq<Utxo>>)
    ensures |m| == k && forall a :: a in m ==> 0 < |a| <= k && a[0] == 'x'
  {
    if k == 0 then map[] else OtherAssets(k - 1)[seq(k, _ => 'x') := []]
  }

  function WorstRequest(keys: nat, n: nat, last: nat): Request
    requires keys > 0
  {
    Request([Addressee("payee", Some(100_000))], OtherAssets(keys - 1)[BTC := WorstCoins(n, last)], None,
            false, false, false, [], false, "change", 10_000, 1000, 0, 0, 0, 546, NoError)
  }

  lemma {:induction false} WorstSum(n: nat, last: nat, k: nat)
    requires k <= n
    ensures SumUtxos(WorstCoins(n, last)[..k + 1]) == 101_986 + 1000 * k + (if 0 < k == n then last - 1000 else 0)
  {
    var coins := WorstCoins(n, last);
    assert coins[..k + 1][..k] == coins[..k];
    if k > 0 {
      WorstSum(n, last, k - 1);
    } else {
      assert coins[..0] == [];
    }
  }

  lemma {:induction false} WorstKeys(keys: nat, n: nat, last: nat)
    requires keys > 0
    ensures |WorstRequest(keys, n, last).utxos| == keys
    ensures Coins(WorstRequest(keys, n, last)) == WorstCoins(n, last)
  {
    assert BTC[0] == 'b';
    assert BTC !in OtherAssets(keys - 1);
  }

  lemma {:induction false} WorstCover(n: nat, last: nat)
    ensures CoverCount(WorstCoins(n, last), 0, 100_000, 0) == 1
    ensures SumUtxos(WorstCoins(n, last)[..1]) == 101_986
  {
    var coins := WorstCoins(n, last);
    WorstSum(n, last, 0);
    assert coins[..0] == [];
    CoverCountIs(coins, 0, 100_000, 0, 1);
  }

  lemma {:induction false} WorstPaid(addressees: seq<Addressee>)
    requires addressees == [Addressee("payee", Some(100_000))]
    ensures Paid(addressees) == [TxOutput("payee", 100_000)] && SumOutputs(Paid(addressees)) == 100_000
    ensures !SomeBadAmount(addressees, false, 546)
  {
    assert Paid(addressees) == [] + [TxOutput("payee", 100_000)];
    AppendOutput([], TxOutput("payee", 100_000));
  }

  lemma {:induction false} WorstFacts(keys: nat, n: nat, last: nat)
    requires keys > 0
    ensures var req := WorstRequest(keys, n, last);
            && |req.utxos| == keys && Coins(req) == WorstCoins(n, last) && SpareCoins(req) == n
            && Paid(req.addressees) == [TxOutput("payee", 100_000)] && SumOutputs(Paid(req.addressees)) == 100_000
            && FirstCoins(req) == WorstCoins(n, last)[..1]
            && Acceptable(req) && WellFormed(req)
  {
    hide WorstCoins, OtherAssets, SomeBadAmount, Paid, CoverCount, SumOutputs;
    WorstKeys(keys, n, last);
    WorstPaid(WorstRequest(keys, n, last).addressees);
    WorstCover(n, last);
  }

  lemma {:induction false} WorstFits(keys: nat, n: nat, last: nat)
    requires keys > 0 && n < MAX_SPARE && last <= TWO_TO_32
    ensures FitsInWords(WorstRequest(keys, n, last), LinearSize)
  {
    var req := WorstRequest(keys, n, last);
    var p, b := LoopParams(req, LinearSize), LoopBase(req);
    WorstFacts(keys, n, last);
    WorstSum(n, last, n);
    assert WorstCoins(n, last)[..n + 1] == WorstCoins(n, last);
    forall m: nat, change | MaySpend(p, b, m)
      ensures SizeFits(req, LinearSize, Visited(p, b, m, change))
    {
      LinearSizeOf(Visited(p, b, m, change));
    }
  }

  // ----- its outcome -----

  ghost function WorstParams(keys: nat, n: nat, last: nat): Params
    requires keys > 0
  {
    LoopParams(WorstRequest(keys, n, last), LinearSize)
  }

  ghost function WorstBase(keys: nat, n: nat, last: nat): Base
    requires keys > 0
  {
    LoopBase(WorstRequest(keys, n, last))
  }

  /** With the first coin and `k` more, amount and fee are covered with 206 to spare, which is dust for a change
      output; a richer last coin makes the difference. */
  lemma {:induction false} WorstCovers(keys: nat, n: nat, last: nat, k: nat, change: bool)
    requires keys > 0 && k <= n
    ensures var p, b := WorstParams(keys, n, last), WorstBase(keys, n, last);
            && |Candidates(p, b)| == n + 1 && p.dust == 546 && !p.sendAll
            && Total(p, b, k + 1) == p.required + Due(p, Visited(p, b, k + 1, change))
                                     + (if change then 206 else 546) + (if 0 < k == n then last - 1000 else 0)
  {
    var req := WorstRequest(keys, n, last);
    var p, b := LoopParams(req, LinearSize), LoopBase(req);
    WorstFacts(keys, n, last);
    WorstSum(n, last, k);
    CandidatesAreCoins(req, LinearSize);
    hide WorstCoins, OtherAssets, Coins, Paid, SpareCoins, FirstCoins, SomeBadAmount, SumUtxos, SumOutputs;
    var coins := WorstCoins(n, last)[..k + 1];
    assert [] + coins == coins;
    LinearSizeOf(Visited(p, b, k + 1, change));
    var size := VSizeOf(LinearSize, Visited(p, b, k + 1, change));
    assert GetTxFee(size, 1000, 10_000) == 10 * size;
  }

  /** A change output is dust with every number of coins but perhaps the last. */
  ghost predicate OftenDusty(p: Params, b: Base, n: nat, rich: bool) {
    && |Candidates(p, b)| == n + 1 && !p.sendAll
    && CoversDust(p, b, 1, false)
    && (forall k :: 1 <= k <= n + 1 ==> Covers(p, b, k, true))
    && forall k :: 1 <= k <= n + 1 ==> (Enough(p, b, k, true) <==> rich && k == n + 1)
  }

  lemma {:induction false} WorstCoin(keys: nat, n: nat, last: nat, k: nat)
    requires keys > 0 && 1 <= k <= n + 1 && (last == 1000 || (n > 0 && last == 10_000))
    ensures var p, b := WorstParams(keys, n, last), WorstBase(keys, n, last);
            && |Candidates(p, b)| == n + 1 && !p.sendAll && CoversDust(p, b, 1, false) && Covers(p, b, k, true)
            && (Enough(p, b, k, true) <==> last == 10_000 && k == n + 1)
  {
    hide WorstParams, WorstBase, Candidates, Total, Due, Visited;
    WorstCovers(keys, n, last, 0, false);
    WorstCovers(keys, n, last, k - 1, true);
  }

  lemma {:induction false} WorstIsDusty(keys: nat, n: nat, last: nat)
    requires keys > 0 && (last == 1000 || (n > 0 && last == 10_000))
    ensures OftenDusty(WorstParams(keys, n, last), WorstBase(keys, n, last), n, last == 10_000)
  {
    var p, b := WorstParams(keys, n, last), WorstBase(keys, n, last);
    hide WorstParams, WorstBase, Candidates, Covers, CoversDust, Enough;
    WorstCoin(keys, n, last, 1);
    forall k | 1 <= k <= n + 1
      ensures Covers(p, b, k, true) && (Enough(p, b, k, true) <==> last == 10_000 && k == n + 1)
    {
      WorstCoin(keys, n, last, k);
    }
  }

  /** Every coin then takes two passes. */
  lemma {:induction false} DustyAdding(p: Params, b: Base, n: nat, rich: bool, k: nat, q: nat)
    requires OftenDusty(p, b, n, rich) && 1 <= k <= q <= n + 2
    ensures Adding(p, b, k, q) == 2 * (q - k)
    decreases q - k
  {
    hide Covers, CoversDust, Enough, Candidates;
    if k < q {
      DustyAdding(p, b, n, rich, k + 1, q);
    }
  }

  /** All coins uneconomical: 2 * n + 3 passes. A rich last coin saves one pass. */
  lemma {:induction false} DustyOutcome(p: Params, b: Base, n: nat, rich: bool)
    requires OftenDusty(p, b, n, rich)
    ensures LoopOutcome(p, b, 1, false)
         == if rich then Settles(n + 1, true, 2 * n + 2) else RunsShort(2 * n + 3)
  {
    DustCovers(p, b, 1, false);
    assert Enough(p, b, 1, false);
    hide Covers, CoversDust, Enough, Candidates, FirstEnough, Adding;
    FirstEnoughIs(p, b, 1, false, 1);
    var q := if rich then n + 1 else n + 2;
    FirstEnoughIs(p, b, 1, true, q);
    DustyAdding(p, b, n, rich, 1, q);
  }

  lemma {:induction false} WorstOutcome(keys: nat, n: nat, last: nat)
    requires keys > 0 && (last == 1000 || (n > 0 && last == 10_000))
    ensures OutcomeOf(WorstRequest(keys, n, last), LinearSize)
         == if last == 1000 then RunsShort(2 * n + 3) else Settles(n + 1, true, 2 * n + 2)
  {
    WorstFacts(keys, n, last);
    CandidatesAreCoins(WorstRequest(keys, n, last), LinearSize);
    WorstIsDusty(keys, n, last);
    DustyOutcome(WorstParams(keys, n, last), WorstBase(keys, n, last), n, last == 10_000);
    hide LoopOutcome, SpareCoins, SomeBadAmount, Paid, Coins, FirstCoins, OftenDusty, Candidates;
  }

  // ----- the result -----

  /** A request with nothing wrong about it that the pass limit turns into an exception. */
  ghost predicate FailsOnLimit(req: Request, vsize: VSize) {
    && FitsInWords(req, vsize) && WellFormed(req) && Proper(req)
    && LoopEnd(req, vsize).Capped? && Built(req, vsize, 0).error.Exception?
  }

  /** Some request with `keys` asset keys and `spare` spare coins fails on the limit. */
  ghost predicate LimitCanFail(keys: nat, spare: nat) {
    exists req: Request, vsize: VSize ::
      |req.utxos| == keys && SpareCoins(req) == spare && FailsOnLimit(req, vsize)
  }

  /** The same for a request that would settle if it were allowed more passes. */
  ghost predicate LimitCanFailFunded(keys: nat, spare: nat) {
    exists req: Request, vsize: VSize ::
      && |req.utxos| == keys && SpareCoins(req) == spare && FailsOnLimit(req, vsize)
      && OutcomeOf(req, vsize).Settles?
  }

  /** Failing on the limit means having an outcome that takes more passes. */
  lemma {:induction false} LimitFailsBeyond(req: Request, vsize: VSize)
    requires FitsInWords(req, vsize) && WellFormed(req) && Proper(req)
    ensures FailsOnLimit(req, vsize) <==> OutcomeOf(req, vsize).passes > MaxPasses(|req.utxos|)
  {
    LoopEndsExactly(req, vsize);
    ExceptionExactly(req, vsize, 0);
    hide FitsInWords, LoopEnd, OutcomeOf, Built, SomeBadAmount;
  }

  lemma {:induction false} WorstFails(keys: nat, n: nat, last: nat)
    requires keys > 0 && n < MAX_SPARE && (last == 1000 || (n > 0 && last == 10_000))
    requires MaxPasses(keys) < 2 * n + (if last == 1000 then 3 else 2)
    ensures var req := WorstRequest(keys, n, last);
            |req.utxos| == keys && SpareCoins(req) == n && FailsOnLimit(req, LinearSize)
  {
    hide WorstRequest, Proper, FitsInWords, OutcomeOf, FailsOnLimit;
    WorstIsProper(keys, n, last);
    WorstFits(keys, n, last);
    WorstOutcome(keys, n, last);
    LimitFailsBeyond(WorstRequest(keys, n, last), LinearSize);
  }

  lemma {:induction false} WorstIsProper(keys: nat, n: nat, last: nat)
    requires keys > 0
    ensures var req := WorstRequest(keys, n, last);
            |req.utxos| == keys && SpareCoins(req) == n && Proper(req) && WellFormed(req)
  {
    WorstFacts(keys, n, last);
    hide SpareCoins, SomeBadAmount, Paid, Coins, FirstCoins, WorstCoins, SumOutputs, OtherAssets;
  }

  /** The passes a request can take. */
  lemma {:induction false} PassesOf(req: Request, vsize: VSize)
    ensures OutcomeOf(req, vsize).passes <= 2 * SpareCoins(req) + (if OutcomeOf(req, vsize).Settles? then 2 else 3)
  {
    CandidatesAreCoins(req, vsize);
    PassesAreBounded(LoopParams(req, vsize), LoopBase(req), |FirstCoins(req)|, req.isRbf && req.hadChange);
    hide LoopParams, LoopBase, FirstCoins, Coins, LoopOutcome;
  }

  /** Exactly how many spare coins the limit allows for: a request can fail on it unless the limit is at
      least 2 * spare + 3, and one that would settle unless it is at least 2 * spare + 2. */
  lemma {:induction false} LimitFailsExactly(keys: nat, spare: nat)
    requires keys > 0 && spare < MAX_SPARE
    ensures LimitCanFail(keys, spare) <==> MaxPasses(keys) < 2 * spare + 3
    ensures LimitCanFailFunded(keys, spare) <==> MaxPasses(keys) < 2 * spare + 2
  {
    WorstCase(keys, spare);
    hide FailsOnLimit, SpareCoins, OutcomeOf;
    forall req: Request, vsize: VSize
      | |req.utxos| == keys && SpareCoins(req) == spare && FailsOnLimit(req, vsize)
      ensures MaxPasses(keys) < 2 * spare + (if OutcomeOf(req, vsize).Settles? then 2 else 3)
    {
      PassesOf(req, vsize);
      FailureIsBeyond(req, vsize);
    }
  }

  lemma {:induction false} WorstCase(keys: nat, spare: nat)
    requires keys > 0 && spare < MAX_SPARE
    ensures MaxPasses(keys) < 2 * spare + 3 ==> LimitCanFail(keys, spare)
    ensures MaxPasses(keys) < 2 * spare + 2 ==> LimitCanFailFunded(keys, spare)
  {
    hide FailsOnLimit, SpareCoins, OutcomeOf, WorstRequest;
    if MaxPasses(keys) < 2 * spare + 3 {
      WorstFails(keys, spare, 1000);
    }
    if MaxPasses(keys) < 2 * spare + 2 {
      WorstFails(keys, spare, 10_000);
      WorstOutcome(keys, spare, 10_000);
    }
  }

  lemma {:induction false} FailureIsBeyond(req: Request, vsize: VSize)
    requires FailsOnLimit(req, vsize)
    ensures OutcomeOf(req, vsize).passes > MaxPasses(|req.utxos|)
  {
    LimitFailsBeyond(req, vsize);
    hide FitsInWords, LoopEnd, OutcomeOf, Built, SomeBadAmount;
  }

  /** With Bitcoin as the only asset the limit is 8 passes: from three spare coins on a request can fail,
      from four on even one that would settle. */
  lemma {:induction false} BitcoinLimit(spare: nat)
    requires spare < MAX_SPARE
    ensures LimitCanFail(1, spare) <==> spare >= 3
    ensures LimitCanFailFunded(1, spare) <==> spare >= 4
  {
    LimitFailsExactly(1, spare);
  }
}
