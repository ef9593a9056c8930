/** Old fee, old rate and network fee are read back as 32-bit numbers. What that costs, stated of the
    transactions that get built: which fees it leaves unprotected, exactly. */
module WideFees {
  import opened Options
  import opened Amounts
  import opened Transactions
  import opened FeeLoop
  import opened Settling
  import opened CreateTransaction
  import opened TransactionBuilder
  import opened BuildOutcome
  import opened BumpTransaction

  // ----- child pays for parent -----

  /** A plain request for a bump at `rate`; recipients and coins come from the bumped transaction. */
  function BumpDetails(rate: nat): Request {
    Request([], map[], None, false, false, false, [], false, "change", rate, 1000, 0, 0, 0, 546, NoError)
  }

  /** Some parent that would cost `newFee` at the new rate gets a child that does not lift the pair to it. */
  ghost predicate ChildCanFallShort(newFee: nat) {
    exists prev: PrevTx, prevVSize: nat, details: Request, address: string, vsize: VSize, dice: nat ::
      FallsShort(prev, prevVSize, details, address, vsize, dice, newFee)
  }

  ghost predicate FallsShort(prev: PrevTx, prevVSize: nat, details: Request, address: string, vsize: VSize, dice: nat,
                             newFee: nat) {
    && prevVSize > 0 && prev.feeRate == ReportedRate(prev.fee, prevVSize)
    && GetTxFee(prevVSize, details.minRate, details.userRate) == newFee
    && FirstRelevant(prev.outputs).Some?
    && var req := ChildRequest(prev, FirstRelevant(prev.outputs).value, prevVSize, details, address);
       && FitsInWords(req, vsize) && Built(req, vsize, dice).error.NoError?
       && !PairPays(prev, prevVSize, Max(details.minRate, details.userRate), Built(req, vsize, dice))
  }

  /** A parent of 1000 vbytes at 1000 satoshi that pays this wallet `value`. */
  function Parent(value: nat): PrevTx {
    PrevTx([7], Tx([TxInput(Outpoint([8], 0), 0)], [TxOutput("wallet", value)]), [],
           [Endpoint(true, 0, "wallet", value, 0, 0)], 1000, 1000)
  }

  function WideChild(newFee: nat): Request {
    ChildRequest(Parent(newFee), 0, 1000, BumpDetails(newFee), "wallet")
  }

  lemma {:induction false} WideChildSums(newFee: nat)
    requires newFee >= TWO_TO_32
    ensures var req := WideChild(newFee);
            && req.networkFee == newFee && SumUtxos(Coins(req)) == newFee && |Coins(req)| == 1 && Kept(req) == []
            && |Paid(req.addressees)| == 1 && SumOutputs(Paid(req.addressees)) == 0
  {
    hide CoverCount;
    var req := WideChild(newFee);
    var coin, paid := ChildCoin(Parent(newFee), 0), Paid(req.addressees);
    AppendUtxo([], coin);
    assert Coins(req) == [] + [coin];
    AppendOutput([], paid[0]);
    assert paid == [] + [paid[0]];
  }

  lemma {:induction false} WideChildIsAcceptable(newFee: nat)
    ensures Proper(WideChild(newFee))
  {
    hide CoverCount, NetworkFee;
    assert !SomeBadAmount(WideChild(newFee).addressees, true, 546);
  }

  lemma {:induction false} SmallSizeFee(size: nat, newFee: nat)
    requires size <= 178 && newFee >= TWO_TO_32
    ensures GetTxFee(size, 1000, newFee) <= 178 * newFee / 1000 + 1
  {
    MulMonotone(newFee, size, 178);
    var product := size * newFee;
    assert product <= 178 * newFee;
    assert CeilPerThousand(product) <= 178 * newFee / 1000 + 1;
    hide CeilPerThousand;
  }

  /** What a child spending one coin to one output owes. */
  lemma {:induction false} WideChildOwes(newFee: nat, n: nat, change: bool)
    requires newFee >= TWO_TO_32 && n <= 1
    ensures var req := WideChild(newFee);
            var p, b := LoopParams(req, LinearSize), LoopBase(req);
            var tx := Visited(p, b, n, change);
            && |Candidates(p, b)| == 1
            && VSizeOf(LinearSize, tx) == 10 + 100 * n + (if change then 68 else 34)
            && Due(p, tx) <= 178 * newFee / 1000 + 1 + Low32(newFee)
  {
    var req := WideChild(newFee);
    WideChildSums(newFee);
    hide Paid, Coins, SumUtxos, SumOutputs;
    var p, b := LoopParams(req, LinearSize), LoopBase(req);
    LinearSizeOf(Visited(p, b, n, change));
    SmallSizeFee(VSizeOf(LinearSize, Visited(p, b, n, change)), newFee);
  }

  lemma {:induction false} WideChildFits(newFee: nat)
    requires TWO_TO_32 <= newFee <= MAX_MONEY
    ensures FitsInWords(WideChild(newFee), LinearSize)
  {
    var req := WideChild(newFee);
    var p, b := LoopParams(req, LinearSize), LoopBase(req);
    WideChildSums(newFee);
    WideChildOwes(newFee, 0, false);
    hide Paid, Coins, SumUtxos, SumOutputs, Visited, LinearSize, CeilPerThousand;
    forall n: nat, change | MaySpend(p, b, n)
      ensures SizeFits(req, LinearSize, Visited(p, b, n, change))
    {
      WideChildOwes(newFee, n, change);
    }
  }

  /** Sending everything settles at once if something is left to send. */
  lemma {:induction false} SendAllIsBuilt(req: Request, vsize: VSize, dice: nat)
    requires FitsInWords(req, vsize) && WellFormed(req) && Proper(req) && req.sendAll && !req.isRbf
    requires req.userRate >= req.minRate
    requires var p, b := LoopParams(req, vsize), LoopBase(req);
             p.available > Due(p, Visited(p, b, |Candidates(p, b)|, false)) + p.dust
    ensures Built(req, vsize, dice).error.NoError?
  {
    var p, b := LoopParams(req, vsize), LoopBase(req);
    assert OutcomeOf(req, vsize) == Settles(|Candidates(p, b)|, false, 1);
    hide FitsInWords, Built, SomeBadAmount, OutcomeOf, Visited, Candidates;
    BuiltExactly(req, vsize, dice);
  }

  lemma {:induction false} WideChildIsBuilt(newFee: nat)
    requires TWO_TO_32 <= newFee <= MAX_MONEY
    ensures Built(WideChild(newFee), LinearSize, 0).error.NoError?
  {
    WideChildIsAcceptable(newFee);
    WideChildFits(newFee);
    WideChildSums(newFee);
    WideChildOwes(newFee, 1, false);
    hide Paid, Coins, SumUtxos, SumOutputs, Visited, LinearSize, CeilPerThousand, Built, SomeBadAmount, FitsInWords;
    SendAllIsBuilt(WideChild(newFee), LinearSize, 0);
  }

  lemma {:induction false} WideChildFallsShort(newFee: nat)
    requires TWO_TO_32 <= newFee <= MAX_MONEY
    ensures FallsShort(Parent(newFee), 1000, BumpDetails(newFee), "wallet", LinearSize, 0, newFee)
  {
    var prev, req := Parent(newFee), WideChild(newFee);
    WideChildFits(newFee);
    WideChildIsBuilt(newFee);
    hide FitsInWords, Built, PairPays, SomeBadAmount, SumOutputs, SumUtxos, Paid,
         NetworkFee, NetworkFeeSuffices, ChildSize, GetTxFee, ReportedRate;
    ChildLiftsPair(prev, 0, 1000, BumpDetails(newFee), "wallet", LinearSize, 0);
    WideFeeIsLost(newFee, ChildSize(req, LinearSize));
  }

  /** Losing the high bits of the network fee costs at least 2^32 satoshi. */
  lemma {:induction false} WideFeeIsLost(newFee: nat, childSize: nat)
    requires TWO_TO_32 <= newFee
    ensures !NetworkFeeSuffices(Parent(newFee), 1000, childSize, 1000, newFee)
    ensures GetTxFee(1000, 1000, newFee) == newFee && ReportedRate(1000, 1000) == 1000
  {
    hide RoundingGain;
  }

  /** Children fall short of the promised rate exactly for parents whose new fee takes more than 32 bits. */
  lemma {:induction false} ChildrenFallShortExactly(newFee: nat)
    requires newFee <= MAX_MONEY
    ensures ChildCanFallShort(newFee) <==> newFee >= TWO_TO_32
  {
    if newFee >= TWO_TO_32 {
      WideChildFallsShort(newFee);
    } else if ChildCanFallShort(newFee) {
      var prev: PrevTx, prevVSize: nat, details: Request, address: string, vsize: VSize, dice: nat :|
        FallsShort(prev, prevVSize, details, address, vsize, dice, newFee);
      NarrowChildPays(prev, prevVSize, details, address, vsize, dice, newFee);
      assert false;
    }
  }

  lemma {:induction false} NarrowChildPays(prev: PrevTx, prevVSize: nat, details: Request, address: string,
                                           vsize: VSize, dice: nat, newFee: nat)
    requires newFee < TWO_TO_32
    ensures !FallsShort(prev, prevVSize, details, address, vsize, dice, newFee)
  {
    hide FitsInWords, Built, PairPays, NetworkFeeSuffices, ReportedRate;
    if FallsShort(prev, prevVSize, details, address, vsize, dice, newFee) {
      var k := FirstRelevant(prev.outputs).value;
      ChildLiftsPair(prev, k, prevVSize, details, address, vsize, dice);
      SmallFeesSuffice(prev, prevVSize, ChildSize(ChildRequest(prev, k, prevVSize, details, address), vsize),
                       details.minRate, details.userRate);
    }
  }

  // ----- replacement -----

  /** The listing of an old transaction is consistent: listed outputs are its outputs, its fee is what the
      inputs leave over, and its rate is that fee over its size. */
  ghost predicate Consistent(prev: PrevTx, coins: seq<Utxo>, size: nat) {
    && ListsEveryInput(prev) && Rebuilt(prev, coins)
    && Paid(ToAddressees(prev.outputs)) == prev.tx.outputs
    && prev.fee + SumOutputs(prev.tx.outputs) == SumUtxos(coins)
    && prev.feeRate == ReportedRate(prev.fee, size)
  }

  /** A replacement, no smaller than the old transaction, is accepted although it pays a lower fee. */
  ghost predicate Undercuts(prev: PrevTx, coins: seq<Utxo>, details: Request, vsize: VSize, dice: nat) {
    && Consistent(prev, coins, VSizeOf(vsize, prev.tx))
    && var req := ReplacementRequest(prev, coins, details);
       && FitsInWords(req, vsize) && Built(req, vsize, dice).error.NoError?
       && Built(req, vsize, dice).vsize >= VSizeOf(vsize, prev.tx)
       && Built(req, vsize, dice).fee < prev.fee
  }

  /** Some old transaction of that fee and size can be replaced more cheaply. */
  ghost predicate CanUndercut(oldFee: nat, size: nat) {
    exists prev: PrevTx, coins: seq<Utxo>, details: Request, vsize: VSize, dice: nat ::
      prev.fee == oldFee && VSizeOf(vsize, prev.tx) == size && Undercuts(prev, coins, details, vsize, dice)
  }

  lemma {:induction false} RateBounds(fee: nat, size: nat)
    requires fee <= MAX_MONEY && size > 0
    ensures ReportedRate(fee, size) * size <= 1000 * fee < (ReportedRate(fee, size) + 1) * size
  {
    var rate := 1000 * fee / size;
    assert ReportedRate(fee, size) == rate;
    assert 1000 * fee == rate * size + 1000 * fee % size;
  }

  /** A lower fee for no smaller a size is no higher a rate. */
  lemma {:induction false} RateArgument(oldFee: nat, size: nat, fee: nat, vsize: nat, rate: nat)
    requires 0 < size <= vsize && rate * vsize <= 1000 * fee && fee < oldFee <= MAX_MONEY
    ensures rate <= ReportedRate(oldFee, size)
  {
    RateBounds(oldFee, size);
    var oldRate := ReportedRate(oldFee, size);
    if rate > oldRate {
      MulMonotone(rate, size, vsize);
      MulMonotone(size, oldRate + 1, rate);
    }
  }

  /** What an accepted replacement says about fees and rates. */
  lemma {:induction false} ReplacementFees(prev: PrevTx, coins: seq<Utxo>, details: Request, vsize: VSize, dice: nat)
    requires Rebuilt(prev, coins)
    requires FitsInWords(ReplacementRequest(prev, coins, details), vsize)
    requires Built(ReplacementRequest(prev, coins, details), vsize, dice).error.NoError?
    ensures var r := Built(ReplacementRequest(prev, coins, details), vsize, dice);
            && r.feeRate * r.vsize <= 1000 * r.fee
            && (prev.fee < TWO_TO_32 ==> r.fee >= prev.fee)
            && (prev.feeRate < TWO_TO_32 ==> r.feeRate > prev.feeRate)
  {
    var req := ReplacementRequest(prev, coins, details);
    hide FitsInWords, Built, Rebuilt, SoundTx, Recipients;
    ReplacementIsSound(prev, coins, details, vsize, dice);
    BuiltIsSound(req, vsize, dice);
    SoundRate(req, vsize, Built(req, vsize, dice));
  }

  lemma {:induction false} SoundRate(req: Request, vsize: VSize, r: TxResult)
    requires SoundTx(req, vsize, r)
    ensures r.feeRate * r.vsize <= 1000 * r.fee
  {
  }

  /** Either check alone protects the old transaction as long as the number it reads back is intact. */
  lemma {:induction false} NarrowIsProtected(prev: PrevTx, coins: seq<Utxo>, details: Request, vsize: VSize, dice: nat)
    requires 0 < VSizeOf(vsize, prev.tx) && prev.fee <= MAX_MONEY
    requires Undercuts(prev, coins, details, vsize, dice)
    ensures prev.fee >= TWO_TO_32 && ReportedRate(prev.fee, VSizeOf(vsize, prev.tx)) >= TWO_TO_32
  {
    var r, size := Built(ReplacementRequest(prev, coins, details), vsize, dice), VSizeOf(vsize, prev.tx);
    hide FitsInWords, Built, ReplacementRequest, Rebuilt, ReportedRate, ListsEveryInput, VSizeOf;
    ReplacementFees(prev, coins, details, vsize, dice);
    RateArgument(prev.fee, size, r.fee, r.vsize, r.feeRate);
  }

  // ----- a replacement that undercuts -----

  function OldTx(oldFee: nat, size: nat): PrevTx {
    PrevTx([9], Tx([TxInput(Outpoint([8], 0), 0)], [TxOutput("payee", 1000), TxOutput("change", 1000)]),
           [Endpoint(true, 0, "", oldFee + 2000, 0, 0)],
           [Endpoint(false, 0, "payee", 1000, 0, 0), Endpoint(true, 1, "change", 1000, 0, 0)],
           oldFee, ReportedRate(oldFee, size))
  }

  function OldCoins(oldFee: nat): seq<Utxo> {
    [Utxo([8], 0, oldFee + 2000, 0, 0)]
  }

  /** Version, locktime and the numbers of inputs and outputs alone take ten bytes. */
  const MIN_VSIZE: nat := 10

  /** Sizes grow with inputs and outputs; one input and two outputs make `size`. */
  function SizeOf(size: nat): VSize
    requires size >= MIN_VSIZE
  {
    (ins, outs) => size - 3 + |ins| + |outs|
  }

  /** The highest rate at which the replacement still pays less than the old transaction. */
  function LowerRate(oldFee: nat, size: nat): nat
    requires oldFee > 0 && size > 0
  {
    1000 * (oldFee - 1) / size
  }

  predicate Wide(oldFee: nat, size: nat) {
    MIN_VSIZE <= size <= MAX_VSIZE && TWO_TO_32 <= oldFee <= MAX_MONEY && ReportedRate(oldFee, size) >= TWO_TO_32
  }

  lemma {:induction false} DivisionBounds(x: nat, size: nat)
    requires size > 0
    ensures x / size * size <= x < x / size * size + size
  {
    assert x == x / size * size + x % size;
  }

  /** The lower rate is close to the old one, and so above what is read back of the old one. */
  lemma {:induction false} LowerRateIsClose(oldFee: nat, size: nat)
    requires Wide(oldFee, size)
    ensures LowerRate(oldFee, size) >= 1000
    ensures LowerRate(oldFee, size) > Low32(ReportedRate(oldFee, size))
  {
    var rate, oldRate := LowerRate(oldFee, size), ReportedRate(oldFee, size);
    DivisionBounds(1000 * (oldFee - 1), size);
    RateBounds(oldFee, size);
    hide LowerRate, ReportedRate;
    CloseRates(rate, oldRate, size, 1000 * oldFee);
  }

  lemma {:induction false} CloseRates(rate: nat, oldRate: nat, size: nat, product: nat)
    requires size >= MIN_VSIZE && oldRate * size <= product < rate * size + size + 1000
    ensures oldRate <= rate + 101
  {
    assert size * (rate + 101) == rate * size + 101 * size;
    if rate + 101 < oldRate {
      MulMonotone(size, rate + 101, oldRate);
    }
  }

  /** `part` and `whole` are rate times size without and with a change output. */
  lemma {:induction false} LowerFeeArithmetic(oldFee: nat, size: nat, smaller: nat, part: nat, whole: nat)
    requires smaller <= size <= MAX_VSIZE && TWO_TO_32 <= oldFee
    requires whole <= 1000 * (oldFee - 1) < whole + size
    requires 4 * whole <= 5 * part && part <= whole
    ensures Low32(oldFee) + smaller <= CeilPerThousand(part) < oldFee
  {
    assert oldFee - Low32(oldFee) >= TWO_TO_32 > Low32(oldFee);
  }

  /** At the lower rate a transaction of `size`, or one without its change output, costs less than the old
      one but more than what is read back of it. */
  lemma {:induction false} LowerRateWorks(oldFee: nat, size: nat, smaller: nat)
    requires Wide(oldFee, size) && smaller <= size <= smaller + 1
    ensures Low32(oldFee) + smaller <= GetTxFee(smaller, 1000, LowerRate(oldFee, size)) < oldFee
  {
    var rate := LowerRate(oldFee, size);
    LowerRateIsClose(oldFee, size);
    DivisionBounds(1000 * (oldFee - 1), size);
    hide LowerRate, ReportedRate;
    MulMonotone(rate, smaller, size);
    MulMonotone(rate, 4 * size, 5 * smaller);
    assert rate * (4 * size) == 4 * (rate * size) && rate * (5 * smaller) == 5 * (rate * smaller);
    LowerFeeArithmetic(oldFee, size, smaller, rate * smaller, rate * size);
    assert smaller * rate == rate * smaller;
  }

  function CheapRequest(oldFee: nat, size: nat): Request
    requires oldFee > 0 && size > 0
  {
    ReplacementRequest(OldTx(oldFee, size), OldCoins(oldFee), BumpDetails(LowerRate(oldFee, size)))
  }

  lemma {:induction false} OldTxIsConsistent(oldFee: nat, size: nat)
    ensures Consistent(OldTx(oldFee, size), OldCoins(oldFee), size)
  {
    hide ReportedRate;
    var prev, coins := OldTx(oldFee, size), OldCoins(oldFee);
    assert Reverse([8]) == [8];
    assert Lists(prev, 0, 0);
    assert StandsFor(coins[0], prev, 0);
    AppendOutput([], prev.tx.outputs[0]);
    AppendOutput([prev.tx.outputs[0]], prev.tx.outputs[1]);
    assert prev.tx.outputs == [] + [prev.tx.outputs[0]] + [prev.tx.outputs[1]];
    AppendUtxo([], coins[0]);
    assert coins == [] + [coins[0]];
  }

  /** The request made of the old transaction. */
  lemma {:induction false} CheapRequestIs(oldFee: nat, size: nat)
    requires oldFee > 0 && size > 0
    ensures CheapRequest(oldFee, size)
         == BumpDetails(LowerRate(oldFee, size)).(isRbf := true, oldUsed := OldCoins(oldFee), hadChange := true,
              addressees := [Addressee("payee", Some(1000))], oldFee := oldFee, oldRate := ReportedRate(oldFee, size))
  {
    hide ReportedRate, LowerRate;
    var outs := OldTx(oldFee, size).outputs;
    assert FirstRelevant(outs) == Some(1);
    assert Recipients(outs) == [outs[0]];
    assert ToAddressees([outs[0]]) == [Addressee("payee", Some(1000))];
  }

  lemma {:induction false} CheapSums(oldFee: nat, size: nat)
    requires oldFee > 0 && size > 0
    ensures var req := CheapRequest(oldFee, size);
            && Kept(req) == OldCoins(oldFee) && Coins(req) == [] && SumUtxos(Kept(req)) == oldFee + 2000
            && |Paid(req.addressees)| == 1 && SumOutputs(Paid(req.addressees)) == 1000
            && Proper(req) && WellFormed(req)
  {
    CheapRequestIs(oldFee, size);
    var req, coin, payee := CheapRequest(oldFee, size), OldCoins(oldFee)[0], TxOutput("payee", 1000);
    hide CheapRequest, ReportedRate, LowerRate;
    AppendUtxo([], coin);
    assert OldCoins(oldFee) == [] + [coin];
    AppendOutput([], payee);
    assert Paid(req.addressees) == [] + [payee];
    assert !SomeBadAmount(req.addressees, false, 546);
  }

  /** What the replacement owes with and without a change output: no other coins are there to add. */
  lemma {:induction false} CheapOwes(oldFee: nat, size: nat, change: bool)
    requires Wide(oldFee, size)
    ensures var req := CheapRequest(oldFee, size);
            var p, b := LoopParams(req, SizeOf(size)), LoopBase(req);
            var tx := Visited(p, b, 0, change);
            && Candidates(p, b) == [] && tx.inputs != [] && Total(p, b, 0) == oldFee + 2000
            && VSizeOf(SizeOf(size), tx) == (if change then size else size - 1)
            && Low32(oldFee) + VSizeOf(SizeOf(size), tx) <= Due(p, tx) < oldFee
            && (change ==> Due(p, tx) == GetTxFee(size, 1000, LowerRate(oldFee, size)))
  {
    var req := CheapRequest(oldFee, size);
    CheapRequestIs(oldFee, size);
    CheapSums(oldFee, size);
    hide CheapRequest, ReportedRate, LowerRate, Paid, Coins, SumUtxos, SumOutputs, SomeBadAmount, GetTxFee;
    var p, b := LoopParams(req, SizeOf(size)), LoopBase(req);
    var tx := Visited(p, b, 0, change);
    assert b.kept + Candidates(p, b)[..0] == b.kept;
    ScriptCount(tx.outputs);
    LowerRateWorks(oldFee, size, if change then size else size - 1);
  }

  lemma {:induction false} CheapFits(oldFee: nat, size: nat)
    requires Wide(oldFee, size)
    ensures FitsInWords(CheapRequest(oldFee, size), SizeOf(size))
  {
    var req := CheapRequest(oldFee, size);
    CheapRequestIs(oldFee, size);
    CheapSums(oldFee, size);
    CheapOwes(oldFee, size, true);
    CheapOwes(oldFee, size, false);
    hide CheapRequest, ReportedRate, LowerRate, Paid, Coins, SumUtxos, SumOutputs, SomeBadAmount, GetTxFee,
         SizeOf, Visited, Total;
  }

  /** The change output is already there and is worth keeping: one pass settles it. */
  lemma {:induction false} CheapSettles(oldFee: nat, size: nat)
    requires Wide(oldFee, size)
    ensures var req := CheapRequest(oldFee, size);
            OutcomeOf(req, SizeOf(size)) == Settles(0, true, 1)
  {
    var req := CheapRequest(oldFee, size);
    var p, b := LoopParams(req, SizeOf(size)), LoopBase(req);
    CheapRequestIs(oldFee, size);
    CheapSums(oldFee, size);
    CheapOwes(oldFee, size, true);
    assert FirstCoins(req) == [] && p.dust == 546 && !p.sendAll && p.required == 1000;
    hide CheapRequest, ReportedRate, LowerRate, Paid, Coins, SumUtxos, SumOutputs, SomeBadAmount, GetTxFee,
         SizeOf, Visited, Total, Candidates, FirstCoins, Due;
    assert Enough(p, b, 0, true);
    FirstEnoughIs(p, b, 0, true, 0);
  }

  /** Both closing checks pass on the numbers read back. */
  lemma {:induction false} ClosingCheckPasses(oldFee: nat, size: nat)
    requires Wide(oldFee, size)
    ensures var fee := GetTxFee(size, 1000, LowerRate(oldFee, size));
            ReplacementPays(fee, size, ReportedRate(fee, size), 1000, oldFee, ReportedRate(oldFee, size))
  {
    var rate := LowerRate(oldFee, size);
    var fee := GetTxFee(size, 1000, rate);
    LowerRateWorks(oldFee, size, size);
    LowerRateIsClose(oldFee, size);
    hide LowerRate, ReportedRate;
    RateArithmetic(fee, size, rate);
    BandwidthFee(size, oldFee);
    hide GetTxFee;
  }

  /** The fee asked for the bandwidth at the usual minimum rate is a plain sum. */
  lemma {:induction false} BandwidthFee(size: nat, oldFee: nat)
    requires size <= MAX_VSIZE
    ensures Add64(Low32(oldFee), Mul64(size, 1000) / 1000) == Low32(oldFee) + size
  {
  }

  lemma {:induction false} CheapIsBuilt(oldFee: nat, size: nat)
    requires Wide(oldFee, size)
    ensures var req := CheapRequest(oldFee, size);
            var r := Built(req, SizeOf(size), 0);
            FitsInWords(req, SizeOf(size)) && r.error.NoError? && r.vsize == size && r.fee < oldFee
  {
    var req := CheapRequest(oldFee, size);
    CheapRequestIs(oldFee, size);
    CheapSums(oldFee, size);
    CheapFits(oldFee, size);
    CheapSettles(oldFee, size);
    CheapOwes(oldFee, size, true);
    LowerRateIsClose(oldFee, size);
    ClosingCheckPasses(oldFee, size);
    hide CheapRequest, ReportedRate, LowerRate, Paid, Coins, SumUtxos, SumOutputs, SomeBadAmount, GetTxFee,
         SizeOf, Built, FitsInWords, OutcomeOf, VSizeOf, Visited, Due, ReplacementPays;
    BuiltExactly(req, SizeOf(size), 0);
  }

  lemma {:induction false} CheapUndercuts(oldFee: nat, size: nat)
    requires Wide(oldFee, size)
    ensures Undercuts(OldTx(oldFee, size), OldCoins(oldFee), BumpDetails(LowerRate(oldFee, size)), SizeOf(size), 0)
    ensures VSizeOf(SizeOf(size), OldTx(oldFee, size).tx) == size
  {
    OldTxSize(oldFee, size);
    OldTxIsConsistent(oldFee, size);
    CheapIsBuilt(oldFee, size);
    hide OldTx, OldCoins, LowerRate, SizeOf, VSizeOf, Built, FitsInWords, Consistent, ReplacementRequest;
  }

  lemma {:induction false} OldTxSize(oldFee: nat, size: nat)
    requires size >= MIN_VSIZE
    ensures VSizeOf(SizeOf(size), OldTx(oldFee, size).tx) == size && OldTx(oldFee, size).fee == oldFee
  {
    ScriptCount(OldTx(oldFee, size).tx.outputs);
    hide ReportedRate;
  }

  /** The old fee and rate are read back as 32-bit numbers: an old transaction can be replaced by a cheaper one
      exactly when both of them take more than 32 bits. */
  lemma {:induction false} OldFeeIsProtectedExactly(oldFee: nat, size: nat)
    requires MIN_VSIZE <= size <= MAX_VSIZE && oldFee <= MAX_MONEY
    ensures CanUndercut(oldFee, size) <==> oldFee >= TWO_TO_32 && ReportedRate(oldFee, size) >= TWO_TO_32
  {
    hide Undercuts, ReportedRate, LowerRate, SizeOf, VSizeOf;
    if Wide(oldFee, size) {
      CheapUndercuts(oldFee, size);
      assert OldTx(oldFee, size).fee == oldFee;
    } else if CanUndercut(oldFee, size) {
      var prev: PrevTx, coins: seq<Utxo>, details: Request, vsize: VSize, dice: nat :|
        prev.fee == oldFee && VSizeOf(vsize, prev.tx) == size && Undercuts(prev, coins, details, vsize, dice);
      NarrowIsProtected(prev, coins, details, vsize, dice);
      assert false;
    }
  }
}
