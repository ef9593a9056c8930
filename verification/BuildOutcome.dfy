/** When a request is built, when it is refused for lack of funds and when it ends in an exception, decided
    from the request and the size function alone. */
module BuildOutcome {
  import opened Options
  import opened Amounts
  import opened Transactions
  import opened FeeLoop
  import opened FeeLoopProgress
  import opened Settling
  import opened CreateTransaction
  import opened TransactionBuilder

  lemma {:induction false} CandidatesAreCoins(req: Request, vsize: VSize)
    ensures Candidates(LoopParams(req, vsize), LoopBase(req)) == Coins(req)
  {
  }

  /** Where the loop ends for a request. */
  ghost function OutcomeOf(req: Request, vsize: VSize): (w: Outcome)
    ensures w.Settles? ==> w.coins <= |Candidates(LoopParams(req, vsize), LoopBase(req))|
  {
    CandidatesAreCoins(req, vsize);
    LoopOutcome(LoopParams(req, vsize), LoopBase(req), |FirstCoins(req)|, req.isRbf && req.hadChange)
  }

  ghost predicate WithinLimit(req: Request, vsize: VSize) {
    OutcomeOf(req, vsize).passes <= MaxPasses(|req.utxos|)
  }

  /** Replacing while sending everything is refused by an assertion, unless it is a redeposit. */
  predicate SendsAllOfReplaced(req: Request) {
    req.isRbf && req.sendAll && !req.isRedeposit
  }

  /** The transaction the loop settles on, amounts aside. */
  ghost function SettledTx(req: Request, vsize: VSize): Tx
    requires OutcomeOf(req, vsize).Settles?
  {
    var w := OutcomeOf(req, vsize);
    Visited(LoopParams(req, vsize), LoopBase(req), w.coins, w.withChange)
  }

  /** The fee due; without a change output also what is left over. */
  ghost function SettledFee(req: Request, vsize: VSize): int
    requires OutcomeOf(req, vsize).Settles?
  {
    var p, w := LoopParams(req, vsize), OutcomeOf(req, vsize);
    if req.sendAll || w.withChange then Due(p, SettledTx(req, vsize))
    else Total(p, LoopBase(req), w.coins) - p.required
  }

  ghost function SettledAmount(req: Request, vsize: VSize): int
    requires OutcomeOf(req, vsize).Settles?
  {
    var p := LoopParams(req, vsize);
    if req.sendAll then p.available - Due(p, SettledTx(req, vsize)) else p.required
  }

  /** The closing check, if the transaction replaces another one. */
  ghost predicate Outbids(req: Request, vsize: VSize)
    requires OutcomeOf(req, vsize).Settles?
  {
    var fee, size := SettledFee(req, vsize), VSizeOf(vsize, SettledTx(req, vsize));
    req.isRbf ==> fee >= 0 && ReplacementPays(fee, size, ReportedRate(fee, size), req.minRate, req.oldFee, req.oldRate)
  }

  /** Nothing is wrong with the request before coins and fees are looked at. */
  ghost predicate Proper(req: Request) {
    Acceptable(req) && req.earlier.NoError? && !SendsAllOfReplaced(req)
  }

  /** Everything a request has to meet to be built. */
  ghost predicate Buildable(req: Request, vsize: VSize) {
    && Proper(req) && req.userRate >= req.minRate
    && OutcomeOf(req, vsize).Settles? && WithinLimit(req, vsize)
    && SettledAmount(req, vsize) > 0 && Outbids(req, vsize)
  }

  /** The result is the settled transaction: so many coins, change or none, that fee. */
  ghost predicate IsSettled(req: Request, vsize: VSize, r: TxResult)
    requires OutcomeOf(req, vsize).Settles?
  {
    var w := OutcomeOf(req, vsize);
    && r.used == Coins(req)[..w.coins] && r.haveChange == w.withChange
    && r.fee == SettledFee(req, vsize) && r.required == SettledAmount(req, vsize)
    && r.vsize == VSizeOf(vsize, SettledTx(req, vsize))
  }

  // ----- the loop -----

  lemma {:induction false} LoopEndsExactly(req: Request, vsize: VSize)
    requires FitsInWords(req, vsize) && WellFormed(req) && |req.addressees| > 0 && !SendsAllOfReplaced(req)
    ensures EndsAs(LoopParams(req, vsize), LoopEnd(req, vsize), OutcomeOf(req, vsize), MaxPasses(|req.utxos|))
  {
    var p, b, s := LoopParams(req, vsize), LoopBase(req), Start(req);
    LoopFits(req, vsize);
    StartSatisfiesInv(req, vsize);
    assert req.sendAll ==> s.used == Candidates(p, b);
    hide FitsInWords, Fits, Inv, EndsAs, Run, LoopOutcome, CoverCount;
    RunEndsExactly(p, b, s, MaxPasses(|req.utxos|));
  }

  /** A loop left soundly spends its first coins and is at a transaction it may visit. */
  lemma {:induction false} ExitSpends(req: Request, vsize: VSize, f: Final)
    requires LeftSoundly(req, vsize, f)
    ensures var p, b, n := LoopParams(req, vsize), LoopBase(req), |f.state.used|;
            && n <= |Candidates(p, b)| && f.state.used == Coins(req)[..n] && f.state.total == Total(p, b, n)
            && VSizeOf(vsize, f.state.tx) == VSizeOf(vsize, Visited(p, b, n, f.state.haveChange))
            && Due(p, f.state.tx) == Due(p, Visited(p, b, n, f.state.haveChange))
  {
    ExitIsVisited(req, vsize, f);
    var p, b, s := LoopParams(req, vsize), LoopBase(req), f.state;
    hide PaidAtExit, OutputsMatch, ForcedByDust, Balanced, Short, Visited;
    assert Candidates(p, b) == Coins(req);
    assert s.used == Coins(req)[..|s.used|];
  }

  /** The numbers a settled loop is left with. */
  lemma {:induction false} SettledNumbers(req: Request, vsize: VSize, f: Final)
    requires LeftSoundly(req, vsize, f) && !f.insufficient
    requires OutcomeOf(req, vsize).Settles? && |f.state.used| == OutcomeOf(req, vsize).coins
    requires f.state.haveChange == OutcomeOf(req, vsize).withChange
    ensures f.state.used == Coins(req)[..OutcomeOf(req, vsize).coins]
    ensures VSizeOf(vsize, f.state.tx) == VSizeOf(vsize, SettledTx(req, vsize))
    ensures f.fee == SettledFee(req, vsize) && f.required == SettledAmount(req, vsize)
  {
    ExitSpends(req, vsize, f);
    hide OutcomeOf, PaidAtExit, Inv, Short, Visited, Total, Due, Coins, VSizeOf, LoopBase;
  }

  // ----- the result -----

  lemma {:induction false} EntryErrorIs(req: Request)
    ensures EntryError(req).NoError? <==> Acceptable(req) && req.earlier.NoError?
    ensures req.earlier.NoError? ==> !EntryError(req).InsufficientFunds? && !EntryError(req).Exception?
  {
    hide SomeBadAmount;
  }

  /** When the assembled result carries no error. */
  lemma {:induction false} AssembledError(req: Request, vsize: VSize, f: Final, dice: nat, error: TxError)
    requires f.Left? && IndexInRange(f.state)
    ensures var r := Assemble(req, vsize, f, dice, error);
            && (r.error.NoError? <==>
                  && error.NoError? && !f.insufficient && f.required > 0 && req.userRate >= req.minRate
                  && (req.isRbf ==> ReplacementPays(r.fee, r.vsize, r.feeRate, req.minRate, req.oldFee, req.oldRate)))
            && (error.NoError? ==> (r.error.InsufficientFunds? <==> f.insufficient) && !r.error.Exception?)
            && (!error.NoError? ==> r.error == error)
            && r.used == f.state.used && r.haveChange == f.state.haveChange
            && r.fee == f.fee && r.required == f.required
  {
    hide PlaceChange, ReportedRate, ReportedVSize, ReplacementPays, Sub64;
  }

  /** The closing checks pass exactly when they pass on the settled transaction. */
  lemma {:induction false} ClosingChecks(req: Request, vsize: VSize, f: Final, dice: nat)
    requires FitsInWords(req, vsize) && LeftSoundly(req, vsize, f) && !f.insufficient && Acceptable(req)
    requires req.sendAll ==> f.state.used == Coins(req)
    requires OutcomeOf(req, vsize).Settles? && |f.state.used| == OutcomeOf(req, vsize).coins
    requires f.state.haveChange == OutcomeOf(req, vsize).withChange
    ensures var r := Assemble(req, vsize, f, dice, NoError);
            r.error.NoError? <==> SettledAmount(req, vsize) > 0 && req.userRate >= req.minRate && Outbids(req, vsize)
    ensures SettledAmount(req, vsize) > 0 ==> IsSettled(req, vsize, Assemble(req, vsize, f, dice, NoError))
  {
    SettledNumbers(req, vsize, f);
    if f.required > 0 {
      SpendsSomething(req, vsize, f);
      ExitFits(req, vsize, f);
      SizeIsReported(req, vsize, f, dice, NoError);
    }
    assert IndexInRange(f.state);
    AssembledError(req, vsize, f, dice, NoError);
    hide OutcomeOf, FitsInWords, SoundExit, SettledTx, SettledFee, SettledAmount, Assemble, ReportedRate,
         ReplacementPays, VSizeOf;
  }

  /** The result of a request that settles within the limit. */
  lemma {:induction false} SettledIsAssembled(req: Request, vsize: VSize, dice: nat)
    requires FitsInWords(req, vsize) && WellFormed(req) && Proper(req)
    requires OutcomeOf(req, vsize).Settles? && WithinLimit(req, vsize)
    ensures Built(req, vsize, dice).error.NoError? <==> Buildable(req, vsize)
    ensures Buildable(req, vsize) ==> IsSettled(req, vsize, Built(req, vsize, dice))
  {
    var p, f := LoopParams(req, vsize), LoopEnd(req, vsize);
    LoopEndsExactly(req, vsize);
    assert f.Left?;
    LoopEndIsSound(req, vsize);
    EntryErrorIs(req);
    if req.sendAll {
      SendAllUsesEverything(p, Start(req), MaxPasses(|req.utxos|));
    }
    hide LoopEnd, OutcomeOf, FitsInWords, SoundExit, SettledAmount, Outbids, IsSettled, Assemble, EntryError,
         SomeBadAmount, Start;
    ClosingChecks(req, vsize, f, dice);
  }

  lemma {:induction false} UnsettledIsNotBuilt(req: Request, vsize: VSize, dice: nat)
    requires FitsInWords(req, vsize) && WellFormed(req)
    requires !Proper(req) || !OutcomeOf(req, vsize).Settles? || !WithinLimit(req, vsize)
    ensures !Built(req, vsize, dice).error.NoError?
  {
    var f := LoopEnd(req, vsize);
    EntryErrorIs(req);
    if Proper(req) {
      LoopEndsExactly(req, vsize);
    }
    if f.Left? {
      RunKeepsIndex(LoopParams(req, vsize), Start(req), MaxPasses(|req.utxos|));
      AssembledError(req, vsize, f, dice, EntryError(req));
    }
    hide LoopEnd, OutcomeOf, FitsInWords, EntryError, SomeBadAmount, Assemble, Start;
  }

  /** A request is built without error if and only if it is proper and settles within the pass limit on a
      transaction that sends something at an allowed rate and outbids what it replaces; and what is built is
      that transaction. */
  lemma {:induction false} BuiltExactly(req: Request, vsize: VSize, dice: nat)
    requires FitsInWords(req, vsize) && WellFormed(req)
    ensures Built(req, vsize, dice).error.NoError? <==> Buildable(req, vsize)
    ensures Buildable(req, vsize) ==> IsSettled(req, vsize, Built(req, vsize, dice))
  {
    hide FitsInWords, Built, Proper, OutcomeOf, WithinLimit, IsSettled, SettledAmount, Outbids;
    if Proper(req) && OutcomeOf(req, vsize).Settles? && WithinLimit(req, vsize) {
      SettledIsAssembled(req, vsize, dice);
    } else {
      UnsettledIsNotBuilt(req, vsize, dice);
    }
  }

  /** What becomes of a proper request. */
  lemma {:induction false} ProperFails(req: Request, vsize: VSize, dice: nat)
    requires FitsInWords(req, vsize) && WellFormed(req) && Proper(req)
    ensures var e, short := Built(req, vsize, dice).error, OutcomeOf(req, vsize).RunsShort?;
            && (e.Exception? <==> !WithinLimit(req, vsize) || (short && !Reports(LoopParams(req, vsize))))
            && (e.InsufficientFunds? <==> WithinLimit(req, vsize) && short && Reports(LoopParams(req, vsize)))
  {
    var p, f := LoopParams(req, vsize), LoopEnd(req, vsize);
    EntryErrorIs(req);
    LoopEndsExactly(req, vsize);
    if f.Left? {
      RunKeepsIndex(p, Start(req), MaxPasses(|req.utxos|));
      AssembledError(req, vsize, f, dice, EntryError(req));
    }
    hide LoopEnd, OutcomeOf, FitsInWords, EntryError, SomeBadAmount, Assemble, Start, LoopParams, Reports;
  }

  lemma {:induction false} ImproperFails(req: Request, vsize: VSize, dice: nat)
    requires req.earlier.NoError? && !Proper(req)
    ensures var e := Built(req, vsize, dice).error;
            (e.Exception? <==> SendsAllOfReplaced(req)) && !e.InsufficientFunds?
  {
    var f := LoopEnd(req, vsize);
    EntryErrorIs(req);
    if f.Left? {
      RunKeepsIndex(LoopParams(req, vsize), Start(req), MaxPasses(|req.utxos|));
      AssembledError(req, vsize, f, dice, EntryError(req));
    }
    hide LoopEnd, EntryError, SomeBadAmount, Assemble, Start;
  }

  /** "Insufficient funds" is reported if and only if the request is proper, within the pass limit, and runs
      short: no number of its coins covers amount and fee, or the fewest that do leave enough for a change
      output and then none makes that output worth keeping. What is reported is a real shortage. */
  lemma {:induction false} ShortageIsHonest(req: Request, vsize: VSize, dice: nat)
    requires FitsInWords(req, vsize) && WellFormed(req) && req.earlier.NoError?
    ensures Built(req, vsize, dice).error.InsufficientFunds?
       <==> && Proper(req) && WithinLimit(req, vsize)
            && OutcomeOf(req, vsize).RunsShort? && Reports(LoopParams(req, vsize))
    ensures Built(req, vsize, dice).error.InsufficientFunds? ==> Shortage(req, vsize, Built(req, vsize, dice))
  {
    hide FitsInWords, Built, Shortage, OutcomeOf, Reports, SomeBadAmount;
    if Proper(req) {
      ProperFails(req, vsize, dice);
      if Built(req, vsize, dice).error.InsufficientFunds? {
        ShortageOfProper(req, vsize, dice);
      }
    } else {
      ImproperFails(req, vsize, dice);
    }
  }

  lemma {:induction false} ShortageOfProper(req: Request, vsize: VSize, dice: nat)
    requires FitsInWords(req, vsize) && WellFormed(req) && Proper(req)
    requires Built(req, vsize, dice).error.InsufficientFunds?
    ensures Shortage(req, vsize, Built(req, vsize, dice))
  {
    var p, f := LoopParams(req, vsize), LoopEnd(req, vsize);
    EntryErrorIs(req);
    LoopEndIsSound(req, vsize);
    RunKeepsIndex(p, Start(req), MaxPasses(|req.utxos|));
    AssembledError(req, vsize, f, dice, EntryError(req));
    hide LoopEnd, FitsInWords, EntryError, SomeBadAmount, Assemble, Start;
    ShortageIsReal(req, vsize, f, dice, EntryError(req));
  }

  /** An exception ends a request if and only if it sends all of a replaced transaction, or it is proper and
      exceeds the pass limit or runs short of an asset that has no key. */
  lemma {:induction false} ExceptionExactly(req: Request, vsize: VSize, dice: nat)
    requires FitsInWords(req, vsize) && WellFormed(req) && req.earlier.NoError?
    ensures Built(req, vsize, dice).error.Exception?
       <==> || SendsAllOfReplaced(req)
            || (Acceptable(req) && !WithinLimit(req, vsize))
            || (Acceptable(req) && OutcomeOf(req, vsize).RunsShort? && !Reports(LoopParams(req, vsize)))
  {
    hide FitsInWords, Built, OutcomeOf, Reports, SomeBadAmount, WithinLimit;
    if Proper(req) {
      ProperFails(req, vsize, dice);
    } else {
      ImproperFails(req, vsize, dice);
    }
  }

  // ----- every other error -----

  /** What each error says about a request without an earlier one. */
  lemma {:induction false} EntryErrorsExactly(req: Request, vsize: VSize, dice: nat)
    requires req.earlier.NoError? && !SendsAllOfReplaced(req)
    ensures var e := Built(req, vsize, dice).error;
            && (e.InvalidAmount? <==> SomeBadAmount(req.addressees, req.sendAll, req.dust))
            && (e.NoRecipients? <==> req.addressees == [])
            && (e.SendAllRequiresASingle? <==> req.sendAll && |req.addressees| > 1
                                               && !SomeBadAmount(req.addressees, req.sendAll, req.dust))
  {
    var f := LoopEnd(req, vsize);
    EntryErrorIs(req);
    if f.Left? {
      RunKeepsIndex(LoopParams(req, vsize), Start(req), MaxPasses(|req.utxos|));
      AssembledError(req, vsize, f, dice, EntryError(req));
      LateErrors(req, vsize, f, dice);
    }
    hide LoopEnd, SomeBadAmount, Assemble, Start;
  }

  /** The errors found after the loop are others. */
  lemma {:induction false} LateErrors(req: Request, vsize: VSize, f: Final, dice: nat)
    requires f.Left? && IndexInRange(f.state)
    ensures var r := Assemble(req, vsize, f, dice, NoError);
            && !r.error.InvalidAmount? && !r.error.NoRecipients? && !r.error.SendAllRequiresASingle?
            && (!f.insufficient ==>
                  && (r.error.NoAmountSpecified? <==> f.required == 0)
                  && (r.error.FeeRateIsBelowMinimum? <==> f.required > 0 && req.userRate < req.minRate)
                  && (r.error.InvalidReplacementFeeRate? <==>
                        && f.required > 0 && req.userRate >= req.minRate && req.isRbf
                        && !ReplacementPays(r.fee, r.vsize, r.feeRate, req.minRate, req.oldFee, req.oldRate)))
  {
    hide PlaceChange, ReportedRate, ReportedVSize, ReplacementPays, Sub64;
  }

  /** The closing check in plain numbers: the old fee (as read back) and the bandwidth are paid for, and the rate is
      higher than the old one (as read back). */
  ghost predicate Outpays(req: Request, fee: nat, size: nat) {
    && fee >= Low32(req.oldFee) + size * req.minRate / 1000
    && exists rate: nat :: rate > Low32(req.oldRate) && rate * size <= 1000 * fee
  }

  lemma {:induction false} ClosingCheckIs(req: Request, fee: nat, size: nat)
    requires 0 < size < TWO_TO_32 && req.minRate < TWO_TO_32 && 1000 * fee < TWO_TO_64
    ensures ReplacementPays(fee, size, ReportedRate(fee, size), req.minRate, req.oldFee, req.oldRate)
       <==> Outpays(req, fee, size)
  {
    BandwidthIs(req, size);
    RateArithmetic(fee, size, 0);
    hide Add64, Mul64;
    var q := ReportedRate(fee, size);
    hide ReportedRate;
    forall rate: nat | rate * size <= 1000 * fee
      ensures rate <= q
    {
      if rate > q {
        MulMonotone(size, q + 1, rate);
      }
    }
  }

  lemma {:induction false} BandwidthIs(req: Request, size: nat)
    requires size < TWO_TO_32 && req.minRate < TWO_TO_32
    ensures Add64(Low32(req.oldFee), Mul64(size, req.minRate) / 1000) == Low32(req.oldFee) + size * req.minRate / 1000
  {
    ProductBound(size, req.minRate);
    PlainSum(size * req.minRate, Low32(req.oldFee));
  }

  lemma {:induction false} PlainSum(product: nat, low: nat)
    requires product < TWO_TO_64 && low < TWO_TO_32
    ensures Wrap64(product) == product && Add64(low, product / 1000) == low + product / 1000
  {
  }

  /** A proper request that settles within the limit: which of the closing errors it gets. */
  lemma {:induction false} ClosingErrorsExactly(req: Request, vsize: VSize, dice: nat)
    requires FitsInWords(req, vsize) && WellFormed(req) && Proper(req)
    requires OutcomeOf(req, vsize).Settles? && WithinLimit(req, vsize)
    ensures var e, sent, fee := Built(req, vsize, dice).error, SettledAmount(req, vsize), SettledFee(req, vsize);
            && (e.NoAmountSpecified? <==> sent == 0)
            && (e.FeeRateIsBelowMinimum? <==> sent > 0 && req.userRate < req.minRate)
            && (e.InvalidReplacementFeeRate? <==>
                  && sent > 0 && req.userRate >= req.minRate && req.isRbf
                  && fee >= 0 && !Outpays(req, fee, VSizeOf(vsize, SettledTx(req, vsize))))
  {
    var p, f := LoopParams(req, vsize), LoopEnd(req, vsize);
    LoopEndsExactly(req, vsize);
    LoopEndIsSound(req, vsize);
    EntryErrorIs(req);
    RunKeepsIndex(p, Start(req), MaxPasses(|req.utxos|));
    if req.sendAll {
      SendAllUsesEverything(p, Start(req), MaxPasses(|req.utxos|));
    }
    hide LoopEnd, FitsInWords, Assemble, Start, EntryError, SomeBadAmount, SettledTx, SettledFee, SettledAmount,
         Outpays;
    SettledNumbers(req, vsize, f);
    LateErrors(req, vsize, f, dice);
    if f.required > 0 {
      SettledChecks(req, vsize, f, dice);
    }
    hide OutcomeOf, SoundExit;
  }

  lemma {:induction false} SettledChecks(req: Request, vsize: VSize, f: Final, dice: nat)
    requires FitsInWords(req, vsize) && LeftSoundly(req, vsize, f) && !f.insufficient
    requires Acceptable(req) && f.required > 0
    requires req.sendAll ==> f.state.used == Coins(req)
    ensures var r := Assemble(req, vsize, f, dice, NoError);
            ReplacementPays(r.fee, r.vsize, r.feeRate, req.minRate, req.oldFee, req.oldRate) <==>
              Outpays(req, f.fee, VSizeOf(vsize, f.state.tx))
  {
    var r := Assemble(req, vsize, f, dice, NoError);
    assert r.fee == f.fee;
    SpendsSomething(req, vsize, f);
    ExitFits(req, vsize, f);
    SizeIsReported(req, vsize, f, dice, NoError);
    FeeBound(req, vsize, f);
    hide Assemble, SoundExit, FitsInWords, ReplacementPays, Outpays, ReportedRate;
    FittingSize(req, vsize, f.state.tx);
    MinRateFits(req, vsize);
    ClosingCheckIs(req, r.fee, r.vsize);
  }

  lemma {:induction false} MinRateFits(req: Request, vsize: VSize)
    requires FitsInWords(req, vsize)
    ensures req.minRate < TWO_TO_32
  {
  }

  lemma {:induction false} FeeBound(req: Request, vsize: VSize, f: Final)
    requires LeftSoundly(req, vsize, f) && !f.insufficient && SizeFits(req, vsize, f.state.tx)
    ensures 1000 * f.fee < TWO_TO_64
  {
    assert Due(LoopParams(req, vsize), f.state.tx)
        == GetTxFee(VSizeOf(vsize, f.state.tx), req.minRate, req.userRate) + Low32(req.networkFee);
    hide Inv, PaidAtExit, Short;
  }

  /** The change output is put at the position the random number draws. */
  lemma {:induction false} ChangeIsPlacedByChance(req: Request, vsize: VSize, dice: nat)
    requires Built(req, vsize, dice).error.NoError? && Built(req, vsize, dice).haveChange
    ensures var r := Built(req, vsize, dice);
            |r.tx.outputs| > 0 && r.changeIndex == dice % |r.tx.outputs|
  {
    RunKeepsIndex(LoopParams(req, vsize), Start(req), MaxPasses(|req.utxos|));
    hide LoopEnd, EntryError, ReportedRate, ReportedVSize, FinalError;
  }

  // ----- which coins are spent -----

  /** The coins spent on entering the loop: the fewest that cover the amount on top of the replaced inputs. */
  lemma {:induction false} FirstCoinsCover(req: Request)
    requires req.picked.None? && !req.sendAll
    ensures var n, amount := |FirstCoins(req)|, SumOutputs(Paid(req.addressees));
            && (n < |Coins(req)| ==> Funds(req, n) >= amount)
            && forall k :: 0 <= k < n ==> Funds(req, k) < amount
  {
    var coins, total, amount := Coins(req), SumUtxos(Kept(req)), SumOutputs(Paid(req.addressees));
    CoverCountCovers(coins, total, amount, 0);
    hide CoverCount, SumUtxos;
    forall k | 0 <= k <= |coins|
      ensures Funds(req, k) == total + SumUtxos(coins[..k])
    {
      SumUtxosConcat(Kept(req), coins[..k]);
    }
  }

  lemma {:induction false} CoverCountCovers(utxos: seq<Utxo>, total: nat, required: nat, n: nat)
    requires n <= |utxos|
    ensures var r := CoverCount(utxos, total, required, n);
            && (r < |utxos| ==> total + SumUtxos(utxos[..r]) >= required)
            && forall k :: n <= k < r ==> total + SumUtxos(utxos[..k]) < required
    decreases |utxos| - n
  {
    hide SumUtxos;
    if n < |utxos| && total + SumUtxos(utxos[..n]) < required {
      CoverCountCovers(utxos, total, required, n + 1);
    }
  }

  /** The value of the replaced inputs and the first `n` coins. */
  ghost function Funds(req: Request, n: nat): nat
    requires n <= |Coins(req)|
  {
    SumUtxos(Kept(req) + Coins(req)[..n])
  }

  /** The fee of spending them to the recipients, and to a change output or not. */
  ghost function FeeWith(req: Request, vsize: VSize, n: nat, change: bool): nat
    requires n <= |Coins(req)|
  {
    var paid := Paid(req.addressees);
    var outputs := if change then paid + [TxOutput(req.changeScript, 0)] else paid;
    GetTxFee(vsize(SpendAll(Kept(req) + Coins(req)[..n]), Scripts(outputs)), req.minRate, req.userRate)
      + Low32(req.networkFee)
  }

  /** The first `n` coins pay amount and fee with `spare` to spare. */
  ghost predicate Pays(req: Request, vsize: VSize, n: nat, change: bool, spare: nat)
    requires n <= |Coins(req)|
  {
    Funds(req, n) >= SumOutputs(Paid(req.addressees)) + FeeWith(req, vsize, n, change) + spare
  }

  /** `n` is the fewest coins, from `from` on, that do. */
  ghost predicate FewestPaying(req: Request, vsize: VSize, from: nat, n: nat, change: bool, spare: nat) {
    && from <= n <= |Coins(req)| && Pays(req, vsize, n, change, spare)
    && forall k :: from <= k < n ==> !Pays(req, vsize, k, change, spare)
  }

  /** The coins to spend: the fewest that pay. If they leave less than dust there is no change; otherwise there
      is, and it takes the fewest coins, from there on, with which the change is not dust. A change output of a
      replaced transaction is there from the start. */
  ghost predicate Chosen(req: Request, vsize: VSize, n: nat, change: bool) {
    if req.isRbf && req.hadChange then change && FewestPaying(req, vsize, 0, n, true, req.dust)
    else exists m ::
      && FewestPaying(req, vsize, 0, m, false, 0)
      && if Pays(req, vsize, m, false, req.dust) then change && FewestPaying(req, vsize, m, n, true, req.dust)
         else !change && n == m
  }

  lemma {:induction false} PaysIsCovers(req: Request, vsize: VSize, n: nat, change: bool)
    requires n <= |Coins(req)|
    ensures var p, b := LoopParams(req, vsize), LoopBase(req);
            && Candidates(p, b) == Coins(req) && Total(p, b, n) == Funds(req, n)
            && p.required == SumOutputs(Paid(req.addressees))
            && (Covers(p, b, n, change) <==> Pays(req, vsize, n, change, 0))
            && (CoversDust(p, b, n, change) <==> Pays(req, vsize, n, change, req.dust))
  {
    CandidatesAreCoins(req, vsize);
    hide Candidates, Coins, Paid, SumUtxos, SumOutputs;
  }

  lemma {:induction false} FewestIsFirst(req: Request, vsize: VSize, from: nat, change: bool)
    requires from <= |Coins(req)|
    ensures var p, b := LoopParams(req, vsize), LoopBase(req);
            && Candidates(p, b) == Coins(req)
            && var n := FirstEnough(p, b, from, change);
               n <= |Coins(req)| ==> FewestPaying(req, vsize, from, n, change, if change then req.dust else 0)
  {
    var p, b := LoopParams(req, vsize), LoopBase(req);
    CandidatesAreCoins(req, vsize);
    var n := FirstEnough(p, b, from, change);
    hide FirstEnough, Covers, CoversDust, Pays, LoopParams, LoopBase, Coins, Candidates;
    if n <= |Coins(req)| {
      PaysIsCovers(req, vsize, n, change);
      var spare := if change then req.dust else 0;
      forall k | from <= k < n
        ensures !Pays(req, vsize, k, change, spare)
      {
        PaysIsCovers(req, vsize, k, change);
        assert !Enough(p, b, k, change);
      }
    }
  }

  /** The coins the loop settles on from no coins at all. */
  lemma {:induction false} OutcomeIsChosen(req: Request, vsize: VSize)
    requires !req.sendAll
    ensures var p, b, change := LoopParams(req, vsize), LoopBase(req), req.isRbf && req.hadChange;
            var w := LoopOutcome(p, b, 0, change);
            w.Settles? ==> Chosen(req, vsize, w.coins, w.withChange)
  {
    var p, b, change := LoopParams(req, vsize), LoopBase(req), req.isRbf && req.hadChange;
    CandidatesAreCoins(req, vsize);
    assert !p.sendAll;
    hide FirstEnough, Covers, CoversDust, Pays, LoopParams, LoopBase, Coins, Candidates, FewestPaying, Adding;
    FewestIsFirst(req, vsize, 0, change);
    var m := FirstEnough(p, b, 0, change);
    if !change && m <= |Coins(req)| {
      PaysIsCovers(req, vsize, m, false);
      FewestIsFirst(req, vsize, m, true);
    }
  }

  /** Automatic selection spends exactly the chosen coins, counted from none: the amount alone, the fees on the way
      and the head start of the first selection make no difference. */
  lemma {:induction false} CoinsAreChosen(req: Request, vsize: VSize, dice: nat)
    requires FitsInWords(req, vsize) && WellFormed(req) && req.picked.None? && !req.sendAll
    requires Built(req, vsize, dice).error.NoError?
    ensures var r := Built(req, vsize, dice);
            && |r.used| <= |Coins(req)| && r.used == Coins(req)[..|r.used|]
            && Chosen(req, vsize, |r.used|, r.haveChange)
  {
    BuiltExactly(req, vsize, dice);
    CandidatesAreCoins(req, vsize);
    FirstCoinsDoNotMatter(req, vsize);
    OutcomeIsChosen(req, vsize);
    hide FitsInWords, Built, OutcomeOf, LoopOutcome, LoopParams, LoopBase, Coins, Candidates, Chosen, SettledTx,
         SettledFee, SettledAmount, Outbids, Proper;
  }

  /** The loop would settle on the same coins and change from none. */
  lemma {:induction false} FirstCoinsDoNotMatter(req: Request, vsize: VSize)
    requires req.picked.None? && !req.sendAll
    ensures var p, b := LoopParams(req, vsize), LoopBase(req);
            SameSelection(LoopOutcome(p, b, 0, req.isRbf && req.hadChange), OutcomeOf(req, vsize))
  {
    var p, b, n := LoopParams(req, vsize), LoopBase(req), |FirstCoins(req)|;
    CandidatesAreCoins(req, vsize);
    FirstCoinsCover(req);
    assert !p.sendAll;
    hide LoopOutcome, FirstCoins, Coins, Candidates, Covers, LoopParams, LoopBase, Total;
    forall k | 0 <= k < n
      ensures Total(p, b, k) < p.required
    {
      PaysIsCovers(req, vsize, k, false);
    }
    HeadStartIsHarmless(p, b, n, req.isRbf && req.hadChange);
  }

  // ----- payable but refused -----

  /** Some number of coins covers amount and fee of a transaction without change. */
  ghost predicate Payable(req: Request, vsize: VSize) {
    PayableFrom(LoopParams(req, vsize), LoopBase(req), |FirstCoins(req)|)
  }

  /** A change output is never dropped again: a request that could be paid for is refused for lack of funds if
      and only if the change output is a trap. */
  lemma {:induction false} PayableIsRefusedExactly(req: Request, vsize: VSize, dice: nat)
    requires FitsInWords(req, vsize) && WellFormed(req) && Proper(req)
    requires !req.sendAll && !(req.isRbf && req.hadChange)
    requires WithinLimit(req, vsize) && Reports(LoopParams(req, vsize))
    ensures Built(req, vsize, dice).error.InsufficientFunds? && Payable(req, vsize)
       <==> exists m :: TrapAt(LoopParams(req, vsize), LoopBase(req), |FirstCoins(req)|, m)
  {
    var p, b, n := LoopParams(req, vsize), LoopBase(req), |FirstCoins(req)|;
    CandidatesAreCoins(req, vsize);
    ShortButPayable(p, b, n);
    hide FitsInWords, Built, SomeBadAmount, OutcomeWithout, Shortage, Reports, TrapAt, PayableFrom;
    ShortageIsHonest(req, vsize, dice);
  }

  // ----- one coin -----

  /** Paying one recipient from one coin. */
  function ExampleRequest(amount: nat, coin: nat): Request {
    Request([Addressee("payee", Some(amount))], map[BTC := [Utxo([1, 2, 3], 0, coin, 5, 0)]], None,
            false, false, false, [], false, "change", 1000, 1000, 0, 0, 0, 546, NoError)
  }

  lemma {:induction false} ExampleSums(amount: nat, coin: nat)
    requires 546 <= amount
    ensures var req := ExampleRequest(amount, coin);
            && |Coins(req)| == 1 && SumUtxos(Coins(req)) == coin && Kept(req) == []
            && |Paid(req.addressees)| == 1 && SumOutputs(Paid(req.addressees)) == amount
            && Acceptable(req) && FirstCoins(req) == Coins(req)
  {
    var req := ExampleRequest(amount, coin);
    var u, payee := Coins(req)[0], TxOutput("payee", amount);
    AppendOutput([], payee);
    assert Paid(req.addressees) == [] + [payee];
    AppendUtxo([], u);
    assert Coins(req) == [] + [u];
    assert !SomeBadAmount(req.addressees, false, 546);
    assert Coins(req)[..0] == [];
    CoverCountIs(Coins(req), 0, amount, 0, 1);
  }

  lemma {:induction false} ExampleSize(amount: nat, coin: nat, n: nat, change: bool)
    requires 546 <= amount && n <= 1
    ensures var req := ExampleRequest(amount, coin);
            var p, b := LoopParams(req, LinearSize), LoopBase(req);
            var size := 10 + 100 * n + (if change then 68 else 34);
            && |Candidates(p, b)| == 1 && VSizeOf(LinearSize, Visited(p, b, n, change)) == size
            && Due(p, Visited(p, b, n, change)) == size && Total(p, b, 1) == coin
  {
    var req := ExampleRequest(amount, coin);
    ExampleSums(amount, coin);
    CandidatesAreCoins(req, LinearSize);
    hide Paid, Coins, FirstCoins, SomeBadAmount, SumUtxos, SumOutputs;
    var p, b := LoopParams(req, LinearSize), LoopBase(req);
    LinearSizeOf(Visited(p, b, n, change));
    assert [] + Coins(req)[..1] == Coins(req);
  }

  lemma {:induction false} ExampleFits(amount: nat, coin: nat)
    requires 546 <= amount <= MAX_MONEY && coin <= MAX_MONEY
    ensures FitsInWords(ExampleRequest(amount, coin), LinearSize)
  {
    var req := ExampleRequest(amount, coin);
    var p, b := LoopParams(req, LinearSize), LoopBase(req);
    ExampleSums(amount, coin);
    ExampleSize(amount, coin, 1, false);
    hide Paid, Coins, FirstCoins, SomeBadAmount, SumUtxos, SumOutputs, Visited, LinearSize, FitsInWords;
    forall n: nat, change | MaySpend(p, b, n)
      ensures 0 < VSizeOf(LinearSize, Visited(p, b, n, change)) <= MAX_VSIZE
    {
      ExampleSize(amount, coin, n, change);
    }
    RealRequestsFit(req, LinearSize);
  }

  /** The fee is 144 without change and 178 with it. */
  lemma {:induction false} ExampleOutcome(amount: nat, coin: nat)
    requires 546 <= amount
    ensures var w := OutcomeOf(ExampleRequest(amount, coin), LinearSize);
            && w.passes <= 3
            && (w.Settles? <==> amount + 144 <= coin < amount + 690 || amount + 724 <= coin)
            && (w.Settles? ==> (w.withChange <==> amount + 724 <= coin))
  {
    var req := ExampleRequest(amount, coin);
    var p, b := LoopParams(req, LinearSize), LoopBase(req);
    ExampleSums(amount, coin);
    ExampleSize(amount, coin, 1, false);
    ExampleSize(amount, coin, 1, true);
    PassesAreBounded(p, b, 1, false);
    hide Paid, Coins, SomeBadAmount, SumUtxos, SumOutputs, Visited, LinearSize, Candidates, Due, Total, Adding;
    assert FirstEnough(p, b, 1, false) == if coin >= amount + 144 then 1 else 2;
    assert FirstEnough(p, b, 1, true) == if coin >= amount + 724 then 1 else 2;
  }

  /** One recipient, one coin, a size linear in inputs and outputs: exactly which coins will do. From 690 to 723
      above the amount the coin pays amount and fee, and is refused. */
  lemma {:induction false} OneCoinExactly(amount: nat, coin: nat, dice: nat)
    requires 546 <= amount <= MAX_MONEY && coin <= MAX_MONEY
    ensures var req := ExampleRequest(amount, coin);
            var r := Built(req, LinearSize, dice);
            && FitsInWords(req, LinearSize) && WellFormed(req)
            && (Payable(req, LinearSize) <==> amount + 144 <= coin)
            && (if amount + 144 <= coin < amount + 690 || amount + 724 <= coin
                then r.error.NoError? && SoundTx(req, LinearSize, r) && (r.haveChange <==> amount + 724 <= coin)
                else r.error.InsufficientFunds?)
  {
    var req := ExampleRequest(amount, coin);
    ExampleSums(amount, coin);
    ExampleFits(amount, coin);
    ExampleSize(amount, coin, 1, false);
    ExampleOutcome(amount, coin);
    assert Payable(req, LinearSize) <==> Covers(LoopParams(req, LinearSize), LoopBase(req), 1, false);
    hide Built, SoundTx, FitsInWords, SomeBadAmount, Paid, Coins, OutcomeOf, SettledTx, Visited, LinearSize, Total,
         Payable;
    if OutcomeOf(req, LinearSize).Settles? {
      BuiltExactly(req, LinearSize, dice);
      BuiltIsSound(req, LinearSize, dice);
    } else {
      ShortageIsHonest(req, LinearSize, dice);
    }
  }

  /** A coin of 100700 covers an amount of 100000 and the fee of 144, and is refused. */
  lemma {:induction false} PayableAndRefused(dice: nat)
    ensures var req := ExampleRequest(100_000, 100_700);
            Payable(req, LinearSize) && Built(req, LinearSize, dice).error.InsufficientFunds?
  {
    OneCoinExactly(100_000, 100_700, dice);
  }
}
