/** Whom a fee bump pays: a replacement the recipients and the change address of the old transaction, a child
    the wallet itself. */
module BumpPayments {
  import opened Options
  import opened Transactions
  import opened FeeLoop
  import opened Settling
  import opened CreateTransaction
  import opened TransactionBuilder
  import opened BuildOutcome
  import opened BumpTransaction

  // ----- the old outputs -----

  function Payments(outs: seq<Endpoint>): (r: seq<TxOutput>)
    ensures |r| == |outs|
    ensures forall i :: 0 <= i < |r| ==> r[i] == TxOutput(outs[i].address, outs[i].satoshi)
  {
    seq(|outs|, i requires 0 <= i < |outs| => TxOutput(outs[i].address, outs[i].satoshi))
  }

  /** All old payments but the one at `k`, in order. */
  function PaymentsBut(outs: seq<Endpoint>, k: nat): seq<TxOutput>
    requires k < |outs|
  {
    Payments(outs)[..k] + Payments(outs)[k + 1..]
  }

  /** What the recipients of a replacement are paid. */
  lemma {:induction false} RecipientsArePaid(outs: seq<Endpoint>)
    ensures var paid, k := Paid(ToAddressees(Recipients(outs))), FirstRelevant(outs);
            paid == if k.Some? then PaymentsBut(outs, k.value) else Payments(outs)
  {
    hide FirstRelevant;
  }

  // ----- what sending everything pays -----

  /** One output gets everything but the fee, and there is no change. */
  ghost predicate PaysAllTo(r: TxResult, spent: nat, script: string) {
    r.tx.outputs == [TxOutput(script, r.required)] && r.required == spent - r.fee
  }

  lemma {:induction false} SendAllPays(req: Request, vsize: VSize, dice: nat)
    requires FitsInWords(req, vsize) && WellFormed(req) && req.sendAll
    requires Built(req, vsize, dice).error.NoError?
    ensures |req.addressees| == 1
    ensures PaysAllTo(Built(req, vsize, dice), SumUtxos(Kept(req) + Coins(req)), req.addressees[0].script)
  {
    var r := Built(req, vsize, dice);
    BuiltIsSound(req, vsize, dice);
    BuiltExactly(req, vsize, dice);
    SendAllSettles(req, vsize);
    CandidatesAreCoins(req, vsize);
    hide FitsInWords, Built, OutcomeOf, SettledTx, SettledFee, SettledAmount, Outbids, SomeBadAmount, FeeIsTight,
         RateIsKept, SpendsInOrder, Replaces, Candidates, Coins;
    assert !r.haveChange && r.used == Coins(req)[..|Coins(req)|] == Coins(req);
    AppendOutput([], r.tx.outputs[0]);
    assert r.tx.outputs == [] + [r.tx.outputs[0]];
  }

  lemma {:induction false} SendAllSettles(req: Request, vsize: VSize)
    requires req.sendAll
    ensures var w := OutcomeOf(req, vsize);
            w.Settles? ==> w.coins == |Candidates(LoopParams(req, vsize), LoopBase(req))| && !w.withChange
  {
    hide Visited, Due;
  }

  // ----- the child -----

  /** A child sends everything it spends, less the fee, to the wallet's own address if the caller named no
      recipient, and to that recipient otherwise. */
  lemma {:induction false} ChildPaysWallet(prev: PrevTx, k: nat, prevVSize: nat, details: Request, ownAddress: string,
                                           vsize: VSize, dice: nat)
    requires k < |prev.outputs|
    requires FitsInWords(ChildRequest(prev, k, prevVSize, details, ownAddress), vsize)
    requires Built(ChildRequest(prev, k, prevVSize, details, ownAddress), vsize, dice).error.NoError?
    ensures var r := Built(ChildRequest(prev, k, prevVSize, details, ownAddress), vsize, dice);
            var spent := if details.picked.Some? then SumUtxos(details.picked.value) else prev.outputs[k].satoshi;
            var script := if details.addressees == [] then ownAddress else details.addressees[0].script;
            PaysAllTo(r, spent, script)
  {
    var req := ChildRequest(prev, k, prevVSize, details, ownAddress);
    hide FitsInWords, Built, NetworkFee, PaysAllTo;
    SendAllPays(req, vsize, dice);
    assert [] + Coins(req) == Coins(req);
    if details.picked.None? {
      AppendUtxo([], ChildCoin(prev, k));
      assert Coins(req) == [] + [ChildCoin(prev, k)];
    }
  }

  // ----- the replacement -----

  lemma {:induction false} HadChangeStays(req: Request, vsize: VSize)
    requires req.isRbf && req.hadChange && !req.sendAll
    ensures OutcomeOf(req, vsize).Settles? ==> OutcomeOf(req, vsize).withChange
  {
    hide Visited, Due, FirstEnough, Adding;
  }

  /** The only output of the old transaction is ours: all of it goes to the same address again. */
  lemma {:induction false} RedepositPaysBack(prev: PrevTx, coins: seq<Utxo>, details: Request, vsize: VSize, dice: nat)
    requires |prev.outputs| == 1 && prev.outputs[0].isRelevant
    requires FitsInWords(ReplacementRequest(prev, coins, details), vsize)
    requires Built(ReplacementRequest(prev, coins, details), vsize, dice).error.NoError?
    ensures var req := ReplacementRequest(prev, coins, details);
            PaysAllTo(Built(req, vsize, dice), SumUtxos(coins + Coins(req)), prev.outputs[0].address)
  {
    var req := ReplacementRequest(prev, coins, details);
    assert FirstRelevant(prev.outputs) == Some(0);
    assert Recipients(prev.outputs) == [];
    hide FitsInWords, Built, PaysAllTo, FirstRelevant, Recipients;
    SendAllPays(req, vsize, dice);
  }

  /** Otherwise every old payment but the change is made again, and only the change is new. It goes to the address
      of the first old output that is ours; if there was none, to a new change address or not at all. */
  ghost predicate PaysAgain(prev: PrevTx, details: Request, r: TxResult) {
    var k := FirstRelevant(prev.outputs);
    var again := if k.Some? then PaymentsBut(prev.outputs, k.value) else Payments(prev.outputs);
    var script := if k.Some? then prev.outputs[k.value].address else details.changeScript;
    && (k.Some? ==> r.haveChange)
    && (!r.haveChange ==> r.tx.outputs == again)
    && (r.haveChange ==> multiset(r.tx.outputs) == multiset(again) + multiset{TxOutput(script, r.changeAmount)})
  }

  lemma {:induction false} ReplacementPaysAgain(prev: PrevTx, coins: seq<Utxo>, details: Request, vsize: VSize,
                                                dice: nat)
    requires !(|prev.outputs| == 1 && prev.outputs[0].isRelevant)
    requires FitsInWords(ReplacementRequest(prev, coins, details), vsize)
    requires Built(ReplacementRequest(prev, coins, details), vsize, dice).error.NoError?
    ensures PaysAgain(prev, details, Built(ReplacementRequest(prev, coins, details), vsize, dice))
  {
    var req := ReplacementRequest(prev, coins, details);
    assert FirstRelevant(prev.outputs).Some? ==> Recipients(prev.outputs) != [];
    RecipientsArePaid(prev.outputs);
    hide FitsInWords, Built, FirstRelevant, Recipients, OutcomeOf, Buildable, SoundTx;
    BuiltIsSound(req, vsize, dice);
    BuiltExactly(req, vsize, dice);
    assert Proper(req) by {
      BuildableIsProper(req, vsize);
    }
    SoundPays(req, vsize, Built(req, vsize, dice));
    if FirstRelevant(prev.outputs).Some? {
      HadChangeStays(req, vsize);
    }
  }

  lemma {:induction false} BuildableIsProper(req: Request, vsize: VSize)
    requires Buildable(req, vsize)
    ensures Proper(req) && OutcomeOf(req, vsize).Settles?
  {
  }

  lemma {:induction false} SoundPays(req: Request, vsize: VSize, r: TxResult)
    requires SoundTx(req, vsize, r) && !req.sendAll
    ensures !r.haveChange ==> r.tx.outputs == Paid(req.addressees)
    ensures r.haveChange ==>
              multiset(r.tx.outputs)
                == multiset(Paid(req.addressees)) + multiset{TxOutput(req.changeScript, r.changeAmount)}
  {
  }
}
