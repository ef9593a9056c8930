/** The Bitcoin transaction builder as a whole: the method, the function it computes, and what that
    function guarantees for every request. */
module TransactionBuilder {
  import opened Amounts
  import opened Transactions
  import opened FeeLoop
  import opened FeeLoopProgress
  import opened CreateTransaction

  /** Errors about the number of recipients; an earlier error wins. */
  function RecipientError(req: Request): TxError {
    var e := if |req.addressees| == 0 then SetError(req.earlier, NoRecipients) else req.earlier;
    if req.sendAll && |req.addressees| > 1 then SetError(e, SendAllRequiresASingle) else e
  }

  /** The error found before the loop: an unusable amount overrides anything earlier. */
  function EntryError(req: Request): TxError {
    if SomeBadAmount(req.addressees, req.sendAll, req.dust) then InvalidAmount else RecipientError(req)
  }

  /** The coins spent when the loop is entered. */
  function FirstCoins(req: Request): (r: seq<Utxo>)
    ensures r <= Coins(req)
  {
    if req.picked.Some? || req.sendAll then Coins(req)
    else Coins(req)[..CoverCount(Coins(req), SumUtxos(Kept(req)), SumOutputs(Paid(req.addressees)), 0)]
  }

  /** The loop's initial state. */
  function Start(req: Request): Loop {
    var used := FirstCoins(req);
    var haveChange := req.isRbf && req.hadChange;
    Loop(Tx(SpendAll(Kept(req)) + SpendAll(used),
            Paid(req.addressees) + (if haveChange then [TxOutput(req.changeScript, 0)] else [])),
         SumUtxos(Kept(req)) + SumUtxos(used), used, haveChange,
         if haveChange then |req.addressees| else NO_CHANGE_INDEX, false)
  }

  predicate IndexInRange(s: Loop) {
    s.haveChange ==> s.changeIndex < |s.tx.outputs|
  }

  lemma {:induction false} RunKeepsIndex(p: Params, s: Loop, passes: nat)
    requires p.numAddressees <= |s.tx.outputs| && IndexInRange(s)
    requires Run(p, s, passes).Left?
    ensures IndexInRange(Run(p, s, passes).state)
    decreases passes
  {
    if OnePass(p, s).Again? {
      RunKeepsIndex(p, OnePass(p, s).next, passes - 1);
    }
  }

  /** How the loop ends for a request. */
  function LoopEnd(req: Request, vsize: VSize): Final {
    Run(LoopParams(req, vsize), Start(req), MaxPasses(|req.utxos|))
  }

  /** What the builder returns. */
  function Built(req: Request, vsize: VSize, dice: nat): TxResult {
    if req.isRbf && req.sendAll && !req.isRedeposit then Failed(req.earlier)
    else
      var f := LoopEnd(req, vsize);
      if !f.Left? then Failed(EntryError(req))
      else
        RunKeepsIndex(LoopParams(req, vsize), Start(req), MaxPasses(|req.utxos|));
        Assemble(req, vsize, f, dice, EntryError(req))
  }

  // ----- the method -----

  /** The two sums formed before the loop do not wrap. */
  ghost predicate SumsFit(req: Request) {
    && SumUtxos(Kept(req)) + SumUtxos(Coins(req)) < TWO_TO_64
    && SumOutputs(Paid(req.addressees)) < TWO_TO_64
  }

  /** Adds the coins picked by the user, or collects coins until the amount is covered. */
  method SelectCoins(req: Request, tx: Tx, total0: nat, required: nat)
    returns (tx': Tx, total: nat, available: nat, used: seq<Utxo>)
    ensures tx' == tx.(inputs := tx.inputs + SpendAll(used))
    ensures total0 + SumUtxos(Coins(req)) < TWO_TO_64
            && total0 == SumUtxos(Kept(req)) && required == SumOutputs(Paid(req.addressees)) ==>
              && used == FirstCoins(req)
              && total == total0 + SumUtxos(used) && available == total0 + SumUtxos(Coins(req))
  {
    if req.picked.Some? {
      tx', total := AddUtxos(tx, total0, req.picked.value);
      available, used := total, req.picked.value;
    } else if BTC in req.utxos {
      tx', total, available, used := CollectUtxos(tx, total0, req.utxos[BTC], req.sendAll, required);
      assert req.utxos[BTC][..|used|] == used;
    } else {
      tx', total, available, used := tx, total0, total0, [];
    }
  }

  /** The parts fixed by the request: inputs being replaced and outputs to the addressees. */
  method AddFixedParts(req: Request) returns (tx: Tx, total: nat, required: nat, error: TxError)
    ensures tx == Tx(SpendAll(Kept(req)), Paid(req.addressees))
    ensures SumsFit(req) ==> total == SumUtxos(Kept(req)) && required == SumOutputs(Paid(req.addressees))
    ensures error == EntryError(req)
  {
    tx, total := AddUtxos(Tx([], []), 0, Kept(req));
    tx, required, error := AddAddressees(tx, req.addressees, req.sendAll, req.dust, RecipientError(req));
    EmptyPlus(SpendAll(Kept(req)));
    EmptyPlus(Paid(req.addressees));
  }

  lemma {:induction false} EmptyPlus<T>(s: seq<T>)
    ensures [] + s == s
  {
  }

  /** Inputs and outputs as they stand when the loop is entered. */
  method PrepareLoop(req: Request, vsize: VSize) returns (s: Loop, p: Params, error: TxError)
    ensures |s.tx.outputs| >= |req.addressees| == p.numAddressees && IndexInRange(s) && !s.force
    ensures SumsFit(req) ==> s == Start(req) && p == LoopParams(req, vsize)
    ensures error == EntryError(req)
  {
    var tx, total, required, e := AddFixedParts(req);
    error := e;
    var used: seq<Utxo>, available: nat;
    tx, total, available, used := SelectCoins(req, tx, total, required);
    var outputs := tx.outputs;
    if req.isRbf && req.hadChange {
      tx := tx.(outputs := outputs + [TxOutput(req.changeScript, 0)]);
      s := Loop(tx, total, used, true, |outputs|, false);
    } else {
      s := Loop(tx, total, used, false, NO_CHANGE_INDEX, false);
      assert outputs + [] == outputs;
    }
    p := MakeParams(req, vsize, required, available);
  }

  /** `create_tx_outputs` for Bitcoin, with the conclusions of the enclosing function. `dice` is the
      random number drawn to place the change output. */
  method CreateTxOutputs(req: Request, vsize: VSize, dice: nat) returns (r: TxResult)
    ensures SumsFit(req) ==> r == Built(req, vsize, dice)
  {
    if req.isRbf && req.sendAll && !req.isRedeposit {
      return Failed(req.earlier);
    }
    var s, p, error := PrepareLoop(req, vsize);
    var passes := MaxPasses(|req.utxos|);
    var f := RunFeeLoop(p, s.tx, s.total, s.used, s.haveChange, s.changeIndex, passes);
    assert f == Run(p, s, passes);
    if !f.Left? {
      return Failed(error);
    }
    RunKeepsIndex(p, s, passes);
    r := Assemble(req, vsize, f, dice, error);
  }

  // ----- what is built -----

  /** A replacement without other recipients has no separate change output. */
  predicate WellFormed(req: Request) {
    req.isRbf && req.isRedeposit ==> !req.hadChange
  }

  lemma {:induction false} StartSatisfiesInv(req: Request, vsize: VSize)
    requires WellFormed(req)
    requires req.isRbf && req.sendAll ==> req.isRedeposit
    ensures Inv(LoopParams(req, vsize), LoopBase(req), Start(req))
  {
    hide InputsMatch;
    StartInputsMatch(req, vsize);
    assert Paid(req.addressees) + [] == Paid(req.addressees);
  }

  lemma {:induction false} StartInputsMatch(req: Request, vsize: VSize)
    ensures InputsMatch(LoopParams(req, vsize), LoopBase(req), Start(req))
  {
    var used := FirstCoins(req);
    SumUtxosConcat(Kept(req), used);
    SpendAllConcat(Kept(req), used);
  }

  lemma {:induction false} LoopEndIsSound(req: Request, vsize: VSize)
    requires FitsInWords(req, vsize) && WellFormed(req)
    requires req.isRbf && req.sendAll ==> req.isRedeposit
    requires LoopEnd(req, vsize).Left?
    ensures LeftSoundly(req, vsize, LoopEnd(req, vsize))
  {
    LoopFits(req, vsize);
    StartSatisfiesInv(req, vsize);
    RunIsSound(LoopParams(req, vsize), LoopBase(req), Start(req), MaxPasses(|req.utxos|));
  }

  lemma {:induction false} SendAllUsesEverything(p: Params, s: Loop, passes: nat)
    requires p.numAddressees <= |s.tx.outputs| && p.sendAll
    requires Run(p, s, passes).Left?
    ensures Run(p, s, passes).state.used == s.used
  {
  }

  /** A transaction built without error conserves value, pays everyone in full and nobody dust, spends its
      signing inputs in order, pays a tight fee, keeps the requested rate and pays for what it replaces. */
  lemma {:induction false} BuiltIsSound(req: Request, vsize: VSize, dice: nat)
    requires FitsInWords(req, vsize) && WellFormed(req)
    requires Built(req, vsize, dice).error.NoError?
    ensures Acceptable(req) && SoundTx(req, vsize, Built(req, vsize, dice))
  {
    var f := LoopEnd(req, vsize);
    LoopEndIsSound(req, vsize);
    NoErrorMeans(req, vsize, f, dice, EntryError(req));
    if req.sendAll {
      SendAllUsesEverything(LoopParams(req, vsize), Start(req), MaxPasses(|req.utxos|));
    }
    AssembledIsSound(req, vsize, f, dice, EntryError(req));
  }
}
