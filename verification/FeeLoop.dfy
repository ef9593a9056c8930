/** The loop that settles inputs, change output and fee of a Bitcoin transaction against each other. */
module FeeLoop {
  import opened Amounts
  import opened Transactions

  const BTC := "btc"
  const NO_CHANGE_INDEX: nat := 0xffff_ffff

  /** `get_tx_fee` on a transaction; the loop is analysed for every such function. */
  type FeeFunction = (seq<TxInput>, multiset<string>) -> nat

  /** What stays fixed while the loop runs. `utxos` is keyed by asset. */
  datatype Params = Params(
    txFee: FeeFunction, networkFee: nat, dust: nat,
    sendAll: bool, manual: bool, numAddressees: nat, utxos: map<string, seq<Utxo>>,
    changeScript: string, required: nat, available: nat)

  /** What a pass may change. */
  datatype Loop = Loop(tx: Tx, total: nat, used: seq<Utxo>, haveChange: bool, changeIndex: nat, force: bool)

  datatype Pass =
    | Again(next: Loop)
    | Leave(fee: nat, required: nat, state: Loop, insufficient: bool)
    | Throw(at: Loop)

  /** How the loop ended: left by itself, raised an exception, or ran into the pass limit. */
  datatype Final =
    | Left(fee: nat, required: nat, state: Loop, insufficient: bool)
    | Threw(at: Loop)
    | Capped(at: Loop)

  function TxFee(p: Params, tx: Tx): nat {
    p.txFee(tx.inputs, Scripts(tx.outputs))
  }

  function BtcUtxos(p: Params): seq<Utxo> {
    if BTC in p.utxos then p.utxos[BTC] else []
  }

  function AddInput(s: Loop, u: Utxo): Loop {
    s.(tx := s.tx.(inputs := s.tx.inputs + [Spend(u)]),
       total := Add64(s.total, u.satoshi), used := s.used + [u], force := false)
  }

  function AddChange(p: Params, s: Loop): Loop {
    s.(tx := s.tx.(outputs := s.tx.outputs + [TxOutput(p.changeScript, 0)]),
       haveChange := true, changeIndex := |s.tx.outputs|)
  }

  /** One pass, with the wrapping arithmetic of the source. */
  function OnePass(p: Params, s: Loop): Pass
    requires p.numAddressees <= |s.tx.outputs|
  {
    var fee := Add64(TxFee(p, s.tx), p.networkFee);
    if p.sendAll then
      if p.numAddressees == 0 then Throw(s)
      else if p.available < Add64(fee, p.dust) then Leave(fee, p.required, s, true)
      else
        var all := Sub64(p.available, fee);
        Leave(fee, all, s.(tx := s.tx.(outputs := SetAmount(s.tx.outputs, 0, all))), false)
    else
      var need := Add64(p.required, fee);
      if s.total < need || s.force then
        if p.manual || p.utxos == map[] then Leave(fee, p.required, s.(force := false), true)
        else if BTC !in p.utxos then Throw(s.(force := false))
        else if |s.used| == |p.utxos[BTC]| then Leave(fee, p.required, s.(force := false), true)
        else if |s.used| > |p.utxos[BTC]| then Throw(s.(force := false))
        else Again(AddInput(s, p.utxos[BTC][|s.used|]))
      else
        var change := Sub64(s.total, need);
        if !s.haveChange && change < p.dust then Leave(Add64(fee, change), p.required, s, false)
        else if s.haveChange && change >= p.dust then Leave(fee, p.required, s, false)
        else if s.haveChange then Again(s.(force := true))
        else Again(AddChange(p, s))
  }

  /** At most `passes` passes from `s`. */
  function Run(p: Params, s: Loop, passes: nat): Final
    requires p.numAddressees <= |s.tx.outputs|
    decreases passes
  {
    if passes == 0 then Capped(s)
    else match OnePass(p, s)
      case Again(next) => Run(p, next, passes - 1)
      case Leave(fee, required, state, insufficient) => Left(fee, required, state, insufficient)
      case Throw(at) => Threw(at)
  }

  /** The loop itself: local variables updated pass by pass. */
  method RunFeeLoop(p: Params, tx0: Tx, total0: nat, used0: seq<Utxo>,
                    haveChange0: bool, changeIndex0: nat, maxPasses: nat) returns (r: Final)
    requires p.numAddressees <= |tx0.outputs|
    ensures r == Run(p, Loop(tx0, total0, used0, haveChange0, changeIndex0, false), maxPasses)
  {
    hide Add64, Sub64, SetAmount, TxFee, Spend;
    var tx, total, used := tx0, total0, used0;
    var haveChange, force := haveChange0, false;
    var changeIndex: nat := changeIndex0;
    ghost var start := Loop(tx0, total0, used0, haveChange0, changeIndex0, false);
    var i := 0;
    while i < maxPasses
      invariant i <= maxPasses
      invariant p.numAddressees <= |tx.outputs|
      invariant Run(p, start, maxPasses)
             == Run(p, Loop(tx, total, used, haveChange, changeIndex, force), maxPasses - i)
    {
      var fee := TxFee(p, tx);
      fee := Add64(fee, p.networkFee);
      if p.sendAll {
        if p.numAddressees == 0 {
          return Threw(Loop(tx, total, used, haveChange, changeIndex, force));
        }
        var required, insufficient := p.required, true;
        if p.available >= Add64(fee, p.dust) {
          required, insufficient := Sub64(p.available, fee), false;
          tx := tx.(outputs := SetAmount(tx.outputs, 0, required));
        }
        return Left(fee, required, Loop(tx, total, used, haveChange, changeIndex, force), insufficient);
      }
      var requiredWithFee := Add64(p.required, fee);
      if total < requiredWithFee || force {
        force := false;
        if p.manual || p.utxos == map[] {
          return Left(fee, p.required, Loop(tx, total, used, haveChange, changeIndex, force), true);
        } else if BTC !in p.utxos {
          return Threw(Loop(tx, total, used, haveChange, changeIndex, force));
        } else if |used| == |p.utxos[BTC]| {
          return Left(fee, p.required, Loop(tx, total, used, haveChange, changeIndex, force), true);
        } else if |used| > |p.utxos[BTC]| {
          return Threw(Loop(tx, total, used, haveChange, changeIndex, force));
        }
        var utxo := p.utxos[BTC][|used|];
        tx := tx.(inputs := tx.inputs + [Spend(utxo)]);
        total := Add64(total, utxo.satoshi);
        used := used + [utxo];
      } else {
        var change := Sub64(total, requiredWithFee);
        if (!haveChange && change < p.dust) || (haveChange && change >= p.dust) {
          if !haveChange {
            fee := Add64(fee, change);
          }
          return Left(fee, p.required, Loop(tx, total, used, haveChange, changeIndex, force), false);
        }
        if haveChange {
          force := true;
        } else {
          changeIndex := |tx.outputs|;
          tx := tx.(outputs := tx.outputs + [TxOutput(p.changeScript, 0)]);
          haveChange := true;
        }
      }
      i := i + 1;
    }
    return Capped(Loop(tx, total, used, haveChange, changeIndex, force));
  }

  // ----- what every pass keeps -----

  /** What the loop was entered with: inputs that are always spent and outputs that are always paid. */
  datatype Base = Base(kept: seq<Utxo>, picked: seq<Utxo>, paid: seq<TxOutput>)

  /** The coins the transaction may draw on besides the old inputs. */
  function Candidates(p: Params, b: Base): seq<Utxo> {
    if p.manual then b.picked else BtcUtxos(p)
  }

  /** Spending the kept coins and the first `n` candidates is a state the loop may be in. */
  ghost predicate MaySpend(p: Params, b: Base, n: nat) {
    if p.manual then n == |Candidates(p, b)| else n <= |Candidates(p, b)|
  }

  function InputsFor(p: Params, b: Base, n: nat): seq<TxInput>
    requires n <= |Candidates(p, b)|
  {
    SpendAll(b.kept + Candidates(p, b)[..n])
  }

  function OutputsFor(p: Params, b: Base, change: bool): seq<TxOutput> {
    if change then b.paid + [TxOutput(p.changeScript, 0)] else b.paid
  }

  /** The transaction with the first `n` candidates, and with or without a change output. */
  function Visited(p: Params, b: Base, n: nat, change: bool): Tx
    requires n <= |Candidates(p, b)|
  {
    Tx(InputsFor(p, b, n), OutputsFor(p, b, change))
  }

  /** Amount, fee and dust threshold add up within 64 bits for a transaction. */
  ghost predicate FeeFits(p: Params, tx: Tx) {
    p.required + Due(p, tx) + p.dust < TWO_TO_64
  }

  /** Every sum formed for a transaction the loop may visit fits in 64 bits. */
  ghost predicate Fits(p: Params, b: Base) {
    && SumUtxos(b.kept) + SumUtxos(Candidates(p, b)) < TWO_TO_64
    && forall n, change :: MaySpend(p, b, n) ==> FeeFits(p, Visited(p, b, n, change))
  }

  /** The fee due for a transaction, as a plain sum. */
  function Due(p: Params, tx: Tx): nat {
    TxFee(p, tx) + p.networkFee
  }

  ghost predicate InputsMatch(p: Params, b: Base, s: Loop) {
    && s.tx.inputs == SpendAll(b.kept + s.used)
    && s.total == SumUtxos(b.kept + s.used)
    && (if p.manual then s.used == b.picked else s.used <= BtcUtxos(p))
  }

  ghost predicate OutputsMatch(p: Params, b: Base, s: Loop) {
    && |b.paid| == p.numAddressees
    && s.tx.outputs == OutputsFor(p, b, s.haveChange)
    && (s.haveChange ==> s.changeIndex == |b.paid|)
  }

  ghost predicate ForcedByDust(p: Params, s: Loop) {
    && (s.force ==> s.haveChange && p.required + Due(p, s.tx) <= s.total < p.required + Due(p, s.tx) + p.dust)
    && (p.sendAll ==> !s.haveChange && !s.force)
  }

  ghost predicate Inv(p: Params, b: Base, s: Loop) {
    InputsMatch(p, b, s) && OutputsMatch(p, b, s) && ForcedByDust(p, s)
  }

  ghost predicate Exhausted(p: Params, s: Loop) {
    p.manual || |s.used| == |BtcUtxos(p)|
  }

  /** Nothing is left to add, and the inputs miss the amount and fee, or leave a change output of dust. */
  ghost predicate Short(p: Params, s: Loop) {
    if p.sendAll then p.available < Due(p, s.tx) + p.dust
    else
      && Exhausted(p, s)
      && s.total < p.required + Due(p, s.tx) + (if s.haveChange then p.dust else 0)
  }

  /** The balance at an exit without error, with no wrap-around anywhere. */
  ghost predicate Balanced(p: Params, s: Loop, fee: nat, required: nat) {
    if p.sendAll then
      fee == Due(p, s.tx) && required == p.available - fee && required >= p.dust
    else
      && required == p.required
      && (s.haveChange ==> fee == Due(p, s.tx) && s.total >= required + fee + p.dust)
      && (!s.haveChange ==> Due(p, s.tx) <= fee < Due(p, s.tx) + p.dust && s.total == required + fee)
  }

  function PaidAtExit(p: Params, b: Base, required: nat, insufficient: bool): seq<TxOutput>
    requires p.sendAll ==> |b.paid| > 0
  {
    if p.sendAll && !insufficient then SetAmount(b.paid, 0, required) else b.paid
  }

  lemma {:induction false} TotalFits(p: Params, b: Base, used: seq<Utxo>)
    requires Fits(p, b)
    requires if p.manual then used == b.picked else used <= BtcUtxos(p)
    ensures SumUtxos(b.kept + used) < TWO_TO_64
  {
    SumUtxosConcat(b.kept, used);
    if !p.manual {
      PrefixSum(BtcUtxos(p), |used|);
      assert BtcUtxos(p)[..|used|] == used;
    }
  }

  /** The invariant pins down which transaction the loop is at. */
  lemma {:induction false} InvIsVisited(p: Params, b: Base, s: Loop)
    requires InputsMatch(p, b, s) && OutputsMatch(p, b, s)
    ensures MaySpend(p, b, |s.used|) && s.tx == Visited(p, b, |s.used|, s.haveChange)
  {
    assert s.used == Candidates(p, b)[..|s.used|];
  }

  lemma {:induction false} FeeDoesFit(p: Params, b: Base, s: Loop)
    requires Inv(p, b, s) && Fits(p, b)
    ensures p.required + Due(p, s.tx) + p.dust < TWO_TO_64
    ensures Add64(TxFee(p, s.tx), p.networkFee) == Due(p, s.tx)
  {
    InvIsVisited(p, b, s);
    assert FeeFits(p, Visited(p, b, |s.used|, s.haveChange));
  }

  lemma {:induction false} AddInputKeepsInv(p: Params, b: Base, s: Loop)
    requires Inv(p, b, s) && Fits(p, b)
    requires !p.manual && !p.sendAll && |s.used| < |BtcUtxos(p)|
    ensures Inv(p, b, AddInput(s, BtcUtxos(p)[|s.used|]))
  {
    var u := BtcUtxos(p)[|s.used|];
    assert s.used + [u] <= BtcUtxos(p);
    assert b.kept + (s.used + [u]) == (b.kept + s.used) + [u];
    AppendUtxo(b.kept + s.used, u);
    TotalFits(p, b, s.used + [u]);
  }

  /** A pass that goes round again keeps the invariant. */
  lemma {:induction false} PassKeepsInv(p: Params, b: Base, s: Loop)
    requires Inv(p, b, s) && Fits(p, b)
    requires OnePass(p, s).Again?
    ensures Inv(p, b, OnePass(p, s).next)
  {
    FeeDoesFit(p, b, s);
    TotalFits(p, b, s.used);
    if s.total < p.required + Due(p, s.tx) || s.force {
      AddInputKeepsInv(p, b, s);
    }
  }

  /** A pass that leaves keeps the invariant, reports a shortage exactly when there is one, and is
      balanced otherwise. */
  ghost predicate SoundExit(p: Params, b: Base, fee: nat, required: nat, t: Loop, insufficient: bool) {
    && (p.sendAll ==> |b.paid| > 0)
    && Inv(p, b.(paid := PaidAtExit(p, b, required, insufficient)), t)
    && (insufficient <==> Short(p, t))
    && (!insufficient ==> Balanced(p, t, fee, required))
  }

  lemma {:induction false} SendAllPassIsSound(p: Params, b: Base, s: Loop)
    requires Inv(p, b, s) && Fits(p, b) && p.available < TWO_TO_64
    requires p.sendAll && OnePass(p, s).Leave?
    ensures var Leave(fee, required, t, insufficient) := OnePass(p, s);
            SoundExit(p, b, fee, required, t, insufficient)
  {
    FeeDoesFit(p, b, s);
    if p.available < Due(p, s.tx) + p.dust {
      assert b.(paid := PaidAtExit(p, b, p.required, true)) == b;
    } else {
      var all := p.available - Due(p, s.tx);
      var t := s.(tx := s.tx.(outputs := SetAmount(s.tx.outputs, 0, all)));
      assert OnePass(p, s) == Leave(Due(p, s.tx), all, t, false);
      SetAmountEffect(s.tx.outputs, 0, all);
      assert Due(p, t.tx) == Due(p, s.tx);
      assert InputsMatch(p, b.(paid := PaidAtExit(p, b, all, false)), t);
    }
  }

  lemma {:induction false} LeavingPassIsSound(p: Params, b: Base, s: Loop)
    requires Inv(p, b, s) && Fits(p, b)
    requires !p.sendAll && OnePass(p, s).Leave?
    ensures var Leave(fee, required, t, insufficient) := OnePass(p, s);
            SoundExit(p, b, fee, required, t, insufficient)
  {
    var Leave(fee, required, t, insufficient) := OnePass(p, s);
    assert b.(paid := PaidAtExit(p, b, required, insufficient)) == b;
    LeavingPassBalances(p, b, s);
  }

  lemma {:induction false} LeavingPassBalances(p: Params, b: Base, s: Loop)
    requires Inv(p, b, s) && Fits(p, b)
    requires !p.sendAll && OnePass(p, s).Leave?
    ensures var Leave(fee, required, t, insufficient) := OnePass(p, s);
            && t == s.(force := false)
            && (insufficient <==> Short(p, t))
            && (!insufficient ==> Balanced(p, t, fee, required))
  {
    FeeDoesFit(p, b, s);
    TotalFits(p, b, s.used);
  }

  /** Whatever the number of passes, the loop is only ever left soundly. */
  lemma {:induction false} RunIsSound(p: Params, b: Base, s: Loop, passes: nat)
    requires Inv(p, b, s) && Fits(p, b) && p.available < TWO_TO_64
    ensures var r := Run(p, s, passes);
            r.Left? ==> SoundExit(p, b, r.fee, r.required, r.state, r.insufficient)
    decreases passes
  {
    hide InputsMatch, Fits, SoundExit, ForcedByDust, OnePass;
    if passes > 0 {
      match OnePass(p, s)
      case Again(next) =>
        PassKeepsInv(p, b, s);
        RunIsSound(p, b, next, passes - 1);
      case Leave(fee, required, t, insufficient) =>
        if p.sendAll {
          SendAllPassIsSound(p, b, s);
        } else {
          LeavingPassIsSound(p, b, s);
        }
        assert SoundExit(p, b, fee, required, t, insufficient);
      case Throw(_) =>
    }
  }
}
