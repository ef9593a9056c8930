/** Building a Bitcoin transaction: collect inputs and outputs, settle the fee, place the change. */
module CreateTransaction {
  import opened Options
  import opened Amounts
  import opened Transactions
  import opened FeeLoop

  datatype TxError =
    | NoError | NoRecipients | SendAllRequiresASingle | InvalidAmount | InsufficientFunds
    | NoAmountSpecified | FeeRateIsBelowMinimum | InvalidReplacementFeeRate
    | Exception | OtherError

  /** `satoshi` is `None` when the amount entered by the user does not convert. */
  datatype Addressee = Addressee(script: string, satoshi: Option<nat>)

  /** The caller's details. `oldUsed` and `hadChange` describe the transaction being replaced; `picked`
      is set for manual selection; `earlier` is an error found before outputs are created. */
  datatype Request = Request(
    addressees: seq<Addressee>, utxos: map<string, seq<Utxo>>, picked: Option<seq<Utxo>>,
    sendAll: bool, isRbf: bool, isRedeposit: bool, oldUsed: seq<Utxo>, hadChange: bool,
    changeScript: string, userRate: nat, minRate: nat, networkFee: nat,
    oldFee: nat, oldRate: nat, dust: nat, earlier: TxError)

  datatype TxResult = TxResult(
    tx: Tx, fee: nat, required: nat, used: seq<Utxo>, haveChange: bool, changeIndex: nat,
    changeAmount: nat, vsize: nat, feeRate: nat, error: TxError)

  function GetTxFee(vsize: nat, minRate: nat, feeRate: nat): nat {
    CeilPerThousand(vsize * Max(minRate, feeRate))
  }

  /** `set_tx_error`: the first error wins. */
  function SetError(error: TxError, latest: TxError): TxError {
    if error.NoError? then latest else error
  }

  function Kept(req: Request): seq<Utxo> {
    if req.isRbf then req.oldUsed else []
  }

  function Coins(req: Request): seq<Utxo> {
    if req.picked.Some? then req.picked.value else if BTC in req.utxos then req.utxos[BTC] else []
  }

  function PaidTo(a: Addressee): TxOutput {
    TxOutput(a.script, if a.satoshi.Some? then a.satoshi.value else 0)
  }

  function Paid(addressees: seq<Addressee>): (r: seq<TxOutput>)
    ensures |r| == |addressees|
    ensures forall i :: 0 <= i < |r| ==> r[i] == PaidTo(addressees[i])
  {
    seq(|addressees|, i requires 0 <= i < |addressees| => PaidTo(addressees[i]))
  }

  function MakeParams(req: Request, vsize: VSize, required: nat, available: nat): Params {
    Params((ins, outs) => GetTxFee(vsize(ins, outs), req.minRate, req.userRate), Low32(req.networkFee), req.dust,
           req.sendAll, req.picked.Some?, |req.addressees|, req.utxos, req.changeScript, required, available)
  }

  // ----- steps before the loop -----

  lemma {:induction false} ExtendPrefix(us: seq<Utxo>, i: nat)
    requires i < |us|
    ensures us[..i] + [us[i]] == us[..i + 1]
    ensures SumUtxos(us[..i + 1]) == SumUtxos(us[..i]) + us[i].satoshi <= SumUtxos(us)
    ensures SpendAll(us[..i + 1]) == SpendAll(us[..i]) + [Spend(us[i])]
  {
    AppendUtxo(us[..i], us[i]);
    assert us[..i] + [us[i]] == us[..i + 1];
    PrefixSum(us, i + 1);
  }

  /** `add_utxo`: one more input, and its value on top of the total. */
  method AddUtxo(tx: Tx, total: nat, u: Utxo) returns (tx': Tx, total': nat)
    ensures tx' == tx.(inputs := tx.inputs + [Spend(u)])
    ensures total' == Add64(total, u.satoshi)
  {
    tx', total' := tx.(inputs := tx.inputs + [Spend(u)]), Add64(total, u.satoshi);
  }

  /** Adds every utxo of a list as an input. */
  method AddUtxos(tx: Tx, total: nat, utxos: seq<Utxo>) returns (tx': Tx, total': nat)
    ensures tx' == tx.(inputs := tx.inputs + SpendAll(utxos))
    ensures total + SumUtxos(utxos) < TWO_TO_64 ==> total' == total + SumUtxos(utxos)
  {
    tx', total' := tx, total;
    for i := 0 to |utxos|
      invariant tx' == tx.(inputs := tx.inputs + SpendAll(utxos[..i]))
      invariant total + SumUtxos(utxos) < TWO_TO_64 ==> total' == total + SumUtxos(utxos[..i])
    {
      ExtendPrefix(utxos, i);
      tx', total' := AddUtxo(tx', total', utxos[i]);
    }
    assert utxos[..|utxos|] == utxos;
  }

  /** Some addressee's amount is unusable: it did not convert, or it is dust and will not be replaced. */
  predicate BadAmount(a: Addressee, sendAll: bool, dust: nat) {
    a.satoshi.None? || (!sendAll && a.satoshi.value < dust)
  }

  predicate SomeBadAmount(addressees: seq<Addressee>, sendAll: bool, dust: nat) {
    exists i :: 0 <= i < |addressees| && BadAmount(addressees[i], sendAll, dust)
  }

  lemma {:induction false} ExtendBadAmount(addressees: seq<Addressee>, i: nat, sendAll: bool, dust: nat)
    requires i < |addressees|
    ensures SomeBadAmount(addressees[..i + 1], sendAll, dust)
       <==> SomeBadAmount(addressees[..i], sendAll, dust) || BadAmount(addressees[i], sendAll, dust)
  {
    var longer := addressees[..i + 1];
    assert longer[i] == addressees[i];
    if SomeBadAmount(addressees[..i], sendAll, dust) {
      var k :| 0 <= k < i && BadAmount(addressees[..i][k], sendAll, dust);
      assert BadAmount(longer[k], sendAll, dust);
    }
    if SomeBadAmount(longer, sendAll, dust) {
      var k :| 0 <= k <= i && BadAmount(longer[k], sendAll, dust);
      assert k < i ==> addressees[..i][k] == longer[k];
    }
  }

  method AddAddressees(tx: Tx, addressees: seq<Addressee>, sendAll: bool, dust: nat, error: TxError)
    returns (tx': Tx, required: nat, error': TxError)
    ensures tx' == tx.(outputs := tx.outputs + Paid(addressees))
    ensures SumOutputs(Paid(addressees)) < TWO_TO_64 ==> required == SumOutputs(Paid(addressees))
    ensures error' == if SomeBadAmount(addressees, sendAll, dust) then InvalidAmount else error
  {
    tx', required, error' := tx, 0, error;
    for i := 0 to |addressees|
      invariant tx' == tx.(outputs := tx.outputs + Paid(addressees[..i]))
      invariant SumOutputs(Paid(addressees)) < TWO_TO_64 ==> required == SumOutputs(Paid(addressees[..i]))
      invariant error' == if SomeBadAmount(addressees[..i], sendAll, dust) then InvalidAmount else error
    {
      var a := addressees[i];
      ExtendBadAmount(addressees, i, sendAll, dust);
      ExtendPaid(addressees, i);
      if BadAmount(a, sendAll, dust) {
        error' := InvalidAmount;
      }
      tx' := tx'.(outputs := tx'.outputs + [PaidTo(a)]);
      required := Add64(required, PaidTo(a).satoshi);
    }
    assert addressees[..|addressees|] == addressees;
  }

  lemma {:induction false} ExtendPaid(addressees: seq<Addressee>, i: nat)
    requires i < |addressees|
    ensures Paid(addressees[..i + 1]) == Paid(addressees[..i]) + [PaidTo(addressees[i])]
    ensures SumOutputs(Paid(addressees[..i + 1])) == SumOutputs(Paid(addressees[..i])) + PaidTo(addressees[i]).satoshi
    ensures SumOutputs(Paid(addressees[..i + 1])) <= SumOutputs(Paid(addressees))
  {
    assert Paid(addressees[..i + 1]) == Paid(addressees[..i]) + [PaidTo(addressees[i])];
    AppendOutput(Paid(addressees[..i]), PaidTo(addressees[i]));
    PaidPrefix(addressees, i + 1);
  }

  lemma {:induction false} PaidPrefix(addressees: seq<Addressee>, n: nat)
    requires n <= |addressees|
    ensures SumOutputs(Paid(addressees[..n])) <= SumOutputs(Paid(addressees))
    decreases |addressees| - n
  {
    if n < |addressees| {
      assert Paid(addressees[..n + 1]) == Paid(addressees[..n]) + [PaidTo(addressees[n])];
      AppendOutput(Paid(addressees[..n]), PaidTo(addressees[n]));
      PaidPrefix(addressees, n + 1);
    } else {
      assert addressees[..n] == addressees;
    }
  }

  /** `total` is what the first `n` coins add up to, on top of `total0`. */
  ghost predicate Covered(utxos: seq<Utxo>, total0: nat, n: nat, total: nat) {
    n <= |utxos| && total == total0 + SumUtxos(utxos[..n])
  }

  /** One coin fewer would not have covered the amount. */
  ghost predicate Shortest(utxos: seq<Utxo>, total0: nat, n: nat, required: nat) {
    0 < n <= |utxos| ==> total0 + SumUtxos(utxos[..n - 1]) < required
  }

  /** How many coins, from the `n`-th on, are needed to cover the amount; all of them if it is never covered. */
  function CoverCount(utxos: seq<Utxo>, total0: nat, required: nat, n: nat): (r: nat)
    requires n <= |utxos|
    ensures n <= r <= |utxos|
    decreases |utxos| - n
  {
    if n == |utxos| || total0 + SumUtxos(utxos[..n]) >= required then n
    else CoverCount(utxos, total0, required, n + 1)
  }

  /** Being shortest and covering (or exhausted) pins the number of coins. */
  lemma {:induction false} CoverCountIs(utxos: seq<Utxo>, total0: nat, required: nat, m: nat, n: nat)
    requires m <= n <= |utxos| && Shortest(utxos, total0, n, required)
    requires n == |utxos| || total0 + SumUtxos(utxos[..n]) >= required
    ensures CoverCount(utxos, total0, required, m) == n
    decreases n - m
  {
    if m < n {
      PrefixSum(utxos[..n - 1], m);
      assert utxos[..n - 1][..m] == utxos[..m];
      CoverCountIs(utxos, total0, required, m + 1, n);
    }
  }

  /** A transaction with the coins `us` spent on top. */
  function Spending(tx: Tx, us: seq<Utxo>): Tx {
    tx.(inputs := tx.inputs + SpendAll(us))
  }

  lemma {:induction false} SpendOneMore(tx: Tx, us: seq<Utxo>, n: nat)
    requires n < |us|
    ensures us[..n] + [us[n]] == us[..n + 1]
    ensures Spending(tx, us[..n]).(inputs := Spending(tx, us[..n]).inputs + [Spend(us[n])]) == Spending(tx, us[..n + 1])
  {
    ExtendPrefix(us, n);
    Associative(tx.inputs, SpendAll(us[..n]), [Spend(us[n])]);
  }

  lemma {:induction false} Associative<T>(a: seq<T>, b: seq<T>, c: seq<T>)
    ensures (a + b) + c == a + (b + c)
  {
  }

  /** The sums after `i` coins have been looked at and the first `n` of them taken. */
  ghost predicate Collected(utxos: seq<Utxo>, total0: nat, sendAll: bool, required: nat, i: nat, n: nat,
                            total: nat, available: nat) {
    && Covered(utxos, total0, i, available) && Covered(utxos, total0, n, total)
    && (!sendAll ==> Shortest(utxos, total0, n, required))
  }

  lemma {:induction false} CollectOne(utxos: seq<Utxo>, total0: nat, sendAll: bool, required: nat, i: nat, n: nat,
                                      total: nat, available: nat)
    requires i < |utxos| && total0 + SumUtxos(utxos) < TWO_TO_64
    requires Collected(utxos, total0, sendAll, required, i, n, total, available)
    requires sendAll || total < required ==> n == i
    ensures var available' := Add64(available, utxos[i].satoshi);
            if sendAll || total < required
            then Collected(utxos, total0, sendAll, required, i + 1, n + 1, Add64(total, utxos[i].satoshi), available')
            else Collected(utxos, total0, sendAll, required, i + 1, n, total, available')
  {
    ExtendPrefix(utxos, i);
  }

  lemma {:induction false} CollectedAll(utxos: seq<Utxo>, total0: nat, sendAll: bool, required: nat, n: nat,
                                        total: nat, available: nat)
    requires Collected(utxos, total0, sendAll, required, |utxos|, n, total, available)
    requires sendAll || total < required ==> n == |utxos|
    ensures total == total0 + SumUtxos(utxos[..n]) && available == total0 + SumUtxos(utxos)
    ensures !sendAll ==> n == CoverCount(utxos, total0, required, 0)
  {
    assert utxos[..|utxos|] == utxos;
    if !sendAll {
      CoverCountIs(utxos, total0, required, 0, n);
    }
  }

  /** Takes coins in order while the amount is not covered: a shortest covering prefix, or all of them. */
  method CollectUtxos(tx: Tx, total0: nat, utxos: seq<Utxo>, sendAll: bool, required: nat)
    returns (tx': Tx, total: nat, available: nat, used: seq<Utxo>)
    ensures used <= utxos && (sendAll ==> used == utxos)
    ensures tx' == Spending(tx, used)
    ensures total0 + SumUtxos(utxos) < TWO_TO_64 ==>
              && total == total0 + SumUtxos(used)
              && available == total0 + SumUtxos(utxos)
              && (!sendAll ==> |used| == CoverCount(utxos, total0, required, 0))
  {
    tx', total, available, used := tx, total0, total0, [];
    ghost var fits := total0 + SumUtxos(utxos) < TWO_TO_64;
    ghost var n := 0;
    assert utxos[..0] == [] && tx.inputs + SpendAll([]) == tx.inputs;
    assert Collected(utxos, total0, sendAll, required, 0, 0, total, available) && tx' == Spending(tx, used);
    hide Collected, SumUtxos, Add64, CoverCount, Spending;
    for i := 0 to |utxos|
      invariant n <= i && used == utxos[..n] && tx' == Spending(tx, used)
      invariant sendAll || total < required ==> n == i
      invariant fits ==> Collected(utxos, total0, sendAll, required, i, n, total, available)
    {
      if fits {
        CollectOne(utxos, total0, sendAll, required, i, n, total, available);
      }
      available := Add64(available, utxos[i].satoshi);
      if sendAll || total < required {
        SpendOneMore(tx, utxos, n);
        tx', total := AddUtxo(tx', total, utxos[i]);
        used := used + [utxos[i]];
        n := n + 1;
      }
    }
    if fits {
      CollectedAll(utxos, total0, sendAll, required, n, total, available);
    }
  }

  // ----- steps after the loop -----

  /** `update_change_output`: set the change amount, then swap the output with a randomly chosen one. */
  function PlaceChange(outs: seq<TxOutput>, changeIndex: nat, amount: nat, newIndex: nat): seq<TxOutput>
    requires changeIndex < |outs| && newIndex < |outs|
  {
    Swap(SetAmount(outs, changeIndex, amount), newIndex, changeIndex)
  }

  lemma {:induction false} PlaceChangeEffect(paid: seq<TxOutput>, script: string, amount: nat, newIndex: nat)
    requires newIndex <= |paid|
    ensures var outs := paid + [TxOutput(script, 0)];
            var r := PlaceChange(outs, |paid|, amount, newIndex);
            && Scripts(r) == Scripts(outs)
            && SumOutputs(r) == SumOutputs(paid) + amount
            && multiset(r) == multiset(paid) + multiset{TxOutput(script, amount)}
            && r[newIndex] == TxOutput(script, amount)
  {
    var outs := paid + [TxOutput(script, 0)];
    AppendOutput(paid, TxOutput(script, 0));
    SetAmountEffect(outs, |paid|, amount);
    assert SetAmount(outs, |paid|, amount) == paid + [TxOutput(script, amount)];
    SwapEffect(paid + [TxOutput(script, amount)], newIndex, |paid|);
  }

  /** The checks made once the transaction is complete, in the order of the source. */
  function FinalError(req: Request, error: TxError, required: nat, fee: nat, vsize: nat, feeRate: nat): TxError {
    var e := if required == 0 then SetError(error, NoAmountSpecified)
             else if req.userRate < req.minRate then SetError(error, FeeRateIsBelowMinimum)
             else error;
    if req.isRbf && e.NoError? && !ReplacementPays(fee, vsize, feeRate, req.minRate, req.oldFee, req.oldRate)
    then InvalidReplacementFeeRate
    else e
  }

  /** The closing RBF check; the old fee and rate are read back as 32-bit numbers. */
  predicate ReplacementPays(fee: nat, vsize: nat, feeRate: nat, minRate: nat, oldFee: nat, oldRate: nat) {
    fee >= Add64(Low32(oldFee), Mul64(vsize, minRate) / 1000) && feeRate > Low32(oldRate)
  }

  function ReportedRate(fee: nat, vsize: nat): nat {
    if vsize == 0 then 0 else Mul64(fee, 1000) / vsize
  }

  function ReportedVSize(vsize: VSize, tx: Tx): nat {
    if tx.inputs == [] || tx.outputs == [] then 0 else Low32(VSizeOf(vsize, tx))
  }

  /** The result once the loop has left with `f`; `dice` is the random number that places the change. */
  function Assemble(req: Request, vsize: VSize, f: Final, dice: nat, error: TxError): TxResult
    requires f.Left?
    requires f.state.haveChange ==> f.state.changeIndex < |f.state.tx.outputs|
  {
    var s := f.state;
    var newIndex := if s.haveChange then dice % |s.tx.outputs| else NO_CHANGE_INDEX;
    var change := if s.haveChange then Sub64(Sub64(s.total, f.required), f.fee) else 0;
    var tx := if s.haveChange
              then s.tx.(outputs := PlaceChange(s.tx.outputs, s.changeIndex, change, newIndex)) else s.tx;
    var size := ReportedVSize(vsize, tx);
    var rate := ReportedRate(f.fee, size);
    var e := if f.insufficient then SetError(error, InsufficientFunds) else error;
    TxResult(tx, f.fee, f.required, s.used, s.haveChange, newIndex, change, size, rate,
             FinalError(req, e, f.required, f.fee, size, rate))
  }

  function Failed(error: TxError): TxResult {
    TxResult(Tx([], []), 0, 0, [], false, NO_CHANGE_INDEX, 0, 0, 0, SetError(error, Exception))
  }

  // ----- what a transaction built without error satisfies -----

  /** Size and fee of a transaction stay within the words the source keeps them in. */
  ghost predicate SizeFits(req: Request, vsize: VSize, tx: Tx) {
    var size := VSizeOf(vsize, tx);
    var due := GetTxFee(size, req.minRate, req.userRate) + Low32(req.networkFee);
    && size < TWO_TO_32 && (tx.inputs != [] ==> size > 0)
    && SumOutputs(Paid(req.addressees)) + due + req.dust < TWO_TO_64
    && 1000 * (due + req.dust) < TWO_TO_64
  }

  /** Coins add up within 64 bits, and the transactions the loop may visit (some first coins, with or
      without a change output) have sizes and fees that fit. */
  ghost predicate FitsInWords(req: Request, vsize: VSize) {
    && SumUtxos(Kept(req)) + SumUtxos(Coins(req)) < TWO_TO_64
    && req.minRate < TWO_TO_32
    && var p, b := LoopParams(req, vsize), LoopBase(req);
       forall n, change :: MaySpend(p, b, n) ==> SizeFits(req, vsize, Visited(p, b, n, change))
  }

  const MAX_MONEY: nat := 2_100_000_000_000_000
  const MAX_VSIZE: nat := 1_000_000   // what fits in a block

  /** Amounts that exist, sizes a block can hold and rates of 32 bits always fit. */
  lemma {:induction false} RealRequestsFit(req: Request, vsize: VSize)
    requires SumUtxos(Kept(req)) + SumUtxos(Coins(req)) <= MAX_MONEY
    requires SumOutputs(Paid(req.addressees)) <= MAX_MONEY && req.dust <= MAX_MONEY
    requires req.minRate < TWO_TO_32 && req.userRate < TWO_TO_32
    requires forall n, change :: MaySpend(LoopParams(req, vsize), LoopBase(req), n) ==>
               0 < VSizeOf(vsize, Visited(LoopParams(req, vsize), LoopBase(req), n, change)) <= MAX_VSIZE
    ensures FitsInWords(req, vsize)
  {
    hide Visited, MaySpend, LoopParams, LoopBase;
    forall size: nat | size <= MAX_VSIZE
      ensures GetTxFee(size, req.minRate, req.userRate) <= MAX_VSIZE * TWO_TO_32 / 1000
    {
      var rate := Max(req.minRate, req.userRate);
      MulMonotone(size, rate, TWO_TO_32);
      assert size * TWO_TO_32 <= MAX_VSIZE * TWO_TO_32;
    }
  }

  /** Nothing is created or lost: inputs pay for the outputs and the fee to the satoshi. */
  ghost predicate Conserves(req: Request, r: TxResult) {
    SumUtxos(Kept(req) + r.used) == SumOutputs(r.tx.outputs) + r.fee
  }

  ghost predicate NoDust(req: Request, r: TxResult) {
    forall o :: o in r.tx.outputs ==> o.satoshi >= req.dust
  }

  /** Input i spends the i-th signing input: replaced inputs first, then the chosen coins. */
  ghost predicate SpendsInOrder(req: Request, r: TxResult) {
    r.tx.inputs == SpendAll(Kept(req) + r.used)
  }

  /** Automatic selection takes a prefix of the offered coins, manual selection exactly the picked ones. */
  ghost predicate SelectsInOrder(req: Request, r: TxResult) {
    if req.picked.Some? then r.used == Coins(req) else r.used <= Coins(req)
  }

  /** Every addressee gets its own amount (or everything), and the rest goes to the change script. */
  ghost predicate PaysAddressees(req: Request, r: TxResult) {
    var paid := if req.sendAll && |req.addressees| == 1 then [TxOutput(req.addressees[0].script, r.required)]
                else Paid(req.addressees);
    && SumOutputs(paid) == r.required
    && (!r.haveChange ==> r.tx.outputs == paid)
    && (r.haveChange ==>
         && multiset(r.tx.outputs) == multiset(paid) + multiset{TxOutput(req.changeScript, r.changeAmount)}
         && r.changeIndex < |r.tx.outputs|
         && r.tx.outputs[r.changeIndex] == TxOutput(req.changeScript, r.changeAmount))
  }

  /** The fee is exact with change or when sending all; otherwise less than the dust threshold is donated. */
  ghost predicate FeeIsTight(req: Request, vsize: VSize, r: TxResult) {
    var due := GetTxFee(VSizeOf(vsize, r.tx), req.minRate, req.userRate) + Low32(req.networkFee);
    if req.sendAll || r.haveChange then r.fee == due else due <= r.fee < due + req.dust
  }

  ghost predicate RateIsKept(req: Request, vsize: VSize, r: TxResult) {
    && r.vsize == VSizeOf(vsize, r.tx)
    && r.feeRate >= Max(req.minRate, req.userRate)
    && r.feeRate * r.vsize <= 1000 * r.fee < (r.feeRate + 1) * r.vsize
  }

  ghost predicate Replaces(req: Request, r: TxResult) {
    req.isRbf ==>
      && r.fee >= Low32(req.oldFee) + r.vsize * req.minRate / 1000
      && r.feeRate > Low32(req.oldRate)
  }

  ghost predicate SoundTx(req: Request, vsize: VSize, r: TxResult) {
    && Conserves(req, r) && NoDust(req, r) && PaysAddressees(req, r)
    && SpendsInOrder(req, r) && SelectsInOrder(req, r)
    && FeeIsTight(req, vsize, r) && RateIsKept(req, vsize, r) && Replaces(req, r)
  }

  /** What "insufficient funds" means: with every coin spent, amount and fee are not covered, or only dust
      would be left for a change output that is already there. */
  ghost predicate Shortage(req: Request, vsize: VSize, r: TxResult) {
    var due := GetTxFee(VSizeOf(vsize, r.tx), req.minRate, req.userRate) + Low32(req.networkFee);
    if req.sendAll then SumUtxos(Kept(req)) + SumUtxos(Coins(req)) < due + req.dust
    else
      && r.used == Coins(req)
      && SumUtxos(Kept(req) + r.used)
           < SumOutputs(Paid(req.addressees)) + due + (if r.haveChange then req.dust else 0)
  }

  // ----- the proof -----

  function LoopParams(req: Request, vsize: VSize): Params {
    MakeParams(req, vsize, SumOutputs(Paid(req.addressees)), SumUtxos(Kept(req)) + SumUtxos(Coins(req)))
  }

  function LoopBase(req: Request): Base {
    Base(Kept(req), Coins(req), Paid(req.addressees))
  }

  lemma {:induction false} LoopFits(req: Request, vsize: VSize)
    requires FitsInWords(req, vsize)
    ensures Fits(LoopParams(req, vsize), LoopBase(req))
  {
    var p, b := LoopParams(req, vsize), LoopBase(req);
    forall n, change | MaySpend(p, b, n)
      ensures FeeFits(p, Visited(p, b, n, change))
    {
      assert SizeFits(req, vsize, Visited(p, b, n, change));
    }
  }

  /** The loop is left at a transaction of the size of one it may visit. */
  lemma {:induction false} ExitIsVisited(req: Request, vsize: VSize, f: Final)
    requires LeftSoundly(req, vsize, f)
    ensures var p, b, s := LoopParams(req, vsize), LoopBase(req), f.state;
            && MaySpend(p, b, |s.used|)
            && s.tx.inputs == Visited(p, b, |s.used|, s.haveChange).inputs
            && Scripts(s.tx.outputs) == Scripts(Visited(p, b, |s.used|, s.haveChange).outputs)
  {
    var p, b, s := LoopParams(req, vsize), LoopBase(req), f.state;
    var paid := PaidAtExit(p, b, f.required, f.insufficient);
    InvIsVisited(p, b.(paid := paid), s);
    if paid != b.paid {
      SetAmountEffect(b.paid, 0, f.required);
    }
  }

  lemma {:induction false} ExitFits(req: Request, vsize: VSize, f: Final)
    requires FitsInWords(req, vsize) && LeftSoundly(req, vsize, f)
    ensures SizeFits(req, vsize, f.state.tx)
  {
    var p, b, s := LoopParams(req, vsize), LoopBase(req), f.state;
    ExitIsVisited(req, vsize, f);
    assert SizeFits(req, vsize, Visited(p, b, |s.used|, s.haveChange));
  }

  /** What an error-free result says about the request: recipients exist and no amount is refused. */
  ghost predicate Acceptable(req: Request) {
    && |req.addressees| > 0
    && (req.sendAll ==> |req.addressees| == 1)
    && !SomeBadAmount(req.addressees, req.sendAll, req.dust)
  }

  ghost predicate LeftSoundly(req: Request, vsize: VSize, f: Final) {
    f.Left? && SoundExit(LoopParams(req, vsize), LoopBase(req), f.fee, f.required, f.state, f.insufficient)
  }

  lemma {:induction false} PaidHasNoDust(req: Request, o: TxOutput)
    requires Acceptable(req) && !req.sendAll && o in Paid(req.addressees)
    ensures o.satoshi >= req.dust
  {
    var i :| 0 <= i < |Paid(req.addressees)| && o == Paid(req.addressees)[i];
    assert !BadAmount(req.addressees[i], req.sendAll, req.dust);
  }

  ghost predicate BooksBalance(req: Request, r: TxResult) {
    PaysAddressees(req, r) && Conserves(req, r) && NoDust(req, r)
  }

  lemma {:induction false} SendAllBalances(req: Request, vsize: VSize, f: Final, dice: nat, error: TxError)
    requires FitsInWords(req, vsize) && LeftSoundly(req, vsize, f)
    requires Acceptable(req) && !f.insufficient && req.sendAll
    requires f.state.used == Coins(req)
    ensures BooksBalance(req, Assemble(req, vsize, f, dice, error))
  {
    hide FitsInWords, PlaceChange, ReportedRate, ReportedVSize, FinalError;
    var paid := PaidAtExit(LoopParams(req, vsize), LoopBase(req), f.required, false);
    assert paid == [TxOutput(req.addressees[0].script, f.required)];
    assert SumOutputs(paid) == f.required by {
      AppendOutput([], paid[0]);
    }
    SumUtxosConcat(Kept(req), f.state.used);
    var r := Assemble(req, vsize, f, dice, error);
    assert r.tx.outputs == paid && !r.haveChange && r.required == f.required;
    assert f.required + f.fee == SumUtxos(Kept(req)) + SumUtxos(Coins(req)) && f.required >= req.dust;
    assert PaysAddressees(req, r) && NoDust(req, r);
  }

  lemma {:induction false} NoChangeBalances(req: Request, vsize: VSize, f: Final, dice: nat, error: TxError)
    requires FitsInWords(req, vsize) && LeftSoundly(req, vsize, f)
    requires Acceptable(req) && !f.insufficient && !req.sendAll && !f.state.haveChange
    ensures BooksBalance(req, Assemble(req, vsize, f, dice, error))
  {
    forall o | o in Paid(req.addressees)
      ensures o.satoshi >= req.dust
    {
      PaidHasNoDust(req, o);
    }
  }

  /** The change is what the inputs leave over amount and fee, no subtraction having wrapped. */
  lemma {:induction false} ChangeAmountIsRight(req: Request, vsize: VSize, f: Final)
    requires FitsInWords(req, vsize) && LeftSoundly(req, vsize, f)
    requires !f.insufficient && !req.sendAll && f.state.haveChange
    ensures f.state.total == SumUtxos(Kept(req) + f.state.used) < TWO_TO_64
    ensures Sub64(Sub64(f.state.total, f.required), f.fee) == f.state.total - f.required - f.fee >= req.dust
  {
    LoopFits(req, vsize);
    TotalFits(LoopParams(req, vsize), LoopBase(req), f.state.used);
  }

  lemma {:induction false} PlacedHasNoDust(req: Request, change: nat, newIndex: nat)
    requires Acceptable(req) && !req.sendAll && change >= req.dust && newIndex <= |req.addressees|
    ensures var outs := Paid(req.addressees) + [TxOutput(req.changeScript, 0)];
            forall o :: o in PlaceChange(outs, |req.addressees|, change, newIndex) ==> o.satoshi >= req.dust
  {
    var paid := Paid(req.addressees);
    var outs := SetAmount(paid + [TxOutput(req.changeScript, 0)], |paid|, change);
    forall k | 0 <= k < |outs|
      ensures outs[k].satoshi >= req.dust
    {
      if k < |paid| {
        PaidHasNoDust(req, paid[k]);
      }
    }
  }

  lemma {:induction false} ChangeBalances(req: Request, vsize: VSize, f: Final, dice: nat, error: TxError)
    requires FitsInWords(req, vsize) && LeftSoundly(req, vsize, f)
    requires Acceptable(req) && !f.insufficient && !req.sendAll && f.state.haveChange
    ensures BooksBalance(req, Assemble(req, vsize, f, dice, error))
  {
    hide FitsInWords, InputsMatch, PlaceChange;
    var paid, outs := Paid(req.addressees), f.state.tx.outputs;
    ChangeAmountIsRight(req, vsize, f);
    var change, newIndex := f.state.total - f.required - f.fee, dice % |outs|;
    PlaceChangeEffect(paid, req.changeScript, change, newIndex);
    PlacedHasNoDust(req, change, newIndex);
    var r := Assemble(req, vsize, f, dice, error);
    assert r.changeAmount == change && r.changeIndex == newIndex;
    assert outs == paid + [TxOutput(req.changeScript, 0)];
    assert r.tx.outputs == PlaceChange(outs, |paid|, change, newIndex);
    assert Conserves(req, r) && NoDust(req, r);
  }

  /** Placing the change leaves the size alone, also when its amount has wrapped. */
  lemma {:induction false} SizeIsUnchanged(req: Request, vsize: VSize, f: Final, dice: nat, error: TxError)
    requires LeftSoundly(req, vsize, f)
    ensures var r := Assemble(req, vsize, f, dice, error);
            VSizeOf(vsize, r.tx) == VSizeOf(vsize, f.state.tx)
  {
    var p, b, s := LoopParams(req, vsize), LoopBase(req), f.state;
    if s.haveChange {
      var paid := PaidAtExit(p, b, f.required, f.insufficient);
      PlaceChangeEffect(paid, req.changeScript, Sub64(Sub64(s.total, f.required), f.fee), dice % |s.tx.outputs|);
    }
  }

  lemma {:induction false} MulMonotone(x: nat, y: nat, z: nat)
    requires y <= z
    ensures x * y <= x * z
  {
    assert x * (z - y) >= 0;
  }

  /** A fee that covers `rate` per 1000 units of size is reported at no less than `rate`. */
  lemma {:induction false} RateArithmetic(fee: nat, size: nat, rate: nat)
    requires size > 0 && fee >= CeilPerThousand(size * rate) && 1000 * fee < TWO_TO_64
    ensures ReportedRate(fee, size) >= rate
    ensures ReportedRate(fee, size) * size <= 1000 * fee < (ReportedRate(fee, size) + 1) * size
  {
    var q := fee * 1000 / size;
    assert fee * 1000 == q * size + fee * 1000 % size;
    assert size * (q + 1) == (q + 1) * size == q * size + size;
    if q < rate {
      MulMonotone(size, q + 1, rate);
      assert false;
    }
  }

  lemma {:induction false} TightFee(req: Request, vsize: VSize, f: Final, dice: nat, error: TxError)
    requires LeftSoundly(req, vsize, f) && !f.insufficient
    ensures FeeIsTight(req, vsize, Assemble(req, vsize, f, dice, error))
  {
    SizeIsUnchanged(req, vsize, f, dice, error);
    hide PlaceChange, InputsMatch, ReportedRate, ReportedVSize, FinalError;
    assert Due(LoopParams(req, vsize), f.state.tx)
        == GetTxFee(VSizeOf(vsize, f.state.tx), req.minRate, req.userRate) + Low32(req.networkFee);
  }

  lemma {:induction false} SizeIsReported(req: Request, vsize: VSize, f: Final, dice: nat, error: TxError)
    requires LeftSoundly(req, vsize, f) && SizeFits(req, vsize, f.state.tx)
    requires f.state.tx.inputs != [] && f.state.tx.outputs != []
    ensures var r := Assemble(req, vsize, f, dice, error);
            && r.vsize == VSizeOf(vsize, r.tx) == VSizeOf(vsize, f.state.tx) > 0
            && r.feeRate == ReportedRate(r.fee, r.vsize)
  {
    SizeIsUnchanged(req, vsize, f, dice, error);
    hide InputsMatch, ReportedRate, FinalError, ForcedByDust, Balanced, Short, SizeFits;
    var r := Assemble(req, vsize, f, dice, error);
    assert r.vsize == ReportedVSize(vsize, r.tx) && r.feeRate == ReportedRate(r.fee, r.vsize);
    assert r.tx.inputs == f.state.tx.inputs && |r.tx.outputs| == |f.state.tx.outputs|;
    hide Assemble, SoundExit;
    assert 0 < VSizeOf(vsize, f.state.tx) < TWO_TO_32 by {
      FittingSize(req, vsize, f.state.tx);
    }
  }

  lemma {:induction false} FittingSize(req: Request, vsize: VSize, tx: Tx)
    requires SizeFits(req, vsize, tx) && tx.inputs != []
    ensures 0 < VSizeOf(vsize, tx) < TWO_TO_32
  {
  }

  lemma {:induction false} FeeIsRight(req: Request, vsize: VSize, f: Final, dice: nat, error: TxError)
    requires FitsInWords(req, vsize) && LeftSoundly(req, vsize, f) && !f.insufficient
    requires f.state.tx.inputs != [] && f.state.tx.outputs != []
    ensures var r := Assemble(req, vsize, f, dice, error);
            FeeIsTight(req, vsize, r) && RateIsKept(req, vsize, r)
  {
    ExitFits(req, vsize, f);
    TightFee(req, vsize, f, dice, error);
    SizeIsReported(req, vsize, f, dice, error);
    hide FitsInWords, SoundExit, Assemble, ReportedRate;
    var r := Assemble(req, vsize, f, dice, error);
    RateArithmetic(r.fee, r.vsize, Max(req.minRate, req.userRate));
  }

  /** A final result without error passed the closing checks. */
  lemma {:induction false} ReplacementIsPaidFor(req: Request, vsize: VSize, f: Final, dice: nat, error: TxError)
    requires f.Left? && (f.state.haveChange ==> f.state.changeIndex < |f.state.tx.outputs|)
    requires req.minRate < TWO_TO_32 && Assemble(req, vsize, f, dice, error).vsize < TWO_TO_32
    requires Assemble(req, vsize, f, dice, error).error.NoError?
    ensures Replaces(req, Assemble(req, vsize, f, dice, error))
  {
    hide PlaceChange, ReportedRate, ReportedVSize;
    var r := Assemble(req, vsize, f, dice, error);
    ProductBound(r.vsize, req.minRate);
    assert Mul64(r.vsize, req.minRate) == r.vsize * req.minRate;
  }

  lemma {:induction false} ProductBound(x: nat, y: nat)
    requires x < 0x1_0000_0000 && y < 0x1_0000_0000
    ensures x * y <= 0xFFFF_FFFE_0000_0001
  {
    MulMonotone(x, y, 0xFFFF_FFFF);
  }

  lemma {:induction false} SpendsSomething(req: Request, vsize: VSize, f: Final)
    requires LeftSoundly(req, vsize, f) && !f.insufficient && f.required > 0
    requires req.sendAll ==> f.state.used == Coins(req)
    ensures f.state.tx.inputs != []
  {
    SumUtxosConcat(Kept(req), f.state.used);
  }

  lemma {:induction false} NoErrorMeans(req: Request, vsize: VSize, f: Final, dice: nat, error: TxError)
    requires LeftSoundly(req, vsize, f)
    requires Assemble(req, vsize, f, dice, error).error.NoError?
    ensures !f.insufficient && f.required > 0 && error.NoError?
  {
  }

  lemma {:induction false} BooksDoBalance(req: Request, vsize: VSize, f: Final, dice: nat, error: TxError)
    requires FitsInWords(req, vsize) && LeftSoundly(req, vsize, f)
    requires Acceptable(req) && !f.insufficient
    requires req.sendAll ==> f.state.used == Coins(req)
    ensures BooksBalance(req, Assemble(req, vsize, f, dice, error))
  {
    if req.sendAll {
      SendAllBalances(req, vsize, f, dice, error);
    } else if f.state.haveChange {
      ChangeBalances(req, vsize, f, dice, error);
    } else {
      NoChangeBalances(req, vsize, f, dice, error);
    }
  }

  lemma {:induction false} KeepsOrder(req: Request, vsize: VSize, f: Final, dice: nat, error: TxError)
    requires LeftSoundly(req, vsize, f)
    ensures var r := Assemble(req, vsize, f, dice, error);
            SpendsInOrder(req, r) && SelectsInOrder(req, r)
  {
  }

  lemma {:induction false} AssembledIsSound(req: Request, vsize: VSize, f: Final, dice: nat, error: TxError)
    requires FitsInWords(req, vsize) && LeftSoundly(req, vsize, f) && Acceptable(req)
    requires req.sendAll ==> f.state.used == Coins(req)
    requires Assemble(req, vsize, f, dice, error).error.NoError?
    ensures SoundTx(req, vsize, Assemble(req, vsize, f, dice, error))
  {
    NoErrorMeans(req, vsize, f, dice, error);
    BooksDoBalance(req, vsize, f, dice, error);
    KeepsOrder(req, vsize, f, dice, error);
    SpendsSomething(req, vsize, f);
    FeeIsRight(req, vsize, f, dice, error);
    ReplacementIsPaidFor(req, vsize, f, dice, error);
  }

  lemma {:induction false} ShortageIsReal(req: Request, vsize: VSize, f: Final, dice: nat, error: TxError)
    requires LeftSoundly(req, vsize, f) && f.insufficient
    ensures Shortage(req, vsize, Assemble(req, vsize, f, dice, error))
  {
    SizeIsUnchanged(req, vsize, f, dice, error);
  }
}
