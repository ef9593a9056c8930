/** Fee bumping: replacing an unconfirmed transaction (RBF) or spending one of its outputs (CPFP). */
module BumpTransaction {
  import opened Options
  import opened Amounts
  import opened Transactions
  import opened FeeLoop
  import opened FeeLoopProgress
  import opened CreateTransaction
  import opened TransactionBuilder

  /** An input or output of a wallet transaction as listed by `get_transactions`; the index of an input
      is its position in that transaction. */
  datatype Endpoint = Endpoint(isRelevant: bool, ptIdx: nat, address: string, satoshi: nat,
                               blockHeight: nat, scriptType: nat)

  datatype PrevTx = PrevTx(txhash: Hash, tx: Tx, inputs: seq<Endpoint>, outputs: seq<Endpoint>,
                           fee: nat, feeRate: nat)

  // ----- replacing: outputs -----

  /** Position of the first output that pays this wallet. */
  function FirstRelevant(outs: seq<Endpoint>): (r: Option<nat>)
    ensures r.Some? ==> r.value < |outs| && outs[r.value].isRelevant
    ensures forall i :: 0 <= i < |outs| && (r.Some? ==> i < r.value) ==> !outs[i].isRelevant
  {
    if outs == [] then None
    else if outs[0].isRelevant then Some(0)
    else
      var r := FirstRelevant(outs[1..]);
      assert forall i :: 1 <= i < |outs| ==> outs[i] == outs[1..][i - 1];
      if r.Some? then Some(r.value + 1) else None
  }

  function ToAddressee(e: Endpoint): Addressee {
    Addressee(e.address, Some(e.satoshi))
  }

  function ToAddressees(outs: seq<Endpoint>): (r: seq<Addressee>)
    ensures |r| == |outs|
    ensures forall i :: 0 <= i < |outs| ==> r[i] == ToAddressee(outs[i])
  {
    seq(|outs|, i requires 0 <= i < |outs| => ToAddressee(outs[i]))
  }

  /** Everything but the change: the recipients of the old transaction, in order. */
  function Recipients(outs: seq<Endpoint>): seq<Endpoint> {
    var k := FirstRelevant(outs);
    if k.Some? then outs[..k.value] + outs[k.value + 1..] else outs
  }

  lemma {:induction false} AppendAddressee(es: seq<Endpoint>, e: Endpoint)
    ensures ToAddressees(es) + [ToAddressee(e)] == ToAddressees(es + [e])
  {
  }

  /** The first `i` outputs without the one at `k`. */
  function Without(outs: seq<Endpoint>, k: nat, i: nat): seq<Endpoint>
    requires i <= |outs|
  {
    if k < i then outs[..k] + outs[k + 1..i] else outs[..i]
  }

  lemma {:induction false} WithoutNext(outs: seq<Endpoint>, k: nat, i: nat)
    requires i < |outs|
    ensures Without(outs, k, i + 1) == Without(outs, k, i) + (if i == k then [] else [outs[i]])
  {
    if k < i {
      assert outs[k + 1..i + 1] == outs[k + 1..i] + [outs[i]];
    }
  }

  method SplitOutputs(outs: seq<Endpoint>) returns (addressees: seq<Addressee>, changeIndex: nat)
    requires |outs| <= NO_CHANGE_INDEX
    ensures addressees == ToAddressees(Recipients(outs))
    ensures changeIndex == if FirstRelevant(outs).Some? then FirstRelevant(outs).value else NO_CHANGE_INDEX
  {
    ghost var k := if FirstRelevant(outs).Some? then FirstRelevant(outs).value else NO_CHANGE_INDEX;
    assert Without(outs, k, 0) == [] && Without(outs, k, |outs|) == Recipients(outs);
    hide FirstRelevant, Without, Recipients;
    addressees, changeIndex := [], NO_CHANGE_INDEX;
    for i := 0 to |outs|
      invariant changeIndex == if k < i then k else NO_CHANGE_INDEX
      invariant addressees == ToAddressees(Without(outs, k, i))
    {
      WithoutNext(outs, k, i);
      if outs[i].isRelevant && changeIndex == NO_CHANGE_INDEX {
        changeIndex := i;
      } else {
        AppendAddressee(Without(outs, k, i), outs[i]);
        addressees := addressees + [ToAddressee(outs[i])];
      }
    }
  }

  // ----- replacing: inputs -----

  predicate Lists(prev: PrevTx, k: nat, i: nat) {
    k < |prev.inputs| && prev.inputs[k].ptIdx == i
  }

  ghost predicate Listed(prev: PrevTx, upTo: nat, i: nat) {
    exists k :: 0 <= k < upTo && Lists(prev, k, i)
  }

  /** The first `upTo` listed inputs are ours and lie within the old transaction. */
  ghost predicate AllOurs(prev: PrevTx, upTo: nat)
    requires upTo <= |prev.inputs|
  {
    forall k :: 0 <= k < upTo ==> prev.inputs[k].isRelevant && prev.inputs[k].ptIdx < |prev.tx.inputs|
  }

  /** The listed inputs are all ours and name every position of the old transaction. */
  ghost predicate ListsEveryInput(prev: PrevTx) {
    && AllOurs(prev, |prev.inputs|)
    && forall i :: 0 <= i < |prev.tx.inputs| ==> Listed(prev, |prev.inputs|, i)
  }

  /** A coin standing for position `i`, with the data of a listed input at that position. */
  ghost predicate StandsFor(u: Utxo, prev: PrevTx, i: nat) {
    && i < |prev.tx.inputs|
    && Spend(u).outpoint == prev.tx.inputs[i].outpoint
    && exists k :: 0 <= k < |prev.inputs| && Lists(prev, k, i)
                && prev.inputs[k].satoshi == u.satoshi && prev.inputs[k].scriptType == u.scriptType
                && prev.inputs[k].blockHeight == u.blockHeight
  }

  function Below(n: nat): (r: set<nat>)
    ensures forall i: nat :: i in r <==> i < n
    ensures |r| == n
  {
    if n == 0 then {} else Below(n - 1) + {n - 1}
  }

  /** Pigeonhole: n distinct positions below n are all of them. */
  lemma {:induction false} AllPositions(s: set<nat>, n: nat)
    requires forall i :: i in s ==> i < n
    ensures |s| == n <==> forall i :: 0 <= i < n ==> i in s
  {
    assert s <= Below(n);
    assert s + (Below(n) - s) == Below(n);
    assert |s| + |Below(n) - s| == |Below(n)|;
    if forall i :: 0 <= i < n ==> i in s {
      assert s == Below(n);
    }
  }

  /** The coin for listed input `k`, its hash reversed in place into display order. */
  function OldUtxo(prev: PrevTx, k: nat, hash: Hash): Utxo
    requires k < |prev.inputs| && prev.inputs[k].ptIdx < |prev.tx.inputs|
  {
    var e := prev.inputs[k];
    Utxo(hash, prev.tx.inputs[e.ptIdx].outpoint.index, e.satoshi, e.blockHeight, e.scriptType)
  }

  lemma {:induction false} OldUtxoStands(prev: PrevTx, k: nat)
    requires k < |prev.inputs| && prev.inputs[k].ptIdx < |prev.tx.inputs|
    ensures var i := prev.inputs[k].ptIdx;
            StandsFor(OldUtxo(prev, k, Reverse(prev.tx.inputs[i].outpoint.txid)), prev, i)
  {
    var i := prev.inputs[k].ptIdx;
    ReverseTwice(prev.tx.inputs[i].outpoint.txid);
    assert Lists(prev, k, i);
  }

  /** Collects the coin of each position; a position listed twice keeps its first coin although its hash
      is reversed again. `None` is an assertion failure of the source. */
  method CollectOldUtxos(prev: PrevTx) returns (r: Option<map<nat, Utxo>>)
    ensures r.Some? <==> AllOurs(prev, |prev.inputs|)
    ensures r.Some? ==> forall i :: i in r.value ==> StandsFor(r.value[i], prev, i)
    ensures r.Some? ==> forall i: nat :: i in r.value <==> Listed(prev, |prev.inputs|, i)
  {
    hide StandsFor, Listed;
    var hashes := seq(|prev.tx.inputs|, i requires 0 <= i < |prev.tx.inputs| => prev.tx.inputs[i].outpoint.txid);
    var found: map<nat, Utxo> := map[];
    NoneListed(prev);
    for k := 0 to |prev.inputs|
      invariant |hashes| == |prev.tx.inputs| && AllOurs(prev, k)
      invariant forall i :: i in found ==> StandsFor(found[i], prev, i)
      invariant forall i :: 0 <= i < |hashes| && i !in found ==> hashes[i] == prev.tx.inputs[i].outpoint.txid
      invariant forall i: nat :: i in found <==> Listed(prev, k, i)
    {
      var i := prev.inputs[k].ptIdx;
      if !prev.inputs[k].isRelevant || i >= |prev.tx.inputs| {
        return None;
      }
      hashes := hashes[i := Reverse(hashes[i])];
      ListedNext(prev, k);
      if i !in found {
        OldUtxoStands(prev, k);
        found := found[i := OldUtxo(prev, k, hashes[i])];
      }
    }
    return Some(found);
  }

  lemma {:induction false} NoneListed(prev: PrevTx)
    ensures forall i: nat :: !Listed(prev, 0, i)
  {
  }

  lemma {:induction false} ListedNext(prev: PrevTx, k: nat)
    requires k < |prev.inputs|
    ensures forall i: nat :: Listed(prev, k + 1, i) <==> Listed(prev, k, i) || i == prev.inputs[k].ptIdx
  {
    assert Lists(prev, k, prev.inputs[k].ptIdx);
  }

  /** Rebuilds the coins spent by the old transaction, in the order of its inputs. */
  method RebuildOldUtxos(prev: PrevTx) returns (r: Option<seq<Utxo>>)
    ensures r.Some? <==> ListsEveryInput(prev)
    ensures r.Some? ==> |r.value| == |prev.tx.inputs|
                        && forall i :: 0 <= i < |r.value| ==> StandsFor(r.value[i], prev, i)
  {
    hide Listed;
    var collected := CollectOldUtxos(prev);
    if collected.None? {
      return None;
    }
    var found := collected.value;
    AllPositions(found.Keys, |prev.tx.inputs|);
    if |found| != |prev.tx.inputs| {
      assert |found| == |found.Keys|;
      return None;
    }
    var coins: seq<Utxo> := [];
    for i := 0 to |prev.tx.inputs|
      invariant |coins| == i && forall k :: 0 <= k < i ==> StandsFor(coins[k], prev, k)
    {
      coins := coins + [found[i]];
    }
    return Some(coins);
  }

  /** The request for a replacement: same recipients, same change script, the old coins first. */
  function ReplacementRequest(prev: PrevTx, coins: seq<Utxo>, details: Request): Request {
    var k := FirstRelevant(prev.outputs);
    var recipients := ToAddressees(Recipients(prev.outputs));
    if k.Some? && recipients == [] then
      details.(isRbf := true, isRedeposit := true, sendAll := true, oldUsed := coins, hadChange := false,
               addressees := [ToAddressee(prev.outputs[k.value])], oldFee := prev.fee, oldRate := prev.feeRate)
    else
      details.(isRbf := true, isRedeposit := false, oldUsed := coins, hadChange := k.Some?, addressees := recipients,
               changeScript := if k.Some? then prev.outputs[k.value].address else details.changeScript,
               oldFee := prev.fee, oldRate := prev.feeRate)
  }

  /** The RBF half of `check_bump_tx` followed by creation of the replacement. */
  method Replace(prev: PrevTx, details: Request, vsize: VSize, dice: nat)
    returns (r: Option<TxResult>, ghost coins: seq<Utxo>)
    requires |prev.outputs| <= NO_CHANGE_INDEX
    ensures r.Some? <==> ListsEveryInput(prev)
    ensures r.Some? ==>
              && |coins| == |prev.tx.inputs| && (forall i :: 0 <= i < |coins| ==> StandsFor(coins[i], prev, i))
              && (SumsFit(ReplacementRequest(prev, coins, details)) ==>
                    r.value == Built(ReplacementRequest(prev, coins, details), vsize, dice))
  {
    var addressees, changeIndex := SplitOutputs(prev.outputs);
    var isRedeposit, sendAll, changeScript := false, details.sendAll, details.changeScript;
    if changeIndex != NO_CHANGE_INDEX {
      if addressees == [] {
        addressees := [ToAddressee(prev.outputs[changeIndex])];
        changeIndex, isRedeposit, sendAll := NO_CHANGE_INDEX, true, true;
      } else {
        changeScript := prev.outputs[changeIndex].address;
      }
    }
    var rebuilt := RebuildOldUtxos(prev);
    coins := if rebuilt.Some? then rebuilt.value else [];
    if rebuilt.None? {
      return None, coins;
    }
    var req := details.(isRbf := true, isRedeposit := isRedeposit, sendAll := sendAll, oldUsed := rebuilt.value,
                        hadChange := changeIndex != NO_CHANGE_INDEX, addressees := addressees,
                        changeScript := changeScript, oldFee := prev.fee, oldRate := prev.feeRate);
    var built := CreateTxOutputs(req, vsize, dice);
    r := Some(built);
  }

  /** Whose coins `coins` are: those of the old transaction, in the order of its inputs. */
  ghost predicate Rebuilt(prev: PrevTx, coins: seq<Utxo>) {
    |coins| == |prev.tx.inputs| && forall i :: 0 <= i < |coins| ==> StandsFor(coins[i], prev, i)
  }

  /** A replacement built without error spends every input of the old transaction at its old position, pays
      every recipient of the old transaction, and obeys the fee rules of BIP 125 (conditions 3 and 4 of its
      "Implementation Details") as far as the old fee and rate fit in 32 bits. */
  lemma {:induction false} ReplacementIsSound(prev: PrevTx, coins: seq<Utxo>, details: Request, vsize: VSize, dice: nat)
    requires Rebuilt(prev, coins)
    requires FitsInWords(ReplacementRequest(prev, coins, details), vsize)
    requires Built(ReplacementRequest(prev, coins, details), vsize, dice).error.NoError?
    ensures var req := ReplacementRequest(prev, coins, details);
            var r := Built(req, vsize, dice);
            && |prev.tx.inputs| <= |r.tx.inputs|
            && (forall i :: 0 <= i < |prev.tx.inputs| ==> r.tx.inputs[i].outpoint == prev.tx.inputs[i].outpoint)
            && (!req.sendAll ==> multiset(Paid(ToAddressees(Recipients(prev.outputs)))) <= multiset(r.tx.outputs))
            && (prev.fee < TWO_TO_32 ==> r.fee >= prev.fee + r.vsize * req.minRate / 1000)
            && (prev.feeRate < TWO_TO_32 ==> r.feeRate > prev.feeRate)
  {
    hide SoundTx, FitsInWords, Built, Recipients, SpendsInOrder, FeeIsTight, Rebuilt;
    var req := ReplacementRequest(prev, coins, details);
    BuiltIsSound(req, vsize, dice);
    SoundParts(req, vsize, Built(req, vsize, dice));
    KeepsOldInputs(prev, coins, req, Built(req, vsize, dice));
  }

  lemma {:induction false} SoundParts(req: Request, vsize: VSize, r: TxResult)
    requires SoundTx(req, vsize, r)
    ensures Replaces(req, r) && SpendsInOrder(req, r) && FeeIsTight(req, vsize, r)
    ensures r.vsize == VSizeOf(vsize, r.tx)
    ensures !req.sendAll ==> multiset(Paid(req.addressees)) <= multiset(r.tx.outputs)
  {
  }

  lemma {:induction false} KeepsOldInputs(prev: PrevTx, coins: seq<Utxo>, req: Request, r: TxResult)
    requires Rebuilt(prev, coins) && Kept(req) == coins && SpendsInOrder(req, r)
    ensures |prev.tx.inputs| <= |r.tx.inputs|
    ensures forall i :: 0 <= i < |prev.tx.inputs| ==> r.tx.inputs[i].outpoint == prev.tx.inputs[i].outpoint
  {
    hide StandsFor;
    forall i | 0 <= i < |prev.tx.inputs|
      ensures r.tx.inputs[i].outpoint == prev.tx.inputs[i].outpoint
    {
      assert r.tx.inputs[i] == Spend(coins[i]);
      StandsForSpends(coins[i], prev, i);
    }
  }

  lemma {:induction false} StandsForSpends(u: Utxo, prev: PrevTx, i: nat)
    requires StandsFor(u, prev, i)
    ensures i < |prev.tx.inputs| && Spend(u).outpoint == prev.tx.inputs[i].outpoint
  {
  }

  // ----- child pays for parent -----

  /** The fee added to the child: nothing if the parent pays the new rate, otherwise all the parent would pay. */
  function NetworkFee(prev: PrevTx, prevVSize: nat, minRate: nat, userRate: nat): nat {
    var newFee := GetTxFee(prevVSize, minRate, userRate);
    if newFee <= prev.fee then 0 else newFee
  }

  function ChildCoin(prev: PrevTx, k: nat): Utxo
    requires k < |prev.outputs|
  {
    var e := prev.outputs[k];
    Utxo(prev.txhash, e.ptIdx, e.satoshi, e.blockHeight, e.scriptType)
  }

  /** The request for a child: offer the first output that is ours, to be sent to ourselves. A manual selection
      stays in force, and then the picked coins are spent instead. */
  function ChildRequest(prev: PrevTx, k: nat, prevVSize: nat, details: Request, ownAddress: string): Request
    requires k < |prev.outputs|
  {
    details.(isRbf := false, isRedeposit := true, sendAll := true,
             addressees := if details.addressees == [] then [Addressee(ownAddress, Some(0))] else details.addressees,
             utxos := map[BTC := [ChildCoin(prev, k)]],
             networkFee := NetworkFee(prev, prevVSize, details.minRate, details.userRate),
             oldFee := prev.fee, oldRate := prev.feeRate)
  }

  /** The CPFP half of `check_bump_tx` followed by creation of the child; `None` if no output is ours. */
  method CreateChild(prev: PrevTx, prevVSize: nat, details: Request, ownAddress: string, vsize: VSize, dice: nat)
    returns (r: Option<TxResult>)
    ensures r.Some? <==> FirstRelevant(prev.outputs).Some?
    ensures r.Some? ==>
              var req := ChildRequest(prev, FirstRelevant(prev.outputs).value, prevVSize, details, ownAddress);
              SumsFit(req) ==> r.value == Built(req, vsize, dice)
  {
    hide Built, SumsFit, CeilPerThousand;
    var newFee := GetTxFee(prevVSize, details.minRate, details.userRate);
    var networkFee := if newFee <= prev.fee then 0 else newFee;
    var utxos: seq<Utxo> := [];
    for i := 0 to |prev.outputs|
      invariant utxos == [] && forall j :: 0 <= j < i ==> !prev.outputs[j].isRelevant
    {
      if prev.outputs[i].isRelevant {
        utxos := [ChildCoin(prev, i)];
        var addressees := if details.addressees == [] then [Addressee(ownAddress, Some(0))] else details.addressees;
        var req := details.(isRbf := false, isRedeposit := true, sendAll := true,
                            addressees := addressees, utxos := map[BTC := utxos], networkFee := networkFee,
                            oldFee := prev.fee, oldRate := prev.feeRate);
        var built := CreateTxOutputs(req, vsize, dice);
        return Some(built);
      }
    }
    return None;
  }

  /** Parent and child together pay at least `rate` per 1000 vbytes of both. */
  ghost predicate PairPays(prev: PrevTx, prevVSize: nat, rate: nat, r: TxResult) {
    1000 * (prev.fee + r.fee) >= rate * (prevVSize + r.vsize)
  }

  /** The size of the child: its coins spent, the addressees paid. */
  function ChildSize(req: Request, vsize: VSize): nat {
    VSizeOf(vsize, Tx(SpendAll(Coins(req)), Paid(req.addressees)))
  }

  /** What rounding a fee up to whole satoshi adds, in thousandths. */
  function RoundingGain(x: nat): (r: nat)
    ensures r < 1000
  {
    1000 * CeilPerThousand(x) - x
  }

  /** The parent's own fee, the network fee as it is read back and the rounding of the child's fee pay for the
      parent. */
  predicate NetworkFeeSuffices(prev: PrevTx, prevVSize: nat, childSize: nat, minRate: nat, userRate: nat) {
    var rate := Max(minRate, userRate);
    1000 * (prev.fee + Low32(NetworkFee(prev, prevVSize, minRate, userRate))) + RoundingGain(childSize * rate)
      >= prevVSize * rate
  }

  /** It does for every parent that costs less than 2^32 satoshi at the new rate. */
  lemma {:induction false} SmallFeesSuffice(prev: PrevTx, prevVSize: nat, childSize: nat, minRate: nat, userRate: nat)
    requires GetTxFee(prevVSize, minRate, userRate) < TWO_TO_32
    ensures NetworkFeeSuffices(prev, prevVSize, childSize, minRate, userRate)
  {
    hide RoundingGain;
    var newFee := GetTxFee(prevVSize, minRate, userRate);
    assert prev.fee + Low32(NetworkFee(prev, prevVSize, minRate, userRate)) >= newFee;
  }

  /** A child built without error lifts the pair of transactions to the requested (or minimum) rate if and
      only if the network fee suffices. */
  lemma {:induction false} ChildLiftsPair(prev: PrevTx, k: nat, prevVSize: nat, details: Request, ownAddress: string,
                                          vsize: VSize, dice: nat)
    requires k < |prev.outputs|
    requires FitsInWords(ChildRequest(prev, k, prevVSize, details, ownAddress), vsize)
    requires Built(ChildRequest(prev, k, prevVSize, details, ownAddress), vsize, dice).error.NoError?
    ensures var req := ChildRequest(prev, k, prevVSize, details, ownAddress);
            var r := Built(req, vsize, dice);
            && r.tx.inputs == SpendAll(Coins(req))
            && (details.picked.None? ==>
                  && |r.tx.inputs| == 1 && r.tx.inputs[0].scriptType == prev.outputs[k].scriptType
                  && r.tx.inputs[0].outpoint == Outpoint(Reverse(prev.txhash), prev.outputs[k].ptIdx))
            && (PairPays(prev, prevVSize, Max(details.minRate, details.userRate), r) <==>
                  NetworkFeeSuffices(prev, prevVSize, ChildSize(req, vsize), details.minRate, details.userRate))
  {
    var req := ChildRequest(prev, k, prevVSize, details, ownAddress);
    hide SoundTx, FitsInWords, Built, SpendsInOrder, FeeIsTight, NetworkFee, NetworkFeeSuffices, PairPays, ChildSize;
    BuiltIsSound(req, vsize, dice);
    SoundParts(req, vsize, Built(req, vsize, dice));
    SendAllSpendsCoin(req, vsize, dice);
    SoundChildLiftsPair(prev, prevVSize, req, vsize, Built(req, vsize, dice));
    if details.picked.None? {
      assert Coins(req) == [ChildCoin(prev, k)];
    }
  }

  lemma {:induction false} SoundChildLiftsPair(prev: PrevTx, prevVSize: nat, req: Request, vsize: VSize, r: TxResult)
    requires req.sendAll && !req.isRbf && r.used == Coins(req)
    requires req.networkFee == NetworkFee(prev, prevVSize, req.minRate, req.userRate)
    requires SpendsInOrder(req, r) && FeeIsTight(req, vsize, r)
    requires r.vsize == VSizeOf(vsize, r.tx) == ChildSize(req, vsize)
    ensures r.tx.inputs == SpendAll(Coins(req))
    ensures PairPays(prev, prevVSize, Max(req.minRate, req.userRate), r) <==>
              NetworkFeeSuffices(prev, prevVSize, ChildSize(req, vsize), req.minRate, req.userRate)
  {
    assert [] + r.used == Coins(req);
    hide NetworkFee, ChildSize;
    PairArithmetic(prev.fee + Low32(req.networkFee), prevVSize, r.vsize, Max(req.minRate, req.userRate));
  }

  /** Sending everything spends every coin and adds no change output. */
  lemma {:induction false} SendAllSpendsCoin(req: Request, vsize: VSize, dice: nat)
    requires FitsInWords(req, vsize) && req.sendAll && !req.isRbf
    requires Built(req, vsize, dice).error.NoError?
    ensures Built(req, vsize, dice).used == Coins(req)
    ensures VSizeOf(vsize, Built(req, vsize, dice).tx) == ChildSize(req, vsize)
  {
    var f := LoopEnd(req, vsize);
    LoopEndIsSound(req, vsize);
    SendAllUsesEverything(LoopParams(req, vsize), Start(req), MaxPasses(|req.utxos|));
    hide LoopEnd;
    ExitIsVisited(req, vsize, f);
    SizeIsUnchanged(req, vsize, f, dice, EntryError(req));
    assert [] + Coins(req)[..|Coins(req)|] == Coins(req);
  }

  /** `funds` is what is paid towards the parent, by its own fee and by the child. */
  lemma {:induction false} PairArithmetic(funds: nat, oldSize: nat, childSize: nat, rate: nat)
    ensures 1000 * (funds + CeilPerThousand(childSize * rate)) >= rate * (oldSize + childSize)
       <==> 1000 * funds + RoundingGain(childSize * rate) >= oldSize * rate
  {
    assert rate * (oldSize + childSize) == oldSize * rate + childSize * rate;
  }
}
