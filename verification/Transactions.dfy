/** Unspent outputs, transactions and the bookkeeping functions the builder is specified with. */
module Transactions {

  /** A transaction hash; `Utxo` holds it in display order, `TxInput` in serialisation order. */
  type Hash = seq<nat>

  function Reverse<T>(s: seq<T>): (r: seq<T>)
    ensures |r| == |s|
    ensures forall i :: 0 <= i < |s| ==> r[i] == s[|s| - 1 - i]
  {
    seq(|s|, i requires 0 <= i < |s| => s[|s| - 1 - i])
  }

  lemma {:induction false} ReverseTwice<T>(s: seq<T>)
    ensures Reverse(Reverse(s)) == s
  {
    forall i | 0 <= i < |s|
      ensures Reverse(Reverse(s))[i] == s[i]
    {
    }
  }

  datatype Outpoint = Outpoint(txid: Hash, index: nat)

  datatype Utxo = Utxo(txhash: Hash, ptIdx: nat, satoshi: nat, blockHeight: nat, scriptType: nat)

  datatype TxInput = TxInput(outpoint: Outpoint, scriptType: nat)

  datatype TxOutput = TxOutput(script: string, satoshi: nat)

  datatype Tx = Tx(inputs: seq<TxInput>, outputs: seq<TxOutput>)

  /** The virtual size libwally reports: inputs carry dummy signatures, amounts have a fixed width. */
  type VSize = (seq<TxInput>, multiset<string>) -> nat

  /** The input `add_utxo` appends for a utxo. */
  function Spend(u: Utxo): TxInput {
    TxInput(Outpoint(Reverse(u.txhash), u.ptIdx), u.scriptType)
  }

  function SpendAll(us: seq<Utxo>): (r: seq<TxInput>)
    ensures |r| == |us|
    ensures forall i :: 0 <= i < |us| ==> r[i] == Spend(us[i])
  {
    seq(|us|, i requires 0 <= i < |us| => Spend(us[i]))
  }

  function SumUtxos(us: seq<Utxo>): nat {
    if us == [] then 0 else SumUtxos(us[..|us| - 1]) + us[|us| - 1].satoshi
  }

  function SumOutputs(outs: seq<TxOutput>): nat {
    if outs == [] then 0 else SumOutputs(outs[..|outs| - 1]) + outs[|outs| - 1].satoshi
  }

  function ScriptList(outs: seq<TxOutput>): (r: seq<string>)
    ensures |r| == |outs|
    ensures forall i :: 0 <= i < |outs| ==> r[i] == outs[i].script
  {
    seq(|outs|, i requires 0 <= i < |outs| => outs[i].script)
  }

  /** Output scripts with their multiplicity: all that the size of the outputs depends on. */
  function Scripts(outs: seq<TxOutput>): multiset<string> {
    multiset(ScriptList(outs))
  }

  function VSizeOf(vsize: VSize, tx: Tx): nat {
    vsize(tx.inputs, Scripts(tx.outputs))
  }

  /** A size that grows with every input and output, as sizes do. */
  function LinearSize(ins: seq<TxInput>, outs: multiset<string>): nat {
    10 + 100 * |ins| + 34 * |outs|
  }

  lemma {:induction false} LinearSizeOf(tx: Tx)
    ensures VSizeOf(LinearSize, tx) == 10 + 100 * |tx.inputs| + 34 * |tx.outputs|
  {
    ScriptCount(tx.outputs);
  }

  lemma {:induction false} ScriptCount(outs: seq<TxOutput>)
    ensures |Scripts(outs)| == |outs|
  {
    assert |Scripts(outs)| == |ScriptList(outs)|;
  }

  lemma {:induction false} AppendUtxo(us: seq<Utxo>, u: Utxo)
    ensures SumUtxos(us + [u]) == SumUtxos(us) + u.satoshi
    ensures SpendAll(us + [u]) == SpendAll(us) + [Spend(u)]
  {
    assert (us + [u])[..|us|] == us;
  }

  lemma {:induction false} AppendOutput(outs: seq<TxOutput>, o: TxOutput)
    ensures SumOutputs(outs + [o]) == SumOutputs(outs) + o.satoshi
  {
    assert (outs + [o])[..|outs|] == outs;
  }

  lemma {:induction false} PrefixSum(us: seq<Utxo>, n: nat)
    requires n <= |us|
    ensures SumUtxos(us[..n]) <= SumUtxos(us)
    decreases |us| - n
  {
    if n < |us| {
      assert us[..n + 1][..n] == us[..n];
      PrefixSum(us, n + 1);
    } else {
      assert us[..n] == us;
    }
  }

  lemma {:induction false} SumUtxosConcat(a: seq<Utxo>, b: seq<Utxo>)
    ensures SumUtxos(a + b) == SumUtxos(a) + SumUtxos(b)
  {
    if b == [] {
      assert a + b == a;
    } else {
      assert (a + b)[..|a + b| - 1] == a + b[..|b| - 1];
      SumUtxosConcat(a, b[..|b| - 1]);
    }
  }

  lemma {:induction false} SpendAllConcat(a: seq<Utxo>, b: seq<Utxo>)
    ensures SpendAll(a) + SpendAll(b) == SpendAll(a + b)
  {
  }

  /** Overwriting one output shifts the sum by exactly that output. */
  lemma {:induction false} ReplaceOutput(outs: seq<TxOutput>, i: nat, o: TxOutput)
    requires i < |outs|
    ensures SumOutputs(outs[i := o]) == SumOutputs(outs) - outs[i].satoshi + o.satoshi
  {
    var n := |outs| - 1;
    if i == n {
      assert outs[i := o][..n] == outs[..n];
    } else {
      ReplaceOutput(outs[..n], i, o);
      assert outs[i := o][..n] == outs[..n][i := o];
    }
  }

  function SetAmount(outs: seq<TxOutput>, i: nat, satoshi: nat): seq<TxOutput>
    requires i < |outs|
  {
    outs[i := outs[i].(satoshi := satoshi)]
  }

  function Swap(outs: seq<TxOutput>, i: nat, j: nat): seq<TxOutput>
    requires i < |outs| && j < |outs|
  {
    outs[i := outs[j]][j := outs[i]]
  }

  lemma {:induction false} SetAmountEffect(outs: seq<TxOutput>, i: nat, satoshi: nat)
    requires i < |outs|
    ensures SumOutputs(SetAmount(outs, i, satoshi)) == SumOutputs(outs) - outs[i].satoshi + satoshi
    ensures Scripts(SetAmount(outs, i, satoshi)) == Scripts(outs)
  {
    ReplaceOutput(outs, i, outs[i].(satoshi := satoshi));
    assert ScriptList(SetAmount(outs, i, satoshi)) == ScriptList(outs);
  }

  lemma {:induction false} SwapMultiset<T>(s: seq<T>, i: nat, j: nat)
    requires i < |s| && j < |s|
    ensures multiset(s[i := s[j]][j := s[i]]) == multiset(s)
  {
    assert s[i] in multiset(s);
    var t := s[i := s[j]];
    assert multiset(t) == multiset(s) - multiset{s[i]} + multiset{s[j]};
    assert t[j] == s[j];
    assert multiset(t[j := s[i]]) == multiset(t) - multiset{s[j]} + multiset{s[i]};
  }

  /** Swapping two outputs changes neither the value paid out nor the size. */
  lemma {:induction false} SwapEffect(outs: seq<TxOutput>, i: nat, j: nat)
    requires i < |outs| && j < |outs|
    ensures SumOutputs(Swap(outs, i, j)) == SumOutputs(outs)
    ensures Scripts(Swap(outs, i, j)) == Scripts(outs)
    ensures multiset(Swap(outs, i, j)) == multiset(outs)
  {
    SwapMultiset(outs, i, j);
    assert Scripts(Swap(outs, i, j)) == Scripts(outs) by {
      var scripts := ScriptList(outs);
      assert ScriptList(Swap(outs, i, j)) == scripts[i := scripts[j]][j := scripts[i]];
      SwapMultiset(scripts, i, j);
    }
    assert SumOutputs(Swap(outs, i, j)) == SumOutputs(outs) by {
      ReplaceOutput(outs, i, outs[j]);
      ReplaceOutput(outs[i := outs[j]], j, outs[i]);
    }
  }
}
