/** Shuffling the inputs of a finished transaction together with the coins they spend. */
module InputShuffle {
  import opened Transactions
  import opened CreateTransaction
  import opened TransactionBuilder
  import opened UtxoOrder
  import opened FeeLoop
  import opened FeeLoopProgress

  /** A default-constructed input, which no coin is spent by. */
  const BLANK := TxInput(Outpoint([], 0), 0)

  function FirstIndex<T(==)>(s: seq<T>, x: T): (r: nat)
    requires x in s
    ensures r < |s| && s[r] == x && x !in s[..r]
  {
    if s[0] == x then 0 else
      var r := FirstIndex(s[1..], x);
      assert s[..r + 1] == [s[0]] + s[1..][..r];
      r + 1
  }

  lemma {:induction false} FirstIndexIs<T>(s: seq<T>, x: T, i: nat)
    requires i < |s| && s[i] == x && x !in s[..i]
    ensures FirstIndex(s, x) == i
  {
    if i > 0 {
      assert s[..i][0] == s[0];
      assert s[..i] == [s[0]] + s[1..][..i - 1];
      FirstIndexIs(s[1..], x, i - 1);
    }
  }

  /** `new_position_of`: `emplace` keeps the first position of a repeated coin. */
  method PositionMap(shuffled: seq<Utxo>) returns (m: map<Utxo, nat>)
    ensures forall u :: u in m <==> u in shuffled
    ensures forall u :: u in shuffled ==> m[u] == FirstIndex(shuffled, u)
  {
    m := map[];
    for i := 0 to |shuffled|
      invariant forall u :: u in m <==> u in shuffled[..i]
      invariant forall u :: u in m ==> m[u] < i && shuffled[m[u]] == u && u !in shuffled[..m[u]]
    {
      assert shuffled[..i + 1] == shuffled[..i] + [shuffled[i]];
      if shuffled[i] !in m {
        m := m[shuffled[i] := i];
      }
    }
    assert shuffled[..|shuffled|] == shuffled;
    forall u | u in shuffled
      ensures m[u] == FirstIndex(shuffled, u)
    {
      FirstIndexIs(shuffled, u, m[u]);
    }
  }

  /** Each input moves to the first position of its coin in the new order. */
  function Reordered(inputs: seq<TxInput>, used: seq<Utxo>, shuffled: seq<Utxo>, k: nat): (r: seq<TxInput>)
    requires |inputs| == |used| == |shuffled| && k <= |used| && multiset(used) == multiset(shuffled)
    ensures |r| == |used|
  {
    if k == 0 then seq(|used|, _ => BLANK)
    else
      assert used[k - 1] in multiset(used);
      Reordered(inputs, used, shuffled, k - 1)[FirstIndex(shuffled, used[k - 1]) := inputs[k - 1]]
  }

  /** Rearranges the trailing inputs in place; the inputs before them, of a replaced transaction, stay. */
  method RandomiseInputs(inputs: array<TxInput>, used: seq<Utxo>, shuffled: seq<Utxo>)
    requires |used| == |shuffled| <= inputs.Length && multiset(used) == multiset(shuffled)
    modifies inputs
    ensures var first := inputs.Length - |used|;
            inputs[..] == old(inputs[..first])
                          + Reordered(old(inputs[first..]), used, shuffled, |used|)
  {
    var first := inputs.Length - |used|;
    var reordered := Reorder(inputs, used, shuffled);
    hide Reordered;
    CopyBack(inputs, first, reordered);
  }

  /** Writes the reordered inputs back behind the first ones. */
  method CopyBack(inputs: array<TxInput>, first: nat, reordered: array<TxInput>)
    requires first + reordered.Length == inputs.Length && inputs != reordered
    modifies inputs
    ensures inputs[..] == old(inputs[..first]) + reordered[..]
  {
    for i := 0 to reordered.Length
      invariant forall j :: 0 <= j < first ==> inputs[j] == old(inputs[j])
      invariant forall j :: 0 <= j < i ==> inputs[first + j] == reordered[j]
    {
      inputs[first + i] := reordered[i];
    }
    assert inputs[..first] == old(inputs[..first]);
    assert inputs[first..] == reordered[..];
    assert inputs[..] == inputs[..first] + inputs[first..];
  }

  method Reorder(inputs: array<TxInput>, used: seq<Utxo>, shuffled: seq<Utxo>) returns (reordered: array<TxInput>)
    requires |used| == |shuffled| <= inputs.Length && multiset(used) == multiset(shuffled)
    ensures fresh(reordered) && reordered.Length == |used|
    ensures reordered[..] == Reordered(inputs[inputs.Length - |used|..], used, shuffled, |used|)
  {
    var newPositionOf := PositionMap(shuffled);
    var first := inputs.Length - |used|;
    reordered := new TxInput[|used|](_ => BLANK);
    assert reordered[..] == seq(|used|, _ => BLANK);
    for i := 0 to |used|
      invariant inputs[..] == old(inputs[..])
      invariant reordered[..] == Reordered(inputs[first..], used, shuffled, i)
    {
      assert used[i] in multiset(used);
      reordered[newPositionOf[used[i]]] := inputs[first + i];
    }
  }

  lemma {:induction false} ReorderedAt(used: seq<Utxo>, shuffled: seq<Utxo>, k: nat, j: nat)
    requires |used| == |shuffled| && k <= |used| && multiset(used) == multiset(shuffled) && j < |used|
    ensures Reordered(SpendAll(used), used, shuffled, k)[j]
         == if FirstIndex(shuffled, shuffled[j]) == j && shuffled[j] in used[..k] then Spend(shuffled[j]) else BLANK
  {
    if k > 0 {
      ReorderedAt(used, shuffled, k - 1, j);
      var u := used[k - 1];
      assert u in multiset(used);
      assert used[..k] == used[..k - 1] + [u];
      if FirstIndex(shuffled, u) == j {
        assert shuffled[j] == u;
      } else if shuffled[j] == u {
        assert FirstIndex(shuffled, shuffled[j]) != j;
      }
    }
  }

  /** A repeated value shows up in the multiplicities, and conversely. */
  lemma {:induction false} DistinctByCount<T>(s: seq<T>)
    ensures Distinct(s) <==> forall x :: x in s ==> multiset(s)[x] == 1
  {
    if s != [] {
      var t, x := s[1..], s[0];
      DistinctByCount(t);
      assert s == [x] + t;
      assert multiset(s) == multiset{x} + multiset(t);
      if Distinct(s) {
        assert Distinct(t) by {
          forall i, j | 0 <= i < j < |t|
            ensures t[i] != t[j]
          {
            assert s[i + 1] != s[j + 1];
          }
        }
        assert x !in t;
      } else if forall y :: y in s ==> multiset(s)[y] == 1 {
        assert multiset(s)[x] == 1;
        assert x !in multiset(t);
        assert x !in t;
        forall y | y in t
          ensures multiset(t)[y] == 1
        {
          assert multiset(s)[y] == 1;
        }
        forall i, j | 0 <= i < j < |s|
          ensures s[i] != s[j]
        {
          if i == 0 {
            assert s[j] == t[j - 1];
          } else {
            assert s[i] == t[i - 1] && s[j] == t[j - 1];
          }
        }
        assert false;
      }
    }
  }

  /** After a shuffle every input still spends its coin exactly when no coin was listed twice. */
  lemma {:induction false} ShuffleKeepsPairing(used: seq<Utxo>, shuffled: seq<Utxo>)
    requires |used| == |shuffled| && multiset(used) == multiset(shuffled)
    requires forall u :: u in used ==> Spend(u) != BLANK
    ensures Reordered(SpendAll(used), used, shuffled, |used|) == SpendAll(shuffled) <==> Distinct(used)
  {
    var r := Reordered(SpendAll(used), used, shuffled, |used|);
    assert used[..|used|] == used;
    forall j | 0 <= j < |used|
      ensures r[j] == SpendAll(shuffled)[j] <==> FirstIndex(shuffled, shuffled[j]) == j
    {
      assert shuffled[j] in multiset(shuffled);
      assert shuffled[j] in used;
      ReorderedAt(used, shuffled, |used|, j);
    }
    SameDistinct(used, shuffled);
    if Distinct(shuffled) {
      assert r == SpendAll(shuffled);
    } else {
      var i, j :| 0 <= i < j < |shuffled| && shuffled[i] == shuffled[j];
      assert shuffled[..j][i] == shuffled[j];
      assert FirstIndex(shuffled, shuffled[j]) != j;
      assert r[j] != SpendAll(shuffled)[j];
    }
  }

  lemma {:induction false} SameDistinct<T>(s: seq<T>, t: seq<T>)
    requires multiset(s) == multiset(t)
    ensures Distinct(s) <==> Distinct(t)
  {
    DistinctByCount(s);
    DistinctByCount(t);
    assert forall x :: x in s <==> x in multiset(s);
    assert forall x :: x in t <==> x in multiset(t);
  }

  // ----- the shuffle in its place -----

  /** Input i spends the i-th coin, old coins first. */
  ghost predicate Paired(kept: seq<Utxo>, s: Loop) {
    s.tx.inputs == SpendAll(kept + s.used)
  }

  lemma {:induction false} AddInputKeepsPairing(kept: seq<Utxo>, s: Loop, u: Utxo)
    requires Paired(kept, s)
    ensures Paired(kept, AddInput(s, u))
  {
    AppendUtxo(kept + s.used, u);
    assert kept + (s.used + [u]) == (kept + s.used) + [u];
  }

  /** Whatever the fees, the amounts and the number of passes, inputs and coins stay paired. */
  lemma {:induction false} RunKeepsPairing(p: Params, kept: seq<Utxo>, s: Loop, passes: nat)
    requires p.numAddressees <= |s.tx.outputs| && Paired(kept, s)
    requires Run(p, s, passes).Left?
    ensures Paired(kept, Run(p, s, passes).state)
    decreases passes
  {
    if OnePass(p, s).Again? {
      if !p.manual && BTC in p.utxos && |s.used| < |p.utxos[BTC]| {
        AddInputKeepsPairing(kept, s, p.utxos[BTC][|s.used|]);
      }
      hide Paired, AddInput;
      RunKeepsPairing(p, kept, OnePass(p, s).next, passes - 1);
    }
  }

  lemma {:induction false} LoopEndIsPaired(req: Request, vsize: VSize)
    requires LoopEnd(req, vsize).Left?
    ensures Paired(Kept(req), LoopEnd(req, vsize).state)
  {
    SpendAllConcat(Kept(req), FirstCoins(req));
    RunKeepsPairing(LoopParams(req, vsize), Kept(req), Start(req), MaxPasses(|req.utxos|));
  }

  lemma {:induction false} BuiltHasInputs(req: Request, vsize: VSize, dice: nat)
    ensures |Built(req, vsize, dice).used| <= |Built(req, vsize, dice).tx.inputs|
  {
    if LoopEnd(req, vsize).Left? {
      LoopEndIsPaired(req, vsize);
    }
    hide LoopEnd;
  }

  /** `create_ga_transaction_impl`: the result is stored before the inputs are shuffled, so the shuffle
      (any permutation of the chosen coins) reaches neither the returned transaction nor its coins. */
  method CreateGaTransaction(req: Request, vsize: VSize, dice: nat, randomiseInputs: bool,
                             shuffle: seq<Utxo> -> seq<Utxo>) returns (r: TxResult)
    requires SumsFit(req)
    requires forall us: seq<Utxo> :: |shuffle(us)| == |us| && multiset(shuffle(us)) == multiset(us)
    ensures r == Built(req, vsize, dice)
  {
    r := CreateTxOutputs(req, vsize, dice);
    if |r.used| > 1 && randomiseInputs {
      BuiltHasInputs(req, vsize, dice);
      var inputs := new TxInput[|r.tx.inputs|](i requires 0 <= i < |r.tx.inputs| => r.tx.inputs[i]);
      RandomiseInputs(inputs, r.used, shuffle(r.used));
    }
  }

  /** `get_ga_signing_inputs`, for a result without error. */
  function SigningInputs(req: Request, r: TxResult): seq<Utxo>
    requires r.error.NoError?
  {
    Kept(req) + r.used
  }

  /** Input i of the returned transaction spends exactly the i-th signing input, for every request. */
  lemma {:induction false} SigningIsAligned(req: Request, vsize: VSize, dice: nat)
    requires Built(req, vsize, dice).error.NoError?
    ensures var r := Built(req, vsize, dice);
            && |r.tx.inputs| == |SigningInputs(req, r)|
            && forall i :: 0 <= i < |r.tx.inputs| ==>
                 r.tx.inputs[i].outpoint == Outpoint(Reverse(SigningInputs(req, r)[i].txhash),
                                                     SigningInputs(req, r)[i].ptIdx)
  {
    LoopEndIsPaired(req, vsize);
    hide LoopEnd;
  }
}
