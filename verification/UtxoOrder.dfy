/** The order in which coins are offered for selection: oldest first, unconfirmed last. */
module UtxoOrder {
  import opened Amounts
  import opened Transactions
  import opened FeeLoop
  import opened FeeLoopProgress
  import opened CreateTransaction
  import opened TransactionBuilder

  /** The sort comparator; block height 0 means unconfirmed. */
  predicate Before(l: Utxo, r: Utxo) {
    if l.blockHeight == 0 then false
    else if r.blockHeight == 0 then true
    else l.blockHeight < r.blockHeight
  }

  ghost predicate Incomparable(l: Utxo, r: Utxo) {
    !Before(l, r) && !Before(r, l)
  }

  /** The comparator is a strict weak order, so sorting with it is meaningful. */
  lemma {:induction false} BeforeIsStrictWeakOrder(a: Utxo, b: Utxo, c: Utxo)
    ensures !Before(a, a)
    ensures Before(a, b) && Before(b, c) ==> Before(a, c)
    ensures Incomparable(a, b) && Incomparable(b, c) ==> Incomparable(a, c)
  {
  }

  /** What any sort with the comparator establishes. */
  ghost predicate OldestFirst(us: seq<Utxo>) {
    forall i, j :: 0 <= i < j < |us| ==> !Before(us[j], us[i])
  }

  ghost predicate Distinct<T>(s: seq<T>) {
    forall i, j :: 0 <= i < j < |s| ==> s[i] != s[j]
  }

  /** Whatever the fee function and the number of passes, automatic selection stays a prefix. */
  lemma {:induction false} RunTakesPrefix(p: Params, s: Loop, passes: nat)
    requires p.numAddressees <= |s.tx.outputs| && !p.manual && s.used <= BtcUtxos(p)
    requires Run(p, s, passes).Left?
    ensures Run(p, s, passes).state.used <= BtcUtxos(p)
    decreases passes
  {
    hide Add64, Sub64, TxFee, Spend;
    if OnePass(p, s).Again? {
      RunTakesPrefix(p, OnePass(p, s).next, passes - 1);
    }
  }

  lemma {:induction false} BuiltTakesPrefix(req: Request, vsize: VSize, dice: nat)
    requires req.picked.None?
    ensures Built(req, vsize, dice).used <= Coins(req)
  {
    if LoopEnd(req, vsize).Left? {
      RunTakesPrefix(LoopParams(req, vsize), Start(req), MaxPasses(|req.utxos|));
    }
  }

  lemma {:induction false} PrefixIsDistinct<T>(kept: seq<T>, used: seq<T>, coins: seq<T>)
    requires used <= coins
    ensures Distinct(kept + coins) ==> Distinct(kept + used)
  {
    assert kept + used == (kept + coins)[..|kept + used|];
  }

  /** No coin left behind is older than one that is spent. */
  ghost predicate SpendsOldest(used: seq<Utxo>, coins: seq<Utxo>) {
    forall u, v :: u in used && v in coins && v !in used && v.blockHeight != 0 ==> 0 < u.blockHeight <= v.blockHeight
  }

  /** An unconfirmed coin is spent only together with every confirmed one. */
  ghost predicate UnconfirmedLast(used: seq<Utxo>, coins: seq<Utxo>) {
    (exists u :: u in used && u.blockHeight == 0) ==> forall v :: v in coins && v.blockHeight != 0 ==> v in used
  }

  /** For every request, with or without an error: no coin is spent twice, nor one that the replaced transaction
      spent already, no spent coin is younger than one left behind, and an unconfirmed coin is spent only together
      with every confirmed one. */
  lemma {:induction false} OldCoinsGoFirst(req: Request, vsize: VSize, dice: nat)
    requires req.picked.None? && OldestFirst(Coins(req)) && Distinct(Coins(req))
    ensures var used := Built(req, vsize, dice).used;
            && Distinct(used)
            && (Distinct(Kept(req) + Coins(req)) ==> Distinct(Kept(req) + used))
            && SpendsOldest(used, Coins(req)) && UnconfirmedLast(used, Coins(req))
  {
    BuiltTakesPrefix(req, vsize, dice);
    hide Built, Coins, Kept, Distinct, OldestFirst, SpendsOldest, UnconfirmedLast;
    var used, coins := Built(req, vsize, dice).used, Coins(req);
    PrefixIsDistinct(Kept(req), used, coins);
    PrefixAlone(used, coins);
    PrefixSpendsOldest(used, coins);
  }

  lemma {:induction false} PrefixAlone<T>(used: seq<T>, coins: seq<T>)
    requires used <= coins && Distinct(coins)
    ensures Distinct(used)
  {
  }

  lemma {:induction false} PrefixSpendsOldest(used: seq<Utxo>, coins: seq<Utxo>)
    requires used <= coins && OldestFirst(coins)
    ensures SpendsOldest(used, coins) && UnconfirmedLast(used, coins)
  {
    hide OldestFirst;
    forall u, v | u in used && v in coins && v !in used && v.blockHeight != 0
      ensures 0 < u.blockHeight <= v.blockHeight
    {
      PrefixIsOldest(used, coins, u, v);
    }
  }

  lemma {:induction false} PrefixIsOldest(used: seq<Utxo>, coins: seq<Utxo>, u: Utxo, v: Utxo)
    requires used <= coins && OldestFirst(coins) && u in used && v in coins && v !in used && v.blockHeight != 0
    ensures 0 < u.blockHeight <= v.blockHeight
  {
    var i :| 0 <= i < |used| && used[i] == u;
    var j :| 0 <= j < |coins| && coins[j] == v;
    assert forall k :: 0 <= k < |used| ==> coins[k] in used;
    assert !Before(coins[j], coins[i]);
  }
}
