/** Where the fee loop ends, decided from coins, amounts and fees before it runs: with how many coins, with
    or without change, after how many passes, or short of funds. */
module Settling {
  import opened Amounts
  import opened Transactions
  import opened FeeLoop

  /** What the kept coins and the first `n` candidates add up to. */
  ghost function Total(p: Params, b: Base, n: nat): nat
    requires n <= |Candidates(p, b)|
  {
    SumUtxos(b.kept + Candidates(p, b)[..n])
  }

  /** Amount and fee are covered by `n` coins. */
  ghost predicate Covers(p: Params, b: Base, n: nat, change: bool)
    requires n <= |Candidates(p, b)|
  {
    Total(p, b, n) >= p.required + Due(p, Visited(p, b, n, change))
  }

  /** They are covered with at least the dust threshold to spare. */
  ghost predicate CoversDust(p: Params, b: Base, n: nat, change: bool)
    requires n <= |Candidates(p, b)|
  {
    Total(p, b, n) >= p.required + Due(p, Visited(p, b, n, change)) + p.dust
  }

  /** `n` coins do: a change output must not be dust. */
  ghost predicate Enough(p: Params, b: Base, n: nat, change: bool)
    requires n <= |Candidates(p, b)|
  {
    if change then CoversDust(p, b, n, change) else Covers(p, b, n, change)
  }

  /** The fewest coins, from `n` on, that do; one more than there are if none do. */
  ghost function FirstEnough(p: Params, b: Base, n: nat, change: bool): (r: nat)
    requires n <= |Candidates(p, b)|
    ensures n <= r <= |Candidates(p, b)| + 1
    ensures r <= |Candidates(p, b)| ==> Enough(p, b, r, change)
    ensures forall k :: n <= k < r ==> !Enough(p, b, k, change)
    decreases |Candidates(p, b)| - n
  {
    if Enough(p, b, n, change) then n
    else if n == |Candidates(p, b)| then n + 1
    else FirstEnough(p, b, n + 1, change)
  }

  lemma {:induction false} FirstEnoughIs(p: Params, b: Base, n: nat, change: bool, q: nat)
    requires n <= |Candidates(p, b)| && n <= q <= |Candidates(p, b)| + 1
    requires forall k :: n <= k < q ==> !Enough(p, b, k, change)
    requires q <= |Candidates(p, b)| ==> Enough(p, b, q, change)
    ensures FirstEnough(p, b, n, change) == q
  {
    hide Enough, Candidates;
  }

  /** The passes spent on going from `n` to `q` coins with a change output: one for each coin, and one more
      where amount and fee are covered but the change is dust. */
  ghost function Adding(p: Params, b: Base, n: nat, q: nat): nat
    requires n <= q <= |Candidates(p, b)| + 1
    decreases q - n
  {
    if n == q then 0 else (if Covers(p, b, n, true) then 2 else 1) + Adding(p, b, n + 1, q)
  }

  datatype Outcome =
    | Settles(coins: nat, withChange: bool, passes: nat)
    | RunsShort(passes: nat)

  function Later(w: Outcome, more: nat): Outcome {
    w.(passes := w.passes + more)
  }

  /** The change output stays, so the fewest coins are needed with which it is not dust. */
  ghost function OutcomeWithChange(p: Params, b: Base, n: nat): (w: Outcome)
    requires n <= |Candidates(p, b)|
    ensures w.Settles? ==> w.coins <= |Candidates(p, b)|
  {
    var q := FirstEnough(p, b, n, true);
    if q <= |Candidates(p, b)| then Settles(q, true, Adding(p, b, n, q) + 1) else RunsShort(Adding(p, b, n, q))
  }

  /** The fewest coins that cover amount and fee decide: if less than dust is left over there is no change,
      otherwise there is a change output from then on. */
  ghost function OutcomeWithout(p: Params, b: Base, n: nat): (w: Outcome)
    requires n <= |Candidates(p, b)|
    ensures w.Settles? ==> w.coins <= |Candidates(p, b)|
  {
    var m := FirstEnough(p, b, n, false);
    if m > |Candidates(p, b)| then RunsShort(m - n)
    else if !CoversDust(p, b, m, false) then Settles(m, false, m - n + 1)
    else Later(OutcomeWithChange(p, b, m), m - n + 1)
  }

  /** Where a loop that has `n` coins, and a change output or not, ends. */
  ghost function LoopOutcome(p: Params, b: Base, n: nat, change: bool): (w: Outcome)
    requires n <= |Candidates(p, b)|
    ensures w.Settles? ==> w.coins <= |Candidates(p, b)|
  {
    if p.sendAll then
      var all := |Candidates(p, b)|;
      if p.available >= Due(p, Visited(p, b, all, false)) + p.dust then Settles(all, false, 1) else RunsShort(1)
    else if change then OutcomeWithChange(p, b, n)
    else OutcomeWithout(p, b, n)
  }

  /** A shortage is reported as such, and not as a missing key of the coin list. */
  predicate Reports(p: Params) {
    p.sendAll || p.manual || p.utxos == map[] || BTC in p.utxos
  }

  /** The run `r` ended as `w` says, if the limit allowed for it. */
  ghost predicate EndsAs(p: Params, r: Final, w: Outcome, limit: nat) {
    if limit < w.passes then r.Capped?
    else match w
      case Settles(coins, withChange, _) =>
        r.Left? && !r.insufficient && |r.state.used| == coins && r.state.haveChange == withChange
      case RunsShort(_) => if Reports(p) then r.Left? && r.insufficient else r.Threw?
  }

  // ----- one pass -----

  /** The pass adds the next coin, or there is none and it ends the loop. */
  ghost predicate AddsOrEnds(p: Params, b: Base, s: Loop, r: Pass) {
    if |s.used| < |Candidates(p, b)| then r == Again(AddInput(s, Candidates(p, b)[|s.used|]))
    else if Reports(p) then r.Leave? && r.insufficient
    else r.Throw?
  }

  lemma {:induction false} StateFacts(p: Params, b: Base, s: Loop)
    requires Inv(p, b, s) && Fits(p, b)
    ensures p.numAddressees <= |s.tx.outputs|
    ensures |s.used| <= |Candidates(p, b)| && (p.manual ==> |s.used| == |Candidates(p, b)|)
    ensures s.total == Total(p, b, |s.used|) < TWO_TO_64
    ensures s.tx == Visited(p, b, |s.used|, s.haveChange)
    ensures p.required + Due(p, s.tx) + p.dust < TWO_TO_64
  {
    InvIsVisited(p, b, s);
    FeeDoesFit(p, b, s);
    TotalFits(p, b, s.used);
    assert s.used == Candidates(p, b)[..|s.used|];
  }

  lemma {:induction false} NeedyPass(p: Params, b: Base, s: Loop)
    requires Inv(p, b, s) && Fits(p, b) && !p.sendAll && |s.used| <= |Candidates(p, b)|
    requires s.force || !Covers(p, b, |s.used|, s.haveChange)
    ensures p.numAddressees <= |s.tx.outputs| && AddsOrEnds(p, b, s, OnePass(p, s))
  {
    StateFacts(p, b, s);
    hide Fits, Inv, Total, Visited;
    assert Add64(p.required, Add64(TxFee(p, s.tx), p.networkFee)) == p.required + Due(p, s.tx);
  }

  lemma {:induction false} CoveredPass(p: Params, b: Base, s: Loop)
    requires Inv(p, b, s) && Fits(p, b) && !p.sendAll && |s.used| <= |Candidates(p, b)|
    requires !s.force && Covers(p, b, |s.used|, s.haveChange)
    ensures p.numAddressees <= |s.tx.outputs|
    ensures var r := OnePass(p, s);
            if CoversDust(p, b, |s.used|, s.haveChange) == s.haveChange
            then r.Leave? && !r.insufficient && r.state == s
            else r == Again(if s.haveChange then s.(force := true) else AddChange(p, s))
  {
    StateFacts(p, b, s);
    hide Fits, Inv, Total, Visited;
    assert Add64(p.required, Add64(TxFee(p, s.tx), p.networkFee)) == p.required + Due(p, s.tx);
  }

  // ----- the run -----

  /** The outcome when the next coin is added in any case. */
  ghost function OutcomeForced(p: Params, b: Base, n: nat): Outcome
    requires n <= |Candidates(p, b)|
  {
    if n == |Candidates(p, b)| then RunsShort(1) else Later(OutcomeWithChange(p, b, n + 1), 1)
  }

  /** The outcome with a change output, from one number of coins to the next. */
  lemma {:induction false} ChangeOutcomeStep(p: Params, b: Base, n: nat)
    requires n <= |Candidates(p, b)|
    ensures OutcomeWithChange(p, b, n).passes > 0
    ensures OutcomeWithChange(p, b, n)
         == if Enough(p, b, n, true) then Settles(n, true, 1)
            else if Covers(p, b, n, true) then Later(OutcomeForced(p, b, n), 1)
            else OutcomeForced(p, b, n)
  {
    hide Covers, Enough, Candidates;
    if n == |Candidates(p, b)| {
      assert Adding(p, b, n + 1, n + 1) == 0;
    }
  }

  /** The same without a change output. */
  lemma {:induction false} OutcomeStep(p: Params, b: Base, n: nat)
    requires n <= |Candidates(p, b)|
    ensures OutcomeWithout(p, b, n).passes > 0
    ensures OutcomeWithout(p, b, n)
         == if !Covers(p, b, n, false) then
              if n == |Candidates(p, b)| then RunsShort(1) else Later(OutcomeWithout(p, b, n + 1), 1)
            else if CoversDust(p, b, n, false) then Later(OutcomeWithChange(p, b, n), 1)
            else Settles(n, false, 1)
  {
    hide Covers, CoversDust, Candidates, OutcomeWithChange;
  }

  lemma {:induction false} NoPasses(p: Params, s: Loop, w: Outcome)
    requires p.numAddressees <= |s.tx.outputs| && w.passes > 0
    ensures EndsAs(p, Run(p, s, 0), w, 0)
  {
  }

  lemma {:induction false} GoesRound(p: Params, s: Loop, next: Loop, w: Outcome, passes: nat)
    requires p.numAddressees <= |s.tx.outputs| && passes > 0 && OnePass(p, s) == Again(next)
    requires p.numAddressees <= |next.tx.outputs| && EndsAs(p, Run(p, next, passes - 1), w, passes - 1)
    ensures EndsAs(p, Run(p, s, passes), Later(w, 1), passes)
  {
    hide OnePass, Reports;
  }

  lemma {:induction false} LeavesSettled(p: Params, s: Loop, passes: nat)
    requires p.numAddressees <= |s.tx.outputs| && passes > 0
    requires OnePass(p, s).Leave? && !OnePass(p, s).insufficient && OnePass(p, s).state == s
    ensures EndsAs(p, Run(p, s, passes), Settles(|s.used|, s.haveChange, 1), passes)
  {
    hide OnePass, Reports;
  }

  lemma {:induction false} EndsShort(p: Params, b: Base, s: Loop, passes: nat)
    requires p.numAddressees <= |s.tx.outputs| && passes > 0
    requires AddsOrEnds(p, b, s, OnePass(p, s)) && |s.used| >= |Candidates(p, b)|
    ensures EndsAs(p, Run(p, s, passes), RunsShort(1), passes)
  {
    hide OnePass, Reports;
  }

  /** A pass that adds a coin leaves a state like the one before. */
  lemma {:induction false} CoinIsAdded(p: Params, b: Base, s: Loop)
    requires Inv(p, b, s) && Fits(p, b) && AddsOrEnds(p, b, s, OnePass(p, s)) && |s.used| < |Candidates(p, b)|
    ensures var next := AddInput(s, Candidates(p, b)[|s.used|]);
            && OnePass(p, s) == Again(next) && Inv(p, b, next)
            && |next.used| == |s.used| + 1 && next.haveChange == s.haveChange && !next.force
  {
    PassKeepsInv(p, b, s);
    hide Inv, Fits, Candidates, OnePass;
  }

  /** The outcome of a loop with a change output, forced to add a coin or not. */
  ghost function OutcomeAt(p: Params, b: Base, n: nat, force: bool): Outcome
    requires n <= |Candidates(p, b)|
  {
    if force then OutcomeForced(p, b, n) else OutcomeWithChange(p, b, n)
  }

  /** The loop once it has a change output. */
  lemma {:induction false} RunWithChange(p: Params, b: Base, s: Loop, passes: nat)
    requires Inv(p, b, s) && Fits(p, b) && !p.sendAll && s.haveChange
    ensures p.numAddressees <= |s.tx.outputs| && |s.used| <= |Candidates(p, b)|
    ensures EndsAs(p, Run(p, s, passes), OutcomeAt(p, b, |s.used|, s.force), passes)
    decreases passes, 1
  {
    StateFacts(p, b, s);
    ChangeOutcomeStep(p, b, |s.used|);
    hide Inv, Fits, Candidates, Covers, EndsAs, Run;
    if passes == 0 {
      NoPasses(p, s, OutcomeAt(p, b, |s.used|, s.force));
    } else if s.force || !Covers(p, b, |s.used|, true) {
      AddCoinToChange(p, b, s, passes);
    } else {
      hide OutcomeWithChange, OutcomeForced;
      CheckChange(p, b, s, passes);
    }
  }

  lemma {:induction false} AddCoinToChange(p: Params, b: Base, s: Loop, passes: nat)
    requires Inv(p, b, s) && Fits(p, b) && !p.sendAll && s.haveChange && passes > 0
    requires p.numAddressees <= |s.tx.outputs| && |s.used| <= |Candidates(p, b)|
    requires s.force || !Covers(p, b, |s.used|, true)
    ensures EndsAs(p, Run(p, s, passes), OutcomeForced(p, b, |s.used|), passes)
    decreases passes, 0
  {
    var n := |s.used|;
    NeedyPass(p, b, s);
    assert n < |Candidates(p, b)| ==> OutcomeAt(p, b, n + 1, false) == OutcomeWithChange(p, b, n + 1)
                                      && OutcomeForced(p, b, n) == Later(OutcomeWithChange(p, b, n + 1), 1);
    assert n == |Candidates(p, b)| ==> OutcomeForced(p, b, n) == RunsShort(1);
    hide Inv, Fits, Candidates, Covers, OnePass, Run, OutcomeWithChange, OutcomeForced, OutcomeAt, Later, EndsAs,
         AddsOrEnds, AddInput;
    if n < |Candidates(p, b)| {
      CoinIsAdded(p, b, s);
      var next := AddInput(s, Candidates(p, b)[n]);
      RunWithChange(p, b, next, passes - 1);
      GoesRound(p, s, next, OutcomeWithChange(p, b, n + 1), passes);
    } else {
      EndsShort(p, b, s, passes);
    }
  }

  lemma {:induction false} CheckChange(p: Params, b: Base, s: Loop, passes: nat)
    requires Inv(p, b, s) && Fits(p, b) && !p.sendAll && s.haveChange && !s.force && passes > 0
    requires p.numAddressees <= |s.tx.outputs| && |s.used| <= |Candidates(p, b)|
    requires Covers(p, b, |s.used|, true)
    ensures EndsAs(p, Run(p, s, passes), if Enough(p, b, |s.used|, true) then Settles(|s.used|, true, 1)
                                         else Later(OutcomeForced(p, b, |s.used|), 1), passes)
    decreases passes, 0
  {
    CoveredPass(p, b, s);
    assert OutcomeAt(p, b, |s.used|, true) == OutcomeForced(p, b, |s.used|);
    hide Inv, Fits, Candidates, Covers, CoversDust, OnePass, Run, OutcomeForced, OutcomeAt, Later, EndsAs;
    if Enough(p, b, |s.used|, true) {
      LeavesSettled(p, s, passes);
    } else {
      PassKeepsInv(p, b, s);
      var next := s.(force := true);
      RunWithChange(p, b, next, passes - 1);
      GoesRound(p, s, next, OutcomeForced(p, b, |s.used|), passes);
    }
  }

  /** The loop while it has no change output. */
  lemma {:induction false} RunWithout(p: Params, b: Base, s: Loop, passes: nat)
    requires Inv(p, b, s) && Fits(p, b) && !p.sendAll && !s.haveChange && !s.force
    ensures p.numAddressees <= |s.tx.outputs| && |s.used| <= |Candidates(p, b)|
    ensures EndsAs(p, Run(p, s, passes), OutcomeWithout(p, b, |s.used|), passes)
    decreases passes, 1
  {
    StateFacts(p, b, s);
    OutcomeStep(p, b, |s.used|);
    hide Inv, Fits, Candidates, Covers, CoversDust, EndsAs, Run, OutcomeWithout;
    if passes == 0 {
      NoPasses(p, s, OutcomeWithout(p, b, |s.used|));
    } else if !Covers(p, b, |s.used|, false) {
      AddCoin(p, b, s, passes);
    } else {
      CheckRest(p, b, s, passes);
    }
  }

  lemma {:induction false} AddCoin(p: Params, b: Base, s: Loop, passes: nat)
    requires Inv(p, b, s) && Fits(p, b) && !p.sendAll && !s.haveChange && !s.force && passes > 0
    requires p.numAddressees <= |s.tx.outputs| && |s.used| <= |Candidates(p, b)|
    requires !Covers(p, b, |s.used|, false)
    ensures EndsAs(p, Run(p, s, passes), if |s.used| == |Candidates(p, b)| then RunsShort(1)
                                         else Later(OutcomeWithout(p, b, |s.used| + 1), 1), passes)
    decreases passes, 0
  {
    var n := |s.used|;
    NeedyPass(p, b, s);
    hide Inv, Fits, Candidates, Covers, OnePass, Run, OutcomeWithout, EndsAs, AddsOrEnds, AddInput;
    if n < |Candidates(p, b)| {
      CoinIsAdded(p, b, s);
      var next := AddInput(s, Candidates(p, b)[n]);
      RunWithout(p, b, next, passes - 1);
      GoesRound(p, s, next, OutcomeWithout(p, b, n + 1), passes);
    } else {
      EndsShort(p, b, s, passes);
    }
  }

  lemma {:induction false} CheckRest(p: Params, b: Base, s: Loop, passes: nat)
    requires Inv(p, b, s) && Fits(p, b) && !p.sendAll && !s.haveChange && !s.force && passes > 0
    requires p.numAddressees <= |s.tx.outputs| && |s.used| <= |Candidates(p, b)|
    requires Covers(p, b, |s.used|, false)
    ensures EndsAs(p, Run(p, s, passes), if CoversDust(p, b, |s.used|, false)
                                         then Later(OutcomeWithChange(p, b, |s.used|), 1)
                                         else Settles(|s.used|, false, 1), passes)
  {
    CoveredPass(p, b, s);
    hide Inv, Fits, Candidates, Covers, CoversDust, OnePass, Run, OutcomeWithChange, EndsAs;
    if CoversDust(p, b, |s.used|, false) {
      PassKeepsInv(p, b, s);
      var next := AddChange(p, s);
      RunWithChange(p, b, next, passes - 1);
      GoesRound(p, s, next, OutcomeWithChange(p, b, |s.used|), passes);
    } else {
      LeavesSettled(p, s, passes);
    }
  }

  lemma {:induction false} RunSendAll(p: Params, b: Base, s: Loop, passes: nat)
    requires Inv(p, b, s) && Fits(p, b) && p.available < TWO_TO_64
    requires p.sendAll && p.numAddressees > 0 && s.used == Candidates(p, b)
    ensures p.numAddressees <= |s.tx.outputs|
    ensures EndsAs(p, Run(p, s, passes), LoopOutcome(p, b, |s.used|, s.haveChange), passes)
  {
    StateFacts(p, b, s);
    hide Inv, Fits, Total, Visited;
  }

  /** For every pass limit, the loop ends exactly as its outcome says: settled with so many coins and with or
      without change, short of funds, or at the limit. */
  lemma {:induction false} RunEndsExactly(p: Params, b: Base, s: Loop, passes: nat)
    requires Inv(p, b, s) && Fits(p, b) && !s.force && p.available < TWO_TO_64
    requires p.sendAll ==> p.numAddressees > 0 && s.used == Candidates(p, b)
    ensures p.numAddressees <= |s.tx.outputs| && |s.used| <= |Candidates(p, b)|
    ensures EndsAs(p, Run(p, s, passes), LoopOutcome(p, b, |s.used|, s.haveChange), passes)
  {
    StateFacts(p, b, s);
    hide Inv, Fits, Candidates, EndsAs, OutcomeWithChange, OutcomeWithout, Run;
    if p.sendAll {
      RunSendAll(p, b, s, passes);
    } else if s.haveChange {
      RunWithChange(p, b, s, passes);
    } else {
      RunWithout(p, b, s, passes);
    }
  }

  // ----- how many passes that can be -----

  lemma {:induction false} AddingIsBounded(p: Params, b: Base, n: nat, q: nat)
    requires n <= q <= |Candidates(p, b)| + 1
    ensures q - n <= Adding(p, b, n, q) <= 2 * (q - n)
    decreases q - n
  {
    hide Covers, Candidates;
    if n < q {
      AddingIsBounded(p, b, n + 1, q);
    }
  }

  /** Two passes for every coin not yet spent, and a few more. */
  lemma {:induction false} PassesAreBounded(p: Params, b: Base, n: nat, change: bool)
    requires n <= |Candidates(p, b)|
    ensures var w, spare := LoopOutcome(p, b, n, change), |Candidates(p, b)| - n;
            0 < w.passes <= 2 * spare + (if change then 1 else 2) + (if w.RunsShort? then 1 else 0)
  {
    hide Covers, CoversDust, Enough, Candidates, Visited;
    var m := if change then n else FirstEnough(p, b, n, false);
    if m <= |Candidates(p, b)| {
      AddingIsBounded(p, b, m, FirstEnough(p, b, m, true));
    }
  }

  // ----- payable but short -----

  /** Some number of coins, from `n` on, covers amount and fee of a transaction without change. */
  ghost predicate PayableFrom(p: Params, b: Base, n: nat) {
    exists k :: n <= k <= |Candidates(p, b)| && Covers(p, b, k, false)
  }

  /** `m` coins are the fewest that pay. They leave enough for a change output, but once it is added it is dust
      for these and for any larger number of coins. */
  ghost predicate TrapAt(p: Params, b: Base, n: nat, m: nat) {
    && n <= m <= |Candidates(p, b)|
    && CoversDust(p, b, m, false) && (forall k :: n <= k < m ==> !Covers(p, b, k, false))
    && forall q :: m <= q <= |Candidates(p, b)| ==> !CoversDust(p, b, q, true)
  }

  lemma {:induction false} DustCovers(p: Params, b: Base, n: nat, change: bool)
    requires n <= |Candidates(p, b)| && CoversDust(p, b, n, change)
    ensures Covers(p, b, n, change)
  {
  }

  /** A loop without change output runs short although it could pay exactly when the change output is a trap. */
  lemma {:induction false} ShortButPayable(p: Params, b: Base, n: nat)
    requires n <= |Candidates(p, b)|
    ensures OutcomeWithout(p, b, n).RunsShort? && PayableFrom(p, b, n) <==> exists m :: TrapAt(p, b, n, m)
  {
    var m := FirstEnough(p, b, n, false);
    if OutcomeWithout(p, b, n).RunsShort? && PayableFrom(p, b, n) {
      var k :| n <= k <= |Candidates(p, b)| && Covers(p, b, k, false);
      assert Enough(p, b, k, false) && m <= k;
      FirstIsTrap(p, b, n);
    }
    if m': nat :| TrapAt(p, b, n, m') {
      DustCovers(p, b, m', false);
      TrapIsFirst(p, b, n, m');
    }
    hide Covers, CoversDust, Candidates, Adding, Enough;
  }

  lemma {:induction false} FirstIsTrap(p: Params, b: Base, n: nat)
    requires n <= |Candidates(p, b)| && FirstEnough(p, b, n, false) <= |Candidates(p, b)|
    requires OutcomeWithout(p, b, n).RunsShort?
    ensures TrapAt(p, b, n, FirstEnough(p, b, n, false))
  {
    var m := FirstEnough(p, b, n, false);
    hide Covers, CoversDust, Candidates, Adding;
    forall k | n <= k < m
      ensures !Covers(p, b, k, false)
    {
      assert !Enough(p, b, k, false);
    }
    forall q | m <= q <= |Candidates(p, b)|
      ensures !CoversDust(p, b, q, true)
    {
      assert !Enough(p, b, q, true);
    }
  }

  lemma {:induction false} TrapIsFirst(p: Params, b: Base, n: nat, m: nat)
    requires n <= |Candidates(p, b)| && TrapAt(p, b, n, m) && Covers(p, b, m, false)
    ensures FirstEnough(p, b, n, false) == m && OutcomeWithout(p, b, n).RunsShort?
  {
    hide Covers, CoversDust, Candidates, Adding;
    var first := FirstEnough(p, b, n, false);
    assert Enough(p, b, m, false);
    assert first == m;
    assert FirstEnough(p, b, m, true) > |Candidates(p, b)|;
  }

  // ----- starting with fewer coins -----

  /** The same coins and change, or short in both cases. */
  predicate SameSelection(w: Outcome, v: Outcome) {
    if w.Settles? then v.Settles? && w.coins == v.coins && w.withChange == v.withChange else v.RunsShort?
  }

  lemma {:induction false} FirstEnoughFrom(p: Params, b: Base, n: nat, c: nat, change: bool)
    requires n <= c <= |Candidates(p, b)|
    requires forall k :: n <= k < c ==> !Enough(p, b, k, change)
    ensures FirstEnough(p, b, n, change) == FirstEnough(p, b, c, change)
  {
    hide Enough, Candidates, FirstEnough;
    FirstEnoughIs(p, b, n, change, FirstEnough(p, b, c, change));
  }

  /** Coins without which the amount itself is not covered do not matter to where the loop ends. */
  lemma {:induction false} HeadStartIsHarmless(p: Params, b: Base, c: nat, change: bool)
    requires c <= |Candidates(p, b)| && !p.sendAll
    requires forall k :: 0 <= k < c ==> Total(p, b, k) < p.required
    ensures SameSelection(LoopOutcome(p, b, 0, change), LoopOutcome(p, b, c, change))
  {
    hide Enough, Candidates, FirstEnough, Adding, Total, CoversDust;
    forall k | 0 <= k < c
      ensures !Enough(p, b, k, change)
    {
      TooLittle(p, b, k, change);
    }
    FirstEnoughFrom(p, b, 0, c, change);
  }

  lemma {:induction false} TooLittle(p: Params, b: Base, n: nat, change: bool)
    requires n <= |Candidates(p, b)| && Total(p, b, n) < p.required
    ensures !Enough(p, b, n, change)
  {
    hide Total, Candidates;
  }
}
