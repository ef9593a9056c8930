/** How many passes the fee loop can take, whatever the fee function returns. */
module FeeLoopProgress {
  import opened Amounts
  import opened FeeLoop

  /** `max_loop_iterations`, from the number of asset keys rather than the number of coins. */
  function MaxPasses(keys: nat): nat {
    Max(8, 2 * keys + 1)
  }

  ghost predicate InRange(p: Params, s: Loop) {
    && p.numAddressees <= |s.tx.outputs|
    && (p.manual || |s.used| <= |BtcUtxos(p)|)
  }

  ghost function Unused(p: Params, s: Loop): nat
    requires InRange(p, s)
  {
    if p.manual then 0 else |BtcUtxos(p)| - |s.used|
  }

  ghost function Measure(p: Params, s: Loop): nat
    requires InRange(p, s)
  {
    2 * Unused(p, s) + (if s.haveChange then 0 else 1) + (if s.force then 0 else 1)
  }

  /** No assumption on the fee function, nor on amounts: a pass that does not leave makes progress. */
  lemma {:induction false} PassMakesProgress(p: Params, s: Loop)
    requires InRange(p, s)
    requires OnePass(p, s).Again?
    ensures InRange(p, OnePass(p, s).next)
    ensures Measure(p, OnePass(p, s).next) < Measure(p, s)
  {
  }

  lemma {:induction false} RunSettles(p: Params, s: Loop, passes: nat)
    requires InRange(p, s) && Measure(p, s) < passes
    ensures !Run(p, s, passes).Capped?
    decreases passes
  {
    if OnePass(p, s).Again? {
      PassMakesProgress(p, s);
      RunSettles(p, OnePass(p, s).next, passes - 1);
    }
  }

  /** More passes never change the outcome of a loop that has left. */
  lemma {:induction false} OutcomeIsStable(p: Params, s: Loop, few: nat, many: nat)
    requires p.numAddressees <= |s.tx.outputs| && few <= many
    requires !Run(p, s, few).Capped?
    ensures Run(p, s, many) == Run(p, s, few)
    decreases few
  {
    if OnePass(p, s).Again? {
      OutcomeIsStable(p, OnePass(p, s).next, few - 1, many - 1);
    }
  }
}
