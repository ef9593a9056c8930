/** The table of fee rates by confirmation target, built from the server's sparse quotes. */
module FeeEstimates {
  import opened Amounts
  import opened Options

  const DEFAULT_MIN_FEE: nat := 1000
  const NUM_FEE_ESTIMATES: nat := 25

  /** A quote: BTC per 1000 vbytes to confirm within `blocks` blocks. */
  datatype Quote = Quote(btcPerK: real, blocks: nat)

  /** `lround(btc_per_k * 100000000)` for a positive rate. */
  function SatoshiPerK(q: Quote): (r: int)
    ensures r as real - 0.5 <= q.btcPerK * 100000000.0 < r as real + 0.5
  {
    (q.btcPerK * 100000000.0 + 0.5).Floor
  }

  predicate Accepted(q: Quote) {
    q.btcPerK > 0.0 && 0 < q.blocks <= NUM_FEE_ESTIMATES - 1 && DEFAULT_MIN_FEE <= SatoshiPerK(q) <= UINT32_MAX
  }

  /** The accepted quotes by block; a later quote for the same block wins. */
  function Accept(quotes: seq<Quote>): (m: map<nat, nat>)
    ensures forall b :: b in m ==> 0 < b < NUM_FEE_ESTIMATES && DEFAULT_MIN_FEE <= m[b] <= UINT32_MAX
  {
    if quotes == [] then map[]
    else
      var q := quotes[|quotes| - 1];
      var m := Accept(quotes[..|quotes| - 1]);
      if Accepted(q) then m[q.blocks := SatoshiPerK(q)] else m
  }

  /** Quote `i` is the last accepted one for its block. */
  ghost predicate LastAccepted(quotes: seq<Quote>, i: nat) {
    && i < |quotes| && Accepted(quotes[i])
    && forall j :: i < j < |quotes| && Accepted(quotes[j]) ==> quotes[j].blocks != quotes[i].blocks
  }

  /** The accepted rates are those of the last accepted quotes. */
  lemma {:induction false} AcceptIsLast(quotes: seq<Quote>, b: nat)
    ensures b in Accept(quotes) ==>
              exists i: nat :: LastAccepted(quotes, i) && quotes[i].blocks == b
                               && Accept(quotes)[b] == SatoshiPerK(quotes[i])
    ensures forall i :: 0 <= i < |quotes| && Accepted(quotes[i]) ==> quotes[i].blocks in Accept(quotes)
  {
    if quotes != [] {
      var n := |quotes| - 1;
      var before, q := quotes[..n], quotes[n];
      AcceptIsLast(before, b);
      if b in Accept(quotes) {
        if Accepted(q) && q.blocks == b {
          assert LastAccepted(quotes, n);
        } else {
          var i: nat :| LastAccepted(before, i) && before[i].blocks == b && Accept(before)[b] == SatoshiPerK(before[i]);
          assert LastAccepted(quotes, i);
        }
      }
      forall i | 0 <= i < |quotes| && Accepted(quotes[i])
        ensures quotes[i].blocks in Accept(quotes)
      {
        if i < n {
          assert before[i] == quotes[i];
        }
      }
    }
  }

  /** Quote `i` decides the entry for block `b`: the last accepted quote for the smallest quoted block not before
      `b`, or for the largest quoted block if there is none. */
  ghost predicate Decides(quotes: seq<Quote>, b: nat, i: nat) {
    && LastAccepted(quotes, i)
    && if b <= quotes[i].blocks
       then forall j :: 0 <= j < |quotes| && Accepted(quotes[j]) && b <= quotes[j].blocks ==>
              quotes[i].blocks <= quotes[j].blocks
       else forall j :: 0 <= j < |quotes| && Accepted(quotes[j]) ==> quotes[j].blocks <= quotes[i].blocks
  }

  /** The table as the quotes have it. */
  lemma {:induction false} TableFollowsQuotes(quotes: seq<Quote>, minFee: nat, table: seq<nat>, b: nat)
    requires TableOk(Accept(quotes), minFee, table) && 1 <= b < NUM_FEE_ESTIMATES
    ensures exists i: nat :: Decides(quotes, b, i) && table[b] == SatoshiPerK(quotes[i])
  {
    var m := Accept(quotes);
    assert IsRateFor(m, b, table[b]);
    var k :| k in m && table[b] == m[k] &&
      ((b <= k && forall l :: l in m && b <= l ==> k <= l) || (k < b && forall l :: l in m ==> l <= k));
    AcceptIsLast(quotes, k);
    var i: nat :| LastAccepted(quotes, i) && quotes[i].blocks == k && m[k] == SatoshiPerK(quotes[i]);
    assert Decides(quotes, b, i);
  }

  lemma {:induction false} NothingAccepted(quotes: seq<Quote>)
    ensures Accept(quotes) == map[] <==> forall i :: 0 <= i < |quotes| ==> !Accepted(quotes[i])
  {
    AcceptIsLast(quotes, 0);
    if Accept(quotes) != map[] {
      var b :| b in Accept(quotes);
      AcceptIsLast(quotes, b);
      var i: nat :| LastAccepted(quotes, i);
      assert Accepted(quotes[i]);
    }
  }

  /** Iteration over a `std::map` from key `b` on: ascending keys. */
  function Entries(m: map<nat, nat>, b: nat): seq<(nat, nat)>
    decreases NUM_FEE_ESTIMATES - b
  {
    if b >= NUM_FEE_ESTIMATES then []
    else if b in m then [(b, m[b])] + Entries(m, b + 1)
    else Entries(m, b + 1)
  }

  /** `rate` is the table entry for block `b`: the quote at the smallest quoted block not before `b`, or at the
      largest quoted block if there is none. */
  ghost predicate IsRateFor(m: map<nat, nat>, b: nat, rate: nat) {
    exists k :: k in m && rate == m[k] &&
      ((b <= k && forall l :: l in m && b <= l ==> k <= l) || (k < b && forall l :: l in m ==> l <= k))
  }

  lemma {:induction false} FirstEntry(m: map<nat, nat>, b: nat)
    requires forall k :: k in m ==> k < NUM_FEE_ESTIMATES
    ensures Entries(m, b) == [] ==> forall k :: k in m ==> k < b
    ensures Entries(m, b) != [] ==>
              var (k, rate) := Entries(m, b)[0];
              && b <= k < NUM_FEE_ESTIMATES && k in m && rate == m[k] && (forall l :: l in m && b <= l ==> k <= l)
              && Entries(m, b)[1..] == Entries(m, k + 1)
    decreases NUM_FEE_ESTIMATES - b
  {
    if b < NUM_FEE_ESTIMATES && b !in m {
      FirstEntry(m, b + 1);
    }
  }

  ghost predicate TableOk(m: map<nat, nat>, minFee: nat, table: seq<nat>) {
    && |table| == NUM_FEE_ESTIMATES
    && table[0] == minFee
    && forall b :: 1 <= b < NUM_FEE_ESTIMATES ==> IsRateFor(m, b, table[b])
  }

  /** Writes each accepted rate to its block and the unquoted blocks before it, then repeats the last one. */
  method FillTable(ordered: map<nat, nat>, minFee: nat) returns (updated: bool, r: seq<nat>)
    requires forall k :: k in ordered ==> 0 < k < NUM_FEE_ESTIMATES
    ensures updated <==> ordered != map[]
    ensures updated ==> TableOk(ordered, minFee, r)
  {
    hide IsRateFor;
    var table := new nat[NUM_FEE_ESTIMATES](_ => 0);
    table[0] := minFee;
    var i: nat, rest := 1, Entries(ordered, 1);
    while rest != []
      invariant 1 <= i <= NUM_FEE_ESTIMATES && rest == Entries(ordered, i)
      invariant i > 1 ==> i - 1 in ordered && table[i - 1] == ordered[i - 1]
      invariant table[0] == minFee
      invariant forall b :: 1 <= b < i ==> IsRateFor(ordered, b, table[b])
      decreases |rest|
    {
      FirstEntry(ordered, i);
      var (block, rate) := rest[0];
      while i <= block
        invariant 1 <= i <= block + 1
        invariant i > block ==> table[block] == rate
        invariant forall l :: l in ordered && i <= l ==> block <= l
        invariant table[0] == minFee
        invariant forall b :: 1 <= b < i ==> IsRateFor(ordered, b, table[b])
      {
        NextQuote(ordered, i, block);
        table[i] := rate;
        i := i + 1;
      }
      rest := rest[1..];
    }
    FirstEntry(ordered, i);
    if i == 1 {
      assert ordered.Keys == {};
      return false, [];
    }
    ghost var largest := i - 1;
    while i < NUM_FEE_ESTIMATES
      invariant largest < i <= NUM_FEE_ESTIMATES && table[i - 1] == ordered[largest]
      invariant table[0] == minFee
      invariant forall b :: 1 <= b < i ==> IsRateFor(ordered, b, table[b])
    {
      LastQuote(ordered, i, largest);
      table[i] := table[i - 1];
      i := i + 1;
    }
    return true, table[..];
  }

  lemma {:induction false} NextQuote(m: map<nat, nat>, b: nat, k: nat)
    requires k in m && b <= k && forall l :: l in m && b <= l ==> k <= l
    ensures IsRateFor(m, b, m[k])
  {
  }

  lemma {:induction false} LastQuote(m: map<nat, nat>, b: nat, k: nat)
    requires k in m && k < b && forall l :: l in m ==> l <= k
    ensures IsRateFor(m, b, m[k])
  {
  }

  class FeeTable {
    var minFeeRate: nat
    var feeEstimates: seq<nat>
    var blockTarget: Option<nat>   // "required_num_blocks" of the appearance settings; absent before login

    ghost predicate Valid()
      reads this
    {
      && |feeEstimates| == NUM_FEE_ESTIMATES
      && (blockTarget.Some? ==> blockTarget.value in {3, 12, 24})
    }

    constructor ()
      ensures Valid() && minFeeRate == DEFAULT_MIN_FEE && blockTarget == None
      ensures forall b :: 0 <= b < NUM_FEE_ESTIMATES ==> feeEstimates[b] == DEFAULT_MIN_FEE
    {
      minFeeRate := DEFAULT_MIN_FEE;
      feeEstimates := seq(NUM_FEE_ESTIMATES, _ => DEFAULT_MIN_FEE);
      blockTarget := None;
    }

    /** The part of `update_login_data` about the minimum fee. */
    method SetMinFee(minFee: nat)
      requires Valid()
      modifies this`minFeeRate, this`feeEstimates
      ensures Valid() && minFeeRate == minFee
      ensures feeEstimates == if minFee == old(minFeeRate) then old(feeEstimates)
                              else seq(NUM_FEE_ESTIMATES, _ => minFee)
    {
      if minFee != minFeeRate {
        minFeeRate := minFee;
        feeEstimates := seq(NUM_FEE_ESTIMATES, _ => minFee);
      }
    }

    /** `set_fee_estimates`: a new table if any quote is acceptable, otherwise the old one. */
    method SetFeeEstimates(quotes: seq<Quote>)
      requires Valid()
      modifies this`feeEstimates
      ensures Valid()
      ensures Accept(quotes) == map[] ==> feeEstimates == old(feeEstimates)
      ensures Accept(quotes) != map[] ==> TableOk(Accept(quotes), minFeeRate, feeEstimates)
    {
      var ordered := AcceptAll(quotes);
      var updated, table := FillTable(ordered, minFeeRate);
      if updated {
        feeEstimates := table;
      }
    }

    method AcceptAll(quotes: seq<Quote>) returns (m: map<nat, nat>)
      ensures m == Accept(quotes)
    {
      m := map[];
      for i := 0 to |quotes|
        invariant m == Accept(quotes[..i])
      {
        var q := quotes[i];
        assert quotes[..i + 1][..i] == quotes[..i];
        if q.btcPerK > 0.0 && q.blocks > 0 && q.blocks <= NUM_FEE_ESTIMATES - 1 {
          var satoshiPerK := SatoshiPerK(q);
          if DEFAULT_MIN_FEE <= satoshiPerK <= UINT32_MAX {
            m := m[q.blocks := satoshiPerK];
          }
        }
      }
      assert quotes[..|quotes|] == quotes;
    }

    /** Login stores the block target the server sends, if any, cleaned up. */
    method SetAppearance(sent: Option<nat>)
      requires Valid()
      modifies this`blockTarget
      ensures Valid() && blockTarget == Some(CleanTarget(sent))
    {
      blockTarget := Some(CleanTarget(sent));
    }

    /** `change_settings`: a target among the new settings replaces the stored one, cleaned up again. */
    method ChangeSettings(wanted: Option<nat>)
      requires Valid()
      modifies this`blockTarget
      ensures Valid() && blockTarget.Some?
      ensures wanted.Some? ==> blockTarget == Some(CleanTarget(wanted))
      ensures wanted.None? && old(blockTarget).Some? ==> blockTarget == old(blockTarget)
    {
      var merged := if wanted.Some? then wanted else blockTarget;
      blockTarget := Some(CleanTarget(merged));
    }

    /** `get_default_fee_rate`: the entry for the stored target, or entry 0 before login; always in range. */
    method DefaultFeeRate() returns (rate: nat)
      requires Valid()
      ensures var block := if blockTarget.Some? then blockTarget.value else 0;
              block < |feeEstimates| && rate == feeEstimates[block]
    {
      var block := if blockTarget.Some? then blockTarget.value else 0;
      assert block < NUM_FEE_ESTIMATES;
      rate := feeEstimates[block];
    }
  }

  /** `cleanup_appearance_settings`: the target, 12 if it is missing or no unsigned number, is read as a 32-bit
      number and becomes 3, 12 or 24 blocks. Cleaning up again changes nothing. */
  function CleanTarget(stored: Option<nat>): (r: nat)
    ensures r in {3, 12, 24} && r < NUM_FEE_ESTIMATES
    ensures stored.Some? && stored.value in {3, 12, 24} ==> r == stored.value
    ensures r == 24 <==> stored.Some? && Low32(stored.value) > 12
    ensures r == 3 <==> stored.Some? && Low32(stored.value) < 6
  {
    var blocks := if stored.Some? then Low32(stored.value) else 12;
    if blocks > 12 then 24 else if blocks >= 6 then 12 else 3
  }

  /** The table has only one possible content. */
  lemma {:induction false} RateIsUnique(m: map<nat, nat>, b: nat, rate: nat, rate': nat)
    requires IsRateFor(m, b, rate) && IsRateFor(m, b, rate')
    ensures rate == rate'
  {
    var k :| k in m && rate == m[k] &&
      ((b <= k && forall l :: l in m && b <= l ==> k <= l) || (k < b && forall l :: l in m ==> l <= k));
    var k' :| k' in m && rate' == m[k'] &&
      ((b <= k' && forall l :: l in m && b <= l ==> k' <= l) || (k' < b && forall l :: l in m ==> l <= k'));
    assert k == k';
  }
}
