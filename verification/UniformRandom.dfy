/** Random 32-bit words and the unbiased choice of a number below a bound. */
module UniformRandom {
  import opened Amounts
  import opened Options

  const ENTROPY_WORDS: nat := 8

  /** `-upper_bound % upper_bound` in 32-bit arithmetic. */
  function Threshold(bound: nat): nat
    requires 0 < bound < TWO_TO_32
  {
    (TWO_TO_32 - bound) % bound
  }

  /** The words below `hi` that are accepted and yield `residue`. */
  function Hits(lo: nat, hi: nat, bound: nat, residue: nat): set<nat>
    requires bound > 0
    decreases hi
  {
    if hi <= lo then {}
    else Hits(lo, hi - 1, bound, residue) + (if (hi - 1) % bound == residue then {hi - 1} else {})
  }

  lemma {:induction false} HitsAre(lo: nat, hi: nat, bound: nat, residue: nat)
    requires bound > 0
    ensures forall v :: v in Hits(lo, hi, bound, residue) <==> lo <= v < hi && v % bound == residue
    decreases hi
  {
    if lo < hi {
      HitsAre(lo, hi - 1, bound, residue);
    }
  }

  lemma {:induction false} Gap(m: nat, n: nat, b: nat)
    requires m < n
    ensures n * b >= m * b + b
  {
    var k := n - m - 1;
    assert (m + 1 + k) * b == m * b + b + k * b;
    assert k * b >= 0;
  }

  /** Quotient and remainder are determined by the dividend. */
  lemma {:induction false} UniqueDivision(m: nat, r: nat, n: nat, s: nat, b: nat)
    requires r < b && s < b && m * b + r == n * b + s
    ensures m == n && r == s
  {
    if m < n {
      Gap(m, n, b);
    } else if n < m {
      Gap(n, m, b);
    }
  }

  lemma {:induction false} DivMod(q: nat, r: nat, b: nat)
    requires r < b
    ensures (q * b + r) / b == q && (q * b + r) % b == r
  {
    var x := q * b + r;
    UniqueDivision(q, r, x / b, x % b, b);
  }

  /** Numbers with the same remainder are equal or at least `b` apart. */
  lemma {:induction false} SameResidue(v: nat, w: nat, b: nat)
    requires b > 0 && v % b == w % b && v <= w < v + b
    ensures v == w
  {
    var q, r, d := v / b, v % b, w - v;
    assert v == q * b + r;
    if r + d < b {
      DivMod(q, r + d, b);
    } else {
      assert (q + 1) * b == q * b + b;
      DivMod(q + 1, r + d - b, b);
    }
  }

  /** The one word of a full period that yields `residue`. */
  lemma {:induction false} InPeriod(start: nat, bound: nat, residue: nat) returns (v: nat)
    requires residue < bound
    ensures start <= v < start + bound && v % bound == residue
  {
    var q, r := start / bound, start % bound;
    assert start == q * bound + r;
    DivMod(q, residue, bound);
    DivMod(q + 1, residue, bound);
    assert (q + 1) * bound == q * bound + bound;
    v := if residue >= r then q * bound + residue else (q + 1) * bound + residue;
  }

  /** Going one period further adds exactly one hit. */
  lemma {:induction false} OneMorePeriod(lo: nat, hi: nat, bound: nat, residue: nat)
    requires lo <= hi && residue < bound
    ensures |Hits(lo, hi + bound, bound, residue)| == |Hits(lo, hi, bound, residue)| + 1
  {
    var v := InPeriod(hi, bound, residue);
    HitsAre(lo, hi, bound, residue);
    HitsAre(lo, hi + bound, bound, residue);
    var more := Hits(lo, hi + bound, bound, residue);
    forall w | w in more && hi <= w
      ensures w == v
    {
      if v <= w {
        SameResidue(v, w, bound);
      } else {
        SameResidue(w, v, bound);
      }
    }
    assert Hits(lo, hi + bound, bound, residue) == Hits(lo, hi, bound, residue) + {v};
  }

  lemma {:induction false} Peel(lo: nat, hi: nat, k: nat, b: nat)
    requires k > 0 && hi == lo + k * b
    ensures lo <= hi - b == lo + (k - 1) * b
  {
    assert k * b == (k - 1) * b + b;
  }

  lemma {:induction false} NoHits(lo: nat, bound: nat, residue: nat)
    requires bound > 0
    ensures |Hits(lo, lo, bound, residue)| == 0
  {
  }

  lemma {:induction false} HitsInPeriods(lo: nat, hi: nat, k: nat, bound: nat, residue: nat)
    requires residue < bound && hi == lo + k * bound
    ensures |Hits(lo, hi, bound, residue)| == k
    decreases k
  {
    hide Hits;
    if k == 0 {
      NoHits(lo, bound, residue);
    } else {
      Peel(lo, hi, k, bound);
      HitsInPeriods(lo, hi - bound, k - 1, bound, residue);
      OneMorePeriod(lo, hi - bound, bound, residue);
    }
  }

  /** The threshold is the part of the 32-bit range that does not fill a whole period. */
  lemma {:induction false} ThresholdIs(bound: nat)
    requires 0 < bound < TWO_TO_32
    ensures Threshold(bound) < bound
    ensures TWO_TO_32 == Threshold(bound) + (TWO_TO_32 / bound) * bound
  {
    var x := TWO_TO_32 - bound;
    var q := x / bound;
    assert x == q * bound + x % bound;
    assert TWO_TO_32 == (q + 1) * bound + x % bound;
    DivMod(q + 1, x % bound, bound);
  }

  /** Without bias: every number below the bound is the image of exactly floor(2^32 / bound) accepted words. */
  lemma {:induction false} EveryResidueEquallyLikely(bound: nat, residue: nat)
    requires 0 < bound < TWO_TO_32 && residue < bound
    ensures var hits := Hits(Threshold(bound), TWO_TO_32, bound, residue);
            && |hits| == TWO_TO_32 / bound
            && forall v :: v in hits <==> Threshold(bound) <= v < TWO_TO_32 && v % bound == residue
  {
    ThresholdIs(bound);
    HitsInPeriods(Threshold(bound), TWO_TO_32, TWO_TO_32 / bound, bound, residue);
    HitsAre(Threshold(bound), TWO_TO_32, bound, residue);
  }

  /** `get_uniform_uint32_t` on a finite supply of random words: the first accepted word decides. */
  method UniformBelow(bound: nat, words: seq<nat>) returns (r: Option<nat>)
    requires 0 < bound < TWO_TO_32
    ensures r.None? <==> forall i :: 0 <= i < |words| ==> words[i] < Threshold(bound)
    ensures r.Some? ==> exists i :: 0 <= i < |words| && words[i] >= Threshold(bound) && r.value == words[i] % bound
                          && forall j :: 0 <= j < i ==> words[j] < Threshold(bound)
  {
    var lowerThreshold := Threshold(bound);
    for i := 0 to |words|
      invariant forall j :: 0 <= j < i ==> words[j] < lowerThreshold
    {
      if words[i] >= lowerThreshold {
        return Some(words[i] % bound);
      }
    }
    return None;
  }

  /** `uniform_uint32_rng`: hands out a block of entropy word by word, then draws a new block. */
  class UniformRng {
    var entropy: array<nat>
    var index: nat
    ghost var calls: nat   // how many words have been handed out

    /** After n calls the generator stands at word n - 1 of the stream of blocks. */
    ghost predicate Valid(blocks: nat -> seq<nat>)
      reads this, entropy
    {
      && entropy.Length == ENTROPY_WORDS
      && index == (calls + ENTROPY_WORDS - 1) % ENTROPY_WORDS
      && (forall k :: |blocks(k)| == ENTROPY_WORDS)
      && (calls > 0 ==> entropy[..] == blocks((calls - 1) / ENTROPY_WORDS))
    }

    constructor (ghost blocks: nat -> seq<nat>)
      requires forall k :: |blocks(k)| == ENTROPY_WORDS
      ensures Valid(blocks) && calls == 0 && fresh(entropy)
    {
      entropy := new nat[ENTROPY_WORDS](_ => 0);
      index := ENTROPY_WORDS - 1;
      calls := 0;
    }

    /** Draws a new block. */
    method Refill(drawn: seq<nat>)
      requires entropy.Length == |drawn|
      modifies entropy
      ensures entropy[..] == drawn
    {
      for i := 0 to |drawn|
        invariant forall j :: 0 <= j < i ==> entropy[j] == drawn[j]
      {
        entropy[i] := drawn[i];
      }
    }

    /** `blocks(k)` is what the k-th refill draws, `drawn` the next one: call number n (from 0) hands out word
        n % 8 of block n / 8, so every word of every block exactly once before the next refill. */
    method Next(drawn: seq<nat>, ghost blocks: nat -> seq<nat>) returns (r: nat)
      requires Valid(blocks) && drawn == blocks(calls / ENTROPY_WORDS)
      modifies this`index, this`calls, entropy
      ensures Valid(blocks) && calls == old(calls) + 1 && entropy == old(entropy)
      ensures r == blocks(old(calls) / ENTROPY_WORDS)[old(calls) % ENTROPY_WORDS]
    {
      NextPosition(calls);
      index := index + 1;
      if index == entropy.Length {
        index := 0;
        Refill(drawn);
      }
      calls := calls + 1;
      assert entropy[..] == blocks(old(calls) / ENTROPY_WORDS);
      r := entropy[..][index];
    }
  }

  /** Where call number n stands: at the start of a block, or one further in the block of the call before. */
  lemma {:induction false} NextPosition(n: nat)
    ensures var before := (n + 7) % 8;
            && (before == 7 ==> n % 8 == 0)
            && (before < 7 ==> n > 0 && n % 8 == before + 1 && (n - 1) / 8 == n / 8)
  {
  }
}
