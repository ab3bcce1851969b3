/** The order of queries under random execution with a count limit (stage/stage.go). */
module RandomDraws {

  /** The random source: its k-th permutation and its k-th single draw. */
  datatype Source = Source(perm: nat -> seq<nat>, intn: nat -> nat)

  function Occurrences(s: seq<nat>, q: nat): nat {
    if s == [] then 0 else Occurrences(s[..|s| - 1], q) + if s[|s| - 1] == q then 1 else 0
  }

  /** Each number below n exactly once, and no other. */
  ghost predicate IsPermutation(p: seq<nat>, n: nat) {
    && |p| == n && (forall i :: 0 <= i < n ==> p[i] < n)
    && forall q: nat :: q < n ==> Occurrences(p, q) == 1
  }

  ghost predicate Fair(r: Source, n: nat) {
    && (forall k: nat :: IsPermutation(r.perm(k), n))
    && (forall k: nat :: r.intn(k) < n)
  }

  /** Draw number i: permutations one after the other, or single draws. */
  function DrawAt(r: Source, n: nat, noDuplicates: bool, i: nat): nat
    requires n > 0
  {
    if !noDuplicates then r.intn(i) else if i % n < |r.perm(i / n)| then r.perm(i / n)[i % n] else 0
  }

  function Draws(r: Source, n: nat, noDuplicates: bool, m: nat): (s: seq<nat>)
    requires n > 0
    ensures |s| == m
  {
    if m == 0 then [] else Draws(r, n, noDuplicates, m - 1) + [DrawAt(r, n, noDuplicates, m - 1)]
  }

  // ---------------------------------------------------------------- the dealer

  class Dealer {
    const source: Source
    const totalQueries: nat
    const noRandomDuplicates: bool
    var indices: seq<nat>
    var pos: nat
    var used: nat            // calls to the random source
    ghost var drawn: nat

    constructor (source: Source, n: nat, noDuplicates: bool)
      requires n > 0 && Fair(source, n)
      ensures Valid() && drawn == 0
      ensures this.source == source && totalQueries == n && noRandomDuplicates == noDuplicates
    {
      this.source, totalQueries, noRandomDuplicates := source, n, noDuplicates;
      indices, pos, used, drawn := [], 0, 0, 0;
    }

    ghost predicate Valid()
      reads this
    {
      && totalQueries > 0 && Fair(source, totalQueries)
      && if !noRandomDuplicates then used == drawn
         else
           && pos <= |indices| && drawn == (if used == 0 then 0 else (used - 1) * totalQueries + pos)
           && (used == 0 ==> indices == [])
           && (used > 0 ==> indices == source.perm(used - 1) && |indices| == totalQueries)
    }

    /** The next query to run. */
    method NextIndex() returns (idx: nat)
      requires Valid()
      modifies this
      ensures Valid() && drawn == old(drawn) + 1 && idx < totalQueries
      ensures idx == DrawAt(source, totalQueries, noRandomDuplicates, old(drawn))
    {
      if noRandomDuplicates {
        if pos >= |indices| {
          indices := source.perm(used);
          assert IsPermutation(indices, totalQueries);
          used := used + 1;
          pos := 0;
        }
        DivMod(used - 1, totalQueries, pos);
        idx := indices[pos];
        pos := pos + 1;
      } else {
        idx := source.intn(used);
        used := used + 1;
      }
      drawn := drawn + 1;
    }
  }

  lemma DivMod(k: nat, n: nat, p: nat)
    requires p < n
    ensures (k * n + p) / n == k && (k * n + p) % n == p
  {
    var x := k * n + p;
    assert x == x / n * n + x % n;
    assert k * n + p == x / n * n + x % n;
    if x / n > k {
      Times(k + 1, x / n, n);
    } else if x / n < k {
      Times(x / n + 1, k, n);
    }
  }

  lemma Times(a: nat, b: nat, n: nat)
    requires a <= b
    ensures a * n <= b * n
  {
    assert b * n == a * n + (b - a) * n;
  }

  // ---------------------------------------------------------------- even use of all queries

  lemma {:induction false} OccurrencesConcat(a: seq<nat>, b: seq<nat>, q: nat)
    ensures Occurrences(a + b, q) == Occurrences(a, q) + Occurrences(b, q)
  {
    if b == [] {
      assert a + b == a;
    } else {
      assert (a + b)[..|a + b| - 1] == a + b[..|b| - 1];
      OccurrencesConcat(a, b[..|b| - 1], q);
    }
  }

  /** The draws of one aligned block are the permutation drawn for it. */
  lemma {:induction false} BlockDraws(r: Source, n: nat, k: nat, p: nat)
    requires n > 0 && Fair(r, n) && p <= n
    ensures Draws(r, n, true, k * n + p) == Draws(r, n, true, k * n) + r.perm(k)[..p]
  {
    assert IsPermutation(r.perm(k), n);
    if p > 0 {
      BlockDraws(r, n, k, p - 1);
      DivMod(k, n, p - 1);
      assert r.perm(k)[..p] == r.perm(k)[..p - 1] + [r.perm(k)[p - 1]];
    }
  }

  lemma {:induction false} FullBlocks(r: Source, n: nat, k: nat, q: nat)
    requires n > 0 && Fair(r, n) && q < n
    ensures Occurrences(Draws(r, n, true, k * n), q) == k
  {
    if k > 0 {
      FullBlocks(r, n, k - 1, q);
      OneMoreBlock(r, n, k - 1);
      assert IsPermutation(r.perm(k - 1), n);
      OccurrencesConcat(Draws(r, n, true, (k - 1) * n), r.perm(k - 1), q);
    }
  }

  lemma OneMoreBlock(r: Source, n: nat, k: nat)
    requires n > 0 && Fair(r, n)
    ensures Draws(r, n, true, (k + 1) * n) == Draws(r, n, true, k * n) + r.perm(k)
  {
    BlockDraws(r, n, k, n);
    assert (k + 1) * n == k * n + n;
    assert IsPermutation(r.perm(k), n) && r.perm(k)[..n] == r.perm(k);
  }

  /** After any number of draws every query has been drawn equally often, up to one. */
  lemma EvenUse(r: Source, n: nat, m: nat, q: nat)
    requires n > 0 && Fair(r, n) && q < n
    ensures m / n <= Occurrences(Draws(r, n, true, m), q) <= m / n + 1
  {
    var k, p := m / n, m % n;
    assert m == k * n + p;
    FullBlocks(r, n, k, q);
    BlockDraws(r, n, k, p);
    OccurrencesConcat(Draws(r, n, true, k * n), r.perm(k)[..p], q);
    assert IsPermutation(r.perm(k), n) && r.perm(k)[..p] + r.perm(k)[p..] == r.perm(k);
    OccurrencesConcat(r.perm(k)[..p], r.perm(k)[p..], q);
  }

  /** No query is drawn twice before every other one was drawn once more. */
  lemma DifferByOne(r: Source, n: nat, m: nat, q: nat, s: nat)
    requires n > 0 && Fair(r, n) && q < n && s < n
    ensures Occurrences(Draws(r, n, true, m), q) <= Occurrences(Draws(r, n, true, m), s) + 1
  {
    EvenUse(r, n, m, q);
    EvenUse(r, n, m, s);
  }

  // ---------------------------------------------------------------- the loop, and skipping

  /** What runs in round i of the loop: an inline query or a query file. */
  datatype Pick = Inline(round: nat, query: nat) | File(round: nat, file: nat)

  function PickOf(i: nat, idx: nat, inlineCount: nat): Pick {
    if idx < inlineCount then Inline(i, idx) else File(i, idx - inlineCount)
  }

  /** What runs in rounds skip + 1 to m. */
  function Picks(draws: seq<nat>, inlineCount: nat, skip: int, m: nat): seq<Pick>
    requires m <= |draws|
  {
    if m == 0 then []
    else Picks(draws, inlineCount, skip, m - 1) + if m <= skip then [] else [PickOf(m, draws[m - 1], inlineCount)]
  }

  lemma {:induction false} DrawsAt(r: Source, n: nat, noDuplicates: bool, m: nat, i: nat)
    requires n > 0 && i < m
    ensures Draws(r, n, noDuplicates, m)[i] == DrawAt(r, n, noDuplicates, i)
  {
    if i < m - 1 {
      DrawsAt(r, n, noDuplicates, m - 1, i);
    }
  }

  /** With a skip, exactly the picks without the first ones run, under the same names. */
  lemma {:induction false} SkipDropsFirst(draws: seq<nat>, inlineCount: nat, skip: nat, m: nat)
    requires m <= |draws|
    ensures |Picks(draws, inlineCount, 0, m)| == m
    ensures Picks(draws, inlineCount, skip, m) == if m <= skip then [] else Picks(draws, inlineCount, 0, m)[skip..]
  {
    if m > 0 {
      SkipDropsFirst(draws, inlineCount, skip, m - 1);
    }
  }

  /** Inline queries are numbered first, then the query files. */
  predicate Stands(p: Pick, round: nat, number: nat, inlineCount: nat) {
    match p
    case Inline(i, q) => i == round && q == number < inlineCount
    case File(i, f) => i == round && inlineCount + f == number
  }

  /** One pick for each round after the skipped ones up to m, of the query drawn in that round. */
  predicate RoundsPicked(picks: seq<Pick>, draws: seq<nat>, inlineCount: nat, skip: int, m: int) {
    var first := if skip > 0 then skip else 0;
    && |picks| == (if m > first then m - first else 0)
    && forall k :: 0 <= k < |picks| ==>
         first + k < |draws| && Stands(picks[k], first + k + 1, draws[first + k], inlineCount)
  }

  lemma {:induction false} PicksExactly(draws: seq<nat>, inlineCount: nat, skip: int, m: nat)
    requires m <= |draws|
    ensures RoundsPicked(Picks(draws, inlineCount, skip, m), draws, inlineCount, skip, m)
  {
    if m > 0 {
      PicksExactly(draws, inlineCount, skip, m - 1);
    }
  }
}
