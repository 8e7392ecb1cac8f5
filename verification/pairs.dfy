/** The triangular pair enumeration of the pair loops: `for (i = 0; i < n - 1; i++)`
    and `for (j = i + 1; j < n; j++)`. The sequences below list the pairs in the
    order the loops visit them. */
module Pairs {

  datatype Pair = Pair(i: nat, j: nat)

  /** The pairs (i, i+1) .. (i, j-1): row i of the loops, up to but excluding column j. */
  function RowPrefix(i: nat, j: nat): (r: seq<Pair>)
    ensures |r| == if j <= i + 1 then 0 else j - i - 1
    decreases j
  {
    if j <= i + 1 then [] else RowPrefix(i, j - 1) + [Pair(i, j - 1)]
  }

  /** The full rows 0 .. k-1 for n molecules. */
  function PairsBefore(k: nat, n: nat): seq<Pair> {
    if k == 0 then [] else PairsBefore(k - 1, n) + RowPrefix(k - 1, n)
  }

  /** Every pair the loops visit for n molecules, in visiting order. */
  function AllPairs(n: nat): seq<Pair> {
    PairsBefore(n, n)
  }

  /** Lexicographic order on pairs: the order of the two loops. */
  predicate Before(p: Pair, q: Pair) {
    p.i < q.i || (p.i == q.i && p.j < q.j)
  }

  predicate StrictlyOrdered(s: seq<Pair>) {
    forall a, b :: 0 <= a < b < |s| ==> Before(s[a], s[b])
  }

  lemma {:induction false} RowPrefixMembers(i: nat, j: nat, p: Pair)
    ensures p in RowPrefix(i, j) <==> p.i == i && i < p.j < j
    decreases j
  {
    if j > i + 1 {
      RowPrefixMembers(i, j - 1, p);
    }
  }

  lemma {:induction false} RowPrefixOrdered(i: nat, j: nat)
    ensures StrictlyOrdered(RowPrefix(i, j))
    ensures forall p :: p in RowPrefix(i, j) ==> p.i == i && i < p.j < j
    decreases j
  {
    if j > i + 1 {
      RowPrefixOrdered(i, j - 1);
      var s := RowPrefix(i, j - 1);
      assert RowPrefix(i, j) == s + [Pair(i, j - 1)];
      forall p | p in RowPrefix(i, j)
        ensures p.i == i && i < p.j < j
      {
        RowPrefixMembers(i, j, p);
      }
    }
  }

  lemma {:induction false} PairsBeforeMembers(k: nat, n: nat, p: Pair)
    ensures p in PairsBefore(k, n) <==> p.i < k && p.i < p.j < n
  {
    if k > 0 {
      PairsBeforeMembers(k - 1, n, p);
      RowPrefixMembers(k - 1, n, p);
    }
  }

  lemma {:induction false} PairsBeforeOrdered(k: nat, n: nat)
    ensures StrictlyOrdered(PairsBefore(k, n))
    ensures forall p :: p in PairsBefore(k, n) ==> p.i < k
  {
    if k > 0 {
      PairsBeforeOrdered(k - 1, n);
      RowPrefixOrdered(k - 1, n);
      var s, t := PairsBefore(k - 1, n), RowPrefix(k - 1, n);
      forall a, b | 0 <= a < b < |s + t|
        ensures Before((s + t)[a], (s + t)[b])
      {
        if b < |s| {
        } else if a >= |s| {
          assert (s + t)[a] == t[a - |s|] && (s + t)[b] == t[b - |s|];
        } else {
          assert (s + t)[a] == s[a] && s[a] in s;
          assert (s + t)[b] == t[b - |s|] && t[b - |s|] in t;
        }
      }
    }
  }

  /** The loops visit exactly the pairs i < j < n. */
  lemma AllPairsMembers(n: nat, p: Pair)
    ensures p in AllPairs(n) <==> p.i < p.j < n
  {
    PairsBeforeMembers(n, n, p);
  }

  /** Each unordered pair is visited once: the visiting order is strictly increasing,
      so no pair occurs twice. */
  lemma AllPairsOnce(n: nat)
    ensures StrictlyOrdered(AllPairs(n))
    ensures forall a, b :: 0 <= a < b < |AllPairs(n)| ==> AllPairs(n)[a] != AllPairs(n)[b]
  {
    PairsBeforeOrdered(n, n);
  }

  lemma {:induction false} PairsBeforeCount(k: nat, n: nat)
    requires k <= n
    ensures 2 * |PairsBefore(k, n)| == k * (2 * n - k - 1)
  {
    if k > 0 {
      PairsBeforeCount(k - 1, n);
      assert |RowPrefix(k - 1, n)| == n - k;
    }
  }

  /** There are n(n-1)/2 of them. */
  lemma AllPairsCount(n: nat)
    ensures 2 * |AllPairs(n)| == n * (n - 1)
  {
    PairsBeforeCount(n, n);
  }

  /** The outer loop stops at n - 1; the row it skips is empty. */
  lemma AllPairsStopEarly(n: nat)
    requires n >= 1
    ensures AllPairs(n) == PairsBefore(n - 1, n)
  {
    assert RowPrefix(n - 1, n) == [];
  }
}
