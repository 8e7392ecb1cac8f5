/** The pair loops of one group, as they run on the arrays: the half-bin histogram row
    `count[g]`, the accumulator of the pair sums (`temp_method`, `s_method_coh_temp`
    or `s_method_nospectrum[g]`) and `beta_lab`. */
module PairLoops {
  import opened Numerics
  import opened Setup
  import opened Pairs
  import opened Kernels

  /** The arrays a pair loop works on: `beta_lab` with one entry per molecule, the
      group's histogram row with its `nbin + 1` half bins, and an accumulator as wide
      as the loop's spectrum, distinct from `beta_lab`. */
  ghost predicate Shaped(k: Kernel, c: Ctx, pos: seq<Vec>, bs: array<real>, row: array<int>, acc: array<real>) {
    |pos| == bs.Length && HistogramReady(c.s, c.env) && row.Length == c.s.nbin + 1 &&
    acc.Length == Width(k, c.s) && acc != bs
  }

  /** The accumulator and the row hold what they held at the start plus the
      contributions and the counts of the pairs `done`. */
  ghost predicate Holds(k: Kernel, c: Ctx, pos: seq<Vec>, bs: array<real>, row: array<int>, acc: array<real>,
                        start: seq<real>, rowStart: seq<int>, done: seq<Pair>)
    reads bs, row, acc
  {
    |pos| == bs.Length && |start| == acc.Length == Width(k, c.s) && |rowStart| == row.Length &&
    acc[..] == AddSeq(start, PairSpectrum(k, c, pos, bs[..], done)) &&
    row[..] == AddCounts(rowStart, CountRow(k, c, pos, done, row.Length))
  }

  /** The pair loops `for (i = 0; i < isize0 - 1; i++)`, `for (j = i + 1; j < isize0; j++)`
      of one group: every pair within the cutoff is counted in its half bin of the
      group's histogram row (by every loop but the modified direct one without fading)
      and its contribution is added to `acc`. `bs` is `beta_lab`. */
  method PairLoop(k: Kernel, c: Ctx, pos: seq<Vec>, bs: array<real>, row: array<int>, acc: array<real>)
    requires Shaped(k, c, pos, bs, row, acc)
    modifies row, acc
    ensures Holds(k, c, pos, bs, row, acc, old(acc[..]), old(row[..]), AllPairs(|pos|))
  {
    var n := |pos|;
    ghost var start, rowStart := acc[..], row[..];
    ghost var done: seq<Pair> := [];
    NothingYet(k, c, pos, bs, row, acc);
    var i := 0;
    while i < n - 1
      invariant 0 <= i && (i <= n - 1 || i == 0) && done == PairsBefore(i, n)
      invariant Holds(k, c, pos, bs, row, acc, start, rowStart, done)
    {
      PairsBeforeNext(i, n);
      RowOfPairs(k, c, pos, bs, row, acc, i, start, rowStart, done);
      done := done + RowPrefix(i, n);
      i := i + 1;
    }
    PairsFinished(i, n);
  }

  /** One pass of the outer loop: row i of the pairs is added to what the earlier rows left. */
  method RowOfPairs(k: Kernel, c: Ctx, pos: seq<Vec>, bs: array<real>, row: array<int>, acc: array<real>, i: nat,
                    ghost start: seq<real>, ghost rowStart: seq<int>, ghost done: seq<Pair>)
    requires Shaped(k, c, pos, bs, row, acc) && i < |pos|
    requires Holds(k, c, pos, bs, row, acc, start, rowStart, done)
    modifies row, acc
    ensures Holds(k, c, pos, bs, row, acc, start, rowStart, done + RowPrefix(i, |pos|))
  {
    ghost var before, rowBefore := acc[..], row[..];
    PairRow(k, c, pos, bs, row, acc, i);
    SpectrumRows(k, c, pos, bs[..], done, RowPrefix(i, |pos|), start, before, acc[..]);
    CountRows(k, c, pos, done, RowPrefix(i, |pos|), rowStart, rowBefore, row[..]);
  }

  lemma NothingYet(k: Kernel, c: Ctx, pos: seq<Vec>, bs: array<real>, row: array<int>, acc: array<real>)
    requires Shaped(k, c, pos, bs, row, acc)
    ensures Holds(k, c, pos, bs, row, acc, acc[..], row[..], [])
  {
    NothingAdded(k, c, pos, bs[..], acc[..]);
    NothingCounted(k, c, pos, row[..]);
  }

  /** The inner loop `for (j = i + 1; j < isize0; j++)`: the pairs (i, j) of row i. */
  method PairRow(k: Kernel, c: Ctx, pos: seq<Vec>, bs: array<real>, row: array<int>, acc: array<real>, i: nat)
    requires Shaped(k, c, pos, bs, row, acc) && i < |pos|
    modifies row, acc
    ensures Holds(k, c, pos, bs, row, acc, old(acc[..]), old(row[..]), RowPrefix(i, |pos|))
  {
    ghost var start, rowStart := acc[..], row[..];
    ghost var done: seq<Pair> := [];
    NothingYet(k, c, pos, bs, row, acc);
    var j := i + 1;
    RowPrefixEmpty(i);
    while j < |pos|
      invariant i + 1 <= j <= |pos| && done == RowPrefix(i, j)
      invariant Holds(k, c, pos, bs, row, acc, start, rowStart, done)
    {
      RowPrefixNext(i, j);
      PairOfRow(k, c, pos, bs, row, acc, Pair(i, j), start, rowStart, done);
      done := done + [Pair(i, j)];
      j := j + 1;
    }
  }

  /** One pass of the inner loop: the pair p is added to what the earlier pairs left. */
  method PairOfRow(k: Kernel, c: Ctx, pos: seq<Vec>, bs: array<real>, row: array<int>, acc: array<real>, p: Pair,
                   ghost start: seq<real>, ghost rowStart: seq<int>, ghost done: seq<Pair>)
    requires Shaped(k, c, pos, bs, row, acc) && p.i < p.j < |pos|
    requires Holds(k, c, pos, bs, row, acc, start, rowStart, done)
    modifies row, acc
    ensures Holds(k, c, pos, bs, row, acc, start, rowStart, done + [p])
  {
    ghost var before, rowBefore := acc[..], row[..];
    PairStep(k, c, pos, bs, row, acc, p);
    SpectrumStep(k, c, pos, bs[..], done, p, start, before, acc[..]);
    CountStep(k, c, pos, done, p, rowStart, rowBefore, row[..]);
  }

  /** The body of the inner loop for the pair p = (i, j): the displacement, the cutoff
      test, the histogram increment and the contribution. */
  method PairStep(k: Kernel, c: Ctx, pos: seq<Vec>, bs: array<real>, row: array<int>, acc: array<real>, p: Pair)
    requires Shaped(k, c, pos, bs, row, acc) && p.i < p.j < |pos|
    modifies row, acc
    ensures acc[..] == if Accepted(k, c, pos, p)
      then AddSeq(old(acc[..]), Contribution(k, c, PairDx(k, c, pos, p), bs[p.i], bs[p.j]))
      else old(acc[..])
    ensures row[..] == AddCounts(old(row[..]), CountRow(k, c, pos, [p], row.Length))
  {
    var dx := Displacement(k, c, pos[p.i], pos[p.j]);
    var r2 := Dot(dx, dx);
    PairBinInRange(k, c, pos, p);
    CountedSingle(k, c, pos, p);
    if r2 <= c.s.rmax2 {
      if Counts(k) {
        var b := HalfBin(c.s, c.env, r2);
        row[b] := row[b] + 1;
      }
      var contribution := Contribution(k, c, dx, bs[p.i], bs[p.j]);
      AddInto(acc, contribution);
    }
  }

  /** What the pair list ps adds to half bin b of the group's row: its tally when
      the loop counts, nothing otherwise. */
  function Counted(k: Kernel, c: Ctx, pos: seq<Vec>, ps: seq<Pair>, b: int): nat {
    if Counts(k) then Tally(k, c, pos, ps, b) else 0
  }

  /** The counts a pair list adds to the half bins 0 .. len - 1. */
  function CountRow(k: Kernel, c: Ctx, pos: seq<Vec>, ps: seq<Pair>, len: nat): (r: seq<int>)
    ensures |r| == len && forall b :: 0 <= b < len ==> r[b] == Counted(k, c, pos, ps, b)
  {
    seq(len, b => Counted(k, c, pos, ps, b))
  }

  function AddCounts(a: seq<int>, b: seq<int>): (r: seq<int>)
    requires |a| == |b|
    ensures |r| == |a| && forall t :: 0 <= t < |a| ==> r[t] == a[t] + b[t]
  {
    seq(|a|, t requires 0 <= t < |a| => a[t] + b[t])
  }

  lemma AddNoCounts(a: seq<int>)
    ensures AddCounts(a, seq(|a|, b => 0)) == a
  {
  }

  lemma CountedSingle(k: Kernel, c: Ctx, pos: seq<Vec>, p: Pair)
    ensures forall b :: Counted(k, c, pos, [p], b) == (if Counts(k) && PairBin(k, c, pos, p) == b then 1 else 0)
  {
    assert [] + [p] == [p];
    forall b {
      TallyAppend(k, c, pos, [], p, b);
    }
  }

  lemma CountStep(k: Kernel, c: Ctx, pos: seq<Vec>, ps: seq<Pair>, p: Pair,
                  start: seq<int>, before: seq<int>, after: seq<int>)
    requires |before| == |start|
    requires before == AddCounts(start, CountRow(k, c, pos, ps, |start|))
    requires after == AddCounts(before, CountRow(k, c, pos, [p], |start|))
    ensures after == AddCounts(start, CountRow(k, c, pos, ps + [p], |start|))
  {
    CountRows(k, c, pos, ps, [p], start, before, after);
  }

  lemma CountRows(k: Kernel, c: Ctx, pos: seq<Vec>, ps: seq<Pair>, qs: seq<Pair>,
                  start: seq<int>, before: seq<int>, after: seq<int>)
    requires |before| == |start|
    requires before == AddCounts(start, CountRow(k, c, pos, ps, |start|))
    requires after == AddCounts(before, CountRow(k, c, pos, qs, |start|))
    ensures after == AddCounts(start, CountRow(k, c, pos, ps + qs, |start|))
  {
    forall b | 0 <= b < |start| {
      TallyConcat(k, c, pos, ps, qs, b);
    }
  }

  /** `acc[qq] += x[qq]` for every qq. */
  method AddInto(acc: array<real>, x: seq<real>)
    requires acc.Length == |x|
    modifies acc
    ensures acc[..] == AddSeq(old(acc[..]), x)
  {
    var qq := 0;
    while qq < acc.Length
      invariant 0 <= qq <= acc.Length
      invariant forall t :: 0 <= t < qq ==> acc[t] == old(acc[t]) + x[t]
      invariant forall t :: qq <= t < acc.Length ==> acc[t] == old(acc[t])
    {
      acc[qq] := acc[qq] + x[qq];
      qq := qq + 1;
    }
  }

  /** One pass of the inner loop keeps `acc == start + PairSpectrum(pairs so far)`. */
  lemma SpectrumStep(k: Kernel, c: Ctx, pos: seq<Vec>, bs: seq<real>, ps: seq<Pair>, p: Pair,
                     start: seq<real>, before: seq<real>, after: seq<real>)
    requires |pos| == |bs| && p.i < |pos| && p.j < |pos| && |start| == Width(k, c.s)
    requires before == AddSeq(start, PairSpectrum(k, c, pos, bs, ps))
    requires after == if Accepted(k, c, pos, p)
      then AddSeq(before, Contribution(k, c, PairDx(k, c, pos, p), bs[p.i], bs[p.j]))
      else before
    ensures after == AddSeq(start, PairSpectrum(k, c, pos, bs, ps + [p]))
  {
    PairSpectrumAppend(k, c, pos, bs, ps, p);
    if Accepted(k, c, pos, p) {
      AddSeqAssociative(start, PairSpectrum(k, c, pos, bs, ps), Contribution(k, c, PairDx(k, c, pos, p), bs[p.i], bs[p.j]));
    }
  }

  /** One pass of the outer loop keeps `acc == start + PairSpectrum(pairs so far)`. */
  lemma SpectrumRows(k: Kernel, c: Ctx, pos: seq<Vec>, bs: seq<real>, ps: seq<Pair>, qs: seq<Pair>,
                     start: seq<real>, before: seq<real>, after: seq<real>)
    requires |pos| == |bs| && |start| == Width(k, c.s)
    requires before == AddSeq(start, PairSpectrum(k, c, pos, bs, ps))
    requires after == AddSeq(before, PairSpectrum(k, c, pos, bs, qs))
    ensures after == AddSeq(start, PairSpectrum(k, c, pos, bs, ps + qs))
  {
    PairSpectrumConcat(k, c, pos, bs, ps, qs);
    AddSeqAssociative(start, PairSpectrum(k, c, pos, bs, ps), PairSpectrum(k, c, pos, bs, qs));
  }

  lemma NothingAdded(k: Kernel, c: Ctx, pos: seq<Vec>, bs: seq<real>, start: seq<real>)
    requires |start| == Width(k, c.s) && |pos| == |bs|
    ensures AddSeq(start, PairSpectrum(k, c, pos, bs, [])) == start
  {
  }

  lemma NothingCounted(k: Kernel, c: Ctx, pos: seq<Vec>, start: seq<int>)
    ensures AddCounts(start, CountRow(k, c, pos, [], |start|)) == start
  {
  }

  lemma PairsFinished(i: nat, n: nat)
    requires n - 1 <= i && (i <= n - 1 || i == 0)
    ensures PairsBefore(i, n) == AllPairs(n)
  {
    if n >= 1 {
      AllPairsStopEarly(n);
    }
  }

  lemma RowPrefixEmpty(i: nat)
    ensures RowPrefix(i, i + 1) == []
  {
  }

  lemma RowPrefixNext(i: nat, j: nat)
    requires i + 1 <= j
    ensures RowPrefix(i, j + 1) == RowPrefix(i, j) + [Pair(i, j)]
  {
  }

  lemma PairsBeforeNext(i: nat, n: nat)
    ensures PairsBefore(i + 1, n) == PairsBefore(i, n) + RowPrefix(i, n)
  {
  }
}
