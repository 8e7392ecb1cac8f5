/** What one trajectory frame adds to the accumulators, group by group, for each of
    the seven loops; the averaging over frames; and the relations between total,
    coherent and incoherent scattering that these increments keep. */
module Frames {
  import opened Numerics
  import opened Setup
  import opened Pairs
  import opened Kernels
  import opened Dispatch

  /** One frame: its box and, per group, the `isize0` molecules the loops visit. */
  datatype Frame = Frame(box: Box, groups: seq<seq<Molecule>>)

  /** `1 / det(box_pbc)`. */
  function InvVolume(box: Box): real { Quot(1.0, Det(box)) }

  /** What one group adds: to `s_method[g]` (or `s_method_nospectrum[g]`), to
      `s_method_coh[g]` (or `s_method_coh_nospectrum[g]`) and to `s_method_incoh`. */
  datatype Increment = Increment(total: seq<real>, coherent: seq<real>, incoherent: real)

  /** An increment splits its total into coherent and incoherent parts at every q. */
  predicate Splits(inc: Increment) {
    |inc.total| == |inc.coherent| &&
    forall qq :: 0 <= qq < |inc.total| ==> inc.total[qq] - inc.coherent[qq] == inc.incoherent
  }

  function Sum(xs: seq<real>): real {
    if xs == [] then 0.0 else Sum(xs[..|xs| - 1]) + xs[|xs| - 1]
  }

  lemma {:induction false} SumUpdate(xs: seq<real>, g: nat, d: real)
    requires g < |xs|
    ensures Sum(xs[g := xs[g] + d]) == Sum(xs) + d
  {
    var ys := xs[g := xs[g] + d];
    if g < |xs| - 1 {
      assert ys[..|ys| - 1] == xs[..|xs| - 1][g := xs[g] + d];
      SumUpdate(xs[..|xs| - 1], g, d);
    } else {
      assert ys[..|ys| - 1] == xs[..|xs| - 1];
    }
  }

  lemma {:induction false} SumOfZeros(n: nat)
    ensures Sum(seq(n, h => 0.0)) == 0.0
  {
    if n > 0 {
      assert seq(n, h => 0.0)[..n - 1] == seq(n - 1, h => 0.0);
      SumOfZeros(n - 1);
    }
  }

  /** What the loops read of one group in one frame: the first atom of each of its
      molecules and the molecules' hyperpolarizabilities in the lab frame. */
  datatype GroupData = GroupData(pos: seq<Vec>, betas: seq<real>)

  predicate Matched(d: GroupData) { |d.pos| == |d.betas| }

  predicate AllMatched(groups: seq<GroupData>) {
    forall h :: 0 <= h < |groups| ==> Matched(groups[h])
  }

  /** The group data of a group's molecules: `x[ind0]` and `rotate_beta` of each. */
  function Observe(c: Ctx, mols: seq<Molecule>): (d: GroupData)
    ensures Matched(d) && |d.pos| == |mols|
  {
    GroupData(Positions(mols), Betas(c, mols))
  }

  /** The pair sums of a group: `temp_method`, or the single-q sum. */
  function GroupPairSum(k: Kernel, c: Ctx, d: GroupData): (t: seq<real>)
    requires Matched(d)
    ensures |t| == Width(k, c.s)
  {
    PairSpectrum(k, c, d.pos, d.betas, AllPairs(|d.pos|))
  }

  /** `beta_lab_sq_t` of a group. */
  function GroupSquares(d: GroupData): (b: real)
    ensures b >= 0.0
  {
    SumSquares(d.betas)
  }

  /** What the three spectral pair loops (modsumexp without and with fading, cosmo
      with spectrum) add from a group's pair sums `temp_method` and its
      `beta_lab_sq_t`. */
  function SpectralFromSums(k: Kernel, s: Setup, t: seq<real>, bsq: real): (inc: Increment)
    requires |t| == s.nbinq
    ensures |inc.total| == |inc.coherent| == s.nbinq
  {
    if k == CosmoSpec then
      Increment(
        seq(s.nbinq, qq requires 0 <= qq < s.nbinq => CosmoTotal(s, t[qq], bsq, qq)),
        seq(s.nbinq, qq requires 0 <= qq < s.nbinq => CosmoCoherent(s, t[qq], qq)),
        bsq * s.invSize0)
    else
      Increment(
        seq(s.nbinq, qq requires 0 <= qq < s.nbinq => PlainTotal(s, t[qq], bsq)),
        seq(s.nbinq, qq requires 0 <= qq < s.nbinq => PlainCoherent(s, t[qq])),
        bsq * s.invSize0)
  }

  /** `(2 temp_method[qq] + beta_lab_sq) invsize0`. */
  function PlainTotal(s: Setup, t: real, bsq: real): real {
    (2.0 * t + bsq) * s.invSize0
  }

  /** `2 temp_method[qq] invsize0`. */
  function PlainCoherent(s: Setup, t: real): real {
    2.0 * t * s.invSize0
  }

  /** The group increment of the three spectral pair loops. */
  function SpectralIncrement(k: Kernel, c: Ctx, d: GroupData): (inc: Increment)
    requires k == ModPlain || k == ModFaded || k == CosmoSpec
    requires Matched(d)
    ensures |inc.total| == |inc.coherent| == c.s.nbinq
  {
    SpectralFromSums(k, c.s, GroupPairSum(k, c, d), GroupSquares(d))
  }

  /** `invsize0 * (2 temp_method[qq] / arr_q[qq] + beta_lab_sq_t)`. */
  function CosmoTotal(s: Setup, t: real, bsq: real, qq: nat): real {
    s.invSize0 * (Quot(2.0 * t, QAt(s, qq)) + bsq)
  }

  /** `2 invsize0 temp_method[qq] / arr_q[qq]`. */
  function CosmoCoherent(s: Setup, t: real, qq: nat): real {
    Quot(2.0 * s.invSize0 * t, QAt(s, qq))
  }

  lemma QuotScale(f: real, a: real, b: real)
    ensures Quot(f * a, b) == f * Quot(a, b)
  {
    if b != 0.0 {
      assert Quot(f * a, b) * b == f * a;
      assert (f * Quot(a, b)) * b == f * (Quot(a, b) * b);
    }
  }

  lemma PlainSplit(total: real, coherent: real, incoherent: real, t: real, bsq: real, inv: real)
    requires total == (2.0 * t + bsq) * inv && coherent == 2.0 * t * inv && incoherent == bsq * inv
    ensures total - coherent == incoherent
  {
  }

  lemma CosmoSplit(s: Setup, t: real, bsq: real, qq: nat)
    ensures CosmoTotal(s, t, bsq, qq) - CosmoCoherent(s, t, qq) == bsq * s.invSize0
  {
    QuotScale(s.invSize0, 2.0 * t, QAt(s, qq));
    assert 2.0 * s.invSize0 * t == s.invSize0 * (2.0 * t);
  }

  /** In every spectral loop the total is the coherent part plus `beta_lab_sq_t *
      invsize0`, and that incoherent part is never negative. */
  lemma SpectralIncrementSplits(k: Kernel, c: Ctx, d: GroupData)
    requires k == ModPlain || k == ModFaded || k == CosmoSpec
    requires Matched(d)
    ensures Splits(SpectralIncrement(k, c, d))
    ensures SpectralIncrement(k, c, d).incoherent == GroupSquares(d) * c.s.invSize0
    ensures c.s.invSize0 >= 0.0 ==> SpectralIncrement(k, c, d).incoherent >= 0.0
  {
    var inc := SpectralIncrement(k, c, d);
    forall qq | 0 <= qq < c.s.nbinq
      ensures inc.total[qq] - inc.coherent[qq] == inc.incoherent
    {
      if k == CosmoSpec {
        CosmoEntrySplits(c, d, qq);
      } else {
        PlainEntrySplits(k, c, d, qq);
      }
    }
  }

  lemma CosmoEntrySplits(c: Ctx, d: GroupData, qq: nat)
    requires Matched(d) && qq < c.s.nbinq
    ensures SpectralIncrement(CosmoSpec, c, d).total[qq] - SpectralIncrement(CosmoSpec, c, d).coherent[qq] ==
      SpectralIncrement(CosmoSpec, c, d).incoherent
  {
    var s, t, bsq := c.s, GroupPairSum(CosmoSpec, c, d), GroupSquares(d);
    var inc := SpectralIncrement(CosmoSpec, c, d);
    assert inc.total[qq] == CosmoTotal(s, t[qq], bsq, qq);
    assert inc.coherent[qq] == CosmoCoherent(s, t[qq], qq);
    CosmoSplit(s, t[qq], bsq, qq);
  }

  lemma PlainEntrySplits(k: Kernel, c: Ctx, d: GroupData, qq: nat)
    requires k == ModPlain || k == ModFaded
    requires Matched(d) && qq < c.s.nbinq
    ensures SpectralIncrement(k, c, d).total[qq] - SpectralIncrement(k, c, d).coherent[qq] ==
      SpectralIncrement(k, c, d).incoherent
  {
    var s, t, bsq := c.s, GroupPairSum(k, c, d), GroupSquares(d);
    var inc := SpectralIncrement(k, c, d);
    PlainSplit(inc.total[qq], inc.coherent[qq], inc.incoherent, t[qq], bsq, s.invSize0);
  }

  /** `sqr(cos_q[qq]) + sqr(sin_q[qq])` for a group at q. */
  function GroupIntensity(c: Ctx, d: GroupData, q: real): (i: real)
    requires Matched(d)
    ensures i >= 0.0
  {
    SquareNonNegative(CosSum(c, d.betas, d.pos, q));
    SquareNonNegative(SinSum(c, d.betas, d.pos, q));
    Intensity(c, d.betas, d.pos, q)
  }

  /** What the sumexp loop with spectrum adds from a group's phase sums `cos_q`,
      `sin_q` and its `beta_lab_sq_t`. */
  function SumexpFromSums(s: Setup, cs: seq<real>, sn: seq<real>, bsq: real): (inc: Increment)
    requires |cs| == |sn| == s.nbinq
    ensures |inc.total| == |inc.coherent| == s.nbinq
  {
    Increment(
      seq(s.nbinq, qq requires 0 <= qq < s.nbinq => SumexpTotal(s, cs[qq], sn[qq])),
      seq(s.nbinq, qq requires 0 <= qq < s.nbinq => SumexpCoherent(s, cs[qq], sn[qq], bsq)),
      bsq * s.invSize0)
  }

  /** `(cos_q^2 + sin_q^2) invsize0`. */
  function SumexpTotal(s: Setup, cs: real, sn: real): real {
    (Sqr(cs) + Sqr(sn)) * s.invSize0
  }

  /** `(cos_q^2 + sin_q^2 - beta_lab_sq) invsize0`. */
  function SumexpCoherent(s: Setup, cs: real, sn: real, bsq: real): real {
    (Sqr(cs) + Sqr(sn) - bsq) * s.invSize0
  }

  /** `cos_q` and `sin_q` of a group after its molecule loop. */
  function CosSums(c: Ctx, d: GroupData): (r: seq<real>)
    requires Matched(d)
    ensures |r| == c.s.nbinq
  {
    seq(c.s.nbinq, qq requires 0 <= qq => CosSum(c, d.betas, d.pos, QAt(c.s, qq)))
  }

  function SinSums(c: Ctx, d: GroupData): (r: seq<real>)
    requires Matched(d)
    ensures |r| == c.s.nbinq
  {
    seq(c.s.nbinq, qq requires 0 <= qq => SinSum(c, d.betas, d.pos, QAt(c.s, qq)))
  }

  /** The group increment of the sumexp loop with spectrum. */
  function SumexpIncrement(c: Ctx, d: GroupData): (inc: Increment)
    requires Matched(d)
    ensures |inc.total| == |inc.coherent| == c.s.nbinq
  {
    SumexpFromSums(c.s, CosSums(c, d), SinSums(c, d), GroupSquares(d))
  }

  lemma IntensitySplit(total: real, coherent: real, incoherent: real, i: real, bsq: real, inv: real)
    requires total == i * inv && coherent == (i - bsq) * inv && incoherent == bsq * inv
    requires i >= 0.0
    ensures total - coherent == incoherent
    ensures inv >= 0.0 ==> total >= 0.0
  {
  }

  /** From any phase sums, the sumexp total is a squared modulus, never negative, and
      splits into a coherent part and `beta_lab_sq_t * invsize0`. */
  lemma SumexpFromSumsSplits(s: Setup, cs: seq<real>, sn: seq<real>, bsq: real)
    requires |cs| == |sn| == s.nbinq
    ensures Splits(SumexpFromSums(s, cs, sn, bsq))
    ensures SumexpFromSums(s, cs, sn, bsq).incoherent == bsq * s.invSize0
    ensures s.invSize0 >= 0.0 ==> forall qq :: 0 <= qq < s.nbinq ==> SumexpFromSums(s, cs, sn, bsq).total[qq] >= 0.0
  {
    var inc := SumexpFromSums(s, cs, sn, bsq);
    forall qq | 0 <= qq < s.nbinq
      ensures inc.total[qq] - inc.coherent[qq] == inc.incoherent
      ensures s.invSize0 >= 0.0 ==> inc.total[qq] >= 0.0
    {
      SquareNonNegative(cs[qq]);
      SquareNonNegative(sn[qq]);
      IntensitySplit(inc.total[qq], inc.coherent[qq], inc.incoherent, Sqr(cs[qq]) + Sqr(sn[qq]), bsq, s.invSize0);
    }
  }

  /** sumexp's total is the squared modulus of the structure factor, never negative,
      and splits into a coherent part and `beta_lab_sq_t * invsize0`. */
  lemma SumexpIncrementSplits(c: Ctx, d: GroupData)
    requires Matched(d)
    ensures Splits(SumexpIncrement(c, d))
    ensures SumexpIncrement(c, d).incoherent == GroupSquares(d) * c.s.invSize0
    ensures c.s.invSize0 >= 0.0 ==> forall qq :: 0 <= qq < c.s.nbinq ==> SumexpIncrement(c, d).total[qq] >= 0.0
  {
    SumexpFromSumsSplits(c.s, CosSums(c, d), SinSums(c, d), GroupSquares(d));
  }

  /** The increment of the two single-q loops from a pair sum t and a sum of squares:
      `2 t invsize0` coherent, `bsq invsize0` incoherent, `(2 t + bsq) invsize0` total. */
  function ScalarIncrement(s: Setup, t: real, bsq: real): (inc: Increment)
    ensures Splits(inc) && |inc.total| == 1 && inc.incoherent == bsq * s.invSize0
  {
    Increment([(2.0 * t + bsq) * s.invSize0], [t * s.invSize0 * 2.0], bsq * s.invSize0)
  }

  /** The sums over a frame's first groups, as the single-q cosmo loop carries them:
      `beta_lab_sq_t` and `s_method_coh_temp` are cleared once per frame. */
  function CarriedSquares(groups: seq<GroupData>): real {
    if groups == [] then 0.0
    else CarriedSquares(groups[..|groups| - 1]) + GroupSquares(groups[|groups| - 1])
  }

  function CarriedPairs(c: Ctx, groups: seq<GroupData>): real
    requires AllMatched(groups)
  {
    if groups == [] then 0.0
    else CarriedPairs(c, groups[..|groups| - 1]) + GroupPairSum(CosmoSingle, c, groups[|groups| - 1])[0]
  }

  /** The single-q cosmo increment of group g as written: its sums include every
      earlier group of the frame. */
  function CosmoScalarIncrement(c: Ctx, groups: seq<GroupData>, g: nat): (inc: Increment)
    requires AllMatched(groups) && g < |groups|
    ensures Splits(inc) && |inc.total| == 1
    ensures inc.incoherent == CarriedSquares(groups[..g + 1]) * c.s.invSize0
  {
    ScalarIncrement(c.s, CarriedPairs(c, groups[..g + 1]), CarriedSquares(groups[..g + 1]))
  }

  /** The single-q cosmo increment with both sums cleared for every group. */
  function CosmoScalarIncrementCorrected(c: Ctx, d: GroupData): (inc: Increment)
    requires Matched(d)
    ensures Splits(inc)
    ensures inc.incoherent == GroupSquares(d) * c.s.invSize0
  {
    ScalarIncrement(c.s, GroupPairSum(CosmoSingle, c, d)[0], GroupSquares(d))
  }

  /** As written, group g's sums are group g's own sums plus those of all earlier
      groups: with one group the two agree, with two or more every later group's
      incoherent part also counts the earlier groups' molecules. */
  lemma CosmoScalarCarriesEarlierGroups(c: Ctx, groups: seq<GroupData>, g: nat)
    requires AllMatched(groups) && g < |groups|
    ensures CosmoScalarIncrement(c, groups, g).incoherent ==
      CosmoScalarIncrementCorrected(c, groups[g]).incoherent + CarriedSquares(groups[..g]) * c.s.invSize0
  {
    var inc, fixed := CosmoScalarIncrement(c, groups, g), CosmoScalarIncrementCorrected(c, groups[g]);
    var b0, b, inv := CarriedSquares(groups[..g]), GroupSquares(groups[g]), c.s.invSize0;
    CarriedSquaresStep(groups, g);
    assert inc.incoherent == CarriedSquares(groups[..g + 1]) * inv;
    assert fixed.incoherent == b * inv;
    CarriedSquaresScale(CarriedSquares(groups[..g + 1]), b0, b, inv);
  }

  /** For the first group the as-written and the corrected increments agree. */
  lemma CosmoScalarFirstGroup(c: Ctx, groups: seq<GroupData>)
    requires AllMatched(groups) && 0 < |groups|
    ensures CosmoScalarIncrement(c, groups, 0) == CosmoScalarIncrementCorrected(c, groups[0])
  {
    CarriedStep(c, groups, 0);
    assert groups[..0] == [];
  }

  /** The two sums the single-q cosmo loop carries grow, group by group, by each
      group's own pair sum and sum of squares. */
  lemma CarriedStep(c: Ctx, groups: seq<GroupData>, g: nat)
    requires AllMatched(groups) && g < |groups|
    ensures CarriedPairs(c, groups[..g + 1]) == CarriedPairs(c, groups[..g]) + GroupPairSum(CosmoSingle, c, groups[g])[0]
    ensures CarriedSquares(groups[..g + 1]) == CarriedSquares(groups[..g]) + GroupSquares(groups[g])
  {
    assert groups[..g + 1][..g] == groups[..g];
  }

  lemma CarriedSquaresStep(groups: seq<GroupData>, g: nat)
    requires g < |groups|
    ensures CarriedSquares(groups[..g + 1]) == CarriedSquares(groups[..g]) + GroupSquares(groups[g])
  {
    assert groups[..g + 1][..g] == groups[..g];
  }

  lemma CarriedSquaresScale(x: real, b0: real, b: real, inv: real)
    requires x == b0 + b
    ensures x * inv == b * inv + b0 * inv
  {
  }

  /** The sumexp single-q loop as written: it sums `beta_lab_t` into the phase sums
      but squares `beta_lab[i]`, an array this loop never writes. */
  function SumexpScalarIncrement(c: Ctx, d: GroupData, stale: seq<real>): (inc: Increment)
    requires Matched(d)
    ensures Splits(inc) && |inc.total| == 1
    ensures inc.incoherent == SumSquares(stale) * c.s.invSize0
  {
    var i := GroupIntensity(c, d, c.s.minq);
    var bsq := SumSquares(stale);
    Increment([i * c.s.invSize0], [(i - bsq) * c.s.invSize0], bsq * c.s.invSize0)
  }

  /** With `beta_lab` still as allocated (all zero), the as-written single-q sumexp
      loop reports no incoherent scattering and a coherent part equal to the total. */
  lemma SumexpScalarStaleSquares(c: Ctx, d: GroupData, stale: seq<real>)
    requires Matched(d)
    requires forall i :: 0 <= i < |stale| ==> stale[i] == 0.0
    ensures SumexpScalarIncrement(c, d, stale).incoherent == 0.0
    ensures SumexpScalarIncrement(c, d, stale).coherent[0] == SumexpScalarIncrement(c, d, stale).total[0]
  {
    SumSquaresOfZeros(stale);
  }

  /** The single-q sumexp increment squaring the hyperpolarizabilities it sums. */
  function SumexpScalarIncrementCorrected(c: Ctx, d: GroupData): (inc: Increment)
    requires Matched(d)
    ensures Splits(inc) && inc.incoherent == GroupSquares(d) * c.s.invSize0
  {
    SumexpScalarIncrement(c, d, d.betas)
  }

  /** With the correction the single-q sumexp loop gives exactly the first q point of
      the sumexp spectrum (`arr_q[0] == minq`). */
  lemma SumexpScalarMatchesSpectrum(c: Ctx, d: GroupData)
    requires Matched(d) && c.s.nbinq > 0
    ensures SumexpScalarIncrementCorrected(c, d).total[0] == SumexpIncrement(c, d).total[0]
    ensures SumexpScalarIncrementCorrected(c, d).coherent[0] == SumexpIncrement(c, d).coherent[0]
    ensures SumexpScalarIncrementCorrected(c, d).incoherent == SumexpIncrement(c, d).incoherent
  {
    assert QAt(c.s, 0) == c.s.minq;
  }

  /** `s_method_incoh` after the averaging loop as written: divided by `nframes`
      once for every group. */
  function AveragedIncoherent(incoh: real, nframes: nat, ng: nat): real {
    if ng == 0 then incoh else Quot(AveragedIncoherent(incoh, nframes, ng - 1), nframes as real)
  }

  function Power(x: real, n: nat): (p: real)
    ensures x > 0.0 ==> p > 0.0
  {
    if n == 0 then 1.0 else x * Power(x, n - 1)
  }

  /** As written, the incoherent average is divided by `nframes^ng`: it is the
      average over frames only for a single group. */
  lemma {:induction false} AveragedIncoherentPower(incoh: real, nframes: nat, ng: nat)
    requires nframes > 0
    ensures AveragedIncoherent(incoh, nframes, ng) * Power(nframes as real, ng) == incoh
  {
    if ng > 0 {
      AveragedIncoherentPower(incoh, nframes, ng - 1);
      var a := AveragedIncoherent(incoh, nframes, ng - 1);
      var n := nframes as real;
      assert Quot(a, n) * n == a;
      assert Quot(a, n) * (n * Power(n, ng - 1)) == (Quot(a, n) * n) * Power(n, ng - 1);
    }
  }

  /** With two groups and two frames the as-written average is a quarter, not a half,
      of the accumulated incoherent sum. */
  lemma AveragedIncoherentTwoGroups(incoh: real)
    ensures AveragedIncoherent(incoh, 2, 2) == incoh / 4.0
  {
    AveragedIncoherentPower(incoh, 2, 2);
    assert Power(2.0, 1) == 2.0;
    assert Power(2.0, 2) == 4.0;
  }

  /** The incoherent average divided by `nframes` once. */
  function AveragedIncoherentCorrected(incoh: real, nframes: nat, ng: nat): (r: real)
    ensures nframes > 0 ==> r * nframes as real == incoh
    ensures ng == 1 ==> r == AveragedIncoherent(incoh, nframes, ng)
  {
    assert AveragedIncoherent(incoh, nframes, 0) == incoh;
    assert ng == 1 ==> AveragedIncoherent(incoh, nframes, ng) == Quot(AveragedIncoherent(incoh, nframes, 0), nframes as real);
    Quot(incoh, nframes as real)
  }

  /** The group data of every group of a frame. */
  function FrameData(c: Ctx, groups: seq<seq<Molecule>>): (ds: seq<GroupData>)
    ensures |ds| == |groups| && AllMatched(ds)
    ensures forall h :: 0 <= h < |ds| ==> ds[h] == Observe(c, groups[h])
  {
    seq(|groups|, h requires 0 <= h < |groups| => Observe(c, groups[h]))
  }

  /** What group h of a frame adds in each of the seven loops. `stale` is `beta_lab`
      as the single-q sumexp loop finds it. */
  function GroupIncrement(loop: Loop, c: Ctx, ds: seq<GroupData>, h: nat, stale: seq<real>): (inc: Increment)
    requires AllMatched(ds) && h < |ds|
    ensures RowLoop(loop) ==> |inc.total| == |inc.coherent| == c.s.nbinq
    ensures !RowLoop(loop) ==> |inc.total| == |inc.coherent| == 1
  {
    if RowLoop(loop) then RowIncrement(loop, c, ds[h]) else SingleIncrement(loop, c, ds, h, stale)
  }

  /** The loops that fill the spectra `s_method[g][qq]` and `s_method_coh[g][qq]`;
      the other three fill `s_method_nospectrum[g]` and `s_method_coh_nospectrum[g]`. */
  predicate RowLoop(loop: Loop) {
    loop == ModsumexpSpectrum || loop == ModsumexpSpectrumFaded || loop == CosmoSpectrum || loop == SumexpSpectrum
  }

  /** The increment of a group in the four spectrum loops, which depends on that
      group alone. */
  function RowIncrement(loop: Loop, c: Ctx, d: GroupData): (inc: Increment)
    requires RowLoop(loop) && Matched(d)
    ensures |inc.total| == |inc.coherent| == c.s.nbinq
  {
    if loop == SumexpSpectrum then SumexpIncrement(c, d) else SpectralIncrement(KernelOf(loop), c, d)
  }

  /** The increment of group h in the three single-q loops. The faded single-q
      cosmo loop adds its pair sum to `s_method_nospectrum[g]` and nothing to the
      coherent or the incoherent accumulator. */
  function SingleIncrement(loop: Loop, c: Ctx, ds: seq<GroupData>, h: nat, stale: seq<real>): (inc: Increment)
    requires AllMatched(ds) && h < |ds| && !RowLoop(loop)
    ensures |inc.total| == |inc.coherent| == 1
  {
    if loop == CosmoScalar then CosmoScalarIncrement(c, ds, h)
    else if loop == CosmoScalarFaded then Increment([GroupPairSum(CosmoSingleFaded, c, ds[h])[0]], [0.0], 0.0)
    else SumexpScalarIncrement(c, ds[h], stale)
  }

  /** Every loop but the faded single-q cosmo one keeps, for every group and every
      q, total == coherent + incoherent; that one leaves the coherent and incoherent
      accumulators alone. */
  lemma GroupIncrementSplits(loop: Loop, c: Ctx, ds: seq<GroupData>, h: nat, stale: seq<real>)
    requires AllMatched(ds) && h < |ds|
    ensures loop != CosmoScalarFaded ==> Splits(GroupIncrement(loop, c, ds, h, stale))
    ensures loop == CosmoScalarFaded ==>
      GroupIncrement(loop, c, ds, h, stale).coherent == [0.0] && GroupIncrement(loop, c, ds, h, stale).incoherent == 0.0
  {
    if RowLoop(loop) {
      RowIncrementSplits(loop, c, ds[h]);
    }
  }

  /** In the four spectrum loops, which clear `beta_lab_sq_t` for every group and
      square what they sum, a group's increment splits and its incoherent part is
      the group's own squared hyperpolarizabilities over `isize0`. */
  lemma RowIncrementSplits(loop: Loop, c: Ctx, d: GroupData)
    requires RowLoop(loop) && Matched(d)
    ensures Splits(RowIncrement(loop, c, d))
    ensures RowIncrement(loop, c, d).incoherent == GroupSquares(d) * c.s.invSize0
  {
    if loop == SumexpSpectrum {
      SumexpIncrementSplits(c, d);
    } else {
      SpectralIncrementSplits(KernelOf(loop), c, d);
    }
  }

  /** What group h adds to `s_method_incoh`, loop by loop: its own squares in the
      spectrum loops, the squares of groups 0 to h in the single-q cosmo loop,
      nothing in the faded one, the squares of `beta_lab` as found in the
      single-q sumexp loop; each over `isize0`. */
  function GroupIncoherent(loop: Loop, c: Ctx, ds: seq<GroupData>, h: nat, stale: seq<real>): real
    requires h < |ds|
  {
    if RowLoop(loop) then GroupSquares(ds[h]) * c.s.invSize0
    else if loop == CosmoScalar then CarriedSquares(ds[..h + 1]) * c.s.invSize0
    else if loop == CosmoScalarFaded then 0.0
    else SumSquares(stale) * c.s.invSize0
  }

  /** Group h's increment carries that incoherent part. */
  lemma GroupIncrementIncoherent(loop: Loop, c: Ctx, ds: seq<GroupData>, h: nat, stale: seq<real>)
    requires AllMatched(ds) && h < |ds|
    ensures GroupIncrement(loop, c, ds, h, stale).incoherent == GroupIncoherent(loop, c, ds, h, stale)
  {
    if RowLoop(loop) {
      RowIncrementSplits(loop, c, ds[h]);
    }
  }

  /** What the first n groups of a frame add to `s_method_incoh`. */
  function FrameIncoherent(loop: Loop, c: Ctx, ds: seq<GroupData>, stale: seq<real>, n: nat): real
    requires n <= |ds|
  {
    if n == 0 then 0.0 else FrameIncoherent(loop, c, ds, stale, n - 1) + GroupIncoherent(loop, c, ds, n - 1, stale)
  }

  lemma FrameIncoherentStep(loop: Loop, c: Ctx, ds: seq<GroupData>, stale: seq<real>, g: nat, d: real)
    requires g < |ds| && d == GroupIncoherent(loop, c, ds, g, stale)
    ensures FrameIncoherent(loop, c, ds, stale, g + 1) == FrameIncoherent(loop, c, ds, stale, g) + d
  {
  }

  /** In the four spectrum loops group g adds its own squares over `isize0`. */
  lemma FrameIncoherentRowStep(loop: Loop, c: Ctx, ds: seq<GroupData>, stale: seq<real>, g: nat, b: real)
    requires RowLoop(loop) && g < |ds| && b == GroupSquares(ds[g])
    ensures FrameIncoherent(loop, c, ds, stale, g + 1) == FrameIncoherent(loop, c, ds, stale, g) + b * c.s.invSize0
  {
  }

  /** In the four spectrum loops, which clear `beta_lab_sq_t` for every group, a
      frame adds to `s_method_incoh` the squared hyperpolarizabilities of the
      molecules of all its groups, over `isize0`. */
  lemma {:induction false} FrameIncoherentRows(loop: Loop, c: Ctx, ds: seq<GroupData>, stale: seq<real>, n: nat)
    requires RowLoop(loop) && AllMatched(ds) && n <= |ds|
    ensures FrameIncoherent(loop, c, ds, stale, n) == CarriedSquares(ds[..n]) * c.s.invSize0
  {
    if n > 0 {
      FrameIncoherentRows(loop, c, ds, stale, n - 1);
      assert GroupIncoherent(loop, c, ds, n - 1, stale) == GroupSquares(ds[n - 1]) * c.s.invSize0;
      CarriedSquaresStep(ds, n - 1);
      CarriedSquaresScale(CarriedSquares(ds[..n]), CarriedSquares(ds[..n - 1]), GroupSquares(ds[n - 1]), c.s.invSize0);
    }
  }

  /** In the single-q cosmo loop without fading, which clears `beta_lab_sq_t` once
      per frame, group g adds the squares of groups 0 to g: a frame counts group h
      once for itself and once for every later group. */
  lemma {:induction false} FrameIncoherentCosmoScalar(c: Ctx, ds: seq<GroupData>, stale: seq<real>, n: nat)
    requires AllMatched(ds) && n <= |ds|
    ensures FrameIncoherent(CosmoScalar, c, ds, stale, n) == CarriedSquaresSum(ds, n) * c.s.invSize0
  {
    if n > 0 {
      FrameIncoherentCosmoScalar(c, ds, stale, n - 1);
      CarriedSquaresScale(CarriedSquaresSum(ds, n), CarriedSquaresSum(ds, n - 1), CarriedSquares(ds[..n]), c.s.invSize0);
    }
  }

  /** The sum, over g < n, of the squares of groups 0 to g. */
  function CarriedSquaresSum(ds: seq<GroupData>, n: nat): real
    requires n <= |ds|
  {
    if n == 0 then 0.0 else CarriedSquaresSum(ds, n - 1) + CarriedSquares(ds[..n])
  }

  /** The faded single-q cosmo loop adds nothing to `s_method_incoh`. */
  lemma {:induction false} FrameIncoherentFaded(c: Ctx, ds: seq<GroupData>, stale: seq<real>, n: nat)
    requires n <= |ds|
    ensures FrameIncoherent(CosmoScalarFaded, c, ds, stale, n) == 0.0
  {
    if n > 0 {
      FrameIncoherentFaded(c, ds, stale, n - 1);
    }
  }

  /** With two groups the single-q cosmo loop counts the first group's squares
      twice in `s_method_incoh`; the spectrum loops count each group once. */
  lemma CosmoScalarTwoGroups(c: Ctx, d0: GroupData, d1: GroupData, stale: seq<real>)
    requires Matched(d0) && Matched(d1)
    ensures FrameIncoherent(CosmoScalar, c, [d0, d1], stale, 2) ==
      (2.0 * GroupSquares(d0) + GroupSquares(d1)) * c.s.invSize0
    ensures FrameIncoherent(CosmoSpectrum, c, [d0, d1], stale, 2) ==
      (GroupSquares(d0) + GroupSquares(d1)) * c.s.invSize0
  {
    var ds := [d0, d1];
    FrameIncoherentCosmoScalar(c, ds, stale, 2);
    FrameIncoherentRows(CosmoSpectrum, c, ds, stale, 2);
    CarriedSquaresStep(ds, 0);
    CarriedSquaresStep(ds, 1);
    assert ds[..0] == [] && ds[..2] == ds;
    assert CarriedSquaresSum(ds, 1) == GroupSquares(d0);
    assert CarriedSquaresSum(ds, 2) == 2.0 * GroupSquares(d0) + GroupSquares(d1);
  }

  /** The single-q sumexp loop adds to `s_method_incoh` the squares of the stale
      `beta_lab`, which no single-q sumexp frame writes: with it as allocated, all
      zero, a frame adds nothing. */
  lemma {:induction false} FrameIncoherentSumexpScalar(c: Ctx, ds: seq<GroupData>, stale: seq<real>, n: nat)
    requires AllMatched(ds) && n <= |ds|
    requires forall i :: 0 <= i < |stale| ==> stale[i] == 0.0
    ensures FrameIncoherent(SumexpScalar, c, ds, stale, n) == 0.0
  {
    if n > 0 {
      FrameIncoherentSumexpScalar(c, ds, stale, n - 1);
      SumSquaresOfZeros(stale);
    }
  }

  /** The pair kernel of each pair loop (the sumexp loops visit no pairs). */
  function KernelOf(loop: Loop): Kernel
    requires loop !in {SumexpSpectrum, SumexpScalar}
  {
    match loop
    case ModsumexpSpectrum => ModPlain
    case ModsumexpSpectrumFaded => ModFaded
    case CosmoSpectrum => CosmoSpec
    case CosmoScalar => CosmoSingle
    case CosmoScalarFaded => CosmoSingleFaded
  }
}
