/** The body of the group loop `for (g = 0; g < ng; g++)` of each trajectory loop,
    working on the arrays of one group: the molecule loop that fills `beta_lab`,
    the pair loop or the phase sums, and the closing q loop that adds to
    `s_method[g]` and `s_method_coh[g]`. Each is proved against the group increment
    of the frame-level specification. */
module Groups {
  import opened Numerics
  import opened Setup
  import opened Pairs
  import opened Kernels
  import opened Frames
  import opened PairLoops
  import opened Dispatch

  /** The molecule loop of a group: `beta_lab[i] = rotate_beta(...)` and
      `beta_lab_sq_t += sqr(beta_lab[i])`, starting from `bsq0`. */
  method ComputeBetas(c: Ctx, mols: seq<Molecule>, bl: array<real>, bsq0: real) returns (bsq: real)
    requires bl.Length == |mols|
    modifies bl
    ensures bl[..] == Betas(c, mols)
    ensures bsq == bsq0 + SumSquares(Betas(c, mols))
  {
    bsq := bsq0;
    var i := 0;
    while i < |mols|
      invariant 0 <= i <= |mols|
      invariant bl[..i] == Betas(c, mols)[..i]
      invariant bsq == bsq0 + SumSquares(bl[..i])
    {
      bl[i] := MolBeta(c, mols[i]);
      assert bl[..i + 1][..i] == bl[..i];
      bsq := bsq + Sqr(bl[i]);
      i := i + 1;
    }
    assert bl[..] == bl[..i];
  }

  /** The arrays of one group of a spectral loop: `beta_lab`, `count[g]`,
      `s_method[g]` and `s_method_coh[g]`, sized for the set-up. */
  ghost predicate RowArrays(c: Ctx, mols: seq<Molecule>, bl: array<real>, row: array<int>, tot: array<real>, coh: array<real>) {
    HistogramReady(c.s, c.env) && bl.Length == |mols| && row.Length == c.s.nbin + 1 &&
    tot.Length == c.s.nbinq && coh.Length == c.s.nbinq && bl != tot && bl != coh && tot != coh
  }

  /** One group of the three spectral pair loops (modsumexp without and with
      fading, cosmo with spectrum): the hyperpolarizabilities, the pair sums
      `temp_method`, then `s_method_coh[g]` and `s_method[g]`. The group's
      `beta_lab_sq_t` is returned for `s_method_incoh`. */
  method SpectralGroup(k: Kernel, c: Ctx, mols: seq<Molecule>, bl: array<real>, row: array<int>, tot: array<real>, coh: array<real>)
    returns (bsq: real)
    requires k == ModPlain || k == ModFaded || k == CosmoSpec
    requires RowArrays(c, mols, bl, row, tot, coh)
    modifies bl, row, tot, coh
    ensures bl[..] == Betas(c, mols)
    ensures bsq == GroupSquares(Observe(c, mols))
    ensures tot[..] == AddSeq(old(tot[..]), SpectralIncrement(k, c, Observe(c, mols)).total)
    ensures coh[..] == AddSeq(old(coh[..]), SpectralIncrement(k, c, Observe(c, mols)).coherent)
    ensures row[..] == AddCounts(old(row[..]), CountRow(k, c, Positions(mols), AllPairs(|mols|), row.Length))
  {
    bsq := ComputeBetas(c, mols, bl, 0.0);
    var temp := new real[c.s.nbinq](qq => 0.0);
    ghost var t0 := temp[..];
    assert t0 == Zeros(c.s.nbinq);
    PairLoop(k, c, Positions(mols), bl, row, temp);
    SpectralFromTemp(k, c, mols, t0, temp[..]);
    AddSpectral(k, c.s, temp, bsq, tot, coh);
  }

  lemma SpectralFromTemp(k: Kernel, c: Ctx, mols: seq<Molecule>, t0: seq<real>, t: seq<real>)
    requires k == ModPlain || k == ModFaded || k == CosmoSpec
    requires t0 == Zeros(c.s.nbinq)
    requires t == AddSeq(t0, PairSpectrum(k, c, Positions(mols), Betas(c, mols), AllPairs(|mols|)))
    ensures SpectralFromSums(k, c.s, t, SumSquares(Betas(c, mols))) == SpectralIncrement(k, c, Observe(c, mols))
  {
    AddZeros(PairSpectrum(k, c, Positions(mols), Betas(c, mols), AllPairs(|mols|)));
  }

  /** The closing q loop of the three spectral pair loops:
      `s_method_coh[g][qq]` and `s_method[g][qq]` from `temp_method`. */
  method AddSpectral(k: Kernel, s: Setup, t: array<real>, bsq: real, tot: array<real>, coh: array<real>)
    requires t.Length == tot.Length == coh.Length == s.nbinq
    requires tot != coh && t != tot && t != coh
    modifies tot, coh
    ensures tot[..] == AddSeq(old(tot[..]), SpectralFromSums(k, s, t[..], bsq).total)
    ensures coh[..] == AddSeq(old(coh[..]), SpectralFromSums(k, s, t[..], bsq).coherent)
  {
    ghost var inc := SpectralFromSums(k, s, t[..], bsq);
    ghost var t0, c0 := tot[..], coh[..];
    var qq := 0;
    while qq < s.nbinq
      invariant 0 <= qq <= s.nbinq
      invariant AddedUpTo(t0, tot[..], inc.total, qq) && AddedUpTo(c0, coh[..], inc.coherent, qq)
    {
      if k == CosmoSpec {
        coh[qq] := coh[qq] + CosmoCoherent(s, t[qq], qq);
        tot[qq] := tot[qq] + CosmoTotal(s, t[qq], bsq, qq);
      } else {
        coh[qq] := coh[qq] + PlainCoherent(s, t[qq]);
        tot[qq] := tot[qq] + PlainTotal(s, t[qq], bsq);
      }
      qq := qq + 1;
    }
    AddedAll(t0, tot[..], inc.total);
    AddedAll(c0, coh[..], inc.coherent);
  }

  /** The arrays of one group of the sumexp loop with spectrum. */
  ghost predicate PhaseArrays(c: Ctx, mols: seq<Molecule>, bl: array<real>, tot: array<real>, coh: array<real>) {
    bl.Length == |mols| && tot.Length == c.s.nbinq && coh.Length == c.s.nbinq &&
    bl != tot && bl != coh && tot != coh
  }

  /** One group of the sumexp loop with spectrum: fresh `cos_q` and `sin_q`, the
      molecule loop, then `s_method[g]` and `s_method_coh[g]`. */
  method SumexpGroup(c: Ctx, mols: seq<Molecule>, bl: array<real>, tot: array<real>, coh: array<real>) returns (bsq: real)
    requires PhaseArrays(c, mols, bl, tot, coh)
    modifies bl, tot, coh
    ensures bl[..] == Betas(c, mols)
    ensures bsq == GroupSquares(Observe(c, mols))
    ensures tot[..] == AddSeq(old(tot[..]), SumexpIncrement(c, Observe(c, mols)).total)
    ensures coh[..] == AddSeq(old(coh[..]), SumexpIncrement(c, Observe(c, mols)).coherent)
  {
    var cosQ := new real[c.s.nbinq](qq => 0.0);
    var sinQ := new real[c.s.nbinq](qq => 0.0);
    PhasesEmpty(c, cosQ, sinQ);
    bsq := PhaseSums(c, mols, bl, cosQ, sinQ);
    AddSumexp(c.s, cosQ, sinQ, bsq, tot, coh);
  }

  /** The molecule loop of the sumexp loop with spectrum: `beta_lab[i]`,
      `beta_lab_sq_t` and the phase sums `cos_q[qq]`, `sin_q[qq]`. */
  method PhaseSums(c: Ctx, mols: seq<Molecule>, bl: array<real>, cosQ: array<real>, sinQ: array<real>) returns (bsq: real)
    requires bl.Length == |mols| && cosQ != sinQ && cosQ != bl && sinQ != bl
    requires PhasesHold(c, [], [], cosQ, sinQ)
    modifies bl, cosQ, sinQ
    ensures bl[..] == Betas(c, mols)
    ensures bsq == SumSquares(Betas(c, mols))
    ensures cosQ[..] == CosSums(c, Observe(c, mols)) && sinQ[..] == SinSums(c, Observe(c, mols))
  {
    ghost var bs, pos := Betas(c, mols), Positions(mols);
    bsq := 0.0;
    var i := 0;
    while i < |mols|
      invariant 0 <= i <= |mols|
      invariant bl[..i] == bs[..i]
      invariant bsq == SumSquares(bs[..i])
      invariant PhasesHold(c, bs[..i], pos[..i], cosQ, sinQ)
    {
      bl[i] := MolBeta(c, mols[i]);
      assert bl[..i + 1] == bs[..i + 1];
      SquaresStep(bs, i);
      bsq := bsq + Sqr(bl[i]);
      PhaseStep(c, mols, bl[i], cosQ, sinQ, i);
      i := i + 1;
    }
    assert bl[..] == bl[..i];
    assert bs == bs[..i] && pos == pos[..i];
    PhasesComplete(c, Observe(c, mols), cosQ, sinQ);
  }

  lemma SquaresStep(bs: seq<real>, i: nat)
    requires i < |bs|
    ensures SumSquares(bs[..i + 1]) == SumSquares(bs[..i]) + Sqr(bs[i])
  {
    assert bs[..i + 1][..i] == bs[..i];
  }

  /** Molecule i of the sumexp molecule loop, with hyperpolarizability b, joins the
      phase sums. */
  method PhaseStep(c: Ctx, mols: seq<Molecule>, b: real, cosQ: array<real>, sinQ: array<real>, i: nat)
    requires i < |mols| && b == MolBeta(c, mols[i]) && cosQ != sinQ
    requires PhasesHold(c, Betas(c, mols)[..i], Positions(mols)[..i], cosQ, sinQ)
    modifies cosQ, sinQ
    ensures PhasesHold(c, Betas(c, mols)[..i + 1], Positions(mols)[..i + 1], cosQ, sinQ)
  {
    ghost var bs, pos := Betas(c, mols), Positions(mols);
    AddPhases(c, cosQ, sinQ, b, mols[i].first, bs[..i], pos[..i]);
    assert pos[..i + 1] == pos[..i] + [mols[i].first];
    assert bs[..i + 1] == bs[..i] + [b];
  }

  /** The closing q loop of the sumexp loop with spectrum. */
  method AddSumexp(s: Setup, cs: array<real>, sn: array<real>, bsq: real, tot: array<real>, coh: array<real>)
    requires cs.Length == sn.Length == tot.Length == coh.Length == s.nbinq
    requires tot != coh && cs != tot && cs != coh && sn != tot && sn != coh
    modifies tot, coh
    ensures tot[..] == AddSeq(old(tot[..]), SumexpFromSums(s, cs[..], sn[..], bsq).total)
    ensures coh[..] == AddSeq(old(coh[..]), SumexpFromSums(s, cs[..], sn[..], bsq).coherent)
  {
    ghost var inc := SumexpFromSums(s, cs[..], sn[..], bsq);
    ghost var t0, c0 := tot[..], coh[..];
    var qq := 0;
    while qq < s.nbinq
      invariant 0 <= qq <= s.nbinq
      invariant AddedUpTo(t0, tot[..], inc.total, qq) && AddedUpTo(c0, coh[..], inc.coherent, qq)
    {
      tot[qq] := tot[qq] + SumexpTotal(s, cs[qq], sn[qq]);
      coh[qq] := coh[qq] + SumexpCoherent(s, cs[qq], sn[qq], bsq);
      qq := qq + 1;
    }
    AddedAll(t0, tot[..], inc.total);
    AddedAll(c0, coh[..], inc.coherent);
  }

  /** The q loop inside the sumexp molecule loop: molecule (b, x) joins the sums. */
  method AddPhases(c: Ctx, cosQ: array<real>, sinQ: array<real>, b: real, x: Vec, ghost bs: seq<real>, ghost pos: seq<Vec>)
    requires cosQ != sinQ && PhasesHold(c, bs, pos, cosQ, sinQ)
    modifies cosQ, sinQ
    ensures PhasesHold(c, bs + [b], pos + [x], cosQ, sinQ)
  {
    ghost var cs0, sn0 := cosQ[..], sinQ[..];
    var qq := 0;
    while qq < c.s.nbinq
      invariant 0 <= qq <= c.s.nbinq
      invariant TermsAdded(c, b, x, cs0, sn0, cosQ[..], sinQ[..], qq)
    {
      cosQ[qq] := cosQ[qq] + CosTerm(c, b, x, QAt(c.s, qq));
      sinQ[qq] := sinQ[qq] + SinTerm(c, b, x, QAt(c.s, qq));
      qq := qq + 1;
    }
    PhasesAppend(c, bs, pos, b, x, cs0, sn0, cosQ[..], sinQ[..]);
  }

  /** The first n entries of cs, sn are those of cs0, sn0 plus the terms of molecule
      (b, x); the others are those of cs0, sn0. */
  ghost predicate TermsAdded(c: Ctx, b: real, x: Vec, cs0: seq<real>, sn0: seq<real>, cs: seq<real>, sn: seq<real>, n: nat) {
    |cs0| == |sn0| == |cs| == |sn| == c.s.nbinq && n <= c.s.nbinq &&
    (forall e :: 0 <= e < n ==> cs[e] == cs0[e] + CosTerm(c, b, x, QAt(c.s, e))) &&
    (forall e :: 0 <= e < n ==> sn[e] == sn0[e] + SinTerm(c, b, x, QAt(c.s, e))) &&
    (forall e :: n <= e < c.s.nbinq ==> cs[e] == cs0[e] && sn[e] == sn0[e])
  }

  /** The phase sums as sequences: entry qq of cs, sn sums the terms at q_qq. */
  ghost predicate SumsHold(c: Ctx, bs: seq<real>, pos: seq<Vec>, cs: seq<real>, sn: seq<real>) {
    |bs| == |pos| && |cs| == |sn| == c.s.nbinq &&
    forall qq :: 0 <= qq < c.s.nbinq ==>
      cs[qq] == CosSum(c, bs, pos, QAt(c.s, qq)) && sn[qq] == SinSum(c, bs, pos, QAt(c.s, qq))
  }

  lemma PhasesAppend(c: Ctx, bs: seq<real>, pos: seq<Vec>, b: real, x: Vec, cs0: seq<real>, sn0: seq<real>, cs: seq<real>, sn: seq<real>)
    requires SumsHold(c, bs, pos, cs0, sn0) && TermsAdded(c, b, x, cs0, sn0, cs, sn, c.s.nbinq)
    ensures SumsHold(c, bs + [b], pos + [x], cs, sn)
  {
    forall qq | 0 <= qq < c.s.nbinq
      ensures cs[qq] == CosSum(c, bs + [b], pos + [x], QAt(c.s, qq))
      ensures sn[qq] == SinSum(c, bs + [b], pos + [x], QAt(c.s, qq))
    {
      PhaseSumsAppend(c, bs, pos, b, x, QAt(c.s, qq));
    }
  }

  /** `cos_q` and `sin_q` hold the phase sums of the molecules bs, pos. */
  ghost predicate PhasesHold(c: Ctx, bs: seq<real>, pos: seq<Vec>, cosQ: array<real>, sinQ: array<real>)
    reads cosQ, sinQ
  {
    SumsHold(c, bs, pos, cosQ[..], sinQ[..])
  }

  lemma PhasesEmpty(c: Ctx, cosQ: array<real>, sinQ: array<real>)
    requires cosQ.Length == sinQ.Length == c.s.nbinq
    requires forall qq :: 0 <= qq < c.s.nbinq ==> cosQ[qq] == 0.0 && sinQ[qq] == 0.0
    ensures PhasesHold(c, [], [], cosQ, sinQ)
  {
  }

  lemma PhasesComplete(c: Ctx, d: GroupData, cosQ: array<real>, sinQ: array<real>)
    requires Matched(d) && PhasesHold(c, d.betas, d.pos, cosQ, sinQ)
    ensures cosQ[..] == CosSums(c, d) && sinQ[..] == SinSums(c, d)
  {
  }

  /** One more molecule adds its own term to the phase sums. */
  lemma PhaseSumsAppend(c: Ctx, bs: seq<real>, pos: seq<Vec>, b: real, x: Vec, q: real)
    requires |bs| == |pos|
    ensures CosSum(c, bs + [b], pos + [x], q) == CosSum(c, bs, pos, q) + CosTerm(c, b, x, q)
    ensures SinSum(c, bs + [b], pos + [x], q) == SinSum(c, bs, pos, q) + SinTerm(c, b, x, q)
  {
    assert (bs + [b])[..|bs|] == bs;
    assert (pos + [x])[..|pos|] == pos;
  }

  /** The molecule loop of the single-q sumexp loop: `cos_c` and `sin_c` sum
      `beta_lab_t`, the hyperpolarizability just computed, but `beta_lab_sq_t`
      squares `beta_lab[i]`, which this loop only reads. */
  method ScalarPhaseSums(c: Ctx, mols: seq<Molecule>, bl: array<real>) returns (cosC: real, sinC: real, bsq: real)
    requires bl.Length == |mols|
    ensures cosC == CosSum(c, Betas(c, mols), Positions(mols), c.s.minq)
    ensures sinC == SinSum(c, Betas(c, mols), Positions(mols), c.s.minq)
    ensures bsq == SumSquares(bl[..])
  {
    ghost var bs, pos := Betas(c, mols), Positions(mols);
    cosC, sinC, bsq := 0.0, 0.0, 0.0;
    var i := 0;
    while i < |mols|
      invariant 0 <= i <= |mols|
      invariant cosC == CosSum(c, bs[..i], pos[..i], c.s.minq) && sinC == SinSum(c, bs[..i], pos[..i], c.s.minq)
      invariant bsq == SumSquares(bl[..i])
    {
      var betaLabT := MolBeta(c, mols[i]);
      SquaresStep(bl[..], i);
      bsq := bsq + Sqr(bl[i]);
      PhaseSumsStep(c, mols, i, betaLabT, c.s.minq);
      cosC := cosC + CosTerm(c, betaLabT, mols[i].first, c.s.minq);
      sinC := sinC + SinTerm(c, betaLabT, mols[i].first, c.s.minq);
      i := i + 1;
    }
    assert bs == bs[..i] && pos == pos[..i] && bl[..] == bl[..i];
  }

  lemma PhaseSumsStep(c: Ctx, mols: seq<Molecule>, i: nat, b: real, q: real)
    requires i < |mols| && b == MolBeta(c, mols[i])
    ensures CosSum(c, Betas(c, mols)[..i + 1], Positions(mols)[..i + 1], q) ==
      CosSum(c, Betas(c, mols)[..i], Positions(mols)[..i], q) + CosTerm(c, b, mols[i].first, q)
    ensures SinSum(c, Betas(c, mols)[..i + 1], Positions(mols)[..i + 1], q) ==
      SinSum(c, Betas(c, mols)[..i], Positions(mols)[..i], q) + SinTerm(c, b, mols[i].first, q)
  {
    var bs, pos := Betas(c, mols), Positions(mols);
    assert bs[..i + 1] == bs[..i] + [b];
    assert pos[..i + 1] == pos[..i] + [mols[i].first];
    PhaseSumsAppend(c, bs[..i], pos[..i], b, mols[i].first, q);
  }

  /** The pair loop of one group of the single-q cosmo loop without fading:
      `beta_lab`, `beta_lab_sq_t` and `s_method_coh_temp` carry on from `bsq0`
      and `coh0`. */
  method CosmoScalarPairs(c: Ctx, mols: seq<Molecule>, bl: array<real>, row: array<int>, bsq0: real, coh0: real)
    returns (bsq: real, coh: real)
    requires HistogramReady(c.s, c.env) && bl.Length == |mols| && row.Length == c.s.nbin + 1
    modifies bl, row
    ensures bl[..] == Betas(c, mols)
    ensures bsq == bsq0 + GroupSquares(Observe(c, mols))
    ensures coh == coh0 + GroupPairSum(CosmoSingle, c, Observe(c, mols))[0]
    ensures row[..] == AddCounts(old(row[..]), CountRow(CosmoSingle, c, Positions(mols), AllPairs(|mols|), row.Length))
  {
    bsq := ComputeBetas(c, mols, bl, bsq0);
    var acc := new real[1](q => coh0);
    ghost var a0 := acc[..];
    assert a0 == [coh0];
    PairLoop(CosmoSingle, c, Positions(mols), bl, row, acc);
    coh := acc[0];
  }

  /** The pair loop of one group of the single-q cosmo loop with fading: every
      accepted pair adds straight to `s_method_nospectrum[g]`, which arrives as
      `t0` and leaves as `t`; `beta_lab_sq_t` is summed and never used. */
  method CosmoScalarFadedPairs(c: Ctx, mols: seq<Molecule>, bl: array<real>, row: array<int>, bsq0: real, t0: real)
    returns (bsq: real, t: real)
    requires HistogramReady(c.s, c.env) && bl.Length == |mols| && row.Length == c.s.nbin + 1
    modifies bl, row
    ensures bl[..] == Betas(c, mols)
    ensures bsq == bsq0 + GroupSquares(Observe(c, mols))
    ensures t == t0 + GroupPairSum(CosmoSingleFaded, c, Observe(c, mols))[0]
    ensures row[..] == AddCounts(old(row[..]), CountRow(CosmoSingleFaded, c, Positions(mols), AllPairs(|mols|), row.Length))
  {
    bsq := ComputeBetas(c, mols, bl, bsq0);
    var acc := new real[1](q => t0);
    ghost var a0 := acc[..];
    assert a0 == [t0];
    PairLoop(CosmoSingleFaded, c, Positions(mols), bl, row, acc);
    t := acc[0];
  }

  /** What a frame adds to `count[g]` in each loop: the half-bin counts of the
      group's accepted pairs in the pair loops that count (every one but modsumexp
      without fading), nothing in the sumexp loops. */
  function FrameCountRow(loop: Loop, c: Ctx, mols: seq<Molecule>, len: nat): (r: seq<int>)
    ensures |r| == len
  {
    if loop == SumexpSpectrum || loop == SumexpScalar then seq(len, b => 0)
    else CountRow(KernelOf(loop), c, Positions(mols), AllPairs(|mols|), len)
  }

  /** One group of one of the four spectrum loops. */
  method RowGroup(loop: Loop, c: Ctx, mols: seq<Molecule>, bl: array<real>, row: array<int>, tot: array<real>, coh: array<real>)
    returns (bsq: real)
    requires RowLoop(loop) && RowArrays(c, mols, bl, row, tot, coh)
    modifies bl, row, tot, coh
    ensures bl[..] == Betas(c, mols)
    ensures bsq == GroupSquares(Observe(c, mols))
    ensures tot[..] == AddSeq(old(tot[..]), RowIncrement(loop, c, Observe(c, mols)).total)
    ensures coh[..] == AddSeq(old(coh[..]), RowIncrement(loop, c, Observe(c, mols)).coherent)
    ensures row[..] == AddCounts(old(row[..]), FrameCountRow(loop, c, mols, row.Length))
  {
    if loop == SumexpSpectrum {
      bsq := SumexpGroup(c, mols, bl, tot, coh);
      AddNoCounts(row[..]);
    } else {
      bsq := SpectralGroup(KernelOf(loop), c, mols, bl, row, tot, coh);
    }
  }
}
