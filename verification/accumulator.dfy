/** The accumulators of `do_nonlinearopticalscattering` and the group loops of the
    trajectory loops that fill them, frame by frame: the half-bin pair histogram
    `count[g]`, the spectra `s_method[g]` and `s_method_coh[g]`, their single-q
    counterparts `s_method_nospectrum[g]` and `s_method_coh_nospectrum[g]`,
    `s_method_incoh`, the scratch array `beta_lab`, the frame count and the
    inverse-volume sum. */
module Accumulation {
  import opened Numerics
  import opened Setup
  import opened Kernels
  import opened Frames
  import opened PairLoops
  import opened Groups
  import opened Dispatch

  /** The rows of a table allocated row by row, as a set of objects. */
  function Objects<T>(rows: seq<array<T>>): set<object> {
    set h | 0 <= h < |rows| :: rows[h]
  }

  /** The per-group rows `count[g]`, `s_method[g]` and `s_method_coh[g]` carry the
      ghost tags 3g, 3g + 1 and 3g + 2, and `beta_lab` the tag -1: no two of them
      are the same array. */
  ghost predicate Layout(tag: map<object, int>, bl: array<real>, count: seq<array<int>>,
                         total: seq<array<real>>, coherent: seq<array<real>>) {
    |count| == |total| == |coherent| && bl in tag && tag[bl] == -1 && CountsTagged(tag, count) &&
    forall h :: 0 <= h < |count| ==>
      total[h] in tag && coherent[h] in tag && tag[total[h]] == 3 * h + 1 && tag[coherent[h]] == 3 * h + 2
  }

  ghost predicate CountsTagged(tag: map<object, int>, count: seq<array<int>>) {
    forall h :: 0 <= h < |count| ==> count[h] in tag && tag[count[h]] == 3 * h
  }

  /** The sizes the set-up fixes: `nbin + 1` half bins per `count[g]`, `nbinq`
      values per spectrum row, `isize0` molecules per group and `beta_lab` entries. */
  ghost predicate Sized(c: Ctx, groups: seq<seq<Molecule>>, bl: array<real>, count: seq<array<int>>,
                        total: seq<array<real>>, coherent: seq<array<real>>) {
    HistogramReady(c.s, c.env) && |groups| == |count| == |total| == |coherent| &&
    forall h :: 0 <= h < |groups| ==>
      |groups[h]| == bl.Length && count[h].Length == c.s.nbin + 1 &&
      total[h].Length == c.s.nbinq && coherent[h].Length == c.s.nbinq
  }

  /** Row h of the three tables after a frame of a spectrum loop has, or has not
      yet, reached group h. */
  ghost predicate RowAfter(loop: Loop, c: Ctx, mols: seq<Molecule>, n: seq<int>, t: seq<real>, co: seq<real>,
                           n0: seq<int>, t0: seq<real>, c0: seq<real>, done: bool) {
    RowLoop(loop) && |n| == |n0| && |t| == |t0| == |co| == |c0| == c.s.nbinq &&
    if done then
      n == AddCounts(n0, FrameCountRow(loop, c, mols, |n0|)) &&
      t == AddSeq(t0, RowIncrement(loop, c, Observe(c, mols)).total) &&
      co == AddSeq(c0, RowIncrement(loop, c, Observe(c, mols)).coherent)
    else
      n == n0 && t == t0 && co == c0
  }

  /** The tables after the group loop of a spectrum loop has done groups 0 to g - 1,
      starting from N0, T0 and C0. */
  ghost predicate RowsUpTo(loop: Loop, c: Ctx, groups: seq<seq<Molecule>>, count: seq<array<int>>,
                           total: seq<array<real>>, coherent: seq<array<real>>,
                           N0: seq<seq<int>>, T0: seq<seq<real>>, C0: seq<seq<real>>, g: nat)
    reads Objects(count), Objects(total), Objects(coherent)
  {
    |groups| == |count| == |total| == |coherent| == |N0| == |T0| == |C0| && g <= |groups| &&
    forall h :: 0 <= h < |groups| ==>
      RowAfter(loop, c, groups[h], count[h][..], total[h][..], coherent[h][..], N0[h], T0[h], C0[h], h < g)
  }

  /** Group g of a frame of a spectrum loop: its own rows change, no other. */
  method RowGroupStep(loop: Loop, c: Ctx, groups: seq<seq<Molecule>>, g: nat, bl: array<real>,
                      count: seq<array<int>>, total: seq<array<real>>, coherent: seq<array<real>>,
                      ghost tag: map<object, int>, ghost N0: seq<seq<int>>, ghost T0: seq<seq<real>>, ghost C0: seq<seq<real>>)
    returns (bsq: real)
    requires Layout(tag, bl, count, total, coherent) && Sized(c, groups, bl, count, total, coherent) && g < |groups|
    requires RowsUpTo(loop, c, groups, count, total, coherent, N0, T0, C0, g)
    modifies bl, count[g], total[g], coherent[g]
    ensures RowsUpTo(loop, c, groups, count, total, coherent, N0, T0, C0, g + 1)
    ensures bl[..] == Betas(c, groups[g])
    ensures bsq == GroupSquares(Observe(c, groups[g]))
  {
    assert RowAfter(loop, c, groups[g], count[g][..], total[g][..], coherent[g][..], N0[g], T0[g], C0[g], false);
    bsq := RowGroup(loop, c, groups[g], bl, count[g], total[g], coherent[g]);
    forall h | 0 <= h < |groups|
      ensures RowAfter(loop, c, groups[h], count[h][..], total[h][..], coherent[h][..], N0[h], T0[h], C0[h], h < g + 1)
    {
      if h != g {
        assert tag[count[h]] != tag[count[g]] && tag[total[h]] != tag[total[g]] && tag[coherent[h]] != tag[coherent[g]];
        assert count[h][..] == old(count[h][..]) && total[h][..] == old(total[h][..]) && coherent[h][..] == old(coherent[h][..]);
      }
    }
  }

  /** The contents of every row of a table. */
  ghost function Contents<T>(rows: seq<array<T>>): (r: seq<seq<T>>)
    reads Objects(rows)
    ensures |r| == |rows| && forall h :: 0 <= h < |rows| ==> r[h] == rows[h][..]
  {
    seq(|rows|, h requires 0 <= h < |rows| reads Objects(rows) => rows[h][..])
  }

  /** The group loop `for (g = 0; g < ng; g++)` of a frame of a spectrum loop: every
      group adds its increment to its own rows and its squares to
      `s_method_incoh`, which arrives as `incoh0`; `beta_lab` is left holding the
      last group's hyperpolarizabilities. */
  method RowGroups(loop: Loop, c: Ctx, groups: seq<seq<Molecule>>, bl: array<real>,
                   count: seq<array<int>>, total: seq<array<real>>, coherent: seq<array<real>>,
                   ghost tag: map<object, int>, incoh0: real)
    returns (incoh: real)
    requires RowLoop(loop) && Layout(tag, bl, count, total, coherent) && Sized(c, groups, bl, count, total, coherent)
    modifies bl, Objects(count), Objects(total), Objects(coherent)
    ensures Contents(count) == FrameCounts(loop, c, groups, old(Contents(count)))
    ensures Contents(total) == RowSpectra(loop, c, groups, old(Contents(total)), true)
    ensures Contents(coherent) == RowSpectra(loop, c, groups, old(Contents(coherent)), false)
    ensures bl[..] == if |groups| > 0 then Betas(c, groups[|groups| - 1]) else old(bl[..])
    ensures incoh == incoh0 + FrameIncoherent(loop, c, FrameData(c, groups), old(bl[..]), |groups|)
  {
    ghost var N0, T0, C0 := Contents(count), Contents(total), Contents(coherent);
    ghost var ds, stale := FrameData(c, groups), bl[..];
    forall h | 0 <= h < |groups|
      ensures RowAfter(loop, c, groups[h], count[h][..], total[h][..], coherent[h][..], N0[h], T0[h], C0[h], false)
    {
    }
    incoh := incoh0;
    var g := 0;
    while g < |groups|
      invariant g <= |groups|
      invariant RowsUpTo(loop, c, groups, count, total, coherent, N0, T0, C0, g)
      invariant incoh == incoh0 + FrameIncoherent(loop, c, ds, stale, g)
      invariant bl[..] == if g > 0 then Betas(c, groups[g - 1]) else stale
    {
      var bsq := RowGroupStep(loop, c, groups, g, bl, count, total, coherent, tag, N0, T0, C0);
      assert ds[g] == Observe(c, groups[g]);
      FrameIncoherentRowStep(loop, c, ds, stale, g, bsq);
      Accumulate(incoh, incoh0, FrameIncoherent(loop, c, ds, stale, g), FrameIncoherent(loop, c, ds, stale, g + 1), bsq * c.s.invSize0);
      incoh := incoh + bsq * c.s.invSize0;
      g := g + 1;
    }
    RowsSettled(loop, c, groups, count, total, coherent, N0, T0, C0);
  }

  lemma Accumulate(x: real, x0: real, f: real, f1: real, d: real)
    requires x == x0 + f && f1 == f + d
    ensures x + d == x0 + f1
  {
  }

  /** The sizes and the arrays of the single-q loops: `s_method_nospectrum`,
      `s_method_coh_nospectrum` and `beta_lab` are three arrays. */
  ghost predicate SinglesSized(c: Ctx, groups: seq<seq<Molecule>>, bl: array<real>, count: seq<array<int>>,
                               totalS: array<real>, coherentS: array<real>) {
    HistogramReady(c.s, c.env) && |groups| == |count| == totalS.Length == coherentS.Length &&
    bl != totalS && bl != coherentS && totalS != coherentS &&
    forall h :: 0 <= h < |groups| ==> |groups[h]| == bl.Length && count[h].Length == c.s.nbin + 1
  }

  /** `count` after the group loop has done groups 0 to g - 1, starting from N0. */
  ghost predicate CountsUpTo(loop: Loop, c: Ctx, groups: seq<seq<Molecule>>, count: seq<array<int>>, N0: seq<seq<int>>, g: nat)
    reads Objects(count)
  {
    |groups| == |count| == |N0| && g <= |groups| &&
    forall h :: 0 <= h < |groups| ==>
      |N0[h]| == count[h].Length &&
      count[h][..] == if h < g then AddCounts(N0[h], FrameCountRow(loop, c, groups[h], |N0[h]|)) else N0[h]
  }

  /** Entry h of `s_method_nospectrum` and `s_method_coh_nospectrum` after the group
      loop of a single-q loop has, or has not yet, reached group h. */
  ghost predicate SingleAfter(loop: Loop, c: Ctx, ds: seq<GroupData>, h: nat, stale: seq<real>,
                              t: real, co: real, t0: real, c0: real, done: bool)
    requires AllMatched(ds) && h < |ds| && !RowLoop(loop)
  {
    if done then
      t == t0 + SingleIncrement(loop, c, ds, h, stale).total[0] &&
      co == c0 + SingleIncrement(loop, c, ds, h, stale).coherent[0]
    else
      t == t0 && co == c0
  }

  /** The single-q accumulators after groups 0 to g - 1, starting from t0 and c0. */
  ghost predicate SinglesUpTo(loop: Loop, c: Ctx, ds: seq<GroupData>, stale: seq<real>,
                              t: seq<real>, co: seq<real>, t0: seq<real>, c0: seq<real>, g: nat) {
    !RowLoop(loop) && AllMatched(ds) && |t| == |co| == |t0| == |c0| == |ds| && g <= |ds| &&
    forall h :: 0 <= h < |ds| ==> SingleAfter(loop, c, ds, h, stale, t[h], co[h], t0[h], c0[h], h < g)
  }

  lemma SinglesStart(loop: Loop, c: Ctx, ds: seq<GroupData>, stale: seq<real>, t: seq<real>, co: seq<real>)
    requires !RowLoop(loop) && AllMatched(ds) && |t| == |co| == |ds|
    ensures SinglesUpTo(loop, c, ds, stale, t, co, t, co, 0)
  {
  }

  lemma SinglesStep(loop: Loop, c: Ctx, ds: seq<GroupData>, stale: seq<real>,
                    t: seq<real>, co: seq<real>, t0: seq<real>, c0: seq<real>, g: nat, dt: real, dc: real)
    requires SinglesUpTo(loop, c, ds, stale, t, co, t0, c0, g) && g < |ds|
    requires dt == SingleIncrement(loop, c, ds, g, stale).total[0]
    requires dc == SingleIncrement(loop, c, ds, g, stale).coherent[0]
    ensures SinglesUpTo(loop, c, ds, stale, t[g := t[g] + dt], co[g := co[g] + dc], t0, c0, g + 1)
  {
    assert SingleAfter(loop, c, ds, g, stale, t[g], co[g], t0[g], c0[g], false);
  }

  /** What group g of the single-q cosmo loop adds, from the two sums carried
      through groups 0 to g. */
  lemma CosmoScalarValues(c: Ctx, ds: seq<GroupData>, g: nat, stale: seq<real>, coh: real, bsq: real)
    requires AllMatched(ds) && g < |ds|
    requires coh == CarriedPairs(c, ds[..g + 1]) && bsq == CarriedSquares(ds[..g + 1])
    ensures SingleIncrement(CosmoScalar, c, ds, g, stale).total[0] == (2.0 * coh + bsq) * c.s.invSize0
    ensures SingleIncrement(CosmoScalar, c, ds, g, stale).coherent[0] == coh * c.s.invSize0 * 2.0
    ensures GroupIncoherent(CosmoScalar, c, ds, g, stale) == bsq * c.s.invSize0
  {
  }

  /** The pair loop of group g of a frame of the two single-q cosmo loops: it
      fills `beta_lab`, carries `beta_lab_sq_t` on from `bsq0` and the pair sum on
      from `acc0`, and adds to `count[g]` alone. */
  method CosmoPairsStep(loop: Loop, c: Ctx, groups: seq<seq<Molecule>>, g: nat, bl: array<real>, count: seq<array<int>>,
                        ghost tag: map<object, int>, ghost N0: seq<seq<int>>, bsq0: real, acc0: real)
    returns (bsq: real, acc: real)
    requires loop == CosmoScalar || loop == CosmoScalarFaded
    requires CountsTagged(tag, count) && HistogramReady(c.s, c.env) && g < |groups| == |count|
    requires |groups[g]| == bl.Length && count[g].Length == c.s.nbin + 1
    requires CountsUpTo(loop, c, groups, count, N0, g)
    modifies bl, count[g]
    ensures CountsUpTo(loop, c, groups, count, N0, g + 1)
    ensures bsq == bsq0 + GroupSquares(Observe(c, groups[g]))
    ensures acc == acc0 + GroupPairSum(KernelOf(loop), c, Observe(c, groups[g]))[0]
    ensures bl[..] == Betas(c, groups[g])
  {
    if loop == CosmoScalar {
      bsq, acc := CosmoScalarPairs(c, groups[g], bl, count[g], bsq0, acc0);
    } else {
      bsq, acc := CosmoScalarFadedPairs(c, groups[g], bl, count[g], bsq0, acc0);
    }
    forall h | 0 <= h < |groups|
      ensures count[h][..] == if h < g + 1 then AddCounts(N0[h], FrameCountRow(loop, c, groups[h], |N0[h]|)) else N0[h]
    {
      if h != g {
        assert tag[count[h]] != tag[count[g]];
      }
    }
  }

  /** The closing updates of group g of the single-q cosmo loop without fading:
      `s_method_coh_nospectrum[g]` and `s_method_nospectrum[g]` from the two sums
      carried through groups 0 to g. */
  method CosmoScalarUpdate(c: Ctx, ghost ds: seq<GroupData>, g: nat, ghost stale: seq<real>, totalS: array<real>, coherentS: array<real>,
                           ghost T0: seq<real>, ghost C0: seq<real>, bsq: real, coh: real)
    requires totalS != coherentS && g < |ds|
    requires SinglesUpTo(CosmoScalar, c, ds, stale, totalS[..], coherentS[..], T0, C0, g)
    requires bsq == CarriedSquares(ds[..g + 1]) && coh == CarriedPairs(c, ds[..g + 1])
    modifies totalS, coherentS
    ensures SinglesUpTo(CosmoScalar, c, ds, stale, totalS[..], coherentS[..], T0, C0, g + 1)
    ensures GroupIncoherent(CosmoScalar, c, ds, g, stale) == bsq * c.s.invSize0
  {
    ghost var t, co := totalS[..], coherentS[..];
    CosmoScalarValues(c, ds, g, stale, coh, bsq);
    coherentS[g] := coherentS[g] + coh * c.s.invSize0 * 2.0;
    totalS[g] := totalS[g] + (2.0 * coh + bsq) * c.s.invSize0;
    SinglesStep(CosmoScalar, c, ds, stale, t, co, T0, C0, g, (2.0 * coh + bsq) * c.s.invSize0, coh * c.s.invSize0 * 2.0);
  }

  /** The single-q accumulators and `count` after groups 0 to g - 1 of a frame of
      a single-q loop, and `beta_lab` holding the last group's values. */
  ghost predicate SinglesProgress(loop: Loop, c: Ctx, groups: seq<seq<Molecule>>, bl: array<real>, count: seq<array<int>>,
                                  totalS: array<real>, coherentS: array<real>,
                                  N0: seq<seq<int>>, T0: seq<real>, C0: seq<real>, stale: seq<real>, g: nat)
    reads bl, Objects(count), totalS, coherentS
  {
    CountsUpTo(loop, c, groups, count, N0, g) &&
    SinglesUpTo(loop, c, FrameData(c, groups), stale, totalS[..], coherentS[..], T0, C0, g) &&
    (if 0 < g <= |groups| then bl[..] == Betas(c, groups[g - 1]) else bl[..] == stale)
  }

  /** Group g of a frame of the single-q cosmo loop without fading: the pair loop,
      then the closing updates from the sums carried through groups 0 to g. */
  method CosmoScalarStep(c: Ctx, groups: seq<seq<Molecule>>, g: nat, bl: array<real>, count: seq<array<int>>,
                         totalS: array<real>, coherentS: array<real>, ghost tag: map<object, int>,
                         ghost N0: seq<seq<int>>, ghost T0: seq<real>, ghost C0: seq<real>, ghost stale: seq<real>,
                         bsq0: real, coh0: real, incoh0: real, ghost base: real)
    returns (bsq: real, coh: real, incoh: real)
    requires CountsTagged(tag, count) && SinglesSized(c, groups, bl, count, totalS, coherentS) && g < |groups|
    requires SinglesProgress(CosmoScalar, c, groups, bl, count, totalS, coherentS, N0, T0, C0, stale, g)
    requires bsq0 == CarriedSquares(FrameData(c, groups)[..g]) && coh0 == CarriedPairs(c, FrameData(c, groups)[..g])
    requires incoh0 == base + FrameIncoherent(CosmoScalar, c, FrameData(c, groups), stale, g)
    modifies bl, count[g], totalS, coherentS
    ensures SinglesProgress(CosmoScalar, c, groups, bl, count, totalS, coherentS, N0, T0, C0, stale, g + 1)
    ensures bsq == CarriedSquares(FrameData(c, groups)[..g + 1]) && coh == CarriedPairs(c, FrameData(c, groups)[..g + 1])
    ensures incoh == base + FrameIncoherent(CosmoScalar, c, FrameData(c, groups), stale, g + 1)
  {
    ghost var ds := FrameData(c, groups);
    bsq, coh := CosmoPairsStep(CosmoScalar, c, groups, g, bl, count, tag, N0, bsq0, coh0);
    assert SinglesUpTo(CosmoScalar, c, ds, stale, totalS[..], coherentS[..], T0, C0, g);
    assert ds[g] == Observe(c, groups[g]);
    CarriedStep(c, ds, g);
    CosmoScalarUpdate(c, ds, g, stale, totalS, coherentS, T0, C0, bsq, coh);
    assert CountsUpTo(CosmoScalar, c, groups, count, N0, g + 1) && bl[..] == Betas(c, groups[g]);
    FrameIncoherentStep(CosmoScalar, c, ds, stale, g, bsq * c.s.invSize0);
    Accumulate(incoh0, base, FrameIncoherent(CosmoScalar, c, ds, stale, g),
               FrameIncoherent(CosmoScalar, c, ds, stale, g + 1), bsq * c.s.invSize0);
    incoh := incoh0 + bsq * c.s.invSize0;
  }

  /** The group loop of a frame of the single-q cosmo loop without fading.
      `beta_lab_sq_t` and `s_method_coh_temp` are cleared once, before the first
      group, so each group's updates use the sums over it and all earlier groups. */
  method CosmoScalarGroups(c: Ctx, groups: seq<seq<Molecule>>, bl: array<real>, count: seq<array<int>>,
                           totalS: array<real>, coherentS: array<real>, ghost tag: map<object, int>, incoh0: real)
    returns (incoh: real)
    requires CountsTagged(tag, count) && SinglesSized(c, groups, bl, count, totalS, coherentS)
    modifies bl, Objects(count), totalS, coherentS
    ensures Contents(count) == FrameCounts(CosmoScalar, c, groups, old(Contents(count)))
    ensures totalS[..] == SingleValues(CosmoScalar, c, groups, old(totalS[..]), old(bl[..]), true)
    ensures coherentS[..] == SingleValues(CosmoScalar, c, groups, old(coherentS[..]), old(bl[..]), false)
    ensures bl[..] == if |groups| > 0 then Betas(c, groups[|groups| - 1]) else old(bl[..])
    ensures incoh == incoh0 + FrameIncoherent(CosmoScalar, c, FrameData(c, groups), old(bl[..]), |groups|)
  {
    ghost var N0, stale := Contents(count), bl[..];
    ghost var T0, C0 := totalS[..], coherentS[..];
    SinglesStart(CosmoScalar, c, FrameData(c, groups), stale, T0, C0);
    assert CountsUpTo(CosmoScalar, c, groups, count, N0, 0);
    assert FrameData(c, groups)[..0] == [];
    var bsq, coh := 0.0, 0.0;
    incoh := incoh0;
    var g := 0;
    while g < |groups|
      invariant g <= |groups|
      invariant SinglesProgress(CosmoScalar, c, groups, bl, count, totalS, coherentS, N0, T0, C0, stale, g)
      invariant bsq == CarriedSquares(FrameData(c, groups)[..g]) && coh == CarriedPairs(c, FrameData(c, groups)[..g])
      invariant incoh == incoh0 + FrameIncoherent(CosmoScalar, c, FrameData(c, groups), stale, g)
    {
      bsq, coh, incoh := CosmoScalarStep(c, groups, g, bl, count, totalS, coherentS, tag, N0, T0, C0, stale, bsq, coh, incoh, incoh0);
      g := g + 1;
    }
    SinglesSettled(CosmoScalar, c, groups, count, N0, totalS[..], coherentS[..], T0, C0, stale);
  }

  /** Group g of a frame of the single-q cosmo loop with fading. */
  method CosmoScalarFadedStep(c: Ctx, groups: seq<seq<Molecule>>, g: nat, bl: array<real>, count: seq<array<int>>,
                              totalS: array<real>, coherentS: array<real>, ghost tag: map<object, int>,
                              ghost N0: seq<seq<int>>, ghost T0: seq<real>, ghost C0: seq<real>, ghost stale: seq<real>,
                              bsq0: real)
    returns (bsq: real)
    requires CountsTagged(tag, count) && SinglesSized(c, groups, bl, count, totalS, coherentS) && g < |groups|
    requires SinglesProgress(CosmoScalarFaded, c, groups, bl, count, totalS, coherentS, N0, T0, C0, stale, g)
    modifies bl, count[g], totalS
    ensures SinglesProgress(CosmoScalarFaded, c, groups, bl, count, totalS, coherentS, N0, T0, C0, stale, g + 1)
    ensures bsq == bsq0 + GroupSquares(Observe(c, groups[g]))
  {
    ghost var ds := FrameData(c, groups);
    var t;
    bsq, t := CosmoPairsStep(CosmoScalarFaded, c, groups, g, bl, count, tag, N0, bsq0, totalS[g]);
    assert ds[g] == Observe(c, groups[g]);
    CosmoScalarFadedUpdate(c, ds, g, stale, totalS, coherentS, T0, C0, t);
  }

  /** The group loop of a frame of the single-q cosmo loop with fading: every
      accepted pair adds to `s_method_nospectrum[g]`; `beta_lab_sq_t`, cleared once
      per frame, is summed and never read. */
  method CosmoScalarFadedGroups(c: Ctx, groups: seq<seq<Molecule>>, bl: array<real>, count: seq<array<int>>,
                                totalS: array<real>, coherentS: array<real>, ghost tag: map<object, int>)
    requires CountsTagged(tag, count) && SinglesSized(c, groups, bl, count, totalS, coherentS)
    modifies bl, Objects(count), totalS
    ensures Contents(count) == FrameCounts(CosmoScalarFaded, c, groups, old(Contents(count)))
    ensures totalS[..] == SingleValues(CosmoScalarFaded, c, groups, old(totalS[..]), old(bl[..]), true)
    ensures coherentS[..] == SingleValues(CosmoScalarFaded, c, groups, old(coherentS[..]), old(bl[..]), false)
    ensures bl[..] == if |groups| > 0 then Betas(c, groups[|groups| - 1]) else old(bl[..])
  {
    ghost var N0, stale := Contents(count), bl[..];
    ghost var T0, C0 := totalS[..], coherentS[..];
    SinglesStart(CosmoScalarFaded, c, FrameData(c, groups), stale, T0, C0);
    assert CountsUpTo(CosmoScalarFaded, c, groups, count, N0, 0);
    var bsq := 0.0;
    var g := 0;
    while g < |groups|
      invariant g <= |groups|
      invariant SinglesProgress(CosmoScalarFaded, c, groups, bl, count, totalS, coherentS, N0, T0, C0, stale, g)
    {
      bsq := CosmoScalarFadedStep(c, groups, g, bl, count, totalS, coherentS, tag, N0, T0, C0, stale, bsq);
      g := g + 1;
    }
    SinglesSettled(CosmoScalarFaded, c, groups, count, N0, totalS[..], coherentS[..], T0, C0, stale);
  }

  method CosmoScalarFadedUpdate(c: Ctx, ghost ds: seq<GroupData>, g: nat, ghost stale: seq<real>, totalS: array<real>, coherentS: array<real>,
                                ghost T0: seq<real>, ghost C0: seq<real>, t: real)
    requires totalS != coherentS && g < |ds|
    requires SinglesUpTo(CosmoScalarFaded, c, ds, stale, totalS[..], coherentS[..], T0, C0, g)
    requires t == totalS[g] + GroupPairSum(CosmoSingleFaded, c, ds[g])[0]
    modifies totalS
    ensures SinglesUpTo(CosmoScalarFaded, c, ds, stale, totalS[..], coherentS[..], T0, C0, g + 1)
  {
    ghost var t0, co := totalS[..], coherentS[..];
    totalS[g] := t;
    SinglesStep(CosmoScalarFaded, c, ds, stale, t0, co, T0, C0, g, GroupPairSum(CosmoSingleFaded, c, ds[g])[0], 0.0);
    assert co[g := co[g] + 0.0] == co;
  }

  /** What group g of the single-q sumexp loop adds, from its phase sums and the
      squares of `beta_lab` as found. */
  lemma SumexpScalarValues(c: Ctx, ds: seq<GroupData>, g: nat, stale: seq<real>, cosC: real, sinC: real, bsq: real)
    requires AllMatched(ds) && g < |ds|
    requires cosC == CosSum(c, ds[g].betas, ds[g].pos, c.s.minq) && sinC == SinSum(c, ds[g].betas, ds[g].pos, c.s.minq)
    requires bsq == SumSquares(stale)
    ensures SingleIncrement(SumexpScalar, c, ds, g, stale).total[0] == (cosC * cosC + sinC * sinC) * c.s.invSize0
    ensures SingleIncrement(SumexpScalar, c, ds, g, stale).coherent[0] == (cosC * cosC + sinC * sinC - bsq) * c.s.invSize0
    ensures GroupIncoherent(SumexpScalar, c, ds, g, stale) == bsq * c.s.invSize0
  {
    assert SingleIncrement(SumexpScalar, c, ds, g, stale) == SumexpScalarIncrement(c, ds[g], stale);
    assert GroupIntensity(c, ds[g], c.s.minq) == cosC * cosC + sinC * sinC;
  }

  /** The closing updates of group g of the single-q sumexp loop. */
  method SumexpScalarUpdate(c: Ctx, ghost ds: seq<GroupData>, g: nat, ghost stale: seq<real>, totalS: array<real>, coherentS: array<real>,
                            ghost T0: seq<real>, ghost C0: seq<real>, cosC: real, sinC: real, bsq: real)
    requires totalS != coherentS && g < |ds|
    requires SinglesUpTo(SumexpScalar, c, ds, stale, totalS[..], coherentS[..], T0, C0, g)
    requires cosC == CosSum(c, ds[g].betas, ds[g].pos, c.s.minq) && sinC == SinSum(c, ds[g].betas, ds[g].pos, c.s.minq)
    requires bsq == SumSquares(stale)
    modifies totalS, coherentS
    ensures SinglesUpTo(SumexpScalar, c, ds, stale, totalS[..], coherentS[..], T0, C0, g + 1)
    ensures GroupIncoherent(SumexpScalar, c, ds, g, stale) == bsq * c.s.invSize0
  {
    ghost var t, co := totalS[..], coherentS[..];
    SumexpScalarValues(c, ds, g, stale, cosC, sinC, bsq);
    totalS[g] := totalS[g] + (cosC * cosC + sinC * sinC) * c.s.invSize0;
    coherentS[g] := coherentS[g] + (cosC * cosC + sinC * sinC - bsq) * c.s.invSize0;
    SinglesStep(SumexpScalar, c, ds, stale, t, co, T0, C0, g,
                (cosC * cosC + sinC * sinC) * c.s.invSize0, (cosC * cosC + sinC * sinC - bsq) * c.s.invSize0);
  }

  /** The group loop of a frame of the single-q sumexp loop: the phase sums use
      `beta_lab_t`, `beta_lab_sq_t` squares `beta_lab`, which this loop only reads. */
  method SumexpScalarGroups(c: Ctx, groups: seq<seq<Molecule>>, bl: array<real>, count: seq<array<int>>,
                            totalS: array<real>, coherentS: array<real>, incoh0: real)
    returns (incoh: real)
    requires SinglesSized(c, groups, bl, count, totalS, coherentS)
    modifies totalS, coherentS
    ensures Contents(count) == FrameCounts(SumexpScalar, c, groups, Contents(count))
    ensures totalS[..] == SingleValues(SumexpScalar, c, groups, old(totalS[..]), bl[..], true)
    ensures coherentS[..] == SingleValues(SumexpScalar, c, groups, old(coherentS[..]), bl[..], false)
    ensures incoh == incoh0 + FrameIncoherent(SumexpScalar, c, FrameData(c, groups), bl[..], |groups|)
  {
    ghost var ds, stale := FrameData(c, groups), bl[..];
    ghost var T0, C0 := totalS[..], coherentS[..];
    SinglesStart(SumexpScalar, c, ds, stale, T0, C0);
    incoh := incoh0;
    var g := 0;
    while g < |groups|
      invariant g <= |groups| && bl[..] == stale
      invariant SinglesUpTo(SumexpScalar, c, ds, stale, totalS[..], coherentS[..], T0, C0, g)
      invariant incoh == incoh0 + FrameIncoherent(SumexpScalar, c, ds, stale, g)
    {
      var cosC, sinC, bsq := ScalarPhaseSums(c, groups[g], bl);
      assert ds[g] == Observe(c, groups[g]);
      SumexpScalarUpdate(c, ds, g, stale, totalS, coherentS, T0, C0, cosC, sinC, bsq);
      FrameIncoherentStep(SumexpScalar, c, ds, stale, g, bsq * c.s.invSize0);
      Accumulate(incoh, incoh0, FrameIncoherent(SumexpScalar, c, ds, stale, g),
                 FrameIncoherent(SumexpScalar, c, ds, stale, g + 1), bsq * c.s.invSize0);
      incoh := incoh + bsq * c.s.invSize0;
      g := g + 1;
    }
    forall h | 0 <= h < |groups|
      ensures count[h][..] == AddCounts(count[h][..], FrameCountRow(SumexpScalar, c, groups[h], count[h].Length))
    {
      AddNoCounts(count[h][..]);
    }
    SinglesSettled(SumexpScalar, c, groups, count, Contents(count), totalS[..], coherentS[..], T0, C0, stale);
  }

  /** The accumulators of one run, allocated once by the set-up and filled frame by
      frame. The rows of `count`, `s_method` and `s_method_coh` are allocated one
      group at a time, as `snew(count[g], nbin + 1)` does. */
  class Accumulator {
    const ng: nat
    const nbin: nat
    const nbinq: nat
    const isize0: nat
    /** `count[g][b]`: the pairs of group g found in half bin b. */
    const count: seq<array<int>>
    /** `s_method[g][qq]` and `s_method_coh[g][qq]`. */
    const total: seq<array<real>>
    const coherent: seq<array<real>>
    /** `s_method_nospectrum[g]` and `s_method_coh_nospectrum[g]`. */
    const totalSingle: array<real>
    const coherentSingle: array<real>
    /** `beta_lab[i]`, overwritten group by group. */
    const betaLab: array<real>
    /** Tells the arrays apart: see `Layout`; the single-q arrays carry -2 and -3. */
    ghost const tag: map<object, int>

    /** The shapes of the allocations, and no two of them the same array. */
    ghost predicate Valid() {
      Layout(tag, betaLab, count, total, coherent) && |count| == ng &&
      totalSingle in tag && coherentSingle in tag && tag[totalSingle] == -2 && tag[coherentSingle] == -3 &&
      totalSingle.Length == ng && coherentSingle.Length == ng && betaLab.Length == isize0 &&
      forall h :: 0 <= h < ng ==> count[h].Length == nbin + 1 && total[h].Length == nbinq && coherent[h].Length == nbinq
    }

    /** A frame fits the allocations: `ng` groups of `isize0` molecules, and the
        histogram and q grid the allocations were sized for. */
    ghost predicate Fits(c: Ctx, groups: seq<seq<Molecule>>) {
      HistogramReady(c.s, c.env) && c.s.nbin == nbin && c.s.nbinq == nbinq &&
      |groups| == ng && forall h :: 0 <= h < ng ==> |groups[h]| == isize0
    }

    lemma FitsSized(c: Ctx, groups: seq<seq<Molecule>>)
      requires Valid() && Fits(c, groups)
      ensures Sized(c, groups, betaLab, count, total, coherent)
      ensures SinglesSized(c, groups, betaLab, count, totalSingle, coherentSingle)
    {
    }

    /** No row of one table is a row of another, or one of the single arrays. */
    lemma Apart()
      requires Valid()
      ensures betaLab !in Objects(count) && betaLab !in Objects(total) && betaLab !in Objects(coherent)
      ensures totalSingle !in Objects(count) && totalSingle !in Objects(total) && totalSingle !in Objects(coherent)
      ensures coherentSingle !in Objects(count) && coherentSingle !in Objects(total) && coherentSingle !in Objects(coherent)
      ensures Objects(total) !! Objects(count) && Objects(coherent) !! Objects(count)
    {
    }

    /** The allocations, every array zeroed as `snew` leaves it. */
    constructor (ng: nat, nbin: nat, nbinq: nat, isize0: nat)
      ensures Valid()
      ensures this.ng == ng && this.nbin == nbin && this.nbinq == nbinq && this.isize0 == isize0
      ensures forall h :: 0 <= h < ng ==>
        count[h][..] == seq(nbin + 1, b => 0) && total[h][..] == Zeros(nbinq) && coherent[h][..] == Zeros(nbinq)
      ensures totalSingle[..] == Zeros(ng) && coherentSingle[..] == Zeros(ng) && betaLab[..] == Zeros(isize0)
    {
      var bl := new real[isize0](i => 0.0);
      var ts := new real[ng](h => 0.0);
      var cs := new real[ng](h => 0.0);
      assert bl[..] == Zeros(isize0) && ts[..] == Zeros(ng) && cs[..] == Zeros(ng);
      var counts, totals, coherents, t := NewTables(ng, nbin, nbinq, bl, ts, cs, map[bl := -1, ts := -2, cs := -3]);
      this.ng, this.nbin, this.nbinq, this.isize0 := ng, nbin, nbinq, isize0;
      count, total, coherent, totalSingle, coherentSingle, betaLab := counts, totals, coherents, ts, cs, bl;
      tag := t;
    }

    /** The group loop of one frame of one of the four spectrum loops; `invvol_sum`
        and `nframes` are the caller's. */
    method RowFrame(loop: Loop, c: Ctx, groups: seq<seq<Molecule>>, incoh0: real) returns (incoh: real)
      requires RowLoop(loop) && Valid() && Fits(c, groups)
      modifies betaLab, Objects(count), Objects(total), Objects(coherent)
      ensures incoh == incoh0 + FrameIncoherent(loop, c, FrameData(c, groups), old(betaLab[..]), ng)
      ensures Contents(count) == FrameCounts(loop, c, groups, old(Contents(count)))
      ensures Contents(total) == RowSpectra(loop, c, groups, old(Contents(total)), true)
      ensures Contents(coherent) == RowSpectra(loop, c, groups, old(Contents(coherent)), false)
      ensures betaLab[..] == if ng > 0 then Betas(c, groups[ng - 1]) else old(betaLab[..])
    {
      FitsSized(c, groups);
      Apart();
      incoh := RowGroups(loop, c, groups, betaLab, count, total, coherent, tag, incoh0);
    }

    /** One frame of the single-q cosmo loop without fading. */
    method CosmoScalarFrame(c: Ctx, groups: seq<seq<Molecule>>, incoh0: real) returns (incoh: real)
      requires Valid() && Fits(c, groups)
      modifies betaLab, Objects(count), totalSingle, coherentSingle
      ensures incoh == incoh0 + FrameIncoherent(CosmoScalar, c, FrameData(c, groups), old(betaLab[..]), ng)
      ensures Contents(count) == FrameCounts(CosmoScalar, c, groups, old(Contents(count)))
      ensures totalSingle[..] == SingleValues(CosmoScalar, c, groups, old(totalSingle[..]), old(betaLab[..]), true)
      ensures coherentSingle[..] == SingleValues(CosmoScalar, c, groups, old(coherentSingle[..]), old(betaLab[..]), false)
      ensures betaLab[..] == if ng > 0 then Betas(c, groups[ng - 1]) else old(betaLab[..])
    {
      FitsSized(c, groups);
      Apart();
      incoh := CosmoScalarGroups(c, groups, betaLab, count, totalSingle, coherentSingle, tag, incoh0);
    }

    /** One frame of the single-q cosmo loop with fading, which leaves
        `s_method_incoh` and `s_method_coh_nospectrum` alone. */
    method CosmoScalarFadedFrame(c: Ctx, groups: seq<seq<Molecule>>)
      requires Valid() && Fits(c, groups)
      modifies betaLab, Objects(count), totalSingle
      ensures Contents(count) == FrameCounts(CosmoScalarFaded, c, groups, old(Contents(count)))
      ensures totalSingle[..] == SingleValues(CosmoScalarFaded, c, groups, old(totalSingle[..]), old(betaLab[..]), true)
      ensures betaLab[..] == if ng > 0 then Betas(c, groups[ng - 1]) else old(betaLab[..])
    {
      FitsSized(c, groups);
      Apart();
      CosmoScalarFadedGroups(c, groups, betaLab, count, totalSingle, coherentSingle, tag);
    }

    /** One frame of the single-q sumexp loop, which leaves `count` and
        `beta_lab` as they were. */
    method SumexpScalarFrame(c: Ctx, groups: seq<seq<Molecule>>, incoh0: real) returns (incoh: real)
      requires Valid() && Fits(c, groups)
      modifies totalSingle, coherentSingle
      ensures incoh == incoh0 + FrameIncoherent(SumexpScalar, c, FrameData(c, groups), betaLab[..], ng)
      ensures totalSingle[..] == SingleValues(SumexpScalar, c, groups, old(totalSingle[..]), betaLab[..], true)
      ensures coherentSingle[..] == SingleValues(SumexpScalar, c, groups, old(coherentSingle[..]), betaLab[..], false)
    {
      FitsSized(c, groups);
      Apart();
      incoh := SumexpScalarGroups(c, groups, betaLab, count, totalSingle, coherentSingle, incoh0);
    }
    /** The averaging loop after the last frame (both method branches divide alike):
        the spectra, or the single-q values, over `nframes`, and `s_method_incoh`
        over `nframes` once per group. */
    method Average(nframes: nat, spectrum: bool, incoh0: real) returns (incoh: real)
      requires Valid()
      modifies Objects(total), Objects(coherent), totalSingle, coherentSingle
      ensures incoh == AveragedIncoherent(incoh0, nframes, ng)
      ensures Contents(total) == if spectrum then DividedRows(old(Contents(total)), nframes) else old(Contents(total))
      ensures Contents(coherent) == if spectrum then DividedRows(old(Contents(coherent)), nframes) else old(Contents(coherent))
      ensures totalSingle[..] == if spectrum then old(totalSingle[..]) else Divided(old(totalSingle[..]), nframes)
      ensures coherentSingle[..] == if spectrum then old(coherentSingle[..]) else Divided(old(coherentSingle[..]), nframes)
    {
      Apart();
      if spectrum {
        incoh := AverageRows(total, coherent, nframes, incoh0, tag, betaLab, count);
      } else {
        incoh := AverageSingles(totalSingle, coherentSingle, nframes, incoh0);
      }
    }
  }


  /** Every row of `count` plus the pairs the frame's group puts in each half bin. */
  function FrameCounts(loop: Loop, c: Ctx, groups: seq<seq<Molecule>>, n0: seq<seq<int>>): (n: seq<seq<int>>)
    requires |n0| == |groups|
    ensures |n| == |groups|
  {
    seq(|groups|, h requires 0 <= h < |groups| => AddCounts(n0[h], FrameCountRow(loop, c, groups[h], |n0[h]|)))
  }

  /** The plain modsumexp loop bins no pair: a frame of it leaves every `count[g]`
      as it was, so a run of it ends with an empty histogram. */
  lemma PlainModsumexpKeepsNoHistogram(c: Ctx, groups: seq<seq<Molecule>>, n0: seq<seq<int>>)
    requires |n0| == |groups|
    ensures FrameCounts(ModsumexpSpectrum, c, groups, n0) == n0
  {
    forall h | 0 <= h < |groups|
      ensures FrameCounts(ModsumexpSpectrum, c, groups, n0)[h] == n0[h]
    {
      assert FrameCountRow(ModsumexpSpectrum, c, groups[h], |n0[h]|) == seq(|n0[h]|, b => 0);
      AddNoCounts(n0[h]);
    }
  }

  /** Every row of `s_method` (`total`) or of `s_method_coh` plus its group's increment. */
  function RowSpectra(loop: Loop, c: Ctx, groups: seq<seq<Molecule>>, t0: seq<seq<real>>, total: bool): (t: seq<seq<real>>)
    requires RowLoop(loop) && |t0| == |groups|
    requires forall h :: 0 <= h < |groups| ==> |t0[h]| == c.s.nbinq
    ensures |t| == |groups| && forall h :: 0 <= h < |groups| ==> |t[h]| == c.s.nbinq
  {
    seq(|groups|, h requires 0 <= h < |groups| && |t0[h]| == c.s.nbinq =>
          var inc := RowIncrement(loop, c, Observe(c, groups[h]));
          AddSeq(t0[h], if total then inc.total else inc.coherent))
  }

  /** Every entry of `s_method_nospectrum` (`total`) or of `s_method_coh_nospectrum`
      plus its group's increment. */
  function SingleValues(loop: Loop, c: Ctx, groups: seq<seq<Molecule>>, t0: seq<real>, stale: seq<real>, total: bool): (t: seq<real>)
    requires !RowLoop(loop) && |t0| == |groups|
    ensures |t| == |groups|
  {
    var ds := FrameData(c, groups);
    seq(|groups|, h requires 0 <= h < |groups| =>
          var inc := SingleIncrement(loop, c, ds, h, stale);
          t0[h] + if total then inc.total[0] else inc.coherent[0])
  }

  /** A single-q loop's group loop, from what it promises group by group. */
  lemma SinglesSettled(loop: Loop, c: Ctx, groups: seq<seq<Molecule>>, count: seq<array<int>>, N0: seq<seq<int>>,
                       t: seq<real>, co: seq<real>, T0: seq<real>, C0: seq<real>, stale: seq<real>)
    requires CountsUpTo(loop, c, groups, count, N0, |groups|)
    requires SinglesUpTo(loop, c, FrameData(c, groups), stale, t, co, T0, C0, |groups|)
    ensures Contents(count) == FrameCounts(loop, c, groups, N0)
    ensures t == SingleValues(loop, c, groups, T0, stale, true) && co == SingleValues(loop, c, groups, C0, stale, false)
  {
    var ds := FrameData(c, groups);
    forall h | 0 <= h < |groups|
      ensures t[h] == SingleValues(loop, c, groups, T0, stale, true)[h]
      ensures co[h] == SingleValues(loop, c, groups, C0, stale, false)[h]
    {
      assert SingleAfter(loop, c, ds, h, stale, t[h], co[h], T0[h], C0[h], true);
    }
  }

  /** A spectrum loop's group loop, from what it promises group by group. */
  lemma RowsSettled(loop: Loop, c: Ctx, groups: seq<seq<Molecule>>, count: seq<array<int>>,
                    total: seq<array<real>>, coherent: seq<array<real>>,
                    N0: seq<seq<int>>, T0: seq<seq<real>>, C0: seq<seq<real>>)
    requires RowLoop(loop)
    requires RowsUpTo(loop, c, groups, count, total, coherent, N0, T0, C0, |groups|)
    requires forall h :: 0 <= h < |groups| ==> |T0[h]| == c.s.nbinq && |C0[h]| == c.s.nbinq
    ensures Contents(count) == FrameCounts(loop, c, groups, N0)
    ensures Contents(total) == RowSpectra(loop, c, groups, T0, true)
    ensures Contents(coherent) == RowSpectra(loop, c, groups, C0, false)
  {
    forall h | 0 <= h < |groups|
      ensures count[h][..] == FrameCounts(loop, c, groups, N0)[h]
      ensures total[h][..] == RowSpectra(loop, c, groups, T0, true)[h]
      ensures coherent[h][..] == RowSpectra(loop, c, groups, C0, false)[h]
    {
      assert RowAfter(loop, c, groups[h], count[h][..], total[h][..], coherent[h][..], N0[h], T0[h], C0[h], true);
    }
  }

  /** Every entry over `nframes`: the averages whose `nframes`-fold is the accumulated sum. */
  function Divided(xs: seq<real>, nframes: nat): (ys: seq<real>)
    ensures |ys| == |xs|
    ensures nframes > 0 ==> forall k :: 0 <= k < |xs| ==> ys[k] * nframes as real == xs[k]
    ensures nframes == 1 ==> ys == xs
  {
    seq(|xs|, k requires 0 <= k < |xs| => Quot(xs[k], nframes as real))
  }

  function DividedRows(rows: seq<seq<real>>, nframes: nat): (r: seq<seq<real>>)
    ensures |r| == |rows| && forall h :: 0 <= h < |rows| ==> r[h] == Divided(rows[h], nframes)
  {
    seq(|rows|, h requires 0 <= h < |rows| => Divided(rows[h], nframes))
  }

  /** `for (qq = 0; qq < nbinq; qq++) a[qq] = a[qq]/(nframes)`. */
  method DivideRow(a: array<real>, nframes: nat)
    modifies a
    ensures a[..] == Divided(old(a[..]), nframes)
  {
    var qq := 0;
    while qq < a.Length
      invariant qq <= a.Length
      invariant forall k :: 0 <= k < qq ==> a[k] == Quot(old(a[k]), nframes as real)
      invariant forall k :: qq <= k < a.Length ==> a[k] == old(a[k])
    {
      a[qq] := Quot(a[qq], nframes as real);
      qq := qq + 1;
    }
  }

  /** The spectrum rows after the averaging loop has done groups 0 to g - 1. */
  ghost predicate RowsAveragedUpTo(total: seq<array<real>>, coherent: seq<array<real>>,
                                   T0: seq<seq<real>>, C0: seq<seq<real>>, nframes: nat, g: nat)
    reads Objects(total), Objects(coherent)
  {
    |total| == |coherent| == |T0| == |C0| && g <= |total| &&
    forall h :: 0 <= h < |total| ==>
      total[h][..] == (if h < g then Divided(T0[h], nframes) else T0[h]) &&
      coherent[h][..] == (if h < g then Divided(C0[h], nframes) else C0[h])
  }

  /** Group g of the averaging loop of a spectrum run: its two rows, no other. */
  method AverageRowStep(total: seq<array<real>>, coherent: seq<array<real>>, g: nat, nframes: nat,
                        ghost tag: map<object, int>, ghost bl: array<real>, ghost count: seq<array<int>>,
                        ghost T0: seq<seq<real>>, ghost C0: seq<seq<real>>)
    requires Layout(tag, bl, count, total, coherent) && g < |total|
    requires RowsAveragedUpTo(total, coherent, T0, C0, nframes, g)
    modifies total[g], coherent[g]
    ensures RowsAveragedUpTo(total, coherent, T0, C0, nframes, g + 1)
  {
    DivideRow(coherent[g], nframes);
    DivideRow(total[g], nframes);
    forall h | 0 <= h < |total|
      ensures total[h][..] == (if h < g + 1 then Divided(T0[h], nframes) else T0[h])
      ensures coherent[h][..] == (if h < g + 1 then Divided(C0[h], nframes) else C0[h])
    {
      if h != g {
        assert tag[total[h]] != tag[total[g]] && tag[coherent[h]] != tag[coherent[g]];
        assert tag[total[h]] != tag[coherent[g]] && tag[coherent[h]] != tag[total[g]];
        assert total[h][..] == old(total[h][..]) && coherent[h][..] == old(coherent[h][..]);
      }
    }
  }

  /** The averaging loop `for (g = 0; g < ng; g++)` of a spectrum run: every row of
      `s_method` and `s_method_coh` over `nframes`, and `s_method_incoh` over
      `nframes` once per group. */
  method AverageRows(total: seq<array<real>>, coherent: seq<array<real>>, nframes: nat, incoh0: real,
                     ghost tag: map<object, int>, ghost bl: array<real>, ghost count: seq<array<int>>)
    returns (incoh: real)
    requires Layout(tag, bl, count, total, coherent)
    modifies Objects(total), Objects(coherent)
    ensures Contents(total) == DividedRows(old(Contents(total)), nframes)
    ensures Contents(coherent) == DividedRows(old(Contents(coherent)), nframes)
    ensures incoh == AveragedIncoherent(incoh0, nframes, |total|)
  {
    ghost var T0, C0 := Contents(total), Contents(coherent);
    incoh := incoh0;
    var g := 0;
    while g < |total|
      invariant RowsAveragedUpTo(total, coherent, T0, C0, nframes, g)
      invariant incoh == AveragedIncoherent(incoh0, nframes, g)
    {
      incoh := Quot(incoh, nframes as real);
      AverageRowStep(total, coherent, g, nframes, tag, bl, count, T0, C0);
      g := g + 1;
    }
    forall h | 0 <= h < |total|
      ensures total[h][..] == DividedRows(T0, nframes)[h] && coherent[h][..] == DividedRows(C0, nframes)[h]
    {
    }
  }

  /** The averaging loop of a single-q run: `s_method_nospectrum[g]` and
      `s_method_coh_nospectrum[g]` over `nframes`, and `s_method_incoh` over
      `nframes` once per group. */
  method AverageSingles(ts: array<real>, cs: array<real>, nframes: nat, incoh0: real) returns (incoh: real)
    requires ts.Length == cs.Length && ts != cs
    modifies ts, cs
    ensures ts[..] == Divided(old(ts[..]), nframes) && cs[..] == Divided(old(cs[..]), nframes)
    ensures incoh == AveragedIncoherent(incoh0, nframes, ts.Length)
  {
    incoh := incoh0;
    var g := 0;
    while g < ts.Length
      invariant g <= ts.Length
      invariant forall h :: 0 <= h < g ==> ts[h] == Quot(old(ts[h]), nframes as real) && cs[h] == Quot(old(cs[h]), nframes as real)
      invariant forall h :: g <= h < ts.Length ==> ts[h] == old(ts[h]) && cs[h] == old(cs[h])
      invariant incoh == AveragedIncoherent(incoh0, nframes, g)
    {
      incoh := Quot(incoh, nframes as real);
      ts[g] := Quot(ts[g], nframes as real);
      cs[g] := Quot(cs[g], nframes as real);
      g := g + 1;
    }
  }

  /** `bl`, `ts` and `cs` carry the tags -1, -2 and -3, and the rows theirs. */
  ghost predicate Tagged(t: map<object, int>, bl: array<real>, ts: array<real>, cs: array<real>,
                         counts: seq<array<int>>, totals: seq<array<real>>, coherents: seq<array<real>>) {
    Layout(t, bl, counts, totals, coherents) && ts in t && cs in t && t[ts] == -2 && t[cs] == -3
  }

  /** Every row holds zeros, as `snew` leaves it. */
  ghost predicate Zeroed(nbin: nat, nbinq: nat, counts: seq<array<int>>, totals: seq<array<real>>, coherents: seq<array<real>>)
    reads Objects(counts), Objects(totals), Objects(coherents)
  {
    |counts| == |totals| == |coherents| &&
    forall h :: 0 <= h < |counts| ==>
      counts[h][..] == seq(nbin + 1, b => 0) && totals[h][..] == Zeros(nbinq) && coherents[h][..] == Zeros(nbinq)
  }

  /** The group loop of the set-up that allocates `count[g]`, `s_method[g]` and
      `s_method_coh[g]`. */
  method NewTables(ng: nat, nbin: nat, nbinq: nat, bl: array<real>, ts: array<real>, cs: array<real>, ghost t0: map<object, int>)
    returns (counts: seq<array<int>>, totals: seq<array<real>>, coherents: seq<array<real>>, ghost t: map<object, int>)
    requires Tagged(t0, bl, ts, cs, [], [], [])
    ensures |counts| == ng && Tagged(t, bl, ts, cs, counts, totals, coherents) && Zeroed(nbin, nbinq, counts, totals, coherents)
  {
    counts, totals, coherents, t := [], [], [], t0;
    while |counts| < ng
      invariant |counts| <= ng && Tagged(t, bl, ts, cs, counts, totals, coherents) && Zeroed(nbin, nbinq, counts, totals, coherents)
    {
      counts, totals, coherents, t := AddRows(nbin, nbinq, bl, ts, cs, counts, totals, coherents, t);
    }
  }

  /** One more group's rows, zeroed. */
  method AddRows(nbin: nat, nbinq: nat, bl: array<real>, ts: array<real>, cs: array<real>,
                 counts: seq<array<int>>, totals: seq<array<real>>, coherents: seq<array<real>>, ghost t0: map<object, int>)
    returns (counts': seq<array<int>>, totals': seq<array<real>>, coherents': seq<array<real>>, ghost t: map<object, int>)
    requires Tagged(t0, bl, ts, cs, counts, totals, coherents) && Zeroed(nbin, nbinq, counts, totals, coherents)
    ensures |counts'| == |counts| + 1
    ensures Tagged(t, bl, ts, cs, counts', totals', coherents') && Zeroed(nbin, nbinq, counts', totals', coherents')
  {
    var n := new int[nbin + 1](b => 0);
    var tt := new real[nbinq](qq => 0.0);
    var cc := new real[nbinq](qq => 0.0);
    assert n[..] == seq(nbin + 1, b => 0) && tt[..] == Zeros(nbinq) && cc[..] == Zeros(nbinq);
    var g := |counts|;
    t := t0[n := 3 * g][tt := 3 * g + 1][cc := 3 * g + 2];
    counts', totals', coherents' := counts + [n], totals + [tt], coherents + [cc];
  }
}
