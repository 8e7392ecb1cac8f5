/** What one frame contributes, stated as functions: the molecules' lab-frame
    hyperpolarizabilities, the pair contributions of the five pair loops, their sums
    over the visited pairs, the half-bin tallies and the sumexp phase sums. The
    methods of the accumulator are proved against these. */
module Kernels {
  import opened Numerics
  import opened Hyperpol
  import opened Setup
  import opened Pairs

  /** The three atoms of one molecule: `x[ind0]`, `x[ind0+1]` and `x[ind0+2]`. */
  datatype Molecule = Molecule(first: Vec, second: Vec, third: Vec)

  /** What every loop body reads: the set-up, the external numerics and the frame's box. */
  datatype Ctx = Ctx(s: Setup, env: Env, box: Box)

  /** `rotate_beta` for one molecule, from its two minimum-image bond vectors. */
  function MolBeta(c: Ctx, m: Molecule): real {
    RotateBeta(c.s.normX, c.s.normZ, c.env.pbcDx(c.box, m.first, m.second),
               c.env.pbcDx(c.box, m.first, m.third), c.s.pol, c.s.beta)
  }

  function Betas(c: Ctx, mols: seq<Molecule>): (bs: seq<real>)
    ensures |bs| == |mols|
  {
    seq(|mols|, i requires 0 <= i < |mols| => MolBeta(c, mols[i]))
  }

  function Positions(mols: seq<Molecule>): (xs: seq<Vec>)
    ensures |xs| == |mols|
  {
    seq(|mols|, i requires 0 <= i < |mols| => mols[i].first)
  }

  lemma SquareNonNegative(a: real)
    ensures Sqr(a) >= 0.0
  {
    if a < 0.0 {
      assert Sqr(a) == (-a) * (-a);
    }
  }

  /** `beta_lab_sq_t`: the sum of the squares, accumulated front to back. */
  function SumSquares(bs: seq<real>): (r: real)
    ensures r >= 0.0
  {
    if bs == [] then 0.0
    else
      SquareNonNegative(bs[|bs| - 1]);
      SumSquares(bs[..|bs| - 1]) + Sqr(bs[|bs| - 1])
  }

  lemma {:induction false} SumSquaresOfZeros(bs: seq<real>)
    requires forall i :: 0 <= i < |bs| ==> bs[i] == 0.0
    ensures SumSquares(bs) == 0.0
  {
    if bs != [] {
      SumSquaresOfZeros(bs[..|bs| - 1]);
    }
  }

  /** Elementwise sum of two equally long vectors of q values. */
  function AddSeq(a: seq<real>, b: seq<real>): (r: seq<real>)
    requires |a| == |b|
    ensures |r| == |a| && forall k :: 0 <= k < |a| ==> r[k] == a[k] + b[k]
  {
    seq(|a|, k requires 0 <= k < |a| => a[k] + b[k])
  }

  /** The first n entries of a are those of a0 plus those of inc; the rest are a0's. */
  ghost predicate AddedUpTo(a0: seq<real>, a: seq<real>, inc: seq<real>, n: nat) {
    |a0| == |a| == |inc| && n <= |a| &&
    (forall e :: 0 <= e < n ==> a[e] == a0[e] + inc[e]) &&
    (forall e :: n <= e < |a| ==> a[e] == a0[e])
  }

  lemma AddedAll(a0: seq<real>, a: seq<real>, inc: seq<real>)
    requires AddedUpTo(a0, a, inc, |a|)
    ensures a == AddSeq(a0, inc)
  {
  }

  function Zeros(n: nat): (r: seq<real>)
    ensures |r| == n && forall k :: 0 <= k < n ==> r[k] == 0.0
  {
    seq(n, k => 0.0)
  }

  lemma AddZeros(x: seq<real>)
    ensures AddSeq(Zeros(|x|), x) == x
  {
  }

  lemma AddSeqAssociative(a: seq<real>, b: seq<real>, c: seq<real>)
    requires |a| == |b| == |c|
    ensures AddSeq(AddSeq(a, b), c) == AddSeq(a, AddSeq(b, c))
  {
  }

  /** The five pair loops: modsumexp with spectrum (without and with fading), cosmo
      with spectrum, and cosmo at the single q value `minq` (without and with fading). */
  datatype Kernel = ModPlain | ModFaded | CosmoSpec | CosmoSingle | CosmoSingleFaded

  /** Whether the loop increments the half-bin histogram (the first one does not). */
  predicate Counts(k: Kernel) { k != ModPlain }

  /** How many q values a pair contributes to: the spectrum, or `minq` alone. */
  function Width(k: Kernel, s: Setup): nat {
    if k == CosmoSingle || k == CosmoSingleFaded then 1 else s.nbinq
  }

  /** The displacement of a pair: minimum image, except in the faded single-q cosmo
      loop without periodic boundaries, which subtracts plainly. */
  function Displacement(k: Kernel, c: Ctx, a: Vec, b: Vec): Vec {
    if k == CosmoSingleFaded && !c.s.pbc then Sub(a, b) else c.env.pbcDx(c.box, a, b)
  }

  /** The damping factor cos^2((r - fade) * inv_width) of the fading window. */
  function Damping(s: Setup, env: Env, r: real): real {
    Sqr(env.cos((r - s.fade) * s.invWidth))
  }

  /** The fading window of the faded single-q cosmo loop and of the g(r) transform:
      1 up to `fade`, cos^2((r - fade) * inv_width) beyond it. */
  function FadeWeight(s: Setup, env: Env, r: real): (w: real)
    ensures w >= 0.0
    ensures r <= s.fade ==> w == 1.0
    ensures s.fade != 0.0 && r > s.fade ==> w == Damping(s, env, r)
  {
    SquareNonNegative(env.cos((r - s.fade) * s.invWidth));
    if s.fade == 0.0 || r <= s.fade then 1.0 else Damping(s, env, r)
  }

  /** The window as the faded modsumexp loop writes it: unweighted when `fade <= r`,
      cos^2 below `fade`. */
  function ModFadedWeight(s: Setup, env: Env, r: real): (w: real)
    ensures w >= 0.0
  {
    SquareNonNegative(env.cos((r - s.fade) * s.invWidth));
    if s.fade <= r then 1.0 else Damping(s, env, r)
  }

  /** `(minq + dq * qq) * iprod(arr_qvec, dx)` for every qq. */
  function PhaseTerms(s: Setup, env: Env, modf: real, dx: Vec): (r: seq<real>)
    ensures |r| == s.nbinq
  {
    seq(s.nbinq, qq requires 0 <= qq => modf * env.cos(QAt(s, qq) * Dot(s.qDirection, dx)))
  }

  /** What one accepted pair (i, j) at displacement dx adds to `temp_method`, or to
      the single-q accumulator. */
  function Contribution(k: Kernel, c: Ctx, dx: Vec, bi: real, bj: real): (r: seq<real>)
    ensures |r| == Width(k, c.s)
  {
    var s, env := c.s, c.env;
    var r := env.sqrt(Dot(dx, dx));
    match k
    case ModPlain => PhaseTerms(s, env, bi * bj, dx)
    case ModFaded => PhaseTerms(s, env, bi * bj * ModFadedWeight(s, env, r), dx)
    case CosmoSpec =>
      seq(s.nbinq, qq requires 0 <= qq => Quot(bi * bj, r) * env.sin(QAt(s, qq) * r))
    case CosmoSingle =>
      [Quot(bi * bj * env.sin(s.minq * r), s.minq * r)]
    case CosmoSingleFaded =>
      [Quot(2.0 * s.invSize0 * (bi * bj * FadeWeight(s, env, r)) * env.sin(s.minq * r), r * s.minq)]
  }

  function PairDx(k: Kernel, c: Ctx, pos: seq<Vec>, p: Pair): Vec
    requires p.i < |pos| && p.j < |pos|
  {
    Displacement(k, c, pos[p.i], pos[p.j])
  }

  /** The cutoff test `r2 <= rmax2`, for a pair of molecules of the group. */
  predicate Accepted(k: Kernel, c: Ctx, pos: seq<Vec>, p: Pair) {
    p.i < |pos| && p.j < |pos| &&
    var dx := PairDx(k, c, pos, p);
    Dot(dx, dx) <= c.s.rmax2
  }

  /** The sum of the contributions of the accepted pairs among ps. */
  function PairSpectrum(k: Kernel, c: Ctx, pos: seq<Vec>, bs: seq<real>, ps: seq<Pair>): (r: seq<real>)
    requires |pos| == |bs|
    ensures |r| == Width(k, c.s)
  {
    if ps == [] then Zeros(Width(k, c.s))
    else
      var p := ps[|ps| - 1];
      var rest := PairSpectrum(k, c, pos, bs, ps[..|ps| - 1]);
      if Accepted(k, c, pos, p) then AddSeq(rest, Contribution(k, c, PairDx(k, c, pos, p), bs[p.i], bs[p.j]))
      else rest
  }

  lemma PairSpectrumAppend(k: Kernel, c: Ctx, pos: seq<Vec>, bs: seq<real>, ps: seq<Pair>, p: Pair)
    requires |pos| == |bs|
    ensures PairSpectrum(k, c, pos, bs, ps + [p]) ==
      if Accepted(k, c, pos, p) then AddSeq(PairSpectrum(k, c, pos, bs, ps), Contribution(k, c, PairDx(k, c, pos, p), bs[p.i], bs[p.j]))
      else PairSpectrum(k, c, pos, bs, ps)
  {
    assert (ps + [p])[..|ps|] == ps;
  }

  /** The half bin a pair is counted in, or -1 when it fails the cutoff test. */
  function PairBin(k: Kernel, c: Ctx, pos: seq<Vec>, p: Pair): int {
    if Accepted(k, c, pos, p) then
      var dx := PairDx(k, c, pos, p);
      HalfBin(c.s, c.env, Dot(dx, dx))
    else -1
  }

  /** A pair that passes the cutoff lands in one of the `nbin + 1` half bins. */
  lemma PairBinInRange(k: Kernel, c: Ctx, pos: seq<Vec>, p: Pair)
    requires HistogramReady(c.s, c.env)
    ensures Accepted(k, c, pos, p) <==> 0 <= PairBin(k, c, pos, p)
    ensures PairBin(k, c, pos, p) <= c.s.nbin
  {
    HalfBinInRange(c.s, c.env, 0.0);
    if Accepted(k, c, pos, p) {
      var dx := PairDx(k, c, pos, p);
      NormNonNegative(dx);
      HalfBinInRange(c.s, c.env, Dot(dx, dx));
    }
  }

  /** The contributions of a concatenation of pair lists add up. */
  lemma {:induction false} PairSpectrumConcat(k: Kernel, c: Ctx, pos: seq<Vec>, bs: seq<real>, ps: seq<Pair>, qs: seq<Pair>)
    requires |pos| == |bs|
    ensures PairSpectrum(k, c, pos, bs, ps + qs) == AddSeq(PairSpectrum(k, c, pos, bs, ps), PairSpectrum(k, c, pos, bs, qs))
    decreases |qs|
  {
    if qs == [] {
      assert ps + qs == ps;
    } else {
      var rest, p := qs[..|qs| - 1], qs[|qs| - 1];
      assert ps + qs == (ps + rest) + [p];
      assert qs == rest + [p];
      PairSpectrumConcat(k, c, pos, bs, ps, rest);
      PairSpectrumAppend(k, c, pos, bs, ps + rest, p);
      PairSpectrumAppend(k, c, pos, bs, rest, p);
      if Accepted(k, c, pos, p) {
        AddSeqAssociative(PairSpectrum(k, c, pos, bs, ps), PairSpectrum(k, c, pos, bs, rest),
          Contribution(k, c, PairDx(k, c, pos, p), bs[p.i], bs[p.j]));
      }
    }
  }

  /** How many pairs among ps are counted in half bin b. */
  function Tally(k: Kernel, c: Ctx, pos: seq<Vec>, ps: seq<Pair>, b: int): nat {
    if ps == [] then 0
    else Tally(k, c, pos, ps[..|ps| - 1], b) + (if PairBin(k, c, pos, ps[|ps| - 1]) == b then 1 else 0)
  }

  lemma TallyAppend(k: Kernel, c: Ctx, pos: seq<Vec>, ps: seq<Pair>, p: Pair, b: int)
    ensures Tally(k, c, pos, ps + [p], b) == Tally(k, c, pos, ps, b) + (if PairBin(k, c, pos, p) == b then 1 else 0)
  {
    assert (ps + [p])[..|ps|] == ps;
  }

  /** The counts of a concatenation of pair lists add up. */
  lemma {:induction false} TallyConcat(k: Kernel, c: Ctx, pos: seq<Vec>, ps: seq<Pair>, qs: seq<Pair>, b: int)
    ensures Tally(k, c, pos, ps + qs, b) == Tally(k, c, pos, ps, b) + Tally(k, c, pos, qs, b)
    decreases |qs|
  {
    if qs == [] {
      assert ps + qs == ps;
    } else {
      var rest, p := qs[..|qs| - 1], qs[|qs| - 1];
      assert ps + qs == (ps + rest) + [p];
      assert qs == rest + [p];
      TallyConcat(k, c, pos, ps, rest, b);
      TallyAppend(k, c, pos, ps + rest, p, b);
      TallyAppend(k, c, pos, rest, p, b);
    }
  }

  /** How many pairs among ps pass the cutoff test. */
  function AcceptedCount(k: Kernel, c: Ctx, pos: seq<Vec>, ps: seq<Pair>): (r: nat)
    ensures r <= |ps|
  {
    if ps == [] then 0
    else AcceptedCount(k, c, pos, ps[..|ps| - 1]) + (if Accepted(k, c, pos, ps[|ps| - 1]) then 1 else 0)
  }

  /** The tallies of the half bins 0 .. m-1. */
  function TallyUpTo(k: Kernel, c: Ctx, pos: seq<Vec>, ps: seq<Pair>, m: nat): nat {
    if m == 0 then 0 else TallyUpTo(k, c, pos, ps, m - 1) + Tally(k, c, pos, ps, m - 1)
  }

  lemma {:induction false} TallyUpToLast(k: Kernel, c: Ctx, pos: seq<Vec>, ps: seq<Pair>, m: nat)
    requires |ps| > 0
    ensures TallyUpTo(k, c, pos, ps, m) == TallyUpTo(k, c, pos, ps[..|ps| - 1], m) +
      (if 0 <= PairBin(k, c, pos, ps[|ps| - 1]) < m then 1 else 0)
  {
    if m > 0 {
      TallyUpToLast(k, c, pos, ps, m - 1);
    }
  }

  lemma {:induction false} TallyUpToOfNone(k: Kernel, c: Ctx, pos: seq<Vec>, m: nat)
    ensures TallyUpTo(k, c, pos, [], m) == 0
  {
    if m > 0 {
      TallyUpToOfNone(k, c, pos, m - 1);
    }
  }

  /** The histogram loses no pair: the tallies of the `nbin + 1` half bins add up
      to the number of pairs that pass the cutoff. */
  lemma {:induction false} HistogramConservesPairs(k: Kernel, c: Ctx, pos: seq<Vec>, ps: seq<Pair>)
    requires HistogramReady(c.s, c.env)
    ensures TallyUpTo(k, c, pos, ps, c.s.nbin + 1) == AcceptedCount(k, c, pos, ps)
  {
    HalfBinInRange(c.s, c.env, 0.0);
    if ps == [] {
      TallyUpToOfNone(k, c, pos, c.s.nbin + 1);
    } else {
      TallyUpToLast(k, c, pos, ps, c.s.nbin + 1);
      HistogramConservesPairs(k, c, pos, ps[..|ps| - 1]);
      PairBinInRange(k, c, pos, ps[|ps| - 1]);
    }
  }

  lemma NormNonNegative(v: Vec)
    ensures Dot(v, v) >= 0.0
  {
    assert Dot(v, v) == Norm2(v);
  }

  /** The phase `q * iprod(arr_qvec, xi)` of one molecule at q index qq. */
  function Phase(s: Setup, qq: nat, x: Vec): real {
    QAt(s, qq) * Dot(s.qDirection, x)
  }

  /** `cos_q[qq]` after the first molecules: the sum of beta_i cos(q x_i). */
  function CosSum(c: Ctx, bs: seq<real>, pos: seq<Vec>, q: real): real
    requires |bs| == |pos|
  {
    if bs == [] then 0.0
    else CosSum(c, bs[..|bs| - 1], pos[..|pos| - 1], q) + CosTerm(c, bs[|bs| - 1], pos[|pos| - 1], q)
  }

  /** `sin_q[qq]` after the first molecules: the sum of beta_i sin(q x_i). */
  function SinSum(c: Ctx, bs: seq<real>, pos: seq<Vec>, q: real): real
    requires |bs| == |pos|
  {
    if bs == [] then 0.0
    else SinSum(c, bs[..|bs| - 1], pos[..|pos| - 1], q) + SinTerm(c, bs[|bs| - 1], pos[|pos| - 1], q)
  }

  /** One molecule's terms of the phase sums: beta cos(q x) and beta sin(q x), with
      x the molecule's position along `arr_qvec`. */
  function CosTerm(c: Ctx, b: real, x: Vec, q: real): real {
    b * c.env.cos(q * Dot(c.s.qDirection, x))
  }

  function SinTerm(c: Ctx, b: real, x: Vec, q: real): real {
    b * c.env.sin(q * Dot(c.s.qDirection, x))
  }

  /** |sum_i beta_i exp(i q x_i)|^2 at q. */
  function Intensity(c: Ctx, bs: seq<real>, pos: seq<Vec>, q: real): real
    requires |bs| == |pos|
  {
    Sqr(CosSum(c, bs, pos, q)) + Sqr(SinSum(c, bs, pos, q))
  }

  /** The modsumexp window as written is inverted with respect to the window of the
      single-q cosmo loop and of the g(r) transform: below `fade` it damps the pair
      and beyond it leaves the pair whole. */
  lemma ModFadedWindowInverted(s: Setup, env: Env, r: real)
    requires s.fade != 0.0
    ensures r < s.fade ==> ModFadedWeight(s, env, r) == Damping(s, env, r) && FadeWeight(s, env, r) == 1.0
    ensures r > s.fade ==> ModFadedWeight(s, env, r) == 1.0 && FadeWeight(s, env, r) == Damping(s, env, r)
  {
  }
}
