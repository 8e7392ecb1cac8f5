/** The run's derived quantities, fixed before the trajectory loop: the cutoff and
    its half-bin histogram, the q grid, the fading width, the polarisations and the
    tensor (`do_nonlinearopticalscattering`, before the first loop). */
module Setup {
  import opened Numerics
  import opened Hyperpol

  /** C's `(int)` conversion of a real: truncation toward zero. */
  function Truncate(x: real): (n: int)
    ensures x >= 0.0 ==> n == x.Floor && n >= 0
    ensures x < 0.0 ==> n == -((-x).Floor) && n <= 0
  {
    if x >= 0.0 then x.Floor else -((-x).Floor)
  }

  /** The command-line options the core reads. */
  datatype Options = Options(
    pbc: bool, normalize: bool, kleinmann: bool, spectrum: bool,
    maxq: real, nbinq: nat, kx: real, ky: real, kz: real,
    pOut: nat, pIn1: nat, pIn2: nat,
    binwidth: real, fade: real, faderdf: real)

  /** The quantities derived from the options, the first box and the first molecule. */
  datatype Setup = Setup(
    rmax2: real, rmax: real, nbin: int, invHalfBinWidth: real, binwidth: real,
    minq: real, dq: real, qDirection: Vec, invWidth: real, fade: real, faderdf: real,
    isize0: nat, invSize0: real, nbinq: nat, normX: real, normZ: real,
    pol: Polarisation, beta: Beta, pbc: bool)

  /** The squared cutoff: the periodic maximum when periodic boundaries are used,
      otherwise three times the longest diagonal box edge, squared. */
  function CutoffSquared(env: Env, pbc: bool, box: Box): (r: real)
    ensures !pbc ==> r >= 0.0
  {
    if pbc then env.maxCutoff2(box)
    else Sqr(3.0 * Max(box.a.x, Max(box.b.y, box.c.z)))
  }

  function Max(a: real, b: real): real { if a >= b then a else b }

  /** The number of half bins: `(int)(sqrt(rmax2) * 2 / binwidth)`. */
  function HalfBinCount(env: Env, rmax2: real, binwidth: real): int {
    Truncate(Quot(env.sqrt(rmax2) * 2.0, binwidth))
  }

  /** The half-bin index of a pair at squared distance r2: `(int)(r_dist * invhbinw)`. */
  function HalfBin(s: Setup, env: Env, r2: real): int {
    Truncate(env.sqrt(r2) * s.invHalfBinWidth)
  }

  /** The fading width `inv_width`: 1 without fading, pi / (2 (rmax - fade)) with it. */
  function FadeWidth(rmax: real, fade: real): real {
    if fade == 0.0 then 1.0 else Quot(Pi * 0.5, rmax - fade)
  }

  /** `arr_q[qq] = minq + dq * qq`. */
  function QAt(s: Setup, qq: nat): real { s.minq + s.dq * qq as real }

  /** The run's set-up. `first` is the first molecule of group 0: its first atom and
      its two partner atoms, which fix `norm_x` and `norm_z`. */
  function MakeSetup(env: Env, o: Options, box: Box, isize0: nat, o1: Vec, h1: Vec, h2: Vec): (s: Setup)
    requires o.pOut < 3 && o.pIn1 < 3 && o.pIn2 < 3
    ensures s.rmax2 == CutoffSquared(env, o.pbc, box) && s.rmax == env.sqrt(s.rmax2)
    ensures s.nbin == HalfBinCount(env, s.rmax2, o.binwidth)
    ensures o.binwidth != 0.0 ==> s.invHalfBinWidth * o.binwidth == 2.0
    ensures s.invWidth == FadeWidth(s.rmax, o.fade)
    ensures isize0 > 0 ==> s.invSize0 * isize0 as real == 1.0
    ensures s.pol == Polarisations(o.pOut, o.pIn1, o.pIn2) && s.beta == MolecularBeta(o.kleinmann)
    ensures s.nbinq == o.nbinq && s.fade == o.fade && s.binwidth == o.binwidth && s.isize0 == isize0
    ensures s.qDirection == QDirection(env, Vec(o.kx, o.ky, o.kz))
  {
    var rmax2 := CutoffSquared(env, o.pbc, box);
    var d1, d2 := env.pbcDx(box, o1, h1), env.pbcDx(box, o1, h2);
    var rmax := env.sqrt(rmax2);
    var minq := Quot(env.sqrt(2.0) * 2.0 * Pi, rmax);
    Setup(
      rmax2, rmax, HalfBinCount(env, rmax2, o.binwidth), Quot(2.0, o.binwidth), o.binwidth,
      minq, Quot(o.maxq - minq, o.nbinq as real), QDirection(env, Vec(o.kx, o.ky, o.kz)),
      FadeWidth(rmax, o.fade), o.fade, o.faderdf,
      isize0, Quot(1.0, isize0 as real), o.nbinq,
      env.invsqrt(Norm2(Sub(d1, d2))), env.invsqrt(Norm2(Add(d1, d2))),
      Polarisations(o.pOut, o.pIn1, o.pIn2), MolecularBeta(o.kleinmann), o.pbc)
  }

  /** What the histogram needs of a set-up: a positive bin width, a non-negative
      cutoff, and the half-bin count and width that `MakeSetup` derives from them. */
  ghost predicate HistogramReady(s: Setup, env: Env) {
    SqrtSound(env) && s.binwidth > 0.0 && s.rmax2 >= 0.0 &&
    s.nbin == HalfBinCount(env, s.rmax2, s.binwidth) && s.invHalfBinWidth * s.binwidth == 2.0
  }

  lemma MakeSetupHistogramReady(env: Env, o: Options, box: Box, isize0: nat, o1: Vec, h1: Vec, h2: Vec)
    requires o.pOut < 3 && o.pIn1 < 3 && o.pIn2 < 3
    requires SqrtSound(env) && o.binwidth > 0.0 && CutoffSquared(env, o.pbc, box) >= 0.0
    ensures HistogramReady(MakeSetup(env, o, box, isize0, o1, h1, h2), env)
  {
  }

  lemma MultiplyMonotone(a: real, b: real, c: real)
    requires a <= b && c >= 0.0
    ensures a * c <= b * c
  {
  }

  lemma TruncateMonotone(x: real, y: real)
    requires 0.0 <= x <= y
    ensures 0 <= Truncate(x) <= Truncate(y)
  {
  }

  lemma HalfWidthQuotient(rmax: real, binwidth: real, w: real)
    requires binwidth > 0.0 && w * binwidth == 2.0
    ensures Quot(rmax * 2.0, binwidth) == rmax * w && w > 0.0
  {
    assert w == 2.0 / binwidth;
  }

  /** The histogram has `nbin + 1` half bins, and every pair that passes the cutoff
      test `r2 <= rmax2` lands in one of them: `0 <= (int)(r_dist * invhbinw) <= nbin`. */
  lemma HalfBinInRange(s: Setup, env: Env, r2: real)
    requires HistogramReady(s, env) && 0.0 <= r2 <= s.rmax2
    ensures 0 <= s.nbin
    ensures 0 <= HalfBin(s, env, r2) <= s.nbin
  {
    SqrtMonotone(env, r2, s.rmax2);
    var r, rmax := env.sqrt(r2), env.sqrt(s.rmax2);
    var w := s.invHalfBinWidth;
    HalfWidthQuotient(rmax, s.binwidth, w);
    MultiplyMonotone(0.0, r, w);
    MultiplyMonotone(r, rmax, w);
    TruncateMonotone(r * w, rmax * w);
  }

  /** The direction of q, `arr_qvec`, is a unit vector whenever (kx, ky, kz) is not zero. */
  lemma QDirectionIsUnit(env: Env, o: Options, box: Box, isize0: nat, o1: Vec, h1: Vec, h2: Vec)
    requires o.pOut < 3 && o.pIn1 < 3 && o.pIn2 < 3
    requires SqrtSound(env) && o.kx * o.kx + o.ky * o.ky + o.kz * o.kz != 0.0
    ensures Norm2(MakeSetup(env, o, box, isize0, o1, h1, h2).qDirection) == 1.0
  {
    UnitDirection(env, Vec(o.kx, o.ky, o.kz));
  }

  /** `arr_qvec`: (kx, ky, kz) scaled by `normfac`, one over the root of its squared length. */
  function QDirection(env: Env, k: Vec): Vec {
    Scale(Quot(1.0, env.sqrt(k.x * k.x + k.y * k.y + k.z * k.z)), k)
  }

  lemma UnitDirection(env: Env, k: Vec)
    requires SqrtSound(env) && k.x * k.x + k.y * k.y + k.z * k.z != 0.0
    ensures Norm2(QDirection(env, k)) == 1.0
  {
    var root := env.sqrt(k.x * k.x + k.y * k.y + k.z * k.z);
    assert Norm2(k) == k.x * k.x + k.y * k.y + k.z * k.z;
    Normalised(k, root);
  }

  /** Dividing a vector by the root of its squared length gives a unit vector. */
  lemma Normalised(k: Vec, root: real)
    requires root >= 0.0 && root * root == Norm2(k) && Norm2(k) != 0.0
    ensures Norm2(Scale(Quot(1.0, root), k)) == 1.0
  {
    var f := Quot(1.0, root);
    assert f * root == 1.0;
    ScaledNorm2(f, k);
    assert f * f * Norm2(k) == (f * root) * (f * root);
  }

  lemma ScaledNorm2(f: real, v: Vec)
    ensures Norm2(Scale(f, v)) == f * f * Norm2(v)
  {
  }
}
