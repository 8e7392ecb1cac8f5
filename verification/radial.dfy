/** After the last frame of a cosmo or modsumexp run: the half-bin histogram
    `count[g]` merged into the radial distribution g(r) on whole bins, and the
    structure factor `s_method_g_r[g][qq]` that g(r) gives by a sine transform
    (`do_nonlinearopticalscattering`, from `invvol = invvol_sum/nframes` on). */
module Radial {
  import opened Numerics
  import opened Setup
  import Frames

  /** `(nbin+1)/2`, the number of whole bins of g(r). */
  function Shells(nbin: nat): nat { (nbin + 1) / 2 }

  /** The outer radius `(i + 0.5)*binwidth` of g(r) bin i. */
  function ShellOuter(binwidth: real, i: nat): real { (i as real + 0.5) * binwidth }

  /** Its inner radius: the previous bin's outer radius, 0 for bin 0. */
  function ShellInner(binwidth: real, i: nat): real { if i == 0 then 0.0 else ShellOuter(binwidth, i - 1) }

  function SphereVolume(r: real): real { 4.0 / 3.0 * Pi * r * r * r }

  /** `segvol` of bin i: the volume between its inner and outer sphere. */
  function ShellVolume(binwidth: real, i: nat): real {
    SphereVolume(ShellOuter(binwidth, i)) - SphereVolume(ShellInner(binwidth, i))
  }

  /** The loop that fills `inv_segvol[i] = 1.0/segvol`, carrying the previous
      sphere volume from one bin to the next. */
  method InvShellVolumes(binwidth: real, n: nat) returns (inv: array<real>)
    ensures inv.Length == n
    ensures forall i :: 0 <= i < n ==> inv[i] == Quot(1.0, ShellVolume(binwidth, i))
  {
    inv := new real[n];
    var prev := 0.0;
    var i := 0;
    while i < n
      invariant i <= n
      invariant prev == SphereVolume(ShellInner(binwidth, i))
      invariant forall k :: 0 <= k < i ==> inv[k] == Quot(1.0, ShellVolume(binwidth, k))
    {
      var r := (i as real + 0.5) * binwidth;
      var sphere := 4.0 / 3.0 * Pi * r * r * r;
      inv[i] := Quot(1.0, sphere - prev);
      prev := sphere;
      i := i + 1;
    }
  }

  lemma CubeMonotone(a: real, b: real)
    requires 0.0 <= a < b
    ensures a * a * a < b * b * b
  {
    assert b * b * b - a * a * a == (b - a) * (b * b + a * b + a * a);
    ProductNonNegative(a, b);
    ProductNonNegative(a, a);
    ProductPositive(b, b);
    ProductPositive(b - a, b * b + a * b + a * a);
  }

  lemma ProductNonNegative(x: real, y: real)
    requires x >= 0.0 && y >= 0.0
    ensures x * y >= 0.0
  {
  }

  lemma ProductPositive(x: real, y: real)
    requires x > 0.0 && y > 0.0
    ensures x * y > 0.0
  {
  }

  /** With a positive bin width every bin has a positive volume, so `inv_segvol[i]`
      is its exact inverse. */
  lemma ShellVolumePositive(binwidth: real, i: nat)
    requires binwidth > 0.0
    ensures ShellVolume(binwidth, i) > 0.0
    ensures Quot(1.0, ShellVolume(binwidth, i)) * ShellVolume(binwidth, i) == 1.0
  {
    var a, b := ShellInner(binwidth, i), ShellOuter(binwidth, i);
    assert 0.0 <= a < b;
    CubeMonotone(a, b);
    assert SphereVolume(b) - SphereVolume(a) == 4.0 / 3.0 * Pi * (b * b * b - a * a * a);
  }

  /** The volumes of bins 0 to n - 1 add up to the ball of the last bin's outer
      radius: the bins tile the sphere without gap or overlap. */
  lemma {:induction false} ShellsFillSphere(binwidth: real, n: nat)
    requires n > 0
    ensures Frames.Sum(ShellVolumes(binwidth, n)) == SphereVolume(ShellOuter(binwidth, n - 1))
  {
    var vs := ShellVolumes(binwidth, n);
    if n == 1 {
      assert vs[..0] == [];
    } else {
      assert vs[..n - 1] == ShellVolumes(binwidth, n - 1);
      ShellsFillSphere(binwidth, n - 1);
    }
  }

  /** The volumes of bins 0 to n - 1. */
  function ShellVolumes(binwidth: real, n: nat): (vs: seq<real>)
    ensures |vs| == n && forall i :: 0 <= i < n ==> vs[i] == ShellVolume(binwidth, i)
  {
    seq(n, i requires 0 <= i < n => ShellVolume(binwidth, i))
  }

  /** Which half bins g(r) bin i merges: `count[g][0]` for bin 0,
      `count[g][2i-1]` and `count[g][2i]` for the others. */
  predicate ShellCollects(i: nat, k: int) {
    if i == 0 then k == 0 else k == 2 * i - 1 || k == 2 * i
  }

  /** The histogram entries g(r) bin i merges: `j`. */
  function ShellCount(n: seq<int>, i: nat): int
    requires 2 * i < |n|
  {
    if i == 0 then n[0] else n[2 * i - 1] + n[2 * i]
  }

  /** Every bin of g(r) reads inside `count[g]`, which has `nbin + 1` entries. */
  lemma ShellReadsInside(nbin: nat, i: nat)
    requires i < Shells(nbin)
    ensures 2 * i < nbin + 1
    ensures i > 0 ==> 0 <= 2 * i - 1
  {
  }

  lemma ScaledBound(a: real, r: real, w: real, binwidth: real)
    requires binwidth > 0.0 && w * binwidth == 2.0
    ensures a <= r * w <==> a * binwidth / 2.0 <= r
    ensures r * w < a <==> r < a * binwidth / 2.0
  {
    assert r * w * (binwidth / 2.0) == r;
    assert w > 0.0;
    if a <= r * w {
      assert a * (binwidth / 2.0) <= r * w * (binwidth / 2.0);
    }
    if a * binwidth / 2.0 <= r {
      assert a * binwidth / 2.0 * w <= r * w;
    }
    if r * w < a {
      assert r * w * (binwidth / 2.0) < a * (binwidth / 2.0);
    }
    if r < a * binwidth / 2.0 {
      assert r * w < a * binwidth / 2.0 * w;
    }
  }

  /** A pair at distance `r_dist` lands in one of the half bins that g(r) bin i
      merges exactly when `r_dist` lies between the bin's inner and outer radius:
      the pairs bin i counts are the pairs in the shell whose volume `inv_segvol[i]`
      inverts. */
  lemma HalfBinsOfShell(s: Setup, env: Env, r2: real, i: nat)
    requires HistogramReady(s, env) && r2 >= 0.0
    ensures ShellCollects(i, HalfBin(s, env, r2)) <==>
      ShellInner(s.binwidth, i) <= env.sqrt(r2) < ShellOuter(s.binwidth, i)
  {
    var r, w, bw := env.sqrt(r2), s.invHalfBinWidth, s.binwidth;
    assert 0.0 <= r;
    assert w > 0.0 by {
      assert w * bw == 2.0;
    }
    ProductNonNegative(r, w);
    assert HalfBin(s, env, r2) == (r * w).Floor;
    FloorOfShell(r * w, i);
    var lo, hi := 2.0 * i as real - 1.0, 2.0 * i as real + 1.0;
    ScaledBound(lo, r, w, bw);
    ScaledBound(hi, r, w, bw);
    assert hi * bw / 2.0 == ShellOuter(bw, i);
    if i > 0 {
      assert lo * bw / 2.0 == ShellInner(bw, i);
    } else {
      assert lo * bw / 2.0 <= 0.0;
    }
  }

  /** For x >= 0, bin i merges the half bin `(int)x` exactly when x lies in
      [2i - 1, 2i + 1). */
  lemma FloorOfShell(x: real, i: nat)
    requires x >= 0.0
    ensures ShellCollects(i, x.Floor) <==> 2.0 * i as real - 1.0 <= x < 2.0 * i as real + 1.0
  {
  }

  /** `r = i*binwidth`, where g(r) bin i is reported. */
  function BinRadius(s: Setup, i: nat): real { i as real * s.binwidth }

  /** `normfac = 2.0/(nframes*invvol*isize0*isize0)`. */
  function NormFactor(s: Setup, nframes: nat, invvol: real): real {
    Quot(2.0, nframes as real * invvol * s.isize0 as real * s.isize0 as real)
  }

  /** g(r) at bin i, at `r = i*binwidth`, from its merged count `j` and
      `inv_segvol[i]`: faded toward 1 from `faderdf` on, otherwise normalised to
      the ideal gas or, without `-normalize`, over `binwidth*isize0*nframes`. */
  function RdfValue(s: Setup, env: Env, normalize: bool, nframes: nat, invvol: real, j: int, inv: real, r: real): real {
    if s.faderdf > 0.0 && r >= s.faderdf then Faded(env, Normalised(j, inv, NormFactor(s, nframes, invvol)), r, s.faderdf)
    else if normalize then Normalised(j, inv, NormFactor(s, nframes, invvol))
    else Raw(s, nframes, j)
  }

  /** `j*inv_segvol[i]*normfac`. */
  function Normalised(j: int, inv: real, normfac: real): real { j as real * inv * normfac }

  /** `j/(binwidth*isize0*nframes)`. */
  function Raw(s: Setup, nframes: nat, j: int): real { Quot(j as real, s.binwidth * s.isize0 as real * nframes as real) }

  /** g faded toward 1 at r: `1 + (g - 1)*exp(-16*sqr(r/faderdf-1))`. */
  function Faded(env: Env, g: real, r: real, faderdf: real): real
    requires faderdf != 0.0
  {
    1.0 + (g - 1.0) * env.exp(-16.0 * Sqr(r / faderdf - 1.0))
  }

  /** `nrdf = max((nbin+1)/2, 1+2*faderdf/binwidth)`, truncated to an int. */
  function RdfLength(s: Setup): int
    requires s.nbin >= 0
  {
    Truncate(Max(Shells(s.nbin) as real, 1.0 + Quot(2.0 * s.faderdf, s.binwidth)))
  }

  /** `rdf[g]` has room for every bin of g(r). */
  lemma RdfLengthCoversShells(s: Setup)
    requires s.nbin >= 0
    ensures RdfLength(s) >= Shells(s.nbin)
  {
    var m := Max(Shells(s.nbin) as real, 1.0 + Quot(2.0 * s.faderdf, s.binwidth));
    assert m >= Shells(s.nbin) as real;
    assert m.Floor >= Shells(s.nbin);
  }

  /** A bin that holds, over the run, the ideal-gas count of pairs,
      `nframes * isize0^2/2 * segvol/volume`, has a normalised g(r) of exactly 1,
      faded or not. */
  lemma RdfIdealGas(s: Setup, env: Env, nframes: nat, invvol: real, j: int, vol: real, r: real)
    requires nframes > 0 && invvol > 0.0 && s.isize0 > 0 && vol > 0.0
    requires j as real == nframes as real * s.isize0 as real * s.isize0 as real * invvol * vol / 2.0
    ensures RdfValue(s, env, true, nframes, invvol, j, Quot(1.0, vol), r) == 1.0
  {
    var d := nframes as real * invvol * s.isize0 as real * s.isize0 as real;
    assert d > 0.0 by {
      assert nframes as real * invvol > 0.0;
      assert nframes as real * invvol * s.isize0 as real > 0.0;
    }
    assert NormFactor(s, nframes, invvol) == 2.0 / d;
    assert j as real == d * vol / 2.0;
    assert j as real * Quot(1.0, vol) == d / 2.0;
    assert Normalised(j, Quot(1.0, vol), NormFactor(s, nframes, invvol)) == 1.0;
  }

  /** An empty histogram, as the plain modsumexp loop leaves it, gives g(r) = 0 at
      every bin short of `faderdf`, normalised or raw. */
  lemma RdfOfEmptyHistogram(s: Setup, env: Env, normalize: bool, nframes: nat, invvol: real,
                            n: seq<int>, i: nat, inv: real, r: real)
    requires 2 * i < |n| && forall b :: 0 <= b < |n| ==> n[b] == 0
    requires !(s.faderdf > 0.0 && r >= s.faderdf)
    ensures ShellCount(n, i) == 0
    ensures RdfValue(s, env, normalize, nframes, invvol, ShellCount(n, i), inv, r) == 0.0
  {
    assert ShellCount(n, i) == 0;
    assert Raw(s, nframes, 0) == 0.0;
  }

  /** The g(r) loop of group g: every bin from its merged half bins, then `1.0`
      up to `nrdf`. */
  method RdfRow(s: Setup, env: Env, normalize: bool, nframes: nat, invvol: real, count: array<int>, inv: array<real>)
    returns (rdf: array<real>)
    requires s.nbin >= 0 && count.Length == s.nbin + 1 && inv.Length == Shells(s.nbin)
    ensures rdf.Length == RdfLength(s)
    ensures forall i :: 0 <= i < Shells(s.nbin) ==>
      rdf[i] == RdfValue(s, env, normalize, nframes, invvol, ShellCount(count[..], i), inv[i], BinRadius(s, i))
    ensures forall i :: Shells(s.nbin) <= i < rdf.Length ==> rdf[i] == 1.0
  {
    var normfac := NormFactor(s, nframes, invvol);
    var nrdf := Truncate(Max(((s.nbin + 1) / 2) as real, 1.0 + Quot(2.0 * s.faderdf, s.binwidth)));
    RdfLengthCoversShells(s);
    rdf := new real[nrdf];
    var i := 0;
    while i < (s.nbin + 1) / 2
      invariant i <= Shells(s.nbin)
      invariant forall k :: 0 <= k < i ==>
        rdf[k] == RdfValue(s, env, normalize, nframes, invvol, ShellCount(count[..], k), inv[k], BinRadius(s, k))
    {
      var r := BinRadius(s, i);
      var j := if i == 0 then count[0] else count[i * 2 - 1] + count[i * 2];
      var g: real;
      if s.faderdf > 0.0 && r >= s.faderdf {
        g := Faded(env, Normalised(j, inv[i], normfac), r, s.faderdf);
      } else if normalize {
        g := Normalised(j, inv[i], normfac);
      } else {
        g := Raw(s, nframes, j);
      }
      assert g == RdfValue(s, env, normalize, nframes, invvol, j, inv[i], r);
      assert j == ShellCount(count[..], i);
      rdf[i] := g;
      i := i + 1;
    }
    while i < nrdf
      invariant Shells(s.nbin) <= i <= nrdf
      invariant forall k :: 0 <= k < Shells(s.nbin) ==>
        rdf[k] == RdfValue(s, env, normalize, nframes, invvol, ShellCount(count[..], k), inv[k], BinRadius(s, k))
      invariant forall k :: Shells(s.nbin) <= k < i ==> rdf[k] == 1.0
    {
      rdf[i] := 1.0;
      i := i + 1;
    }
  }

  /** The fading factor of the sine transform at r: 1 up to `fade` (or without
      fading), `cos^2((r - fade)*inv_width)` beyond. */
  function GrWeight(s: Setup, env: Env, r: real): real {
    if s.fade == 0.0 || r <= s.fade then 1.0 else FadeFactor(s, env, r)
  }

  /** `mod_f = sqr(cos((r - fade)*inv_width))`. */
  function FadeFactor(s: Setup, env: Env, r: real): real { Sqr(env.cos((r - s.fade) * s.invWidth)) }

  /** What bin i of g(r) adds to `s_method_g_r[g][qq]` at wave number q. */
  function GrTerm(s: Setup, env: Env, rdf: seq<real>, q: real, i: nat): real
    requires i < |rdf|
  {
    var r := BinRadius(s, i);
    SineTerm(env, GrWeight(s, env, r), s.binwidth, r, q, rdf[i])
  }

  /** `f*binwidth*r*sin(q*r)*(g-1.0)/q`, with fading factor f. */
  function SineTerm(env: Env, f: real, binwidth: real, r: real, q: real, g: real): real {
    Quot(f * binwidth * r * env.sin(q * r) * (g - 1.0), q)
  }

  /** The terms of bins 0 to n - 1. */
  function GrSum(s: Setup, env: Env, rdf: seq<real>, q: real, n: nat): real
    requires n <= |rdf|
  {
    if n == 0 then 0.0 else GrSum(s, env, rdf, q, n - 1) + GrTerm(s, env, rdf, q, n - 1)
  }

  /** `s_method_g_r[g][qq]`: the sine transform of g(r) - 1 over the bins of g(r),
      times `4 pi isize0 invvol`, plus 1. */
  function StructureFromRdf(s: Setup, env: Env, rdf: seq<real>, q: real, invvol: real): real
    requires s.nbin >= 0 && Shells(s.nbin) <= |rdf|
  {
    ScaleTransform(s, GrSum(s, env, rdf, q, Shells(s.nbin)), invvol)
  }

  /** `s_method_g_r[g][qq]*4.0*M_PI*isize0*invvol + 1.0`. */
  function ScaleTransform(s: Setup, sum: real, invvol: real): real { sum * 4.0 * Pi * s.isize0 as real * invvol + 1.0 }

  /** Bins where g(r) is 1 add nothing to the transform. */
  lemma {:induction false} GrSumIdeal(s: Setup, env: Env, rdf: seq<real>, q: real, n: nat)
    requires n <= |rdf| && forall i :: 0 <= i < n ==> rdf[i] == 1.0
    ensures GrSum(s, env, rdf, q, n) == 0.0
  {
    if n > 0 {
      GrSumIdeal(s, env, rdf, q, n - 1);
      assert rdf[n - 1] - 1.0 == 0.0;
    }
  }

  /** An ideal gas, g(r) = 1 on every bin, has S(q) = 1 at every q. */
  lemma StructureOfIdealGas(s: Setup, env: Env, rdf: seq<real>, q: real, invvol: real)
    requires s.nbin >= 0 && Shells(s.nbin) <= |rdf|
    requires forall i :: 0 <= i < Shells(s.nbin) ==> rdf[i] == 1.0
    ensures StructureFromRdf(s, env, rdf, q, invvol) == 1.0
  {
    GrSumIdeal(s, env, rdf, q, Shells(s.nbin));
  }

  /** The transform loop of group g: for every q of the grid, `s_method_g_r[g][qq]`
      accumulates the terms of the bins of g(r) and is then scaled and shifted. */
  method RdfStructure(s: Setup, env: Env, rdf: seq<real>, invvol: real) returns (sgr: array<real>)
    requires s.nbin >= 0 && Shells(s.nbin) <= |rdf|
    ensures sgr.Length == s.nbinq
    ensures forall qq :: 0 <= qq < s.nbinq ==> sgr[qq] == StructureFromRdf(s, env, rdf, QAt(s, qq), invvol)
  {
    sgr := new real[s.nbinq](qq => 0.0);
    var qq := 0;
    while qq < s.nbinq
      invariant qq <= s.nbinq
      invariant forall k :: 0 <= k < qq ==> sgr[k] == StructureFromRdf(s, env, rdf, QAt(s, k), invvol)
      invariant forall k :: qq <= k < s.nbinq ==> sgr[k] == 0.0
    {
      TransformAt(s, env, rdf, invvol, sgr, qq);
      qq := qq + 1;
    }
  }

  /** One q of the transform loop, accumulated in place in `sgr[qq]`. */
  method TransformAt(s: Setup, env: Env, rdf: seq<real>, invvol: real, sgr: array<real>, qq: nat)
    requires s.nbin >= 0 && Shells(s.nbin) <= |rdf| && qq < sgr.Length && sgr[qq] == 0.0
    modifies sgr
    ensures sgr[qq] == StructureFromRdf(s, env, rdf, QAt(s, qq), invvol)
    ensures forall k :: 0 <= k < sgr.Length && k != qq ==> sgr[k] == old(sgr[k])
  {
    var q := QAt(s, qq);
    var i := 0;
    while i < (s.nbin + 1) / 2
      invariant i <= Shells(s.nbin)
      invariant sgr[qq] == GrSum(s, env, rdf, q, i)
      invariant forall k :: 0 <= k < sgr.Length && k != qq ==> sgr[k] == old(sgr[k])
    {
      var r := BinRadius(s, i);
      var t: real;
      if s.fade == 0.0 || r <= s.fade {
        t := SineTerm(env, 1.0, s.binwidth, r, q, rdf[i]);
      } else {
        var f := FadeFactor(s, env, r);
        t := SineTerm(env, f, s.binwidth, r, q, rdf[i]);
      }
      assert t == GrTerm(s, env, rdf, q, i);
      sgr[qq] := sgr[qq] + t;
      i := i + 1;
    }
    sgr[qq] := ScaleTransform(s, sgr[qq], invvol);
  }
}
