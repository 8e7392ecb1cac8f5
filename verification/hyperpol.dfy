/** The hyperpolarizability tensor of a C2v molecule, its projection onto the
    laboratory polarisation directions (`rotate_beta`, `square_beta`) and the
    molecular frame of a three-atom molecule (`mol_unitvectors`). */
module Hyperpol {
  import opened Numerics

  /** The seven non-zero components `beta_mol[i][j][k]` of the C2v tensor. */
  datatype Beta = Beta(zxx: real, zyy: real, zzz: real, xxz: real, xzx: real, yyz: real, yzy: real)

  /** The tensor of a water molecule in atomic units. Without Kleinmann symmetry the
      components xxz, xzx, yyz and yzy keep the zero of their allocation. */
  function MolecularBeta(kleinmann: bool): (b: Beta)
    ensures b.zzz == 31.6 && b.zxx == 5.7 && b.zyy == 10.9
    ensures kleinmann <==> b.xxz == b.zxx
    ensures kleinmann ==> b.xzx == b.xxz && b.yyz == b.zyy && b.yzy == b.yyz
    ensures !kleinmann ==> b.xxz == 0.0 && b.xzx == 0.0 && b.yyz == 0.0 && b.yzy == 0.0
  {
    if kleinmann then Beta(5.7, 10.9, 31.6, 5.7, 5.7, 10.9, 10.9)
    else Beta(5.7, 10.9, 31.6, 0.0, 0.0, 0.0, 0.0)
  }

  /** `beta_mol[i][j][k]`: the full 3x3x3 array, zero outside the seven components. */
  function Component(b: Beta, i: nat, j: nat, k: nat): real
    requires i < 3 && j < 3 && k < 3
  {
    if i == 2 && j == 0 && k == 0 then b.zxx
    else if i == 2 && j == 1 && k == 1 then b.zyy
    else if i == 2 && j == 2 && k == 2 then b.zzz
    else if i == 0 && j == 0 && k == 2 then b.xxz
    else if i == 0 && j == 2 && k == 0 then b.xzx
    else if i == 1 && j == 1 && k == 2 then b.yyz
    else if i == 1 && j == 2 && k == 1 then b.yzy
    else 0.0
  }

  /** The lab axis e_k, as set up for `pol_out[p_out] = 1.0` on a zeroed vector. */
  function OneHot(k: nat): (v: Vec)
    requires k < 3
    ensures forall i: nat :: i < 3 ==> Coord(v, i) == if i == k then 1.0 else 0.0
  {
    if k == 0 then Vec(1.0, 0.0, 0.0) else if k == 1 then Vec(0.0, 1.0, 0.0) else Vec(0.0, 0.0, 1.0)
  }

  /** Projecting onto a lab axis picks out a coordinate. */
  lemma ProjectOntoAxis(u: Vec, k: nat)
    requires k < 3
    ensures Dot(u, OneHot(k)) == Coord(u, k)
  {
    if k == 0 {
      assert OneHot(k) == Vec(1.0, 0.0, 0.0);
    } else if k == 1 {
      assert OneHot(k) == Vec(0.0, 1.0, 0.0);
    } else {
      assert OneHot(k) == Vec(0.0, 0.0, 1.0);
    }
  }

  /** The three beam polarisations (outgoing, first and second incoming). */
  datatype Polarisation = Polarisation(out: Vec, in1: Vec, in2: Vec)

  function Polarisations(pOut: nat, pIn1: nat, pIn2: nat): Polarisation
    requires pOut < 3 && pIn1 < 3 && pIn2 < 3
  {
    Polarisation(OneHot(pOut), OneHot(pIn1), OneHot(pIn2))
  }

  /** A molecular frame: the x, y and z axes in lab coordinates. */
  datatype Axes = Axes(x: Vec, y: Vec, z: Vec)

  function Axis(a: Axes, i: nat): Vec
    requires i < 3
  {
    if i == 0 then a.x else if i == 1 then a.y else a.z
  }

  /** The frame of `rotate_beta`: from the two displacements d1, d2 of the partner
      atoms, x is d1 - d2 and z is d1 + d2, each scaled by the run's normalisation
      scalar, and y is x cross z. */
  function MolAxes(invNormX: real, invNormZ: real, d1: Vec, d2: Vec): (a: Axes)
    ensures Dot(a.y, a.x) == 0.0 && Dot(a.y, a.z) == 0.0
    ensures Norm2(d1) == Norm2(d2) ==> Dot(a.x, a.z) == 0.0
  {
    var x := Scale(invNormX, Sub(d1, d2));
    var z := Scale(invNormZ, Add(d1, d2));
    CrossOrthogonal(x, z);
    Axes(x, Cross(x, z), z)
  }

  /** The seven projected terms, in the order of `square_beta`'s cos200 .. cos121. */
  datatype Terms = Terms(t200: real, t211: real, t222: real, t002: real, t020: real, t112: real, t121: real)

  function ProjectedTerms(a: Axes, p: Polarisation, b: Beta): Terms {
    Terms(
      b.zxx * Dot(a.z, p.out) * Dot(a.x, p.in1) * Dot(a.x, p.in2),
      b.zyy * Dot(a.z, p.out) * Dot(a.y, p.in1) * Dot(a.y, p.in2),
      b.zzz * Dot(a.z, p.out) * Dot(a.z, p.in1) * Dot(a.z, p.in2),
      b.xxz * Dot(a.x, p.out) * Dot(a.x, p.in1) * Dot(a.z, p.in2),
      b.xzx * Dot(a.x, p.out) * Dot(a.z, p.in1) * Dot(a.x, p.in2),
      b.yyz * Dot(a.y, p.out) * Dot(a.y, p.in1) * Dot(a.z, p.in2),
      b.yzy * Dot(a.y, p.out) * Dot(a.z, p.in1) * Dot(a.y, p.in2))
  }

  function SumTerms(t: Terms): real {
    t.t200 + t.t211 + t.t222 + t.t002 + t.t020 + t.t112 + t.t121
  }

  /** One term of the general contraction over all 27 index triples. */
  function ContractionTerm(a: Axes, p: Polarisation, b: Beta, i: nat, j: nat, k: nat): real
    requires i < 3 && j < 3 && k < 3
  {
    Component(b, i, j, k) * Dot(Axis(a, i), p.out) * Dot(Axis(a, j), p.in1) * Dot(Axis(a, k), p.in2)
  }

  function ContractionJ(a: Axes, p: Polarisation, b: Beta, i: nat, j: nat): real
    requires i < 3 && j < 3
  {
    ContractionTerm(a, p, b, i, j, 0) + ContractionTerm(a, p, b, i, j, 1) + ContractionTerm(a, p, b, i, j, 2)
  }

  function ContractionI(a: Axes, p: Polarisation, b: Beta, i: nat): real
    requires i < 3
  {
    ContractionJ(a, p, b, i, 0) + ContractionJ(a, p, b, i, 1) + ContractionJ(a, p, b, i, 2)
  }

  /** The general triple loop over all 27 components (kept as a comment in the original). */
  function FullContraction(a: Axes, p: Polarisation, b: Beta): real {
    ContractionI(a, p, b, 0) + ContractionI(a, p, b, 1) + ContractionI(a, p, b, 2)
  }

  /** The seven-term projection of a frame. It equals the general 27-term contraction,
      because the other twenty components of a C2v tensor are zero. */
  function Project(a: Axes, p: Polarisation, b: Beta): real {
    SumTerms(ProjectedTerms(a, p, b))
  }

  lemma ProjectIsFullContraction(a: Axes, p: Polarisation, b: Beta)
    ensures Project(a, p, b) == FullContraction(a, p, b)
  {
  }

  /** `rotate_beta`: the lab-frame value beta_IJK of one molecule. */
  function RotateBeta(invNormX: real, invNormZ: real, d1: Vec, d2: Vec, p: Polarisation, b: Beta): real {
    Project(MolAxes(invNormX, invNormZ, d1, d2), p, b)
  }

  /** `rotate_beta` computes the general 27-term contraction in the frame of the molecule. */
  lemma RotateBetaIsFullContraction(invNormX: real, invNormZ: real, d1: Vec, d2: Vec, p: Polarisation, b: Beta)
    ensures RotateBeta(invNormX, invNormZ, d1, d2, p, b) == FullContraction(MolAxes(invNormX, invNormZ, d1, d2), p, b)
  {
    ProjectIsFullContraction(MolAxes(invNormX, invNormZ, d1, d2), p, b);
  }

  /** Every term holds the y axis an even number of times, so the projection does not
      depend on the handedness of the frame (x cross z is minus the right-handed y). */
  lemma ProjectMirrorInvariant(a: Axes, p: Polarisation, b: Beta)
    ensures Project(Axes(a.x, Neg(a.y), a.z), p, b) == Project(a, p, b)
  {
  }

  /** The 28-term expansion written out in `square_beta`. */
  function ExpandedSquare(t: Terms): real {
    var c200, c211, c222, c002, c020, c112, c121 := t.t200, t.t211, t.t222, t.t002, t.t020, t.t112, t.t121;
    c002*c002 + 2.0*c002*c020 + c020*c020 + 2.0*c002*c112 + 2.0*c020*c112 + c112*c112 + 2.0*c002*c121 +
    2.0*c020*c121 + 2.0*c112*c121 + c121*c121 + 2.0*c002*c200 + 2.0*c020*c200 + 2.0*c112*c200 + 2.0*c121*c200 +
    c200*c200 + 2.0*c002*c211 + 2.0*c020*c211 + 2.0*c112*c211 + 2.0*c121*c211 + 2.0*c200*c211 + c211*c211 +
    2.0*c002*c222 + 2.0*c020*c222 + 2.0*c112*c222 + 2.0*c121*c222 + 2.0*c200*c222 + 2.0*c211*c222 + c222*c222
  }

  /** The result of `square_beta`: `*beta_l` and `*beta_sq`. */
  datatype BetaSquare = BetaSquare(value: real, square: real)

  /** The frame of `square_beta`: x = unit(xv2 - xv3), z = unit(xv2 + xv3 - 2 xv1), y = x cross z. */
  function SquareBetaAxes(invsqrt: real -> real, xv1: Vec, xv2: Vec, xv3: Vec): Axes {
    var x := Unit(invsqrt, Sub(xv2, xv3));
    var z := Unit(invsqrt, Add(Add(Scale(-2.0, xv1), xv2), xv3));
    Axes(x, Cross(x, z), z)
  }

  /** `square_beta`: the projection and its square; the 28-term expression is exactly
      the square of the seven-term sum. */
  function SquareBeta(invsqrt: real -> real, xv1: Vec, xv2: Vec, xv3: Vec, p: Polarisation, b: Beta): (r: BetaSquare)
    ensures r.square == r.value * r.value
    ensures r.value == Project(SquareBetaAxes(invsqrt, xv1, xv2, xv3), p, b)
  {
    var t := ProjectedTerms(SquareBetaAxes(invsqrt, xv1, xv2, xv3), p, b);
    SquareOfSum(t);
    BetaSquare(SumTerms(t), ExpandedSquare(t))
  }

  lemma SquareOfSum(t: Terms)
    ensures ExpandedSquare(t) == SumTerms(t) * SumTerms(t)
  {
  }

  /** `mol_unitvectors` as written: u2 = unit(xv2 - xv3), u1 = unit(2 xv1 - xv2 - xv2),
      u3 = u1 cross u2. Returned as Axes(u1, u2, u3). */
  function MolUnitVectors(invsqrt: real -> real, xv1: Vec, xv2: Vec, xv3: Vec): Axes {
    var u2 := Unit(invsqrt, Sub(xv2, xv3));
    var u1 := Unit(invsqrt, Sub(Sub(Scale(2.0, xv1), xv2), xv2));
    Axes(u1, u2, Cross(u1, u2))
  }

  /** u3 is orthogonal to u1 and u2, whatever the input. */
  lemma MolUnitVectorsThirdOrthogonal(invsqrt: real -> real, xv1: Vec, xv2: Vec, xv3: Vec)
    ensures var u := MolUnitVectors(invsqrt, xv1, xv2, xv3);
      Dot(u.z, u.x) == 0.0 && Dot(u.z, u.y) == 0.0
  {
    var u := MolUnitVectors(invsqrt, xv1, xv2, xv3);
    CrossOrthogonal(u.x, u.y);
  }

  /** `mol_unitvectors` with the bisector it evidently intends: u1 = unit(2 xv1 - xv2 - xv3). */
  function MolUnitVectorsBisector(invsqrt: real -> real, xv1: Vec, xv2: Vec, xv3: Vec): Axes {
    var u2 := Unit(invsqrt, Sub(xv2, xv3));
    var u1 := Unit(invsqrt, Sub(Sub(Scale(2.0, xv1), xv2), xv3));
    Axes(u1, u2, Cross(u1, u2))
  }

  /** With the bisector, the three vectors are mutually orthogonal whenever the two
      bonds xv2 - xv1 and xv3 - xv1 have equal length, as in a water molecule. */
  lemma MolUnitVectorsBisectorOrthogonal(invsqrt: real -> real, xv1: Vec, xv2: Vec, xv3: Vec)
    ensures var u := MolUnitVectorsBisector(invsqrt, xv1, xv2, xv3);
      Dot(u.z, u.x) == 0.0 && Dot(u.z, u.y) == 0.0 &&
      (Norm2(Sub(xv2, xv1)) == Norm2(Sub(xv3, xv1)) ==> Dot(u.x, u.y) == 0.0)
  {
    var u := MolUnitVectorsBisector(invsqrt, xv1, xv2, xv3);
    CrossOrthogonal(u.x, u.y);
    BisectorOrthogonal(invsqrt, xv1, xv2, xv3);
  }

  lemma BisectorOrthogonal(invsqrt: real -> real, xv1: Vec, xv2: Vec, xv3: Vec)
    ensures Norm2(Sub(xv2, xv1)) == Norm2(Sub(xv3, xv1)) ==> Dot(Unit(invsqrt, Sub(Sub(Scale(2.0, xv1), xv2), xv3)), Unit(invsqrt, Sub(xv2, xv3))) == 0.0
  {
    var s := Sub(Sub(Scale(2.0, xv1), xv2), xv3);
    var d := Sub(xv2, xv3);
    assert Dot(s, d) == Norm2(Sub(xv3, xv1)) - Norm2(Sub(xv2, xv1));
    var f, g := invsqrt(Norm2(s)), invsqrt(Norm2(d));
    assert Dot(Scale(f, s), Scale(g, d)) == f * g * Dot(s, d);
  }

  /** Scaling either factor of a dot product scales the product. */
  lemma DotScale(f: real, v: Vec, g: real, w: Vec)
    ensures Dot(Scale(f, v), Scale(g, w)) == f * g * Dot(v, w)
  {
  }

  /** For equal bonds p = xv2 - xv1 and q = xv3 - xv1, the unnormalised u1 of
      `mol_unitvectors`, 2 xv1 - 2 xv2 = -2p, meets the unnormalised u2, p - q, with dot
      product -|p - q|^2. */
  lemma DoubledSubtractionDefect(xv1: Vec, xv2: Vec, xv3: Vec)
    requires Norm2(Sub(xv2, xv1)) == Norm2(Sub(xv3, xv1))
    ensures Dot(Sub(Sub(Scale(2.0, xv1), xv2), xv2), Sub(xv2, xv3)) == -Norm2(Sub(xv2, xv3))
  {
    var s := Sub(Sub(Scale(2.0, xv1), xv2), xv2);
    var d := Sub(xv2, xv3);
    var p, q := Sub(xv2, xv1), Sub(xv3, xv1);
    assert s == Scale(-2.0, p);
    assert d == Sub(p, q);
    assert Dot(s, d) == -2.0 * (Norm2(p) - Dot(p, q));
    assert Norm2(d) == Norm2(p) - 2.0 * Dot(p, q) + Norm2(q);
  }

  /** The dot product of u1 and u2 of `mol_unitvectors` as written, in terms of the
      unnormalised vectors and the two normalisation factors. */
  lemma MolUnitVectorsDot(invsqrt: real -> real, xv1: Vec, xv2: Vec, xv3: Vec)
    ensures var u := MolUnitVectors(invsqrt, xv1, xv2, xv3);
      var s := Sub(Sub(Scale(2.0, xv1), xv2), xv2);
      var d := Sub(xv2, xv3);
      Dot(u.x, u.y) == invsqrt(Norm2(s)) * invsqrt(Norm2(d)) * Dot(s, d)
  {
    var s := Sub(Sub(Scale(2.0, xv1), xv2), xv2);
    var d := Sub(xv2, xv3);
    DotScale(invsqrt(Norm2(s)), s, invsqrt(Norm2(d)), d);
  }

  /** In a molecule whose two bonds xv2 - xv1 and xv3 - xv1 have equal length, the dot
      product of u1 and u2 of `mol_unitvectors` as written is minus the squared H-H
      distance times the two normalisation factors. */
  lemma MolUnitVectorsSkew(invsqrt: real -> real, xv1: Vec, xv2: Vec, xv3: Vec)
    requires Norm2(Sub(xv2, xv1)) == Norm2(Sub(xv3, xv1))
    ensures var u := MolUnitVectors(invsqrt, xv1, xv2, xv3);
      Dot(u.x, u.y) == invsqrt(Norm2(Sub(Sub(Scale(2.0, xv1), xv2), xv2))) * invsqrt(Norm2(Sub(xv2, xv3))) * -Norm2(Sub(xv2, xv3))
  {
    MolUnitVectorsDot(invsqrt, xv1, xv2, xv3);
    DoubledSubtractionDefect(xv1, xv2, xv3);
  }

  /** Hence, for hydrogens at a non-zero distance and non-zero normalisation factors, u1 and
      u2 of `mol_unitvectors` as written are not orthogonal although the bonds are equal. */
  lemma MolUnitVectorsNotOrthogonal(invsqrt: real -> real, xv1: Vec, xv2: Vec, xv3: Vec)
    requires Norm2(Sub(xv2, xv1)) == Norm2(Sub(xv3, xv1)) && Norm2(Sub(xv2, xv3)) != 0.0
    requires invsqrt(Norm2(Sub(Sub(Scale(2.0, xv1), xv2), xv2))) != 0.0
    requires invsqrt(Norm2(Sub(xv2, xv3))) != 0.0
    ensures var u := MolUnitVectors(invsqrt, xv1, xv2, xv3);
      Dot(u.x, u.y) != 0.0
  {
    var d := Sub(xv2, xv3);
    var f := invsqrt(Norm2(Sub(Sub(Scale(2.0, xv1), xv2), xv2)));
    var g := invsqrt(Norm2(d));
    MolUnitVectorsSkew(invsqrt, xv1, xv2, xv3);
    NonZeroProduct(f, g);
    NonZeroProduct(f * g, -Norm2(d));
  }

  lemma NonZeroProduct(a: real, b: real)
    requires a != 0.0 && b != 0.0
    ensures a * b != 0.0
  {
  }
}
