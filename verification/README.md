# Nonlinear optical scattering (`gmx nonlinearopticalscattering`) in Dafny

This project models the core of the GROMACS analysis tool that computes second-harmonic
(hyper-Rayleigh) scattering intensities of water from a trajectory. The C source is
`src/gromacs/gmxana/gmx_nonlinearopticalscattering.c`.

- **Selection** (`selection.dfy`): `dipole_atom2molindex`, an imperative method on an
  `array<int>`. It compacts an atom selection in place into molecule numbers. Selections that
  are not whole molecules are rejected as error values.
- **Hyperpol** (`hyperpol.dfy`):
  - the seven-component C2v tensor `beta_mol` and its Kleinmann-symmetric variant;
  - the one-hot beam polarisations;
  - `rotate_beta`, `square_beta` and `mol_unitvectors`.
- **Setup** (`setup.dfy`): what the run fixes before its first frame. That is the cutoff
  `rmax2`, the half-bin histogram (`nbin`, `invhbinw`), the q grid and its direction, the
  fading width, `invsize0`, and the frame normalisation `norm_x`/`norm_z`.
- **Dispatch** (`dispatch.dfy`): the chain of tests that picks one of seven trajectory loops,
  or the fatal "combination unavailable" error.
- **Pairs, Kernels, PairLoops** (`pairs.dfy`, `kernels.dfy`, `pairloops.dfy`):
  - the `i < j` double loop over the molecules of a group;
  - what an accepted pair adds in each of the five pair loops;
  - the half-bin tally.

  The loops are methods over arrays, proved against sums defined as functions.
- **Groups** (`groups.dfy`): the per-group bodies of the seven loops, as methods on
  `beta_lab`, `count[g]`, `temp_method`, `cos_q`/`sin_q` and the spectrum rows.
- **Frames** (`frames.dfy`):
  - what one frame adds per group to the total, coherent and incoherent accumulators,
    and the split `total = coherent + incoherent` these increments keep;
  - the averaging over frames.
- **Accumulation** (`accumulator.dfy`): the `Accumulator` class. It holds the arrays the
  set-up allocates (`count[g]`, `s_method[g]`, `s_method_coh[g]`, the single-q arrays and
  `beta_lab`). Its methods perform one frame of each loop and the final averaging.
- **Radial** (`radial.dfy`): after the last frame, the shell volumes and g(r) assembled from
  the half-bin counts, and the sine transform of g(r) into `s_method_g_r`.

The transcendental functions (`sqrt`, `gmx_invsqrt`, `sin`, `cos`, `exp`), the
minimum-image displacement `pbc_dx` and `max_cutoff2` are fields of a `Numerics.Env` value:
uninterpreted total functions. Only one property is assumed of them, as a precondition where
it is needed (`SqrtSound`): `sqrt` is a non-negative square root. Reals are exact. A division
whose divisor can be zero goes through `Numerics.Quot`, which yields 0 there.

The fatal arm at line 659 lists sumexp with a non-zero `fade` among the unavailable combinations, but the arms at lines 568 and 620 catch every sumexp run before it, whatever `fade` is. That disjunct is never reached: sumexp runs its loop and ignores `-fade`, whose help text (lines 1148-1150) describes fading for the cosmo method only. The model does the same (`Dispatch.SumexpIgnoresFade`).

The plain modsumexp loop (lines 253-311) never increments `count[g]`; the only increments are at lines 352, 428, 490 and 550. The g(r) block at line 675 still runs for every modsumexp run, so after the plain loop it reads an empty histogram (`Accumulation.PlainModsumexpKeepsNoHistogram`, `Radial.RdfOfEmptyHistogram`).

The model follows the code as written, including the defects listed under "## Findings".
Each defect is modelled twice: once as written, which the `Accumulator` and `Dispatch` use,
and once corrected, with the intended property proved about the corrected definition.

## Model

| member | source | states |
|---|---|---|
| Selection.AtomToMolIndex | src/gromacs/gmxana/gmx_nonlinearopticalscattering.c:1069-1099 | When the atom selection index[0..n) is a sequence of whole molecules, it returns their count nmol ≤ n and leaves their molecule numbers in index[0..nmol), with the rest of the array untouched. Otherwise it returns the error the first offending position raises: an atom that starts no molecule, or a molecule only partly selected. |
| Selection.FindMolecule | src/gromacs/gmxana/gmx_nonlinearopticalscattering.c:1077-1081 | The search returns the first molecule whose first atom is the given atom. It returns `mols->nr` exactly when no molecule starts at that atom. |
| Selection.MatchAtoms | src/gromacs/gmxana/gmx_nonlinearopticalscattering.c:1086-1093 | The inner loop accepts exactly when the selection from position i on lists every atom of molecule m, in order and within bounds. It then moves past them. |
| Selection.FirstMolecule | src/gromacs/gmxana/gmx_nonlinearopticalscattering.c:1077-1081 | The linear search's result is in range, starts at the atom when it is a real molecule, and no earlier molecule starts at that atom. |
| Selection.MoleculeAtoms | src/gromacs/gmxana/gmx_nonlinearopticalscattering.c:1086 | Molecule m owns the consecutive atoms `mols->index[m]` .. `mols->index[m+1] - 1`, at least one. |
| Selection.StartsIncrease | src/gromacs/gmxana/gmx_nonlinearopticalscattering.c:1086 | In a molecule block where every molecule has an atom, the first atoms strictly increase. |
| Selection.CompactRoundTrip | src/gromacs/gmxana/gmx_nonlinearopticalscattering.c:1069-1099 | Compacting the atoms of any list of molecules gives the list back. Compaction yields a given molecule list exactly when the selection is the atoms of those molecules. |
| Selection.CompactFromExpands | src/gromacs/gmxana/gmx_nonlinearopticalscattering.c:1075-1096 | Whatever compaction accepts are valid molecule numbers whose atoms are exactly the selection. |
| Selection.CompactFromOfExpansion | src/gromacs/gmxana/gmx_nonlinearopticalscattering.c:1075-1096 | A selection made of whole molecules is always accepted, with those molecules as the result. |
| Selection.CompactRejectsOnlyPartialMolecules | src/gromacs/gmxana/gmx_nonlinearopticalscattering.c:1082-1091 | A rejected selection is not the atoms of any list of molecules. |
| Selection.CompactFromNotFirstAtom | src/gromacs/gmxana/gmx_nonlinearopticalscattering.c:1082-1085 | The position the first fatal error reports lies in the selection and holds an atom that is the first atom of no molecule. |
| Hyperpol.MolecularBeta | src/gromacs/gmxana/gmx_nonlinearopticalscattering.c:179-191 | The tensor components are zzz 31.6, zxx 5.7 and zyy 10.9. The components xxz, xzx, yyz and yzy equal zxx and zyy exactly under Kleinmann symmetry; otherwise they are zero. |
| Hyperpol.OneHot | src/gromacs/gmxana/gmx_nonlinearopticalscattering.c:211-221 | A polarisation vector is the lab axis p: coordinate p is 1 and the others are 0. |
| Hyperpol.ProjectOntoAxis | src/gromacs/gmxana/gmx_nonlinearopticalscattering.c:217-221 | Projecting a molecular axis onto polarisation p picks out its p-th lab coordinate. |
| Hyperpol.MolAxes | src/gromacs/gmxana/gmx_nonlinearopticalscattering.c:1032-1036 | The y axis of `rotate_beta` is orthogonal to x and z. x and z are orthogonal whenever the two bond vectors have equal length. |
| Hyperpol.RotateBetaIsFullContraction | src/gromacs/gmxana/gmx_nonlinearopticalscattering.c:1039-1065 | The seven-term sum of `rotate_beta` equals the general 27-term contraction over i, j, k of the commented-out triple loop. |
| Hyperpol.ProjectIsFullContraction | src/gromacs/gmxana/gmx_nonlinearopticalscattering.c:1038-1045 | The seven non-zero C2v components carry the whole contraction of the tensor with the three polarisations. |
| Hyperpol.ProjectMirrorInvariant | src/gromacs/gmxana/gmx_nonlinearopticalscattering.c:1036-1045 | Reversing the y axis (the order of the cross product) leaves the projected hyperpolarizability unchanged. |
| Hyperpol.SquareBeta | src/gromacs/gmxana/gmx_nonlinearopticalscattering.c:987-1016 | `*beta_sq` is the square of `*beta_l`, and `*beta_l` is the projection in `square_beta`'s own frame (bisector z, y = x × z). |
| Hyperpol.SquareOfSum | src/gromacs/gmxana/gmx_nonlinearopticalscattering.c:1008-1013 | The 28-term expansion written out for `*beta_sq` is the square of the seven-term sum. |
| Hyperpol.MolUnitVectorsThirdOrthogonal | src/gromacs/gmxana/gmx_nonlinearopticalscattering.c:974-984 | u3 = u1 × u2 is orthogonal to u1 and u2 for every input. |
| Hyperpol.MolUnitVectorsDot | src/gromacs/gmxana/gmx_nonlinearopticalscattering.c:976-981 | u1·u2 as written equals the two normalisation factors times (2·xv1 − 2·xv2)·(xv2 − xv3). |
| Hyperpol.MolUnitVectorsSkew | src/gromacs/gmxana/gmx_nonlinearopticalscattering.c:978-980 | For equal bond lengths, u1·u2 as written is minus the squared H–H distance times the two normalisation factors. |
| Hyperpol.MolUnitVectorsNotOrthogonal | src/gromacs/gmxana/gmx_nonlinearopticalscattering.c:978-980 | For equal bonds, distinct hydrogens and non-zero normalisation factors, u1 and u2 as written are not orthogonal. |
| Hyperpol.MolUnitVectorsBisectorOrthogonal | src/gromacs/gmxana/gmx_nonlinearopticalscattering.c:974-984 | With the bisector 2·xv1 − xv2 − xv3, u3 is orthogonal to u1 and u2, and u1 ⟂ u2 whenever the two bonds have equal length. |
| Setup.Truncate | src/gromacs/gmxana/gmx_nonlinearopticalscattering.c:148 | C's `(int)` conversion truncates toward zero: the floor for non-negative values, minus the floor of the magnitude otherwise. |
| Setup.CutoffSquared | src/gromacs/gmxana/gmx_nonlinearopticalscattering.c:119-128 | Without periodic boundaries the cutoff is the square of three times the longest diagonal box edge, so it is never negative. |
| Setup.MakeSetup | src/gromacs/gmxana/gmx_nonlinearopticalscattering.c:119-150 | The set-up takes `rmax2` from the cutoff and `rmax` as its root. It takes `nbin` as `(int)(sqrt(rmax2)*2/binwidth)` with `invhbinw·binwidth = 2`, and `invsize0·isize0 = 1`. It also takes the fading width, the unit q direction, the polarisations and the tensor of the options. |
| Setup.MakeSetupHistogramReady | src/gromacs/gmxana/gmx_nonlinearopticalscattering.c:145-150 | A positive bin width and a non-negative cutoff give a set-up whose half-bin histogram is well formed. |
| Setup.HalfBinInRange | src/gromacs/gmxana/gmx_nonlinearopticalscattering.c:148-150 | Every squared distance within the cutoff gets a half-bin index in 0..nbin, so `count[g][(int)(r_dist*invhbinw)]` stays inside the `nbin+1` entries allocated at line 196. |
| Setup.QDirectionIsUnit | src/gromacs/gmxana/gmx_nonlinearopticalscattering.c:206-209 | For a non-zero (kx, ky, kz), `arr_qvec` is a unit vector. |
| Dispatch.DispatchRunsAtMostOneLoop | src/gromacs/gmxana/gmx_nonlinearopticalscattering.c:253-662 | The consecutive tests run at most one trajectory loop, and it is the loop meant for the method, spectrum and fading combination. |
| Dispatch.DispatchFatal | src/gromacs/gmxana/gmx_nonlinearopticalscattering.c:659-662 | The fatal error is raised exactly for cosmo with spectrum and fading, and for modsumexp with fading. |
| Dispatch.SumexpIgnoresFade | src/gromacs/gmxana/gmx_nonlinearopticalscattering.c:568-620 | The sumexp method runs its loop whatever the fading distance, and never fails. |
| Dispatch.NoLoopCombinations | src/gromacs/gmxana/gmx_nonlinearopticalscattering.c:659-662 | Cosmo with spectrum and fading runs nothing and fails. Modsumexp without spectrum runs nothing, and fails only with fading. |
| Dispatch.FadedModsumexpRunsThenFails | src/gromacs/gmxana/gmx_nonlinearopticalscattering.c:313-662 | Modsumexp with spectrum and fading runs its whole trajectory loop and then reaches the fatal error. |
| Dispatch.DispatchCorrected | src/gromacs/gmxana/gmx_nonlinearopticalscattering.c:659-662 | With the modsumexp arm restricted to no spectrum, the error is raised exactly for the fading combinations that have no loop. |
| Dispatch.DispatchCorrectedFatalIffNoLoop | src/gromacs/gmxana/gmx_nonlinearopticalscattering.c:659-662 | The corrected chain runs the same loops as the original, and fails exactly when fading is on and no loop ran. |
| Pairs.AllPairsMembers | src/gromacs/gmxana/gmx_nonlinearopticalscattering.c:280-285 | The double loop visits exactly the pairs i < j < isize0. |
| Pairs.AllPairsOnce | src/gromacs/gmxana/gmx_nonlinearopticalscattering.c:280-285 | It visits them in strictly increasing lexicographic order, so each pair is visited once. |
| Pairs.AllPairsCount | src/gromacs/gmxana/gmx_nonlinearopticalscattering.c:280-285 | It visits isize0·(isize0 − 1)/2 pairs. |
| Pairs.PairsBeforeCount | src/gromacs/gmxana/gmx_nonlinearopticalscattering.c:280-285 | The first k rows hold k·(2·isize0 − k − 1)/2 pairs. |
| Pairs.AllPairsStopEarly | src/gromacs/gmxana/gmx_nonlinearopticalscattering.c:280 | Stopping the outer loop at `i < isize0 - 1.0` loses no pair. |
| Kernels.FadeWeight | src/gromacs/gmxana/gmx_nonlinearopticalscattering.c:551-558 | The fading window of the single-q cosmo loop is 1 up to `fade` and cos²((r − fade)·inv_width) beyond it, and is never negative. |
| Kernels.ModFadedWindowInverted | src/gromacs/gmxana/gmx_nonlinearopticalscattering.c:353-372 | The faded modsumexp loop damps pairs closer than `fade` and leaves farther pairs unweighted, the opposite of the window `FadeWeight` applies elsewhere. |
| Kernels.PairBinInRange | src/gromacs/gmxana/gmx_nonlinearopticalscattering.c:349-352 | A pair is counted in one of the nbin + 1 half bins exactly when it passes the cutoff test. |
| Kernels.HistogramConservesPairs | src/gromacs/gmxana/gmx_nonlinearopticalscattering.c:425-428 | Summed over all half bins, the histogram holds exactly the number of pairs that pass the cutoff. |
| Kernels.PairSpectrumConcat | src/gromacs/gmxana/gmx_nonlinearopticalscattering.c:289-297 | The pair sum accumulated in `temp_method` over two runs of pairs is the sum of the two partial sums. |
| Kernels.TallyConcat | src/gromacs/gmxana/gmx_nonlinearopticalscattering.c:425-428 | A half bin's count over two runs of pairs is the sum of the two counts. |
| Kernels.SumSquares | src/gromacs/gmxana/gmx_nonlinearopticalscattering.c:271-279 | `beta_lab_sq_t`, a sum of squares, is never negative. |
| PairLoops.PairLoop | src/gromacs/gmxana/gmx_nonlinearopticalscattering.c:280-300 | After the double loop, the accumulator holds its start plus the contributions of every accepted pair. `count[g]` holds its start plus, for each half bin, the number of pairs counted there. |
| PairLoops.PairRow | src/gromacs/gmxana/gmx_nonlinearopticalscattering.c:285-299 | One row of the inner loop adds exactly the pairs (i, j) with i < j < isize0. |
| PairLoops.PairStep | src/gromacs/gmxana/gmx_nonlinearopticalscattering.c:287-298 | One pair adds its contribution only when it passes the cutoff, and adds one to its half bin only in the loops that count. |
| PairLoops.CountedSingle | src/gromacs/gmxana/gmx_nonlinearopticalscattering.c:425-428 | A single pair is counted once, in its own half bin, and only by the loops that keep the histogram. The first modsumexp loop keeps none. |
| Groups.ComputeBetas | src/gromacs/gmxana/gmx_nonlinearopticalscattering.c:271-279 | `beta_lab[i]` becomes `rotate_beta` of molecule i, and `beta_lab_sq_t` grows by the sum of their squares. |
| Groups.SpectralGroup | src/gromacs/gmxana/gmx_nonlinearopticalscattering.c:268-306 | One group of the modsumexp or cosmo spectrum loop adds the group's increment to `s_method[g]` and `s_method_coh[g]`, and its half-bin counts to `count[g]`. |
| Groups.SpectralFromTemp | src/gromacs/gmxana/gmx_nonlinearopticalscattering.c:301-306 | The closing updates computed from `temp_method` and `beta_lab_sq_t` are the group's spectral increment. |
| Groups.AddSpectral | src/gromacs/gmxana/gmx_nonlinearopticalscattering.c:302-306 | The closing loop over q adds the total and coherent parts to the two rows, entry by entry. |
| Groups.SumexpGroup | src/gromacs/gmxana/gmx_nonlinearopticalscattering.c:582-615 | One group of the sumexp spectrum loop adds \|Σ β e^{iq·x}\|²/isize0 to `s_method[g]`, and that minus the self term to `s_method_coh[g]`. |
| Groups.PhaseSums | src/gromacs/gmxana/gmx_nonlinearopticalscattering.c:584-602 | `cos_q[qq]` and `sin_q[qq]` become the β-weighted cosine and sine sums over the group's molecules at every q. |
| Groups.AddSumexp | src/gromacs/gmxana/gmx_nonlinearopticalscattering.c:608-612 | The closing loop adds the intensity and its coherent part to the two rows. |
| Groups.ScalarPhaseSums | src/gromacs/gmxana/gmx_nonlinearopticalscattering.c:636-650 | `cos_c` and `sin_c` are the phase sums at `minq`. `beta_lab_sq_t` is the sum of squares of the `beta_lab` array as found, which this loop never writes. |
| Groups.CosmoScalarPairs | src/gromacs/gmxana/gmx_nonlinearopticalscattering.c:466-495 | One group of the single-q cosmo loop fills `beta_lab`, carries `beta_lab_sq_t` and `s_method_coh_temp` on by the group's squares and pair sum, and counts its pairs in `count[g]`. |
| Groups.CosmoScalarFadedPairs | src/gromacs/gmxana/gmx_nonlinearopticalscattering.c:519-562 | One group of the faded single-q cosmo loop adds every accepted pair's faded contribution to `s_method_nospectrum[g]` and counts its pairs. |
| Groups.RowGroup | src/gromacs/gmxana/gmx_nonlinearopticalscattering.c:267-307 | The group body of each spectrum loop adds that loop's increment to the group's rows and its counts to `count[g]`. |
| Frames.SpectralIncrementSplits | src/gromacs/gmxana/gmx_nonlinearopticalscattering.c:301-305 | In every spectrum loop without sumexp, total = coherent + incoherent at each q. The incoherent part is `beta_lab_sq_t·invsize0` and never negative. |
| Frames.PlainEntrySplits | src/gromacs/gmxana/gmx_nonlinearopticalscattering.c:376-381 | For modsumexp, `s_method` minus `s_method_coh` at each q is the self term `beta_lab_sq_t·invsize0`. |
| Frames.CosmoEntrySplits | src/gromacs/gmxana/gmx_nonlinearopticalscattering.c:439-444 | For cosmo with spectrum, the same holds after the division by `arr_q[qq]`. |
| Frames.SumexpIncrementSplits | src/gromacs/gmxana/gmx_nonlinearopticalscattering.c:603-611 | For the sumexp spectrum, total = coherent + incoherent at each q, and the total, an intensity, is never negative. |
| Frames.GroupIntensity | src/gromacs/gmxana/gmx_nonlinearopticalscattering.c:610 | `sqr(cos_q) + sqr(sin_q)` is never negative. |
| Frames.ScalarIncrement | src/gromacs/gmxana/gmx_nonlinearopticalscattering.c:496-498 | The single-q updates keep total = coherent + incoherent. |
| Frames.CosmoScalarIncrement | src/gromacs/gmxana/gmx_nonlinearopticalscattering.c:464-498 | As written, group g's single-q increment splits, and its incoherent part is the squares of groups 0..g, not of g alone. |
| Frames.CosmoScalarCarriesEarlierGroups | src/gromacs/gmxana/gmx_nonlinearopticalscattering.c:464-465 | As written, group g's incoherent part is the corrected one plus the squares of all earlier groups of the frame. |
| Frames.CosmoScalarFirstGroup | src/gromacs/gmxana/gmx_nonlinearopticalscattering.c:464-498 | For the first group the as-written and the corrected increments agree. |
| Frames.CosmoScalarTwoGroups | src/gromacs/gmxana/gmx_nonlinearopticalscattering.c:464-497 | With two groups, the frame's `s_method_incoh` counts group 0 twice in the single-q cosmo loop, while the spectrum loop counts each group once. |
| Frames.CosmoScalarIncrementCorrected | src/gromacs/gmxana/gmx_nonlinearopticalscattering.c:491-498 | With the sums cleared per group, the increment splits, with the group's own squares as its incoherent part. |
| Frames.SumexpScalarIncrement | src/gromacs/gmxana/gmx_nonlinearopticalscattering.c:645-653 | As written, the single-q sumexp increment splits, but its incoherent part squares the stale `beta_lab`, not the group's hyperpolarizabilities. |
| Frames.SumexpScalarStaleSquares | src/gromacs/gmxana/gmx_nonlinearopticalscattering.c:646 | With `beta_lab` as allocated (zero), the as-written loop reports no incoherent part and a coherent part equal to the total. |
| Frames.SumexpScalarIncrementCorrected | src/gromacs/gmxana/gmx_nonlinearopticalscattering.c:645-653 | Squaring `beta_lab_t` instead, the increment splits with the group's own squares as incoherent part. |
| Frames.SumexpScalarMatchesSpectrum | src/gromacs/gmxana/gmx_nonlinearopticalscattering.c:645-653 | The corrected single-q sumexp increment equals the first q point (`arr_q[0] = minq`) of the sumexp spectrum, in all three parts. |
| Frames.AveragedIncoherentPower | src/gromacs/gmxana/gmx_nonlinearopticalscattering.c:729-731 | As written, the averaging loop divides `s_method_incoh` by nframes^ng. |
| Frames.AveragedIncoherentTwoGroups | src/gromacs/gmxana/gmx_nonlinearopticalscattering.c:731 | With two groups and two frames it becomes a quarter of the accumulated sum, not a half. |
| Frames.AveragedIncoherentCorrected | src/gromacs/gmxana/gmx_nonlinearopticalscattering.c:731 | Dividing once makes the average times nframes the accumulated sum. This agrees with the as-written loop for a single group. |
| Frames.GroupIncrementSplits | src/gromacs/gmxana/gmx_nonlinearopticalscattering.c:504-567 | Every loop's increment splits into coherent plus incoherent, except the faded single-q cosmo loop, which adds nothing to the coherent or incoherent accumulators. |
| Frames.RowIncrementSplits | src/gromacs/gmxana/gmx_nonlinearopticalscattering.c:301-305 | Every spectrum loop's increment splits, with incoherent part `beta_lab_sq_t·invsize0`. |
| Frames.FrameIncoherentRows | src/gromacs/gmxana/gmx_nonlinearopticalscattering.c:267-307 | In a spectrum loop a frame adds, once, the squares of all its groups over isize0 to `s_method_incoh`. |
| Frames.FrameIncoherentCosmoScalar | src/gromacs/gmxana/gmx_nonlinearopticalscattering.c:464-497 | In the single-q cosmo loop a frame adds, group after group, the running sum of squares carried since the frame started. |
| Frames.FrameIncoherentFaded | src/gromacs/gmxana/gmx_nonlinearopticalscattering.c:504-567 | The faded single-q cosmo loop never changes `s_method_incoh`. |
| Frames.FrameIncoherentSumexpScalar | src/gromacs/gmxana/gmx_nonlinearopticalscattering.c:634-654 | With `beta_lab` zero, the single-q sumexp loop adds nothing to `s_method_incoh`. |
| Accumulation.Accumulator.constructor | src/gromacs/gmxana/gmx_nonlinearopticalscattering.c:152-200 | The set-up allocates ng rows of nbin + 1 counts and of nbinq spectrum values, the single-q arrays and `beta_lab`, all zeroed, and all distinct arrays. |
| Accumulation.Accumulator.RowFrame | src/gromacs/gmxana/gmx_nonlinearopticalscattering.c:267-307 | After one frame of a spectrum loop, every `count[g]`, `s_method[g]` and `s_method_coh[g]` holds its old value plus the group's increment, and `s_method_incoh` grows by the frame's incoherent part. `beta_lab` holds the last group's values. |
| Accumulation.Accumulator.CosmoScalarFrame | src/gromacs/gmxana/gmx_nonlinearopticalscattering.c:464-499 | The same for the single-q cosmo loop, with the group increments carried over the frame as written. |
| Accumulation.Accumulator.CosmoScalarFadedFrame | src/gromacs/gmxana/gmx_nonlinearopticalscattering.c:518-563 | The same for the faded single-q cosmo loop, which changes only `count` and `s_method_nospectrum`. |
| Accumulation.Accumulator.SumexpScalarFrame | src/gromacs/gmxana/gmx_nonlinearopticalscattering.c:634-654 | The same for the single-q sumexp loop, which leaves `count` and `beta_lab` unchanged and squares `beta_lab` as found. |
| Accumulation.Accumulator.Average | src/gromacs/gmxana/gmx_nonlinearopticalscattering.c:729-780 | After the last frame, the spectra (or the single-q values) are divided by nframes. `s_method_incoh` is divided once per group. |
| Accumulation.PlainModsumexpKeepsNoHistogram | src/gromacs/gmxana/gmx_nonlinearopticalscattering.c:253-311 | A frame of the plain modsumexp loop leaves every `count[g]` unchanged: that loop bins no pair, unlike those at lines 352, 428, 490 and 550. |
| Accumulation.RowGroups | src/gromacs/gmxana/gmx_nonlinearopticalscattering.c:267-307 | The group loop of a spectrum loop changes each group's own rows only, by that group's increment. |
| Accumulation.CosmoScalarGroups | src/gromacs/gmxana/gmx_nonlinearopticalscattering.c:464-499 | The single-q cosmo group loop, with its sums cleared once per frame, leaves each entry at its old value plus the as-written increment. |
| Accumulation.CosmoScalarFadedGroups | src/gromacs/gmxana/gmx_nonlinearopticalscattering.c:518-563 | The faded single-q cosmo group loop adds each group's faded pair sum to its own entry. |
| Accumulation.SumexpScalarGroups | src/gromacs/gmxana/gmx_nonlinearopticalscattering.c:634-654 | The single-q sumexp group loop adds each group's as-written increment to its own entry. |
| Accumulation.CosmoScalarValues | src/gromacs/gmxana/gmx_nonlinearopticalscattering.c:496-498 | The three updates from the carried sums are the as-written increment of group g. |
| Accumulation.SumexpScalarValues | src/gromacs/gmxana/gmx_nonlinearopticalscattering.c:651-653 | The three updates from `cos_c`, `sin_c` and the stale squares are the as-written increment of group g. |
| Accumulation.AverageRows | src/gromacs/gmxana/gmx_nonlinearopticalscattering.c:729-742 | Every spectrum row is divided by nframes, and `s_method_incoh` by nframes once per group. |
| Accumulation.AverageSingles | src/gromacs/gmxana/gmx_nonlinearopticalscattering.c:763-770 | Every single-q entry is divided by nframes, and `s_method_incoh` by nframes once per group. |
| Accumulation.DivideRow | src/gromacs/gmxana/gmx_nonlinearopticalscattering.c:739-742 | Every entry of the row is divided by nframes. |
| Accumulation.Divided | src/gromacs/gmxana/gmx_nonlinearopticalscattering.c:734-735 | Each averaged entry times nframes gives back the accumulated sum, and one frame leaves the sums as they are. |
| Accumulation.NewTables | src/gromacs/gmxana/gmx_nonlinearopticalscattering.c:193-199 | The allocation loop gives ng zeroed rows per table, no two the same array. |
| Radial.InvShellVolumes | src/gromacs/gmxana/gmx_nonlinearopticalscattering.c:678-687 | `inv_segvol[i]` is 1 over the volume between the spheres of radius (i − 0.5)·binwidth (0 for i = 0) and (i + 0.5)·binwidth. |
| Radial.ShellVolumePositive | src/gromacs/gmxana/gmx_nonlinearopticalscattering.c:682-685 | Every shell has a positive volume, so `inv_segvol[i]·segvol = 1`. |
| Radial.ShellsFillSphere | src/gromacs/gmxana/gmx_nonlinearopticalscattering.c:679-687 | The first n shells together fill the sphere of radius (n − 0.5)·binwidth. |
| Radial.HalfBinsOfShell | src/gromacs/gmxana/gmx_nonlinearopticalscattering.c:697-707 | A pair lies in one of the half bins merged into g(r) bin i exactly when its distance lies in that bin's shell, the one `inv_segvol[i]` inverts. |
| Radial.RdfLengthCoversShells | src/gromacs/gmxana/gmx_nonlinearopticalscattering.c:695-696 | `nrdf` is at least (nbin+1)/2, so every bin of g(r) fits in `rdf[g]`. |
| Radial.RdfIdealGas | src/gromacs/gmxana/gmx_nonlinearopticalscattering.c:693-716 | A bin holding the ideal-gas number of pairs has a normalised g(r) of exactly 1, faded or not. |
| Radial.RdfOfEmptyHistogram | src/gromacs/gmxana/gmx_nonlinearopticalscattering.c:695-727 | With every half bin zero, as after a plain modsumexp run, each g(r) bin before `faderdf` reads a merged count of 0 and is 0, normalised or raw. |
| Radial.RdfRow | src/gromacs/gmxana/gmx_nonlinearopticalscattering.c:693-727 | `rdf[g][i]` is computed from `count[g][2i-1] + count[g][2i]` (or `count[g][0]` for i = 0). It is faded, normalised or raw as the options say, and is 1 from (nbin+1)/2 to `nrdf`. |
| Radial.RdfStructure | src/gromacs/gmxana/gmx_nonlinearopticalscattering.c:739-757 | `s_method_g_r[g][qq]` is the (faded) sine transform of g(r) − 1 at `arr_q[qq]`, scaled by 4π·isize0·invvol, plus 1. |
| Radial.TransformAt | src/gromacs/gmxana/gmx_nonlinearopticalscattering.c:743-756 | The loop over bins at one q leaves that entry at the transform and no other entry changed. |
| Radial.StructureOfIdealGas | src/gromacs/gmxana/gmx_nonlinearopticalscattering.c:743-756 | An ideal gas, with g(r) = 1 in every bin, has S(q) = 1 at every q. |

## Left out

- Reading the topology, the index groups and the trajectory (`read_first_x`, `read_next_x`) is left out. So are the do-while over frames, `gmx_rmpbc`, and the command-line and XVG output code (lines 782 on). Frames are handed to the accumulator's methods one at a time, as sequences of molecules per group (see the next line for how the code reads groups).
- `invvol_sum`, `nframes` and `invvol = invvol_sum/nframes` are left to the caller. The g(r) code takes `nframes` and `invvol` as parameters.
- The transcendental functions, `pbc_dx`, `set_pbc`, `max_cutoff2` and `det` are represented by uninterpreted functions in `Numerics.Env`. Only `sqrt` is assumed to be a non-negative square root.
- Floating-point rounding and `real` precision are not modelled; reals are exact. Division by zero, which yields inf or NaN in IEEE arithmetic, yields 0 through `Numerics.Quot`.
- `analytical_integral` (lines 225-243) is computed but never used in the core, and is not part of this model.
- `gmx_fatal` and the `printf`/`fprintf` diagnostics are left out. The fatal errors become error values (`Selection.Result`, `Dispatch.Plan.fatal`).
- The `debug` output, `beta_lab_sq_try`, and the `x_i1` copy of first-atom positions are left out. The model reads positions from the molecules directly.
- `square_beta` and `mol_unitvectors` are never called by the tool. They are modelled as functions on their own.
- Radial.RdfStructure takes g(r) as a sequence of values rather than the `rdf[g]` array, and requires `nbin >= 0`, which the set-up guarantees for a non-negative cutoff and positive bin width.
- The dispatch chain is modelled as a function that returns the loops to run. The seven loops are separate methods of the accumulator rather than branches of one routine.
- `temp_method`, `cos_q` and `sin_q` are allocated fresh and zeroed inside the group methods, as `snew` does, and `s_method_g_r[g]` inside `Radial.RdfStructure`. The memory that the repeated `snew` calls leak is not modelled.
- Accumulation.Accumulator.RowFrame, like its siblings `CosmoScalarFrame`, `CosmoScalarFadedFrame` and `SumexpScalarFrame`, takes each group as exactly `isize0` molecules. The code reads `isize0 = isize[0]` entries of `molindex[g]` in every group (lines 102 and 271-273, and the same lookup in the other loops) whatever `isize[g]` is, and only group 0 is converted from atom to molecule numbers (line 1207). With `-ng` of 2 or more, groups g ≥ 1 index `mols->index` with atom numbers and are read for `isize[0]` entries. The model does not capture either: its groups are the molecules the code would read if every group were converted and had `isize[0]` entries.
- Hyperpol.OneHot, like `Hyperpol.Polarisations` and `Setup.MakeSetup`, requires the polarisation indices `-pout`, `-pin1` and `-pin2` to be below 3. The code indexes `pol_out`, `pol_in1` and `pol_in2` with them unchecked (lines 211-221), which writes out of bounds for other values; those runs are excluded.

## Findings

| source | as written | input that shows it | evidently intended | confidence | as-written member | corrected member |
|---|---|---|---|---|---|---|
| src/gromacs/gmxana/gmx_nonlinearopticalscattering.c:979-980 | `u1 = 2·xv1 − xv2 − xv2` subtracts the second atom twice | any water geometry with equal bonds and distinct hydrogens: u1·u2 = −\|xv2 − xv3\|² times the normalisation factors, not 0 | the bisector `2·xv1 − xv2 − xv3`, orthogonal to u2 for equal bonds | not executed | Hyperpol.MolUnitVectorsNotOrthogonal | Hyperpol.MolUnitVectorsBisectorOrthogonal |
| src/gromacs/gmxana/gmx_nonlinearopticalscattering.c:659 | the fatal arm follows the lone `if` at line 313, so modsumexp with spectrum and fading runs its whole trajectory loop and then fails | `-method modsumexp`, spectrum on, `fade` non-zero | fail only for the combinations that have no loop | not executed | Dispatch.FadedModsumexpRunsThenFails | Dispatch.DispatchCorrectedFatalIffNoLoop |
| src/gromacs/gmxana/gmx_nonlinearopticalscattering.c:353 | the faded modsumexp loop applies the cos² damping to pairs closer than `fade` and none beyond it | any pair at r < fade (damped) or r > fade (undamped) | damping beyond `fade`, as at lines 551-558 and 746-753 | not executed | Kernels.ModFadedWindowInverted | Kernels.FadeWeight |
| src/gromacs/gmxana/gmx_nonlinearopticalscattering.c:464-465 | `beta_lab_sq_t` and `s_method_coh_temp` are cleared once per frame, not once per group | two groups: group 1's update includes group 0's squares and pair sum | clear both sums for every group | not executed | Frames.CosmoScalarCarriesEarlierGroups | Frames.CosmoScalarIncrementCorrected |
| src/gromacs/gmxana/gmx_nonlinearopticalscattering.c:646 | `beta_lab_sq_t += sqr(beta_lab[i])` squares an array this loop never writes (all zero in a single-q sumexp run) | any frame: the incoherent part is 0 and the coherent part equals the total | `sqr(beta_lab_t)`, after which the single-q value equals the first q point of the sumexp spectrum | not executed | Frames.SumexpScalarStaleSquares | Frames.SumexpScalarMatchesSpectrum |
| src/gromacs/gmxana/gmx_nonlinearopticalscattering.c:731 | `s_method_incoh /= nframes` sits inside the loop over groups | two groups and two frames: the result is a quarter of the sum, not a half | divide once | not executed | Frames.AveragedIncoherentTwoGroups | Frames.AveragedIncoherentCorrected |

The accumulator methods keep the as-written behaviour of every row, so that they describe what the tool computes. Each corrected member stands beside its as-written counterpart, with the intended property proved about it.
