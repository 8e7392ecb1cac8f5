/** Which accumulation loop a run performs, decided by the method, the spectrum flag
    and whether the fading distance is zero (`do_nonlinearopticalscattering`, the
    chain of tests before and after each trajectory loop). */
module Dispatch {

  /** The `-method` enumeration: cosmo, sumexp or modsumexp; the code tests its
      first letter. */
  datatype Method = Cosmo | Sumexp | Modsumexp

  /** The seven trajectory loops, named after what each computes. */
  datatype Loop =
    | ModsumexpSpectrum        // modsumexp, spectrum, no fading
    | ModsumexpSpectrumFaded   // modsumexp, spectrum, fading
    | CosmoSpectrum            // cosmo, spectrum, no fading
    | CosmoScalar              // cosmo, single q, no fading
    | CosmoScalarFaded         // cosmo, single q, fading
    | SumexpSpectrum           // sumexp, spectrum
    | SumexpScalar             // sumexp, single q

  /** What a run does: the loops it performs, in order, and whether it then stops
      with the fatal "Combination ... unavailable" error. */
  datatype Plan = Plan(loops: seq<Loop>, fatal: bool)

  function When(c: bool, l: Loop): seq<Loop> { if c then [l] else [] }

  /** The four consecutive tests as written: two lone `if`s, an `if`/`else if` pair
      and a final `if`/`else if` chain whose last arm is the fatal error. */
  function Dispatch(m: Method, spectrum: bool, fadeIsZero: bool): Plan {
    var first := When(m == Modsumexp && spectrum && fadeIsZero, ModsumexpSpectrum);
    var second := When(m == Modsumexp && spectrum && !fadeIsZero, ModsumexpSpectrumFaded);
    var third :=
      if m == Cosmo && spectrum && fadeIsZero then [CosmoSpectrum]
      else When(m == Cosmo && !spectrum && fadeIsZero, CosmoScalar);
    var fourth :=
      if m == Cosmo && !spectrum && !fadeIsZero then Plan([CosmoScalarFaded], false)
      else if m == Sumexp && spectrum then Plan([SumexpSpectrum], false)
      else if m == Sumexp && !spectrum then Plan([SumexpScalar], false)
      else Plan([], (m == Cosmo && spectrum && !fadeIsZero) || (m == Sumexp && !fadeIsZero) || (m == Modsumexp && !fadeIsZero));
    Plan(first + second + third + fourth.loops, fourth.fatal)
  }

  /** The loop the (method, spectrum, fading) combination is meant for, if any. */
  function LoopFor(m: Method, spectrum: bool, fadeIsZero: bool): seq<Loop> {
    match m
    case Modsumexp =>
      if !spectrum then [] else if fadeIsZero then [ModsumexpSpectrum] else [ModsumexpSpectrumFaded]
    case Cosmo =>
      if spectrum then (if fadeIsZero then [CosmoSpectrum] else [])
      else if fadeIsZero then [CosmoScalar] else [CosmoScalarFaded]
    case Sumexp =>
      if spectrum then [SumexpSpectrum] else [SumexpScalar]
  }

  /** At most one loop runs, and it is the one meant for the combination. */
  lemma DispatchRunsAtMostOneLoop(m: Method, spectrum: bool, fadeIsZero: bool)
    ensures Dispatch(m, spectrum, fadeIsZero).loops == LoopFor(m, spectrum, fadeIsZero)
    ensures |Dispatch(m, spectrum, fadeIsZero).loops| <= 1
  {
  }

  /** The fatal error fires exactly for cosmo with spectrum and fading, and for
      modsumexp with fading; never for sumexp. */
  lemma DispatchFatal(m: Method, spectrum: bool, fadeIsZero: bool)
    ensures Dispatch(m, spectrum, fadeIsZero).fatal <==>
      !fadeIsZero && ((m == Cosmo && spectrum) || m == Modsumexp)
  {
  }

  /** sumexp picks its loop from the spectrum flag alone: the fading distance is
      never consulted, and the sumexp disjunct of the fatal arm is never reached, so
      sumexp with fading is not an error. */
  lemma SumexpIgnoresFade(spectrum: bool, fadeIsZero: bool)
    ensures Dispatch(Sumexp, spectrum, fadeIsZero) == Dispatch(Sumexp, spectrum, true)
    ensures Dispatch(Sumexp, spectrum, fadeIsZero) == Plan([if spectrum then SumexpSpectrum else SumexpScalar], false)
  {
  }

  /** cosmo with spectrum and fading performs no loop and ends in the fatal error;
      modsumexp without spectrum performs no loop and is fatal only with fading. */
  lemma NoLoopCombinations(fadeIsZero: bool)
    ensures Dispatch(Cosmo, true, false) == Plan([], true)
    ensures Dispatch(Modsumexp, false, fadeIsZero) == Plan([], !fadeIsZero)
  {
  }

  /** As written, modsumexp with spectrum and fading runs its whole loop over the
      trajectory and is then stopped by the fatal error, which matches any
      modsumexp run with fading. */
  lemma FadedModsumexpRunsThenFails()
    ensures Dispatch(Modsumexp, true, false) == Plan([ModsumexpSpectrumFaded], true)
  {
  }

  /** The final chain with the modsumexp arm limited to the case without spectrum,
      which is the only modsumexp combination with fading that has no loop. */
  function DispatchCorrected(m: Method, spectrum: bool, fadeIsZero: bool): (p: Plan)
    ensures p.fatal <==> !fadeIsZero && ((m == Cosmo && spectrum) || (m == Modsumexp && !spectrum))
  {
    var d := Dispatch(m, spectrum, fadeIsZero);
    Plan(d.loops, d.fatal && !(m == Modsumexp && spectrum))
  }

  /** With the correction, a run is fatal exactly when it has no loop and fading was
      asked for: no completed loop is thrown away, and the loops are unchanged. */
  lemma DispatchCorrectedFatalIffNoLoop(m: Method, spectrum: bool, fadeIsZero: bool)
    ensures DispatchCorrected(m, spectrum, fadeIsZero).loops == Dispatch(m, spectrum, fadeIsZero).loops
    ensures DispatchCorrected(m, spectrum, fadeIsZero).fatal <==>
      !fadeIsZero && DispatchCorrected(m, spectrum, fadeIsZero).loops == []
  {
    DispatchRunsAtMostOneLoop(m, spectrum, fadeIsZero);
  }
}
