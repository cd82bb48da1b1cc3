/** Helicity amplitudes of B -> V l+ l- decays: the normalisation
    prefactor, the form-factor and Wilson-coefficient part, the
    spectator-scattering part, and their sum, for a decay and for its
    CP conjugate. Everything the Python module imports from elsewhere
    (CKM factors, coefficient running and matching, form-factor and
    spectator-scattering providers, the angular formulas) is a field of
    `Externals`. Each such field is a total function: the helpers are
    assumed to return normally, and otherwise nothing is assumed about
    them. */
module BvllAmplitudes {
  import opened Base
  import opened Common

  /** Helicity amplitudes keyed by (helicity, coupling) labels such as `('0','V')`. */
  type Amplitudes = map<(string, string), Complex>

  /** Form-factor values by name. */
  type FormFactors = map<string, real>

  /** The arguments of `angular.helicity_amps_v(q2, mB, mV, mb, ms, ml1, ml2, ff, wc_eff, N)`. */
  datatype HelicityInputs = HelicityInputs(
    q2: real, mB: real, mV: real, mb: real, ms: real, ml1: real, ml2: real,
    ff: FormFactors, wcEff: WcDict, prefactor: Complex)

  /** A registered auxiliary quantity: its `prediction` callable, of one of
      the two signatures this module calls. */
  datatype AuxiliaryQuantity =
    | FormFactor(ffPrediction: (Par, real) -> FormFactors)
    | SpectatorScattering(ssPrediction: (Par, WcObj, real, bool) -> Amplitudes)

  /** The functions this module calls but does not define, each at the
      renormalisation scale configured for B -> V l l. */
  datatype Externals = Externals(
    conjugatePar: Par -> Par,                                   // conjugate_par
    conjugateWc: WcDict -> WcDict,                              // conjugate_wc
    wctotDict: (WcObj, string, Par) -> WcDict,                  // wctot_dict(wc_obj, label, scale, par)
    getWceff: (real, WcDict, Par, string, string, string) -> WcDict, // get_wceff(q2, wc, par, B, V, lep, scale)
    alphaE: Par -> real,                                        // running.get_alpha(par, scale)['alpha_e']
    getMb: Par -> real,                                         // running.get_mb(par, scale)
    xi: (string, string, Par) -> Complex,                       // ckm.xi(quark, transition)(par)
    helicityAmpsV: HelicityInputs -> Amplitudes,                // angular.helicity_amps_v
    auxiliary: map<string, AuxiliaryQuantity>)                  // the AuxiliaryQuantity registry

  /* ---------------------------------------------------------------------- */
  /* Lookup names                                                            */
  /* ---------------------------------------------------------------------- */

  /** The Wilson-coefficient label: quark transition, then the lepton twice. */
  function CoefficientLabel(b: string, v: string, lep: string): Result<string>
  {
    var didj :- LookupChannel(MesonQuark, b, v);
    Ok(didj + lep + lep)
  }

  /** The name under which the form factor of the channel is registered. */
  function FormFactorName(b: string, v: string): Result<string>
  {
    var family :- LookupChannel(MesonFf, b, v);
    Ok(family + " form factor")
  }

  /** The name under which the spectator-scattering correction is registered. */
  function SpectatorName(b: string, v: string, lep: string): string
  {
    b + "->" + v + lep + lep + " spectator scattering"
  }

  /** `AuxiliaryQuantity.get_instance(name)`. */
  function GetInstance(aux: map<string, AuxiliaryQuantity>, name: string): Result<AuxiliaryQuantity>
  {
    if name in aux then Ok(aux[name]) else Err(AuxiliaryNotFound(name))
  }

  /** The coefficient label of B0 -> K*0 mu mu is `bsmumu`. */
  lemma CoefficientLabelKstarMuMu()
    ensures CoefficientLabel("B0", "K*0", "mu") == Ok("bsmumu")
  {
    DictLiteralLast(MesonQuarkEntries, 1);
    assert "bs" + "mu" + "mu" == "bsmumu";
  }

  /** The coefficient label of B0 -> rho0 tau tau is `bdtautau`. */
  lemma CoefficientLabelRhoTauTau()
    ensures CoefficientLabel("B0", "rho0", "tau") == Ok("bdtautau")
  {
    DictLiteralLast(MesonQuarkEntries, 5);
    assert "bd" + "tau" + "tau" == "bdtautau";
  }

  /** B0 -> K*0 uses the registered `B->K* form factor`. */
  lemma KstarFormFactorName()
    ensures FormFactorName("B0", "K*0") == Ok("B->K* form factor")
  {
    DictLiteralLast(MesonFfEntries, 4);
    assert "B->K*" + " form factor" == "B->K* form factor";
  }

  /** A channel has both a coefficient label and a form-factor name exactly
      when both `meson_quark` and `meson_ff` have an entry for it, and the
      form-factor amplitudes can only be computed for such a channel. */
  lemma ChannelSupported(ext: Externals, q2: real, wcObj: WcObj, par: Par, b: string, v: string, lep: string, cp: bool)
    ensures CoefficientLabel(b, v, lep).Ok? && FormFactorName(b, v).Ok?
            <==> (exists i :: 0 <= i < |MesonQuarkEntries| && MesonQuarkEntries[i].0 == Pair(b, v))
                 && (exists j :: 0 <= j < |MesonFfEntries| && MesonFfEntries[j].0 == Pair(b, v))
    ensures HelicityAmpsFf(ext, q2, wcObj, par, b, v, lep, cp).Ok?
            ==> CoefficientLabel(b, v, lep).Ok? && FormFactorName(b, v).Ok?
  {
    LookupChannelEntries(MesonQuarkEntries, b, v);
    LookupChannelEntries(MesonFfEntries, b, v);
  }

  /** The spectator-scattering name of B0 -> K*0 mu mu. */
  lemma KstarSpectatorName()
    ensures SpectatorName("B0", "K*0", "mu") == "B0->K*0mumu spectator scattering"
  {
  }

  /* ---------------------------------------------------------------------- */
  /* The prefactor                                                           */
  /* ---------------------------------------------------------------------- */

  /** `prefactor`: `4 GF/sqrt(2) xi_t alpha_e/(4 pi)` above the lepton-pair
      threshold and exactly 0 at and below it. The lookups run first, so a
      missing parameter or channel raises even below threshold. */
  function Prefactor(ext: Externals, q2: real, par: Par, b: string, v: string, lep: string): Result<Complex>
  {
    var gf :- Lookup(par, "Gmu");
    var ml :- Lookup(par, "m_" + lep);
    var alphaem := ext.alphaE(par);
    var didj :- LookupChannel(MesonQuark, b, v);
    var xit := ext.xi("t", didj, par);
    if q2 <= 4.0 * (ml * ml) then Ok(Zero)
    else Ok(Div(Scale(Scale(xit, 4.0 * gf / Sqrt2), alphaem), 4.0 * Pi))
  }

  /** The prefactor fails exactly when `Gmu`, the lepton mass or the channel
      is missing, and is exactly zero at and below `q2 = 4 ml^2`. */
  lemma PrefactorThreshold(ext: Externals, q2: real, par: Par, b: string, v: string, lep: string)
    ensures Prefactor(ext, q2, par, b, v, lep).Ok?
        <==> "Gmu" in par && "m_" + lep in par && Pair(b, v) in MesonQuark
    ensures Prefactor(ext, q2, par, b, v, lep).Ok? && q2 <= 4.0 * (par["m_" + lep] * par["m_" + lep])
        ==> Prefactor(ext, q2, par, b, v, lep).value == Zero
  {
  }

  /** Above threshold the prefactor does not depend on `q2`. */
  lemma PrefactorConstantAboveThreshold(ext: Externals, q2: real, q2': real, par: Par, b: string, v: string, lep: string)
    requires "m_" + lep in par
    requires q2 > 4.0 * (par["m_" + lep] * par["m_" + lep])
    requires q2' > 4.0 * (par["m_" + lep] * par["m_" + lep])
    ensures Prefactor(ext, q2, par, b, v, lep) == Prefactor(ext, q2', par, b, v, lep)
  {
  }

  /** Just above threshold the prefactor is non-zero whenever the Fermi
      constant, the electromagnetic coupling and the CKM factor are. */
  lemma PrefactorNonzeroAboveThreshold(ext: Externals, q2: real, par: Par, b: string, v: string, lep: string)
    requires Prefactor(ext, q2, par, b, v, lep).Ok?
    requires q2 > 4.0 * (par["m_" + lep] * par["m_" + lep])
    requires par["Gmu"] != 0.0 && ext.alphaE(par) != 0.0
    requires ext.xi("t", MesonQuark[Pair(b, v)], par) != Zero
    ensures Prefactor(ext, q2, par, b, v, lep).value != Zero
  {
    var xit := ext.xi("t", MesonQuark[Pair(b, v)], par);
    var c := 4.0 * par["Gmu"] / Sqrt2;
    assert c != 0.0;
    ScaleNonzero(xit, c);
    ScaleNonzero(Scale(xit, c), ext.alphaE(par));
    DivNonzero(Scale(Scale(xit, c), ext.alphaE(par)), 4.0 * Pi);
  }

  /* ---------------------------------------------------------------------- */
  /* Form factors and spectator scattering                                   */
  /* ---------------------------------------------------------------------- */

  /** `get_ff`: the registered form factor of the channel at `q2`. */
  function GetFf(ext: Externals, q2: real, par: Par, b: string, v: string): Result<FormFactors>
  {
    var name :- FormFactorName(b, v);
    var quantity :- GetInstance(ext.auxiliary, name);
    match quantity
    case FormFactor(prediction) => Ok(prediction(par, q2))
    case SpectatorScattering(_) => Err(WrongAuxiliaryKind(name))
  }

  /** The six helicity labels `{'0','pl','mi'} x {'V','A'}`. */
  const HelicityKeys: set<(string, string)> :=
    set h, c | h in {"0", "pl", "mi"} && c in {"V", "A"} :: (h, c)

  /** The all-zero amplitude set `get_ss` returns where it does not apply. */
  const ZeroAmplitudes: Amplitudes := map[
    ("0", "V") := Zero, ("0", "A") := Zero,
    ("pl", "V") := Zero, ("pl", "A") := Zero,
    ("mi", "V") := Zero, ("mi", "A") := Zero
  ]

  /** The zero amplitude set has exactly the six helicity labels, each with value 0. */
  lemma ZeroAmplitudesShape()
    ensures ZeroAmplitudes.Keys == HelicityKeys
    ensures forall k :: k in ZeroAmplitudes ==> ZeroAmplitudes[k] == Zero
  {
    forall k | k in HelicityKeys
      ensures k in ZeroAmplitudes
    {
      var h, c :| h in {"0", "pl", "mi"} && c in {"V", "A"} && k == (h, c);
    }
  }

  /** `get_ss`: zero for a tau or for `q2 >= 9`, otherwise the registered
      spectator-scattering correction of the channel. */
  function GetSs(ext: Externals, q2: real, wcObj: WcObj, par: Par, b: string, v: string, lep: string, cpConjugate: bool): Result<Amplitudes>
  {
    if lep == "tau" || q2 >= 9.0 then Ok(ZeroAmplitudes)
    else
      var name := SpectatorName(b, v, lep);
      var quantity :- GetInstance(ext.auxiliary, name);
      match quantity
      case SpectatorScattering(prediction) => Ok(prediction(par, wcObj, q2, cpConjugate))
      case FormFactor(_) => Err(WrongAuxiliaryKind(name))
  }

  /** For a light lepton below `q2 = 9` the spectator part is whatever the
      quantity registered under `SpectatorName(b, v, lep)` predicts; an
      unregistered name, or a form factor registered under it, is an error
      naming it. */
  lemma SpectatorLookedUpByName(ext: Externals, q2: real, wcObj: WcObj, par: Par,
                                b: string, v: string, lep: string, cp: bool)
    requires lep != "tau" && q2 < 9.0
    ensures var name := SpectatorName(b, v, lep);
            (name !in ext.auxiliary ==> GetSs(ext, q2, wcObj, par, b, v, lep, cp) == Err(AuxiliaryNotFound(name)))
            && (name in ext.auxiliary && ext.auxiliary[name].SpectatorScattering? ==>
                  GetSs(ext, q2, wcObj, par, b, v, lep, cp) == Ok(ext.auxiliary[name].ssPrediction(par, wcObj, q2, cp)))
            && (name in ext.auxiliary && ext.auxiliary[name].FormFactor? ==>
                  GetSs(ext, q2, wcObj, par, b, v, lep, cp) == Err(WrongAuxiliaryKind(name)))
  {
  }

  /** `get_ss` consults the registry only under its one name: two set-ups
      that agree on that entry give the same spectator part. */
  lemma SpectatorConsultsOnlyItsName(ext1: Externals, ext2: Externals, q2: real, wcObj: WcObj, par: Par,
                                     b: string, v: string, lep: string, cp: bool)
    requires var name := SpectatorName(b, v, lep);
             (name in ext1.auxiliary <==> name in ext2.auxiliary)
             && (name in ext1.auxiliary ==> ext1.auxiliary[name] == ext2.auxiliary[name])
    ensures GetSs(ext1, q2, wcObj, par, b, v, lep, cp) == GetSs(ext2, q2, wcObj, par, b, v, lep, cp)
  {
  }

  /** `get_ff` likewise consults the registry only under the form-factor
      name of the channel. */
  lemma FormFactorConsultsOnlyItsName(ext1: Externals, ext2: Externals, q2: real, par: Par, b: string, v: string)
    requires FormFactorName(b, v).Ok?
    requires var name := FormFactorName(b, v).value;
             (name in ext1.auxiliary <==> name in ext2.auxiliary)
             && (name in ext1.auxiliary ==> ext1.auxiliary[name] == ext2.auxiliary[name])
    ensures GetFf(ext1, q2, par, b, v) == GetFf(ext2, q2, par, b, v)
  {
  }

  /** For a tau or `q2 >= 9` the spectator part is the zero amplitude set
      whatever the registry, the parameters, the coefficients or the
      conjugation flag: two arbitrary set-ups give the same result. */
  lemma SpectatorSwitchedOff(ext1: Externals, ext2: Externals, q2: real,
                             wcObj1: WcObj, wcObj2: WcObj, par1: Par, par2: Par,
                             b: string, v: string, lep: string, cp1: bool, cp2: bool)
    requires lep == "tau" || q2 >= 9.0
    ensures GetSs(ext1, q2, wcObj1, par1, b, v, lep, cp1) == Ok(ZeroAmplitudes)
    ensures GetSs(ext1, q2, wcObj1, par1, b, v, lep, cp1) == GetSs(ext2, q2, wcObj2, par2, b, v, lep, cp2)
  {
  }

  /* ---------------------------------------------------------------------- */
  /* The form-factor part                                                    */
  /* ---------------------------------------------------------------------- */

  /** `helicity_amps_ff`: conjugate the parameters (a copy of them) if asked,
      build the coefficients from them, conjugate the coefficients if asked,
      match them to effective coefficients, and hand everything with the
      prefactor and form factors to `helicity_amps_v`. */
  function HelicityAmpsFf(ext: Externals, q2: real, wcObj: WcObj, parDict: Par,
                          b: string, v: string, lep: string, cpConjugate: bool): Result<Amplitudes>
  {
    var par := if cpConjugate then ext.conjugatePar(parDict) else parDict;
    var wcLabel :- CoefficientLabel(b, v, lep);
    var wcTot := ext.wctotDict(wcObj, wcLabel, par);
    var wc := if cpConjugate then ext.conjugateWc(wcTot) else wcTot;
    var wcEff := ext.getWceff(q2, wc, par, b, v, lep);
    var ml :- Lookup(par, "m_" + lep);
    var mB :- Lookup(par, "m_" + b);
    var mV :- Lookup(par, "m_" + v);
    var mb := ext.getMb(par);
    var n :- Prefactor(ext, q2, par, b, v, lep);
    var ff :- GetFf(ext, q2, par, b, v);
    Ok(ext.helicityAmpsV(HelicityInputs(q2, mB, mV, mb, 0.0, ml, ml, ff, wcEff, n)))
  }

  /** Conjugation acts on the inputs only, once each and before matching:
      the conjugated amplitudes are the unconjugated amplitudes of the
      conjugated parameters, with a coefficient object whose coefficients at
      those parameters are the conjugates of the original ones. */
  lemma ConjugationActsOnInputs(ext: Externals, q2: real, wcObj: WcObj, wcObjBar: WcObj, par: Par,
                                b: string, v: string, lep: string)
    requires forall wcLabel :: ext.wctotDict(wcObjBar, wcLabel, ext.conjugatePar(par))
                             == ext.conjugateWc(ext.wctotDict(wcObj, wcLabel, ext.conjugatePar(par)))
    ensures HelicityAmpsFf(ext, q2, wcObj, par, b, v, lep, true)
         == HelicityAmpsFf(ext, q2, wcObjBar, ext.conjugatePar(par), b, v, lep, false)
  {
  }

  /** Without the flag neither conjugation is applied: the result does not
      depend on what `conjugate_par` and `conjugate_wc` do. */
  lemma UnconjugatedIgnoresConjugation(ext: Externals, conjugatePar: Par -> Par, conjugateWc: WcDict -> WcDict,
                                       q2: real, wcObj: WcObj, par: Par, b: string, v: string, lep: string)
    ensures HelicityAmpsFf(ext, q2, wcObj, par, b, v, lep, false)
         == HelicityAmpsFf(ext.(conjugatePar := conjugatePar, conjugateWc := conjugateWc),
                           q2, wcObj, par, b, v, lep, false)
  {
  }

  /** `('Bs','phi')` has a coefficient label but no form factor, so its
      amplitudes can never be computed, with or without conjugation. */
  lemma BsPhiAmplitudesFail(ext: Externals, q2: real, wcObj: WcObj, par: Par, lep: string, cp: bool)
    ensures HelicityAmpsFf(ext, q2, wcObj, par, "Bs", "phi", lep, cp).Err?
    ensures HelicityAmps(ext, q2, wcObj, par, "Bs", "phi", lep).Err?
    ensures HelicityAmpsBar(ext, q2, wcObj, par, "Bs", "phi", lep).Err?
  {
    BsPhiHasNoFormFactor();
    assert FormFactorName("Bs", "phi").Err?;
    assert forall par' :: GetFf(ext, q2, par', "Bs", "phi").Err?;
  }

  /* ---------------------------------------------------------------------- */
  /* The full amplitudes                                                     */
  /* ---------------------------------------------------------------------- */

  /** `add_dict` on two amplitude sets: the pointwise sum when both have the
      same labels; a label set mismatch is an error, never a silent drop. */
  function AddDict(a: Amplitudes, b: Amplitudes): Result<Amplitudes>
  {
    if a.Keys == b.Keys then Ok(map k | k in a :: Add(a[k], b[k])) else Err(KeyMismatch)
  }

  /** The order of the two amplitude sets does not matter. */
  lemma AddDictCommutes(a: Amplitudes, b: Amplitudes)
    ensures AddDict(a, b) == AddDict(b, a)
  {
    if a.Keys == b.Keys {
      var ab, ba := AddDict(a, b).value, AddDict(b, a).value;
      forall k | k in ab
        ensures ab[k] == ba[k]
      {
        assert Add(a[k], b[k]) == Add(b[k], a[k]);
      }
      assert ab == ba;
    }
  }

  /** The zero amplitude set is the identity of the sum on amplitude sets
      with the six helicity labels, and any other label set does not add to
      it. */
  lemma AddDictZeroIdentity(a: Amplitudes)
    ensures a.Keys == HelicityKeys ==> AddDict(a, ZeroAmplitudes) == Ok(a) && AddDict(ZeroAmplitudes, a) == Ok(a)
    ensures a.Keys != HelicityKeys ==> AddDict(a, ZeroAmplitudes) == Err(KeyMismatch)
  {
    ZeroAmplitudesShape();
    if a.Keys == HelicityKeys {
      var sum := AddDict(a, ZeroAmplitudes).value;
      forall k | k in a
        ensures sum[k] == a[k]
      {
        AddZero(a[k]);
      }
      assert sum == a;
      AddDictCommutes(a, ZeroAmplitudes);
    }
  }

  /** `helicity_amps`: the form-factor part plus the spectator part, unconjugated. */
  function HelicityAmps(ext: Externals, q2: real, wcObj: WcObj, par: Par, b: string, v: string, lep: string): Result<Amplitudes>
  {
    var ff :- HelicityAmpsFf(ext, q2, wcObj, par, b, v, lep, false);
    var ss :- GetSs(ext, q2, wcObj, par, b, v, lep, false);
    AddDict(ff, ss)
  }

  /** `helicity_amps_bar`: the same sum for the CP-conjugate decay. */
  function HelicityAmpsBar(ext: Externals, q2: real, wcObj: WcObj, par: Par, b: string, v: string, lep: string): Result<Amplitudes>
  {
    var ff :- HelicityAmpsFf(ext, q2, wcObj, par, b, v, lep, true);
    var ss :- GetSs(ext, q2, wcObj, par, b, v, lep, true);
    AddDict(ff, ss)
  }

  /** Where spectator scattering is switched off, the amplitudes are the
      form-factor part unchanged, provided it carries exactly the six
      helicity labels; otherwise the sum fails. */
  lemma AmplitudesWithoutSpectator(ext: Externals, q2: real, wcObj: WcObj, par: Par, b: string, v: string, lep: string, cp: bool)
    requires lep == "tau" || q2 >= 9.0
    ensures var ff := HelicityAmpsFf(ext, q2, wcObj, par, b, v, lep, cp);
            var full := if cp then HelicityAmpsBar(ext, q2, wcObj, par, b, v, lep)
                        else HelicityAmps(ext, q2, wcObj, par, b, v, lep);
            (ff.Ok? && ff.value.Keys == HelicityKeys ==> full == ff)
            && (ff.Ok? && ff.value.Keys != HelicityKeys ==> full == Err(KeyMismatch))
            && (ff.Err? ==> full == ff)
  {
    var ff := HelicityAmpsFf(ext, q2, wcObj, par, b, v, lep, cp);
    if ff.Ok? {
      AddDictZeroIdentity(ff.value);
    }
  }

  /** `helicity_amps_bar` differs from `helicity_amps` only through the
      conjugation flag: when conjugation changes neither the parameters nor
      the coefficients and the spectator part ignores the flag, the two agree. */
  lemma BarDiffersOnlyByFlag(ext: Externals, q2: real, wcObj: WcObj, par: Par, b: string, v: string, lep: string)
    requires ext.conjugatePar(par) == par
    requires forall wc :: ext.conjugateWc(wc) == wc
    requires GetSs(ext, q2, wcObj, par, b, v, lep, true) == GetSs(ext, q2, wcObj, par, b, v, lep, false)
    ensures HelicityAmpsBar(ext, q2, wcObj, par, b, v, lep) == HelicityAmps(ext, q2, wcObj, par, b, v, lep)
  {
  }
}
