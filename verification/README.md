# flavio: K → πνν̄ observables, B → Vℓℓ helicity amplitudes and B-decay tables

This project models three modules of flavio, a Python package for
flavour-physics observables:

- `flavio/physics/kdecays/kpinunu.py`: computes the K⁺ → π⁺νν̄ and
  K_L → π⁰νν̄ branching ratios.
  - The amplitude for one pair of neutrino flavours combines Wilson
    coefficients, CKM factors and a charm correction.
  - The two branching ratios are the normalised squared modulus of that
    amplitude (charged mode) and of its imaginary part (neutral mode).
  - Each ratio is summed over the nine flavour pairs.
  - Both sums are registered as the observables `BR(K+->pinunu)` and
    `BR(KL->pinunu)`.
- `flavio/physics/bdecays/bvll/amplitudes.py`: computes the helicity
  amplitudes of B → Vℓ⁺ℓ⁻.
  - The normalisation prefactor is zero at and below the lepton-pair
    threshold.
  - The form-factor part conjugates the parameters and then the
    coefficients when asked.
  - The spectator-scattering part is switched off for τ leptons and for
    q² ≥ 9.
  - The full amplitudes are the sum of these two parts, for the decay and
    for its CP conjugate.
- `flavio/physics/bdecays/common.py`: provides the Källén function
  `lambda_K`, the lepton velocity `beta_l`, and four lookup tables (meson
  to quark transition, spectator quark, quark charge, form-factor family).

Conventions of the model:

- Each Python exception is an `Err` of a `Result`. Among the dictionary
  reads and divisions the modelled code performs itself, the model reports
  the exception the Python code meets first.
- A division by zero on a NumPy scalar gives `inf` or `nan` with a warning
  instead of raising. The K → πνν̄ normalisation divides by `|V_us|²`, taken
  from the NumPy CKM array. So the model's branching ratios are a `Float`:
  a finite value, or a non-finite one that stays non-finite.
- Complex numbers are pairs of reals.
- Dictionary literals are entry lists in which a later entry wins, so the
  duplicated key of `meson_quark` stays visible.
- The functions these modules import from elsewhere in flavio are fields
  of an `Externals` value. Each field is a total function, so the helpers
  are assumed to return normally. Nothing else is assumed about them.
- `kpinunu_amplitude` changes a dictionary entry in place and accumulates
  its result. It is therefore a method, proved equal to a closed-form
  specification function.
- The observable catalogue is a class with an observable map and a
  prediction map, which registration updates.
- Parameter dictionaries are values. The copy `helicity_amps_ff` takes
  before conjugating therefore leaves the caller's parameters untouched
  automatically.

Files:

- `base.dfy`: complex numbers, dictionary keys, errors and `Result`.
- `common.dfy`: `common.py`.
- `classes.dfy`: the parts of `Observable` and `Prediction` that
  `kpinunu.py` uses.
- `bvll_amplitudes.dfy`: `amplitudes.py`.
- `kpinunu.dfy`: `kpinunu.py`.

## Model

| member | source | states |
|---|---|---|
| Common.LambdaK | flavio/physics/bdecays/common.py:11-16 | Computes `lambda_K(a,b,c) = a²+b²+c²−2(ab+bc+ac)`. Its properties are the four lemmas below |
| Common.LambdaKSymmetric | flavio/physics/bdecays/common.py:11-16 | The Källén function is invariant under all five non-trivial permutations of its arguments |
| Common.LambdaKSpecialValues | flavio/physics/bdecays/common.py:16 | λ(a,b,0) = (a−b)² and λ(a,0,0) = a² |
| Common.LambdaKMassFactorisation | flavio/physics/bdecays/common.py:16 | On squared masses, λ(m0²,m1²,m2²) = (m0²−(m1+m2)²)(m0²−(m1−m2)²) |
| Common.LambdaKAboveThreshold | flavio/physics/bdecays/common.py:11-16 | For non-negative m1, m2 with m1+m2 ≤ m0, λ(m0²,m1²,m2²) ≥ 0 |
| Common.BetaLDomain | flavio/physics/bdecays/common.py:18-21 | `beta_l` is exactly 0 at q² = 0 for any lepton mass. It raises the math-domain error exactly when 0 < q² < 4ml² |
| Common.BetaLInUnitInterval | flavio/physics/bdecays/common.py:21 | For q² ≠ 0 and q² ≥ 4ml², `beta_l` succeeds with a value in [0,1] whose square is 1 − 4ml²/q² |
| Common.LookupChannelEntries | flavio/physics/bdecays/common.py:23-85 | A `(B,V)` lookup in a table succeeds exactly when some entry of the display has that key, and then yields the value of the last such entry. Otherwise it raises a KeyError naming the pair |
| Common.BetaL | flavio/physics/bdecays/common.py:18-21 | Computes `beta_l`: 0 at q² = 0, otherwise `sqrt(1 − 4ml²/q²)`, with `math.sqrt` raising the domain error on a negative argument. Its properties are BetaLDomain and BetaLInUnitInterval |
| Common.DictLiteral | flavio/physics/bdecays/common.py:23-85 | Builds the dictionary a Python dict display builds, inserting entries left to right so that a repeated key keeps its last value. The four tables are built with it from their entries in source order |
| Common.MesonQuarkDuplicateAgrees | flavio/physics/bdecays/common.py:33-35 | `('B0','pi+')` occurs twice in `meson_quark`, both times with `'bu'`, so the lookup gives `'bu'` |
| Common.MesonQuarkBareKeys | flavio/physics/bdecays/common.py:44-45 | The bare keys `'Bs'` and `'B0'` both map to `'bs'` |
| Common.BsPhiHasNoFormFactor | flavio/physics/bdecays/common.py:43-85 | `('Bs','phi')` has the transition `'bs'` but no form-factor family: that lookup raises KeyError |
| Common.TransitionWithoutFormFactor | flavio/physics/bdecays/common.py:23-85 | `(B0,pi0)` and `(B+,pi+)` have transition `bd`, and `(B+,omega)` has `bu`. None of the three has a form-factor family |
| Common.KaonFormFactorWithoutTransition | flavio/physics/bdecays/common.py:23-85 | `(B0,K+)`, `(B+,K0)` and `(B0,K0)` have the family `B->K` but no quark transition |
| Common.KstarFormFactorWithoutTransition | flavio/physics/bdecays/common.py:23-85 | `(B0,K*+)` and `(B+,K*0)` have the family `B->K*` but no quark transition |
| Common.BsKaonFormFactorWithoutTransition | flavio/physics/bdecays/common.py:23-85 | `(Bs,K0)` and `(Bs,K*0)` have the families `Bs->K` and `Bs->K*` but no quark transition |
| Common.SpectatorsHaveCharges | flavio/physics/bdecays/common.py:48-60 | u has charge 2/3 and d and s have −1/3. Every spectator quark in `meson_spectator` has a charge |
| BvllAmplitudes.CoefficientLabel | flavio/physics/bdecays/bvll/amplitudes.py:34 | Computes the coefficient label `meson_quark[(B,V)] + lep + lep`. A channel missing from the table raises a KeyError. Checked on examples below and by ChannelSupported |
| BvllAmplitudes.FormFactorName | flavio/physics/bdecays/bvll/amplitudes.py:25 | Computes the form-factor name `meson_ff[(B,V)] + ' form factor'`. A channel missing from the table raises a KeyError |
| BvllAmplitudes.SpectatorName | flavio/physics/bdecays/bvll/amplitudes.py:55 | Computes the spectator-scattering name `B + '->' + V + lep + lep + ' spectator scattering'` |
| BvllAmplitudes.ChannelSupported | flavio/physics/bdecays/bvll/amplitudes.py:25-44 | The coefficient label and the form-factor name both exist exactly when both `meson_quark` and `meson_ff` have an entry for the channel. The form-factor amplitudes succeed only for such a channel |
| BvllAmplitudes.CoefficientLabelKstarMuMu | flavio/physics/bdecays/bvll/amplitudes.py:34 | The coefficient label is transition + lepton + lepton: B0 → K*0 μμ gives `bsmumu` |
| BvllAmplitudes.CoefficientLabelRhoTauTau | flavio/physics/bdecays/bvll/amplitudes.py:34 | B0 → ρ0 ττ gives `bdtautau` |
| BvllAmplitudes.KstarFormFactorName | flavio/physics/bdecays/bvll/amplitudes.py:25 | The form-factor name is family + ` form factor`: B0 → K*0 looks up `B->K* form factor` |
| BvllAmplitudes.KstarSpectatorName | flavio/physics/bdecays/bvll/amplitudes.py:55 | B0 → K*0 μμ looks up `B0->K*0mumu spectator scattering` |
| BvllAmplitudes.Prefactor | flavio/physics/bdecays/bvll/amplitudes.py:13-22 | Computes `prefactor`: it looks up `Gmu`, then the lepton mass, then the channel. It returns 0 for q² ≤ 4ml² and 4G_F/√2 · ξ_t · α_e/(4π) above. Its properties are the three lemmas below |
| BvllAmplitudes.PrefactorThreshold | flavio/physics/bdecays/bvll/amplitudes.py:13-22 | The prefactor fails exactly when `Gmu`, the lepton mass or the channel is missing, even below threshold. At and below q² = 4ml² it is exactly 0 |
| BvllAmplitudes.PrefactorConstantAboveThreshold | flavio/physics/bdecays/bvll/amplitudes.py:20-22 | Above threshold the prefactor does not depend on q² |
| BvllAmplitudes.PrefactorNonzeroAboveThreshold | flavio/physics/bdecays/bvll/amplitudes.py:22 | Above threshold, with non-zero G_F, α_e and ξ_t, the prefactor 4G_F/√2 · ξ_t · α_e/(4π) is non-zero |
| BvllAmplitudes.GetFf | flavio/physics/bdecays/bvll/amplitudes.py:24-26 | Computes `get_ff`: it looks up the form-factor name and calls that registered prediction at (par, q²). An unregistered name is an error naming it |
| BvllAmplitudes.FormFactorConsultsOnlyItsName | flavio/physics/bdecays/bvll/amplitudes.py:24-26 | Two registries that agree on the channel's form-factor name give the same `get_ff` result |
| BvllAmplitudes.ZeroAmplitudesShape | flavio/physics/bdecays/bvll/amplitudes.py:51-54 | The zero amplitude set has exactly the six keys {0,pl,mi}×{V,A}, all with value 0 |
| BvllAmplitudes.GetSs | flavio/physics/bdecays/bvll/amplitudes.py:49-56 | Computes `get_ss`: the zero set for a τ or q² ≥ 9, otherwise the prediction registered under the spectator name at (par, wc_obj, q², flag) |
| BvllAmplitudes.SpectatorLookedUpByName | flavio/physics/bdecays/bvll/amplitudes.py:55-56 | For a light lepton with q² < 9, `get_ss` returns exactly the prediction registered under `SpectatorName(B,V,lep)`. If that name is unregistered, the error names it |
| BvllAmplitudes.SpectatorConsultsOnlyItsName | flavio/physics/bdecays/bvll/amplitudes.py:49-56 | Two registries that agree on the entry under the spectator name give the same `get_ss` result, whatever else they hold |
| BvllAmplitudes.SpectatorSwitchedOff | flavio/physics/bdecays/bvll/amplitudes.py:49-54 | For a τ or q² ≥ 9, `get_ss` returns the zero amplitude set. The registry, parameters, coefficients and conjugation flag make no difference |
| BvllAmplitudes.HelicityAmpsFf | flavio/physics/bdecays/bvll/amplitudes.py:29-46 | Computes `helicity_amps_ff`. In source order it conjugates the parameters, builds the label and coefficients, conjugates the coefficients, matches them, and reads the masses. Then it computes the prefactor and form factors and calls `helicity_amps_v` |
| BvllAmplitudes.ConjugationActsOnInputs | flavio/physics/bdecays/bvll/amplitudes.py:29-46 | The conjugated amplitudes equal the unconjugated amplitudes computed from the conjugated parameters with conjugated coefficients. So each conjugation is applied once and before matching |
| BvllAmplitudes.UnconjugatedIgnoresConjugation | flavio/physics/bdecays/bvll/amplitudes.py:30-37 | Without the flag, neither conjugation function affects the result |
| BvllAmplitudes.BsPhiAmplitudesFail | flavio/physics/bdecays/bvll/amplitudes.py:44 | For Bs → φ the form-factor part, `helicity_amps` and `helicity_amps_bar` always fail |
| BvllAmplitudes.AddDict | flavio/physics/bdecays/bvll/amplitudes.py:63 | Computes `add_dict` on two amplitude sets: the pointwise sum over equal label sets, a key-mismatch error otherwise |
| BvllAmplitudes.AddDictCommutes | flavio/physics/bdecays/bvll/amplitudes.py:63 | The sum of two amplitude sets does not depend on their order |
| BvllAmplitudes.AddDictZeroIdentity | flavio/physics/bdecays/bvll/amplitudes.py:51-63 | Adding the zero set, on either side, leaves a set with the six helicity labels unchanged. Any other label set gives a key-mismatch error |
| BvllAmplitudes.HelicityAmps | flavio/physics/bdecays/bvll/amplitudes.py:59-63 | Computes `helicity_amps`: the unconjugated form-factor part plus the spectator part |
| BvllAmplitudes.HelicityAmpsBar | flavio/physics/bdecays/bvll/amplitudes.py:65-69 | Computes `helicity_amps_bar`: the same sum with the conjugation flag set |
| BvllAmplitudes.AmplitudesWithoutSpectator | flavio/physics/bdecays/bvll/amplitudes.py:59-69 | With spectator scattering off, the full amplitudes (plain or conjugated) equal the form-factor part when it has the six helicity keys. Otherwise they are a key-mismatch error, or the form-factor part's own error |
| BvllAmplitudes.BarDiffersOnlyByFlag | flavio/physics/bdecays/bvll/amplitudes.py:59-69 | When conjugation changes neither parameters nor coefficients, and the spectator part ignores the flag, `helicity_amps_bar` equals `helicity_amps` |
| KPiNuNu.Label | flavio/physics/kdecays/kpinunu.py:13 | Computes the coefficient label `'sd' + nu1 + nu2` |
| KPiNuNu.ClKey | flavio/physics/kdecays/kpinunu.py:18 | Computes the left-handed key `'CL_' + label` |
| KPiNuNu.CrKey | flavio/physics/kdecays/kpinunu.py:20 | Computes the right-handed key `'CR_' + label` |
| KPiNuNu.LabelExamples | flavio/physics/kdecays/kpinunu.py:13-20 | The label is `sd` + ν1 + ν2 (`sdnuenue`, `sdnutaunumu`). The left- and right-handed keys `CL_`/`CR_` + label never coincide |
| KPiNuNu.Charm | flavio/physics/kdecays/kpinunu.py:29-35 | Computes `kpinunu_charm`: it reads `m_c`, then `alpha_s`. A zero `alpha_s` raises a division by zero, as `0.0 ** -1.417` does. Otherwise it returns 0.379 (m_c/1.3)^2.155 (α_s/0.1187)^−1.417 |
| KPiNuNu.CharmReferencePoint | flavio/physics/kdecays/kpinunu.py:29-35 | P_c(X) is defined exactly when `m_c` and a non-zero `alpha_s` are present. At m_c = 1.3, α_s = 0.1187 it equals 0.379 |
| KPiNuNu.CharmTerm | flavio/physics/kdecays/kpinunu.py:26 | Computes the diagonal charm piece ξ_c(P_c+δP_cu)\|V_us\|⁴/s2w |
| KPiNuNu.Amplitude | flavio/physics/kdecays/kpinunu.py:7-27 | The closed form of the amplitude that KpinunuAmplitude is proved equal to: −ξ_t(C_L+C_R), with C_L^SM and the charm piece added on the diagonal, and the first exception the source meets |
| KPiNuNu.KpinunuAmplitude | flavio/physics/kdecays/kpinunu.py:7-27 | The step-by-step computation (in-place SM addition, X = −(C_L+C_R)s2w, amp = ξ_t X/s2w, plus the charm term on the diagonal) equals the closed form −ξ_t(C_L+C_R) [+ charm]. It raises the same first exception |
| KPiNuNu.AmplitudeDefined | flavio/physics/kdecays/kpinunu.py:16-26 | The amplitude is defined exactly when `CL_`/`CR_` + label, `s2w`, `m_c`, `alpha_s` and `deltaPcu` are present and `s2w` and `alpha_s` are non-zero |
| KPiNuNu.AmplitudeFirstError | flavio/physics/kdecays/kpinunu.py:17-19 | On the diagonal, a missing `CL_` key raises first, before a missing `s2w`. Off the diagonal, a missing `s2w` raises first |
| KPiNuNu.OffDiagonalIsTopOnly | flavio/physics/kdecays/kpinunu.py:17-26 | For ν1 ≠ ν2 the amplitude depends on neither C_L^SM nor ξ_c nor V_us |
| KPiNuNu.DiagonalAddsStandardModelAndCharm | flavio/physics/kdecays/kpinunu.py:17-26 | For ν1 = ν2 the amplitude is −ξ_t(C_L+C_R) − ξ_t C_L^SM + ξ_c(P_c+δP_cu)\|V_us\|⁴/s2w |
| KPiNuNu.BrNormalization | flavio/physics/kdecays/kpinunu.py:37-45 | Computes `br_normalization`: α_e² BR(K⁺→π⁰e⁺ν)/2/π²/\|V_us\|². A vanishing V_us gives NumPy's non-finite value |
| KPiNuNu.BrNormalizationSign | flavio/physics/kdecays/kpinunu.py:37-45 | The normalisation raises exactly when `BR(K+->pienu)` is missing. It is finite exactly when V_us ≠ 0, and is then non-negative for a non-negative semileptonic branching ratio |
| KPiNuNu.BrKplus | flavio/physics/kdecays/kpinunu.py:47-51 | Computes `br_kplus_pinunu`: \|amp\|² times the normalisation, non-finite when the normalisation is |
| KPiNuNu.BrKlong | flavio/physics/kdecays/kpinunu.py:53-59 | Computes `br_klong_pinunu`: Im(amp)² · norm · τ_KL/τ_K⁺. Both lifetimes are read first. The result is non-finite when the normalisation is, or when τ_K⁺ = 0 |
| KPiNuNu.BrKplusNonNegative | flavio/physics/kdecays/kpinunu.py:47-51 | BR(K⁺) is finite exactly when the normalisation is. It is then non-negative for a non-negative normalisation, and 0 when the amplitude is 0 |
| KPiNuNu.BrKlongImaginaryOnly | flavio/physics/kdecays/kpinunu.py:53-59 | BR(K_L) is finite exactly when the normalisation is and τ_K⁺ ≠ 0. It is then 0 when the amplitude is real, and with non-zero normalisation and τ_KL it is 0 only then |
| KPiNuNu.KlongBoundedByKplus | flavio/physics/kdecays/kpinunu.py:47-59 | For a finite non-negative normalisation and lifetimes with τ_K⁺ > 0, both ratios are finite and BR(K_L) ≤ BR(K⁺) · τ_KL/τ_K⁺ |
| KPiNuNu.OffDiagonalTopTerm | flavio/physics/kdecays/kpinunu.py:20-24 | For ν1 ≠ ν2 the amplitude is −ξ_t(C_L+C_R), with the coefficients unmodified |
| KPiNuNu.OffDiagonalZeroCoefficients | flavio/physics/kdecays/kpinunu.py:17-27 | For ν1 ≠ ν2 with C_L = C_R = 0, the amplitude is 0 |
| KPiNuNu.OffDiagonalZeroRatios | flavio/physics/kdecays/kpinunu.py:47-59 | For ν1 ≠ ν2 with C_L = C_R = 0, both branching ratios are 0 whenever they are defined and finite |
| KPiNuNu.Pairs | flavio/physics/kdecays/kpinunu.py:63-64 | Computes the nested comprehension `[(x, y) for x in xs for y in ys]`, with the outer loop over `xs` |
| KPiNuNu.PairsMembership | flavio/physics/kdecays/kpinunu.py:62-64 | The comprehension over two flavour lists contains (x,y) exactly when x and y both occur, and has \|xs\|·\|ys\| entries |
| KPiNuNu.FlavourPairsOrder | flavio/physics/kdecays/kpinunu.py:62-64 | The nine flavour pairs, in the order the comprehension visits them |
| KPiNuNu.Collect | flavio/physics/kdecays/kpinunu.py:64 | Computes a list comprehension whose elements may raise: the values in order, or the first exception |
| KPiNuNu.CollectOutcome | flavio/physics/kdecays/kpinunu.py:62-64 | The list comprehension succeeds exactly when every element does, and then holds the values in order. Otherwise it raises the first element's exception |
| KPiNuNu.FAdd | flavio/physics/kdecays/kpinunu.py:65 | Addition of NumPy results: finite only when both terms are |
| KPiNuNu.Sum | flavio/physics/kdecays/kpinunu.py:65 | Computes Python's `sum`, the left fold from 0 |
| KPiNuNu.SumFinite | flavio/physics/kdecays/kpinunu.py:65 | A sum is finite exactly when every term is |
| KPiNuNu.SumNonNegative | flavio/physics/kdecays/kpinunu.py:65 | A sum of finite non-negative terms is finite and non-negative |
| KPiNuNu.BrKplusSummed | flavio/physics/kdecays/kpinunu.py:61-65 | Computes `br_kplus_pinunu_summed`: the sum of the nine per-flavour K⁺ ratios in comprehension order |
| KPiNuNu.BrKlongSummed | flavio/physics/kdecays/kpinunu.py:67-71 | Computes `br_klong_pinunu_summed`: the same for K_L |
| KPiNuNu.SummedOverNinePairs | flavio/physics/kdecays/kpinunu.py:61-71 | A flavour sum is defined exactly when all nine terms are, and finite exactly when all nine are finite. It is then their sum |
| KPiNuNu.BrKplusSummedIsSum | flavio/physics/kdecays/kpinunu.py:61-65 | `br_kplus_pinunu_summed` is defined exactly when all nine BR(K⁺, ν_i, ν_j) are. When it is finite, so are all nine, and it equals their sum |
| KPiNuNu.BrKplusSummedSign | flavio/physics/kdecays/kpinunu.py:61-65 | The summed K⁺ ratio is finite exactly when V_us ≠ 0, and is then non-negative for a non-negative semileptonic branching ratio |
| KPiNuNu.BrKlongSummedIsSum | flavio/physics/kdecays/kpinunu.py:67-71 | `br_klong_pinunu_summed` is defined exactly when all nine BR(K_L, ν_i, ν_j) are. When it is finite, so are all nine, and it equals their sum |
| KPiNuNu.BrKlongSummedFinite | flavio/physics/kdecays/kpinunu.py:67-71 | The summed K_L ratio is finite exactly when V_us ≠ 0 and τ_K⁺ ≠ 0 |
| KPiNuNu.SummedWithoutFlavourViolation | flavio/physics/kdecays/kpinunu.py:61-65 | Without flavour-violating coefficients, a finite summed K⁺ ratio is the sum of the three diagonal ones, which are finite |
| KPiNuNu.Description | flavio/physics/kdecays/kpinunu.py:78 | Computes the description `Branching ratio of $` + tex + `$` |
| KPiNuNu.TexLabel | flavio/physics/kdecays/kpinunu.py:79 | Computes the TeX label `$\langle \text{BR} \rangle(` + tex + `)$` |
| KPiNuNu.Register | flavio/physics/kdecays/kpinunu.py:75-80 | Registering a new name adds exactly one fresh observable with the description `Branching ratio of $tex$`, the TeX label and the bound prediction. Under the model's registry policy, a name already taken changes nothing and raises |
| KPiNuNu.RegisterObservables | flavio/physics/kdecays/kpinunu.py:73-87 | States the whole new catalogue under the model's registry policy. If `BR(K+->pinunu)` is taken, nothing changes. Otherwise it is a fresh observable filed under its own name, with its texts that evaluates to the summed K⁺ ratio. Then, if `BR(KL->pinunu)` is taken, only the K⁺ entry and binding were added. Otherwise the KL observable is also added with its texts and evaluates to the summed K_L ratio. All other observables and predictions stay as they were |
| Classes.Observable.constructor | flavio/physics/kdecays/kpinunu.py:76 | A new observable has the given name and an empty description and TeX label |
| Classes.Observable.SetDescription | flavio/physics/kdecays/kpinunu.py:78 | Sets the description and leaves the TeX label unchanged |
| Classes.Catalogue.constructor | flavio/physics/kdecays/kpinunu.py:73 | The catalogue starts with no observables and no predictions |
| Classes.Catalogue.Define | flavio/physics/kdecays/kpinunu.py:76 | A new name gives a fresh observable added under that name, leaving the predictions unchanged. Under the model's registry policy, a taken name raises and changes nothing |
| Classes.Catalogue.AttachPrediction | flavio/physics/kdecays/kpinunu.py:80 | Binds the prediction function to the observable name (the last binding wins). Afterwards the name evaluates to that function and every other name to what it did before. The observables are unchanged |

## Left out

- `ckm_bayesian_emcee.py`, the fitting example script: it configures a fit, runs an external Markov-chain sampler and writes the result to disk. It has no logic of its own.
- Floating-point rounding: reals are exact. π and √2 are the decimal literals Python prints for `math.pi` and `math.sqrt(2)`.
- Fractional powers: `**` with a non-integer exponent in `kpinunu_charm` is a parameter `pow` of the model. `0 ** negative` raising a division by zero is modelled. The complex result Python gives for a negative base is not.
- Imported helpers, modelled as arbitrary functions: `ckm.xi`, `ckm.get_ckm`, `wc_obj.get_wc`, `CL_SM`, `running.get_alpha`, `running.get_mb`, `wctot_dict`, `get_wceff`, `conjugate_par`, `conjugate_wc` and `angular.helicity_amps_v`. The form-factor and spectator-scattering providers are modelled the same way. Each is a total function, so the model assumes it returns normally. In Python, `running.get_alpha`, `ckm.xi`, `CL_SM`, `ckm.get_ckm`, `wctot_dict` and `get_wceff` all read `par` and can raise.
- BvllAmplitudes.PrefactorThreshold, KPiNuNu.AmplitudeDefined, KPiNuNu.AmplitudeFirstError, KPiNuNu.BrNormalizationSign, KPiNuNu.BrKplusSummedIsSum, KPiNuNu.BrKlongSummedIsSum: the failure conditions and the order of errors they state cover only the dictionary reads and divisions the modelled code performs itself. An exception raised inside an imported helper is not modelled.
- `wc_obj.get_wc` is not part of this model. The model assumes it returns a new dictionary on each call. Then the in-place `+=` in `kpinunu_amplitude` changes only that copy, and each call adds `CL_SM` once. If `get_wc` handed out a cached dictionary, repeated calls would add `CL_SM` again each time. Aliasing between the returned dictionary and `wc_obj` is not modelled.
- KPiNuNu.Amplitude: `s2w = 0` is modelled as Python's division by zero. This assumes `ckm.xi` and `get_wc` return Python numbers. If they returned NumPy scalars, `xi_t * X / s2w` would be non-finite instead.
- KPiNuNu.Sum: the non-finite outcome does not distinguish `inf`, `-inf` and `nan`.
- `config['renormalization scale']`: a fixed setting of each helper, not an argument.
- `add_dict` (`flavio/physics/common.py` is not part of this model): taken to be the pointwise sum of two amplitude sets with equal keys. Sets with different keys are reported as an error rather than merged.
- `flavio.classes` is not part of this model. `Observable`, `Prediction` and `AuxiliaryQuantity.get_instance` keep only what the K → πνν̄ registration and the amplitude code need:
  - a name can be defined once (a policy of the model, see below);
  - a prediction is bound by name;
  - a lookup of an unknown name fails.

  The catalogue is an explicit object rather than a global.
- Classes.Catalogue.Define, KPiNuNu.Register, KPiNuNu.RegisterObservables: the modelled code only constructs `Observable(name)`, and what `flavio.classes` does with a name already in use is not part of this model. Rejecting it with an error and leaving the catalogue unchanged is the registry policy this model chooses. The Python class may instead replace the earlier observable.
- `common.py`'s unused imports (`pkgutil`, `StringIO`, `scipy.interpolate`): plumbing for loading and interpolating data, not used by the modelled code.
- Common.BetaLInUnitInterval: `math.sqrt` is a parameter of `beta_l`. The result is proved only for a parameter that is the non-negative square root.
- BvllAmplitudes.GetFf, BvllAmplitudes.GetSs: a registered provider whose signature does not match the call is reported as an error. A Python call with the wrong arguments would raise a `TypeError`.
