/** Observables of K+ -> pi+ nu nu-bar and K_L -> pi0 nu nu-bar: the
    amplitude for one pair of neutrino flavours, the two branching ratios
    built from it, their sums over the nine flavour pairs, and the
    registration of the two summed observables in the catalogue. The CKM
    matrix, the Wilson-coefficient object, the Standard-Model coefficient,
    the running coupling and real powers are fields of `Externals`. */
module KPiNuNu {
  import opened Base
  import opened Classes

  /** The functions this module calls but does not define, each at the
      renormalisation scale configured for kaon decays. */
  datatype Externals = Externals(
    xi: (string, string, Par) -> Complex,  // ckm.xi(quark, transition)(par)
    getWc: (WcObj, string, Par) -> WcDict, // wc_obj.get_wc(label, scale, par), a fresh dictionary
    clSM: Par -> Complex,                  // wilsoncoefficients.CL_SM(par)
    vus: Par -> Complex,                   // ckm.get_ckm(par)[0,1]
    alphaE: Par -> real,                   // running.get_alpha(par, scale)['alpha_e']
    pow: (real, real) -> real)             // x ** y for a non-integer exponent y

  /* ---------------------------------------------------------------------- */
  /* Coefficient names                                                       */
  /* ---------------------------------------------------------------------- */

  /** The coefficient label of a neutrino-flavour pair. */
  function Label(nu1: string, nu2: string): string
  {
    "sd" + nu1 + nu2
  }

  function ClKey(channel: string): string
  {
    "CL_" + channel
  }

  function CrKey(channel: string): string
  {
    "CR_" + channel
  }

  /** The labels written out for a diagonal and an off-diagonal pair; the
      left- and right-handed keys of one label never coincide. */
  lemma LabelExamples(channel: string)
    ensures Label("nue", "nue") == "sdnuenue"
    ensures Label("nutau", "numu") == "sdnutaunumu"
    ensures ClKey(Label("nue", "nue")) == "CL_sdnuenue"
    ensures ClKey(channel) != CrKey(channel)
  {
    assert ClKey(channel)[1] != CrKey(channel)[1];
  }

  /* ---------------------------------------------------------------------- */
  /* The charm contribution                                                  */
  /* ---------------------------------------------------------------------- */

  /** `kpinunu_charm`: the approximate NNLO formula
      `P_c(X) = 0.379 (m_c/1.3)^2.155 (alpha_s/0.1187)^-1.417`. A zero
      `alpha_s` raises a division by zero, as `0.0 ** -1.417` does. */
  function Charm(pow: (real, real) -> real, par: Par): Result<real>
  {
    var mc :- Lookup(par, "m_c");
    var alphaS :- Lookup(par, "alpha_s");
    if alphaS == 0.0 then Err(ZeroDivisionError)
    else Ok(0.379 * pow(mc / 1.3, 2.155) * pow(alphaS / 0.1187, -1.417))
  }

  /** The charm term fails exactly when `m_c` or `alpha_s` is missing or
      `alpha_s` is zero; at the reference point `m_c = 1.3`,
      `alpha_s = 0.1187` it is the bare coefficient 0.379. */
  lemma CharmReferencePoint(pow: (real, real) -> real, par: Par)
    ensures Charm(pow, par).Ok? <==> "m_c" in par && "alpha_s" in par && par["alpha_s"] != 0.0
    ensures (forall y :: pow(1.0, y) == 1.0) && "m_c" in par && par["m_c"] == 1.3
            && "alpha_s" in par && par["alpha_s"] == 0.1187
            ==> Charm(pow, par) == Ok(0.379)
  {
  }

  /* ---------------------------------------------------------------------- */
  /* The amplitude                                                           */
  /* ---------------------------------------------------------------------- */

  /** The charm piece added on the flavour diagonal,
      `xi_c (P_c + delta P_cu) |V_us|^4 / s2w`. */
  function CharmTerm(xiC: Complex, pcx: real, deltaPcu: real, vus2: real, s2w: real): Complex
    requires s2w != 0.0
  {
    Div(Scale(Scale(xiC, pcx + deltaPcu), vus2 * vus2), s2w)
  }

  /** The amplitude in closed form, with the factor `s2w` of the top term
      cancelled: `-xi_t (C_L + C_R)`, where on the flavour diagonal `C_L`
      includes the Standard-Model value and the charm term is added. The
      exception raised is the one the step-by-step computation meets
      first. */
  function Amplitude(ext: Externals, wcObj: WcObj, par: Par, nu1: string, nu2: string): Result<Complex>
  {
    var channel := Label(nu1, nu2);
    var wc := ext.getWc(wcObj, channel, par);
    if nu1 == nu2 && ClKey(channel) !in wc then Err(KeyError(Name(ClKey(channel))))
    else
      var s2w :- Lookup(par, "s2w");
      var cl :- Lookup(wc, ClKey(channel));
      var cr :- Lookup(wc, CrKey(channel));
      var pcx :- Charm(ext.pow, par);
      var deltaPcu :- Lookup(par, "deltaPcu");
      if s2w == 0.0 then Err(ZeroDivisionError)
      else
        var clTotal := if nu1 == nu2 then Add(cl, ext.clSM(par)) else cl;
        var top := Mul(ext.xi("t", "sd", par), Neg(Add(clTotal, cr)));
        if nu1 == nu2 then
          Ok(Add(top, CharmTerm(ext.xi("c", "sd", par), pcx, deltaPcu, AbsSquared(ext.vus(par)), s2w)))
        else Ok(top)
  }

  /** `kpinunu_amplitude`: reads the coefficients, adds the Standard-Model
      value to the left-handed one in place on the flavour diagonal, forms
      `X = -(C_L + C_R) s2w`, and accumulates the top term `xi_t X / s2w` and,
      on the diagonal, the charm term. */
  method KpinunuAmplitude(ext: Externals, wcObj: WcObj, par: Par, nu1: string, nu2: string) returns (r: Result<Complex>)
    ensures r == Amplitude(ext, wcObj, par, nu1, nu2)
  {
    var xiT := ext.xi("t", "sd", par);
    var xiC := ext.xi("c", "sd", par);
    var channel := Label(nu1, nu2);
    var wc := ext.getWc(wcObj, channel, par);
    if nu1 == nu2 {
      if ClKey(channel) !in wc {
        return Err(KeyError(Name(ClKey(channel))));
      }
      wc := wc[ClKey(channel) := Add(wc[ClKey(channel)], ext.clSM(par))];
    }
    LabelExamples(channel);
    var s2w :- Lookup(par, "s2w");
    var cl :- Lookup(wc, ClKey(channel));
    var cr :- Lookup(wc, CrKey(channel));
    var x := Scale(Neg(Add(cl, cr)), s2w);
    var vus2 := AbsSquared(ext.vus(par));
    var pcx :- Charm(ext.pow, par);
    var deltaPcu :- Lookup(par, "deltaPcu");
    if s2w == 0.0 {
      return Err(ZeroDivisionError);
    }
    var amp := Div(Mul(xiT, x), s2w);
    ScaleThenDivCancels(xiT, Neg(Add(cl, cr)), s2w);
    if nu1 == nu2 {
      amp := Add(amp, CharmTerm(xiC, pcx, deltaPcu, vus2, s2w));
    }
    return Ok(amp);
  }

  /** The amplitude is computable exactly when every key it reads is present
      and neither `s2w` nor `alpha_s` is zero. */
  lemma AmplitudeDefined(ext: Externals, wcObj: WcObj, par: Par, nu1: string, nu2: string)
    ensures var wc := ext.getWc(wcObj, Label(nu1, nu2), par);
            Amplitude(ext, wcObj, par, nu1, nu2).Ok?
            <==> ClKey(Label(nu1, nu2)) in wc && CrKey(Label(nu1, nu2)) in wc
                 && "s2w" in par && par["s2w"] != 0.0
                 && "m_c" in par && "alpha_s" in par && par["alpha_s"] != 0.0
                 && "deltaPcu" in par
  {
  }

  /** On the diagonal the in-place update reads the left-handed coefficient
      before anything else, so its absence is reported even when `s2w` is
      missing too; off the diagonal `s2w` is read first. */
  lemma AmplitudeFirstError(ext: Externals, wcObj: WcObj, par: Par, nu1: string, nu2: string)
    ensures var channel := Label(nu1, nu2);
            nu1 == nu2 && ClKey(channel) !in ext.getWc(wcObj, channel, par)
            ==> Amplitude(ext, wcObj, par, nu1, nu2) == Err(KeyError(Name(ClKey(channel))))
    ensures nu1 != nu2 && "s2w" !in par
            ==> Amplitude(ext, wcObj, par, nu1, nu2) == Err(KeyError(Name("s2w")))
  {
  }

  /** Off the flavour diagonal the amplitude is the top term alone: it does
      not change with the Standard-Model coefficient, with `xi_c` or with
      `V_us`. */
  lemma OffDiagonalIsTopOnly(ext: Externals, clSM': Par -> Complex, vus': Par -> Complex,
                             xi': (string, string, Par) -> Complex,
                             wcObj: WcObj, par: Par, nu1: string, nu2: string)
    requires nu1 != nu2
    requires forall p :: xi'("t", "sd", p) == ext.xi("t", "sd", p)
    ensures Amplitude(ext.(clSM := clSM', vus := vus', xi := xi'), wcObj, par, nu1, nu2)
         == Amplitude(ext, wcObj, par, nu1, nu2)
  {
  }

  /** On the flavour diagonal the amplitude is the off-diagonal form plus
      exactly two additions: `-xi_t C_L^SM` and the charm term. */
  lemma DiagonalAddsStandardModelAndCharm(ext: Externals, wcObj: WcObj, par: Par, nu: string)
    requires Amplitude(ext, wcObj, par, nu, nu).Ok?
    ensures var wc := ext.getWc(wcObj, Label(nu, nu), par);
            var xiT := ext.xi("t", "sd", par);
            ClKey(Label(nu, nu)) in wc && CrKey(Label(nu, nu)) in wc && Charm(ext.pow, par).Ok?
            && "s2w" in par && par["s2w"] != 0.0 && "deltaPcu" in par
            && Amplitude(ext, wcObj, par, nu, nu).value
               == Add(Add(Mul(xiT, Neg(Add(wc[ClKey(Label(nu, nu))], wc[CrKey(Label(nu, nu))]))),
                          Mul(xiT, Neg(ext.clSM(par)))),
                      CharmTerm(ext.xi("c", "sd", par), Charm(ext.pow, par).value, par["deltaPcu"],
                                AbsSquared(ext.vus(par)), par["s2w"]))
  {
    AmplitudeDefined(ext, wcObj, par, nu, nu);
    var wc := ext.getWc(wcObj, Label(nu, nu), par);
    var cl, cr, sm := wc[ClKey(Label(nu, nu))], wc[CrKey(Label(nu, nu))], ext.clSM(par);
    assert Neg(Add(Add(cl, sm), cr)) == Add(Neg(Add(cl, cr)), Neg(sm));
    MulDistributes(ext.xi("t", "sd", par), Neg(Add(cl, cr)), Neg(sm));
  }

  /* ---------------------------------------------------------------------- */
  /* Branching ratios                                                        */
  /* ---------------------------------------------------------------------- */

  /** `br_normalization`: `alpha_e^2 BR(K+ -> pi0 e+ nu) / 2 / pi^2 / |V_us|^2`,
      normalising to the measured semileptonic branching ratio. `|V_us|` is
      an entry of the NumPy CKM array, so a vanishing `V_us` gives NumPy's
      `inf` or `nan` rather than an exception. */
  function BrNormalization(ext: Externals, par: Par): Result<Float>
  {
    var alphaem := ext.alphaE(par);
    var brKl3 :- Lookup(par, "BR(K+->pienu)");
    var vus2 := AbsSquared(ext.vus(par));
    if vus2 == 0.0 then Ok(NonFinite)
    else Ok(Finite(alphaem * alphaem * brKl3 / 2.0 / (Pi * Pi) / vus2))
  }

  /** The normalisation raises exactly when the semileptonic branching ratio
      is missing; it is finite exactly when `V_us` does not vanish, and then
      non-negative whenever that branching ratio is. */
  lemma BrNormalizationSign(ext: Externals, par: Par)
    ensures BrNormalization(ext, par).Ok? <==> "BR(K+->pienu)" in par
    ensures BrNormalization(ext, par).Ok? ==> (BrNormalization(ext, par).value.Finite? <==> ext.vus(par) != Zero)
    ensures BrNormalization(ext, par).Ok? && BrNormalization(ext, par).value.Finite? && par["BR(K+->pienu)"] >= 0.0
            ==> BrNormalization(ext, par).value.x >= 0.0
  {
    AbsSquaredPositive(ext.vus(par));
    if BrNormalization(ext, par).Ok? && ext.vus(par) != Zero && par["BR(K+->pienu)"] >= 0.0 {
      NormalizationFormulaSign(ext.alphaE(par), par["BR(K+->pienu)"], AbsSquared(ext.vus(par)));
    }
  }

  lemma NormalizationFormulaSign(a: real, br: real, v: real)
    requires br >= 0.0 && v > 0.0
    ensures a * a * br / 2.0 / (Pi * Pi) / v >= 0.0
  {
    SquareNonNegative(a);
    ProductNonNegative(a * a, br);
    QuotientNonNegative(a * a * br / 2.0, Pi * Pi);
    QuotientNonNegative(a * a * br / 2.0 / (Pi * Pi), v);
  }

  /** `br_kplus_pinunu`: `|amp|^2` times the normalisation; a non-finite
      normalisation makes the product non-finite (`0 * inf` is `nan`). */
  function BrKplus(ext: Externals, wcObj: WcObj, par: Par, nu1: string, nu2: string): Result<Float>
  {
    var amp :- Amplitude(ext, wcObj, par, nu1, nu2);
    var norm :- BrNormalization(ext, par);
    if norm.NonFinite? then Ok(NonFinite) else Ok(Finite(AbsSquared(amp) * norm.x))
  }

  /** `br_klong_pinunu`: `Im(amp)^2` times the normalisation and the ratio of
      the K_L and K+ lifetimes. Both lifetimes are read even when the
      normalisation is not finite; the product is then a NumPy scalar, so a
      zero K+ lifetime also gives `inf` or `nan`. */
  function BrKlong(ext: Externals, wcObj: WcObj, par: Par, nu1: string, nu2: string): Result<Float>
  {
    var amp :- Amplitude(ext, wcObj, par, nu1, nu2);
    var norm :- BrNormalization(ext, par);
    var tauL :- Lookup(par, "tau_KL");
    var tauP :- Lookup(par, "tau_K+");
    if norm.NonFinite? || tauP == 0.0 then Ok(NonFinite)
    else Ok(Finite(amp.im * amp.im * norm.x * tauL / tauP))
  }

  /** The charged branching ratio is finite exactly when the normalisation
      is; it is then non-negative whenever the normalisation is, and zero
      when the amplitude is. */
  lemma BrKplusNonNegative(ext: Externals, wcObj: WcObj, par: Par, nu1: string, nu2: string)
    requires BrKplus(ext, wcObj, par, nu1, nu2).Ok?
    ensures BrKplus(ext, wcObj, par, nu1, nu2).value.Finite? <==> BrNormalization(ext, par).value.Finite?
    ensures BrKplus(ext, wcObj, par, nu1, nu2).value.Finite? && BrNormalization(ext, par).value.x >= 0.0
            ==> BrKplus(ext, wcObj, par, nu1, nu2).value.x >= 0.0
    ensures BrKplus(ext, wcObj, par, nu1, nu2).value.Finite? && Amplitude(ext, wcObj, par, nu1, nu2).value == Zero
            ==> BrKplus(ext, wcObj, par, nu1, nu2).value.x == 0.0
  {
    var amp := Amplitude(ext, wcObj, par, nu1, nu2).value;
    var norm := BrNormalization(ext, par).value;
    AbsSquaredPositive(amp);
    if norm.Finite? && norm.x >= 0.0 {
      ProductNonNegative(AbsSquared(amp), norm.x);
    }
  }

  /** The neutral branching ratio is finite exactly when the normalisation
      is and the K+ lifetime is not zero. It sees only the imaginary part of
      the amplitude: it vanishes when the amplitude is real and, with a
      non-zero normalisation and K_L lifetime, only then. */
  lemma BrKlongImaginaryOnly(ext: Externals, wcObj: WcObj, par: Par, nu1: string, nu2: string)
    requires BrKlong(ext, wcObj, par, nu1, nu2).Ok?
    ensures BrKlong(ext, wcObj, par, nu1, nu2).value.Finite?
            <==> BrNormalization(ext, par).value.Finite? && par["tau_K+"] != 0.0
    ensures BrKlong(ext, wcObj, par, nu1, nu2).value.Finite? && Amplitude(ext, wcObj, par, nu1, nu2).value.im == 0.0
            ==> BrKlong(ext, wcObj, par, nu1, nu2).value.x == 0.0
    ensures BrKlong(ext, wcObj, par, nu1, nu2).value.Finite? && BrNormalization(ext, par).value.x != 0.0
            && par["tau_KL"] != 0.0 && BrKlong(ext, wcObj, par, nu1, nu2).value.x == 0.0
            ==> Amplitude(ext, wcObj, par, nu1, nu2).value.im == 0.0
  {
    var im := Amplitude(ext, wcObj, par, nu1, nu2).value.im;
    var norm := BrNormalization(ext, par).value;
    if im != 0.0 && norm.Finite? && norm.x != 0.0 && par["tau_KL"] != 0.0 && par["tau_K+"] != 0.0 {
      KlongFormulaNonzero(im, norm.x, par["tau_KL"], par["tau_K+"]);
    }
  }

  lemma KlongFormulaNonzero(im: real, n: real, t: real, p: real)
    requires im != 0.0 && n != 0.0 && t != 0.0 && p != 0.0
    ensures im * im * n * t / p != 0.0
  {
    assert im * im / im == im;
    assert im * im * n / n == im * im;
    assert im * im * n * t / t == im * im * n;
    assert im * im * n * t / p * p == im * im * n * t;
  }

  /** Since `Im(amp)^2 <= |amp|^2`, the neutral branching ratio never exceeds
      the charged one times the lifetime ratio, for a finite non-negative
      normalisation and non-negative lifetimes. */
  lemma KlongBoundedByKplus(ext: Externals, wcObj: WcObj, par: Par, nu1: string, nu2: string)
    requires BrKlong(ext, wcObj, par, nu1, nu2).Ok?
    requires BrNormalization(ext, par).value.Finite? && BrNormalization(ext, par).value.x >= 0.0
    requires par["tau_KL"] >= 0.0 && par["tau_K+"] > 0.0
    ensures BrKplus(ext, wcObj, par, nu1, nu2).Ok? && BrKplus(ext, wcObj, par, nu1, nu2).value.Finite?
    ensures BrKlong(ext, wcObj, par, nu1, nu2).value.Finite?
    ensures BrKlong(ext, wcObj, par, nu1, nu2).value.x
            <= BrKplus(ext, wcObj, par, nu1, nu2).value.x * par["tau_KL"] / par["tau_K+"]
  {
    var amp := Amplitude(ext, wcObj, par, nu1, nu2).value;
    KlongFormulaBound(amp.re, amp.im, BrNormalization(ext, par).value.x, par["tau_KL"], par["tau_K+"]);
  }

  lemma KlongFormulaBound(re: real, im: real, n: real, t: real, p: real)
    requires n >= 0.0 && t >= 0.0 && p > 0.0
    ensures im * im * n * t / p <= (re * re + im * im) * n * t / p
  {
    calc {
      (re * re + im * im) * n * t / p - im * im * n * t / p;
      ==
      re * re * n * t / p;
    }
    assert re * re * n * t / p >= 0.0 by {
      assert re * re >= 0.0;
      assert re * re * n >= 0.0;
      assert re * re * n * t >= 0.0;
    }
  }

  /** Off the flavour diagonal the amplitude is `-xi_t (C_L + C_R)` with the
      coefficients exactly as the coefficient object returns them. */
  lemma OffDiagonalTopTerm(ext: Externals, wcObj: WcObj, par: Par, nu1: string, nu2: string)
    requires nu1 != nu2
    requires Amplitude(ext, wcObj, par, nu1, nu2).Ok?
    ensures var wc := ext.getWc(wcObj, Label(nu1, nu2), par);
            ClKey(Label(nu1, nu2)) in wc && CrKey(Label(nu1, nu2)) in wc
            && Amplitude(ext, wcObj, par, nu1, nu2).value
               == Mul(ext.xi("t", "sd", par), Neg(Add(wc[ClKey(Label(nu1, nu2))], wc[CrKey(Label(nu1, nu2))])))
  {
  }

  /** With no lepton-flavour-violating coefficients an off-diagonal pair has
      zero amplitude. */
  lemma OffDiagonalZeroCoefficients(ext: Externals, wcObj: WcObj, par: Par, nu1: string, nu2: string)
    requires nu1 != nu2
    requires Amplitude(ext, wcObj, par, nu1, nu2).Ok?
    requires var wc := ext.getWc(wcObj, Label(nu1, nu2), par);
             ClKey(Label(nu1, nu2)) in wc && wc[ClKey(Label(nu1, nu2))] == Zero
             && CrKey(Label(nu1, nu2)) in wc && wc[CrKey(Label(nu1, nu2))] == Zero
    ensures Amplitude(ext, wcObj, par, nu1, nu2) == Ok(Zero)
  {
    OffDiagonalTopTerm(ext, wcObj, par, nu1, nu2);
    assert Neg(Add(Zero, Zero)) == Zero;
    MulZero(ext.xi("t", "sd", par));
  }

  /** ... and so zero charged and neutral branching ratios wherever they are
      finite. */
  lemma OffDiagonalZeroRatios(ext: Externals, wcObj: WcObj, par: Par, nu1: string, nu2: string)
    requires nu1 != nu2
    requires var wc := ext.getWc(wcObj, Label(nu1, nu2), par);
             ClKey(Label(nu1, nu2)) in wc && wc[ClKey(Label(nu1, nu2))] == Zero
             && CrKey(Label(nu1, nu2)) in wc && wc[CrKey(Label(nu1, nu2))] == Zero
    ensures BrKplus(ext, wcObj, par, nu1, nu2).Ok? && BrKplus(ext, wcObj, par, nu1, nu2).value.Finite?
            ==> BrKplus(ext, wcObj, par, nu1, nu2).value.x == 0.0
    ensures BrKlong(ext, wcObj, par, nu1, nu2).Ok? && BrKlong(ext, wcObj, par, nu1, nu2).value.Finite?
            ==> BrKlong(ext, wcObj, par, nu1, nu2).value.x == 0.0
  {
    if BrKplus(ext, wcObj, par, nu1, nu2).Ok? {
      OffDiagonalZeroCoefficients(ext, wcObj, par, nu1, nu2);
      BrKplusNonNegative(ext, wcObj, par, nu1, nu2);
    }
    if BrKlong(ext, wcObj, par, nu1, nu2).Ok? {
      OffDiagonalZeroCoefficients(ext, wcObj, par, nu1, nu2);
      BrKlongImaginaryOnly(ext, wcObj, par, nu1, nu2);
    }
  }

  /* ---------------------------------------------------------------------- */
  /* Sums over neutrino flavours                                             */
  /* ---------------------------------------------------------------------- */

  const Flavours: seq<string> := ["nue", "numu", "nutau"]

  type FlavourPair = (string, string)

  /** `[(x, y) for x in xs for y in ys]`: the outer loop over `xs`. */
  function Pairs<X>(xs: seq<X>, ys: seq<X>): seq<(X, X)>
  {
    if xs == [] then [] else seq(|ys|, j requires 0 <= j < |ys| => (xs[0], ys[j])) + Pairs(xs[1..], ys)
  }

  /** A pair occurs in the product exactly when both components occur, and
      the product has `|xs| |ys|` entries. */
  lemma {:induction false} PairsMembership<X>(xs: seq<X>, ys: seq<X>, x: X, y: X)
    ensures (x, y) in Pairs(xs, ys) <==> x in xs && y in ys
    ensures |Pairs(xs, ys)| == |xs| * |ys|
  {
    if xs != [] {
      PairsMembership(xs[1..], ys, x, y);
      assert xs == [xs[0]] + xs[1..];
      var row := seq(|ys|, j requires 0 <= j < |ys| => (xs[0], ys[j]));
      assert (x, y) in row <==> x == xs[0] && y in ys by {
        if x == xs[0] && y in ys {
          var j :| 0 <= j < |ys| && ys[j] == y;
          assert row[j] == (x, y);
        }
      }
      calc {
        |Pairs(xs, ys)|;
        ==
        |ys| + (|xs| - 1) * |ys|;
        ==
        |xs| * |ys|;
      }
    }
  }

  /** The nine flavour pairs in the order the sums visit them. */
  lemma FlavourPairsOrder()
    ensures Pairs(Flavours, Flavours) == [
      ("nue", "nue"), ("nue", "numu"), ("nue", "nutau"),
      ("numu", "nue"), ("numu", "numu"), ("numu", "nutau"),
      ("nutau", "nue"), ("nutau", "numu"), ("nutau", "nutau")]
  {
    var f := Flavours;
    assert f[1..][1..][1..] == [];
    assert Pairs(f[1..][1..], f) == [("nutau", "nue"), ("nutau", "numu"), ("nutau", "nutau")];
    assert Pairs(f[1..], f) == [("numu", "nue"), ("numu", "numu"), ("numu", "nutau")] + Pairs(f[1..][1..], f);
  }

  /** A list comprehension `[f(x) for x in xs]`: the values in order, or the
      exception of the first element whose evaluation raises. */
  function Collect<X, Y>(f: X -> Result<Y>, xs: seq<X>): Result<seq<Y>>
  {
    if xs == [] then Ok([])
    else
      var y :- f(xs[0]);
      var ys :- Collect(f, xs[1..]);
      Ok([y] + ys)
  }

  lemma {:induction false} CollectOutcome<X, Y>(f: X -> Result<Y>, xs: seq<X>)
    ensures Collect(f, xs).Ok? <==> forall i :: 0 <= i < |xs| ==> f(xs[i]).Ok?
    ensures Collect(f, xs).Ok? ==>
              |Collect(f, xs).value| == |xs| && forall i :: 0 <= i < |xs| ==> Collect(f, xs).value[i] == f(xs[i]).value
    ensures Collect(f, xs).Err? ==>
              exists i :: 0 <= i < |xs| && f(xs[i]).Err? && Collect(f, xs).error == f(xs[i]).error
                          && forall j :: 0 <= j < i ==> f(xs[j]).Ok?
  {
    if xs != [] {
      CollectOutcome(f, xs[1..]);
      if f(xs[0]).Ok? && Collect(f, xs[1..]).Err? {
        var i :| 0 <= i < |xs[1..]| && f(xs[1..][i]).Err? && Collect(f, xs[1..]).error == f(xs[1..][i]).error
                 && forall j :: 0 <= j < i ==> f(xs[1..][j]).Ok?;
        assert f(xs[i + 1]).Err? && forall j :: 0 <= j < i + 1 ==> f(xs[j]).Ok? by {
          forall j | 0 <= j < i + 1
            ensures f(xs[j]).Ok?
          {
            if j > 0 {
              assert xs[j] == xs[1..][j - 1];
            }
          }
        }
      }
      if f(xs[0]).Ok? && Collect(f, xs[1..]).Ok? {
        forall i | 0 <= i < |xs|
          ensures Collect(f, xs).value[i] == f(xs[i]).value
        {
          if i > 0 {
            assert xs[i] == xs[1..][i - 1];
          }
        }
      }
      if Collect(f, xs).Ok? {
        forall i | 0 <= i < |xs|
          ensures f(xs[i]).Ok?
        {
          if i > 0 {
            assert xs[i] == xs[1..][i - 1];
          }
        }
      }
    }
  }

  /** NumPy addition: finite only when both terms are. */
  function FAdd(a: Float, b: Float): Float
  {
    if a.Finite? && b.Finite? then Finite(a.x + b.x) else NonFinite
  }

  /** Python's `sum`: `((0 + s[0]) + s[1]) + ...`. */
  function Sum(s: seq<Float>): Float
  {
    if s == [] then Finite(0.0) else FAdd(Sum(s[..|s| - 1]), s[|s| - 1])
  }

  /** A sum is finite exactly when every term is. */
  lemma {:induction false} SumFinite(s: seq<Float>)
    ensures Sum(s).Finite? <==> forall i :: 0 <= i < |s| ==> s[i].Finite?
  {
    if s != [] {
      var front := s[..|s| - 1];
      SumFinite(front);
      if Sum(s).Finite? {
        forall i | 0 <= i < |s|
          ensures s[i].Finite?
        {
          if i < |s| - 1 {
            assert s[i] == front[i];
          }
        }
      }
      if forall i :: 0 <= i < |s| ==> s[i].Finite? {
        forall i | 0 <= i < |front|
          ensures front[i].Finite?
        {
          assert front[i] == s[i];
        }
      }
    }
  }

  /** A sum of finite non-negative terms is finite and non-negative. */
  lemma {:induction false} SumNonNegative(s: seq<Float>)
    requires forall i :: 0 <= i < |s| ==> s[i].Finite? && s[i].x >= 0.0
    ensures Sum(s).Finite? && Sum(s).x >= 0.0
  {
    if s != [] {
      var front := s[..|s| - 1];
      forall i | 0 <= i < |front|
        ensures front[i].Finite? && front[i].x >= 0.0
      {
        assert front[i] == s[i];
      }
      SumNonNegative(front);
    }
  }

  /** `br_kplus_pinunu_summed`. */
  function BrKplusSummed(ext: Externals, wcObj: WcObj, par: Par): Result<Float>
  {
    var brs :- Collect((pair: FlavourPair) => BrKplus(ext, wcObj, par, pair.0, pair.1), Pairs(Flavours, Flavours));
    Ok(Sum(brs))
  }

  /** `br_klong_pinunu_summed`. */
  function BrKlongSummed(ext: Externals, wcObj: WcObj, par: Par): Result<Float>
  {
    var brs :- Collect((pair: FlavourPair) => BrKlong(ext, wcObj, par, pair.0, pair.1), Pairs(Flavours, Flavours));
    Ok(Sum(brs))
  }

  /** The sum of nine finite terms, in the order written. */
  function Sum9(b: seq<Float>): real
    requires |b| == 9 && forall i :: 0 <= i < 9 ==> b[i].Finite?
  {
    b[0].x + b[1].x + b[2].x + b[3].x + b[4].x + b[5].x + b[6].x + b[7].x + b[8].x
  }

  lemma SumOfNine(s: seq<Float>)
    requires |s| == 9 && forall i :: 0 <= i < 9 ==> s[i].Finite?
    ensures Sum(s) == Finite(Sum9(s))
  {
    assert Sum(s[..1]) == Finite(s[0].x) by { assert s[..1][..0] == []; }
    assert Sum(s[..2]) == FAdd(Sum(s[..1]), s[1]) by { assert s[..2][..1] == s[..1]; }
    assert Sum(s[..3]) == FAdd(Sum(s[..2]), s[2]) by { assert s[..3][..2] == s[..2]; }
    assert Sum(s[..4]) == FAdd(Sum(s[..3]), s[3]) by { assert s[..4][..3] == s[..3]; }
    assert Sum(s[..5]) == FAdd(Sum(s[..4]), s[4]) by { assert s[..5][..4] == s[..4]; }
    assert Sum(s[..6]) == FAdd(Sum(s[..5]), s[5]) by { assert s[..6][..5] == s[..5]; }
    assert Sum(s[..7]) == FAdd(Sum(s[..6]), s[6]) by { assert s[..7][..6] == s[..6]; }
    assert Sum(s[..8]) == FAdd(Sum(s[..7]), s[7]) by { assert s[..8][..7] == s[..7]; }
    assert s[..9] == s;
  }

  /** A flavour-summed branching ratio is defined exactly when all nine
      per-flavour ones are; it is finite exactly when all nine are, and is
      then their sum over the pairs in the order
      `(nue,nue), (nue,numu), ..., (nutau,nutau)`. */
  lemma {:induction false} SummedOverNinePairs(br: FlavourPair -> Result<Float>)
    ensures var c := Collect(br, Pairs(Flavours, Flavours));
            (c.Ok? <==> forall a, b :: a in Flavours && b in Flavours ==> br((a, b)).Ok?)
            && (c.Ok? ==> (Sum(c.value).Finite?
                           <==> forall a, b :: a in Flavours && b in Flavours ==> br((a, b)).Ok? && br((a, b)).value.Finite?))
            && (c.Ok? && Sum(c.value).Finite? ==>
                  Sum(c.value).x == br(("nue", "nue")).value.x + br(("nue", "numu")).value.x + br(("nue", "nutau")).value.x
                                    + br(("numu", "nue")).value.x + br(("numu", "numu")).value.x + br(("numu", "nutau")).value.x
                                    + br(("nutau", "nue")).value.x + br(("nutau", "numu")).value.x + br(("nutau", "nutau")).value.x)
  {
    var ps := Pairs(Flavours, Flavours);
    FlavourPairsOrder();
    CollectOutcome(br, ps);
    var c := Collect(br, ps);
    forall a, b | a in Flavours && b in Flavours && c.Ok?
      ensures br((a, b)).Ok?
    {
      PairsMembership(Flavours, Flavours, a, b);
    }
    if forall a, b :: a in Flavours && b in Flavours ==> br((a, b)).Ok? {
      forall i | 0 <= i < |ps|
        ensures br(ps[i]).Ok?
      {
        PairsMembership(Flavours, Flavours, ps[i].0, ps[i].1);
      }
    }
    if c.Ok? {
      SumFinite(c.value);
      if Sum(c.value).Finite? {
        forall a, b | a in Flavours && b in Flavours
          ensures br((a, b)).value.Finite?
        {
          PairsMembership(Flavours, Flavours, a, b);
        }
        SumOfNine(c.value);
      }
      if forall a, b :: a in Flavours && b in Flavours ==> br((a, b)).Ok? && br((a, b)).value.Finite? {
        forall i | 0 <= i < |ps|
          ensures c.value[i].Finite?
        {
          PairsMembership(Flavours, Flavours, ps[i].0, ps[i].1);
        }
      }
    }
  }

  /** The charged summed branching ratio is defined exactly when all nine
      per-flavour ratios are; when it is finite, so are all nine, and it is
      their sum. */
  lemma BrKplusSummedIsSum(ext: Externals, wcObj: WcObj, par: Par)
    ensures BrKplusSummed(ext, wcObj, par).Ok? <==>
              forall a, b :: a in Flavours && b in Flavours ==> BrKplus(ext, wcObj, par, a, b).Ok?
    ensures BrKplusSummed(ext, wcObj, par).Ok? && BrKplusSummed(ext, wcObj, par).value.Finite? ==>
              (forall a, b :: a in Flavours && b in Flavours ==>
                 BrKplus(ext, wcObj, par, a, b).Ok? && BrKplus(ext, wcObj, par, a, b).value.Finite?)
              && BrKplusSummed(ext, wcObj, par).value.x
                 == BrKplus(ext, wcObj, par, "nue", "nue").value.x + BrKplus(ext, wcObj, par, "nue", "numu").value.x
                    + BrKplus(ext, wcObj, par, "nue", "nutau").value.x + BrKplus(ext, wcObj, par, "numu", "nue").value.x
                    + BrKplus(ext, wcObj, par, "numu", "numu").value.x + BrKplus(ext, wcObj, par, "numu", "nutau").value.x
                    + BrKplus(ext, wcObj, par, "nutau", "nue").value.x + BrKplus(ext, wcObj, par, "nutau", "numu").value.x
                    + BrKplus(ext, wcObj, par, "nutau", "nutau").value.x
  {
    var br := (pair: FlavourPair) => BrKplus(ext, wcObj, par, pair.0, pair.1);
    SummedOverNinePairs(br);
    var c := Collect(br, Pairs(Flavours, Flavours));
    assert BrKplusSummed(ext, wcObj, par) == if c.Ok? then Ok(Sum(c.value)) else Err(c.error);
    assert forall a, b :: br((a, b)) == BrKplus(ext, wcObj, par, a, b);
  }

  /** The charged summed branching ratio is finite exactly when `V_us` does
      not vanish, and is then non-negative whenever the semileptonic
      branching ratio is. */
  lemma BrKplusSummedSign(ext: Externals, wcObj: WcObj, par: Par)
    requires BrKplusSummed(ext, wcObj, par).Ok?
    ensures BrKplusSummed(ext, wcObj, par).value.Finite? <==> ext.vus(par) != Zero
    ensures BrKplusSummed(ext, wcObj, par).value.Finite? && par["BR(K+->pienu)"] >= 0.0
            ==> BrKplusSummed(ext, wcObj, par).value.x >= 0.0
  {
    var br := (pair: FlavourPair) => BrKplus(ext, wcObj, par, pair.0, pair.1);
    var ps := Pairs(Flavours, Flavours);
    CollectOutcome(br, ps);
    var c := Collect(br, ps).value;
    assert c[0] == BrKplus(ext, wcObj, par, ps[0].0, ps[0].1).value;
    BrKplusNonNegative(ext, wcObj, par, ps[0].0, ps[0].1);
    BrNormalizationSign(ext, par);
    SumFinite(c);
    forall i | 0 <= i < |c|
      ensures c[i].Finite? <==> BrNormalization(ext, par).value.Finite?
      ensures c[i].Finite? && BrNormalization(ext, par).value.x >= 0.0 ==> c[i].x >= 0.0
    {
      BrKplusNonNegative(ext, wcObj, par, ps[i].0, ps[i].1);
    }
    if Sum(c).Finite? && par["BR(K+->pienu)"] >= 0.0 {
      SumNonNegative(c);
    }
  }

  /** The neutral summed branching ratio is defined exactly when all nine
      per-flavour ratios are; when it is finite, so are all nine, and it is
      their sum. */
  lemma BrKlongSummedIsSum(ext: Externals, wcObj: WcObj, par: Par)
    ensures BrKlongSummed(ext, wcObj, par).Ok? <==>
              forall a, b :: a in Flavours && b in Flavours ==> BrKlong(ext, wcObj, par, a, b).Ok?
    ensures BrKlongSummed(ext, wcObj, par).Ok? && BrKlongSummed(ext, wcObj, par).value.Finite? ==>
              (forall a, b :: a in Flavours && b in Flavours ==>
                 BrKlong(ext, wcObj, par, a, b).Ok? && BrKlong(ext, wcObj, par, a, b).value.Finite?)
              && BrKlongSummed(ext, wcObj, par).value.x
                 == BrKlong(ext, wcObj, par, "nue", "nue").value.x + BrKlong(ext, wcObj, par, "nue", "numu").value.x
                    + BrKlong(ext, wcObj, par, "nue", "nutau").value.x + BrKlong(ext, wcObj, par, "numu", "nue").value.x
                    + BrKlong(ext, wcObj, par, "numu", "numu").value.x + BrKlong(ext, wcObj, par, "numu", "nutau").value.x
                    + BrKlong(ext, wcObj, par, "nutau", "nue").value.x + BrKlong(ext, wcObj, par, "nutau", "numu").value.x
                    + BrKlong(ext, wcObj, par, "nutau", "nutau").value.x
  {
    var br := (pair: FlavourPair) => BrKlong(ext, wcObj, par, pair.0, pair.1);
    SummedOverNinePairs(br);
    var c := Collect(br, Pairs(Flavours, Flavours));
    assert BrKlongSummed(ext, wcObj, par) == if c.Ok? then Ok(Sum(c.value)) else Err(c.error);
    assert forall a, b :: br((a, b)) == BrKlong(ext, wcObj, par, a, b);
  }

  /** The neutral summed branching ratio is finite exactly when neither
      `V_us` nor the K+ lifetime vanishes. */
  lemma BrKlongSummedFinite(ext: Externals, wcObj: WcObj, par: Par)
    requires BrKlongSummed(ext, wcObj, par).Ok?
    ensures BrKlongSummed(ext, wcObj, par).value.Finite? <==> ext.vus(par) != Zero && par["tau_K+"] != 0.0
  {
    var br := (pair: FlavourPair) => BrKlong(ext, wcObj, par, pair.0, pair.1);
    var ps := Pairs(Flavours, Flavours);
    CollectOutcome(br, ps);
    var c := Collect(br, ps).value;
    assert c[0] == BrKlong(ext, wcObj, par, ps[0].0, ps[0].1).value;
    BrKlongImaginaryOnly(ext, wcObj, par, ps[0].0, ps[0].1);
    BrNormalizationSign(ext, par);
    SumFinite(c);
    forall i | 0 <= i < |c|
      ensures c[i].Finite? <==> BrNormalization(ext, par).value.Finite? && par["tau_K+"] != 0.0
    {
      BrKlongImaginaryOnly(ext, wcObj, par, ps[i].0, ps[i].1);
    }
  }

  /** Without lepton-flavour-violating coefficients a finite charged summed
      branching ratio is the sum of the three flavour-diagonal ones. */
  lemma SummedWithoutFlavourViolation(ext: Externals, wcObj: WcObj, par: Par)
    requires BrKplusSummed(ext, wcObj, par).Ok? && BrKplusSummed(ext, wcObj, par).value.Finite?
    requires forall a, b :: a in Flavours && b in Flavours && a != b ==>
               var wc := ext.getWc(wcObj, Label(a, b), par);
               ClKey(Label(a, b)) in wc && wc[ClKey(Label(a, b))] == Zero
               && CrKey(Label(a, b)) in wc && wc[CrKey(Label(a, b))] == Zero
    ensures BrKplus(ext, wcObj, par, "nue", "nue").Ok? && BrKplus(ext, wcObj, par, "nue", "nue").value.Finite?
    ensures BrKplus(ext, wcObj, par, "numu", "numu").Ok? && BrKplus(ext, wcObj, par, "numu", "numu").value.Finite?
    ensures BrKplus(ext, wcObj, par, "nutau", "nutau").Ok? && BrKplus(ext, wcObj, par, "nutau", "nutau").value.Finite?
    ensures BrKplusSummed(ext, wcObj, par).value.x
            == BrKplus(ext, wcObj, par, "nue", "nue").value.x + BrKplus(ext, wcObj, par, "numu", "numu").value.x
               + BrKplus(ext, wcObj, par, "nutau", "nutau").value.x
  {
    BrKplusSummedIsSum(ext, wcObj, par);
    forall a, b | a in Flavours && b in Flavours
      ensures BrKplus(ext, wcObj, par, a, b).Ok? && BrKplus(ext, wcObj, par, a, b).value.Finite?
    {
      BrKplusNonNegative(ext, wcObj, par, a, b);
    }
    forall a, b | a in Flavours && b in Flavours && a != b
      ensures BrKplus(ext, wcObj, par, a, b).value.x == 0.0
    {
      OffDiagonalZeroRatios(ext, wcObj, par, a, b);
    }
  }

  /* ---------------------------------------------------------------------- */
  /* Registration                                                            */
  /* ---------------------------------------------------------------------- */

  const KplusName: string := "BR(K+->pinunu)"
  const KplusTex: string := @"K^+\pi^+\nu\bar\nu"
  const KlongName: string := "BR(KL->pinunu)"
  const KlongTex: string := @"K_L\pi^0\nu\bar\nu"

  function Description(tex: string): string
  {
    "Branching ratio of $" + tex + "$"
  }

  function TexLabel(tex: string): string
  {
    @"$\langle \text{BR} \rangle(" + tex + ")$"
  }

  /** Defines one observable, sets its description and TeX label, and binds
      its prediction. */
  method Register(cat: Catalogue, name: string, tex: string, f: PredictionFunction) returns (r: Result<Observable>)
    requires cat.Valid()
    modifies cat
    ensures cat.Valid()
    ensures name in old(cat.observables) ==>
              r == Err(DuplicateObservable(name))
              && cat.observables == old(cat.observables) && cat.predictions == old(cat.predictions)
    ensures name !in old(cat.observables) ==>
              r.Ok? && fresh(r.value)
              && cat.observables == old(cat.observables)[name := r.value]
              && cat.predictions == old(cat.predictions)[name := f]
              && r.value.description == Description(tex) && r.value.tex == TexLabel(tex)
  {
    r := cat.Define(name);
    if r.Err? {
      return;
    }
    var obs := r.value;
    obs.SetDescription(Description(tex));
    obs.tex := TexLabel(tex);
    cat.AttachPrediction(name, f);
  }

  /** The module-level registration: `BR(K+->pinunu)` is bound to the
      charged and `BR(KL->pinunu)` to the neutral summed branching ratio. An
      observable name already taken stops the registration at that point;
      nothing else in the catalogue changes. */
  method RegisterObservables(cat: Catalogue, ext: Externals) returns (r: Result<()>)
    requires cat.Valid()
    modifies cat
    ensures cat.Valid()
    ensures KplusName in old(cat.observables) ==>
              r == Err(DuplicateObservable(KplusName))
              && cat.observables == old(cat.observables) && cat.predictions == old(cat.predictions)
    ensures KplusName !in old(cat.observables) ==>
              KplusName in cat.observables && fresh(cat.observables[KplusName])
              && cat.observables[KplusName].name == KplusName
              && cat.observables[KplusName].description == Description(KplusTex)
              && cat.observables[KplusName].tex == TexLabel(KplusTex)
              && (forall w, p :: cat.Evaluate(KplusName, w, p) == BrKplusSummed(ext, w, p))
    ensures KplusName !in old(cat.observables) && KlongName in old(cat.observables) ==>
              r == Err(DuplicateObservable(KlongName))
              && cat.observables == old(cat.observables)[KplusName := cat.observables[KplusName]]
              && cat.predictions.Keys == old(cat.predictions).Keys + {KplusName}
              && (forall n :: n in old(cat.predictions) && n != KplusName ==> cat.predictions[n] == old(cat.predictions)[n])
    ensures KplusName !in old(cat.observables) && KlongName !in old(cat.observables) ==>
              r.Ok?
              && KlongName in cat.observables && fresh(cat.observables[KlongName])
              && cat.observables[KlongName].name == KlongName
              && cat.observables == old(cat.observables)[KplusName := cat.observables[KplusName]]
                                                        [KlongName := cat.observables[KlongName]]
              && cat.observables[KlongName].description == Description(KlongTex)
              && cat.observables[KlongName].tex == TexLabel(KlongTex)
              && (forall w, p :: cat.Evaluate(KlongName, w, p) == BrKlongSummed(ext, w, p))
              && cat.predictions.Keys == old(cat.predictions).Keys + {KplusName, KlongName}
              && (forall n :: n in old(cat.predictions) && n != KplusName && n != KlongName
                              ==> cat.predictions[n] == old(cat.predictions)[n])
  {
    assert KplusName[4] != KlongName[4];
    var kplus := Register(cat, KplusName, KplusTex, (w, p) => BrKplusSummed(ext, w, p));
    if kplus.Err? {
      return Err(kplus.error);
    }
    var klong := Register(cat, KlongName, KlongTex, (w, p) => BrKlongSummed(ext, w, p));
    if klong.Err? {
      return Err(klong.error);
    }
    return Ok(());
  }
}
