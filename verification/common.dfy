/** Kinematic functions and lookup tables shared by the B-decay code:
    the Källén function, the lepton velocity `beta_l`, and the four
    dictionaries that map decay channels to quark transitions, spectator
    quarks, quark charges and form-factor families. */
module Common {
  import opened Base

  /* ---------------------------------------------------------------------- */
  /* The Källén function                                                     */
  /* ---------------------------------------------------------------------- */

  /** `lambda_K(a, b, c) = a^2 + b^2 + c^2 - 2 (ab + bc + ac)`. */
  function LambdaK(a: real, b: real, c: real): real
  {
    a * a + b * b + c * c - 2.0 * (a * b + b * c + a * c)
  }

  /** The Källén function is symmetric under every permutation of its arguments. */
  lemma LambdaKSymmetric(a: real, b: real, c: real)
    ensures LambdaK(a, b, c) == LambdaK(b, a, c)
    ensures LambdaK(a, b, c) == LambdaK(a, c, b)
    ensures LambdaK(a, b, c) == LambdaK(c, b, a)
    ensures LambdaK(a, b, c) == LambdaK(b, c, a)
    ensures LambdaK(a, b, c) == LambdaK(c, a, b)
  {
  }

  /** With one or two arguments zero the polynomial collapses to a square. */
  lemma LambdaKSpecialValues(a: real, b: real)
    ensures LambdaK(a, b, 0.0) == (a - b) * (a - b)
    ensures LambdaK(a, 0.0, 0.0) == a * a
  {
  }

  /** On squared masses the Källén function factorises into the two
      threshold factors of two-body phase space. */
  lemma LambdaKMassFactorisation(m0: real, m1: real, m2: real)
    ensures LambdaK(m0 * m0, m1 * m1, m2 * m2)
         == (m0 * m0 - (m1 + m2) * (m1 + m2)) * (m0 * m0 - (m1 - m2) * (m1 - m2))
  {
  }

  /** Above the two-body threshold `m0 >= m1 + m2` the Källén function of the
      squared masses is never negative. */
  lemma LambdaKAboveThreshold(m0: real, m1: real, m2: real)
    requires 0.0 <= m1 && 0.0 <= m2 && m1 + m2 <= m0
    ensures LambdaK(m0 * m0, m1 * m1, m2 * m2) >= 0.0
  {
    var s, d := m1 + m2, m1 - m2;
    assert 0.0 <= s <= m0;
    assert -s <= d <= s;
    assert m0 * m0 - s * s >= 0.0 by {
      calc {
        m0 * m0 - s * s;
        ==
        (m0 - s) * (m0 + s);
        >=
        0.0;
      }
    }
    assert m0 * m0 - d * d >= 0.0 by {
      calc {
        m0 * m0 - d * d;
        ==
        (m0 - d) * (m0 + d);
        >=
        0.0;
      }
    }
    LambdaKMassFactorisation(m0, m1, m2);
    calc {
      LambdaK(m0 * m0, m1 * m1, m2 * m2);
      ==
      (m0 * m0 - s * s) * (m0 * m0 - d * d);
      >=
      0.0;
    }
  }

  /* ---------------------------------------------------------------------- */
  /* The lepton velocity                                                     */
  /* ---------------------------------------------------------------------- */

  /** `beta_l(ml, q2)`: 0 at `q2 == 0`, otherwise `sqrt(1 - 4 ml^2 / q2)`,
      where `sqrt` is `math.sqrt`, which raises on a negative argument. The
      square root is a parameter; `IsSquareRoot` says what it must satisfy. */
  function BetaL(ml: real, q2: real, sqrt: real -> real): Result<real>
  {
    if q2 == 0.0 then Ok(0.0)
    else
      var x := 1.0 - (4.0 * (ml * ml)) / q2;
      if x < 0.0 then Err(MathDomainError) else Ok(sqrt(x))
  }

  /** `sqrt` is the non-negative square root on the non-negative reals. */
  ghost predicate IsSquareRoot(sqrt: real -> real)
  {
    forall x: real :: 0.0 <= x ==> 0.0 <= sqrt(x) && sqrt(x) * sqrt(x) == x
  }

  /** `beta_l` returns exactly 0 at `q2 == 0`, whatever the lepton mass, and
      fails only strictly between 0 and the pair threshold `4 ml^2`. */
  lemma BetaLDomain(ml: real, q2: real, sqrt: real -> real)
    ensures q2 == 0.0 ==> BetaL(ml, q2, sqrt) == Ok(0.0)
    ensures BetaL(ml, q2, sqrt).Err? <==> 0.0 < q2 < 4.0 * (ml * ml)
    ensures BetaL(ml, q2, sqrt).Err? ==> BetaL(ml, q2, sqrt).error == MathDomainError
  {
    var m := 4.0 * (ml * ml);
    assert m >= 0.0 by {
      SquareNonNegative(ml);
    }
    if q2 > 0.0 {
      if q2 < m {
        calc {
          m / q2;
          >
          q2 / q2;
          ==
          1.0;
        }
      } else {
        calc {
          m / q2;
          <=
          q2 / q2;
          ==
          1.0;
        }
      }
    } else if q2 < 0.0 {
      assert m / q2 <= 0.0;
    }
  }

  /** At or above the threshold, `beta_l` is the non-negative root of
      `1 - 4 ml^2 / q2` and lies in the unit interval. */
  lemma BetaLInUnitInterval(ml: real, q2: real, sqrt: real -> real)
    requires IsSquareRoot(sqrt)
    requires q2 != 0.0 && q2 >= 4.0 * (ml * ml)
    ensures BetaL(ml, q2, sqrt).Ok?
    ensures var b := BetaL(ml, q2, sqrt).value;
      0.0 <= b <= 1.0 && b * b == 1.0 - (4.0 * (ml * ml)) / q2
  {
    BetaLDomain(ml, q2, sqrt);
    SquareNonNegative(ml);
    RatioInUnitInterval(4.0 * (ml * ml), q2);
    var x := 1.0 - (4.0 * (ml * ml)) / q2;
    var b := sqrt(x);
    assert 0.0 <= b && b * b == x;
  }

  lemma RatioInUnitInterval(m: real, q: real)
    requires 0.0 <= m <= q && q != 0.0
    ensures 0.0 <= m / q <= 1.0
  {
    var d := q - m;
    QuotientNonNegative(m, q);
    QuotientNonNegative(d, q);
    assert m / q + d / q == q / q;
  }

  /* ---------------------------------------------------------------------- */
  /* Python dictionary displays                                              */
  /* ---------------------------------------------------------------------- */

  /** The dictionary a Python dict display `{k0: v0, k1: v1, ...}` builds:
      entries are inserted left to right, so a repeated key keeps the value
      of its last occurrence. */
  function DictLiteral<K, V>(entries: seq<(K, V)>): map<K, V>
  {
    if entries == [] then map[]
    else
      var last := entries[|entries| - 1];
      DictLiteral(entries[..|entries| - 1])[last.0 := last.1]
  }

  /** A key is in the dictionary exactly when some entry has it. */
  lemma {:induction false} DictLiteralKeys<K, V>(entries: seq<(K, V)>, k: K)
    ensures k in DictLiteral(entries) <==> exists i :: 0 <= i < |entries| && entries[i].0 == k
  {
    if entries != [] {
      var n := |entries| - 1;
      DictLiteralKeys(entries[..n], k);
      if k in DictLiteral(entries[..n]) {
        var i :| 0 <= i < n && entries[..n][i].0 == k;
        assert entries[i].0 == k;
      }
      if exists i :: 0 <= i < |entries| && entries[i].0 == k {
        var i :| 0 <= i < |entries| && entries[i].0 == k;
        if i < n {
          assert entries[..n][i].0 == k;
        }
      }
    }
  }

  /** The value under a key is the one of its last occurrence. */
  lemma {:induction false} DictLiteralLast<K, V>(entries: seq<(K, V)>, i: nat)
    requires i < |entries|
    requires forall j :: i < j < |entries| ==> entries[j].0 != entries[i].0
    ensures entries[i].0 in DictLiteral(entries)
    ensures DictLiteral(entries)[entries[i].0] == entries[i].1
  {
    var n := |entries| - 1;
    if i < n {
      var front := entries[..n];
      forall j | i < j < |front|
        ensures front[j].0 != front[i].0
      {
        assert front[j] == entries[j];
      }
      DictLiteralLast(front, i);
      assert front[i] == entries[i];
    }
  }

  /** A key no entry has is not in the dictionary. */
  lemma DictLiteralAbsent<K, V>(entries: seq<(K, V)>, k: K)
    requires forall i :: 0 <= i < |entries| ==> entries[i].0 != k
    ensures k !in DictLiteral(entries)
  {
    DictLiteralKeys(entries, k);
  }

  /* ---------------------------------------------------------------------- */
  /* The lookup tables                                                       */
  /* ---------------------------------------------------------------------- */

  /** `meson_quark`, entry by entry in source order: the quark transition of
      a decay channel. `('B0','pi+')` is written twice; the display also has
      two bare-string keys. */
  const MesonQuarkEntries: seq<(Key, string)> := [
    (Pair("B+", "K+"), "bs"),
    (Pair("B0", "K*0"), "bs"),
    (Pair("B+", "K*+"), "bs"),
    (Pair("B0", "pi0"), "bd"),
    (Pair("B+", "pi+"), "bd"),
    (Pair("B0", "rho0"), "bd"),
    (Pair("B+", "rho+"), "bd"),
    (Pair("Bs", "K+"), "bu"),
    (Pair("Bs", "K*+"), "bu"),
    (Pair("B0", "pi+"), "bu"),
    (Pair("B0", "rho+"), "bu"),
    (Pair("B0", "pi+"), "bu"),
    (Pair("B+", "pi0"), "bu"),
    (Pair("B+", "rho0"), "bu"),
    (Pair("B+", "omega"), "bu"),
    (Pair("B0", "D+"), "bc"),
    (Pair("B+", "D0"), "bc"),
    (Pair("B0", "D*+"), "bc"),
    (Pair("B+", "D*0"), "bc"),
    (Pair("Bs", "phi"), "bs"),
    (Name("Bs"), "bs"),
    (Name("B0"), "bs")
  ]

  const MesonQuark: map<Key, string> := DictLiteral(MesonQuarkEntries)

  /** `meson_spectator`: the spectator quark of a decay channel. */
  const MesonSpectatorEntries: seq<(Key, string)> := [
    (Pair("B+", "K+"), "u"),
    (Pair("B0", "K0"), "d"),
    (Pair("B+", "K*+"), "u"),
    (Pair("B0", "K*0"), "d"),
    (Pair("Bs", "phi"), "s")
  ]

  const MesonSpectator: map<Key, string> := DictLiteral(MesonSpectatorEntries)

  /** `quark_charge`: electric charges in units of the positron charge. */
  const QuarkChargeEntries: seq<(string, real)> := [
    ("u", 2.0 / 3.0),
    ("d", -1.0 / 3.0),
    ("s", -1.0 / 3.0)
  ]

  const QuarkCharge: map<string, real> := DictLiteral(QuarkChargeEntries)

  /** `meson_ff`: the form-factor family of a decay channel. */
  const MesonFfEntries: seq<(Key, string)> := [
    (Pair("B+", "K+"), "B->K"),
    (Pair("B0", "K+"), "B->K"),
    (Pair("B+", "K0"), "B->K"),
    (Pair("B0", "K0"), "B->K"),
    (Pair("B0", "K*0"), "B->K*"),
    (Pair("B+", "K*+"), "B->K*"),
    (Pair("B0", "K*+"), "B->K*"),
    (Pair("B+", "K*0"), "B->K*"),
    (Pair("Bs", "K+"), "Bs->K"),
    (Pair("Bs", "K0"), "Bs->K"),
    (Pair("Bs", "K*+"), "Bs->K*"),
    (Pair("Bs", "K*0"), "Bs->K*"),
    (Pair("B0", "rho0"), "B->rho"),
    (Pair("B+", "rho+"), "B->rho"),
    (Pair("B0", "rho+"), "B->rho"),
    (Pair("B+", "rho0"), "B->rho"),
    (Pair("B0", "D+"), "B->D"),
    (Pair("B+", "D0"), "B->D"),
    (Pair("B0", "D*+"), "B->D*"),
    (Pair("B+", "D*0"), "B->D*"),
    (Pair("B0", "pi+"), "B->pi"),
    (Pair("B+", "pi0"), "B->pi")
  ]

  const MesonFf: map<Key, string> := DictLiteral(MesonFfEntries)

  /** `d[(B, V)]` on one of the tables above. */
  function LookupChannel(d: map<Key, string>, b: string, v: string): Result<string>
  {
    if Pair(b, v) in d then Ok(d[Pair(b, v)]) else Err(KeyError(Pair(b, v)))
  }

  /** A channel lookup in a dict display succeeds exactly when some entry
      has the channel as its key, and then yields the value of the last such
      entry; otherwise it raises a KeyError naming the channel. */
  lemma LookupChannelEntries(entries: seq<(Key, string)>, b: string, v: string)
    ensures LookupChannel(DictLiteral(entries), b, v).Ok?
            <==> exists i :: 0 <= i < |entries| && entries[i].0 == Pair(b, v)
    ensures forall i :: 0 <= i < |entries| && entries[i].0 == Pair(b, v)
                        && (forall j :: i < j < |entries| ==> entries[j].0 != Pair(b, v))
                        ==> LookupChannel(DictLiteral(entries), b, v) == Ok(entries[i].1)
    ensures LookupChannel(DictLiteral(entries), b, v).Err?
            ==> LookupChannel(DictLiteral(entries), b, v).error == KeyError(Pair(b, v))
  {
    DictLiteralKeys(entries, Pair(b, v));
    forall i | 0 <= i < |entries| && entries[i].0 == Pair(b, v)
               && (forall j :: i < j < |entries| ==> entries[j].0 != Pair(b, v))
      ensures LookupChannel(DictLiteral(entries), b, v) == Ok(entries[i].1)
    {
      DictLiteralLast(entries, i);
    }
  }

  /* ---------------------------------------------------------------------- */
  /* Facts about the tables                                                  */
  /* ---------------------------------------------------------------------- */

  /** `('B0','pi+')` occurs twice in `meson_quark`, at the 10th and 12th
      entries and nowhere else; both say `'bu'`, which is the value looked up. */
  lemma MesonQuarkDuplicateAgrees()
    ensures MesonQuarkEntries[9] == MesonQuarkEntries[11] == (Pair("B0", "pi+"), "bu")
    ensures forall i :: 0 <= i < |MesonQuarkEntries| && MesonQuarkEntries[i].0 == Pair("B0", "pi+")
                        ==> i == 9 || i == 11
    ensures Pair("B0", "pi+") in MesonQuark && MesonQuark[Pair("B0", "pi+")] == "bu"
  {
    DictLiteralLast(MesonQuarkEntries, 11);
  }

  /** The bare-string keys `'Bs'` and `'B0'` both map to `'bs'`. */
  lemma MesonQuarkBareKeys()
    ensures Name("Bs") in MesonQuark && MesonQuark[Name("Bs")] == "bs"
    ensures Name("B0") in MesonQuark && MesonQuark[Name("B0")] == "bs"
  {
    DictLiteralLast(MesonQuarkEntries, 20);
    DictLiteralLast(MesonQuarkEntries, 21);
  }

  /** `('Bs','phi')` has a quark transition but no form-factor family, so
      the form-factor lookup for that channel raises a KeyError. */
  lemma BsPhiHasNoFormFactor()
    ensures LookupChannel(MesonQuark, "Bs", "phi") == Ok("bs")
    ensures LookupChannel(MesonFf, "Bs", "phi") == Err(KeyError(Pair("Bs", "phi")))
  {
    DictLiteralLast(MesonQuarkEntries, 19);
    DictLiteralAbsent(MesonFfEntries, Pair("Bs", "phi"));
  }

  /** Besides `('Bs','phi')`, three more channels have a quark transition
      but no form-factor family: `('B0','pi0')`, `('B+','pi+')` and
      `('B+','omega')`. */
  lemma TransitionWithoutFormFactor()
    ensures LookupChannel(MesonQuark, "B0", "pi0") == Ok("bd")
    ensures LookupChannel(MesonQuark, "B+", "pi+") == Ok("bd")
    ensures LookupChannel(MesonQuark, "B+", "omega") == Ok("bu")
    ensures LookupChannel(MesonFf, "B0", "pi0").Err?
    ensures LookupChannel(MesonFf, "B+", "pi+").Err?
    ensures LookupChannel(MesonFf, "B+", "omega").Err?
  {
    assert LookupChannel(MesonQuark, "B0", "pi0") == Ok("bd") by {
      DictLiteralLast(MesonQuarkEntries, 3);
    }
    assert LookupChannel(MesonQuark, "B+", "pi+") == Ok("bd") by {
      DictLiteralLast(MesonQuarkEntries, 4);
    }
    assert LookupChannel(MesonQuark, "B+", "omega") == Ok("bu") by {
      DictLiteralLast(MesonQuarkEntries, 14);
    }
    assert LookupChannel(MesonFf, "B0", "pi0").Err? by {
      DictLiteralAbsent(MesonFfEntries, Pair("B0", "pi0"));
    }
    assert LookupChannel(MesonFf, "B+", "pi+").Err? by {
      DictLiteralAbsent(MesonFfEntries, Pair("B+", "pi+"));
    }
    assert LookupChannel(MesonFf, "B+", "omega").Err? by {
      DictLiteralAbsent(MesonFfEntries, Pair("B+", "omega"));
    }
  }

  /** `('B0','K+')`, `('B+','K0')` and `('B0','K0')` have the form-factor family
      `B->K` but no quark transition. */
  lemma KaonFormFactorWithoutTransition()
    ensures LookupChannel(MesonFf, "B0", "K+") == Ok("B->K")
    ensures LookupChannel(MesonFf, "B+", "K0") == Ok("B->K")
    ensures LookupChannel(MesonFf, "B0", "K0") == Ok("B->K")
    ensures LookupChannel(MesonQuark, "B0", "K+").Err?
    ensures LookupChannel(MesonQuark, "B+", "K0").Err?
    ensures LookupChannel(MesonQuark, "B0", "K0").Err?
  {
    assert LookupChannel(MesonFf, "B0", "K+") == Ok("B->K") by {
      DictLiteralLast(MesonFfEntries, 1);
    }
    assert LookupChannel(MesonFf, "B+", "K0") == Ok("B->K") by {
      DictLiteralLast(MesonFfEntries, 2);
    }
    assert LookupChannel(MesonFf, "B0", "K0") == Ok("B->K") by {
      DictLiteralLast(MesonFfEntries, 3);
    }
    assert LookupChannel(MesonQuark, "B0", "K+").Err? by {
      DictLiteralAbsent(MesonQuarkEntries, Pair("B0", "K+"));
    }
    assert LookupChannel(MesonQuark, "B+", "K0").Err? by {
      DictLiteralAbsent(MesonQuarkEntries, Pair("B+", "K0"));
    }
    assert LookupChannel(MesonQuark, "B0", "K0").Err? by {
      DictLiteralAbsent(MesonQuarkEntries, Pair("B0", "K0"));
    }
  }

  /** `('B0','K*+')` and `('B+','K*0')` have the form-factor family `B->K*`
      but no quark transition. */
  lemma KstarFormFactorWithoutTransition()
    ensures LookupChannel(MesonFf, "B0", "K*+") == Ok("B->K*")
    ensures LookupChannel(MesonFf, "B+", "K*0") == Ok("B->K*")
    ensures LookupChannel(MesonQuark, "B0", "K*+").Err?
    ensures LookupChannel(MesonQuark, "B+", "K*0").Err?
  {
    assert LookupChannel(MesonFf, "B0", "K*+") == Ok("B->K*") by {
      DictLiteralLast(MesonFfEntries, 6);
    }
    assert LookupChannel(MesonFf, "B+", "K*0") == Ok("B->K*") by {
      DictLiteralLast(MesonFfEntries, 7);
    }
    assert LookupChannel(MesonQuark, "B0", "K*+").Err? by {
      DictLiteralAbsent(MesonQuarkEntries, Pair("B0", "K*+"));
    }
    assert LookupChannel(MesonQuark, "B+", "K*0").Err? by {
      DictLiteralAbsent(MesonQuarkEntries, Pair("B+", "K*0"));
    }
  }

  /** `('Bs','K0')` and `('Bs','K*0')` have a form-factor family but no quark
      transition. */
  lemma BsKaonFormFactorWithoutTransition()
    ensures LookupChannel(MesonFf, "Bs", "K0") == Ok("Bs->K")
    ensures LookupChannel(MesonFf, "Bs", "K*0") == Ok("Bs->K*")
    ensures LookupChannel(MesonQuark, "Bs", "K0").Err?
    ensures LookupChannel(MesonQuark, "Bs", "K*0").Err?
  {
    assert LookupChannel(MesonFf, "Bs", "K0") == Ok("Bs->K") by {
      DictLiteralLast(MesonFfEntries, 9);
    }
    assert LookupChannel(MesonFf, "Bs", "K*0") == Ok("Bs->K*") by {
      DictLiteralLast(MesonFfEntries, 11);
    }
    assert LookupChannel(MesonQuark, "Bs", "K0").Err? by {
      DictLiteralAbsent(MesonQuarkEntries, Pair("Bs", "K0"));
    }
    assert LookupChannel(MesonQuark, "Bs", "K*0").Err? by {
      DictLiteralAbsent(MesonQuarkEntries, Pair("Bs", "K*0"));
    }
  }

  /** The quark charges are 2/3 for u and -1/3 for d and s, and every
      spectator quark in `meson_spectator` has a charge. */
  lemma SpectatorsHaveCharges()
    ensures "u" in QuarkCharge && QuarkCharge["u"] == 2.0 / 3.0
    ensures "d" in QuarkCharge && QuarkCharge["d"] == -1.0 / 3.0
    ensures "s" in QuarkCharge && QuarkCharge["s"] == -1.0 / 3.0
    ensures forall k :: k in MesonSpectator ==> MesonSpectator[k] in QuarkCharge
  {
    DictLiteralLast(QuarkChargeEntries, 0);
    DictLiteralLast(QuarkChargeEntries, 1);
    DictLiteralLast(QuarkChargeEntries, 2);
    forall k | k in MesonSpectator
      ensures MesonSpectator[k] in QuarkCharge
    {
      DictLiteralKeys(MesonSpectatorEntries, k);
      var i :| 0 <= i < |MesonSpectatorEntries| && MesonSpectatorEntries[i].0 == k;
      DictLiteralLast(MesonSpectatorEntries, i);
    }
  }
}
