/** Worked examples with the program's own configuration: a unary minus
    read as a sign, the precedence and associativity the conversion gives,
    and the division-by-zero policy answering before the division does. */
module Exemples {
  import opened Resultats
  import opened Entrees
  import opened Strategies
  import opened Politiques
  import opened Equation
  import opened Conversion
  import opened Evaluation

  /** The evaluator the program builds. */
  function ParDefaut(maths: Maths): Calculateur {
    Calculateur(OperationsParDefaut, [DivisionParZeroPolicy], maths)
  }

  /** A number token with the text the tokenizer gives it. */
  function Num(texte: string, v: int): Entree { Entree(Nombre, texte, Some(v as real)) }

  /** The token the tokenizer reads from a single digit. */
  function ChiffreSeul(c: char): Entree { Entree(Nombre, [c], Some((c as int - '0' as int) as real)) }

  /** The token the tokenizer reads from a sign and a single digit. */
  function ChiffreNegatif(c: char): Entree { Entree(Nombre, ['-', c], Some(-((c as int - '0' as int) as real))) }

  function Op(s: string): Entree { Entree(Operateur, s) }

  // ----- tokenizing "3*-2": the minus after an operator is a sign

  /** A single digit followed by something else than a digit or a point
      is read as that digit's value. */
  lemma Chiffre(e: string, i: nat)
    requires i < |e| && EstChiffre(e[i]) && (i + 1 == |e| || (!EstChiffre(e[i + 1]) && e[i + 1] != '.'))
    ensures FinNombre(e, i, false) == i + 1
    ensures ValeurDecimale(e[i..i + 1]) == Some((e[i] as int - '0' as int) as real)
  {
    assert FinNombre(e, i + 1, false) == i + 1;
    var d := e[i..i + 1];
    assert d == [e[i]];
    assert PositionPoint(d) == 1 by { assert d[1..] == []; }
    assert ValeurChiffres(d) == e[i] as int - '0' as int by { assert d[..0] == []; }
    assert ValeurDecimale(d) == Some(ValeurChiffres(d) as real / Puissance10(0) as real);
  }

  /** A string that neither starts nor ends with whitespace is its own
      trim. */
  lemma SansBlancsAuxBords(e: string)
    requires |e| > 0 && !EstEspace(e[0]) && !EstEspace(e[|e| - 1])
    ensures Trim(e) == e
  {
    assert Blancs(e) == 0;
    assert e[0..] == e;
    assert LongueurSansBlancsFinaux(e) == |e|;
    assert e[..|e|] == e;
  }

  /** A single digit is one number token. */
  lemma PasChiffre(e: string, i: nat, entrees: seq<Entree>, suite: seq<Entree>)
    requires i < |e| && EstChiffre(e[i]) && (i + 1 == |e| || (!EstChiffre(e[i + 1]) && e[i + 1] != '.'))
    requires suite == entrees + [ChiffreSeul(e[i])]
    ensures Analyser(e, i, entrees) == Analyser(e, i + 1, suite)
  {
    Chiffre(e, i);
    assert e[i..i + 1] == [e[i]];
    LireEntreeAiguillage(e, i, entrees);
    assert LireEntree(e, i, entrees) == Ok(Lecture(Some(ChiffreSeul(e[i])), i + 1));
    Pas(e, i, entrees);
  }

  /** An operator that is not a sign is one operator token. */
  lemma PasOperateur(e: string, i: nat, entrees: seq<Entree>, suite: seq<Entree>)
    requires i < |e| && e[i] in OperateursSupportes && !EstUnMoinsUnaire(e[i], entrees)
    requires suite == entrees + [Entree(Operateur, [e[i]])]
    ensures Analyser(e, i, entrees) == Analyser(e, i + 1, suite)
  {
    OperateurSeul(e[i]);
    assert LireEntree(e, i, entrees) == Ok(Lecture(Some(Entree(Operateur, [e[i]])), i + 1));
    Pas(e, i, entrees);
  }

  /** A digit followed by an operator: a number token, then an operator
      token, since a `-` after a number is not a sign. */
  lemma PasChiffreOperateur(e: string, i: nat, entrees: seq<Entree>, suite: seq<Entree>)
    requires i + 1 < |e| && EstChiffre(e[i]) && e[i + 1] in OperateursSupportes
    requires suite == entrees + [ChiffreSeul(e[i]), Entree(Operateur, [e[i + 1]])]
    ensures Analyser(e, i, entrees) == Analyser(e, i + 2, suite)
  {
    var a, o := ChiffreSeul(e[i]), Entree(Operateur, [e[i + 1]]);
    var un := entrees + [a];
    assert Analyser(e, i, entrees) == Analyser(e, i + 1, un) by {
      PasChiffre(e, i, entrees, un);
    }
    PasApresNombre(e, i + 1, un, suite);
  }

  /** An operator right after a number is not a sign: one operator
      token. */
  lemma PasApresNombre(e: string, i: nat, entrees: seq<Entree>, suite: seq<Entree>)
    requires i < |e| && e[i] in OperateursSupportes
    requires |entrees| > 0 && entrees[|entrees| - 1].typeEntree == Nombre
    requires suite == entrees + [Entree(Operateur, [e[i]])]
    ensures Analyser(e, i, entrees) == Analyser(e, i + 1, suite)
  {
    PasOperateur(e, i, entrees, suite);
  }

  /** The scan ends at the end of the text. */
  lemma AnalyseFinie(e: string, ts: seq<Entree>)
    ensures Analyser(e, |e|, ts) == Ok(ts)
  {
  }

  /** An operator character is neither a digit, a point, whitespace nor
      a parenthesis. */
  lemma OperateurSeul(c: char)
    requires c in OperateursSupportes
    ensures !EstChiffre(c) && c != '.' && !EstEspace(c) && c != '(' && c != ')'
  {
  }

  /** Digit, operator, digit, operator, digit: five tokens, both operators
      read as operators (`deux` and `quatre` are the tokens after two and
      four characters). */
  lemma AnalyseCinq(e: string, deux: seq<Entree>, quatre: seq<Entree>, ts: seq<Entree>)
    requires |e| == 5 && EstChiffre(e[0]) && EstChiffre(e[2]) && EstChiffre(e[4])
    requires e[1] in OperateursSupportes && e[3] in OperateursSupportes
    requires deux == [] + [ChiffreSeul(e[0]), Entree(Operateur, [e[1]])]
    requires quatre == deux + [ChiffreSeul(e[2]), Entree(Operateur, [e[3]])]
    requires ts == quatre + [ChiffreSeul(e[4])]
    ensures Analyser(e, 0, []) == Ok(ts)
  {
    PasChiffreOperateur(e, 0, [], deux);
    PasChiffreOperateur(e, 2, deux, quatre);
    PasChiffre(e, 4, quatre, ts);
    AnalyseFinie(e, ts);
  }

  /** The tokens of a digit, operator, digit, operator, digit expression. */
  lemma EntreesCinq(e: string, ts: seq<Entree>)
    requires |e| == 5 && EstChiffre(e[0]) && EstChiffre(e[2]) && EstChiffre(e[4])
    requires e[1] in OperateursSupportes && e[3] in OperateursSupportes
    requires ts == [ChiffreSeul(e[0]), Entree(Operateur, [e[1]]), ChiffreSeul(e[2]),
                    Entree(Operateur, [e[3]]), ChiffreSeul(e[4])]
    ensures EntreesDe(e) == Ok(ts)
  {
    SansBlancsAuxBords(e);
    AnalyseCinq(e, ts[..2], ts[..4], ts);
  }

  const Tokens3FoisMoins2: seq<Entree> :=
    [Entree(Nombre, "3", Some(3.0)), Entree(Operateur, "*"), Entree(Nombre, "-2", Some(-2.0))]

  /** A sign after an operator, then a single digit: one negative
      number token. */
  lemma PasSigneChiffre(e: string, i: nat, entrees: seq<Entree>, suite: seq<Entree>)
    requires i + 1 < |e| && e[i] == '-' && EstChiffre(e[i + 1])
    requires i + 2 == |e| || (!EstChiffre(e[i + 2]) && e[i + 2] != '.')
    requires |entrees| == i && i > 0 && entrees[i - 1].typeEntree == Operateur
    requires suite == entrees + [ChiffreNegatif(e[i + 1])]
    ensures Analyser(e, i, entrees) == Analyser(e, i + 2, suite)
  {
    Chiffre(e, i + 1);
    assert SauterEspaces(e, i + 1) == i + 1;
    assert "-" + e[i + 1..i + 2] == ['-', e[i + 1]];
    LireEntreeAiguillage(e, i, entrees);
    assert LireEntree(e, i, entrees) == Ok(Lecture(Some(suite[|entrees|]), i + 2));
    Pas(e, i, entrees);
  }

  /** Digit, operator, sign, digit: a number, an operator and a negative
      number (`deux` is the tokens after two characters). */
  lemma AnalyseSigne(e: string, deux: seq<Entree>, ts: seq<Entree>)
    requires |e| == 4 && EstChiffre(e[0]) && e[1] in OperateursSupportes && e[2] == '-' && EstChiffre(e[3])
    requires deux == [] + [ChiffreSeul(e[0]), Entree(Operateur, [e[1]])]
    requires ts == deux + [ChiffreNegatif(e[3])]
    ensures Analyser(e, 0, []) == Ok(ts)
  {
    assert Analyser(e, 0, []) == Analyser(e, 2, deux) by {
      PasChiffreOperateur(e, 0, [], deux);
    }
    assert |deux| == 2 && deux[1].typeEntree == Operateur;
    PasSigneChiffre(e, 2, deux, ts);
    AnalyseFinie(e, ts);
  }

  /** "3*-2" is three tokens: 3, `*` and the number -2. */
  lemma Entrees3FoisMoins2()
    ensures EntreesDe("3*-2") == Ok(Tokens3FoisMoins2)
  {
    var e, t := "3*-2", Tokens3FoisMoins2;
    SansBlancsAuxBords(e);
    AnalyseSigne(e, t[..2], t);
  }

  /** A sign with no number after it, as in "-(1)", fails the scan. */
  lemma SigneSansNombre()
    ensures EntreesDe("-(1)") == Err(NombreNegatifMalForme)
  {
    var e := "-(1)";
    SansBlancsAuxBords(e);
    Pas(e, 0, []);
    assert SauterEspaces(e, 1) == 1;
    assert FinNombre(e, 1, false) == 1;
    assert ValeurDecimale(e[1..1]) == None;
    assert LireEntree(e, 0, []) == Err(NombreNegatifMalForme);
  }

  /** A number goes straight to the output. */
  lemma PasNombre(ops: map<string, Strategie>, ts: seq<Entree>, i: nat, pile: seq<Entree>, sortie: seq<Entree>)
    requires i < |ts| && ts[i].typeEntree == Nombre
    ensures ConvertirDepuis(ops, ts, i, Etat(pile, sortie)) == ConvertirDepuis(ops, ts, i + 1, Etat(pile, sortie + [ts[i]]))
  {
  }

  /** An operator meeting an empty stack, or an operator it must not pop,
      is pushed. */
  lemma PasEmpiler(ops: map<string, Strategie>, ts: seq<Entree>, i: nat, pile: seq<Entree>, sortie: seq<Entree>)
    requires i < |ts| && ts[i].typeEntree == Operateur && ts[i].caractere in ops
    requires pile != [] ==> var s := pile[|pile| - 1];
                            s.typeEntree == Operateur && s.caractere in ops
                            && !DoitDepiler(ops[ts[i].caractere], ops[s.caractere])
    ensures ConvertirDepuis(ops, ts, i, Etat(pile, sortie)) == ConvertirDepuis(ops, ts, i + 1, Etat(pile + [ts[i]], sortie))
  {
  }

  /** An operator meeting a single operator it must pop replaces it. */
  lemma PasRemplacer(ops: map<string, Strategie>, ts: seq<Entree>, i: nat, s: Entree, sortie: seq<Entree>)
    requires i < |ts| && ts[i].typeEntree == Operateur && ts[i].caractere in ops
    requires s.typeEntree == Operateur && s.caractere in ops && DoitDepiler(ops[ts[i].caractere], ops[s.caractere])
    ensures ConvertirDepuis(ops, ts, i, Etat([s], sortie)) == ConvertirDepuis(ops, ts, i + 1, Etat([ts[i]], sortie + [s]))
  {
    assert Depiler(ops, ts[i], Etat([s], sortie)) == Ok(Etat([], sortie + [s])) by {
      assert [s][..0] == [];
    }
    assert [] + [ts[i]] == [ts[i]];
  }

  /** At the end, two operators are popped, the top first. */
  lemma FinDeux(ops: map<string, Strategie>, ts: seq<Entree>, a: Entree, b: Entree, sortie: seq<Entree>)
    requires a.typeEntree == Operateur && b.typeEntree == Operateur
    ensures ConvertirDepuis(ops, ts, |ts|, Etat([a, b], sortie)) == Ok(sortie + [b, a])
  {
    assert Inverse([a, b]) == [b, a];
  }

  /** At the end, one operator is popped. */
  lemma FinUn(ops: map<string, Strategie>, ts: seq<Entree>, a: Entree, sortie: seq<Entree>)
    requires a.typeEntree == Operateur
    ensures ConvertirDepuis(ops, ts, |ts|, Etat([a], sortie)) == Ok(sortie + [a])
  {
    assert Inverse([a]) == [a];
  }

  /** A number with a value is pushed on the evaluation stack. */
  lemma EvalueNombre(config: Calculateur, rpn: seq<Entree>, i: nat, pile: seq<real>)
    requires i < |rpn| && rpn[i].typeEntree == Nombre && rpn[i].valeur.Some?
    ensures EvaluerDepuis(config, rpn, i, pile) == EvaluerDepuis(config, rpn, i + 1, pile + [rpn[i].valeur.value])
  {
  }

  /** An operator that no policy stops replaces its operands by its
      strategy's value. */
  lemma EvalueOperateur(config: Calculateur, rpn: seq<Entree>, i: nat, reste: seq<real>, g: real, d: real, v: real)
    requires i < |rpn| && rpn[i].typeEntree == Operateur && rpn[i].caractere in config.operations
    requires PremiereViolation(config.politiques, rpn[i].caractere, g, d) == Passe
    requires config.operations[rpn[i].caractere].Calculer(g, d, config.maths) == Ok(v)
    ensures EvaluerDepuis(config, rpn, i, reste + [g, d]) == EvaluerDepuis(config, rpn, i + 1, reste + [v])
  {
    var pile := reste + [g, d];
    assert pile[|pile| - 1] == d && pile[|pile| - 2] == g && pile[..|pile| - 2] == reste;
  }

  /** The program's own policy lets everything but a division by zero
      through. */
  lemma PasseParDefaut(operateur: string, g: real, d: real)
    requires operateur != "/" || d != 0.0
    ensures PremiereViolation([DivisionParZeroPolicy], operateur, g, d) == Passe
  {
  }

  /** The steps of the conversion of a number, `*` and a number. */
  lemma FoisMoinsEtapes(ops: map<string, Strategie>, ts: seq<Entree>, a: Entree, b: Entree, fois: Entree)
    requires "*" in ops
    requires a.typeEntree == Nombre && b.typeEntree == Nombre && fois == Entree(Operateur, "*")
    requires |ts| == 3 && ts[0] == a && ts[1] == fois && ts[2] == b
    ensures ConvertirDepuis(ops, ts, 0, Etat([], [])) == Ok([a, b, fois])
  {
    assert ConvertirDepuis(ops, ts, 0, Etat([], [])) == ConvertirDepuis(ops, ts, 1, Etat([], [a])) by {
      PasNombre(ops, ts, 0, [], []);
      assert [] + [a] == [a];
    }
    assert ConvertirDepuis(ops, ts, 1, Etat([], [a])) == ConvertirDepuis(ops, ts, 2, Etat([fois], [a])) by {
      PasEmpiler(ops, ts, 1, [], [a]);
      assert [] + [fois] == [fois];
    }
    assert ConvertirDepuis(ops, ts, 2, Etat([fois], [a]))
        == ConvertirDepuis(ops, ts, 3, Etat([fois], [a, b])) by {
      PasNombre(ops, ts, 2, [fois], [a]);
      assert [a] + [b] == [a, b];
    }
    assert ConvertirDepuis(ops, ts, 3, Etat([fois], [a, b])) == Ok([a, b, fois]) by {
      FinUn(ops, ts, fois, [a, b]);
      assert [a, b] + [fois] == [a, b, fois];
    }
  }

  /** An expression's value from its tokens, its postfix form and the
      value of that form. */
  lemma ValeurDesParties(config: Calculateur, expression: string, ts: seq<Entree>, rpn: seq<Entree>, v: real)
    requires !EstBlanc(expression) && EntreesDe(expression) == Ok(ts)
    requires Rpn(config.operations, ts) == Ok(rpn) && ValeurRpn(config, rpn) == Ok(v)
    ensures ValeurExpression(config, expression) == Ok(v)
  {
  }

  /** ... which convert to 3 -2 * ... */
  lemma FoisMoins()
    ensures var t := Tokens3FoisMoins2; Rpn(OperationsParDefaut, t) == Ok([t[0], t[2], t[1]])
  {
    var t := Tokens3FoisMoins2;
    FoisMoinsEtapes(OperationsParDefaut, t, t[0], t[2], t[1]);
  }

  /** ... which evaluates to -6. */
  lemma Valeur3FoisMoins2(maths: Maths)
    ensures ValeurExpression(ParDefaut(maths), "3*-2") == Ok(-6.0)
  {
    var t := Tokens3FoisMoins2;
    var rpn := [t[0], t[2], t[1]];
    FoisMoins();
    ProduitNegatifEvalue(maths, rpn);
    Entrees3FoisMoins2();
    assert !EstBlanc("3*-2") by { assert !EstEspace("3*-2"[0]); }
    ValeurDesParties(ParDefaut(maths), "3*-2", t, rpn, -6.0);
  }

  /** The postfix form of `3*-2`. */
  lemma ProduitNegatifEvalue(maths: Maths, rpn: seq<Entree>)
    requires |rpn| == 3 && rpn[0] == Entree(Nombre, "3", Some(3.0))
             && rpn[1] == Entree(Nombre, "-2", Some(-2.0)) && rpn[2] == Op("*")
    ensures ValeurRpn(ParDefaut(maths), rpn) == Ok(-6.0)
  {
    var config := ParDefaut(maths);
    assert EvaluerDepuis(config, rpn, 0, []) == EvaluerDepuis(config, rpn, 1, [3.0]) by {
      EvalueNombre(config, rpn, 0, []);
      assert [] + [3.0] == [3.0];
    }
    assert EvaluerDepuis(config, rpn, 1, [3.0]) == EvaluerDepuis(config, rpn, 2, [3.0, -2.0]) by {
      EvalueNombre(config, rpn, 1, [3.0]);
      assert [3.0] + [-2.0] == [3.0, -2.0];
    }
    assert EvaluerDepuis(config, rpn, 2, [3.0, -2.0]) == EvaluerDepuis(config, rpn, 3, [-6.0]) by {
      PasseParDefaut("*", 3.0, -2.0);
      EvalueOperateur(config, rpn, 2, [], 3.0, -2.0, -6.0);
      assert [] + [3.0, -2.0] == [3.0, -2.0] && [] + [-6.0] == [-6.0];
    }
    assert EvaluerDepuis(config, rpn, 3, [-6.0]) == Ok([-6.0]);
  }

  // ----- precedence and associativity

  /** `2^3^2` is five tokens ... */
  const Tokens2Puissance3Puissance2: seq<Entree> := [Num("2", 2), Op("^"), Num("3", 3), Op("^"), Num("2", 2)]

  /** ... and groups to the right: 2 3 2 ^ ^ ... */
  lemma PuissanceADroite()
    ensures EntreesDe("2^3^2") == Ok(Tokens2Puissance3Puissance2)
    ensures Rpn(OperationsParDefaut, Tokens2Puissance3Puissance2)
            == Ok([Num("2", 2), Num("3", 3), Num("2", 2), Op("^"), Op("^")])
  {
    var t := Tokens2Puissance3Puissance2;
    EntreesCinq("2^3^2", t);
    PuissanceADroiteEtapes(OperationsParDefaut, t, t[0], t[2], t[1]);
  }

  /** The steps of the conversion of `2^3^2`, on names for its tokens:
      the second `^` does not pop the first. */
  lemma PuissanceADroiteEtapes(ops: map<string, Strategie>, ts: seq<Entree>, deux: Entree, trois: Entree, puissance: Entree)
    requires "^" in ops && ops["^"] == Puissance
    requires deux.typeEntree == Nombre && trois.typeEntree == Nombre && puissance == Entree(Operateur, "^")
    requires |ts| == 5 && ts[0] == deux && ts[1] == puissance && ts[2] == trois && ts[3] == puissance
             && ts[4] == deux
    ensures ConvertirDepuis(ops, ts, 0, Etat([], [])) == Ok([deux, trois, deux, puissance, puissance])
  {
    assert ConvertirDepuis(ops, ts, 0, Etat([], [])) == ConvertirDepuis(ops, ts, 1, Etat([], [deux])) by {
      PasNombre(ops, ts, 0, [], []);
      assert [] + [deux] == [deux];
    }
    assert ConvertirDepuis(ops, ts, 1, Etat([], [deux]))
        == ConvertirDepuis(ops, ts, 2, Etat([puissance], [deux])) by {
      PasEmpiler(ops, ts, 1, [], [deux]);
      assert [] + [puissance] == [puissance];
    }
    assert ConvertirDepuis(ops, ts, 2, Etat([puissance], [deux]))
        == ConvertirDepuis(ops, ts, 3, Etat([puissance], [deux, trois])) by {
      PasNombre(ops, ts, 2, [puissance], [deux]);
      assert [deux] + [trois] == [deux, trois];
    }
    assert ConvertirDepuis(ops, ts, 3, Etat([puissance], [deux, trois]))
        == ConvertirDepuis(ops, ts, 4, Etat([puissance, puissance], [deux, trois])) by {
      PasEmpiler(ops, ts, 3, [puissance], [deux, trois]);
      assert [puissance] + [puissance] == [puissance, puissance];
    }
    assert ConvertirDepuis(ops, ts, 4, Etat([puissance, puissance], [deux, trois]))
        == ConvertirDepuis(ops, ts, 5, Etat([puissance, puissance], [deux, trois, deux])) by {
      PasNombre(ops, ts, 4, [puissance, puissance], [deux, trois]);
      assert [deux, trois] + [deux] == [deux, trois, deux];
    }
    assert ConvertirDepuis(ops, ts, 5, Etat([puissance, puissance], [deux, trois, deux]))
        == Ok([deux, trois, deux, puissance, puissance]) by {
      FinDeux(ops, ts, puissance, puissance, [deux, trois, deux]);
      assert [deux, trois, deux] + [puissance, puissance] == [deux, trois, deux, puissance, puissance];
    }
  }


  /** ... that is 2^(3^2). */
  lemma PuissanceADroiteValeur(maths: Maths)
    ensures ValeurExpression(ParDefaut(maths), "2^3^2") == Ok(maths.pow(2.0, maths.pow(3.0, 2.0)))
  {
    PuissanceADroite();
    var rpn := [Num("2", 2), Num("3", 3), Num("2", 2), Op("^"), Op("^")];
    PuissancesEvaluees(maths, rpn);
    assert !EstBlanc("2^3^2") by { assert !EstEspace("2^3^2"[0]); }
    ValeurDesParties(ParDefaut(maths), "2^3^2", Tokens2Puissance3Puissance2, rpn, maths.pow(2.0, maths.pow(3.0, 2.0)));
  }

  /** The postfix form of `2^3^2`: the upper power first. */
  lemma PuissancesEvaluees(maths: Maths, rpn: seq<Entree>)
    requires |rpn| == 5 && rpn[0] == Num("2", 2) && rpn[1] == Num("3", 3) && rpn[2] == Num("2", 2)
             && rpn[3] == Op("^") && rpn[4] == Op("^")
    ensures ValeurRpn(ParDefaut(maths), rpn) == Ok(maths.pow(2.0, maths.pow(3.0, 2.0)))
  {
    var config := ParDefaut(maths);
    var p := maths.pow(3.0, 2.0);
    var q := maths.pow(2.0, p);
    assert EvaluerDepuis(config, rpn, 0, []) == EvaluerDepuis(config, rpn, 1, [2.0]) by {
      EvalueNombre(config, rpn, 0, []);
      assert [] + [2.0] == [2.0];
    }
    assert EvaluerDepuis(config, rpn, 1, [2.0]) == EvaluerDepuis(config, rpn, 2, [2.0, 3.0]) by {
      EvalueNombre(config, rpn, 1, [2.0]);
      assert [2.0] + [3.0] == [2.0, 3.0];
    }
    assert EvaluerDepuis(config, rpn, 2, [2.0, 3.0]) == EvaluerDepuis(config, rpn, 3, [2.0, 3.0, 2.0]) by {
      EvalueNombre(config, rpn, 2, [2.0, 3.0]);
      assert [2.0, 3.0] + [2.0] == [2.0, 3.0, 2.0];
    }
    assert EvaluerDepuis(config, rpn, 3, [2.0, 3.0, 2.0]) == EvaluerDepuis(config, rpn, 4, [2.0, p]) by {
      PasseParDefaut("^", 3.0, 2.0);
      EvalueOperateur(config, rpn, 3, [2.0], 3.0, 2.0, p);
      assert [2.0] + [3.0, 2.0] == [2.0, 3.0, 2.0] && [2.0] + [p] == [2.0, p];
    }
    assert EvaluerDepuis(config, rpn, 4, [2.0, p]) == EvaluerDepuis(config, rpn, 5, [q]) by {
      PasseParDefaut("^", 2.0, p);
      EvalueOperateur(config, rpn, 4, [], 2.0, p, q);
      assert [] + [2.0, p] == [2.0, p] && [] + [q] == [q];
    }
    assert EvaluerDepuis(config, rpn, 5, [q]) == Ok([q]);
  }


  /** `1-2-3` is five tokens, both `-` read as operators ... */
  const Tokens1Moins2Moins3: seq<Entree> := [Num("1", 1), Op("-"), Num("2", 2), Op("-"), Num("3", 3)]

  /** ... and groups to the left: 1 2 - 3 - ... */
  lemma MoinsAGauche()
    ensures EntreesDe("1-2-3") == Ok(Tokens1Moins2Moins3)
    ensures Rpn(OperationsParDefaut, Tokens1Moins2Moins3)
            == Ok([Num("1", 1), Num("2", 2), Op("-"), Num("3", 3), Op("-")])
  {
    var t := Tokens1Moins2Moins3;
    EntreesCinq("1-2-3", t);
    MoinsAGaucheEtapes(OperationsParDefaut, t, t[0], t[2], t[4], t[1]);
  }

  /** The steps of the conversion of `1-2-3`: the second `-` pops the
      first. */
  lemma MoinsAGaucheEtapes(ops: map<string, Strategie>, ts: seq<Entree>, un: Entree, deux: Entree, trois: Entree, moins: Entree)
    requires "-" in ops && ops["-"] == Soustraction
    requires un.typeEntree == Nombre && deux.typeEntree == Nombre && trois.typeEntree == Nombre
    requires moins == Entree(Operateur, "-")
    requires |ts| == 5 && ts[0] == un && ts[1] == moins && ts[2] == deux && ts[3] == moins && ts[4] == trois
    ensures ConvertirDepuis(ops, ts, 0, Etat([], [])) == Ok([un, deux, moins, trois, moins])
  {
    assert ConvertirDepuis(ops, ts, 5, Etat([moins], [un, deux, moins, trois]))
        == Ok([un, deux, moins, trois, moins]) by {
      FinUn(ops, ts, moins, [un, deux, moins, trois]);
      assert [un, deux, moins, trois] + [moins] == [un, deux, moins, trois, moins];
    }
    assert ConvertirDepuis(ops, ts, 4, Etat([moins], [un, deux, moins]))
        == ConvertirDepuis(ops, ts, 5, Etat([moins], [un, deux, moins, trois])) by {
      PasNombre(ops, ts, 4, [moins], [un, deux, moins]);
      assert [un, deux, moins] + [trois] == [un, deux, moins, trois];
    }
    assert ConvertirDepuis(ops, ts, 3, Etat([moins], [un, deux]))
        == ConvertirDepuis(ops, ts, 4, Etat([moins], [un, deux, moins])) by {
      PasRemplacer(ops, ts, 3, moins, [un, deux]);
      assert [un, deux] + [moins] == [un, deux, moins];
    }
    assert ConvertirDepuis(ops, ts, 2, Etat([moins], [un]))
        == ConvertirDepuis(ops, ts, 3, Etat([moins], [un, deux])) by {
      PasNombre(ops, ts, 2, [moins], [un]);
      assert [un] + [deux] == [un, deux];
    }
    assert ConvertirDepuis(ops, ts, 1, Etat([], [un]))
        == ConvertirDepuis(ops, ts, 2, Etat([moins], [un])) by {
      PasEmpiler(ops, ts, 1, [], [un]);
      assert [] + [moins] == [moins];
    }
    assert ConvertirDepuis(ops, ts, 0, Etat([], [])) == ConvertirDepuis(ops, ts, 1, Etat([], [un])) by {
      PasNombre(ops, ts, 0, [], []);
      assert [] + [un] == [un];
    }
  }

  /** ... that is (1-2)-3 = -4. */
  lemma MoinsAGaucheValeur(maths: Maths)
    ensures ValeurExpression(ParDefaut(maths), "1-2-3") == Ok(-4.0)
  {
    MoinsAGauche();
    var rpn := [Num("1", 1), Num("2", 2), Op("-"), Num("3", 3), Op("-")];
    SoustractionsEvaluees(maths, rpn);
    assert !EstBlanc("1-2-3") by { assert !EstEspace("1-2-3"[0]); }
    ValeurDesParties(ParDefaut(maths), "1-2-3", Tokens1Moins2Moins3, rpn, -4.0);
  }

  /** The postfix form of `1-2-3`: the left difference first. */
  lemma SoustractionsEvaluees(maths: Maths, rpn: seq<Entree>)
    requires |rpn| == 5 && rpn[0] == Num("1", 1) && rpn[1] == Num("2", 2) && rpn[2] == Op("-")
             && rpn[3] == Num("3", 3) && rpn[4] == Op("-")
    ensures ValeurRpn(ParDefaut(maths), rpn) == Ok(-4.0)
  {
    var config := ParDefaut(maths);
    assert EvaluerDepuis(config, rpn, 0, []) == EvaluerDepuis(config, rpn, 1, [1.0]) by {
      EvalueNombre(config, rpn, 0, []);
      assert [] + [1.0] == [1.0];
    }
    assert EvaluerDepuis(config, rpn, 1, [1.0]) == EvaluerDepuis(config, rpn, 2, [1.0, 2.0]) by {
      EvalueNombre(config, rpn, 1, [1.0]);
      assert [1.0] + [2.0] == [1.0, 2.0];
    }
    assert EvaluerDepuis(config, rpn, 2, [1.0, 2.0]) == EvaluerDepuis(config, rpn, 3, [-1.0]) by {
      PasseParDefaut("-", 1.0, 2.0);
      EvalueOperateur(config, rpn, 2, [], 1.0, 2.0, -1.0);
      assert [] + [1.0, 2.0] == [1.0, 2.0] && [] + [-1.0] == [-1.0];
    }
    assert EvaluerDepuis(config, rpn, 3, [-1.0]) == EvaluerDepuis(config, rpn, 4, [-1.0, 3.0]) by {
      EvalueNombre(config, rpn, 3, [-1.0]);
      assert [-1.0] + [3.0] == [-1.0, 3.0];
    }
    assert EvaluerDepuis(config, rpn, 4, [-1.0, 3.0]) == EvaluerDepuis(config, rpn, 5, [-4.0]) by {
      PasseParDefaut("-", -1.0, 3.0);
      EvalueOperateur(config, rpn, 4, [], -1.0, 3.0, -4.0);
      assert [] + [-1.0, 3.0] == [-1.0, 3.0] && [] + [-4.0] == [-4.0];
    }
    assert EvaluerDepuis(config, rpn, 5, [-4.0]) == Ok([-4.0]);
  }


  /** `1+2*3` is five tokens ... */
  const Tokens1Plus2Fois3: seq<Entree> := [Num("1", 1), Op("+"), Num("2", 2), Op("*"), Num("3", 3)]

  /** ... and the product binds tighter: 1 2 3 * + ... */
  lemma ProduitAvantSomme()
    ensures EntreesDe("1+2*3") == Ok(Tokens1Plus2Fois3)
    ensures Rpn(OperationsParDefaut, Tokens1Plus2Fois3)
            == Ok([Num("1", 1), Num("2", 2), Num("3", 3), Op("*"), Op("+")])
  {
    var t := Tokens1Plus2Fois3;
    EntreesCinq("1+2*3", t);
    ProduitAvantSommeEtapes(OperationsParDefaut, t, t[0], t[2], t[4], t[1], t[3]);
  }

  /** The steps of the conversion of `1+2*3`: `*` does not pop `+`. */
  lemma ProduitAvantSommeEtapes(ops: map<string, Strategie>, ts: seq<Entree>, un: Entree, deux: Entree, trois: Entree,
                                plus: Entree, fois: Entree)
    requires "+" in ops && ops["+"] == Addition && "*" in ops && ops["*"] == Multiplication
    requires un.typeEntree == Nombre && deux.typeEntree == Nombre && trois.typeEntree == Nombre
    requires plus == Entree(Operateur, "+") && fois == Entree(Operateur, "*")
    requires |ts| == 5 && ts[0] == un && ts[1] == plus && ts[2] == deux && ts[3] == fois && ts[4] == trois
    ensures ConvertirDepuis(ops, ts, 0, Etat([], [])) == Ok([un, deux, trois, fois, plus])
  {
    assert ConvertirDepuis(ops, ts, 0, Etat([], [])) == ConvertirDepuis(ops, ts, 1, Etat([], [un])) by {
      PasNombre(ops, ts, 0, [], []);
      assert [] + [un] == [un];
    }
    assert ConvertirDepuis(ops, ts, 1, Etat([], [un])) == ConvertirDepuis(ops, ts, 2, Etat([plus], [un])) by {
      PasEmpiler(ops, ts, 1, [], [un]);
      assert [] + [plus] == [plus];
    }
    assert ConvertirDepuis(ops, ts, 2, Etat([plus], [un]))
        == ConvertirDepuis(ops, ts, 3, Etat([plus], [un, deux])) by {
      PasNombre(ops, ts, 2, [plus], [un]);
      assert [un] + [deux] == [un, deux];
    }
    assert ConvertirDepuis(ops, ts, 3, Etat([plus], [un, deux]))
        == ConvertirDepuis(ops, ts, 4, Etat([plus, fois], [un, deux])) by {
      PasEmpiler(ops, ts, 3, [plus], [un, deux]);
      assert [plus] + [fois] == [plus, fois];
    }
    assert ConvertirDepuis(ops, ts, 4, Etat([plus, fois], [un, deux]))
        == ConvertirDepuis(ops, ts, 5, Etat([plus, fois], [un, deux, trois])) by {
      PasNombre(ops, ts, 4, [plus, fois], [un, deux]);
      assert [un, deux] + [trois] == [un, deux, trois];
    }
    assert ConvertirDepuis(ops, ts, 5, Etat([plus, fois], [un, deux, trois]))
        == Ok([un, deux, trois, fois, plus]) by {
      FinDeux(ops, ts, plus, fois, [un, deux, trois]);
      assert [un, deux, trois] + [fois, plus] == [un, deux, trois, fois, plus];
    }
  }

  /** ... that is 7. */
  lemma ProduitAvantSommeValeur(maths: Maths)
    ensures ValeurExpression(ParDefaut(maths), "1+2*3") == Ok(7.0)
  {
    ProduitAvantSomme();
    var rpn := [Num("1", 1), Num("2", 2), Num("3", 3), Op("*"), Op("+")];
    ProduitEtSommeEvalues(maths, rpn);
    assert !EstBlanc("1+2*3") by { assert !EstEspace("1+2*3"[0]); }
    ValeurDesParties(ParDefaut(maths), "1+2*3", Tokens1Plus2Fois3, rpn, 7.0);
  }

  /** The postfix form of `1+2*3`: the product first. */
  lemma ProduitEtSommeEvalues(maths: Maths, rpn: seq<Entree>)
    requires |rpn| == 5 && rpn[0] == Num("1", 1) && rpn[1] == Num("2", 2) && rpn[2] == Num("3", 3)
             && rpn[3] == Op("*") && rpn[4] == Op("+")
    ensures ValeurRpn(ParDefaut(maths), rpn) == Ok(7.0)
  {
    var config := ParDefaut(maths);
    assert EvaluerDepuis(config, rpn, 5, [7.0]) == Ok([7.0]);
    assert EvaluerDepuis(config, rpn, 4, [1.0, 6.0]) == EvaluerDepuis(config, rpn, 5, [7.0]) by {
      PasseParDefaut("+", 1.0, 6.0);
      EvalueOperateur(config, rpn, 4, [], 1.0, 6.0, 7.0);
      assert [] + [1.0, 6.0] == [1.0, 6.0] && [] + [7.0] == [7.0];
    }
    assert EvaluerDepuis(config, rpn, 3, [1.0, 2.0, 3.0]) == EvaluerDepuis(config, rpn, 4, [1.0, 6.0]) by {
      PasseParDefaut("*", 2.0, 3.0);
      EvalueOperateur(config, rpn, 3, [1.0], 2.0, 3.0, 6.0);
      assert [1.0] + [2.0, 3.0] == [1.0, 2.0, 3.0] && [1.0] + [6.0] == [1.0, 6.0];
    }
    assert EvaluerDepuis(config, rpn, 2, [1.0, 2.0]) == EvaluerDepuis(config, rpn, 3, [1.0, 2.0, 3.0]) by {
      EvalueNombre(config, rpn, 2, [1.0, 2.0]);
      assert [1.0, 2.0] + [3.0] == [1.0, 2.0, 3.0];
    }
    assert EvaluerDepuis(config, rpn, 1, [1.0]) == EvaluerDepuis(config, rpn, 2, [1.0, 2.0]) by {
      EvalueNombre(config, rpn, 1, [1.0]);
      assert [1.0] + [2.0] == [1.0, 2.0];
    }
    assert EvaluerDepuis(config, rpn, 0, []) == EvaluerDepuis(config, rpn, 1, [1.0]) by {
      EvalueNombre(config, rpn, 0, []);
      assert [] + [1.0] == [1.0];
    }
  }


  // ----- division by zero

  /** With the policy, `1/0` is rejected by the policy; without any
      policy, by the division strategy itself. */
  lemma DivisionParZeroExemple(maths: Maths)
    ensures ValeurRpn(ParDefaut(maths), [Num("1", 1), Num("0", 0), Op("/")]) == Err(DivisionParZeroInterdite)
    ensures ValeurRpn(Calculateur(OperationsParDefaut, [], maths), [Num("1", 1), Num("0", 0), Op("/")]) == Err(DivisionParZero)
  {
    var rpn := [Num("1", 1), Num("0", 0), Op("/")];
    assert EvaluerDepuis(ParDefaut(maths), rpn, 0, []) == Err(DivisionParZeroInterdite);
    assert EvaluerDepuis(Calculateur(OperationsParDefaut, [], maths), rpn, 0, []) == Err(DivisionParZero);
  }

  /** Two numbers and no operator leave two values: the expression is
      invalid. */
  lemma DeuxNombres(maths: Maths)
    ensures ValeurRpn(ParDefaut(maths), [Num("1", 1), Num("2", 2)]) == Err(ExpressionInvalide)
  {
    EvalueNombre(ParDefaut(maths), [Num("1", 1), Num("2", 2)], 1, [1.0]);
    EvalueNombre(ParDefaut(maths), [Num("1", 1), Num("2", 2)], 0, []);
    assert [] + [1.0] == [1.0];
  }
}
