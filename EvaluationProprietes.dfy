/** What the evaluator guarantees: how each token changes the stack, which
    failures it can report, and that a registered division-by-zero policy
    always pre-empts the division strategy's own check. */
module ProprietesEvaluation {
  import opened Resultats
  import opened Entrees
  import opened Strategies
  import opened Politiques
  import opened Equation
  import opened Conversion
  import opened ProprietesConversion
  import opened Evaluation

  /** The failures that evaluating a reverse Polish list can report. */
  predicate ErreurDEvaluation(e: Erreur) {
    || e.ValeurNulle? || e.ArgumentManquantFonction? || e.FonctionInconnue? || e.SqrtNegatif?
    || e.ArgumentsManquantsOperateur? || e.DivisionParZeroInterdite? || e.OperateurInconnu?
    || e.DivisionParZero?
  }

  /** A dictionary whose keys are the symbols of their strategies, and the
      division-by-zero policy among the policies. */
  predicate Protege(config: Calculateur) {
    Coherent(config.operations) && DivisionParZeroPolicy in config.politiques
  }

  /** One token fails only with an evaluation failure, and never with the
      division strategy's own failure when the configuration is
      protected. */
  lemma EvaluerEntreeErreur(config: Calculateur, t: Entree, pile: seq<real>)
    ensures EvaluerEntree(config, t, pile).Err? ==> ErreurDEvaluation(EvaluerEntree(config, t, pile).erreur)
    ensures Protege(config) ==> EvaluerEntree(config, t, pile) != Err(DivisionParZero)
  {
    if t.typeEntree == Operateur && |pile| >= 2 {
      var droite, gauche := pile[|pile| - 1], pile[|pile| - 2];
      var v := PremiereViolation(config.politiques, t.caractere, gauche, droite);
      if v.Echec? {
        assert exists i | 0 <= i < |config.politiques| :: v == config.politiques[i].Verifier(t.caractere, gauche, droite);
      } else if Protege(config) {
        DivisionParZeroToujoursRejetee(config.politiques, gauche);
      }
    }
  }

  /** The same for a whole list, from its `i`-th token on. */
  lemma {:induction false} EvaluerDepuisErreur(config: Calculateur, rpn: seq<Entree>, i: nat, pile: seq<real>)
    requires i <= |rpn|
    ensures EvaluerDepuis(config, rpn, i, pile).Err? ==> ErreurDEvaluation(EvaluerDepuis(config, rpn, i, pile).erreur)
    ensures Protege(config) ==> EvaluerDepuis(config, rpn, i, pile) != Err(DivisionParZero)
    decreases |rpn| - i
  {
    if i < |rpn| {
      EvaluerEntreeErreur(config, rpn[i], pile);
      var e := EvaluerEntree(config, rpn[i], pile);
      if e.Ok? {
        EvaluerDepuisErreur(config, rpn, i + 1, e.value);
      }
    }
  }

  // ----- the height of the stack

  /** Numbers minus operators among the tokens from the `i`-th on: each
      number pushes one value, each operator turns two into one, and
      functions and parentheses leave the height alone. */
  function Solde(rpn: seq<Entree>, i: nat): int
    requires i <= |rpn|
    decreases |rpn| - i
  {
    if i == |rpn| then 0
    else
      (match rpn[i].typeEntree
       case Nombre => 1
       case Operateur => -1
       case _ => 0) + Solde(rpn, i + 1)
  }

  /** A successful run leaves the stack `Solde` values higher. */
  lemma {:induction false} EvaluerDepuisHauteur(config: Calculateur, rpn: seq<Entree>, i: nat, pile: seq<real>)
    requires i <= |rpn|
    requires EvaluerDepuis(config, rpn, i, pile).Ok?
    ensures |EvaluerDepuis(config, rpn, i, pile).value| == |pile| + Solde(rpn, i)
    decreases |rpn| - i
  {
    if i < |rpn| {
      var t := rpn[i];
      var e := EvaluerEntree(config, t, pile);
      assert |e.value| == |pile| + (match t.typeEntree
                                    case Nombre => 1
                                    case Operateur => -1
                                    case _ => 0);
      EvaluerDepuisHauteur(config, rpn, i + 1, e.value);
    }
  }

  /** `EvaluerRpn` fails with `ExpressionInvalide` exactly when every
      token goes through but the numbers are not one more than the
      operators; a value is produced only when they are. */
  lemma ValeurRpnSolde(config: Calculateur, rpn: seq<Entree>)
    ensures ValeurRpn(config, rpn) == Err(ExpressionInvalide) <==>
            EvaluerDepuis(config, rpn, 0, []).Ok? && Solde(rpn, 0) != 1
    ensures ValeurRpn(config, rpn).Ok? ==>
            Solde(rpn, 0) == 1 && ValeurRpn(config, rpn).value == EvaluerDepuis(config, rpn, 0, []).value[0]
  {
    EvaluerDepuisErreur(config, rpn, 0, []);
    if EvaluerDepuis(config, rpn, 0, []).Ok? {
      EvaluerDepuisHauteur(config, rpn, 0, []);
    }
  }

  // ----- the whole evaluation

  /** With a strategy for each of the five symbols, every operator the
      tokenizer emits has a strategy. */
  lemma Connues(operations: map<string, Strategie>, ts: seq<Entree>)
    requires Couvre(operations) && ToutesBienFormees(ts)
    ensures Connus(operations, ts)
  {
    forall k | 0 <= k < |ts| && ts[k].typeEntree == Operateur ensures ts[k].caractere in operations {
      assert BienFormee(ts[k]);
    }
  }

  /** `Evaluer` with a strategy for each of the five symbols: it reports
      an empty expression exactly on blank input, never a missing
      dictionary key, unbalanced parentheses exactly when the tokens'
      parentheses do not match, and, once the division-by-zero policy is
      registered, never the division strategy's own failure. */
  lemma EvaluationErreurs(config: Calculateur, expression: string)
    requires Couvre(config.operations)
    ensures ValeurExpression(config, expression) == Err(ExpressionVide) <==> EstBlanc(expression)
    ensures ValeurExpression(config, expression).Err? ==> !ValeurExpression(config, expression).erreur.CleAbsente?
    ensures !EstBlanc(expression) && EntreesDe(expression).Ok? ==>
              (ValeurExpression(config, expression) == Err(ParenthesesDesequilibrees) <==> !Equilibre(EntreesDe(expression).value))
    ensures Protege(config) ==> ValeurExpression(config, expression) != Err(DivisionParZero)
  {
    if !EstBlanc(expression) && EntreesDe(expression).Ok? {
      var ts := EntreesDe(expression).value;
      Connues(config.operations, ts);
      RpnProprietes(config.operations, ts);
      if Rpn(config.operations, ts).Ok? {
        var rpn := Rpn(config.operations, ts).value;
        EvaluerDepuisErreur(config, rpn, 0, []);
      }
    }
  }

  /** On the tokenizer's tokens, the tokens whose text is a parenthesis
      are exactly the parentheses of that kind. */
  lemma {:induction false} SymbolesParentheses(ts: seq<Entree>)
    requires ToutesBienFormees(ts) && ToutesLues(ts)
    ensures Symboles(ts, '(') == |Parmi(ts, Gauches)|
    ensures Symboles(ts, ')') == |Parmi(ts, Droites)|
    decreases |ts|
  {
    if ts != [] {
      var n := |ts| - 1;
      assert ToutesBienFormees(ts[..n]) && ToutesLues(ts[..n]) by {
        forall k | 0 <= k < n ensures ts[..n][k] == ts[k] { }
      }
      SymbolesParentheses(ts[..n]);
      GenreParTexte(ts[n]);
    }
  }

  /** The balance check read on the text: a non-blank expression that
      tokenizes but holds more `(` than `)`, or fewer, is reported as
      unbalanced. */
  lemma ParenthesesDuTexte(config: Calculateur, expression: string)
    requires Couvre(config.operations) && !EstBlanc(expression) && EntreesDe(expression).Ok?
    requires var expr := Trim(expression);
             Occurrences(expr, '(', 0, |expr|) != Occurrences(expr, ')', 0, |expr|)
    ensures ValeurExpression(config, expression) == Err(ParenthesesDesequilibrees)
  {
    var ts := EntreesDe(expression).value;
    EntreesDeProprietes(expression, '(');
    EntreesDeProprietes(expression, ')');
    SymbolesParentheses(ts);
    assert ts[..|ts|] == ts;
    assert Profondeur(ts, |ts|) != 0;
    EvaluationErreurs(config, expression);
  }

  /** The program's own configuration never reports the division
      strategy's failure: its policy rejects a division by zero first. */
  lemma ParDefautSansDivisionParZero(maths: Maths, expression: string)
    ensures ValeurExpression(Calculateur(OperationsParDefaut, [DivisionParZeroPolicy], maths), expression) != Err(DivisionParZero)
  {
    RepertorierParDefaut();
    EvaluationErreurs(Calculateur(OperationsParDefaut, [DivisionParZeroPolicy], maths), expression);
  }
}
