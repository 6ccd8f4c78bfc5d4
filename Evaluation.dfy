/** The evaluator (CalculerEquation.cs): its configuration, the evaluation
    of a reverse Polish token list on a stack of numbers, and `Evaluer`,
    which chains the tokenizer, the conversion and the evaluation. */
module Evaluation {
  import opened Resultats
  import opened Entrees
  import opened Strategies
  import opened Politiques
  import opened Equation
  import opened Conversion

  /** What a `CalculerEquation` holds once built: the operator dictionary
      keyed by symbol and the policies in registration order. Neither
      changes after construction. `Math.Pow` and `Math.Sqrt` are the
      `maths` parameter of the model. */
  datatype Calculateur = Calculateur(operations: map<string, Strategie>, politiques: seq<Politique>, maths: Maths)

  /** The constructor: builds the dictionary from the strategies, which
      fails when two of them share a symbol, and keeps the policies. */
  function Construire(strategies: seq<Strategie>, politiques: seq<Politique>, maths: Maths): (r: Result<Calculateur>)
    ensures r.Ok? <==> SymbolesDistincts(strategies)
    ensures r.Err? ==> r.erreur.SymboleDuplique?
    ensures r.Ok? ==> r.value.politiques == politiques && r.value.maths == maths
    ensures r.Ok? ==> r.value.operations.Keys == set s | s in strategies :: s.Symbole()
    ensures r.Ok? ==> Coherent(r.value.operations)
  {
    RepertorierProprietes(strategies);
    match Repertorier(strategies)
    case Err(e) => Err(e)
    case Ok(operations) => Ok(Calculateur(operations, politiques, maths))
  }

  /** The configuration the program builds: the five strategies and the
      division-by-zero policy. */
  lemma ConstruireParDefaut(maths: Maths)
    ensures Construire(StrategiesParDefaut, [DivisionParZeroPolicy], maths)
            == Ok(Calculateur(OperationsParDefaut, [DivisionParZeroPolicy], maths))
  {
    RepertorierParDefaut();
  }

  // ----- one token of the reverse Polish list; stacks have their top last

  /** `EvaluerFonction`: pops the argument and pushes the value of the
      function; only `sqrt` exists, and only on a non-negative argument. */
  function AppliquerFonction(fonction: Entree, pile: seq<real>, maths: Maths): (r: Result<seq<real>>)
    ensures r.Ok? <==> pile != [] && fonction.caractere == "sqrt" && pile[|pile| - 1] >= 0.0
    ensures r.Ok? ==> r.value == pile[..|pile| - 1] + [maths.sqrt(pile[|pile| - 1])]
    ensures r.Err? ==> r.erreur == (if pile == [] then ArgumentManquantFonction
                                    else if fonction.caractere != "sqrt" then FonctionInconnue(fonction.caractere)
                                    else SqrtNegatif)
  {
    if |pile| < 1 then Err(ArgumentManquantFonction)
    else
      var a := pile[|pile| - 1];
      match fonction.caractere
      case "sqrt" => if a < 0.0 then Err(SqrtNegatif) else Ok(pile[..|pile| - 1] + [maths.sqrt(a)])
      case _ => Err(FonctionInconnue(fonction.caractere))
  }

  /** `EvaluerOperateur`: pops the right then the left operand, runs every
      policy, looks the operator up and pushes what its strategy
      computes. */
  function AppliquerOperateur(config: Calculateur, operateur: Entree, pile: seq<real>): Result<seq<real>> {
    if |pile| < 2 then Err(ArgumentsManquantsOperateur)
    else
      var droite, gauche := pile[|pile| - 1], pile[|pile| - 2];
      match PremiereViolation(config.politiques, operateur.caractere, gauche, droite)
      case Echec(e) => Err(e)
      case Passe =>
        if operateur.caractere !in config.operations then Err(OperateurInconnu(operateur.caractere))
        else
          match config.operations[operateur.caractere].Calculer(gauche, droite, config.maths)
          case Err(e) => Err(e)
          case Ok(v) => Ok(pile[..|pile| - 2] + [v])
  }

  /** An operator succeeds exactly when two operands are there, every
      policy passes, the symbol has a strategy and that strategy
      computes; the two operands are then replaced by the result. The
      checks happen in that order, and each failure is reported with its
      own error: missing operands, the first policy's, an unknown
      operator, the strategy's. */
  lemma AppliquerOperateurProprietes(config: Calculateur, operateur: Entree, pile: seq<real>)
    ensures var r := AppliquerOperateur(config, operateur, pile);
            var n := |pile|;
            && (r.Ok? <==> && n >= 2
                           && PremiereViolation(config.politiques, operateur.caractere, pile[n - 2], pile[n - 1]).Passe?
                           && operateur.caractere in config.operations
                           && config.operations[operateur.caractere].Calculer(pile[n - 2], pile[n - 1], config.maths).Ok?)
            && (r.Ok? ==> r.value == pile[..n - 2] +
                            [config.operations[operateur.caractere].Calculer(pile[n - 2], pile[n - 1], config.maths).value])
            && (n < 2 ==> r == Err(ArgumentsManquantsOperateur))
            && (n >= 2 && PremiereViolation(config.politiques, operateur.caractere, pile[n - 2], pile[n - 1]).Echec? ==>
                  r == Err(PremiereViolation(config.politiques, operateur.caractere, pile[n - 2], pile[n - 1]).erreur))
            && ((&& n >= 2
                 && PremiereViolation(config.politiques, operateur.caractere, pile[n - 2], pile[n - 1]).Passe?
                 && operateur.caractere !in config.operations) ==>
                  r == Err(OperateurInconnu(operateur.caractere)))
            && ((&& n >= 2
                 && PremiereViolation(config.politiques, operateur.caractere, pile[n - 2], pile[n - 1]).Passe?
                 && operateur.caractere in config.operations
                 && config.operations[operateur.caractere].Calculer(pile[n - 2], pile[n - 1], config.maths).Err?) ==>
                  r == Err(config.operations[operateur.caractere].Calculer(pile[n - 2], pile[n - 1], config.maths).erreur))
  {
  }

  /** One token: a number is pushed (a number without a value fails), a
      function or an operator is applied, a parenthesis is ignored. */
  function EvaluerEntree(config: Calculateur, t: Entree, pile: seq<real>): Result<seq<real>> {
    match t.typeEntree
    case Nombre => if t.valeur.None? then Err(ValeurNulle) else Ok(pile + [t.valeur.value])
    case Fonction => AppliquerFonction(t, pile, config.maths)
    case Operateur => AppliquerOperateur(config, t, pile)
    case ParentheseGauche => Ok(pile)
    case ParentheseDroite => Ok(pile)
  }

  /** The stack left by the tokens from the `i`-th on. */
  function EvaluerDepuis(config: Calculateur, rpn: seq<Entree>, i: nat, pile: seq<real>): Result<seq<real>>
    requires i <= |rpn|
    decreases |rpn| - i
  {
    if i == |rpn| then Ok(pile)
    else
      match EvaluerEntree(config, rpn[i], pile)
      case Err(e) => Err(e)
      case Ok(suite) => EvaluerDepuis(config, rpn, i + 1, suite)
  }

  /** The value of a reverse Polish list: the single number left on the
      stack. */
  function ValeurRpn(config: Calculateur, rpn: seq<Entree>): Result<real> {
    match EvaluerDepuis(config, rpn, 0, [])
    case Err(e) => Err(e)
    case Ok(pile) => if |pile| != 1 then Err(ExpressionInvalide) else Ok(pile[0])
  }

  /** `Evaluer`: a blank expression is refused, any other is tokenized,
      converted and evaluated, and the first failure is the result. */
  function ValeurExpression(config: Calculateur, expression: string): Result<real> {
    if EstBlanc(expression) then Err(ExpressionVide)
    else
      match EntreesDe(expression)
      case Err(e) => Err(e)
      case Ok(ts) =>
        match Rpn(config.operations, ts)
        case Err(e) => Err(e)
        case Ok(rpn) => ValeurRpn(config, rpn)
  }

  // ----- the methods of CalculerEquation.cs

  /** `EvaluerFonction` on the stack `pile`. */
  method EvaluerFonction(fonction: Entree, pile: seq<real>, maths: Maths) returns (r: Result<seq<real>>)
    ensures r == AppliquerFonction(fonction, pile, maths)
  {
    if |pile| < 1 {
      return Err(ArgumentManquantFonction);
    }
    var a := pile[|pile| - 1];
    var reste := pile[..|pile| - 1];
    if fonction.caractere == "sqrt" {
      if a < 0.0 {
        return Err(SqrtNegatif);
      }
      return Ok(reste + [maths.sqrt(a)]);
    }
    return Err(FonctionInconnue(fonction.caractere));
  }

  /** `EvaluerOperateur` on the stack `pile`: the policies run one after
      the other and the first to fail stops the evaluation. */
  method EvaluerOperateur(config: Calculateur, operateur: Entree, pile: seq<real>) returns (r: Result<seq<real>>)
    ensures r == AppliquerOperateur(config, operateur, pile)
  {
    if |pile| < 2 {
      return Err(ArgumentsManquantsOperateur);
    }
    var droite := pile[|pile| - 1];
    var gauche := pile[|pile| - 2];
    var reste := pile[..|pile| - 2];
    for i := 0 to |config.politiques|
      invariant forall j | 0 <= j < i :: config.politiques[j].Verifier(operateur.caractere, gauche, droite).Passe?
    {
      var v := config.politiques[i].Verifier(operateur.caractere, gauche, droite);
      if v.Echec? {
        PremiereViolationEst(config.politiques, operateur.caractere, gauche, droite, i);
        return Err(v.erreur);
      }
    }
    if operateur.caractere !in config.operations {
      return Err(OperateurInconnu(operateur.caractere));
    }
    var strategie := config.operations[operateur.caractere];
    var valeur := strategie.Calculer(gauche, droite, config.maths);
    if valeur.Err? {
      return Err(valeur.erreur);
    }
    return Ok(reste + [valeur.value]);
  }

  /** The first policy to fail is the violation reported. */
  lemma PremiereViolationEst(politiques: seq<Politique>, operateur: string, gauche: real, droite: real, i: nat)
    requires i < |politiques| && politiques[i].Verifier(operateur, gauche, droite).Echec?
    requires forall j | 0 <= j < i :: politiques[j].Verifier(operateur, gauche, droite).Passe?
    ensures PremiereViolation(politiques, operateur, gauche, droite) == politiques[i].Verifier(operateur, gauche, droite)
  {
    var v := PremiereViolation(politiques, operateur, gauche, droite);
    var k :| 0 <= k < |politiques| && v == politiques[k].Verifier(operateur, gauche, droite)
             && forall j | 0 <= j < k :: politiques[j].Verifier(operateur, gauche, droite).Passe?;
    if k < i {
      assert politiques[k].Verifier(operateur, gauche, droite).Passe?;
    } else if k > i {
      assert politiques[i].Verifier(operateur, gauche, droite).Passe?;
    }
  }

  /** `EvaluerRpn`: runs the tokens on a stack and requires a single
      number at the end. */
  method EvaluerRpn(config: Calculateur, rpn: seq<Entree>) returns (r: Result<real>)
    ensures r == ValeurRpn(config, rpn)
  {
    var pile: seq<real> := [];
    for i := 0 to |rpn|
      invariant EvaluerDepuis(config, rpn, i, pile) == EvaluerDepuis(config, rpn, 0, [])
    {
      var t := rpn[i];
      match t.typeEntree {
        case Nombre =>
          if t.valeur.None? {
            return Err(ValeurNulle);
          }
          pile := pile + [t.valeur.value];
        case Fonction =>
          var suite := EvaluerFonction(t, pile, config.maths);
          if suite.Err? {
            return Err(suite.erreur);
          }
          pile := suite.value;
        case Operateur =>
          var suite := EvaluerOperateur(config, t, pile);
          if suite.Err? {
            return Err(suite.erreur);
          }
          pile := suite.value;
        case ParentheseGauche =>
        case ParentheseDroite =>
      }
    }
    if |pile| != 1 {
      return Err(ExpressionInvalide);
    }
    return Ok(pile[0]);
  }

  /** `Evaluer`. */
  method Evaluer(config: Calculateur, expression: string) returns (r: Result<real>)
    ensures r == ValeurExpression(config, expression)
  {
    if EstBlanc(expression) {
      return Err(ExpressionVide);
    }
    var entrees := ExtraireEntrees(expression);
    if entrees.Err? {
      return Err(entrees.erreur);
    }
    var rpn := ConvertirEnRpn(config.operations, entrees.value);
    if rpn.Err? {
      return Err(rpn.erreur);
    }
    r := EvaluerRpn(config, rpn.value);
  }
}
