/** The shunting-yard conversion of CalculerEquation: `ConvertirEnRpn`,
    `TraiterOperateur` and `TraiterParentheseDroite`. The operator stack
    is a sequence whose top is its last element; the output list grows
    at its end. */
module Conversion {
  import opened Resultats
  import opened Entrees
  import opened Strategies

  /** The operator stack and the output list while the tokens are read. */
  datatype Etat = Etat(pile: seq<Entree>, sortie: seq<Entree>)

  /** The elements of `s` in the order successive pops take them. */
  function Inverse(s: seq<Entree>): (r: seq<Entree>)
    ensures |r| == |s|
    ensures forall k | 0 <= k < |s| :: r[k] == s[|s| - 1 - k]
  {
    if s == [] then [] else [s[|s| - 1]] + Inverse(s[..|s| - 1])
  }

  /** The operator `sommet` on top of the stack leaves before `courant`
      is pushed: when it binds tighter, or as tight and `courant` is
      left-associative. */
  predicate DoitDepiler(courant: Strategie, sommet: Strategie) {
    if courant.AssocDroite() then courant.Priorite() < sommet.Priorite()
    else courant.Priorite() <= sommet.Priorite()
  }

  /** The kinds of stacked tokens the operator loop may pop. */
  predicate PeutDepiler(e: Entree) {
    e.typeEntree == Fonction || e.typeEntree == Operateur
  }

  /** The loop of `TraiterOperateur`: pops functions, and operators that
      must leave before `operateur`, to the output. A symbol missing from
      the dictionary fails the lookup. */
  function Depiler(operations: map<string, Strategie>, operateur: Entree, etat: Etat): (r: Result<Etat>)
    ensures r.Ok? ==> |r.value.pile| <= |etat.pile|
    ensures r.Err? ==> r.erreur.CleAbsente?
    decreases |etat.pile|
  {
    if etat.pile == [] then Ok(etat)
    else
      var n := |etat.pile| - 1;
      var sommet := etat.pile[n];
      if sommet.typeEntree == Operateur && sommet.caractere !in operations then
        Err(CleAbsente(sommet.caractere))
      else if sommet.typeEntree == Operateur && operateur.caractere !in operations then
        Err(CleAbsente(operateur.caractere))
      else if sommet.typeEntree == Fonction
              || (sommet.typeEntree == Operateur
                  && DoitDepiler(operations[operateur.caractere], operations[sommet.caractere])) then
        Depiler(operations, operateur, Etat(etat.pile[..n], etat.sortie + [sommet]))
      else
        Ok(etat)
  }

  /** Popping the suffix of `pile` from index `n` on, one element after
      the other, appends it in reverse to the output. */
  lemma DepilerUn(pile: seq<Entree>, sortie: seq<Entree>, m: nat)
    requires m < |pile|
    ensures var n := |pile| - 1;
            && pile[..n][..m] == pile[..m]
            && sortie + [pile[n]] + Inverse(pile[..n][m..]) == sortie + Inverse(pile[m..])
  {
    var n := |pile| - 1;
    assert pile[m..] == pile[m..n] + [pile[n]];
    assert Inverse(pile[m..]) == [pile[n]] + Inverse(pile[m..n]);
    assert pile[..n][m..] == pile[m..n];
  }

  /** The recursive case of `Depiler`: the top is popped and the loop goes on. */
  predicate Continue(operations: map<string, Strategie>, operateur: Entree, pile: seq<Entree>)
    requires pile != []
  {
    Depilable(operations, operateur, pile[|pile| - 1])
  }

  /** A stacked token the loop pops before pushing `operateur`. */
  predicate Depilable(operations: map<string, Strategie>, operateur: Entree, sommet: Entree) {
    || sommet.typeEntree == Fonction
    || (&& sommet.typeEntree == Operateur
        && sommet.caractere in operations && operateur.caractere in operations
        && DoitDepiler(operations[operateur.caractere], operations[sommet.caractere]))
  }

  /** The loop pops a suffix of the stack and sends it to the output in
      pop order. */
  lemma {:induction false} DepilerSuffixe(operations: map<string, Strategie>, operateur: Entree, etat: Etat)
    requires Depiler(operations, operateur, etat).Ok?
    ensures var r := Depiler(operations, operateur, etat).value;
            var n := |r.pile|;
            && r.pile == etat.pile[..n]
            && r.sortie == etat.sortie + Inverse(etat.pile[n..])
    decreases |etat.pile|
  {
    if etat.pile != [] && Continue(operations, operateur, etat.pile) {
      var n := |etat.pile| - 1;
      var suite := Etat(etat.pile[..n], etat.sortie + [etat.pile[n]]);
      DepilerSuffixe(operations, operateur, suite);
      DepilerUn(etat.pile, etat.sortie, |Depiler(operations, operateur, suite).value.pile|);
    }
  }

  /** Every popped token is a function, or an operator that binds at
      least as tight as `operateur` (tighter when `operateur` is
      right-associative). */
  lemma {:induction false} DepilerDepiles(operations: map<string, Strategie>, operateur: Entree, etat: Etat)
    requires Depiler(operations, operateur, etat).Ok?
    ensures var n := |Depiler(operations, operateur, etat).value.pile|;
            forall k | n <= k < |etat.pile| :: Depilable(operations, operateur, etat.pile[k])
    decreases |etat.pile|
  {
    if etat.pile != [] && Continue(operations, operateur, etat.pile) {
      var n := |etat.pile| - 1;
      var suite := Etat(etat.pile[..n], etat.sortie + [etat.pile[n]]);
      DepilerDepiles(operations, operateur, suite);
      var m := |Depiler(operations, operateur, suite).value.pile|;
      assert forall k | m <= k < n :: suite.pile[k] == etat.pile[k];
    }
  }

  /** The loop stops on the first stacked token it may not pop. */
  lemma {:induction false} DepilerArret(operations: map<string, Strategie>, operateur: Entree, etat: Etat)
    requires Depiler(operations, operateur, etat).Ok?
    ensures var r := Depiler(operations, operateur, etat).value;
            r.pile == [] || !Continue(operations, operateur, r.pile)
    decreases |etat.pile|
  {
    if etat.pile != [] && Continue(operations, operateur, etat.pile) {
      var n := |etat.pile| - 1;
      DepilerArret(operations, operateur, Etat(etat.pile[..n], etat.sortie + [etat.pile[n]]));
    }
  }

  /** The lookup fails only on a symbol with no strategy: the incoming
      operator's or a stacked operator's. */
  lemma {:induction false} DepilerErreur(operations: map<string, Strategie>, operateur: Entree, etat: Etat)
    requires Depiler(operations, operateur, etat).Err?
    ensures var e := Depiler(operations, operateur, etat).erreur;
            && e.CleAbsente? && e.cle !in operations
            && (|| e.cle == operateur.caractere
                || exists k | 0 <= k < |etat.pile| :: etat.pile[k].typeEntree == Operateur && etat.pile[k].caractere == e.cle)
    decreases |etat.pile|
  {
    var n := |etat.pile| - 1;
    var sommet := etat.pile[n];
    var suite := Etat(etat.pile[..n], etat.sortie + [sommet]);
    if Depiler(operations, operateur, etat) == Depiler(operations, operateur, suite) {
      DepilerErreur(operations, operateur, suite);
      assert forall k | 0 <= k < n :: suite.pile[k] == etat.pile[k];
    }
  }

  /** What `TraiterOperateur` leaves: the stack after the loop, with
      `operateur` pushed on it. */
  function ApresOperateur(operations: map<string, Strategie>, operateur: Entree, etat: Etat): Result<Etat> {
    match Depiler(operations, operateur, etat)
    case Err(e) => Err(e)
    case Ok(e) => Ok(Etat(e.pile + [operateur], e.sortie))
  }

  /** The loop of `TraiterParentheseDroite`: pops to the output until an
      opening parenthesis is on top or the stack is empty. */
  function DepilerJusquaGauche(etat: Etat): (r: Etat)
    ensures |r.pile| <= |etat.pile|
    decreases |etat.pile|
  {
    if etat.pile == [] || etat.pile[|etat.pile| - 1].typeEntree == ParentheseGauche then etat
    else
      var n := |etat.pile| - 1;
      DepilerJusquaGauche(Etat(etat.pile[..n], etat.sortie + [etat.pile[n]]))
  }

  /** It pops, in pop order, the suffix above the nearest opening
      parenthesis, which is then on top. */
  lemma {:induction false} JusquaGaucheResultat(etat: Etat)
    ensures var r := DepilerJusquaGauche(etat);
            var n := |r.pile|;
            && r.pile == etat.pile[..n]
            && r.sortie == etat.sortie + Inverse(etat.pile[n..])
            && (forall k | n <= k < |etat.pile| :: etat.pile[k].typeEntree != ParentheseGauche)
            && (n > 0 ==> r.pile[n - 1].typeEntree == ParentheseGauche)
    decreases |etat.pile|
  {
    if etat.pile != [] && etat.pile[|etat.pile| - 1].typeEntree != ParentheseGauche {
      var n := |etat.pile| - 1;
      var suite := Etat(etat.pile[..n], etat.sortie + [etat.pile[n]]);
      JusquaGaucheResultat(suite);
      var r := DepilerJusquaGauche(suite);
      assert DepilerJusquaGauche(etat) == r;
      var m := |r.pile|;
      DepilerUn(etat.pile, etat.sortie, m);
      assert r.pile == etat.pile[..m];
      assert r.sortie == etat.sortie + Inverse(etat.pile[m..]);
      forall k | m <= k < |etat.pile|
        ensures etat.pile[k].typeEntree != ParentheseGauche
      {
        if k < n { assert suite.pile[k] == etat.pile[k]; }
      }
    }
  }

  /** What `TraiterParentheseDroite` leaves: everything above the nearest
      opening parenthesis goes to the output, the parenthesis is dropped,
      and a function just below it follows to the output. Without an
      opening parenthesis the parentheses are unbalanced. */
  function ApresParentheseDroite(etat: Etat): (r: Result<Etat>)
    ensures r.Err? <==> forall k | 0 <= k < |etat.pile| :: etat.pile[k].typeEntree != ParentheseGauche
    ensures r.Err? ==> r.erreur == ParenthesesDesequilibrees
  {
    var e := DepilerJusquaGauche(etat);
    JusquaGaucheResultat(etat);
    if e.pile == [] then Err(ParenthesesDesequilibrees)
    else
      var p := e.pile[..|e.pile| - 1];
      if p != [] && p[|p| - 1].typeEntree == Fonction then Ok(Etat(p[..|p| - 1], e.sortie + [p[|p| - 1]]))
      else Ok(Etat(p, e.sortie))
  }

  /** The final loop of `ConvertirEnRpn`: pops the whole stack to the
      output, and fails on a parenthesis left on it. */
  function Vider(etat: Etat): (r: Result<seq<Entree>>)
    ensures r.Ok? <==> forall k | 0 <= k < |etat.pile| :: !EstParenthese(etat.pile[k])
    ensures r.Ok? ==> r.value == etat.sortie + Inverse(etat.pile)
    ensures r.Err? ==> r.erreur == ParenthesesDesequilibrees
    decreases |etat.pile|
  {
    if etat.pile == [] then Ok(etat.sortie)
    else
      var n := |etat.pile| - 1;
      var sommet := etat.pile[n];
      if EstParenthese(sommet) then Err(ParenthesesDesequilibrees)
      else
        var r := Vider(Etat(etat.pile[..n], etat.sortie + [sommet]));
        assert etat.pile == etat.pile[..n] + [sommet];
        r
  }

  /** One token of the input: numbers go to the output, functions and
      opening parentheses onto the stack, operators and closing
      parentheses through their helpers. */
  function Etape(operations: map<string, Strategie>, t: Entree, etat: Etat): Result<Etat> {
    match t.typeEntree
    case Nombre => Ok(Etat(etat.pile, etat.sortie + [t]))
    case Fonction => Ok(Etat(etat.pile + [t], etat.sortie))
    case Operateur => ApresOperateur(operations, t, etat)
    case ParentheseGauche => Ok(Etat(etat.pile + [t], etat.sortie))
    case ParentheseDroite => ApresParentheseDroite(etat)
  }

  /** The conversion from token `i` on, from the state `etat`. */
  function ConvertirDepuis(operations: map<string, Strategie>, ts: seq<Entree>, i: nat, etat: Etat): (r: Result<seq<Entree>>)
    requires i <= |ts|
    ensures r.Err? ==> r.erreur == ParenthesesDesequilibrees || r.erreur.CleAbsente?
    decreases |ts| - i
  {
    if i == |ts| then Vider(etat)
    else
      match Etape(operations, ts[i], etat)
      case Err(e) => Err(e)
      case Ok(suite) => ConvertirDepuis(operations, ts, i + 1, suite)
  }

  /** The reverse Polish form of a token list. */
  function Rpn(operations: map<string, Strategie>, ts: seq<Entree>): Result<seq<Entree>> {
    ConvertirDepuis(operations, ts, 0, Etat([], []))
  }

  // ----- the methods of CalculerEquation.cs

  method TraiterOperateur(operations: map<string, Strategie>, operateur: Entree, pile: seq<Entree>, sortie: seq<Entree>)
    returns (r: Result<Etat>)
    ensures r == ApresOperateur(operations, operateur, Etat(pile, sortie))
  {
    var p, s := pile, sortie;
    while p != [] && PeutDepiler(p[|p| - 1])
      invariant Depiler(operations, operateur, Etat(p, s)) == Depiler(operations, operateur, Etat(pile, sortie))
      decreases |p|
    {
      var sommet := p[|p| - 1];
      if sommet.typeEntree == Fonction {
        s := s + [sommet];
        p := p[..|p| - 1];
        continue;
      }
      if sommet.caractere !in operations {
        return Err(CleAbsente(sommet.caractere));
      }
      var opSommet := operations[sommet.caractere];
      if operateur.caractere !in operations {
        return Err(CleAbsente(operateur.caractere));
      }
      var opCourant := operations[operateur.caractere];
      var condition := if opCourant.AssocDroite() then opCourant.Priorite() < opSommet.Priorite()
                       else opCourant.Priorite() <= opSommet.Priorite();
      if condition {
        s := s + [sommet];
        p := p[..|p| - 1];
      } else {
        break;
      }
    }
    return Ok(Etat(p + [operateur], s));
  }

  method TraiterParentheseDroite(pile: seq<Entree>, sortie: seq<Entree>) returns (r: Result<Etat>)
    ensures r == ApresParentheseDroite(Etat(pile, sortie))
  {
    var p, s := pile, sortie;
    while p != [] && p[|p| - 1].typeEntree != ParentheseGauche
      invariant DepilerJusquaGauche(Etat(p, s)) == DepilerJusquaGauche(Etat(pile, sortie))
      decreases |p|
    {
      s := s + [p[|p| - 1]];
      p := p[..|p| - 1];
    }
    if p == [] {
      return Err(ParenthesesDesequilibrees);
    }
    p := p[..|p| - 1];
    if p != [] && p[|p| - 1].typeEntree == Fonction {
      s := s + [p[|p| - 1]];
      p := p[..|p| - 1];
    }
    return Ok(Etat(p, s));
  }

  method ConvertirEnRpn(operations: map<string, Strategie>, ts: seq<Entree>) returns (r: Result<seq<Entree>>)
    ensures r == Rpn(operations, ts)
  {
    var sortie: seq<Entree> := [];
    var pile: seq<Entree> := [];
    for i := 0 to |ts|
      invariant ConvertirDepuis(operations, ts, i, Etat(pile, sortie)) == Rpn(operations, ts)
    {
      var t := ts[i];
      match t.typeEntree {
        case Nombre =>
          sortie := sortie + [t];
        case Fonction =>
          pile := pile + [t];
        case Operateur =>
          var suite := TraiterOperateur(operations, t, pile, sortie);
          if suite.Err? {
            return Err(suite.erreur);
          }
          pile, sortie := suite.value.pile, suite.value.sortie;
        case ParentheseGauche =>
          pile := pile + [t];
        case ParentheseDroite =>
          var suite := TraiterParentheseDroite(pile, sortie);
          if suite.Err? {
            return Err(suite.erreur);
          }
          pile, sortie := suite.value.pile, suite.value.sortie;
      }
    }
    while pile != []
      invariant Vider(Etat(pile, sortie)) == Rpn(operations, ts)
      decreases |pile|
    {
      var op := pile[|pile| - 1];
      pile := pile[..|pile| - 1];
      if EstParenthese(op) {
        return Err(ParenthesesDesequilibrees);
      }
      sortie := sortie + [op];
    }
    return Ok(sortie);
  }
}
