/** The token produced by the tokenizer and consumed by the converter and
    the evaluator (Entree.cs). */
module Entrees {
  import opened Resultats

  /** Exactly five token kinds. */
  datatype TypeEntree = Nombre | Operateur | ParentheseGauche | ParentheseDroite | Fonction

  /** An immutable token: its kind, its text (`Caractere`, read as `Chaine`
      by the evaluator) and, for a number, its value. The value is optional
      and absent unless given. */
  datatype Entree = Entree(typeEntree: TypeEntree, caractere: string, valeur: Option<real> := None)

  predicate EstMinuscule(c: char) { 'a' <= c <= 'z' }

  /** The shape of every token the tokenizer emits: a value exactly on
      numbers, an operator text among the five supported symbols, the
      parenthesis as text of a parenthesis, and a non-empty lower-case
      name on a function. */
  predicate BienFormee(e: Entree) {
    && (e.valeur.Some? <==> e.typeEntree == Nombre)
    && (e.typeEntree == Operateur ==> e.caractere in ["+", "-", "*", "/", "^"])
    && (e.typeEntree == ParentheseGauche ==> e.caractere == "(")
    && (e.typeEntree == ParentheseDroite ==> e.caractere == ")")
    && (e.typeEntree == Fonction ==>
          |e.caractere| > 0 && forall k | 0 <= k < |e.caractere| :: EstMinuscule(e.caractere[k]))
  }

  predicate EstParenthese(e: Entree) {
    e.typeEntree == ParentheseGauche || e.typeEntree == ParentheseDroite
  }

  /** What `ToString` renders: `Type:Caractere`, or `Type:Valeur` when a
      value is present. The decimal itself is kept as a value; its
      text, which depends on the current culture, is not modelled. */
  datatype Rendu = FormeTexte(typeEntree: TypeEntree, caractere: string)
                 | FormeValeur(typeEntree: TypeEntree, valeur: real)

  function ToString(e: Entree): (r: Rendu)
    ensures r.typeEntree == e.typeEntree
    ensures r.FormeValeur? <==> e.valeur.Some?
    ensures r.FormeTexte? ==> r.caractere == e.caractere
    ensures r.FormeValeur? ==> r.valeur == e.valeur.value
  {
    match e.valeur
    case None => FormeTexte(e.typeEntree, e.caractere)
    case Some(v) => FormeValeur(e.typeEntree, v)
  }

  /** On a well-formed token the value form is used exactly for numbers. */
  lemma ToStringBienFormee(e: Entree)
    requires BienFormee(e)
    ensures ToString(e).FormeValeur? <==> e.typeEntree == Nombre
  {
  }

  /** A token built without a value carries none. */
  lemma ValeurParDefaut(t: TypeEntree, s: string)
    ensures Entree(t, s).valeur == None
    ensures Entree(t, s).typeEntree == t && Entree(t, s).caractere == s
  {
  }
}
