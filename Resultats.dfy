/** Failure values of the calculator. Every exception the C# code throws
    on a bad expression becomes one constructor of `Erreur`, and every
    operation that can throw returns a `Result` instead. */
module Resultats {

  datatype Erreur =
    | ExpressionVide                // blank or whitespace-only expression
    | NombreNegatifMalForme         // unary minus not followed by a number
    | NombreMalForme                // run of digits and point that does not parse
    | CaractereInvalide(c: char)    // character outside every token class
    | SymboleDuplique(symbole: string)  // two strategies share a symbol
    | ParenthesesDesequilibrees
    | ValeurNulle                   // Nombre token without a value
    | ArgumentManquantFonction
    | ArgumentsManquantsOperateur
    | SqrtNegatif
    | FonctionInconnue(nom: string)
    | OperateurInconnu(symbole: string)
    | CleAbsente(cle: string)       // dictionary indexer on a symbol with no strategy
    | DivisionParZeroInterdite      // raised by the division-by-zero policy
    | DivisionParZero               // raised by Division.Calculer itself
    | ExpressionInvalide            // final stack does not hold one value

  datatype Result<+T> = Ok(value: T) | Err(erreur: Erreur)

  /** Outcome of a check that returns nothing but may fail. */
  datatype Verdict = Passe | Echec(erreur: Erreur)

  /** A nullable value (C# `decimal?`). */
  datatype Option<+T> = None | Some(value: T)
}
