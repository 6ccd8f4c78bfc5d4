/** Validation policies run before every binary operator
    (DivisionParZeroPolicy.cs, and the policy loop of
    CalculerEquation.EvaluerOperateur). */
module Politiques {
  import opened Resultats

  /** The closed set of policies; each is stateless. */
  datatype Politique = DivisionParZeroPolicy {

    /** Rejects a division whose right operand is zero; lets every other
        operation through. */
    function Verifier(operateur: string, gauche: real, droite: real): (v: Verdict)
      ensures v.Echec? <==> operateur == "/" && droite == 0.0
      ensures v.Echec? ==> v.erreur == DivisionParZeroInterdite
    {
      match this
      case DivisionParZeroPolicy =>
        if operateur == "/" && droite == 0.0 then Echec(DivisionParZeroInterdite) else Passe
    }
  }

  /** The outcome never depends on the left operand. */
  lemma VerifierIgnoreGauche(p: Politique, operateur: string, g1: real, g2: real, droite: real)
    ensures p.Verifier(operateur, g1, droite) == p.Verifier(operateur, g2, droite)
  {
  }

  /** Runs the policies in registration order and stops at the first one
      that fails: the result is that failure, or `Passe` when none fails. */
  function PremiereViolation(politiques: seq<Politique>, operateur: string, gauche: real, droite: real): (v: Verdict)
    ensures v.Passe? <==> forall i | 0 <= i < |politiques| :: politiques[i].Verifier(operateur, gauche, droite).Passe?
    ensures v.Echec? ==> exists i | 0 <= i < |politiques| ::
                           && v == politiques[i].Verifier(operateur, gauche, droite)
                           && forall j | 0 <= j < i :: politiques[j].Verifier(operateur, gauche, droite).Passe?
    decreases |politiques|
  {
    if politiques == [] then Passe
    else
      var v0 := politiques[0].Verifier(operateur, gauche, droite);
      if v0.Echec? then v0
      else
        var v := PremiereViolation(politiques[1..], operateur, gauche, droite);
        assert forall i | 1 <= i < |politiques| :: politiques[i] == politiques[1..][i - 1];
        v
  }

  /** With the division-by-zero policy registered, however often, a
      division by zero is rejected with its error, whatever the left
      operand is. */
  lemma DivisionParZeroToujoursRejetee(politiques: seq<Politique>, gauche: real)
    requires DivisionParZeroPolicy in politiques
    ensures PremiereViolation(politiques, "/", gauche, 0.0) == Echec(DivisionParZeroInterdite)
  {
    var k :| 0 <= k < |politiques| && politiques[k] == DivisionParZeroPolicy;
    assert politiques[k].Verifier("/", gauche, 0.0).Echec?;
  }
}
