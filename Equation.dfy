/** The tokenizer (Equation.cs): a single left-to-right scan that turns
    an expression into tokens. Character classes are restricted to ASCII. */
module Equation {
  import opened Resultats
  import opened Entrees

  const OperateursSupportes: string := "+-*/^"

  // ----- character classes (char.IsWhiteSpace, IsDigit, IsLetter on ASCII)

  predicate EstEspace(c: char) { c == ' ' || '\t' <= c <= '\r' }

  predicate EstChiffre(c: char) { '0' <= c <= '9' }

  predicate EstLettre(c: char) { 'a' <= c <= 'z' || 'A' <= c <= 'Z' }

  /** `ToLowerInvariant` on one character. */
  function Minuscule(c: char): (r: char)
    ensures EstLettre(c) ==> EstMinuscule(r)
    ensures 'A' <= c <= 'Z' ==> r as int == c as int - 'A' as int + 'a' as int
    ensures !('A' <= c <= 'Z') ==> r == c
  {
    if 'A' <= c <= 'Z' then (c as int - 'A' as int + 'a' as int) as char else c
  }

  function EnMinuscules(s: string): (r: string)
    ensures |r| == |s|
    ensures forall k | 0 <= k < |s| :: r[k] == Minuscule(s[k])
  {
    seq(|s|, k requires 0 <= k < |s| => Minuscule(s[k]))
  }

  /** `string.IsNullOrWhiteSpace`. */
  predicate EstBlanc(s: string) {
    forall k | 0 <= k < |s| :: EstEspace(s[k])
  }

  // ----- String.Trim

  /** Number of whitespace characters at the start of `s`. */
  function Blancs(s: string): (n: nat)
    ensures n <= |s|
    ensures forall k | 0 <= k < n :: EstEspace(s[k])
    ensures n < |s| ==> !EstEspace(s[n])
    decreases |s|
  {
    if s != [] && EstEspace(s[0]) then 1 + Blancs(s[1..]) else 0
  }

  /** Length of `s` once its trailing whitespace is dropped. */
  function LongueurSansBlancsFinaux(s: string): (n: nat)
    ensures n <= |s|
    ensures forall k | n <= k < |s| :: EstEspace(s[k])
    ensures n > 0 ==> !EstEspace(s[n - 1])
    decreases |s|
  {
    if s != [] && EstEspace(s[|s| - 1]) then LongueurSansBlancsFinaux(s[..|s| - 1]) else |s|
  }

  /** `String.Trim`: the slice of `s` between its leading and its
      trailing whitespace. */
  function Trim(s: string): string {
    var d := Blancs(s);
    s[d..][..LongueurSansBlancsFinaux(s[d..])]
  }

  /** What is left after trimming neither starts nor ends with
      whitespace, is the slice of the input that follows the leading
      whitespace, and is empty exactly when the input is blank; only
      whitespace is dropped after it. */
  lemma TrimPropre(s: string)
    ensures Trim(s) == [] <==> EstBlanc(s)
    ensures Trim(s) != [] ==> !EstEspace(Trim(s)[0]) && !EstEspace(Trim(s)[|Trim(s)| - 1])
    ensures |Trim(s)| <= |s| - Blancs(s)
    ensures forall k | 0 <= k < |Trim(s)| :: Trim(s)[k] == s[Blancs(s) + k]
    ensures forall k | Blancs(s) + |Trim(s)| <= k < |s| :: EstEspace(s[k])
  {
    var d := Blancs(s);
    var t := s[d..];
    var n := LongueurSansBlancsFinaux(t);
    assert n > 0 ==> t[n - 1] == s[d + n - 1];
    forall k | d + n <= k < |s| ensures EstEspace(s[k]) {
      assert s[k] == t[k - d];
    }
  }

  // ----- the scans of LireNombre, LireIdentifiant and the unary minus

  /** First index at or after `i` that does not hold whitespace. */
  function SauterEspaces(s: string, i: nat): (j: nat)
    requires i <= |s|
    ensures i <= j <= |s|
    ensures forall k | i <= k < j :: EstEspace(s[k])
    ensures j < |s| ==> !EstEspace(s[j])
    decreases |s| - i
  {
    if i < |s| && EstEspace(s[i]) then SauterEspaces(s, i + 1) else i
  }

  /** Digits with at most one decimal point. */
  predicate ChiffresEtUnPoint(span: string) {
    && (forall k | 0 <= k < |span| :: EstChiffre(span[k]) || span[k] == '.')
    && (forall j, k | 0 <= j < k < |span| :: !(span[j] == '.' && span[k] == '.'))
  }

  /** End of the longest run from `i` of digits holding at most one point
      (none more when `pointVu`): the run is made of digits and points,
      holds at most one point, and cannot be extended. */
  function FinNombre(s: string, i: nat, pointVu: bool): (fin: nat)
    requires i <= |s|
    ensures i <= fin <= |s|
    ensures ChiffresEtUnPoint(s[i..fin])
    ensures forall k | i <= k < fin :: EstChiffre(s[k]) || s[k] == '.'
    ensures pointVu ==> '.' !in s[i..fin]
    ensures fin < |s| ==> !EstChiffre(s[fin]) && (s[fin] == '.' ==> pointVu || '.' in s[i..fin])
    ensures i < |s| && (EstChiffre(s[i]) || (s[i] == '.' && !pointVu)) ==> i < fin
    decreases |s| - i
  {
    if i < |s| && EstChiffre(s[i]) then
      var fin := FinNombre(s, i + 1, pointVu);
      assert s[i..fin] == [s[i]] + s[i + 1..fin];
      fin
    else if i < |s| && s[i] == '.' && !pointVu then
      var fin := FinNombre(s, i + 1, true);
      assert s[i..fin] == [s[i]] + s[i + 1..fin];
      fin
    else
      i
  }

  /** End of the longest run of letters from `i`. */
  function FinIdentifiant(s: string, i: nat): (fin: nat)
    requires i <= |s|
    ensures i <= fin <= |s|
    ensures forall k | i <= k < fin :: EstLettre(s[k])
    ensures fin < |s| ==> !EstLettre(s[fin])
    decreases |s| - i
  {
    if i < |s| && EstLettre(s[i]) then FinIdentifiant(s, i + 1) else i
  }

  // ----- decimal.TryParse on a run of digits and at most one point

  /** Value of a string of decimal digits. */
  function ValeurChiffres(ds: string): nat
    requires forall k | 0 <= k < |ds| :: EstChiffre(ds[k])
    decreases |ds|
  {
    if ds == [] then 0
    else
      assert EstChiffre(ds[|ds| - 1]);
      10 * ValeurChiffres(ds[..|ds| - 1]) + (ds[|ds| - 1] as int - '0' as int)
  }

  function Puissance10(n: nat): (p: nat)
    ensures p >= 1
  {
    if n == 0 then 1 else 10 * Puissance10(n - 1)
  }

  /** Index of the first point, or the length when there is none. */
  function PositionPoint(span: string): (p: nat)
    ensures p <= |span|
    ensures p < |span| ==> span[p] == '.'
    ensures forall k | 0 <= k < p :: span[k] != '.'
    decreases |span|
  {
    if span == [] then 0
    else if span[0] == '.' then 0
    else 1 + PositionPoint(span[1..])
  }

  /** The parse of a run read by `LireNombre`: absent exactly when the run
      holds no digit (it is empty or a lone point), otherwise the
      non-negative number the digits denote, the point placing the
      decimals. */
  function ValeurDecimale(span: string): (v: Option<real>)
    requires ChiffresEtUnPoint(span)
    ensures v.None? <==> forall k | 0 <= k < |span| :: span[k] == '.'
    ensures v.Some? ==> v.value >= 0.0
  {
    var p := PositionPoint(span);
    var chiffres := if p < |span| then span[..p] + span[p + 1..] else span;
    var decimales := if p < |span| then |span| - p - 1 else 0;
    assert forall k | 0 <= k < |chiffres| :: EstChiffre(chiffres[k]) by {
      forall k | 0 <= k < |chiffres| ensures EstChiffre(chiffres[k]) {
        if p < |span| && k >= p { assert chiffres[k] == span[k + 1]; }
      }
    }
    if chiffres == [] then None
    else
      assert EstChiffre(chiffres[0]);
      assert exists k | 0 <= k < |span| :: span[k] != '.' by {
        if p < |span| && p == 0 { assert span[1] == chiffres[0]; } else { assert span[0] == chiffres[0]; }
      }
      Some(ValeurChiffres(chiffres) as real / Puissance10(decimales) as real)
  }

  // ----- the scan of ExtraireEntrees

  /** A `-` is a sign when nothing precedes it or it follows an operator,
      an opening parenthesis or a function name. */
  predicate EstUnMoinsUnaire(c: char, entrees: seq<Entree>) {
    && c == '-'
    && (|| entrees == []
        || entrees[|entrees| - 1].typeEntree == Operateur
        || entrees[|entrees| - 1].typeEntree == ParentheseGauche
        || entrees[|entrees| - 1].typeEntree == Fonction)
  }

  predicate ToutesBienFormees(ts: seq<Entree>) {
    forall k | 0 <= k < |ts| :: BienFormee(ts[k])
  }

  /** A number token is signed when its text starts with `-`. */
  predicate Signe(e: Entree) {
    e.typeEntree == Nombre && |e.caractere| > 0 && e.caractere[0] == '-'
  }

  /** A number token carries the value of its digits, negated when it
      is signed. */
  predicate ValeurLue(e: Entree) {
    e.typeEntree == Nombre ==>
      var chiffres := SansSigne(e.caractere);
      && ChiffresEtUnPoint(chiffres)
      && ValeurDecimale(chiffres).Some?
      && e.valeur == Some(if Signe(e) then -ValeurDecimale(chiffres).value else ValeurDecimale(chiffres).value)
  }

  predicate ToutesLues(ts: seq<Entree>) {
    forall k | 0 <= k < |ts| :: ValeurLue(ts[k])
  }

  /** The text of a number without its leading sign, if it has one. */
  function SansSigne(texte: string): string {
    if |texte| > 0 && texte[0] == '-' then texte[1..] else texte
  }

  /** On a token the tokenizer emits the text decides the kind: a
      parenthesis text only on that parenthesis, an operator symbol only
      on an operator. */
  lemma GenreParTexte(e: Entree)
    requires BienFormee(e) && ValeurLue(e)
    ensures e.caractere == "(" <==> e.typeEntree == ParentheseGauche
    ensures e.caractere == ")" <==> e.typeEntree == ParentheseDroite
    ensures e.caractere in ["+", "-", "*", "/", "^"] <==> e.typeEntree == Operateur
  {
    if e.typeEntree == Nombre && |e.caractere| == 1 && e.caractere[0] != '-' {
      assert SansSigne(e.caractere)[0] == e.caractere[0];
    } else if e.typeEntree == Fonction && |e.caractere| == 1 {
      assert EstMinuscule(e.caractere[0]);
    }
  }

  /** What one turn of the scan reads: at most one token, and the index
      where the scan resumes. */
  datatype Lecture = Lecture(entree: Option<Entree>, suivant: nat)

  /** One turn of the scan at `index`, `entrees` being the tokens read so
      far. Whitespace yields no token; every other accepted character
      yields exactly one well-formed token; the scan always advances. */
  function LireEntree(expr: string, index: nat, entrees: seq<Entree>): (r: Result<Lecture>)
    requires index < |expr|
    ensures r.Ok? ==> index < r.value.suivant <= |expr|
    ensures r.Ok? ==> (r.value.entree.None? <==> EstEspace(expr[index]))
    ensures r.Ok? && r.value.entree.Some? ==> BienFormee(r.value.entree.value)
    ensures r.Err? ==> r.erreur.NombreNegatifMalForme? || r.erreur.NombreMalForme? || r.erreur.CaractereInvalide?
  {
    var courant := expr[index];
    if EstEspace(courant) then
      Ok(Lecture(None, index + 1))
    else if courant == '(' then
      Ok(Lecture(Some(Entree(ParentheseGauche, "(")), index + 1))
    else if courant == ')' then
      Ok(Lecture(Some(Entree(ParentheseDroite, ")")), index + 1))
    else if courant in OperateursSupportes then
      if EstUnMoinsUnaire(courant, entrees) then
        LireNegatif(expr, index)
      else
        assert [courant] in ["+", "-", "*", "/", "^"];
        Ok(Lecture(Some(Entree(Operateur, [courant])), index + 1))
    else if EstChiffre(courant) || courant == '.' then
      LirePositif(expr, index)
    else if EstLettre(courant) then
      var fin := FinIdentifiant(expr, index);
      Ok(Lecture(Some(Entree(Fonction, EnMinuscules(expr[index..fin]))), fin))
    else
      Err(CaractereInvalide(courant))
  }

  /** A run of digits and points is all points exactly when it holds no
      digit. */
  lemma RunSansChiffre(s: string, i: nat, fin: nat)
    requires i <= fin <= |s| && forall k | i <= k < fin :: EstChiffre(s[k]) || s[k] == '.'
    ensures (forall k | 0 <= k < |s[i..fin]| :: s[i..fin][k] == '.') <==> forall k | i <= k < fin :: !EstChiffre(s[k])
  {
    forall k | i <= k < fin ensures s[i..fin][k - i] == s[k] { }
  }

  /** The token of a sign followed by a run that holds a digit. */
  lemma NombreSigne(span: string, e: Entree)
    requires ChiffresEtUnPoint(span) && ValeurDecimale(span).Some?
    requires e == Entree(Nombre, "-" + span, Some(-ValeurDecimale(span).value))
    ensures Signe(e) && ValeurLue(e)
  {
    assert SansSigne(e.caractere) == span by {
      assert e.caractere[1..] == span;
    }
  }

  /** A sign at `index`: skips the whitespace after it and reads one number,
      whose negation becomes a single number token. It fails exactly when
      the run after the whitespace holds no digit. */
  function LireNegatif(expr: string, index: nat): (r: Result<Lecture>)
    requires index < |expr|
    ensures var debut := SauterEspaces(expr, index + 1);
            var fin := FinNombre(expr, debut, false);
            && (r.Err? <==> forall k | debut <= k < fin :: !EstChiffre(expr[k]))
            && (r.Ok? <==> ValeurDecimale(expr[debut..fin]).Some?)
            && (r.Ok? ==> && r.value.suivant == fin
                          && ValeurDecimale(expr[debut..fin]).Some?
                          && r.value.entree == Some(Entree(Nombre, "-" + expr[debut..fin],
                                                           Some(-ValeurDecimale(expr[debut..fin]).value))))
    ensures r.Ok? ==> index < r.value.suivant <= |expr| && r.value.entree.Some?
    ensures r.Ok? ==> r.value.entree.value.typeEntree == Nombre && r.value.entree.value.valeur.Some?
    ensures r.Ok? ==> r.value.entree.value.valeur.value <= 0.0
    ensures r.Err? ==> r.erreur == NombreNegatifMalForme
  {
    var debut := SauterEspaces(expr, index + 1);
    var fin := FinNombre(expr, debut, false);
    RunSansChiffre(expr, debut, fin);
    match ValeurDecimale(expr[debut..fin])
    case None => Err(NombreNegatifMalForme)
    case Some(v) => Ok(Lecture(Some(Entree(Nombre, "-" + expr[debut..fin], Some(-v))), fin))
  }

  /** The number a sign reads is a signed token carrying the negated
      value of its digits. */
  lemma LireNegatifLu(expr: string, index: nat)
    requires index < |expr| && LireNegatif(expr, index).Ok?
    ensures var e := LireNegatif(expr, index).value.entree.value;
            Signe(e) && ValeurLue(e)
  {
    var debut := SauterEspaces(expr, index + 1);
    var span := expr[debut..FinNombre(expr, debut, false)];
    var e := LireNegatif(expr, index).value.entree.value;
    assert ValeurDecimale(span).Some?;
    assert e == Entree(Nombre, "-" + span, Some(-ValeurDecimale(span).value));
    NombreSigne(span, e);
  }

  /** A digit or a point at `index`: reads one number. It fails exactly
      when the run holds no digit, a lone point. */
  function LirePositif(expr: string, index: nat): (r: Result<Lecture>)
    requires index < |expr| && (EstChiffre(expr[index]) || expr[index] == '.')
    ensures var fin := FinNombre(expr, index, false);
            && (r.Err? <==> forall k | index <= k < fin :: !EstChiffre(expr[k]))
            && (r.Ok? <==> ValeurDecimale(expr[index..fin]).Some?)
            && (r.Ok? ==> && r.value.suivant == fin
                          && r.value.entree == Some(Entree(Nombre, expr[index..fin], ValeurDecimale(expr[index..fin]))))
    ensures r.Ok? ==> index < r.value.suivant <= |expr| && r.value.entree.Some?
    ensures r.Ok? ==> r.value.entree.value.typeEntree == Nombre && r.value.entree.value.valeur.Some?
    ensures r.Ok? ==> r.value.entree.value.valeur.value >= 0.0
    ensures r.Ok? ==> !Signe(r.value.entree.value) && ValeurLue(r.value.entree.value)
    ensures r.Err? ==> r.erreur == NombreMalForme
  {
    var fin := FinNombre(expr, index, false);
    RunSansChiffre(expr, index, fin);
    match ValeurDecimale(expr[index..fin])
    case None => Err(NombreMalForme)
    case Some(v) => Ok(Lecture(Some(Entree(Nombre, expr[index..fin], Some(v))), fin))
  }

  /** Appends the token of a reading, if any. */
  function Ajouter(entrees: seq<Entree>, entree: Option<Entree>): (r: seq<Entree>)
    ensures |entrees| <= |r| && r[..|entrees|] == entrees
    ensures ToutesBienFormees(entrees) && (entree.Some? ==> BienFormee(entree.value)) ==> ToutesBienFormees(r)
    ensures ToutesLues(entrees) && (entree.Some? ==> ValeurLue(entree.value)) ==> ToutesLues(r)
  {
    match entree
    case None => entrees
    case Some(e) => entrees + [e]
  }

  /** The tokens of `expr` from position `index` on, appended to the
      tokens `entrees` already read. A successful scan only appends, and
      every token it appends is well formed and, for a number, carries
      the value of its text. */
  function Analyser(expr: string, index: nat, entrees: seq<Entree>): (r: Result<seq<Entree>>)
    requires index <= |expr|
    ensures r.Ok? ==> |entrees| <= |r.value| && r.value[..|entrees|] == entrees
    ensures r.Ok? && ToutesBienFormees(entrees) ==> ToutesBienFormees(r.value)
    ensures r.Err? ==> r.erreur.NombreNegatifMalForme? || r.erreur.NombreMalForme? || r.erreur.CaractereInvalide?
    decreases |expr| - index
  {
    if index == |expr| then Ok(entrees)
    else
      match LireEntree(expr, index, entrees)
      case Err(e) => Err(e)
      case Ok(lecture) =>
        var suite := Ajouter(entrees, lecture.entree);
        var r := Analyser(expr, lecture.suivant, suite);
        assert r.Ok? ==> r.value[..|entrees|] == suite[..|entrees|];
        r
  }

  /** Every number a turn reads carries the value of its digits, negated
      after a sign. */
  lemma LireEntreeLue(expr: string, index: nat, entrees: seq<Entree>)
    requires index < |expr| && LireEntree(expr, index, entrees).Ok?
    requires LireEntree(expr, index, entrees).value.entree.Some?
    ensures ValeurLue(LireEntree(expr, index, entrees).value.entree.value)
  {
    LireEntreeAiguillage(expr, index, entrees);
    if EstUnMoinsUnaire(expr[index], entrees) {
      LireNegatifLu(expr, index);
    }
  }

  lemma {:induction false} AnalyserLues(expr: string, index: nat, entrees: seq<Entree>)
    requires index <= |expr| && ToutesLues(entrees)
    requires Analyser(expr, index, entrees).Ok?
    ensures ToutesLues(Analyser(expr, index, entrees).value)
    decreases |expr| - index
  {
    if index < |expr| {
      Pas(expr, index, entrees);
      var l := LireEntree(expr, index, entrees).value;
      if l.entree.Some? {
        LireEntreeLue(expr, index, entrees);
      }
      AnalyserLues(expr, l.suivant, Ajouter(entrees, l.entree));
    }
  }

  /** One turn of the scan: the reading at `index` decides the rest. */
  lemma Pas(expr: string, index: nat, entrees: seq<Entree>)
    requires index < |expr|
    ensures LireEntree(expr, index, entrees).Err? ==>
              Analyser(expr, index, entrees) == Err(LireEntree(expr, index, entrees).erreur)
    ensures LireEntree(expr, index, entrees).Ok? ==>
              var l := LireEntree(expr, index, entrees).value;
              Analyser(expr, index, entrees) == Analyser(expr, l.suivant, Ajouter(entrees, l.entree))
  {
  }

  /** What each character starts: a parenthesis or an operator symbol
      becomes its own token of that kind, a sign reads a negative number,
      a digit or a point a number, and a letter a function name in lower
      case. */
  lemma LireEntreeAiguillage(expr: string, index: nat, entrees: seq<Entree>)
    requires index < |expr|
    ensures var c := expr[index];
            var r := LireEntree(expr, index, entrees);
            && (c == '(' ==> r == Ok(Lecture(Some(Entree(ParentheseGauche, "(")), index + 1)))
            && (c == ')' ==> r == Ok(Lecture(Some(Entree(ParentheseDroite, ")")), index + 1)))
            && (c in "+*/^" ==> r == Ok(Lecture(Some(Entree(Operateur, [c])), index + 1)))
            && (EstUnMoinsUnaire(c, entrees) ==> r == LireNegatif(expr, index))
            && (EstChiffre(c) || c == '.' ==> r == LirePositif(expr, index))
            && (EstLettre(c) ==> var fin := FinIdentifiant(expr, index);
                                 r == Ok(Lecture(Some(Entree(Fonction, EnMinuscules(expr[index..fin]))), fin)))
  {
  }

  /** The tokens of an expression, read after trimming it. */
  function EntreesDe(expression: string): Result<seq<Entree>> {
    Analyser(Trim(expression), 0, [])
  }

  // ----- the methods of Equation.cs

  /** Reads a number from `index`: returns the end of the run and its
      parse. */
  method LireNombre(s: string, index: nat) returns (valeur: Option<real>, nouvelIndex: nat)
    requires index <= |s|
    ensures nouvelIndex == FinNombre(s, index, false)
    ensures valeur == ValeurDecimale(s[index..nouvelIndex])
  {
    var debut := index;
    var i := index;
    var pointVu := false;
    while i < |s|
      invariant debut <= i <= |s|
      invariant FinNombre(s, i, pointVu) == FinNombre(s, debut, false)
      decreases |s| - i
    {
      var c := s[i];
      if EstChiffre(c) {
        i := i + 1;
      } else if c == '.' && !pointVu {
        pointVu := true;
        i := i + 1;
      } else {
        break;
      }
    }
    nouvelIndex := i;
    if i == debut {
      return None, i;
    }
    valeur := ValeurDecimale(s[debut..i]);
  }

  /** Reads a function name from `index`: returns it in lower case and the
      end of the run of letters. */
  method LireIdentifiant(s: string, index: nat) returns (identifiant: string, nouvelIndex: nat)
    requires index <= |s|
    ensures nouvelIndex == FinIdentifiant(s, index)
    ensures identifiant == EnMinuscules(s[index..nouvelIndex])
  {
    var i := index;
    while i < |s| && EstLettre(s[i])
      invariant index <= i <= |s|
      invariant FinIdentifiant(s, i) == FinIdentifiant(s, index)
      decreases |s| - i
    {
      i := i + 1;
    }
    identifiant := EnMinuscules(s[index..i]);
    nouvelIndex := i;
  }

  /** The body of the scanning loop of `ExtraireEntrees` at `index`:
      what it appends and where the scan resumes, or the error it
      throws. */
  method TraiterCaractere(expr: string, index: nat, entrees: seq<Entree>) returns (r: Result<Lecture>)
    requires index < |expr|
    ensures r == LireEntree(expr, index, entrees)
  {
    LireEntreeAiguillage(expr, index, entrees);
    var courant := expr[index];
    if EstEspace(courant) {
      return Ok(Lecture(None, index + 1));
    } else if courant == '(' {
      return Ok(Lecture(Some(Entree(ParentheseGauche, "(")), index + 1));
    } else if courant == ')' {
      return Ok(Lecture(Some(Entree(ParentheseDroite, ")")), index + 1));
    } else if courant in OperateursSupportes {
      if EstUnMoinsUnaire(courant, entrees) {
        var i := index + 1;
        while i < |expr| && EstEspace(expr[i])
          invariant index < i <= |expr|
          invariant SauterEspaces(expr, i) == SauterEspaces(expr, index + 1)
          decreases |expr| - i
        {
          i := i + 1;
        }
        var nombreNegatif, nouvelIndex := LireNombre(expr, i);
        ghost var lu := LireNegatif(expr, index);
        if nombreNegatif.None? {
          assert lu.Err?;
          return Err(NombreNegatifMalForme);
        }
        var valeur := -nombreNegatif.value;
        assert lu.Ok? && lu.value.suivant == nouvelIndex;
        return Ok(Lecture(Some(Entree(Nombre, "-" + expr[i..nouvelIndex], Some(valeur))), nouvelIndex));
      } else {
        return Ok(Lecture(Some(Entree(Operateur, [courant])), index + 1));
      }
    } else if EstChiffre(courant) || courant == '.' {
      var nombre, nouvelIndex := LireNombre(expr, index);
      if nombre.None? {
        return Err(NombreMalForme);
      }
      return Ok(Lecture(Some(Entree(Nombre, expr[index..nouvelIndex], nombre)), nouvelIndex));
    } else if EstLettre(courant) {
      var identifiant, nouvelIndex := LireIdentifiant(expr, index);
      return Ok(Lecture(Some(Entree(Fonction, identifiant)), nouvelIndex));
    } else {
      return Err(CaractereInvalide(courant));
    }
  }

  /** `ExtraireEntrees`: the tokens of the expression, or the first
      tokenizing error. */
  method ExtraireEntrees(expression: string) returns (r: Result<seq<Entree>>)
    ensures r == EntreesDe(expression)
  {
    var entrees: seq<Entree> := [];
    var expr := Trim(expression);
    var index := 0;
    ghost var cible := Analyser(expr, 0, []);
    while index < |expr|
      invariant index <= |expr|
      invariant Analyser(expr, index, entrees) == cible
      decreases |expr| - index
    {
      var lecture := TraiterCaractere(expr, index, entrees);
      Pas(expr, index, entrees);
      if lecture.Err? {
        return Err(lecture.erreur);
      }
      if lecture.value.entree.Some? {
        entrees := entrees + [lecture.value.entree.value];
      }
      index := lecture.value.suivant;
    }
    return Ok(entrees);
  }

  // ----- properties of the scan

  /** The characters the scan accepts: whitespace, parentheses, the five
      operators, digits, the decimal point and letters. */
  predicate Autorise(c: char) {
    EstEspace(c) || c == '(' || c == ')' || c in OperateursSupportes || EstChiffre(c) || c == '.' || EstLettre(c)
  }

  /** One turn consumes only accepted characters, and fails on a rejected
      character only when it is the one at `index`. */
  lemma LireEntreeAutorise(expr: string, index: nat, entrees: seq<Entree>)
    requires index < |expr|
    ensures LireEntree(expr, index, entrees).Ok? ==>
              forall k | index <= k < LireEntree(expr, index, entrees).value.suivant :: Autorise(expr[k])
    ensures LireEntree(expr, index, entrees) == Err(CaractereInvalide(expr[index])) <==> !Autorise(expr[index])
    ensures LireEntree(expr, index, entrees).Err? && LireEntree(expr, index, entrees).erreur.CaractereInvalide? ==>
              LireEntree(expr, index, entrees).erreur.c == expr[index]
  {
    var courant := expr[index];
    if courant in OperateursSupportes && EstUnMoinsUnaire(courant, entrees) {
      var debut := SauterEspaces(expr, index + 1);
      var fin := FinNombre(expr, debut, false);
      assert forall k | index < k < debut :: EstEspace(expr[k]);
    } else if !EstEspace(courant) && courant != '(' && courant != ')' && courant !in OperateursSupportes
              && !(EstChiffre(courant) || courant == '.') && EstLettre(courant) {
      var fin := FinIdentifiant(expr, index);
      assert forall k | index <= k < fin :: EstLettre(expr[k]);
    }
  }

  /** A successful scan met only accepted characters; a scan that meets
      a rejected character before any malformed number fails on it. */
  lemma {:induction false} AnalyserAutorise(expr: string, index: nat, entrees: seq<Entree>)
    requires index <= |expr|
    ensures Analyser(expr, index, entrees).Ok? ==> forall k | index <= k < |expr| :: Autorise(expr[k])
    ensures Analyser(expr, index, entrees).Err? && Analyser(expr, index, entrees).erreur.CaractereInvalide? ==>
              var c := Analyser(expr, index, entrees).erreur.c;
              !Autorise(c) && c in expr[index..]
    ensures (forall k | index <= k < |expr| :: Autorise(expr[k])) ==>
              !(Analyser(expr, index, entrees).Err? && Analyser(expr, index, entrees).erreur.CaractereInvalide?)
    decreases |expr| - index
  {
    if index < |expr| {
      LireEntreeAutorise(expr, index, entrees);
      match LireEntree(expr, index, entrees)
      case Err(e) =>
        assert expr[index] == expr[index..][0];
      case Ok(l) =>
        AnalyserAutorise(expr, l.suivant, Ajouter(entrees, l.entree));
        var c := expr[index];
        assert forall x | x in expr[l.suivant..] :: x in expr[index..] by {
          forall x | x in expr[l.suivant..] ensures x in expr[index..] {
            var k :| 0 <= k < |expr[l.suivant..]| && expr[l.suivant..][k] == x;
            assert expr[index..][k + l.suivant - index] == x;
          }
        }
    }
  }

  /** Number of occurrences of `c` in `s[i..j]`. */
  function Occurrences(s: string, c: char, i: nat, j: nat): (n: nat)
    requires i <= j <= |s|
    ensures n <= j - i
    decreases j - i
  {
    if i == j then 0 else Occurrences(s, c, i, j - 1) + (if s[j - 1] == c then 1 else 0)
  }

  lemma {:induction false} OccurrencesConcat(s: string, c: char, i: nat, j: nat, k: nat)
    requires i <= j <= k <= |s|
    ensures Occurrences(s, c, i, k) == Occurrences(s, c, i, j) + Occurrences(s, c, j, k)
    decreases k - j
  {
    if j < k { OccurrencesConcat(s, c, i, j, k - 1); }
  }

  lemma {:induction false} OccurrencesAucune(s: string, c: char, i: nat, j: nat)
    requires i <= j <= |s|
    requires forall k | i <= k < j :: s[k] != c
    ensures Occurrences(s, c, i, j) == 0
    decreases j - i
  {
    if i < j { OccurrencesAucune(s, c, i, j - 1); }
  }

  /** Number of tokens whose text is the single character `c`. */
  function Symboles(ts: seq<Entree>, c: char): (n: nat)
    ensures n <= |ts|
  {
    if ts == [] then 0
    else Symboles(ts[..|ts| - 1], c) + (if ts[|ts| - 1].caractere == [c] then 1 else 0)
  }

  lemma SymbolesAjout(ts: seq<Entree>, e: Entree, c: char)
    ensures Symboles(ts + [e], c) == Symboles(ts, c) + (if e.caractere == [c] then 1 else 0)
  {
    assert (ts + [e])[..|ts|] == ts;
  }

  /** The symbols that the scan copies one by one into tokens of their
      own: every other character either yields no token or ends up inside
      a number or a function name. */
  predicate SymboleSimple(c: char) {
    c == '(' || c == ')' || c == '+' || c == '*' || c == '/' || c == '^'
  }

  /** No character of `s[i..j]` is a simple symbol. */
  predicate SansSymbole(s: string, i: nat, j: nat)
    requires i <= j <= |s|
  {
    forall k | i <= k < j :: !SymboleSimple(s[k])
  }

  /** A sign followed by a number: neither the span nor the text holds
      a simple symbol. */
  lemma LireNegatifForme(expr: string, index: nat)
    requires index < |expr| && expr[index] == '-' && LireNegatif(expr, index).Ok?
    ensures var l := LireNegatif(expr, index).value;
            && SansSymbole(expr, index, l.suivant)
            && SansSymbole(l.entree.value.caractere, 0, |l.entree.value.caractere|)
  {
    var debut := SauterEspaces(expr, index + 1);
    var fin := FinNombre(expr, debut, false);
    var texte := "-" + expr[debut..fin];
    var l := LireNegatif(expr, index).value;
    assert l.suivant == fin && l.entree.value.caractere == texte;
    assert forall k | 1 <= k < |texte| :: texte[k] == expr[debut + k - 1];
  }

  lemma LirePositifForme(expr: string, index: nat)
    requires index < |expr| && (EstChiffre(expr[index]) || expr[index] == '.') && LirePositif(expr, index).Ok?
    ensures var l := LirePositif(expr, index).value;
            && SansSymbole(expr, index, l.suivant)
            && SansSymbole(l.entree.value.caractere, 0, |l.entree.value.caractere|)
  {
  }

  lemma IdentifiantForme(expr: string, index: nat)
    requires index < |expr|
    ensures var fin := FinIdentifiant(expr, index);
            && SansSymbole(expr, index, fin)
            && var nom := EnMinuscules(expr[index..fin]); SansSymbole(nom, 0, |nom|)
  {
    var fin := FinIdentifiant(expr, index);
    var nom := EnMinuscules(expr[index..fin]);
    forall k | 0 <= k < |nom| ensures EstMinuscule(nom[k]) {
      assert EstLettre(expr[index..fin][k]);
    }
  }

  /** What one turn consumes: a single character that is copied as the
      token text (or skipped, when it is whitespace), or a span free of
      simple symbols that yields a token whose text is free of them too. */
  lemma LireEntreeForme(expr: string, index: nat, entrees: seq<Entree>)
    requires index < |expr| && LireEntree(expr, index, entrees).Ok?
    ensures var l := LireEntree(expr, index, entrees).value;
            || (&& l.suivant == index + 1
                && (l.entree.None? ==> EstEspace(expr[index]))
                && (l.entree.Some? ==> l.entree.value.caractere == [expr[index]]))
            || (&& l.entree.Some?
                && SansSymbole(expr, index, l.suivant)
                && SansSymbole(l.entree.value.caractere, 0, |l.entree.value.caractere|))
  {
    var courant := expr[index];
    if EstEspace(courant) || courant == '(' || courant == ')' {
    } else if courant in OperateursSupportes {
      if EstUnMoinsUnaire(courant, entrees) {
        LireNegatifForme(expr, index);
      }
    } else if EstChiffre(courant) || courant == '.' {
      LirePositifForme(expr, index);
    } else if EstLettre(courant) {
      IdentifiantForme(expr, index);
    }
  }


  /** One turn yields a token whose text is `c` exactly when the
      consumed span is the character `c`. */
  lemma LireEntreeSymboles(expr: string, index: nat, entrees: seq<Entree>, c: char)
    requires index < |expr| && SymboleSimple(c)
    requires LireEntree(expr, index, entrees).Ok?
    ensures var l := LireEntree(expr, index, entrees).value;
            Symboles(Ajouter(entrees, l.entree), c) == Symboles(entrees, c) + Occurrences(expr, c, index, l.suivant)
  {
    var l := LireEntree(expr, index, entrees).value;
    LireEntreeForme(expr, index, entrees);
    if l.entree.Some? {
      SymbolesAjout(entrees, l.entree.value, c);
    }
    if l.suivant == index + 1 && (l.entree.None? ==> EstEspace(expr[index]))
       && (l.entree.Some? ==> l.entree.value.caractere == [expr[index]]) {
      assert Occurrences(expr, c, index, index + 1) == if expr[index] == c then 1 else 0;
    } else {
      var texte := l.entree.value.caractere;
      assert texte != [c] by {
        if |texte| == 1 { assert !SymboleSimple(texte[0]); }
      }
      OccurrencesAucune(expr, c, index, l.suivant);
    }
  }

  /** Every parenthesis and every operator other than `-` of the scanned
      text becomes exactly one token. */
  lemma {:induction false} AnalyserSymboles(expr: string, index: nat, entrees: seq<Entree>, c: char)
    requires index <= |expr| && SymboleSimple(c)
    requires Analyser(expr, index, entrees).Ok?
    ensures Symboles(Analyser(expr, index, entrees).value, c) == Symboles(entrees, c) + Occurrences(expr, c, index, |expr|)
    decreases |expr| - index
  {
    if index < |expr| {
      Pas(expr, index, entrees);
      var l := LireEntree(expr, index, entrees).value;
      LireEntreeSymboles(expr, index, entrees, c);
      AnalyserSymboles(expr, l.suivant, Ajouter(entrees, l.entree), c);
      OccurrencesConcat(expr, c, index, l.suivant, |expr|);
    }
  }

  /** Every `-` kept as an operator follows an operand: a number or a
      closing parenthesis. */
  predicate MoinsBinairesApresOperande(ts: seq<Entree>) {
    forall k | 0 <= k < |ts| && ts[k] == Entree(Operateur, "-") ::
      k > 0 && (ts[k - 1].typeEntree == Nombre || ts[k - 1].typeEntree == ParentheseDroite)
  }

  /** A `-` becomes an operator token only where it is not a sign. */
  lemma LireEntreeMoins(expr: string, index: nat, entrees: seq<Entree>)
    requires index < |expr| && LireEntree(expr, index, entrees).Ok?
    requires LireEntree(expr, index, entrees).value.entree == Some(Entree(Operateur, "-"))
    ensures expr[index] == '-' && !EstUnMoinsUnaire('-', entrees)
  {
    var courant := expr[index];
    if !EstEspace(courant) && courant != '(' && courant != ')' && courant in OperateursSupportes
       && !EstUnMoinsUnaire(courant, entrees) {
      assert courant == [courant][0];
    }
  }

  /** The converse: a `-` that is not a sign is always read as the
      operator `-`. */
  lemma LireEntreeMoinsBinaire(expr: string, index: nat, entrees: seq<Entree>)
    requires index < |expr| && expr[index] == '-' && !EstUnMoinsUnaire('-', entrees)
    ensures LireEntree(expr, index, entrees) == Ok(Lecture(Some(Entree(Operateur, "-")), index + 1))
  {
  }

  /** Every signed number stands where a `-` is a sign: first, or after an
      operator, an opening parenthesis or a function name. */
  predicate SignesApresSigne(ts: seq<Entree>) {
    forall k | 0 <= k < |ts| && Signe(ts[k]) :: EstUnMoinsUnaire('-', ts[..k])
  }

  /** A turn yields a signed number only from a `-` in a sign position. */
  lemma LireEntreeSigne(expr: string, index: nat, entrees: seq<Entree>)
    requires index < |expr| && LireEntree(expr, index, entrees).Ok?
    requires var l := LireEntree(expr, index, entrees).value; l.entree.Some? && Signe(l.entree.value)
    ensures expr[index] == '-' && EstUnMoinsUnaire('-', entrees)
  {
  }

  /** Appending a token keeps every signed number in a sign position, as
      long as a new signed number is read in one. */
  lemma AjouterSignes(entrees: seq<Entree>, entree: Option<Entree>)
    requires SignesApresSigne(entrees)
    requires entree.Some? && Signe(entree.value) ==> EstUnMoinsUnaire('-', entrees)
    ensures SignesApresSigne(Ajouter(entrees, entree))
  {
    if entree.Some? {
      var r := entrees + [entree.value];
      assert r[..|entrees|] == entrees;
      forall k | 0 <= k < |entrees| ensures r[..k] == entrees[..k] && r[k] == entrees[k] {
      }
    }
  }

  lemma {:induction false} AnalyserSignes(expr: string, index: nat, entrees: seq<Entree>)
    requires index <= |expr| && SignesApresSigne(entrees)
    requires Analyser(expr, index, entrees).Ok?
    ensures SignesApresSigne(Analyser(expr, index, entrees).value)
    decreases |expr| - index
  {
    if index < |expr| {
      Pas(expr, index, entrees);
      var l := LireEntree(expr, index, entrees).value;
      var suite := Ajouter(entrees, l.entree);
      assert SignesApresSigne(suite) by {
        if l.entree.Some? && Signe(l.entree.value) {
          LireEntreeSigne(expr, index, entrees);
        }
        AjouterSignes(entrees, l.entree);
      }
      AnalyserSignes(expr, l.suivant, suite);
    }
  }

  lemma {:induction false} AnalyserMoinsBinaires(expr: string, index: nat, entrees: seq<Entree>)
    requires index <= |expr| && MoinsBinairesApresOperande(entrees)
    requires Analyser(expr, index, entrees).Ok?
    ensures MoinsBinairesApresOperande(Analyser(expr, index, entrees).value)
    decreases |expr| - index
  {
    if index < |expr| {
      Pas(expr, index, entrees);
      var l := LireEntree(expr, index, entrees).value;
      var suite := Ajouter(entrees, l.entree);
      assert MoinsBinairesApresOperande(suite) by {
        if l.entree == Some(Entree(Operateur, "-")) {
          LireEntreeMoins(expr, index, entrees);
        }
        AjouterMoinsBinaires(entrees, l.entree);
      }
      AnalyserMoinsBinaires(expr, l.suivant, suite);
    }
  }

  /** Appending a token keeps every `-` operator after an operand, as
      long as a new `-` operator is not a sign. */
  lemma AjouterMoinsBinaires(entrees: seq<Entree>, entree: Option<Entree>)
    requires MoinsBinairesApresOperande(entrees)
    requires entree == Some(Entree(Operateur, "-")) ==> !EstUnMoinsUnaire('-', entrees)
    ensures MoinsBinairesApresOperande(Ajouter(entrees, entree))
  {
    if entree.Some? {
      var r := entrees + [entree.value];
      assert forall k | 0 <= k < |entrees| :: r[k] == entrees[k];
    }
  }

  /** The tokens of an expression: well formed, every number carrying
      the value of its digits (negated after a sign), made of accepted
      characters only, one token per parenthesis and per operator other
      than `-`, every `-` operator placed after an operand, and every
      signed number placed where a `-` is a sign. */
  lemma EntreesDeProprietes(expression: string, c: char)
    requires EntreesDe(expression).Ok?
    ensures var expr := Trim(expression);
            var ts := EntreesDe(expression).value;
            && ToutesBienFormees(ts)
            && ToutesLues(ts)
            && (forall k | 0 <= k < |expr| :: Autorise(expr[k]))
            && (SymboleSimple(c) ==> Symboles(ts, c) == Occurrences(expr, c, 0, |expr|))
            && MoinsBinairesApresOperande(ts)
            && SignesApresSigne(ts)
  {
    var expr := Trim(expression);
    AnalyserAutorise(expr, 0, []);
    if SymboleSimple(c) { AnalyserSymboles(expr, 0, [], c); }
    AnalyserMoinsBinaires(expr, 0, []);
    AnalyserSignes(expr, 0, []);
    AnalyserLues(expr, 0, []);
  }
}
