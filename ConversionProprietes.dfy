/** What the shunting-yard conversion guarantees about its output: it
    succeeds exactly on balanced parentheses, it outputs every
    non-parenthesis token once and no parenthesis, and it keeps the
    numbers in their input order. */
module ProprietesConversion {
  import opened Resultats
  import opened Entrees
  import opened Strategies
  import opened Conversion

  /** The groups of token kinds the properties count: opening and
      closing parentheses, both, the kinds that reach the output, and
      numbers. */
  datatype Classe = Gauches | Droites | Parentheses | Valeurs | Nombres

  predicate Dans(types: Classe, t: TypeEntree) {
    match types
    case Gauches => t == ParentheseGauche
    case Droites => t == ParentheseDroite
    case Parentheses => t == ParentheseGauche || t == ParentheseDroite
    case Valeurs => t == Nombre || t == Fonction || t == Operateur
    case Nombres => t == Nombre
  }

  /** The tokens of `s` whose kind is in the group `types`, in order. */
  function Parmi(s: seq<Entree>, types: Classe): seq<Entree>
    decreases |s|
  {
    if s == [] then []
    else Parmi(s[..|s| - 1], types) + (if Dans(types, s[|s| - 1].typeEntree) then [s[|s| - 1]] else [])
  }

  lemma {:induction false} ParmiConcat(a: seq<Entree>, b: seq<Entree>, types: Classe)
    ensures Parmi(a + b, types) == Parmi(a, types) + Parmi(b, types)
    decreases |b|
  {
    if b != [] {
      var n := |b| - 1;
      assert (a + b)[..|a + b| - 1] == a + b[..n];
      assert (a + b)[|a + b| - 1] == b[n];
      ParmiConcat(a, b[..n], types);
      var x := if Dans(types, b[n].typeEntree) then [b[n]] else [];
      assert Parmi(a + b, types) == Parmi(a + b[..n], types) + x;
      assert Parmi(b, types) == Parmi(b[..n], types) + x;
      assert Parmi(a, types) + Parmi(b[..n], types) + x == Parmi(a, types) + (Parmi(b[..n], types) + x);
    } else {
      assert a + b == a;
    }
  }

  /** Nothing is kept exactly when no kind is among `types`. */
  lemma {:induction false} ParmiVideSsi(s: seq<Entree>, types: Classe)
    ensures Parmi(s, types) == [] <==> forall k | 0 <= k < |s| :: !Dans(types, s[k].typeEntree)
    decreases |s|
  {
    if s != [] {
      var n := |s| - 1;
      ParmiVideSsi(s[..n], types);
      assert forall k | 0 <= k < n :: s[..n][k] == s[k];
    }
  }

  /** Nothing is kept when no kind is in the group. */
  lemma {:induction false} ParmiVide(s: seq<Entree>, types: Classe)
    requires forall k | 0 <= k < |s| :: !Dans(types, s[k].typeEntree)
    ensures Parmi(s, types) == []
    decreases |s|
  {
    if s != [] {
      var n := |s| - 1;
      assert forall k | 0 <= k < n :: s[..n][k] == s[k];
      ParmiVide(s[..n], types);
    }
  }

  /** Everything is kept when every kind is among `types`. */
  lemma {:induction false} ParmiTout(s: seq<Entree>, types: Classe)
    requires forall k | 0 <= k < |s| :: Dans(types, s[k].typeEntree)
    ensures Parmi(s, types) == s
    decreases |s|
  {
    if s != [] {
      var n := |s| - 1;
      var debut := s[..n];
      PrefixeDans(s, types, n);
      ParmiTout(debut, types);
      assert Parmi(s, types) == debut + [s[n]];
      Dernier(s);
    }
  }

  /** A prefix of a list whose kinds are all in `types` has that
      property too. */
  lemma PrefixeDans(s: seq<Entree>, types: Classe, n: nat)
    requires n <= |s| && forall k | 0 <= k < |s| :: Dans(types, s[k].typeEntree)
    ensures forall k | 0 <= k < n :: Dans(types, s[..n][k].typeEntree)
  {
  }

  /** Reversing keeps the same tokens. */
  lemma {:induction false} ParmiInverse(s: seq<Entree>, types: Classe)
    ensures multiset(Parmi(Inverse(s), types)) == multiset(Parmi(s, types))
    decreases |s|
  {
    if s != [] {
      var n := |s| - 1;
      ParmiInverse(s[..n], types);
      assert Inverse(s) == [s[n]] + Inverse(s[..n]);
      ParmiConcat([s[n]], Inverse(s[..n]), types);
      assert [s[n]][..0] == [];
    }
  }

  /** Every operator among the tokens has a strategy. */
  predicate Connus(operations: map<string, Strategie>, ts: seq<Entree>) {
    forall k | 0 <= k < |ts| :: ts[k].typeEntree == Operateur ==> ts[k].caractere in operations
  }

  /** The stack holds only functions, known operators and opening
      parentheses. */
  predicate PileBienFormee(operations: map<string, Strategie>, pile: seq<Entree>) {
    && Connus(operations, pile)
    && forall k | 0 <= k < |pile| :: pile[k].typeEntree != Nombre && pile[k].typeEntree != ParentheseDroite
  }

  /** Opening minus closing parentheses among the first `i` tokens. */
  function Profondeur(ts: seq<Entree>, i: nat): int
    requires i <= |ts|
  {
    |Parmi(ts[..i], Gauches)| - |Parmi(ts[..i], Droites)|
  }

  /** The parentheses match: no prefix closes more than it opens, and the
      whole list closes all it opens. */
  predicate Equilibre(ts: seq<Entree>) {
    && (forall i | 0 <= i <= |ts| :: Profondeur(ts, i) >= 0)
    && Profondeur(ts, |ts|) == 0
  }

  /** The shape of the state after the first `i` tokens: the stack is
      well formed and holds one opening parenthesis per unclosed one, the
      output holds no parenthesis, and the numbers read are in the
      output, in order. */
  predicate Structure(operations: map<string, Strategie>, ts: seq<Entree>, i: nat, etat: Etat)
    requires i <= |ts|
  {
    && PileBienFormee(operations, etat.pile)
    && |Parmi(etat.pile, Gauches)| == Profondeur(ts, i)
    && Parmi(etat.sortie, Parentheses) == []
    && Parmi(etat.sortie, Nombres) == Parmi(ts[..i], Nombres)
  }

  /** The content of the state after the first `i` tokens: output and
      stack together hold the non-parenthesis tokens read. */
  predicate Contenu(ts: seq<Entree>, i: nat, etat: Etat)
    requires i <= |ts|
  {
    multiset(etat.sortie) + multiset(Parmi(etat.pile, Valeurs)) == multiset(Parmi(ts[..i], Valeurs))
  }

  /** A single token is kept in the groups of its kind only. */
  lemma ParmiSeul(t: Entree)
    ensures Parmi([t], Gauches) == if t.typeEntree == ParentheseGauche then [t] else []
    ensures Parmi([t], Droites) == if t.typeEntree == ParentheseDroite then [t] else []
    ensures Parmi([t], Parentheses) == if EstParenthese(t) then [t] else []
    ensures Parmi([t], Valeurs) == if EstParenthese(t) then [] else [t]
    ensures Parmi([t], Nombres) == if t.typeEntree == Nombre then [t] else []
  {
    assert [t][..0] == [];
  }

  /** One more input token, as a concatenation. */
  lemma ParmiUn(ts: seq<Entree>, i: nat, types: Classe)
    requires i < |ts|
    ensures Parmi(ts[..i + 1], types) == Parmi(ts[..i], types) + Parmi([ts[i]], types)
  {
    assert ts[..i + 1] == ts[..i] + [ts[i]];
    ParmiConcat(ts[..i], [ts[i]], types);
  }

  // ----- a step replaces a top `h` of the stack by `x` and outputs `y`

  /** What such a step on token `t` must do to keep the shape: `x` is a
      well-formed stack piece, the opening parentheses change as `t`
      says, `y` holds no parenthesis, and `y` outputs the number `t` if
      it is one and no other. */
  predicate PiecesForme(operations: map<string, Strategie>, t: Entree, h: seq<Entree>, x: seq<Entree>, y: seq<Entree>) {
    && PileBienFormee(operations, x)
    && |Parmi(x, Gauches)| - |Parmi(h, Gauches)| == |Parmi([t], Gauches)| - |Parmi([t], Droites)|
    && Parmi(y, Parentheses) == []
    && Parmi(y, Nombres) == Parmi([t], Nombres)
  }

  /** What such a step must do to keep the content: no
      non-parenthesis token is lost or made up. */
  predicate PiecesContenu(t: Entree, h: seq<Entree>, x: seq<Entree>, y: seq<Entree>) {
    multiset(y) + multiset(Parmi(x, Valeurs)) == multiset(Parmi(h, Valeurs)) + multiset(Parmi([t], Valeurs))
  }

  lemma DeplacementForme(operations: map<string, Strategie>, ts: seq<Entree>, i: nat, etat: Etat,
                         b: seq<Entree>, h: seq<Entree>, x: seq<Entree>, y: seq<Entree>)
    requires i < |ts|
    requires Structure(operations, ts, i, etat)
    requires etat.pile == b + h
    requires PiecesForme(operations, ts[i], h, x, y)
    ensures Structure(operations, ts, i + 1, Etat(b + x, etat.sortie + y))
  {
    DeplacementPile(operations, b, h, x);
    DeplacementProfondeur(ts, i, b, h, x);
    ParmiConcat(etat.sortie, y, Parentheses);
    ParmiConcat(etat.sortie, y, Nombres);
    ParmiUn(ts, i, Nombres);
  }

  lemma DeplacementPile(operations: map<string, Strategie>, b: seq<Entree>, h: seq<Entree>, x: seq<Entree>)
    requires PileBienFormee(operations, b + h)
    requires PileBienFormee(operations, x)
    ensures PileBienFormee(operations, b + x)
  {
    assert forall k | 0 <= k < |b| :: (b + h)[k] == b[k];
  }

  lemma DeplacementProfondeur(ts: seq<Entree>, i: nat, b: seq<Entree>, h: seq<Entree>, x: seq<Entree>)
    requires i < |ts|
    requires |Parmi(x, Gauches)| - |Parmi(h, Gauches)|
             == |Parmi([ts[i]], Gauches)| - |Parmi([ts[i]], Droites)|
    ensures |Parmi(b + x, Gauches)| - |Parmi(b + h, Gauches)| == Profondeur(ts, i + 1) - Profondeur(ts, i)
  {
    ParmiConcat(b, h, Gauches);
    ParmiConcat(b, x, Gauches);
    ParmiUn(ts, i, Gauches);
    ParmiUn(ts, i, Droites);
  }

  lemma DeplacementContenu(ts: seq<Entree>, i: nat, etat: Etat,
                           b: seq<Entree>, h: seq<Entree>, x: seq<Entree>, y: seq<Entree>)
    requires i < |ts|
    requires Contenu(ts, i, etat)
    requires etat.pile == b + h
    requires PiecesContenu(ts[i], h, x, y)
    ensures Contenu(ts, i + 1, Etat(b + x, etat.sortie + y))
  {
    var mb, mh, mx, mt := multiset(Parmi(b, Valeurs)), multiset(Parmi(h, Valeurs)),
                          multiset(Parmi(x, Valeurs)), multiset(Parmi([ts[i]], Valeurs));
    ParmiConcat(b, h, Valeurs);
    assert multiset(Parmi(b + h, Valeurs)) == mb + mh;
    ParmiConcat(b, x, Valeurs);
    assert multiset(Parmi(b + x, Valeurs)) == mb + mx;
    ParmiUn(ts, i, Valeurs);
    assert multiset(Parmi(ts[..i + 1], Valeurs)) == multiset(Parmi(ts[..i], Valeurs)) + mt;
    assert multiset(etat.sortie + y) == multiset(etat.sortie) + multiset(y);
    Algebre(multiset(etat.sortie), multiset(y), mb, mh, mx, mt, multiset(Parmi(ts[..i], Valeurs)));
  }

  lemma Algebre<T>(ms: multiset<T>, my: multiset<T>, mb: multiset<T>, mh: multiset<T>,
                   mx: multiset<T>, mt: multiset<T>, mi: multiset<T>)
    requires ms + (mb + mh) == mi
    requires my + mx == mh + mt
    ensures (ms + my) + (mb + mx) == mi + mt
  {
    calc {
      (ms + my) + (mb + mx);
      ms + mb + (my + mx);
      ms + mb + (mh + mt);
      ms + (mb + mh) + mt;
    }
  }

  /** A popped run of functions and operators holds no parenthesis and
      no number. */
  lemma DepilesForme(h: seq<Entree>)
    requires forall k | 0 <= k < |h| :: PeutDepiler(h[k])
    ensures Parmi(h, Gauches) == []
    ensures Parmi(Inverse(h), Parentheses) == []
    ensures Parmi(Inverse(h), Nombres) == []
  {
    var inv := Inverse(h);
    assert forall k | 0 <= k < |inv| :: PeutDepiler(inv[k]);
    ParmiVide(h, Gauches);
    ParmiVide(inv, Parentheses);
    ParmiVide(inv, Nombres);
  }

  /** Reversed, a popped run holds the same tokens. */
  lemma DepilesContenu(h: seq<Entree>)
    requires forall k | 0 <= k < |h| :: PeutDepiler(h[k])
    ensures multiset(Inverse(h)) == multiset(Parmi(h, Valeurs))
  {
    var inv := Inverse(h);
    assert forall k | 0 <= k < |inv| :: PeutDepiler(inv[k]);
    ParmiTout(h, Valeurs);
    ParmiTout(inv, Valeurs);
    ParmiInverse(h, Valeurs);
  }

  // ----- the pieces of each kind of step

  lemma PiecesNombre(operations: map<string, Strategie>, t: Entree)
    requires t.typeEntree == Nombre
    ensures PiecesForme(operations, t, [], [], [t])
    ensures PiecesContenu(t, [], [], [t])
  {
    ParmiSeul(t);
  }

  lemma PiecesEmpiler(operations: map<string, Strategie>, t: Entree)
    requires t.typeEntree == Fonction || t.typeEntree == ParentheseGauche
    ensures PiecesForme(operations, t, [], [t], [])
    ensures PiecesContenu(t, [], [t], [])
  {
    ParmiSeul(t);
  }

  lemma PiecesOperateurForme(operations: map<string, Strategie>, t: Entree, h: seq<Entree>)
    requires t.typeEntree == Operateur && t.caractere in operations
    requires forall k | 0 <= k < |h| :: PeutDepiler(h[k])
    ensures PiecesForme(operations, t, h, [t], Inverse(h))
  {
    assert Parmi([t], Gauches) == [] && Parmi([t], Droites) == [] && Parmi([t], Nombres) == [] by {
      ParmiSeul(t);
    }
    assert Parmi(h, Gauches) == [] && Parmi(Inverse(h), Parentheses) == [] && Parmi(Inverse(h), Nombres) == [] by {
      DepilesForme(h);
    }
    PileSeule(operations, t);
  }

  /** A stack holding one known operator is well formed. */
  lemma PileSeule(operations: map<string, Strategie>, t: Entree)
    requires t.typeEntree == Operateur && t.caractere in operations
    ensures PileBienFormee(operations, [t])
  {
  }

  lemma PiecesOperateurContenu(t: Entree, h: seq<Entree>)
    requires t.typeEntree == Operateur
    requires forall k | 0 <= k < |h| :: PeutDepiler(h[k])
    ensures PiecesContenu(t, h, [t], Inverse(h))
  {
    ParmiSeul(t);
    DepilesContenu(h);
  }

  lemma PiecesParentheseForme(operations: map<string, Strategie>, t: Entree, g: Entree, h: seq<Entree>)
    requires t.typeEntree == ParentheseDroite && g.typeEntree == ParentheseGauche
    requires forall k | 0 <= k < |h| :: PeutDepiler(h[k])
    ensures PiecesForme(operations, t, [g] + h, [], Inverse(h))
  {
    ParmiSeul(t);
    ParmiSeul(g);
    DepilesForme(h);
    ParmiConcat([g], h, Gauches);
  }

  lemma PiecesParentheseContenu(t: Entree, g: Entree, h: seq<Entree>)
    requires t.typeEntree == ParentheseDroite && g.typeEntree == ParentheseGauche
    requires forall k | 0 <= k < |h| :: PeutDepiler(h[k])
    ensures PiecesContenu(t, [g] + h, [], Inverse(h))
  {
    ParmiSeul(t);
    ParmiSeul(g);
    DepilesContenu(h);
    ParmiConcat([g], h, Valeurs);
  }

  /** A function found below the opening parenthesis follows the popped
      run to the output. */
  lemma PiecesFonctionForme(operations: map<string, Strategie>, t: Entree, f: Entree, h: seq<Entree>, y: seq<Entree>)
    requires f.typeEntree == Fonction
    requires PiecesForme(operations, t, h, [], y)
    ensures PiecesForme(operations, t, [f] + h, [], y + [f])
  {
    ParmiSeul(f);
    ParmiConcat([f], h, Gauches);
    ParmiConcat(y, [f], Parentheses);
    ParmiConcat(y, [f], Nombres);
  }

  lemma PiecesFonctionContenu(t: Entree, f: Entree, h: seq<Entree>, y: seq<Entree>)
    requires f.typeEntree == Fonction
    requires PiecesContenu(t, h, [], y)
    ensures PiecesContenu(t, [f] + h, [], y + [f])
  {
    assert Parmi([f] + h, Valeurs) == [f] + Parmi(h, Valeurs) by {
      ParmiSeul(f);
      ParmiConcat([f], h, Valeurs);
    }
    Ajout(multiset(y), multiset(Parmi([], Valeurs)), multiset(Parmi(h, Valeurs)),
          multiset(Parmi([t], Valeurs)), multiset{f});
    assert multiset(y + [f]) == multiset(y) + multiset{f};
    assert multiset([f] + Parmi(h, Valeurs)) == multiset{f} + multiset(Parmi(h, Valeurs));
  }

  /** One element added to both sides of a balance keeps it. */
  lemma Ajout<T>(my: multiset<T>, mx: multiset<T>, mh: multiset<T>, mt: multiset<T>, mf: multiset<T>)
    requires my + mx == mh + mt
    ensures (my + mf) + mx == (mf + mh) + mt
  {
    calc {
      (my + mf) + mx;
      mf + (my + mx);
      mf + (mh + mt);
    }
  }

  // ----- one token at a time

  /** A number goes to the output. */
  lemma EtapeNombre(operations: map<string, Strategie>, ts: seq<Entree>, i: nat, etat: Etat)
    requires i < |ts| && ts[i].typeEntree == Nombre
    requires Structure(operations, ts, i, etat)
    ensures Etape(operations, ts[i], etat) == Ok(Etat(etat.pile, etat.sortie + [ts[i]]))
    ensures Structure(operations, ts, i + 1, Etat(etat.pile, etat.sortie + [ts[i]]))
    ensures Contenu(ts, i, etat) ==> Contenu(ts, i + 1, Etat(etat.pile, etat.sortie + [ts[i]]))
  {
    var t := ts[i];
    assert etat.pile + [] == etat.pile;
    PiecesNombre(operations, t);
    DeplacementForme(operations, ts, i, etat, etat.pile, [], [], [t]);
    if Contenu(ts, i, etat) {
      DeplacementContenu(ts, i, etat, etat.pile, [], [], [t]);
    }
  }

  /** A function or an opening parenthesis is pushed. */
  lemma EtapeEmpiler(operations: map<string, Strategie>, ts: seq<Entree>, i: nat, etat: Etat)
    requires i < |ts| && (ts[i].typeEntree == Fonction || ts[i].typeEntree == ParentheseGauche)
    requires Structure(operations, ts, i, etat)
    ensures Etape(operations, ts[i], etat) == Ok(Etat(etat.pile + [ts[i]], etat.sortie))
    ensures Structure(operations, ts, i + 1, Etat(etat.pile + [ts[i]], etat.sortie))
    ensures Contenu(ts, i, etat) ==> Contenu(ts, i + 1, Etat(etat.pile + [ts[i]], etat.sortie))
  {
    var t := ts[i];
    assert etat.pile == etat.pile + [];
    assert etat.sortie + [] == etat.sortie;
    PiecesEmpiler(operations, t);
    DeplacementForme(operations, ts, i, etat, etat.pile, [], [t], []);
    if Contenu(ts, i, etat) {
      DeplacementContenu(ts, i, etat, etat.pile, [], [t], []);
    }
  }

  /** An operator pops a run of functions and operators to the output
      and is pushed. */
  lemma EtapeOperateur(operations: map<string, Strategie>, ts: seq<Entree>, i: nat, etat: Etat)
    requires i < |ts| && ts[i].typeEntree == Operateur
    requires Connus(operations, ts)
    requires Structure(operations, ts, i, etat)
    ensures Etape(operations, ts[i], etat).Ok?
    ensures Structure(operations, ts, i + 1, Etape(operations, ts[i], etat).value)
    ensures Contenu(ts, i, etat) ==> Contenu(ts, i + 1, Etape(operations, ts[i], etat).value)
  {
    var t := ts[i];
    var d := Depiler(operations, t, etat);
    if d.Err? {
      DepilerErreur(operations, t, etat);
      assert false;
    }
    var n := |d.value.pile|;
    var h := etat.pile[n..];
    assert d.value.pile == etat.pile[..n] && d.value.sortie == etat.sortie + Inverse(h) by {
      DepilerSuffixe(operations, t, etat);
    }
    assert forall k | 0 <= k < |h| :: PeutDepiler(h[k]) by {
      DepilerDepiles(operations, t, etat);
      assert forall k | 0 <= k < |h| :: h[k] == etat.pile[n + k];
    }
    var suite := Etat(d.value.pile + [t], etat.sortie + Inverse(h));
    assert Etape(operations, t, etat) == Ok(suite);
    assert etat.pile == d.value.pile + h;
    assert Structure(operations, ts, i + 1, suite) by {
      PiecesOperateurForme(operations, t, h);
      DeplacementForme(operations, ts, i, etat, d.value.pile, h, [t], Inverse(h));
    }
    if Contenu(ts, i, etat) {
      PiecesOperateurContenu(t, h);
      DeplacementContenu(ts, i, etat, d.value.pile, h, [t], Inverse(h));
    }
  }

  /** A closing parenthesis succeeds exactly when one is open. */
  lemma ParentheseDroiteOk(operations: map<string, Strategie>, ts: seq<Entree>, i: nat, etat: Etat)
    requires i < |ts| && ts[i].typeEntree == ParentheseDroite
    requires Structure(operations, ts, i, etat)
    ensures Etape(operations, ts[i], etat).Ok? <==> Profondeur(ts, i) > 0
  {
    ParmiVideSsi(etat.pile, Gauches);
  }

  /** With an opening parenthesis at `j`, the stack is a base `p`, the
      nearest opening parenthesis `g` and a run `h` of functions and
      operators, which is popped to the output. */
  lemma Decomposition(operations: map<string, Strategie>, etat: Etat, j: nat)
      returns (p: seq<Entree>, g: Entree, h: seq<Entree>)
    requires PileBienFormee(operations, etat.pile)
    requires j < |etat.pile| && etat.pile[j].typeEntree == ParentheseGauche
    ensures etat.pile == p + ([g] + h)
    ensures g.typeEntree == ParentheseGauche
    ensures forall k | 0 <= k < |h| :: PeutDepiler(h[k])
    ensures DepilerJusquaGauche(etat) == Etat(p + [g], etat.sortie + Inverse(h))
  {
    var e := DepilerJusquaGauche(etat);
    var n := |e.pile|;
    assert && 0 < n <= |etat.pile| && e.pile == etat.pile[..n]
           && e.sortie == etat.sortie + Inverse(etat.pile[n..])
           && e.pile[n - 1].typeEntree == ParentheseGauche
           && forall k | n <= k < |etat.pile| :: etat.pile[k].typeEntree != ParentheseGauche by {
      JusquaGaucheResultat(etat);
    }
    h := etat.pile[n..];
    Depilables(operations, etat.pile, n);
    g := e.pile[n - 1];
    p := e.pile[..n - 1];
    assert e.pile == p + [g];
    assert etat.pile == p + ([g] + h) by {
      assert etat.pile == etat.pile[..n] + etat.pile[n..];
    }
  }

  /** Above the nearest opening parenthesis of a well-formed stack lie
      only functions and operators. */
  lemma Depilables(operations: map<string, Strategie>, pile: seq<Entree>, n: nat)
    requires PileBienFormee(operations, pile)
    requires n <= |pile|
    requires forall k | n <= k < |pile| :: pile[k].typeEntree != ParentheseGauche
    ensures forall k | 0 <= k < |pile[n..]| :: PeutDepiler(pile[n..][k])
  {
    forall k | 0 <= k < |pile[n..]| ensures PeutDepiler(pile[n..][k]) {
      assert pile[n..][k] == pile[n + k];
    }
  }

  /** A token of the group is found where something is kept. */
  lemma {:induction false} ParmiTemoin(s: seq<Entree>, types: Classe) returns (j: nat)
    requires Parmi(s, types) != []
    ensures j < |s| && Dans(types, s[j].typeEntree)
    decreases |s|
  {
    var n := |s| - 1;
    if Dans(types, s[n].typeEntree) {
      j := n;
    } else {
      j := ParmiTemoin(s[..n], types);
    }
  }

  /** A non-empty list is its front followed by its last element. */
  lemma Dernier<T>(s: seq<T>)
    requires s != []
    ensures s == s[..|s| - 1] + [s[|s| - 1]]
  {
  }

  /** Concatenation is associative and has the empty list as unit. */
  lemma Associatif<T>(a: seq<T>, b: seq<T>, c: seq<T>)
    ensures a + b + c == a + (b + c)
    ensures a + [] == a
  {
  }

  /** A closing parenthesis with a function below the opening one keeps
      the shape. */
  lemma EtapeParentheseFonction(operations: map<string, Strategie>, ts: seq<Entree>, i: nat, etat: Etat,
                                b: seq<Entree>, f: Entree, g: Entree, h: seq<Entree>)
    requires i < |ts| && ts[i].typeEntree == ParentheseDroite
    requires Structure(operations, ts, i, etat)
    requires etat.pile == b + ([f] + ([g] + h))
    requires f.typeEntree == Fonction && g.typeEntree == ParentheseGauche
    requires forall k | 0 <= k < |h| :: PeutDepiler(h[k])
    ensures Structure(operations, ts, i + 1, Etat(b, etat.sortie + Inverse(h) + [f]))
  {
    Associatif(etat.sortie, Inverse(h), [f]);
    Associatif(b, [], []);
    PiecesParentheseForme(operations, ts[i], g, h);
    PiecesFonctionForme(operations, ts[i], f, [g] + h, Inverse(h));
    DeplacementForme(operations, ts, i, etat, b, [f] + ([g] + h), [], Inverse(h) + [f]);
  }

  /** ... and the content. */
  lemma EtapeParentheseFonctionContenu(ts: seq<Entree>, i: nat, etat: Etat,
                                       b: seq<Entree>, f: Entree, g: Entree, h: seq<Entree>)
    requires i < |ts| && ts[i].typeEntree == ParentheseDroite
    requires Contenu(ts, i, etat)
    requires etat.pile == b + ([f] + ([g] + h))
    requires f.typeEntree == Fonction && g.typeEntree == ParentheseGauche
    requires forall k | 0 <= k < |h| :: PeutDepiler(h[k])
    ensures Contenu(ts, i + 1, Etat(b, etat.sortie + Inverse(h) + [f]))
  {
    Associatif(etat.sortie, Inverse(h), [f]);
    Associatif(b, [], []);
    PiecesParentheseContenu(ts[i], g, h);
    PiecesFonctionContenu(ts[i], f, [g] + h, Inverse(h));
    DeplacementContenu(ts, i, etat, b, [f] + ([g] + h), [], Inverse(h) + [f]);
  }

  /** A closing parenthesis with no function below the opening one. */
  lemma EtapeParentheseSimple(operations: map<string, Strategie>, ts: seq<Entree>, i: nat, etat: Etat,
                              p: seq<Entree>, g: Entree, h: seq<Entree>)
    requires i < |ts| && ts[i].typeEntree == ParentheseDroite
    requires Structure(operations, ts, i, etat)
    requires etat.pile == p + ([g] + h)
    requires g.typeEntree == ParentheseGauche
    requires forall k | 0 <= k < |h| :: PeutDepiler(h[k])
    ensures Structure(operations, ts, i + 1, Etat(p, etat.sortie + Inverse(h)))
    ensures Contenu(ts, i, etat) ==> Contenu(ts, i + 1, Etat(p, etat.sortie + Inverse(h)))
  {
    var t := ts[i];
    assert p + [] == p;
    assert Structure(operations, ts, i + 1, Etat(p + [], etat.sortie + Inverse(h))) by {
      PiecesParentheseForme(operations, t, g, h);
      DeplacementForme(operations, ts, i, etat, p, [g] + h, [], Inverse(h));
    }
    if Contenu(ts, i, etat) {
      PiecesParentheseContenu(t, g, h);
      DeplacementContenu(ts, i, etat, p, [g] + h, [], Inverse(h));
    }
  }

  /** A closing parenthesis pops the run above the nearest opening one to
      the output, drops that parenthesis and sends a function just below
      it to the output. */
  lemma EtapeParentheseDroite(operations: map<string, Strategie>, ts: seq<Entree>, i: nat, etat: Etat)
    requires i < |ts| && ts[i].typeEntree == ParentheseDroite
    requires Structure(operations, ts, i, etat)
    ensures Etape(operations, ts[i], etat).Ok? <==> Profondeur(ts, i) > 0
    ensures Etape(operations, ts[i], etat).Ok? ==> Structure(operations, ts, i + 1, Etape(operations, ts[i], etat).value)
    ensures Etape(operations, ts[i], etat).Ok? && Contenu(ts, i, etat) ==> Contenu(ts, i + 1, Etape(operations, ts[i], etat).value)
  {
    ParentheseDroiteOk(operations, ts, i, etat);
    if Profondeur(ts, i) > 0 {
      var j := ParmiTemoin(etat.pile, Gauches);
      var p, g, h := Decomposition(operations, etat, j);
      var r := ApresParentheseDroite(etat);
      assert Etape(operations, ts[i], etat) == r;
      if p != [] && p[|p| - 1].typeEntree == Fonction {
        var b, f := p[..|p| - 1], p[|p| - 1];
        assert r == Ok(Etat(b, etat.sortie + Inverse(h) + [f])) by {
          ApresParentheseFonction(etat, p, g, h);
        }
        assert etat.pile == b + ([f] + ([g] + h)) by {
          Dernier(p);
          Associatif(b, [f], [g] + h);
        }
        EtapeParentheseFonction(operations, ts, i, etat, b, f, g, h);
        if Contenu(ts, i, etat) {
          EtapeParentheseFonctionContenu(ts, i, etat, b, f, g, h);
        }
      } else {
        assert r == Ok(Etat(p, etat.sortie + Inverse(h))) by {
          ApresParentheseSimple(etat, p, g, h);
        }
        EtapeParentheseSimple(operations, ts, i, etat, p, g, h);
      }
    }
  }

  /** A closing parenthesis over a decomposed stack with a function below
      the opening parenthesis ... */
  lemma ApresParentheseFonction(etat: Etat, p: seq<Entree>, g: Entree, h: seq<Entree>)
    requires DepilerJusquaGauche(etat) == Etat(p + [g], etat.sortie + Inverse(h))
    requires p != [] && p[|p| - 1].typeEntree == Fonction
    ensures ApresParentheseDroite(etat) == Ok(Etat(p[..|p| - 1], etat.sortie + Inverse(h) + [p[|p| - 1]]))
  {
    var e := DepilerJusquaGauche(etat);
    assert e.pile[..|e.pile| - 1] == p;
  }

  /** ... and without one. */
  lemma ApresParentheseSimple(etat: Etat, p: seq<Entree>, g: Entree, h: seq<Entree>)
    requires DepilerJusquaGauche(etat) == Etat(p + [g], etat.sortie + Inverse(h))
    requires !(p != [] && p[|p| - 1].typeEntree == Fonction)
    ensures ApresParentheseDroite(etat) == Ok(Etat(p, etat.sortie + Inverse(h)))
  {
    var e := DepilerJusquaGauche(etat);
    assert e.pile[..|e.pile| - 1] == p;
  }

  /** One token, whatever its kind: only a closing parenthesis with none
      open fails, and the shape and the content carry over. */
  lemma EtapeProprietes(operations: map<string, Strategie>, ts: seq<Entree>, i: nat, etat: Etat)
    requires i < |ts|
    requires Connus(operations, ts)
    requires Structure(operations, ts, i, etat)
    ensures Etape(operations, ts[i], etat).Ok? <==> (ts[i].typeEntree == ParentheseDroite ==> Profondeur(ts, i) > 0)
    ensures Etape(operations, ts[i], etat).Err? ==> Etape(operations, ts[i], etat).erreur == ParenthesesDesequilibrees
    ensures Etape(operations, ts[i], etat).Ok? ==> Structure(operations, ts, i + 1, Etape(operations, ts[i], etat).value)
    ensures Etape(operations, ts[i], etat).Ok? && Contenu(ts, i, etat) ==> Contenu(ts, i + 1, Etape(operations, ts[i], etat).value)
  {
    match ts[i].typeEntree {
      case Nombre => EtapeNombre(operations, ts, i, etat);
      case Fonction => EtapeEmpiler(operations, ts, i, etat);
      case ParentheseGauche => EtapeEmpiler(operations, ts, i, etat);
      case Operateur => EtapeOperateur(operations, ts, i, etat);
      case ParentheseDroite => EtapeParentheseDroite(operations, ts, i, etat);
    }
  }

  /** The final loop: the stack empties into the output exactly when no
      parenthesis is left open, and the output keeps its shape. */
  lemma FinForme(operations: map<string, Strategie>, ts: seq<Entree>, etat: Etat)
    requires Structure(operations, ts, |ts|, etat)
    ensures Vider(etat).Ok? <==> Profondeur(ts, |ts|) == 0
    ensures Vider(etat).Ok? ==> && Parmi(Vider(etat).value, Parentheses) == []
                                && Parmi(Vider(etat).value, Nombres) == Parmi(ts[..|ts|], Nombres)
  {
    ParmiVideSsi(etat.pile, Gauches);
    if Profondeur(ts, |ts|) == 0 {
      DepilesForme(etat.pile);
      ParmiConcat(etat.sortie, Inverse(etat.pile), Parentheses);
      ParmiConcat(etat.sortie, Inverse(etat.pile), Nombres);
    }
  }

  lemma FinContenu(operations: map<string, Strategie>, ts: seq<Entree>, etat: Etat)
    requires Structure(operations, ts, |ts|, etat)
    requires Contenu(ts, |ts|, etat)
    requires Vider(etat).Ok?
    ensures multiset(Vider(etat).value) == multiset(Parmi(ts[..|ts|], Valeurs))
  {
    DepilesContenu(etat.pile);
  }

  /** Reading one more token changes the depth by one for a parenthesis
      and leaves it otherwise. */
  lemma ProfondeurPas(ts: seq<Entree>, i: nat)
    requires i < |ts|
    ensures Profondeur(ts, i + 1) == Profondeur(ts, i) + (match ts[i].typeEntree
                                                          case ParentheseGauche => 1
                                                          case ParentheseDroite => -1
                                                          case _ => 0)
  {
    ParmiUn(ts, i, Gauches);
    ParmiUn(ts, i, Droites);
    ParmiSeul(ts[i]);
  }

  /** No prefix from the `i`-th on closes more parentheses than it opens. */
  predicate Positives(ts: seq<Entree>, i: nat)
    requires i <= |ts|
    decreases |ts| - i
  {
    Profondeur(ts, i) >= 0 && (i < |ts| ==> Positives(ts, i + 1))
  }

  lemma {:induction false} PositivesSsi(ts: seq<Entree>, i: nat)
    requires i <= |ts|
    ensures Positives(ts, i) <==> forall j | i <= j <= |ts| :: Profondeur(ts, j) >= 0
    decreases |ts| - i
  {
    if i < |ts| {
      PositivesSsi(ts, i + 1);
    }
  }

  /** The conversion from token `i` on succeeds exactly when the rest of
      the list never closes a parenthesis that is not open and closes all
      that are, and fails otherwise on unbalanced parentheses. */
  lemma {:induction false} ConvertirDepuisSucces(operations: map<string, Strategie>, ts: seq<Entree>, i: nat, etat: Etat)
    requires i <= |ts|
    requires Connus(operations, ts)
    requires Structure(operations, ts, i, etat)
    ensures ConvertirDepuis(operations, ts, i, etat).Ok? <==> Positives(ts, i) && Profondeur(ts, |ts|) == 0
    ensures ConvertirDepuis(operations, ts, i, etat).Err? ==>
            ConvertirDepuis(operations, ts, i, etat).erreur == ParenthesesDesequilibrees
    decreases |ts| - i
  {
    if i == |ts| {
      FinForme(operations, ts, etat);
    } else {
      var e := Etape(operations, ts[i], etat);
      assert (e.Ok? <==> (ts[i].typeEntree == ParentheseDroite ==> Profondeur(ts, i) > 0))
             && (e.Err? ==> e.erreur == ParenthesesDesequilibrees)
             && (e.Ok? ==> Structure(operations, ts, i + 1, e.value)) by {
        EtapeProprietes(operations, ts, i, etat);
      }
      assert Profondeur(ts, i) >= 0;
      ProfondeurPas(ts, i);
      if e.Ok? {
        ConvertirDepuisSucces(operations, ts, i + 1, e.value);
      }
    }
  }

  /** On success the output holds no parenthesis and the numbers of the
      input in input order. */
  lemma {:induction false} ConvertirDepuisForme(operations: map<string, Strategie>, ts: seq<Entree>, i: nat, etat: Etat)
    requires i <= |ts|
    requires Connus(operations, ts)
    requires Structure(operations, ts, i, etat)
    requires ConvertirDepuis(operations, ts, i, etat).Ok?
    ensures Parmi(ConvertirDepuis(operations, ts, i, etat).value, Parentheses) == []
    ensures Parmi(ConvertirDepuis(operations, ts, i, etat).value, Nombres) == Parmi(ts[..|ts|], Nombres)
    decreases |ts| - i
  {
    if i == |ts| {
      FinForme(operations, ts, etat);
    } else {
      EtapeProprietes(operations, ts, i, etat);
      ConvertirDepuisForme(operations, ts, i + 1, Etape(operations, ts[i], etat).value);
    }
  }

  /** On success the output holds each number, function and operator of
      the input once. */
  lemma {:induction false} ConvertirDepuisContenu(operations: map<string, Strategie>, ts: seq<Entree>, i: nat, etat: Etat)
    requires i <= |ts|
    requires Connus(operations, ts)
    requires Structure(operations, ts, i, etat)
    requires Contenu(ts, i, etat)
    requires ConvertirDepuis(operations, ts, i, etat).Ok?
    ensures multiset(ConvertirDepuis(operations, ts, i, etat).value) == multiset(Parmi(ts[..|ts|], Valeurs))
    decreases |ts| - i
  {
    if i == |ts| {
      FinContenu(operations, ts, etat);
    } else {
      EtapeProprietes(operations, ts, i, etat);
      ConvertirDepuisContenu(operations, ts, i + 1, Etape(operations, ts[i], etat).value);
    }
  }

  /** `ConvertirEnRpn` on tokens whose operators all have a strategy: it
      succeeds exactly on balanced parentheses, fails otherwise with
      `ParenthesesDesequilibrees`, and on success outputs each number,
      function and operator once, no parenthesis, and the numbers in
      input order. */
  lemma RpnProprietes(operations: map<string, Strategie>, ts: seq<Entree>)
    requires Connus(operations, ts)
    ensures var r := Rpn(operations, ts);
            && (r.Ok? <==> Equilibre(ts))
            && (r.Err? ==> r.erreur == ParenthesesDesequilibrees)
            && (r.Ok? ==> && Parmi(r.value, Parentheses) == []
                          && multiset(r.value) == multiset(Parmi(ts, Valeurs))
                          && Parmi(r.value, Nombres) == Parmi(ts, Nombres))
  {
    assert ts[..0] == [];
    assert ts[..|ts|] == ts;
    var depart := Etat([], []);
    assert Structure(operations, ts, 0, depart);
    assert Contenu(ts, 0, depart);
    ConvertirDepuisSucces(operations, ts, 0, depart);
    PositivesSsi(ts, 0);
    if Rpn(operations, ts).Ok? {
      ConvertirDepuisForme(operations, ts, 0, depart);
      ConvertirDepuisContenu(operations, ts, 0, depart);
    }
  }
}
