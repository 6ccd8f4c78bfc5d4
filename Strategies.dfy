/** The operator table (Addition.cs, Multiplication.cs, Division.cs,
    Puissance.cs, and the subtraction strategy registered beside them) and
    the symbol-keyed dictionary the evaluator builds from it. */
module Strategies {
  import opened Resultats

  /** `Math.Pow` and `Math.Sqrt` reached through `double` casts: their
      floating-point results are not modelled, so the calculator receives
      them as parameters. */
  datatype Maths = Maths(pow: (real, real) -> real, sqrt: real -> real)

  /** One binary operator: its symbol, precedence, associativity and
      combining function. The set of strategies is closed. */
  datatype Strategie = Addition | Soustraction | Multiplication | Division | Puissance {

    function Symbole(): string {
      match this
      case Addition => "+"
      case Soustraction => "-"
      case Multiplication => "*"
      case Division => "/"
      case Puissance => "^"
    }

    function Priorite(): int {
      match this
      case Addition => 1
      case Soustraction => 1
      case Multiplication => 2
      case Division => 2
      case Puissance => 3
    }

    function AssocDroite(): bool {
      this == Puissance
    }

    /** Combines the two operands; only the division guards its right
        operand. */
    function Calculer(gauche: real, droite: real, maths: Maths): (r: Result<real>)
      ensures r.Err? <==> this == Division && droite == 0.0
      ensures r.Err? ==> r.erreur == DivisionParZero
    {
      match this
      case Addition => Ok(gauche + droite)
      case Soustraction => Ok(gauche - droite)
      case Multiplication => Ok(gauche * droite)
      case Division => if droite == 0.0 then Err(DivisionParZero) else Ok(gauche / droite)
      case Puissance => Ok(maths.pow(gauche, droite))
    }
  }

  /** Symbols identify strategies: no two strategies share one. */
  lemma SymboleInjectif(a: Strategie, b: Strategie)
    ensures a.Symbole() == b.Symbole() <==> a == b
  {
  }

  /** `+` and `-` bind loosest, `*` and `/` tie above them, `^` binds
      tightest and is the only right-associative operator. */
  lemma OrdreDesPriorites(s: Strategie)
    ensures Addition.Priorite() == Soustraction.Priorite() < Multiplication.Priorite()
    ensures Multiplication.Priorite() == Division.Priorite() < Puissance.Priorite()
    ensures s.AssocDroite() <==> s.Symbole() == "^"
    ensures s.Priorite() == 3 <==> s == Puissance
  {
  }

  /** No two strategies of the list share a symbol. */
  predicate SymbolesDistincts(strategies: seq<Strategie>) {
    forall i, j | 0 <= i < j < |strategies| :: strategies[i].Symbole() != strategies[j].Symbole()
  }

  /** Builds the symbol-keyed dictionary (`ToDictionary` in the
      constructor of CalculerEquation), which fails on the first symbol
      seen twice. */
  function Repertorier(strategies: seq<Strategie>): (r: Result<map<string, Strategie>>)
    ensures r.Err? ==> r.erreur.SymboleDuplique?
    decreases |strategies|
  {
    if strategies == [] then Ok(map[])
    else
      var n := |strategies| - 1;
      var s := strategies[n];
      match Repertorier(strategies[..n])
      case Err(e) => Err(e)
      case Ok(m) =>
        if s.Symbole() in m then Err(SymboleDuplique(s.Symbole()))
        else Ok(m[s.Symbole() := s])
  }

  /** The dictionary is built exactly when no symbol repeats; its keys
      are then the symbols of the strategies, each mapped to the strategy
      that carries it. */
  lemma {:induction false} RepertorierProprietes(strategies: seq<Strategie>)
    ensures var r := Repertorier(strategies);
            && (r.Ok? <==> SymbolesDistincts(strategies))
            && (r.Ok? ==> r.value.Keys == set s | s in strategies :: s.Symbole())
            && (r.Ok? ==> forall k | k in r.value :: r.value[k].Symbole() == k)
    decreases |strategies|
  {
    if strategies != [] {
      var n := |strategies| - 1;
      var s := strategies[n];
      RepertorierProprietes(strategies[..n]);
      DistinctsAjout(strategies[..n], s);
      assert strategies[..n] + [s] == strategies;
      match Repertorier(strategies[..n])
      case Err(_) =>
      case Ok(m) =>
        if s.Symbole() in m {
          assert exists x | x in strategies[..n] :: x.Symbole() == s.Symbole();
        } else {
          assert forall x | x in strategies :: x in strategies[..n] || x == s;
        }
    }
  }

  /** Appending a strategy keeps the symbols distinct exactly when its
      symbol is new. */
  lemma DistinctsAjout(strategies: seq<Strategie>, s: Strategie)
    ensures SymbolesDistincts(strategies + [s]) <==>
            SymbolesDistincts(strategies) && forall x | x in strategies :: x.Symbole() != s.Symbole()
  {
    var t := strategies + [s];
    if SymbolesDistincts(t) {
      forall x | x in strategies ensures x.Symbole() != s.Symbole() {
        var i :| 0 <= i < |strategies| && strategies[i] == x;
        assert t[i] == x && t[|strategies|] == s;
      }
      forall i, j | 0 <= i < j < |strategies| ensures strategies[i].Symbole() != strategies[j].Symbole() {
        assert t[i] == strategies[i] && t[j] == strategies[j];
      }
    }
  }

  /** The five strategies the program registers, in registration order. */
  const StrategiesParDefaut: seq<Strategie> := [Addition, Soustraction, Multiplication, Division, Puissance]

  /** Every symbol the tokenizer emits as an operator is a key. */
  predicate Couvre(operations: map<string, Strategie>) {
    forall s | s in ["+", "-", "*", "/", "^"] :: s in operations
  }

  /** A dictionary whose keys are the symbols of their strategies. */
  predicate Coherent(operations: map<string, Strategie>) {
    forall k | k in operations :: operations[k].Symbole() == k
  }

  /** The default registration succeeds and yields a coherent dictionary
      with all five symbols. */
  lemma RepertorierParDefaut()
    ensures Repertorier(StrategiesParDefaut) == Ok(OperationsParDefaut)
    ensures Couvre(OperationsParDefaut) && Coherent(OperationsParDefaut)
  {
    var m1 := map["+" := Addition];
    var m2 := m1["-" := Soustraction];
    var m3 := m2["*" := Multiplication];
    var m4 := m3["/" := Division];
    RepertorierAjout([], Addition, map[]);
    assert [] + [Addition] == [Addition];
    RepertorierAjout([Addition], Soustraction, m1);
    assert [Addition] + [Soustraction] == [Addition, Soustraction];
    RepertorierAjout([Addition, Soustraction], Multiplication, m2);
    assert [Addition, Soustraction] + [Multiplication] == [Addition, Soustraction, Multiplication];
    RepertorierAjout([Addition, Soustraction, Multiplication], Division, m3);
    assert [Addition, Soustraction, Multiplication] + [Division] == [Addition, Soustraction, Multiplication, Division];
    RepertorierAjout([Addition, Soustraction, Multiplication, Division], Puissance, m4);
    assert [Addition, Soustraction, Multiplication, Division] + [Puissance] == StrategiesParDefaut;
    assert m4["^" := Puissance] == OperationsParDefaut;
  }

  /** Registering one more strategy with a fresh symbol adds exactly its
      entry. */
  lemma RepertorierAjout(strategies: seq<Strategie>, s: Strategie, m: map<string, Strategie>)
    requires Repertorier(strategies) == Ok(m) && s.Symbole() !in m
    ensures Repertorier(strategies + [s]) == Ok(m[s.Symbole() := s])
  {
    assert (strategies + [s])[..|strategies|] == strategies;
  }

  /** The dictionary built from the default strategies. */
  const OperationsParDefaut: map<string, Strategie> :=
    map["+" := Addition, "-" := Soustraction, "*" := Multiplication, "/" := Division, "^" := Puissance]
}
