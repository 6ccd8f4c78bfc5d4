# Calculatrice: tokenizer, shunting-yard conversion and RPN evaluator

This project models the core of a small C# console calculator. The
calculator evaluates an infix expression such as `3*-2`, `2^3^2` or
`sqrt(16)+1` in three stages:

1. **Tokenizing** (`Equation.ExtraireEntrees`). The expression is cut into
   `Entree` tokens: numbers (a `-` in a sign position is read into the
   number), operators `+ - * / ^`, parentheses, and lower-cased function
   names.
2. **Conversion to reverse Polish notation** (`CalculerEquation.ConvertirEnRpn`,
   `TraiterOperateur`, `TraiterParentheseDroite`). This is Dijkstra's
   shunting-yard algorithm, driven by a dictionary of operator strategies.
   Each strategy has a symbol, a precedence and an associativity.
3. **Evaluation** (`EvaluerRpn`, `EvaluerFonction`, `EvaluerOperateur`). The
   postfix list runs on a stack of numbers. Before any binary operator,
   every registered policy may veto it; `DivisionParZeroPolicy` vetoes a
   division by zero.

## How the model is built

- Every exception of the source is a `Result` error (`Resultats.Erreur`).
  This covers the ones thrown directly and the `KeyNotFoundException` of a
  dictionary lookup (`CleAbsente`). A thrown exception stops the
  computation, so the model returns the first error met.
- Stacks and lists are sequences whose top is the last element. Each
  source method that works with loops is a Dafny `method` with the same
  loop, and its contract ties its result to a specification function:
  - `ExtraireEntrees` to `EntreesDe`;
  - `ConvertirEnRpn` to `Rpn`;
  - `TraiterOperateur` to `ApresOperateur`;
  - `TraiterParentheseDroite` to `ApresParentheseDroite`;
  - `EvaluerRpn` to `ValeurRpn`;
  - `Evaluer` to `ValeurExpression`.

  The properties are proved as lemmas about those functions.
- Numbers are `real`. `Math.Pow` and `Math.Sqrt` are the two fields of a
  `Maths` value passed to the evaluator. The model states nothing about
  them.
- The four strategy classes shown in the source become the constructors of
  `Strategies.Strategie`. The program also registers a `Soustraction`
  strategy whose file is not part of this model. It is modelled after
  `Addition`: symbol `-`, precedence 1, left-associative, `gauche - droite`.
- The evaluator reads the token text as `Chaine`, while `Entree` declares it
  as `Caractere`. Both are the one field `caractere` of `Entrees.Entree`.
- Modules:
  - `Resultats`: errors and results.
  - `Entrees`: Entree.cs.
  - `Strategies`: the strategy classes and the dictionary the constructor
    builds.
  - `Politiques`: DivisionParZeroPolicy.cs and the policy loop.
  - `Equation`: Equation.cs.
  - `Conversion` and `ProprietesConversion`: the shunting-yard algorithm and
    what it guarantees.
  - `Evaluation` and `ProprietesEvaluation`: the evaluator, `Evaluer`, and
    what they guarantee.
  - `Exemples`: worked inputs.

## Model

| member | source | states |
|---|---|---|
| Entrees.ToString | Infrastructure/Evaluations/Entree.cs:22-25 | the rendering keeps the kind, uses the value form exactly when a value is present, and otherwise shows the text |
| Entrees.ToStringBienFormee | Infrastructure/Evaluations/Entree.cs:22-25 | on a token the tokenizer can emit, the value form is used exactly for numbers |
| Entrees.ValeurParDefaut | Infrastructure/Evaluations/Entree.cs:16-21 | a token built without a value has none, and keeps the kind and text it was given |
| Strategies.Strategie.Calculer | Infrastructure/Strategies/Division.cs:9-13 | on real numbers, a strategy fails exactly for a division by zero, with the division strategy's own error |
| Strategies.OrdreDesPriorites | Infrastructure/Strategies/Puissance.cs:6-8 | `+`/`-` bind less tightly than `*`/`/`, which bind less tightly than `^`; `^` is the only right-associative operator and the only one at precedence 3 |
| Strategies.SymboleInjectif | Domaine/Interfaces/IStrategieOperation.cs:4 | two strategies share a symbol exactly when they are the same strategy |
| Strategies.Repertorier | Infrastructure/Evaluations/CalculerEquation.cs:22-23 | building the symbol-keyed dictionary can only fail on a duplicate symbol |
| Strategies.RepertorierProprietes | Infrastructure/Evaluations/CalculerEquation.cs:22-23 | the dictionary is built exactly when no symbol repeats; its keys are then the strategies' symbols, each mapped to the strategy carrying it |
| Strategies.DistinctsAjout | Infrastructure/Evaluations/CalculerEquation.cs:22 | appending a strategy keeps the symbols distinct exactly when its symbol is new |
| Strategies.RepertorierAjout | Infrastructure/Evaluations/CalculerEquation.cs:22 | adding a strategy with a new symbol adds exactly that entry |
| Strategies.RepertorierParDefaut | Program.cs:13-20 | the five registered strategies give the dictionary of `+ - * / ^`, which covers every operator symbol and maps each to its strategy |
| Politiques.Politique.Verifier | Infrastructure/Policies/DivisionParZeroPolicy.cs:6-10 | the policy rejects exactly `/` with a zero right operand, with the division-by-zero-forbidden error |
| Politiques.VerifierIgnoreGauche | Infrastructure/Policies/DivisionParZeroPolicy.cs:6-9 | the verdict never depends on the left operand |
| Politiques.PremiereViolation | Infrastructure/Evaluations/CalculerEquation.cs:186-187 | the policy loop passes exactly when every policy passes; otherwise it reports the verdict of the first policy that fails |
| Politiques.DivisionParZeroToujoursRejetee | Infrastructure/Evaluations/CalculerEquation.cs:186-187 | once the division-by-zero policy is registered, however often, a division by zero is rejected with its error, whatever the left operand is |
| Equation.Minuscule | Infrastructure/Evaluations/Equation.cs:116 | an upper-case letter becomes the lower-case letter at the same place in the alphabet; any other character is unchanged |
| Equation.EnMinuscules | Infrastructure/Evaluations/Equation.cs:116 | lower-casing keeps the length and lower-cases each character |
| Equation.Blancs | Infrastructure/Evaluations/Equation.cs:15 | the length of the leading whitespace, which is followed by a non-whitespace character or the end |
| Equation.LongueurSansBlancsFinaux | Infrastructure/Evaluations/Equation.cs:15 | the length without the trailing whitespace, which ends on a non-whitespace character |
| Equation.TrimPropre | Infrastructure/Evaluations/Equation.cs:15 | trimming empties exactly a blank string; otherwise the result neither starts nor ends with whitespace, is the input from its first non-blank character on, and only whitespace follows it in the input |
| Equation.SauterEspaces | Infrastructure/Evaluations/Equation.cs:31 | the whitespace after a sign is skipped up to the first non-whitespace character or the end |
| Equation.FinNombre | Infrastructure/Evaluations/Equation.cs:93-99 | the number read is the longest run of digits holding at most one point; it stops before a second point, and it is non-empty when it starts on a digit or a point |
| Equation.FinIdentifiant | Infrastructure/Evaluations/Equation.cs:115 | a name is the longest run of letters |
| Equation.PositionPoint | Infrastructure/Evaluations/Equation.cs:101-106 | the position of the first point of a span, or its length when it has none |
| Equation.ValeurDecimale | Infrastructure/Evaluations/Equation.cs:101-106 | a run of digits and at most one point has no value exactly when it has no digit (empty, or a lone point); any value is non-negative |
| Equation.LireNombre | Infrastructure/Evaluations/Equation.cs:88-107 | returns the end of the longest run of digits with at most one point, and that run's value |
| Equation.LireIdentifiant | Infrastructure/Evaluations/Equation.cs:112-118 | returns the end of the run of letters, and the run lower-cased |
| Equation.LireEntree | Infrastructure/Evaluations/Equation.cs:19-67 | one turn of the scan moves forward; it yields no token exactly on whitespace, and every token it yields is well formed; it fails only with the malformed-negative-number, malformed-number or invalid-character errors |
| Equation.LireEntreeAiguillage | Infrastructure/Evaluations/Equation.cs:23-63 | a turn dispatches on the character: `(` and `)` give their parenthesis token, `+ * / ^` the one-character operator token, a `-` in a sign position the signed reading, a digit or a point the unsigned reading, and a letter the lower-cased run of letters as a function token |
| Equation.LireNegatif | Infrastructure/Evaluations/Equation.cs:28-41 | a sign skips whitespace and reads the longest run of digits with at most one point; it fails with the malformed-negative-number error exactly when that run has no digit, and otherwise gives the number token of the run with `-` in front, valued at minus the run's value, and resumes after the run |
| Equation.LireNegatifLu | Infrastructure/Evaluations/Equation.cs:33-40 | the token of a sign carries a `-` in its text and the negated value of the digits after it |
| Equation.NombreSigne | Infrastructure/Evaluations/Equation.cs:39-40 | a number token made of `-` and a run of digits, valued at minus the run's value, holds its text's value |
| Equation.LirePositif | Infrastructure/Evaluations/Equation.cs:48-56 | a digit or a point reads the longest run of digits with at most one point; it fails with the malformed-number error exactly when the run has no digit, and otherwise gives the number token of the run, valued at the run's value, with no sign, and resumes after the run |
| Equation.GenreParTexte | Infrastructure/Evaluations/Equation.cs:23-63 | on a token the tokenizer emits, the text `(` is exactly an opening parenthesis, `)` exactly a closing one, and an operator symbol exactly an operator |
| Equation.LireEntreeLue | Infrastructure/Evaluations/Equation.cs:33-54 | every number token of a turn holds the value of its digits, negated after a leading `-` |
| Equation.Ajouter | Infrastructure/Evaluations/Equation.cs:23-63 | emitting a token only appends to the list, and keeps every token well formed and every number token holding its text's value |
| Equation.AnalyserLues | Infrastructure/Evaluations/Equation.cs:17-68 | every number token of a scan holds the value of its digits, negated after a leading `-` |
| Equation.Analyser | Infrastructure/Evaluations/Equation.cs:17-70 | the scan only appends well-formed tokens and fails only with the three tokenizer errors |
| Equation.TraiterCaractere | Infrastructure/Evaluations/Equation.cs:19-67 | the loop body computes exactly the turn `LireEntree` specifies |
| Equation.ExtraireEntrees | Infrastructure/Evaluations/Equation.cs:12-71 | the tokenizer returns exactly the scan of the trimmed expression, `EntreesDe` |
| Equation.LireEntreeAutorise | Infrastructure/Evaluations/Equation.cs:21-67 | a turn fails with the invalid-character error exactly on a character outside whitespace, parentheses, the five operators, digits, the point and letters; a successful turn consumes only such characters |
| Equation.AnalyserAutorise | Infrastructure/Evaluations/Equation.cs:17-67 | a successful scan has seen only accepted characters; an invalid-character failure names a rejected character of the input; an input of accepted characters never fails that way |
| Equation.LireEntreeForme | Infrastructure/Evaluations/Equation.cs:19-67 | a turn either copies one parenthesis or operator character as the token text, or consumes a span free of those symbols |
| Equation.AnalyserSymboles | Infrastructure/Evaluations/Equation.cs:23-26 | each `(`, `)`, `+`, `*`, `/` and `^` of the input gives one token with that text: the tokens with that text are as many as its occurrences in the input |
| Equation.LireEntreeMoins | Infrastructure/Evaluations/Equation.cs:76-83 | a `-` is emitted as an operator only when it is not in a sign position |
| Equation.LireEntreeMoinsBinaire | Infrastructure/Evaluations/Equation.cs:25-44 | conversely, a `-` that is not in a sign position is read as the one-character operator token `-` |
| Equation.LireEntreeSigne | Infrastructure/Evaluations/Equation.cs:25-40 | a turn yields a number whose text starts with `-` only from a `-` in a sign position |
| Equation.AjouterSignes | Infrastructure/Evaluations/Equation.cs:39 | appending a signed number read in a sign position keeps every signed number in a sign position |
| Equation.AnalyserMoinsBinaires | Infrastructure/Evaluations/Equation.cs:26-45 | every `-` operator token follows a number or a closing parenthesis |
| Equation.AnalyserSignes | Infrastructure/Evaluations/Equation.cs:26-45 | every number token read with a sign is first, or follows an operator, an opening parenthesis or a function name: the two positions of a `-` are told apart in both directions |
| Equation.EntreesDeProprietes | Infrastructure/Evaluations/Equation.cs:12-83 | the tokens of an expression are well formed, every number token holds the value of its digits (negated after a leading `-`), and the expression holds only accepted characters; each simple symbol gives one token; every `-` operator follows an operand, and every signed number stands where a `-` is a sign |
| Conversion.Inverse | Infrastructure/Evaluations/CalculerEquation.cs:74-80 | popping a stack to the output yields its elements in reverse order |
| Conversion.Depiler | Infrastructure/Evaluations/CalculerEquation.cs:122-141 | the loop of the operator step only shrinks the stack, and fails only on a missing dictionary key |
| Conversion.DepilerSuffixe | Infrastructure/Evaluations/CalculerEquation.cs:122-141 | the loop pops a suffix of the stack and appends it to the output in pop order |
| Conversion.DepilerDepiles | Infrastructure/Evaluations/CalculerEquation.cs:126-139 | every popped token is a function, or an operator of higher precedence than the incoming one (or equal precedence when the incoming one is left-associative) |
| Conversion.DepilerArret | Infrastructure/Evaluations/CalculerEquation.cs:122-140 | the loop stops on an empty stack or on the first token it may not pop |
| Conversion.DepilerErreur | Infrastructure/Evaluations/CalculerEquation.cs:132-133 | a lookup fails only for a symbol with no strategy, the incoming operator's or a stacked operator's |
| Conversion.TraiterOperateur | Infrastructure/Evaluations/CalculerEquation.cs:120-144 | the method leaves the state `ApresOperateur` specifies: the loop's result with the operator pushed |
| Conversion.DepilerJusquaGauche | Infrastructure/Evaluations/CalculerEquation.cs:148-149 | the loop of the closing-parenthesis step only shrinks the stack |
| Conversion.JusquaGaucheResultat | Infrastructure/Evaluations/CalculerEquation.cs:148-149 | that loop pops, in pop order, everything above the nearest opening parenthesis, which is then on top |
| Conversion.ApresParentheseDroite | Infrastructure/Evaluations/CalculerEquation.cs:146-158 | a closing parenthesis fails with the unbalanced-parentheses error exactly when no opening parenthesis is stacked |
| Conversion.TraiterParentheseDroite | Infrastructure/Evaluations/CalculerEquation.cs:146-158 | the method leaves the state `ApresParentheseDroite` specifies |
| Conversion.Vider | Infrastructure/Evaluations/CalculerEquation.cs:74-80 | the final loop succeeds exactly when no parenthesis is left on the stack, and then appends the stack in pop order; otherwise the unbalanced-parentheses error |
| Conversion.ConvertirDepuis | Infrastructure/Evaluations/CalculerEquation.cs:48-82 | the conversion fails only with unbalanced parentheses or a missing dictionary key |
| Conversion.ConvertirEnRpn | Infrastructure/Evaluations/CalculerEquation.cs:43-83 | the method returns exactly `Rpn`, the conversion of the token list |
| ProprietesConversion.ParmiConcat | Infrastructure/Evaluations/CalculerEquation.cs:48-80 | filtering tokens by kind distributes over concatenation |
| ProprietesConversion.ParmiInverse | Infrastructure/Evaluations/CalculerEquation.cs:74-80 | reversing a stack keeps the same tokens of each kind |
| ProprietesConversion.EtapeProprietes | Infrastructure/Evaluations/CalculerEquation.cs:48-71 | one token keeps the stack well formed, with one opening parenthesis per unclosed one; the output stays free of parentheses with the numbers in order, and no non-parenthesis token is lost; a step fails exactly on an unmatched closing parenthesis |
| ProprietesConversion.ConvertirDepuisSucces | Infrastructure/Evaluations/CalculerEquation.cs:48-80 | from any reachable state, the conversion succeeds exactly when no prefix closes more parentheses than it opens and the whole list closes all it opens |
| ProprietesConversion.RpnProprietes | Infrastructure/Evaluations/CalculerEquation.cs:43-83 | with a strategy for every operator, the conversion succeeds exactly on balanced parentheses and otherwise reports unbalanced parentheses; its output holds no parenthesis, every number, function and operator exactly once, and the numbers in input order |
| Evaluation.Construire | Infrastructure/Evaluations/CalculerEquation.cs:16-25 | the constructor succeeds exactly when no two strategies share a symbol, and keeps the policies; the dictionary's keys are the strategies' symbols, each mapped to its strategy |
| Evaluation.ConstruireParDefaut | Program.cs:12-24 | the program's wiring builds the five-operator dictionary with the division-by-zero policy |
| Evaluation.AppliquerFonction | Infrastructure/Evaluations/CalculerEquation.cs:160-177 | a function succeeds exactly on a non-empty stack, the name `sqrt` and a non-negative top; the top is then replaced by its square root; otherwise the missing-argument, unknown-function or negative-square-root error, checked in that order |
| Evaluation.EvaluerFonction | Infrastructure/Evaluations/CalculerEquation.cs:160-177 | the method returns exactly `AppliquerFonction` |
| Evaluation.AppliquerOperateurProprietes | Infrastructure/Evaluations/CalculerEquation.cs:178-193 | an operator succeeds exactly when two operands are present, every policy passes, the symbol has a strategy and the strategy computes; the two operands are then replaced by the value; each failure has its own error, in this order: missing operands, the first failing policy's verdict, the unknown-operator error, and the strategy's own error passed through |
| Evaluation.EvaluerOperateur | Infrastructure/Evaluations/CalculerEquation.cs:178-193 | the method, with its loop over the policies, returns exactly `AppliquerOperateur` |
| Evaluation.PremiereViolationEst | Infrastructure/Evaluations/CalculerEquation.cs:186-187 | the first policy to fail in registration order is the one whose error is reported |
| Evaluation.EvaluerRpn | Infrastructure/Evaluations/CalculerEquation.cs:88-114 | the method returns exactly `ValeurRpn` |
| Evaluation.Evaluer | Infrastructure/Evaluations/CalculerEquation.cs:30-38 | the method returns exactly `ValeurExpression`: a blank expression is refused, then the tokens are converted and evaluated |
| ProprietesEvaluation.EvaluerEntreeErreur | Infrastructure/Evaluations/CalculerEquation.cs:92-107 | one token fails only with an evaluation error, and never with the division strategy's own error once the division-by-zero policy is registered |
| ProprietesEvaluation.EvaluerDepuisErreur | Infrastructure/Evaluations/CalculerEquation.cs:92-108 | the same for a whole postfix list |
| ProprietesEvaluation.EvaluerDepuisHauteur | Infrastructure/Evaluations/CalculerEquation.cs:92-108 | each number raises the stack by one, each operator lowers it by one, and functions and parentheses leave it alone |
| ProprietesEvaluation.ValeurRpnSolde | Infrastructure/Evaluations/CalculerEquation.cs:110-113 | the invalid-expression error comes exactly when every token goes through but the numbers are not one more than the operators; a value is the single number left |
| ProprietesEvaluation.Connues | Infrastructure/Evaluations/CalculerEquation.cs:132-133 | with a strategy for each of the five symbols, every operator token the tokenizer emits has a strategy |
| ProprietesEvaluation.EvaluationErreurs | Infrastructure/Evaluations/CalculerEquation.cs:30-38 | with the five symbols covered: the empty-expression error comes exactly on blank input, and a missing key is never reported; unbalanced parentheses are reported exactly when the tokens' parentheses do not match; with the policy registered, the division strategy's own error never appears |
| ProprietesEvaluation.SymbolesParentheses | Infrastructure/Evaluations/Equation.cs:23-24 | among the tokens the tokenizer emits, those with text `(` are exactly the opening parentheses and those with text `)` exactly the closing ones |
| ProprietesEvaluation.ParenthesesDuTexte | Infrastructure/Evaluations/CalculerEquation.cs:30-38 | with the five symbols covered, an expression with different numbers of `(` and `)` characters is rejected with the unbalanced-parentheses error |
| ProprietesEvaluation.ParDefautSansDivisionParZero | Program.cs:22-24 | under the program's wiring no expression ever reaches the division strategy's own zero check |
| Exemples.Entrees3FoisMoins2 | Infrastructure/Evaluations/Equation.cs:26-44 | `3*-2` is the three tokens `3`, `*` and the number `-2` |
| Exemples.SigneSansNombre | Infrastructure/Evaluations/Equation.cs:33-37 | a sign followed by `(` fails with the malformed-negative-number error |
| Exemples.FoisMoins | Infrastructure/Evaluations/CalculerEquation.cs:135-137 | the tokens of `3*-2` convert to `3 -2 *` |
| Exemples.ProduitNegatifEvalue | Infrastructure/Evaluations/CalculerEquation.cs:88-114 | `3 -2 *` evaluates to -6 |
| Exemples.Valeur3FoisMoins2 | Infrastructure/Evaluations/CalculerEquation.cs:30-38 | `3*-2` evaluates to -6 |
| Exemples.EntreesCinq | Infrastructure/Evaluations/Equation.cs:25-53 | a digit, an operator, a digit, an operator and a digit are five tokens, each operator (a `-` included) read as an operator |
| Exemples.PuissanceADroite | Infrastructure/Evaluations/CalculerEquation.cs:135-137 | the string `2^3^2` is five tokens, which convert to `2 3 2 ^ ^` |
| Exemples.PuissancesEvaluees | Infrastructure/Evaluations/CalculerEquation.cs:88-114 | `2 3 2 ^ ^` evaluates to 2^(3^2) |
| Exemples.PuissanceADroiteValeur | Infrastructure/Evaluations/CalculerEquation.cs:30-38 | the string `2^3^2` evaluates to 2^(3^2) |
| Exemples.MoinsAGauche | Infrastructure/Evaluations/CalculerEquation.cs:135-137 | the string `1-2-3` is five tokens with both `-` as operators, which convert to `1 2 - 3 -` |
| Exemples.SoustractionsEvaluees | Infrastructure/Evaluations/CalculerEquation.cs:88-114 | `1 2 - 3 -` evaluates to -4 |
| Exemples.MoinsAGaucheValeur | Infrastructure/Evaluations/CalculerEquation.cs:30-38 | the string `1-2-3` evaluates to -4 |
| Exemples.ProduitAvantSomme | Infrastructure/Evaluations/CalculerEquation.cs:135-137 | the string `1+2*3` is five tokens, which convert to `1 2 3 * +` |
| Exemples.ProduitEtSommeEvalues | Infrastructure/Evaluations/CalculerEquation.cs:88-114 | `1 2 3 * +` evaluates to 7 |
| Exemples.ProduitAvantSommeValeur | Infrastructure/Evaluations/CalculerEquation.cs:30-38 | the string `1+2*3` evaluates to 7 |
| Exemples.DivisionParZeroExemple | Infrastructure/Evaluations/CalculerEquation.cs:186-192 | `1 0 /` is rejected by the policy when it is registered, and by the division strategy when no policy is |
| Exemples.DeuxNombres | Infrastructure/Evaluations/CalculerEquation.cs:110-111 | `1 2` leaves two values: an invalid expression |

## Left out

- The console loop of Program.cs (reading lines, `exit`/`q`, printing results and error messages) is I/O. Only its wiring of five strategies and one policy is modelled.
- Application/CalculerExpression.cs forwards to `Evaluer` and adds nothing.
- Exception types and message texts are not modelled. Each exception is one `Erreur` constructor.
- `decimal` arithmetic is modelled on `real`. The 28-digit precision, rounding and overflow of `decimal` are not modelled, nor are the `double` round trips of `Math.Pow` and `Math.Sqrt`. Those two are arbitrary functions in `Maths`.
- `char.IsWhiteSpace`, `char.IsDigit`, `char.IsLetter` and `ToLowerInvariant` are modelled on ASCII: space and tab to carriage return, `0`-`9`, and `a`-`z`/`A`-`Z`. Other Unicode whitespace, digits and letters are not.
- Equation.LireNegatif: the text of a number token is the span read (with `-` in front for a sign), not `decimal.ToString(CultureInfo.InvariantCulture)` of its value, which would give `0.5` for `.5` and `0` for `-0`. The value is exactly the value of that span, and `LireNegatifLu`, `LireEntreeLue`, `AnalyserLues` and `GenreParTexte` are stated on the model's text.
- Equation.LirePositif: the same holds for an unsigned number: its text is the span read.
- Equation.ValeurDecimale: `decimal.TryParse` is modelled as the exact value of the digits, so a number too large for `decimal` does not fail.
- Strategies.Strategie.Calculer: the `Soustraction` strategy's file is not part of this model. Its behaviour (`-`, precedence 1, left-associative, `gauche - droite`) is modelled by analogy with Addition.cs.
- Strategies.Strategie.Calculer: on real numbers only Division fails. In the program the other strategies can fail as well. Addition, Soustraction and Multiplication throw `OverflowException` when the result is outside the `decimal` range. Puissance casts `Math.Pow`'s `double` result to `decimal`, which throws `OverflowException` whenever `Math.Pow` returns NaN or an infinity (`0^-1`, `(-8)^0.5`) or a value outside that range. None of these failures is modelled.
- Politiques.Politique: `IPolicy` is an open interface, but the model closes it to `DivisionParZeroPolicy`, the only policy in the source. A policy registered before it that also rejects a division by zero would report its own error first. The model does not capture that, so `DivisionParZeroToujoursRejetee` and the "no strategy division-by-zero error" results rely on the closed set.
- Evaluation.Construire: the null-argument checks of the constructor are not modelled, since Dafny values cannot be null. The `Equation` instance it stores is stateless, so it is not a field.
- Equation.ExtraireEntrees: the body of the scan loop is the method `TraiterCaractere`. The source sets `index = nouvelIndex - 1` and then lets the loop's `index++` move on. The model sets `index := suivant` in one step, which reaches the same position.
- Equation.AnalyserSignes: a signed number is recognised by its text starting with `-`. This holds for the text the model keeps (the span read, with `-` in front). In the program the text is `decimal.ToString`, which gives `0` without a sign for `-0`.
