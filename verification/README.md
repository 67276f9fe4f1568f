# eMoflon ILP: problem model, lowering passes and CPLEX translation

This project models the solver-independent core of the eMoflon ILP library.
A user builds a `Problem` with this library. The problem holds:

- an objective function, to be minimised or maximised;
- linear and quadratic constraints;
- SOS1 constraints;
- Or constraints, each a disjunction of linear constraints;
- a registry that maps each variable name to a variable.

Before a problem is handed to a solver back end, three lowering passes
rewrite it:

- `substituteOr` encodes every Or constraint as linear and SOS1 constraints.
- `substituteOperators` rewrites `<`, `>` and `!=` into `<=`, `>=`, `=` and SOS1 constraints.
- `substituteSOS1` replaces every SOS1 constraint by big-M linear constraints over fresh binary indicator variables.

The CPLEX back end's `buildILPProblem` runs the first two passes. It then
translates:

- the variables, with the optional bound override from the solver configuration;
- the expanded objective, whose linear coefficients are merged per variable;
- the constraints;
- the SOS1 constraints, whose duplicate weights are replaced.

The model is value-based. Java objects and lists become immutable
datatypes and sequences, and every mutator is a function that returns the
new state. A thrown exception becomes a `Failure` of `Wrappers.Result`
that carries the exception's message. A variable value is an
`Assignment`: a map from variable names to reals.

Modules:

- `Variables`: the three variable classes and their bound flags.
- `Operators`: the operator enum.
- `Expressions`: terms, functions and `expand`.
- `Constraints`: linear and SOS1 constraints.
- `Sos1Encoding`: `SOS1Constraint.convert`.
- `OperatorRewrite`: `LinearConstraint.convertOperator`.
- `OrEncoding`: `OrConstraint`. `ConvertAsWritten` is `convert` as the source has it, closing with `sum of s_i >= 0`, and the passes use it. `Convert` is the corrected conversion, closing with `sum of s_i >= 1` (see Findings).
- `Registry`: the variable map.
- `Problems`: `Problem`'s add, remove, count and objective operations.
- `Passes`: the three substitutions and the `set*Constraints` methods.
- `Pipeline`: the passes in sequence.
- `Objectives`: `Objective`'s strict `setObjective`.
- `Cplex`: the pure parts of `CplexSolver`.
- `Scenarios`: the repository's unit tests restated as lemmas, plus two worked examples: the Or constraint `Or(x <= 3, y >= 10)` and an objective with a nested function.

## Model

| member | source | states |
|---|---|---|
| FreshNames.FreshName | org.emoflon.ilp/src/org/emoflon/ilp/LinearConstraint.java:189-190 | an auxiliary variable's name is its family prefix followed by a non-empty digit string |
| FreshNames.FamiliesDisjoint | org.emoflon.ilp/src/org/emoflon/ilp/OrConstraint.java:84-104 | names of two families whose prefixes differ at a common position never collide, whatever their counters |
| FreshNames.ExtendedFamilyDisjoint | org.emoflon.ilp/src/org/emoflon/ilp/OrConstraint.java:84-86 | a family (`s_`) and its extension by a non-digit (`s_prime_`) never share a name |
| Variables.NewBinary | org.emoflon.ilp/src/org/emoflon/ilp/BinaryVariable.java:12-25 | a new binary variable has bounds 0 and 1 and value 0 |
| Variables.NewInteger | org.emoflon.ilp/src/org/emoflon/ilp/IntegerVariable.java:12-28 | a new integer variable has bounds -10000 and 10000, value 0, and both bounds flagged as default |
| Variables.NewReal | org.emoflon.ilp/src/org/emoflon/ilp/RealVariable.java:12-28 | a new real variable has bounds -10000.0 and 10000.0, value 0, and both bounds flagged as default |
| Variables.Value | org.emoflon.ilp/src/org/emoflon/ilp/BinaryVariable.java:33-35 | a binary variable's value is 0 or 1 |
| Variables.SetBinaryValue | org.emoflon.ilp/src/org/emoflon/ilp/BinaryVariable.java:38-40 | setting a binary value stores 0 for 0 and 1 for any other integer; bounds and name stay |
| Variables.SetIntUpperBound | org.emoflon.ilp/src/org/emoflon/ilp/IntegerVariable.java:51-54 | the upper bound becomes the argument and loses its default flag; lower bound, its flag and the value stay |
| Variables.SetIntLowerBound | org.emoflon.ilp/src/org/emoflon/ilp/IntegerVariable.java:73-76 | the lower bound becomes the argument and loses its default flag; upper bound, its flag and the value stay |
| Variables.SetRealUpperBound | org.emoflon.ilp/src/org/emoflon/ilp/RealVariable.java:51-54 | the same for a real upper bound |
| Variables.SetRealLowerBound | org.emoflon.ilp/src/org/emoflon/ilp/RealVariable.java:73-76 | the same for a real lower bound |
| Variables.Apply | org.emoflon.ilp/src/org/emoflon/ilp/IntegerVariable.java:51-76 | a bound setter never changes a variable's type or name |
| Variables.ApplyAll | org.emoflon.ilp/src/org/emoflon/ilp/RealVariable.java:51-76 | a run of bound setters never changes a variable's type or name |
| Variables.DefaultFlagsOnlyClear | org.emoflon.ilp/src/org/emoflon/ilp/IntegerVariable.java:51-87 | after any run of setter calls, a bound is still flagged default exactly when it was before and no setter for it was called |
| Variables.SettersDoNotCheckOrder | org.emoflon.ilp/src/org/emoflon/ilp/RealVariable.java:51-76 | the setters accept a lower bound above the upper bound; only the solver translation refuses it |
| Operators.ToString | org.emoflon.ilp/src/org/emoflon/ilp/Operator.java:11-26 | the printed symbol has one character exactly for `<` and `>` |
| Operators.OperatorRenderings | org.emoflon.ilp/src/org/emoflon/ilp/Operator.java:11-26 | the six operators print as `<`, `<=`, `==`, `>=`, `>` and `!=` |
| Operators.ToStringInjective | org.emoflon.ilp/src/org/emoflon/ilp/Operator.java:11-26 | two operators with the same symbol are the same operator |
| Operators.Negation | org.emoflon.ilp/src/org/emoflon/ilp/OrConstraint.java:96-106 | the complementary operator of an inequality holds exactly where the original fails |
| Expressions.AddTerm | org.emoflon.ilp/src/org/emoflon/ilp/Function.java:24-26 | appending a term adds its value to the function's value and changes nothing else |
| Expressions.AddLinearTerm | org.emoflon.ilp/src/org/emoflon/ilp/Function.java:34-36 | appending `w * v` adds `w` times the value of `v` |
| Expressions.AddQuadraticTerm | org.emoflon.ilp/src/org/emoflon/ilp/QuadraticFunction.java:54-56 | appending `w * v1 * v2` adds that product to the value |
| Expressions.AddConstant | org.emoflon.ilp/src/org/emoflon/ilp/Function.java:52-54 | appending a constant adds it to the value |
| Expressions.AddConstants | org.emoflon.ilp/src/org/emoflon/ilp/Function.java:61-63 | appending constants adds their sum to the value |
| Expressions.AddNestedFunction | org.emoflon.ilp/src/org/emoflon/ilp/Function.java:100-102 | a nested function adds `weight` times its value; a linear function refuses a quadratic one |
| Expressions.ScaleTerm | org.emoflon.ilp/src/org/emoflon/ilp/QuadraticFunction.java:79-86 | scaling a term keeps its kind and variables and multiplies its weight |
| Expressions.Expand | org.emoflon.ilp/src/org/emoflon/ilp/QuadraticFunction.java:59-90 | the expansion has no nested functions, keeps the receiver's shape, starts with the receiver's own terms and constants, and is the receiver itself when nothing is nested |
| Expressions.ExpandPreservesValue | org.emoflon.ilp/src/org/emoflon/ilp/QuadraticFunction.java:59-90 | expanding does not change a function's value under any assignment |
| Expressions.ScaledExpansionValue | org.emoflon.ilp/src/org/emoflon/ilp/QuadraticFunction.java:66-87 | the scaled terms and constants of an expanded nested function are worth its weight times its value |
| Expressions.ExpandIdempotent | org.emoflon.ilp/src/org/emoflon/ilp/QuadraticFunction.java:60-63 | expanding twice is expanding once |
| Expressions.ExpandOneLevel | org.emoflon.ilp/src/org/emoflon/ilp/QuadraticFunction.java:74-86 | one flat nested function contributes its constants and its terms, each multiplied by the nesting weight |
| Expressions.NestedReceivers | org.emoflon.ilp/src/org/emoflon/ilp/QuadraticFunction.java:64-72 | after `expand`, each nested function keeps its weight |
| Expressions.ReceiverGrows | org.emoflon.ilp/src/org/emoflon/ilp/QuadraticFunction.java:64 | since the result shares the receiver's lists, the receiver itself holds the expanded terms and constants yet keeps its nested functions |
| Expressions.ReceiverValueAfterExpand | org.emoflon.ilp/src/org/emoflon/ilp/QuadraticFunction.java:64-87 | a receiver changed that way counts its nested functions twice |
| Expressions.NestedReceiversOfFlat | org.emoflon.ilp/src/org/emoflon/ilp/QuadraticFunction.java:61-63 | flat nested functions are left unchanged by `expand` |
| Constraints.EmptyConstraint | org.emoflon.ilp/src/org/emoflon/ilp/LinearConstraint.java:72-75 | a constraint built from operator, rhs and epsilon has no terms |
| Constraints.SetLhsTerms | org.emoflon.ilp/src/org/emoflon/ilp/LinearConstraint.java:95-100 | the terms are appended unless one is quadratic, in which case the call fails with the library's message |
| Constraints.NewConstraint | org.emoflon.ilp/src/org/emoflon/ilp/LinearConstraint.java:59-62 | construction from terms fails exactly when a term is quadratic |
| Constraints.Copy | org.emoflon.ilp/src/org/emoflon/ilp/LinearConstraint.java:82-87 | the copy equals the original; it fails only when the original holds a quadratic term |
| Constraints.AddTerm | org.emoflon.ilp/src/org/emoflon/ilp/LinearConstraint.java:103-105 | appending a term adds its value to the left-hand side |
| Constraints.AddLinearTerm | org.emoflon.ilp/src/org/emoflon/ilp/LinearConstraint.java:114-116 | appending `w * v` adds `w` times the value of `v` to the left-hand side |
| Constraints.Slack | org.emoflon.ilp/src/org/emoflon/ilp/LinearConstraint.java:189-194 | a slack variable is real with lower bound 0, and only the lower bound has lost its default flag |
| Constraints.UnitWeights | org.emoflon.ilp/src/org/emoflon/ilp/SOS1Constraint.java:40-44 | the default weights are all 1 |
| Constraints.NewSos1 | org.emoflon.ilp/src/org/emoflon/ilp/SOS1Constraint.java:28-31 | a new SOS1 constraint keeps the given variables and weights, bound 100000 and epsilon 0.0001 |
| Constraints.NewUnweightedSos1 | org.emoflon.ilp/src/org/emoflon/ilp/SOS1Constraint.java:40-44 | without weights, each variable gets weight 1 |
| Constraints.NewEmptySos1 | org.emoflon.ilp/src/org/emoflon/ilp/SOS1Constraint.java:49-53 | the empty SOS1 constraint has no variables and no weights |
| Constraints.WithBound | org.emoflon.ilp/src/org/emoflon/ilp/SOS1Constraint.java:158-160 | `setBound` replaces only the big-M bound |
| Constraints.SetVariables | org.emoflon.ilp/src/org/emoflon/ilp/SOS1Constraint.java:114-116 | `setVariables` appends to the variables and leaves the weights alone |
| Constraints.CountNonzero | org.emoflon.ilp/src/org/emoflon/ilp/SOS1Constraint.java:208-210 | the number of non-zero variables, which SOS1 limits to one, is at most the number of variables |
| Constraints.CountNonzeroMeaning | org.emoflon.ilp/src/org/emoflon/ilp/SOS1Constraint.java:208-210 | no variable is non-zero exactly when all are zero, and at most one is non-zero exactly when every pair has a zero |
| Constraints.CountNonzeroPair | org.emoflon.ilp/src/org/emoflon/ilp/LinearConstraint.java:201-206 | SOS1 over two variables holds exactly when one of them is zero |
| Constraints.CountNonzeroTriple | org.emoflon.ilp/src/org/emoflon/ilp/OrConstraint.java:208-214 | SOS1 over three variables holds exactly when two of them are zero |
| Constraints.SplitCounts | org.emoflon.ilp/src/org/emoflon/ilp/Problem.java:396-400 | every converted constraint goes either to the linear list or to the SOS list |
| Sos1Encoding.Indicator | org.emoflon.ilp/src/org/emoflon/ilp/SOS1Constraint.java:192 | a variable's indicator is binary and named `sos_binary_` plus the variable's name |
| Sos1Encoding.IndicatorNameInjective | org.emoflon.ilp/src/org/emoflon/ilp/SOS1Constraint.java:192 | distinct variable names give distinct indicator names |
| Sos1Encoding.Links | org.emoflon.ilp/src/org/emoflon/ilp/SOS1Constraint.java:191-206 | each variable gets an upper and a lower big-M link, in the source's order |
| Sos1Encoding.IndicatorTerms | org.emoflon.ilp/src/org/emoflon/ilp/SOS1Constraint.java:194 | the at-most-one constraint sums each indicator with weight 1 |
| Sos1Encoding.Indicators | org.emoflon.ilp/src/org/emoflon/ilp/SOS1Constraint.java:193 | one indicator per variable, in order |
| Sos1Encoding.Convert | org.emoflon.ilp/src/org/emoflon/ilp/SOS1Constraint.java:186-214 | conversion yields 2n+1 linear constraints: both links per variable, then the sum of indicators `<= 1`; the indicators are appended to the constraint's binary list |
| Sos1Encoding.ConvertIgnoresWeights | org.emoflon.ilp/src/org/emoflon/ilp/SOS1Constraint.java:186-214 | the weights play no part in the conversion |
| Sos1Encoding.LinksForceIndicator | org.emoflon.ilp/src/org/emoflon/ilp/SOS1Constraint.java:196-206 | under both links, a non-zero variable forces its binary indicator to 1 |
| Sos1Encoding.ConvertSound | org.emoflon.ilp/src/org/emoflon/ilp/SOS1Constraint.java:186-214 | any assignment with binary indicators that satisfies the conversion satisfies the SOS1 constraint |
| Sos1Encoding.ConvertComplete | org.emoflon.ilp/src/org/emoflon/ilp/SOS1Constraint.java:186-214 | any SOS1 solution within the bound extends, by setting the indicators, to a solution of the conversion |
| Sos1Encoding.UpperLinkNeedsBound | org.emoflon.ilp/src/org/emoflon/ilp/SOS1Constraint.java:196-200 | a value above the big-M bound violates the upper link, so the bound limits the solutions |
| Sos1Encoding.ConvertWellShaped | org.emoflon.ilp/src/org/emoflon/ilp/SOS1Constraint.java:186-214 | every converted constraint is linear and non-empty exactly when the SOS1 constraint has variables |
| Sos1Encoding.ConvertCanonical | org.emoflon.ilp/src/org/emoflon/ilp/SOS1Constraint.java:186-214 | the conversion uses only `<=` and `>=` |
| Sos1Encoding.LinksShaped | org.emoflon.ilp/src/org/emoflon/ilp/SOS1Constraint.java:196-206 | each link is linear, non-empty and uses `<=` or `>=` |
| OperatorRewrite.PsiNamesDiffer | org.emoflon.ilp/src/org/emoflon/ilp/LinearConstraint.java:189-190 | the two slack variables of one rewrite have different names |
| OperatorRewrite.ConvertOperator | org.emoflon.ilp/src/org/emoflon/ilp/LinearConstraint.java:166-228 | `<` becomes `<= rhs - e`; `>` becomes `>= rhs + e`; `!=` becomes `psi + psi' >= 2e`, SOS1(psi, psi'), `lhs + psi >= rhs + e` and `lhs - psi' <= rhs - e`; other operators give nothing; the copy fails on quadratic terms |
| OperatorRewrite.StrictRewrite | org.emoflon.ilp/src/org/emoflon/ilp/LinearConstraint.java:171-182 | the rewrite of `<` or `>` implies the original and is equivalent to it with an epsilon margin |
| OperatorRewrite.NotEqualSound | org.emoflon.ilp/src/org/emoflon/ilp/LinearConstraint.java:186-221 | every assignment satisfying the `!=` rewrite satisfies `!=` |
| OperatorRewrite.NotEqualComplete | org.emoflon.ilp/src/org/emoflon/ilp/LinearConstraint.java:186-221 | every assignment at least epsilon away from the rhs extends, by slack values, to a solution of the rewrite |
| OperatorRewrite.SlackValuesSatisfy | org.emoflon.ilp/src/org/emoflon/ilp/LinearConstraint.java:186-221 | slack values meeting the four conditions satisfy the whole rewrite |
| OperatorRewrite.NotEqualGap | org.emoflon.ilp/src/org/emoflon/ilp/LinearConstraint.java:208-218 | a left-hand side strictly within epsilon of the rhs satisfies no instance of the rewrite |
| OperatorRewrite.ConvertOperatorWellShaped | org.emoflon.ilp/src/org/emoflon/ilp/LinearConstraint.java:166-228 | a non-empty constraint rewrites into non-empty linear and well-formed SOS1 constraints |
| OrEncoding.NewOr | org.emoflon.ilp/src/org/emoflon/ilp/OrConstraint.java:10-15 | a new Or constraint has the default epsilon 0.0001 |
| OrEncoding.NewOrWithEpsilon | org.emoflon.ilp/src/org/emoflon/ilp/OrConstraint.java:22-26 | an Or constraint with an explicit epsilon keeps it |
| OrEncoding.AddConstraint | org.emoflon.ilp/src/org/emoflon/ilp/OrConstraint.java:54-56 | a disjunct is appended; nothing else changes |
| OrEncoding.SetResultAsWritten | org.emoflon.ilp/src/org/emoflon/ilp/OrConstraint.java:58-64 | as written, `setResult(Variable)` refuses every variable |
| OrEncoding.SetResult | org.emoflon.ilp/src/org/emoflon/ilp/OrConstraint.java:58-64 | corrected: a binary variable is accepted as the result; any other variable is refused |
| OrEncoding.SetResultDiscrepancy | org.emoflon.ilp/src/org/emoflon/ilp/OrConstraint.java:58-64 | a fresh binary variable is refused as written and accepted when corrected |
| OrEncoding.AuxNamesDistinct | org.emoflon.ilp/src/org/emoflon/ilp/OrConstraint.java:84-104 | the four auxiliary variables of one disjunct have pairwise distinct names |
| OrEncoding.Derived | org.emoflon.ilp/src/org/emoflon/ilp/OrConstraint.java:96-106 | a derived constraint is the disjunct's left-hand side plus one weighted auxiliary term |
| OrEncoding.Sum2 | org.emoflon.ilp/src/org/emoflon/ilp/OrConstraint.java:89-93 | a two-variable sum is worth the sum of the two values |
| OrEncoding.Sum3 | org.emoflon.ilp/src/org/emoflon/ilp/OrConstraint.java:216-221 | a three-variable sum is worth the sum of the three values |
| OrEncoding.Block | org.emoflon.ilp/src/org/emoflon/ilp/OrConstraint.java:80-379 | each disjunct expands to a block of seven (inequalities), four (`=`) or five (`!=`) constraints; it fails on a quadratic term; blocks other than `=` open with `s + s' = 1` |
| OrEncoding.Parts | org.emoflon.ilp/src/org/emoflon/ilp/OrConstraint.java:80-381 | the blocks of the disjuncts, the i-th numbered n + i |
| OrEncoding.FlattenLength | org.emoflon.ilp/src/org/emoflon/ilp/OrConstraint.java:80-381 | concatenated blocks have the summed block sizes |
| OrEncoding.ClosingTerms | org.emoflon.ilp/src/org/emoflon/ilp/OrConstraint.java:87 | the closing constraint sums each disjunct's `s` with weight 1 |
| OrEncoding.Convert | org.emoflon.ilp/src/org/emoflon/ilp/OrConstraint.java:76-384 | corrected: conversion fails exactly when a disjunct has a quadratic term; otherwise it yields every block and then the closing `sum of s_i >= 1`, and uses one name index per disjunct |
| OrEncoding.ConvertAsWritten | org.emoflon.ilp/src/org/emoflon/ilp/OrConstraint.java:78 | as written: the same outcome and blocks, closed by `sum of s_i >= 0` instead |
| OrEncoding.BlockCounts | org.emoflon.ilp/src/org/emoflon/ilp/OrConstraint.java:82-375 | a block has 5, 3 or 4 linear constraints and 2, 1 or 1 SOS1 constraints |
| OrEncoding.InequalityShape | org.emoflon.ilp/src/org/emoflon/ilp/OrConstraint.java:82-135 | an inequality block holds `f + phi op k`, `f - phi' (negated op) k` and `phi + s >= 2e`, `phi' + s' >= 2e` |
| OrEncoding.SlackBounds | org.emoflon.ilp/src/org/emoflon/ilp/OrConstraint.java:189-269 | for inequalities `phi` keeps its default bounds; for `=` and `!=` `phi` and `phi'` have lower bound 0 |
| OrEncoding.InequalityIndicator | org.emoflon.ilp/src/org/emoflon/ilp/OrConstraint.java:82-135 | in an inequality block with binary `s`, `s = 1` holds exactly when the disjunct holds |
| OrEncoding.InequalityFacts | org.emoflon.ilp/src/org/emoflon/ilp/OrConstraint.java:82-135 | an inequality block forces `s + s' = 1`, the SOS1 pairings and both slack-shifted constraints |
| OrEncoding.InequalityParts | org.emoflon.ilp/src/org/emoflon/ilp/OrConstraint.java:82-135 | an inequality block's solutions satisfy each of its seven constraints |
| OrEncoding.InequalityValuesSatisfy | org.emoflon.ilp/src/org/emoflon/ilp/OrConstraint.java:82-135 | the converse of `InequalityFacts`: complementary indicators, the SOS1 pairings, the couplings and both slack-shifted constraints make all seven block constraints hold |
| OrEncoding.EqualIndicator | org.emoflon.ilp/src/org/emoflon/ilp/OrConstraint.java:189-224 | in an `=` block, `s = 1` forces the disjunct to hold |
| OrEncoding.EqualValuesSatisfy | org.emoflon.ilp/src/org/emoflon/ilp/OrConstraint.java:189-224 | with `s = 0`, `f = k`, `phi` above epsilon and `phi' = 0`, every constraint of an `=` block holds |
| OrEncoding.EqualIndicatorOneWay | org.emoflon.ilp/src/org/emoflon/ilp/OrConstraint.java:189-224 | the converse fails: a true `=` disjunct admits a solution of its block with `s = 0` |
| OrEncoding.NotEqualIndicator | org.emoflon.ilp/src/org/emoflon/ilp/OrConstraint.java:225-269 | in a `!=` block with binary `s`, a satisfied disjunct forces `s = 1` |
| OrEncoding.NotEqualValuesSatisfy | org.emoflon.ilp/src/org/emoflon/ilp/OrConstraint.java:225-269 | with `s = 1`, `f = k` and a large `phi`, every constraint of a `!=` block holds |
| OrEncoding.NotEqualIndicatorOneWay | org.emoflon.ilp/src/org/emoflon/ilp/OrConstraint.java:225-269 | the converse fails: a `!=` block admits `s = 1` while the disjunct is violated |
| OrEncoding.ClosingVacuous | org.emoflon.ilp/src/org/emoflon/ilp/OrConstraint.java:78 | the closing `sum of s_i >= 0` as written holds whenever the indicators are non-negative, so it does not force a disjunct |
| OrEncoding.ClosingZero | org.emoflon.ilp/src/org/emoflon/ilp/OrConstraint.java:78-87 | with every indicator 0 the closing sum is 0 |
| OrEncoding.ClosingChoosesOne | org.emoflon.ilp/src/org/emoflon/ilp/OrConstraint.java:78-87 | the corrected closing `sum of s_i >= 1` over binary indicators sets some indicator to 1 |
| OrEncoding.AllHoldAppend | org.emoflon.ilp/src/org/emoflon/ilp/OrConstraint.java:382 | a list of constraints holds exactly when both of its halves hold |
| OrEncoding.ConvertClosingHolds | org.emoflon.ilp/src/org/emoflon/ilp/OrConstraint.java:382 | a solution of the corrected conversion satisfies its closing constraint |
| OrEncoding.ConvertChoosesDisjunct | org.emoflon.ilp/src/org/emoflon/ilp/OrConstraint.java:76-384 | every solution of the corrected conversion with binary indicators has a disjunct whose indicator is 1 and which holds, unless it is a `!=` disjunct |
| OrEncoding.ChoosesFromFacts | org.emoflon.ilp/src/org/emoflon/ilp/OrConstraint.java:76-384 | the choice step: a met closing constraint and the per-disjunct indicator meanings yield such a disjunct |
| OrEncoding.ChosenMeaning | org.emoflon.ilp/src/org/emoflon/ilp/OrConstraint.java:80-379 | an indicator of 1 makes its disjunct hold, except for `!=` |
| OrEncoding.ConvertSound | org.emoflon.ilp/src/org/emoflon/ilp/OrConstraint.java:76-384 | without `!=` disjuncts, every solution of the corrected conversion with binary indicators satisfies the disjunction |
| OrEncoding.ConvertIndicator | org.emoflon.ilp/src/org/emoflon/ilp/OrConstraint.java:76-384 | in any solution of the conversion, each disjunct's binary `s` means what its block makes it mean |
| OrEncoding.ConvertBlocksHold | org.emoflon.ilp/src/org/emoflon/ilp/OrConstraint.java:76-384 | a solution of the conversion satisfies every block |
| OrEncoding.BlockIndicator | org.emoflon.ilp/src/org/emoflon/ilp/OrConstraint.java:80-379 | within a satisfied block, the indicator means the same as the operator's case says |
| OrEncoding.BlockWellShaped | org.emoflon.ilp/src/org/emoflon/ilp/OrConstraint.java:80-379 | every block constraint is linear and non-empty, and every block SOS1 constraint has variables and matching weights |
| OrEncoding.ConvertWellShaped | org.emoflon.ilp/src/org/emoflon/ilp/OrConstraint.java:76-384 | the whole conversion, corrected or as written, is well formed exactly when the Or constraint has a disjunct |
| OrEncoding.ConvertSplit | org.emoflon.ilp/src/org/emoflon/ilp/OrConstraint.java:76-384 | the linear and SOS1 counts of a conversion, corrected or as written |
| OrEncoding.BlockStrict | org.emoflon.ilp/src/org/emoflon/ilp/OrConstraint.java:80-379 | each block contains a `<`, `>` or `!=` constraint |
| OrEncoding.ConvertStrict | org.emoflon.ilp/src/org/emoflon/ilp/OrConstraint.java:76-384 | a conversion with a disjunct, corrected or as written, contains a `<`, `>` or `!=` constraint |
| OrEncoding.ClosedWellShaped | org.emoflon.ilp/src/org/emoflon/ilp/OrConstraint.java:76-384 | the blocks closed by `sum of s_i >= rhs`, for any `rhs`, are well formed exactly when there is a disjunct |
| OrEncoding.ClosedSplit | org.emoflon.ilp/src/org/emoflon/ilp/OrConstraint.java:76-384 | the linear and SOS1 counts of the blocks closed by `sum of s_i >= rhs`, for any `rhs` |
| OrEncoding.ClosedStrict | org.emoflon.ilp/src/org/emoflon/ilp/OrConstraint.java:76-384 | with a disjunct, the blocks closed by `sum of s_i >= rhs` contain a strict constraint, for any `rhs` |
| Registry.Register | org.emoflon.ilp/src/org/emoflon/ilp/Problem.java:272-276 | registering adds each variable's name; the last variable of a name wins; other entries stay |
| Registry.NamesCons | org.emoflon.ilp/src/org/emoflon/ilp/Problem.java:272-276 | the names of a list are its head's name and its tail's names |
| Registry.TermVariables | org.emoflon.ilp/src/org/emoflon/ilp/Problem.java:272-276 | a linear term names its variable; a quadratic term names both |
| Registry.TermsVariables | org.emoflon.ilp/src/org/emoflon/ilp/Problem.java:272-276 | the registered names are exactly the variables the terms mention |
| Registry.TermNames | org.emoflon.ilp/src/org/emoflon/ilp/Problem.java:272-276 | the names a term contributes are its one or two variables' names |
| Registry.FirstVariables | org.emoflon.ilp/src/org/emoflon/ilp/Problem.java:324-327 | a disjunct contributes the first variable of each of its terms |
| Registry.NamesAppend | org.emoflon.ilp/src/org/emoflon/ilp/Problem.java:289-291 | the names of two lists together are the union of their names |
| Registry.FirstIndex | org.emoflon.ilp/src/org/emoflon/ilp/Problem.java:340-342 | the first occurrence of an element |
| Registry.RemoveFirst | org.emoflon.ilp/src/org/emoflon/ilp/Problem.java:340-342 | `List.remove` drops exactly the first equal element and reports whether there was one |
| Problems.NewProblem | org.emoflon.ilp/src/org/emoflon/ilp/Problem.java:15-29 | a new problem has no objective, type MIN, no constraints and no variables |
| Problems.AddNormal | org.emoflon.ilp/src/org/emoflon/ilp/Problem.java:267-278 | a normal constraint with terms is appended and its variables registered; without terms it is refused |
| Problems.AddGeneral | org.emoflon.ilp/src/org/emoflon/ilp/Problem.java:285-294 | a general constraint with variables is appended, and its variables and its result are registered |
| Problems.AddSos | org.emoflon.ilp/src/org/emoflon/ilp/Problem.java:302-312 | an SOS1 constraint is refused without variables or with mismatched weights; otherwise appended and registered |
| Problems.DisjunctVariables | org.emoflon.ilp/src/org/emoflon/ilp/Problem.java:324-327 | every first variable of every disjunct's terms is registered |
| Problems.AddOr | org.emoflon.ilp/src/org/emoflon/ilp/Problem.java:320-330 | an Or constraint with disjuncts is appended and its disjuncts' first variables registered |
| Problems.AddCounts | org.emoflon.ilp/src/org/emoflon/ilp/Problem.java:210-258 | a successful `add` raises its own count and the total by one |
| Problems.AddNormalRegisters | org.emoflon.ilp/src/org/emoflon/ilp/Problem.java:272-276 | after `add`, the registry holds the old names plus exactly the constraint's variables |
| Problems.SameNameOverwrites | org.emoflon.ilp/src/org/emoflon/ilp/Problem.java:274 | of two variables with the same name, the one registered last stays in the registry |
| Problems.RemoveNormal | org.emoflon.ilp/src/org/emoflon/ilp/Problem.java:340-342 | `remove` drops the first equal constraint, reports whether one was found, and leaves the registry alone |
| Problems.RemoveGeneral | org.emoflon.ilp/src/org/emoflon/ilp/Problem.java:352-354 | the same for general constraints |
| Problems.RemoveSos | org.emoflon.ilp/src/org/emoflon/ilp/Problem.java:364-366 | the same for SOS1 constraints |
| Problems.RemoveOr | org.emoflon.ilp/src/org/emoflon/ilp/Problem.java:376-378 | the same for Or constraints |
| Problems.RemoveCounts | org.emoflon.ilp/src/org/emoflon/ilp/Problem.java:210-258 | a successful `remove` lowers its count and the total by one; the variable count stays |
| Problems.AddThenRemove | org.emoflon.ilp/src/org/emoflon/ilp/Problem.java:267-342 | removing a newly added constraint restores the list, but its variables stay registered |
| Problems.SetObjective | org.emoflon.ilp/src/org/emoflon/ilp/Problem.java:165-179 | a missing objective becomes an empty linear function; otherwise the objective is set and the variables of its top-level terms registered |
| Problems.SetObjectiveAndType | org.emoflon.ilp/src/org/emoflon/ilp/Problem.java:190-193 | sets the objective as `setObjective` does, and the type; nothing else changes |
| Problems.ResetObjective | org.emoflon.ilp/src/org/emoflon/ilp/Problem.java:198-203 | `setObjective()` replaces an existing objective by an empty linear function and fails on a missing one |
| Problems.NestedNotRegistered | org.emoflon.ilp/src/org/emoflon/ilp/Problem.java:170-176 | a variable used only inside a nested function is not registered |
| Problems.RegisteredGrows | org.emoflon.ilp/src/org/emoflon/ilp/Problem.java:267-330 | a larger registry keeps every constraint's variables registered |
| Problems.AddKeepsInvariants | org.emoflon.ilp/src/org/emoflon/ilp/Problem.java:267-330 | every successful `add` keeps the problem well formed and every variable it mentions registered |
| Problems.AddNormalKeeps | org.emoflon.ilp/src/org/emoflon/ilp/Problem.java:267-278 | the same for normal constraints |
| Problems.AddGeneralKeeps | org.emoflon.ilp/src/org/emoflon/ilp/Problem.java:285-294 | the same for general constraints |
| Problems.AddSosKeeps | org.emoflon.ilp/src/org/emoflon/ilp/Problem.java:302-312 | the same for SOS1 constraints |
| Problems.AddOrKeeps | org.emoflon.ilp/src/org/emoflon/ilp/Problem.java:320-330 | the same for Or constraints |
| Problems.NewProblemInvariants | org.emoflon.ilp/src/org/emoflon/ilp/Problem.java:15-29 | a new problem meets both invariants |
| Passes.AsNormal | org.emoflon.ilp/src/org/emoflon/ilp/Problem.java:397-398 | linear constraints are used as normal constraints, in order |
| Passes.AddNormals | org.emoflon.ilp/src/org/emoflon/ilp/Problem.java:59-63 | `setConstraints` adds each constraint in turn; it fails exactly when one has no terms |
| Passes.AddGenerals | org.emoflon.ilp/src/org/emoflon/ilp/Problem.java:70-74 | `setGenConstraints` adds each in turn; it fails exactly when one has no variables |
| Passes.AddSoss | org.emoflon.ilp/src/org/emoflon/ilp/Problem.java:82-86 | `setSOSConstraints` adds each in turn; it fails exactly when one is refused by `add` |
| Passes.AddOrs | org.emoflon.ilp/src/org/emoflon/ilp/Problem.java:94-98 | `setOrConstraints` adds each in turn; it fails exactly when one has no disjuncts |
| Passes.NormalsCons | org.emoflon.ilp/src/org/emoflon/ilp/Problem.java:59-63 | a list is accepted exactly when its head and its tail are |
| Passes.SossCons | org.emoflon.ilp/src/org/emoflon/ilp/Problem.java:82-86 | the same for SOS1 lists |
| Passes.GeneralsCons | org.emoflon.ilp/src/org/emoflon/ilp/Problem.java:70-74 | the same for general lists |
| Passes.OrsCons | org.emoflon.ilp/src/org/emoflon/ilp/Problem.java:94-98 | the same for Or lists |
| Passes.AddNormalsKeeps | org.emoflon.ilp/src/org/emoflon/ilp/Problem.java:59-63 | adding a list keeps both invariants |
| Passes.AddSossKeeps | org.emoflon.ilp/src/org/emoflon/ilp/Problem.java:82-86 | the same for SOS1 lists |
| Passes.WellShapedLinearsNonEmpty | org.emoflon.ilp/src/org/emoflon/ilp/Problem.java:404 | the linear members of well-formed conversions are accepted by `add` |
| Passes.WellShapedSossShaped | org.emoflon.ilp/src/org/emoflon/ilp/Problem.java:405 | the SOS1 members of well-formed conversions are accepted by `add` |
| Passes.ConvertOrs | org.emoflon.ilp/src/org/emoflon/ilp/Problem.java:395-401 | converting all Or constraints with `convert` as written fails exactly when a disjunct is quadratic; it uses one name index per disjunct and yields the summed sizes |
| Passes.ConvertOrsShaped | org.emoflon.ilp/src/org/emoflon/ilp/Problem.java:395-401 | Or constraints with disjuncts convert into well-formed constraints |
| Passes.ConvertOrsSplit | org.emoflon.ilp/src/org/emoflon/ilp/Problem.java:395-401 | the linear and SOS1 counts of all conversions together |
| Passes.SubstituteOr | org.emoflon.ilp/src/org/emoflon/ilp/Problem.java:389-409 | the linear constraints of the as-written conversions, each ending in the source's closing `sum of s_i >= 0`, are appended to the normal ones and the SOS1 ones to the SOS list; no Or constraint is left; the objective and general constraints stay |
| Passes.SubstituteOrOutcome | org.emoflon.ilp/src/org/emoflon/ilp/Problem.java:389-409 | on a problem built by `add`: it fails exactly on a quadratic disjunct; otherwise the Or count is 0, the invariants hold and the counts grow by the conversion sizes |
| Passes.SubstituteOrAccepts | org.emoflon.ilp/src/org/emoflon/ilp/Problem.java:389-409 | without quadratic disjuncts it succeeds |
| Passes.SubstituteOrCounts | org.emoflon.ilp/src/org/emoflon/ilp/Problem.java:389-409 | the normal count grows by the linear conversion members; normal plus SOS1 grows by all |
| Passes.SubstituteOrKeeps | org.emoflon.ilp/src/org/emoflon/ilp/Problem.java:389-409 | the pass keeps both invariants |
| Passes.RewriteOne | org.emoflon.ilp/src/org/emoflon/ilp/Problem.java:427-438 | one normal constraint rewrites to nothing exactly when it passes through (quadratic, or `<=`, `>=`, `=`); what it emits uses only those operators |
| Passes.RewriteShaped | org.emoflon.ilp/src/org/emoflon/ilp/Problem.java:427-438 | a non-empty rewritten constraint yields well-formed constraints |
| Passes.RewriteAll | org.emoflon.ilp/src/org/emoflon/ilp/Problem.java:427-438 | rewriting all constraints fails exactly when a linear one holds a quadratic term, and uses one name index per `!=` |
| Passes.RewriteAllShape | org.emoflon.ilp/src/org/emoflon/ilp/Problem.java:427-438 | all rewrites use only `<=`, `>=`, `=`; there are none exactly when every constraint passes through |
| Passes.Kept | org.emoflon.ilp/src/org/emoflon/ilp/Problem.java:440-441 | what survives removal is exactly the constraints that pass through, in order |
| Passes.Deleted | org.emoflon.ilp/src/org/emoflon/ilp/Problem.java:429-431 | the delete list holds exactly the constraints that do not pass through |
| Passes.RemoveAll | org.emoflon.ilp/src/org/emoflon/ilp/Problem.java:440 | `removeAll` keeps exactly the elements not in the delete list |
| Passes.RemoveDeletedKeeps | org.emoflon.ilp/src/org/emoflon/ilp/Problem.java:440-441 | removing the deleted constraints leaves the passing ones |
| Passes.SubstituteOperators | org.emoflon.ilp/src/org/emoflon/ilp/Problem.java:421-446 | the rewritten constraints are replaced by their linear rewrites and the SOS1 ones are added; everything else stays |
| Passes.SubstituteOperatorsOutcome | org.emoflon.ilp/src/org/emoflon/ilp/Problem.java:421-446 | on a problem built by `add`: it fails exactly on a quadratic linear constraint; otherwise every normal constraint uses `<=`, `>=` or `=`, or is quadratic, and the invariants hold |
| Passes.SubstituteOperatorsAccepts | org.emoflon.ilp/src/org/emoflon/ilp/Problem.java:421-446 | without a quadratic linear constraint it succeeds |
| Passes.KeptKeeps | org.emoflon.ilp/src/org/emoflon/ilp/Problem.java:440-441 | the removal keeps both invariants |
| Passes.SubstituteOperatorsKeeps | org.emoflon.ilp/src/org/emoflon/ilp/Problem.java:421-446 | the pass keeps both invariants |
| Passes.SubstituteOperatorsLowers | org.emoflon.ilp/src/org/emoflon/ilp/Problem.java:421-446 | afterwards every normal constraint passes through |
| Passes.CanonicalPassThrough | org.emoflon.ilp/src/org/emoflon/ilp/Problem.java:444 | the added rewrites pass through |
| Passes.SubstituteOperatorsIdle | org.emoflon.ilp/src/org/emoflon/ilp/Problem.java:421-446 | on a problem that already passes through, the pass changes nothing and consumes no names |
| Passes.NotEqualsNone | org.emoflon.ilp/src/org/emoflon/ilp/Problem.java:427-438 | constraints that pass through contain no `!=` |
| Passes.ConvertSoss | org.emoflon.ilp/src/org/emoflon/ilp/Problem.java:461-464 | converting all SOS1 constraints yields 2n+1 constraints each |
| Passes.ConvertSossNonEmpty | org.emoflon.ilp/src/org/emoflon/ilp/Problem.java:461-464 | every converted constraint has terms exactly when every SOS1 constraint has variables |
| Passes.ConvertSossCanonical | org.emoflon.ilp/src/org/emoflon/ilp/Problem.java:461-464 | the conversions are linear and use `<=` or `>=` |
| Passes.AsNormalNonEmpty | org.emoflon.ilp/src/org/emoflon/ilp/Problem.java:463 | the conversions are accepted by `add` exactly when they all have terms |
| Passes.SubstituteSos1 | org.emoflon.ilp/src/org/emoflon/ilp/Problem.java:458-468 | all conversions are appended to the normal constraints and no SOS1 constraint is left; it fails exactly when an SOS1 constraint has no variables |
| Passes.SubstituteSos1Outcome | org.emoflon.ilp/src/org/emoflon/ilp/Problem.java:458-468 | on a problem built by `add` it succeeds, leaves no SOS1 constraint, keeps the invariants and adds 2n+1 constraints per SOS1 constraint |
| Passes.SubstituteSos1Keeps | org.emoflon.ilp/src/org/emoflon/ilp/Problem.java:458-468 | the pass keeps both invariants |
| Passes.SubstituteSos1Lowers | org.emoflon.ilp/src/org/emoflon/ilp/Problem.java:458-468 | it adds only constraints that pass through |
| Passes.AsNormalPassThrough | org.emoflon.ilp/src/org/emoflon/ilp/Problem.java:463 | linear constraints with `<=`, `>=` or `=` pass through |
| Pipeline.Lower | org.emoflon.ilp/src/org/emoflon/ilp/Problem.java:380-468 | running the three passes in the prescribed order succeeds only when the first does |
| Pipeline.OrAddsNoQuadratic | org.emoflon.ilp/src/org/emoflon/ilp/Problem.java:389-409 | the Or pass adds no linear constraint with a quadratic term |
| Pipeline.LinearQuadraticAppend | org.emoflon.ilp/src/org/emoflon/ilp/Problem.java:404 | a concatenation holds a quadratic linear constraint exactly when one part does |
| Pipeline.AddedAllLinear | org.emoflon.ilp/src/org/emoflon/ilp/Problem.java:397-398 | the linear members of well-formed conversions have no quadratic term |
| Pipeline.LowerOutcome | org.emoflon.ilp/src/org/emoflon/ilp/Problem.java:380-468 | lowering fails exactly on a quadratic disjunct or linear constraint; otherwise no Or or SOS1 constraint is left, all constraints pass through, and objective and general constraints stay |
| Pipeline.OrNeedsOperatorPass | org.emoflon.ilp/src/org/emoflon/ilp/Problem.java:380-387 | after the Or pass some constraint still uses `<`, `>` or `!=`, so the operator pass has to follow |
| Pipeline.StrictSurvives | org.emoflon.ilp/src/org/emoflon/ilp/Problem.java:404 | a strict converted constraint, once added, does not pass through |
| Pipeline.OrsEmitStrict | org.emoflon.ilp/src/org/emoflon/ilp/Problem.java:395-401 | converting a non-empty Or constraint as written emits a strict constraint |
| Objectives.StrictSetObjective | org.emoflon.ilp/src/org/emoflon/ilp/Objective.java:80-92 | a missing objective or one without terms is refused before anything is registered; otherwise the objective is set and its top-level variables registered |
| Objectives.StrictSetObjectiveAndType | org.emoflon.ilp/src/org/emoflon/ilp/Objective.java:94-97 | the type is set only when the objective was accepted |
| Objectives.StrictAgreesWithProblem | org.emoflon.ilp/src/org/emoflon/ilp/Objective.java:80-92 | where the strict version accepts, it does what `Problem.setObjective` does; a missing objective is refused here but becomes an empty function there |
| Objectives.StrictKeepsRegistered | org.emoflon.ilp/src/org/emoflon/ilp/Objective.java:80-92 | a successful strict `setObjective` keeps both invariants |
| Cplex.Resolve | org.emoflon.ilp/src/org/emoflon/ilp/CplexSolver.java:181-239 | with the override enabled, integer and real bounds still at their defaults take the configured bounds; binary bounds and set bounds stay |
| Cplex.ResolveDisabled | org.emoflon.ilp/src/org/emoflon/ilp/CplexSolver.java:186 | without the override nothing changes |
| Cplex.ResolveIdempotent | org.emoflon.ilp/src/org/emoflon/ilp/CplexSolver.java:186-195 | once resolved, a variable's bounds are no longer replaced |
| Cplex.TranslateVariable | org.emoflon.ilp/src/org/emoflon/ilp/CplexSolver.java:158-239 | a variable whose resolved lower bound exceeds its upper bound is refused |
| Cplex.TranslateVariables | org.emoflon.ilp/src/org/emoflon/ilp/CplexSolver.java:131-149 | every registered variable is translated; one crossed bound refuses the whole map |
| Cplex.AddCoefLookup | org.emoflon.ilp/src/org/emoflon/ilp/CplexSolver.java:270-277 | adding a weight to a name raises that name's coefficient by it and no other |
| Cplex.AddCoefNames | org.emoflon.ilp/src/org/emoflon/ilp/CplexSolver.java:270-277 | the coefficient map gains the name and keeps one entry per name |
| Cplex.AddCoefValue | org.emoflon.ilp/src/org/emoflon/ilp/CplexSolver.java:270-277 | adding a weight raises the linear value by weight times the variable |
| Cplex.CoefficientsMerge | org.emoflon.ilp/src/org/emoflon/ilp/CplexSolver.java:265-278 | the merged coefficients have one entry per linear variable, each the sum of that variable's weights |
| Cplex.CoefficientsValue | org.emoflon.ilp/src/org/emoflon/ilp/CplexSolver.java:265-284 | the merged coefficients are worth the linear terms |
| Cplex.PartsValue | org.emoflon.ilp/src/org/emoflon/ilp/CplexSolver.java:266-291 | the linear and quadratic terms together are worth all terms |
| Cplex.LinearCoefficients | org.emoflon.ilp/src/org/emoflon/ilp/CplexSolver.java:265-278 | the loop computes the merged coefficient map |
| Cplex.ConstantSum | org.emoflon.ilp/src/org/emoflon/ilp/CplexSolver.java:300-303 | the loop computes the sum of the constants |
| Cplex.TranslateObjective | org.emoflon.ilp/src/org/emoflon/ilp/CplexSolver.java:244-312 | the objective keeps the problem's sense, has one linear coefficient per variable and only quadratic terms in its quadratic part; a missing objective fails |
| Cplex.TranslateObjectiveValue | org.emoflon.ilp/src/org/emoflon/ilp/CplexSolver.java:244-312 | the translated objective is worth what the problem's objective is worth, nested functions included |
| Cplex.QuadraticPartMembers | org.emoflon.ilp/src/org/emoflon/ilp/CplexSolver.java:290-297 | the quadratic part holds exactly the quadratic terms of the objective |
| Cplex.MergedRegistered | org.emoflon.ilp/src/org/emoflon/ilp/CplexSolver.java:265-297 | the merged coefficients and the quadratic terms name only registered variables exactly when the expanded terms do |
| Cplex.RegisteredMerges | org.emoflon.ilp/src/org/emoflon/ilp/CplexSolver.java:265-297 | registered expanded terms give registered coefficients and quadratic terms |
| Cplex.MergesRegistered | org.emoflon.ilp/src/org/emoflon/ilp/CplexSolver.java:265-297 | registered coefficients and quadratic terms come only from registered expanded terms |
| Cplex.TranslateProblemBound | org.emoflon.ilp/src/org/emoflon/ilp/CplexSolver.java:282-297 | every `cplexVars.get` of the objective finds a CPLEX variable exactly when every variable of the expanded objective is registered |
| Cplex.AsLinearTerms | org.emoflon.ilp/src/org/emoflon/ilp/CplexSolver.java:335-338 | a linear row takes weight times first variable from each term |
| Cplex.AsLinearTermsOfLinear | org.emoflon.ilp/src/org/emoflon/ilp/CplexSolver.java:335-338 | on linear terms that is the identity |
| Cplex.TranslateNormal | org.emoflon.ilp/src/org/emoflon/ilp/CplexSolver.java:327-376 | a constraint with `<`, `>` or `!=` is a fatal error; otherwise it becomes a row with its rhs and one entry per term |
| Cplex.TranslateNormalMeaning | org.emoflon.ilp/src/org/emoflon/ilp/CplexSolver.java:360-369 | a row holds exactly when its constraint holds |
| Cplex.TranslateRows | org.emoflon.ilp/src/org/emoflon/ilp/CplexSolver.java:327-376 | all rows are built, or the first unconverted operator fails |
| Cplex.TranslateNormals | org.emoflon.ilp/src/org/emoflon/ilp/CplexSolver.java:318-382 | a general or Or constraint left over is a fatal error; otherwise one row per normal constraint |
| Cplex.ContainsDuplicates | org.emoflon.ilp/src/org/emoflon/ilp/CplexSolver.java:419-427 | the loop reports exactly whether two weights are equal |
| Cplex.PriorityWeights | org.emoflon.ilp/src/org/emoflon/ilp/CplexSolver.java:397-404 | duplicate weights are replaced by 0, 1, 2, ...; distinct weights stay |
| Cplex.TranslateSos | org.emoflon.ilp/src/org/emoflon/ilp/CplexSolver.java:389-405 | an SOS row names the constraint's variables in order and carries distinct weights |
| Cplex.TranslateSoss | org.emoflon.ilp/src/org/emoflon/ilp/CplexSolver.java:388-411 | one SOS row per SOS1 constraint |
| Cplex.LowerForCplex | org.emoflon.ilp/src/org/emoflon/ilp/CplexSolver.java:102-106 | `buildILPProblem` runs the Or pass and then the operator pass, and not the SOS1 pass |
| Cplex.TranslateProblem | org.emoflon.ilp/src/org/emoflon/ilp/CplexSolver.java:108-123 | translation fails on crossed bounds, a missing objective or a bad constraint, in that order; otherwise it covers every variable, normal and SOS1 constraint |
| Cplex.BuildIlpProblem | org.emoflon.ilp/src/org/emoflon/ilp/CplexSolver.java:85-124 | a general constraint is refused first; then lowering, then translation |
| Cplex.QuadraticsAppendLinear | org.emoflon.ilp/src/org/emoflon/ilp/CplexSolver.java:319-320 | appended linear constraints do not change whether a quadratic constraint is left unconverted |
| Cplex.QuadraticsInKept | org.emoflon.ilp/src/org/emoflon/ilp/Problem.java:440-441 | quadratic constraints with admissible operators survive the removal |
| Cplex.LowerForCplexShape | org.emoflon.ilp/src/org/emoflon/ilp/CplexSolver.java:102-106 | after the two passes no Or constraint is left, every constraint passes through, and objective, general constraints and invariants stay |
| Cplex.QuadraticSurvives | org.emoflon.ilp/src/org/emoflon/ilp/Problem.java:440-441 | a quadratic constraint with a strict operator survives the removal |
| Cplex.LowerForCplexAccepts | org.emoflon.ilp/src/org/emoflon/ilp/CplexSolver.java:102-106 | the two passes succeed exactly when no disjunct and no linear constraint is quadratic |
| Cplex.BuildOutcome | org.emoflon.ilp/src/org/emoflon/ilp/CplexSolver.java:85-124 | on a problem built by `add` with an objective, no general constraint and nothing quadratic to reject, building fails exactly on crossed bounds |
| Cplex.TranslateLoweredOutcome | org.emoflon.ilp/src/org/emoflon/ilp/CplexSolver.java:318-376 | a lowered problem is translated unless bounds cross or a quadratic constraint keeps `<`, `>` or `!=` |
| Cplex.BuildRejectsStrictQuadratic | org.emoflon.ilp/src/org/emoflon/ilp/CplexSolver.java:370-375 | a quadratic constraint with `<`, `>` or `!=` makes building fail, since no pass converts it |
| Scenarios.LinearTermsRejected | org.emoflon.ilp.tests/src/org/emoflon/ilp/tests/BasicTest.java:17-42 | a linear constraint with a quadratic term is refused |
| Scenarios.LinearExpandExample | org.emoflon.ilp.tests/src/org/emoflon/ilp/tests/BasicTest.java:46-81 | the test's nested linear function expands to three terms and the constants 17 and 84 |
| Scenarios.LinearExpandChain | org.emoflon.ilp.tests/src/org/emoflon/ilp/tests/BasicTest.java:46-81 | the same, for any four functions of the test's shape |
| Scenarios.QuadraticNestedRejected | org.emoflon.ilp.tests/src/org/emoflon/ilp/tests/BasicTest.java:85-101 | a linear function refuses a quadratic nested function |
| Scenarios.QuadraticExpandExample | org.emoflon.ilp.tests/src/org/emoflon/ilp/tests/BasicTest.java:104-135 | the test's quadratic function expands to five terms and the single constant 84 |
| Scenarios.ExpandSingle | org.emoflon.ilp/src/org/emoflon/ilp/QuadraticFunction.java:64-87 | one nested function contributes its scaled expansion after the receiver's terms and constants |
| Scenarios.OrSubstitutionExample | org.emoflon.ilp.tests/src/org/emoflon/ilp/tests/BasicTest.java:139-165 | an Or of two `<=` disjuncts converts, as written, to 15 constraints |
| Scenarios.ExampleDisjuncts | org.emoflon.ilp/src/org/emoflon/ilp/OrConstraint.java:54-56 | the example Or holds the linear disjuncts `x <= 3` and `y >= 10` |
| Scenarios.ExampleBlocks | org.emoflon.ilp/src/org/emoflon/ilp/OrConstraint.java:80-135 | the example converts to one inequality block per disjunct |
| Scenarios.ExampleFirstBlockOff | org.emoflon.ilp/src/org/emoflon/ilp/OrConstraint.java:323-379 | the block of `x <= 3` holds at `x = 4` with its indicator 0 |
| Scenarios.ExampleSecondBlockOff | org.emoflon.ilp/src/org/emoflon/ilp/OrConstraint.java:82-135 | the block of `y >= 10` holds at `y = 5` with its indicator 0 |
| Scenarios.ExampleSecondBlockOn | org.emoflon.ilp/src/org/emoflon/ilp/OrConstraint.java:82-135 | the block of `y >= 10` holds at `y = 10` with its indicator 1 |
| Scenarios.ExampleClosing | org.emoflon.ilp/src/org/emoflon/ilp/OrConstraint.java:78-87 | the example's closing constraint holds where `s_0 + s_1` reaches its right-hand side |
| Scenarios.ExampleHolds | org.emoflon.ilp/src/org/emoflon/ilp/OrConstraint.java:76-384 | the example's conversion holds where both blocks and the closing constraint hold |
| Scenarios.OrExampleAsWrittenHolds | org.emoflon.ilp/src/org/emoflon/ilp/OrConstraint.java:78 | as written, `Or(x <= 3, y >= 10)` converts to constraints that all hold at `x = 4`, `y = 5`, where neither disjunct holds |
| Scenarios.OrExampleAsWrittenFeasible | org.emoflon.ilp/src/org/emoflon/ilp/OrConstraint.java:78 | as written, some assignment with `x = 4`, `y = 5` satisfies the conversion |
| Scenarios.OrExampleHolds | org.emoflon.ilp/src/org/emoflon/ilp/OrConstraint.java:76-384 | the corrected conversion of the example holds at `x = 4`, `y = 10` with `s_1 = 1` |
| Scenarios.OrExampleFeasible | org.emoflon.ilp/src/org/emoflon/ilp/OrConstraint.java:76-384 | some assignment with `x = 4`, `y = 10` satisfies the corrected conversion |
| Scenarios.OrExampleInfeasible | org.emoflon.ilp/src/org/emoflon/ilp/OrConstraint.java:76-384 | no assignment with `x = 4`, `y = 5` and binary indicators satisfies the corrected conversion |
| Scenarios.Sos1SubstitutionExample | org.emoflon.ilp.tests/src/org/emoflon/ilp/tests/BasicTest.java:168-183 | SOS1 over three variables converts to 7 constraints |
| Scenarios.OperatorSubstitutionExample | org.emoflon.ilp.tests/src/org/emoflon/ilp/tests/BasicTest.java:186-219 | `<` 5 becomes `<=` 4 and `>` 4 becomes `>=` 5 on the same terms; `!=` becomes four constraints whose second is SOS1 |
| Scenarios.BoundsOverrideExample | org.emoflon.ilp.tests/src/org/emoflon/ilp/tests/CplexTest.java:980-1031 | with the override at -5 and 5, default-bounded integer and real variables get those bounds |
| Scenarios.NestedObjectiveUnbound | org.emoflon.ilp/src/org/emoflon/ilp/CplexSolver.java:282-283 | an objective whose variable `z` appears only in a nested function translates, with a coefficient for `z` but no CPLEX variable for it |
| Scenarios.CplexOperatorExample | org.emoflon.ilp.tests/src/org/emoflon/ilp/tests/CplexTest.java:844-890 | the operator test's lowering turns three constraints into five |
| Scenarios.OperatorExampleCount | org.emoflon.ilp.tests/src/org/emoflon/ilp/tests/CplexTest.java:885 | one kept constraint plus four linear rewrites give five |
| Scenarios.OperatorExampleKept | org.emoflon.ilp.tests/src/org/emoflon/ilp/tests/CplexTest.java:856-867 | of the test's constraints only the quadratic one is kept |
| Scenarios.OperatorExampleRewrite | org.emoflon.ilp.tests/src/org/emoflon/ilp/tests/CplexTest.java:856-863 | the `!=` and `>` constraints rewrite into four linear constraints |

## Left out

- Java object identity. The source names auxiliary variables after `toString()`, that is, after object identity. The model uses a counter threaded through the passes instead, with the same prefixes (`psi_`, `psiPrime_`, `s_`, `s_prime_`, `phi_`, `phi_prime_`); `sos_binary_` plus the variable's name is kept as written.
- `remove` and `removeAll` compare by value here; Java's `equals` on these classes compares identity. Removing an equal but distinct constraint therefore removes something here and nothing in Java.
- Mutation through shared references is not modelled, apart from the receiver of `expand` (`ExpandReceiver`). `Sos1Encoding.Convert` returns the updated binary list instead of mutating the constraint.
- The passes are modelled as all-or-nothing. When an `add` inside a pass throws, Java leaves the partly updated problem behind. The model returns the error, and its invariant lemmas require a problem built by `add`, under which no such failure occurs.
- The Or constraint's result variable is stored but never used by the conversion, as in the source.
- OrEncoding.NotEqualIndicator: states only one direction, because the `!=` block lets the indicator be 1 while the disjunct is violated; `NotEqualIndicatorOneWay` exhibits such an assignment.
- OrEncoding.EqualIndicator: states only one direction, because a true `=` disjunct also admits `s = 0`; `EqualIndicatorOneWay` exhibits such an assignment.
- OrEncoding.Convert: uses the corrected closing `sum of s_i >= 1` (see Findings); the passes use `ConvertAsWritten` instead, as the source does. It proves that every solution with binary indicators picks a holding disjunct (`ConvertChoosesDisjunct`), except that a `!=` disjunct is not forced to hold. The converse, that every true disjunct extends to a solution, is proved only block by block (`InequalityValuesSatisfy`, `EqualValuesSatisfy`, `NotEqualValuesSatisfy`) and for the example, not for a whole conversion.
- Cplex.TranslateObjective: does not model `cplexVars.get` in translateObjective, which yields `null` for a variable without a CPLEX variable; what CPLEX then does is not modelled. `TranslateProblemBound` states when every lookup succeeds, and `Scenarios.NestedObjectiveUnbound` shows a problem where one does not.
- Cplex.TranslateProblem: succeeds on such a problem, as Java reaches `setLinearCoef` with `null`; success does not imply `ObjectiveBound`.
- Cplex.BuildOutcome: the same holds for building: it may succeed with an objective that names an unregistered variable.
- Java `int` and `double` arithmetic: bounds are unbounded integers and weights are reals. Overflow of `-bound` in the SOS1 links, rounding, NaN and `-0.0` in `containsDuplicates` are not modelled.
- The bound override writes the new bounds back into the variable objects. The model returns the resolved variables in the translated model and leaves the problem's registry unchanged.
- Console warnings, `System.out` output, CPLEX's native calls, `solve`, `updateValuesFromSolution`, `terminate`, and the solver configuration other than the bound override are not modelled. Neither is the iteration order of `HashMap`.
- `setQuadCoef` replaces a coefficient for a repeated pair of variables, while the source comment says CPLEX sums them. The model's objective value sums every quadratic term, as the comment promises.
- QuadraticConstraint.java in the repository is an older copy that does not match how `Problem` and `CplexSolver` use it. Quadratic constraints are therefore modelled as passing through `convertOperator` unchanged.
- The CPLEX operator test in CplexTest.java:844-890 expects a quadratic `<` constraint to be solved. In the model, building fails on it with the "should already have been converted" error (`Cplex.BuildRejectsStrictQuadratic`). The scenario lemma covers only the lowering, which yields five constraints as the test asserts.
- `buildILPProblem` does not call `substituteSOS1`; CPLEX takes SOS1 constraints natively. The model follows the code.
- `Objective`'s `add`, `remove`, count and `set*Constraints` methods are the same code as `Problem`'s, so the `Problems` and `Passes` members model both. Only its strict `setObjective` has its own members.
- `setWeights` and `setEpsilon` of the constraint classes are plain field setters and are not modelled separately. `setBound` is `Constraints.WithBound`.
- LinearFunction.java is an older record that does not match how the tests use `LinearFunction`. A linear function is modelled as a `Function` of linear shape whose `addNestedFunction` refuses a quadratic function, as BasicTest.java:85-101 expects.
- The Gurobi and GLPK back ends, `SolverHelper`, `SolverOutput` and general constraints beyond the registration done by `add` are not part of this model.

## Findings

| source | as written | input that shows it | evidently intended | confidence | as-written member | corrected member |
|---|---|---|---|---|---|---|
| org.emoflon.ilp/src/org/emoflon/ilp/OrConstraint.java:58-64 | the guard `value != 1 \|\| value != 0` holds for every value, so `setResult(Variable)` always throws | a new binary variable passed as `Variable<?>`, whose value is 0 (the `setResult(BinaryVariable)` overload at lines 46-48 does not check) | accept a binary variable (value 0 or 1) as the result and refuse anything else | high, not executed | OrEncoding.SetResultAsWritten | OrEncoding.SetResult |
| org.emoflon.ilp/src/org/emoflon/ilp/OrConstraint.java:78 | the closing constraint is `sum of s_i >= 0.0`, which binary indicators always meet, so a solution need not satisfy any disjunct | `Or(x <= 3, y >= 10)` at `x = 4`, `y = 5`: every converted constraint holds with both indicators 0 | `sum of s_i >= 1`, so that some disjunct's indicator is 1 and that disjunct holds | high, not executed | OrEncoding.ConvertAsWritten, Scenarios.OrExampleAsWrittenHolds | OrEncoding.Convert, OrEncoding.ConvertChoosesDisjunct, Scenarios.OrExampleInfeasible |
