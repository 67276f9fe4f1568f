/**
 * The solver-independent part of `CplexSolver`: the checks and the
 * preparation it applies before it hands a problem to CPLEX. The calls into
 * CPLEX itself become values: a variable with its final bounds, an objective
 * as merged linear coefficients, quadratic terms and one constant, a row
 * per normal constraint and an SOS1 row with its priority weights.
 */
module Cplex {
  import opened Wrappers
  import opened Variables
  import opened Operators
  import opened Expressions
  import opened Constraints
  import opened Problems
  import opened Passes
  import Pipeline

  const GeneralUnsupportedMessage := "General Constraints are not yet supported for CPLEX."
  const BoundsOrderMessage := "The lower bound is not allowed to be greater than the upper bound."
  const NotLoweredMessage := "All Constraints should be linear or SOS constraints!"
  const NotConvertedMessage := "All constraints with this operator should already have been converted!"

  /** The part of `SolverConfig` the translation reads: an optional override of default bounds. */
  datatype SolverConfig = SolverConfig(boundsEnabled: bool, lowerBound: int, upperBound: int)

  // ---------------------------------------------------------------------------
  // Variables

  /** The override applies to the lower bound of an integer or real variable that still has its default. */
  predicate ReplacesLower(c: SolverConfig, v: Variable) {
    c.boundsEnabled && !v.BinaryVariable? && v.defaultLower
  }

  predicate ReplacesUpper(c: SolverConfig, v: Variable) {
    c.boundsEnabled && !v.BinaryVariable? && v.defaultUpper
  }

  /**
   * The bounds `translateIntegerVariable` and `translateRealVariable` settle
   * on, written back through `setLowerBound` and `setUpperBound`: with the
   * override enabled, a bound still at its default becomes the configured
   * one and stops being a default; every explicitly set bound, and every
   * bound of a binary variable, stays.
   */
  function Resolve(c: SolverConfig, v: Variable): (r: Variable)
    ensures Type(r) == Type(v) && r.name == v.name && Variables.Value(r) == Variables.Value(v)
    ensures LowerBound(r) == (if ReplacesLower(c, v) then c.lowerBound as real else LowerBound(v))
    ensures UpperBound(r) == (if ReplacesUpper(c, v) then c.upperBound as real else UpperBound(v))
    ensures !v.BinaryVariable? ==>
              && r.defaultLower == (v.defaultLower && !c.boundsEnabled)
              && r.defaultUpper == (v.defaultUpper && !c.boundsEnabled)
  {
    var lo :=
      if !ReplacesLower(c, v) then v
      else if v.IntegerVariable? then SetIntLowerBound(v, c.lowerBound)
      else SetRealLowerBound(v, c.lowerBound as real);
    if !ReplacesUpper(c, v) then lo
    else if lo.IntegerVariable? then SetIntUpperBound(lo, c.upperBound)
    else SetRealUpperBound(lo, c.upperBound as real)
  }

  /** Without the override every variable keeps its bounds. */
  lemma ResolveDisabled(c: SolverConfig, v: Variable)
    requires !c.boundsEnabled
    ensures Resolve(c, v) == v
  {
  }

  /** A resolved variable has no default bound left to replace, so translating it again changes nothing. */
  lemma ResolveIdempotent(c: SolverConfig, v: Variable)
    ensures !ReplacesLower(c, Resolve(c, v)) && !ReplacesUpper(c, Resolve(c, v))
    ensures Resolve(c, Resolve(c, v)) == Resolve(c, v)
  {
  }

  /**
   * `translateBinaryVariable`, `translateIntegerVariable` and
   * `translateRealVariable`: after the override, a lower bound above the
   * upper bound is refused; otherwise the variable goes to CPLEX with the
   * resolved bounds.
   */
  function TranslateVariable(c: SolverConfig, v: Variable): (r: Result<Variable>)
    ensures r.Failure? <==> LowerBound(Resolve(c, v)) > UpperBound(Resolve(c, v))
    ensures r.Failure? ==> r.error == IllegalArgument(BoundsOrderMessage)
    ensures r.Success? ==> r.value == Resolve(c, v) && LowerBound(r.value) <= UpperBound(r.value)
  {
    var w := Resolve(c, v);
    if LowerBound(w) > UpperBound(w) then Failure(IllegalArgument(BoundsOrderMessage))
    else Success(w)
  }

  /** Some registered variable ends up with crossed bounds. */
  predicate SomeCrossed(c: SolverConfig, m: map<string, Variable>) {
    exists x :: x in m && LowerBound(Resolve(c, m[x])) > UpperBound(Resolve(c, m[x]))
  }

  /**
   * `translateVariables`: every registered variable is translated; one with
   * crossed bounds throws. The result maps each name to its translated
   * variable.
   */
  function TranslateVariables(c: SolverConfig, m: map<string, Variable>): (r: Result<map<string, Variable>>)
    ensures r.Failure? <==> SomeCrossed(c, m)
    ensures r.Failure? ==> r.error == IllegalArgument(BoundsOrderMessage)
    ensures r.Success? ==> r.value.Keys == m.Keys
    ensures r.Success? ==> forall x :: x in m ==> TranslateVariable(c, m[x]) == Success(r.value[x])
  {
    if SomeCrossed(c, m) then Failure(IllegalArgument(BoundsOrderMessage))
    else Success(map x | x in m :: Resolve(c, m[x]))
  }

  // ---------------------------------------------------------------------------
  // The objective

  /** A variable name and the summed weight of its linear terms. */
  datatype Coef = Coef(name: string, weight: real)

  function CoefNames(cs: seq<Coef>): set<string> {
    set i | 0 <= i < |cs| :: cs[i].name
  }

  predicate DistinctNames(cs: seq<Coef>) {
    forall i, j :: 0 <= i < j < |cs| ==> cs[i].name != cs[j].name
  }

  /** The coefficient of `x`, 0 when it has none. */
  function Lookup(cs: seq<Coef>, x: string): real {
    if cs == [] then 0.0
    else if cs[0].name == x then cs[0].weight
    else Lookup(cs[1..], x)
  }

  /** `Sum(weight * x)` over the coefficients. */
  function CoefsValue(cs: seq<Coef>, a: Assignment): real {
    if cs == [] then 0.0 else Times(cs[0].weight, a(cs[0].name)) + CoefsValue(cs[1..], a)
  }

  /** The `remove` then `put` on `lin_coefficients`: `x`'s coefficient grows by `w`. */
  function AddCoef(cs: seq<Coef>, x: string, w: real): (r: seq<Coef>)
    decreases |cs|
  {
    if cs == [] then [Coef(x, w)]
    else if cs[0].name == x then [Coef(x, cs[0].weight + w)] + cs[1..]
    else [cs[0]] + AddCoef(cs[1..], x, w)
  }

  lemma {:induction false} AddCoefLookup(cs: seq<Coef>, x: string, w: real, y: string)
    ensures Lookup(AddCoef(cs, x, w), y) == Lookup(cs, y) + (if y == x then w else 0.0)
    decreases |cs|
  {
    if cs != [] && cs[0].name != x {
      AddCoefLookup(cs[1..], x, w, y);
      assert AddCoef(cs, x, w)[1..] == AddCoef(cs[1..], x, w);
    }
  }

  lemma {:induction false} AddCoefNames(cs: seq<Coef>, x: string, w: real)
    ensures CoefNames(AddCoef(cs, x, w)) == CoefNames(cs) + {x}
    ensures DistinctNames(cs) ==> DistinctNames(AddCoef(cs, x, w))
    decreases |cs|
  {
    var r := AddCoef(cs, x, w);
    if cs == [] {
      assert r[0].name == x;
    } else if cs[0].name == x {
      assert forall i :: 0 < i < |cs| ==> r[i] == cs[i];
      assert CoefNames(r) == CoefNames(cs) by {
        assert forall y :: y in CoefNames(cs) ==> y in CoefNames(r) by {
          forall y | y in CoefNames(cs) ensures y in CoefNames(r) {
            var i :| 0 <= i < |cs| && cs[i].name == y;
            assert r[i].name == y;
          }
        }
      }
    } else {
      AddCoefNames(cs[1..], x, w);
      var t := AddCoef(cs[1..], x, w);
      assert r == [cs[0]] + t;
      HeadNames(cs[0], cs[1..]);
      HeadNames(cs[0], t);
      assert cs == [cs[0]] + cs[1..];
    }
  }

  lemma HeadNames(c: Coef, cs: seq<Coef>)
    ensures CoefNames([c] + cs) == {c.name} + CoefNames(cs)
    ensures DistinctNames([c] + cs) <==> c.name !in CoefNames(cs) && DistinctNames(cs)
  {
    var r := [c] + cs;
    assert forall i :: 0 < i < |r| ==> r[i] == cs[i - 1];
    forall y | y in CoefNames(cs) ensures y in CoefNames(r) {
      var i :| 0 <= i < |cs| && cs[i].name == y;
      assert r[i + 1].name == y;
    }
    forall y | y in CoefNames(r) ensures y in {c.name} + CoefNames(cs) {
      var i :| 0 <= i < |r| && r[i].name == y;
      if i > 0 {
        assert cs[i - 1].name == y;
      }
    }
    assert r[0].name in CoefNames(r);
    if DistinctNames(r) {
      forall i, j | 0 <= i < j < |cs| ensures cs[i].name != cs[j].name {
        assert r[i + 1] == cs[i] && r[j + 1] == cs[j];
      }
      forall i | 0 <= i < |cs| ensures cs[i].name != c.name {
        assert r[i + 1] == cs[i] && r[0] == c;
      }
    }
    if c.name !in CoefNames(cs) && DistinctNames(cs) {
      forall i, j | 0 <= i < j < |r| ensures r[i].name != r[j].name {
        assert r[j] == cs[j - 1];
        if i > 0 {
          assert r[i] == cs[i - 1];
        } else {
          assert cs[j - 1].name in CoefNames(cs);
        }
      }
    }
  }

  lemma {:induction false} AddCoefValue(cs: seq<Coef>, x: string, w: real, a: Assignment)
    ensures CoefsValue(AddCoef(cs, x, w), a) == CoefsValue(cs, a) + Times(w, a(x))
    decreases |cs|
  {
    if cs == [] {
    } else if cs[0].name == x {
      assert AddCoef(cs, x, w)[1..] == cs[1..];
      assert Times(cs[0].weight + w, a(x)) == Times(cs[0].weight, a(x)) + Times(w, a(x));
    } else {
      AddCoefValue(cs[1..], x, w, a);
      assert AddCoef(cs, x, w)[1..] == AddCoef(cs[1..], x, w);
    }
  }

  /** The linear terms of `ts`, in order. */
  function LinearPart(ts: seq<Term>): (r: seq<Term>)
    decreases |ts|
  {
    if ts == [] then []
    else LinearPart(ts[..|ts| - 1]) + (if ts[|ts| - 1].LinearTerm? then [ts[|ts| - 1]] else [])
  }

  /** The quadratic terms of `ts`, in order. */
  function QuadraticPart(ts: seq<Term>): (r: seq<Term>)
    decreases |ts|
  {
    if ts == [] then []
    else QuadraticPart(ts[..|ts| - 1]) + (if ts[|ts| - 1].QuadraticTerm? then [ts[|ts| - 1]] else [])
  }

  /** The summed weight of the linear terms of `ts` that name `x`: the reference for a merged coefficient. */
  function WeightSum(ts: seq<Term>, x: string): real
    decreases |ts|
  {
    if ts == [] then 0.0
    else
      var t := ts[|ts| - 1];
      WeightSum(ts[..|ts| - 1], x) + (if t.LinearTerm? && t.var1.name == x then t.weight else 0.0)
  }

  /** Some linear term of `ts` names `x`. */
  predicate NamesLinear(ts: seq<Term>, x: string) {
    exists i :: 0 <= i < |ts| && ts[i].LinearTerm? && ts[i].var1.name == x
  }

  /** `lin_coefficients` after the loop over the linear terms of `ts`. */
  function Coefficients(ts: seq<Term>): (r: seq<Coef>)
    decreases |ts|
  {
    if ts == [] then []
    else
      var t := ts[|ts| - 1];
      var cs := Coefficients(ts[..|ts| - 1]);
      if t.LinearTerm? then AddCoef(cs, t.var1.name, t.weight) else cs
  }

  /** The merged coefficients hold one entry per name, each the summed weight of that name's linear terms. */
  lemma {:induction false} CoefficientsMerge(ts: seq<Term>)
    ensures DistinctNames(Coefficients(ts))
    ensures forall x :: x in CoefNames(Coefficients(ts)) <==> NamesLinear(ts, x)
    ensures forall x :: Lookup(Coefficients(ts), x) == WeightSum(ts, x)
    decreases |ts|
  {
    if ts != [] {
      var init := ts[..|ts| - 1];
      var t := ts[|ts| - 1];
      var cs := Coefficients(init);
      CoefficientsMerge(init);
      assert forall i :: 0 <= i < |init| ==> init[i] == ts[i];
      if t.LinearTerm? {
        AddCoefNames(cs, t.var1.name, t.weight);
        forall x ensures Lookup(Coefficients(ts), x) == WeightSum(ts, x) {
          AddCoefLookup(cs, t.var1.name, t.weight, x);
        }
      }
      forall x ensures NamesLinear(ts, x) <==> NamesLinear(init, x) || (t.LinearTerm? && t.var1.name == x) {
        if NamesLinear(ts, x) {
          var i :| 0 <= i < |ts| && ts[i].LinearTerm? && ts[i].var1.name == x;
          if i < |init| {
            assert init[i] == ts[i];
          }
        }
      }
    }
  }

  /** Merging does not change the value of the linear terms. */
  lemma {:induction false} CoefficientsValue(ts: seq<Term>, a: Assignment)
    ensures CoefsValue(Coefficients(ts), a) == TermsValue(LinearPart(ts), a)
    decreases |ts|
  {
    if ts != [] {
      var init := ts[..|ts| - 1];
      CoefficientsValue(init, a);
      CoefficientsStep(ts, a);
      TermsValueAppend(LinearPart(init), LastLinear(ts), a);
    }
  }

  /** The last term of `ts` as a list, if it is linear. */
  function LastLinear(ts: seq<Term>): seq<Term>
    requires ts != []
  {
    if ts[|ts| - 1].LinearTerm? then [ts[|ts| - 1]] else []
  }

  lemma CoefficientsStep(ts: seq<Term>, a: Assignment)
    requires ts != []
    ensures CoefsValue(Coefficients(ts), a) == CoefsValue(Coefficients(ts[..|ts| - 1]), a) + TermsValue(LastLinear(ts), a)
    ensures LinearPart(ts) == LinearPart(ts[..|ts| - 1]) + LastLinear(ts)
  {
    var t := ts[|ts| - 1];
    if t.LinearTerm? {
      var cs := Coefficients(ts[..|ts| - 1]);
      assert Coefficients(ts) == AddCoef(cs, t.var1.name, t.weight);
      AddCoefValue(cs, t.var1.name, t.weight, a);
      SingleTermValue(t, a);
    }
  }

  lemma SingleTermValue(t: Term, a: Assignment)
    requires t.LinearTerm?
    ensures TermsValue([t], a) == Times(t.weight, a(t.var1.name))
  {
    assert [t][1..] == [];
  }

  /** Every term is either linear or quadratic, so the two parts add up to the whole. */
  lemma {:induction false} PartsValue(ts: seq<Term>, a: Assignment)
    ensures TermsValue(LinearPart(ts), a) + TermsValue(QuadraticPart(ts), a) == TermsValue(ts, a)
    decreases |ts|
  {
    if ts != [] {
      var init := ts[..|ts| - 1];
      var t := ts[|ts| - 1];
      PartsValue(init, a);
      assert ts == init + [t];
      TermsValueAppend(init, [t], a);
      TermsValueAppend(LinearPart(init), if t.LinearTerm? then [t] else [], a);
      TermsValueAppend(QuadraticPart(init), if t.QuadraticTerm? then [t] else [], a);
    }
  }

  /** The `lin_coefficients` loop, term by term. */
  method LinearCoefficients(ts: seq<Term>) returns (cs: seq<Coef>)
    ensures cs == Coefficients(ts)
    ensures DistinctNames(cs) && forall x :: Lookup(cs, x) == WeightSum(ts, x)
  {
    cs := [];
    var i := 0;
    while i < |ts|
      invariant 0 <= i <= |ts|
      invariant cs == Coefficients(ts[..i])
    {
      assert ts[..i + 1][..i] == ts[..i];
      if ts[i].LinearTerm? {
        cs := AddCoef(cs, ts[i].var1.name, ts[i].weight);
      }
      i := i + 1;
    }
    assert ts[..i] == ts;
    CoefficientsMerge(ts);
  }

  /** The loop summing the objective's constants. */
  method ConstantSum(cs: seq<Constant>) returns (s: real)
    ensures s == ConstantsValue(cs)
  {
    s := 0.0;
    var i := 0;
    while i < |cs|
      invariant 0 <= i <= |cs|
      invariant s == ConstantsValue(cs[..i])
    {
      ConstantsValueAppend(cs[..i], [cs[i]]);
      assert cs[..i + 1] == cs[..i] + [cs[i]];
      s := s + cs[i].weight;
      i := i + 1;
    }
    assert cs[..i] == cs;
  }

  /** What `translateObjective` passes to CPLEX. */
  datatype CplexObjective = CplexObjective(sense: ObjectiveType, linear: seq<Coef>,
                                           quadratic: seq<Term>, constant: real)

  function ObjectiveValue(o: CplexObjective, a: Assignment): real {
    CoefsValue(o.linear, a) + TermsValue(o.quadratic, a) + o.constant
  }

  /**
   * `translateObjective`: the objective is expanded; its linear terms are
   * merged per variable, its quadratic terms are passed one by one and its
   * constants are summed. A missing objective throws on `expand`.
   */
  function TranslateObjective(p: Problem): (r: Result<CplexObjective>)
    ensures r.Failure? <==> p.objective.None?
    ensures r.Failure? ==> r.error == NullPointer
    ensures r.Success? ==> r.value.sense == p.objectiveType && DistinctNames(r.value.linear)
    ensures r.Success? ==> forall i :: 0 <= i < |r.value.quadratic| ==> r.value.quadratic[i].QuadraticTerm?
  {
    if p.objective.None? then Failure(NullPointer)
    else
      var e := Expand(p.objective.value);
      CoefficientsMerge(e.terms);
      QuadraticPartShape(e.terms);
      Success(CplexObjective(p.objectiveType, Coefficients(e.terms), QuadraticPart(e.terms),
                             ConstantsValue(e.constants)))
  }

  lemma {:induction false} QuadraticPartShape(ts: seq<Term>)
    ensures forall i :: 0 <= i < |QuadraticPart(ts)| ==> QuadraticPart(ts)[i].QuadraticTerm?
    decreases |ts|
  {
    if ts != [] {
      QuadraticPartShape(ts[..|ts| - 1]);
    }
  }

  /** The objective CPLEX receives has the value of the problem's objective under every assignment. */
  lemma TranslateObjectiveValue(p: Problem, a: Assignment)
    requires p.objective.Some?
    ensures ObjectiveValue(TranslateObjective(p).value, a) == Expressions.Value(p.objective.value, a)
  {
    var e := Expand(p.objective.value);
    ExpandPreservesValue(p.objective.value, a);
    FlatValue(e, a);
    PartsValue(e.terms, a);
    CoefficientsValue(e.terms, a);
  }

  // ---------------------------------------------------------------------------
  // Normal constraints

  /** The kind of a CPLEX row: `addLe`, `addGe` or `addEq`. */
  datatype Sense = Le | Ge | Eq

  /** A row handed to CPLEX: `Sum(terms) sense rhs`. */
  datatype Row = Row(terms: seq<Term>, sense: Sense, rhs: real)

  function Op(c: NormalConstraint): Operator {
    match c
    case LinearNormal(l) => l.op
    case QuadraticNormal(q) => q.op
  }

  function Rhs(c: NormalConstraint): real {
    match c
    case LinearNormal(l) => l.rhs
    case QuadraticNormal(q) => q.rhs
  }

  /** A linear constraint contributes `weight * var1` for each of its terms, whatever the term's class. */
  function AsLinearTerms(ts: seq<Term>): (r: seq<Term>)
    ensures |r| == |ts| && forall i :: 0 <= i < |ts| ==> r[i] == LinearTerm(ts[i].var1, ts[i].weight)
  {
    seq(|ts|, i requires 0 <= i < |ts| => LinearTerm(ts[i].var1, ts[i].weight))
  }

  /** Reading the terms as linear changes nothing when they are linear. */
  lemma AsLinearTermsOfLinear(ts: seq<Term>)
    requires AllLinear(ts)
    ensures AsLinearTerms(ts) == ts
  {
    assert forall i :: 0 <= i < |ts| ==> AsLinearTerms(ts)[i] == ts[i];
  }

  predicate RowHolds(row: Row, a: Assignment) {
    var x := TermsValue(row.terms, a);
    match row.sense
    case Le => x <= row.rhs
    case Ge => x >= row.rhs
    case Eq => x == row.rhs
  }

  /**
   * The body of the loop in `translateNormalConstraints`: `<=`, `>=` and
   * `=` become a row of that kind; `<`, `>` and `!=`, which the operator
   * pass should have removed, throw an `Error`.
   */
  function TranslateNormal(c: NormalConstraint): (r: Result<Row>)
    ensures r.Failure? <==> !IsCanonical(Op(c))
    ensures r.Failure? ==> r.error == Fatal(NotConvertedMessage)
    ensures r.Success? ==> r.value.rhs == Rhs(c) && |r.value.terms| == |Lhs(c)|
  {
    var terms := if c.LinearNormal? then AsLinearTerms(c.lin.lhs) else c.quad.lhs;
    match Op(c)
    case LessOrEqual => Success(Row(terms, Le, Rhs(c)))
    case GreaterOrEqual => Success(Row(terms, Ge, Rhs(c)))
    case Equal => Success(Row(terms, Eq, Rhs(c)))
    case _ => Failure(Fatal(NotConvertedMessage))
  }

  /**
   * A row holds exactly when its constraint does, for a quadratic
   * constraint and for a linear constraint without quadratic terms.
   */
  lemma TranslateNormalMeaning(c: NormalConstraint, a: Assignment)
    requires TranslateNormal(c).Success?
    requires c.LinearNormal? ==> AllLinear(c.lin.lhs)
    ensures RowHolds(TranslateNormal(c).value, a) <==> Holds(Op(c), TermsValue(Lhs(c), a), Rhs(c))
  {
    if c.LinearNormal? {
      AsLinearTermsOfLinear(c.lin.lhs);
    }
  }

  /** Some constraint of `cs` still uses `<`, `>` or `!=`. */
  predicate SomeUnconverted(cs: seq<NormalConstraint>) {
    exists i :: 0 <= i < |cs| && !IsCanonical(Op(cs[i]))
  }

  /** The loop of `translateNormalConstraints`: one row per constraint, in order, until one throws. */
  function TranslateRows(cs: seq<NormalConstraint>): (r: Result<seq<Row>>)
    ensures r.Failure? <==> SomeUnconverted(cs)
    ensures r.Failure? ==> r.error == Fatal(NotConvertedMessage)
    ensures r.Success? ==> |r.value| == |cs|
    ensures r.Success? ==> forall i :: 0 <= i < |cs| ==> TranslateNormal(cs[i]) == Success(r.value[i])
    decreases |cs|
  {
    if cs == [] then Success([])
    else
      SplitHead(cs);
      var row :- TranslateNormal(cs[0]);
      var rows :- TranslateRows(cs[1..]);
      Success([row] + rows)
  }

  /**
   * `translateNormalConstraints`: a general or Or constraint still present
   * throws an `Error` before any row is built; otherwise every normal
   * constraint becomes a row.
   */
  function TranslateNormals(p: Problem): (r: Result<seq<Row>>)
    ensures r.Failure? <==> GenConstraintCount(p) + OrConstraintCount(p) != 0 || SomeUnconverted(p.constraints)
    ensures GenConstraintCount(p) + OrConstraintCount(p) != 0 ==> r.error == Fatal(NotLoweredMessage)
    ensures GenConstraintCount(p) + OrConstraintCount(p) == 0 && r.Failure? ==> r.error == Fatal(NotConvertedMessage)
    ensures r.Success? ==> |r.value| == ConstraintCount(p)
  {
    if ConstraintCount(p) + SosConstraintCount(p) != TotalConstraintCount(p) then Failure(Fatal(NotLoweredMessage))
    else TranslateRows(p.constraints)
  }

  // ---------------------------------------------------------------------------
  // SOS1 constraints

  predicate HasDuplicates(ws: seq<real>) {
    exists i, j :: 0 <= i < j < |ws| && ws[i] == ws[j]
  }

  /** `containsDuplicates`: a scan that remembers the weights seen so far. */
  method ContainsDuplicates(ws: seq<real>) returns (b: bool)
    ensures b <==> HasDuplicates(ws)
  {
    var seen: set<real> := {};
    var i := 0;
    while i < |ws|
      invariant 0 <= i <= |ws|
      invariant seen == set k | 0 <= k < i :: ws[k]
      invariant forall k, l :: 0 <= k < l < i ==> ws[k] != ws[l]
    {
      if ws[i] in seen {
        var k :| 0 <= k < i && ws[k] == ws[i];
        return true;
      }
      seen := seen + {ws[i]};
      i := i + 1;
    }
    return false;
  }

  /**
   * The weights `translateSOSConstraints` passes: CPLEX wants distinct
   * priorities, so a list with a repeated weight is replaced by
   * 0, 1, ..., n-1 of the same length; a list without one is kept.
   */
  function PriorityWeights(ws: seq<real>): (r: seq<real>)
    ensures |r| == |ws| && !HasDuplicates(r)
    ensures !HasDuplicates(ws) ==> r == ws
    ensures HasDuplicates(ws) ==> forall i :: 0 <= i < |r| ==> r[i] == i as real
  {
    if HasDuplicates(ws) then seq(|ws|, i requires 0 <= i < |ws| => i as real) else ws
  }

  /** What `addSOS1` receives: the variables, by name, and their priorities. */
  datatype SosRow = SosRow(names: seq<string>, weights: seq<real>)

  function TranslateSos(s: Sos1Constraint): (r: SosRow)
    ensures |r.names| == |s.variables| && forall i :: 0 <= i < |s.variables| ==> r.names[i] == s.variables[i].name
    ensures |r.weights| == |s.weights| && !HasDuplicates(r.weights)
    ensures SosAccepted(s) ==> r.names != [] && |r.names| == |r.weights|
  {
    SosRow(seq(|s.variables|, i requires 0 <= i < |s.variables| => s.variables[i].name), PriorityWeights(s.weights))
  }

  function TranslateSoss(ss: seq<Sos1Constraint>): (r: seq<SosRow>)
    ensures |r| == |ss| && forall i :: 0 <= i < |ss| ==> r[i] == TranslateSos(ss[i])
  {
    seq(|ss|, i requires 0 <= i < |ss| => TranslateSos(ss[i]))
  }

  // ---------------------------------------------------------------------------
  // buildILPProblem

  /** Everything the translation hands to CPLEX. */
  datatype CplexModel = CplexModel(variables: map<string, Variable>, objective: CplexObjective,
                                   rows: seq<Row>, sos: seq<SosRow>)

  /** Every variable named by the CPLEX objective `o` is among the names `m`. */
  predicate ObjectiveIn(o: CplexObjective, m: set<string>) {
    CoefsRegistered(o.linear, m) && TermsRegistered(o.quadratic, m)
  }

  predicate CoefsRegistered(cs: seq<Coef>, m: set<string>) {
    forall i :: 0 <= i < |cs| ==> cs[i].name in m
  }

  /**
   * Every variable the objective hands to CPLEX has a CPLEX variable, so no
   * `cplexVars.get` in `translateObjective` yields `null`.
   */
  predicate ObjectiveBound(m: CplexModel) {
    ObjectiveIn(m.objective, m.variables.Keys)
  }

  lemma {:induction false} QuadraticPartMembers(ts: seq<Term>)
    ensures forall t :: t in QuadraticPart(ts) <==> t in ts && t.QuadraticTerm?
    decreases |ts|
  {
    if ts != [] {
      var init := ts[..|ts| - 1];
      QuadraticPartMembers(init);
      assert ts == init + [ts[|ts| - 1]];
    }
  }

  /** The merged linear coefficients and the quadratic terms name exactly the variables of `ts`. */
  lemma MergedRegistered(ts: seq<Term>, m: set<string>)
    ensures CoefsRegistered(Coefficients(ts), m) && TermsRegistered(QuadraticPart(ts), m) <==> TermsRegistered(ts, m)
  {
    if TermsRegistered(ts, m) {
      RegisteredMerges(ts, m);
    }
    if CoefsRegistered(Coefficients(ts), m) && TermsRegistered(QuadraticPart(ts), m) {
      MergesRegistered(ts, m);
    }
  }

  lemma RegisteredMerges(ts: seq<Term>, m: set<string>)
    requires TermsRegistered(ts, m)
    ensures CoefsRegistered(Coefficients(ts), m) && TermsRegistered(QuadraticPart(ts), m)
  {
    CoefficientsMerge(ts);
    QuadraticPartMembers(ts);
    var lin, quad := Coefficients(ts), QuadraticPart(ts);
    forall i | 0 <= i < |lin| ensures lin[i].name in m {
      assert lin[i].name in CoefNames(lin);
      var k :| 0 <= k < |ts| && ts[k].LinearTerm? && ts[k].var1.name == lin[i].name;
    }
    forall i | 0 <= i < |quad| ensures quad[i].var1.name in m && (quad[i].QuadraticTerm? ==> quad[i].var2.name in m) {
      assert quad[i] in quad;
      var k :| 0 <= k < |ts| && ts[k] == quad[i];
    }
  }

  lemma MergesRegistered(ts: seq<Term>, m: set<string>)
    requires CoefsRegistered(Coefficients(ts), m) && TermsRegistered(QuadraticPart(ts), m)
    ensures TermsRegistered(ts, m)
  {
    CoefficientsMerge(ts);
    QuadraticPartMembers(ts);
    var lin, quad := Coefficients(ts), QuadraticPart(ts);
    forall k | 0 <= k < |ts| ensures ts[k].var1.name in m && (ts[k].QuadraticTerm? ==> ts[k].var2.name in m) {
      if ts[k].LinearTerm? {
        assert NamesLinear(ts, ts[k].var1.name);
        assert ts[k].var1.name in CoefNames(lin);
        var i :| 0 <= i < |lin| && lin[i].name == ts[k].var1.name;
      } else {
        assert ts[k] in quad;
        var i :| 0 <= i < |quad| && quad[i] == ts[k];
      }
    }
  }

  /**
   * The CPLEX objective refers only to CPLEX variables exactly when every
   * variable of the expanded objective is registered in the problem. Only
   * the top-level terms are registered by `setObjective`
   * (`Problems.NestedNotRegistered`), so a variable used only in a nested
   * function breaks this.
   */
  lemma TranslateProblemBound(c: SolverConfig, q: Problem)
    requires TranslateProblem(c, q).Success?
    ensures ObjectiveBound(TranslateProblem(c, q).value)
            <==> TermsRegistered(Expand(q.objective.value).terms, q.variables.Keys)
  {
    var o := TranslateObjective(q).value;
    assert TranslateProblem(c, q).value.objective == o;
    MergedRegistered(Expand(q.objective.value).terms, q.variables.Keys);
  }

  /** The lowering `buildILPProblem` applies: `substituteOr`, then `substituteOperators`, and no SOS1 pass. */
  function LowerForCplex(p: Problem, n: nat): (r: Result<Lowered>)
    ensures r.Success? ==> SubstituteOr(p, n).Success?
    ensures r.Success? ==>
              var a := SubstituteOr(p, n).value;
              && SubstituteOperators(a.problem, a.next).Success?
              && r.value == SubstituteOperators(a.problem, a.next).value
  {
    var a :- SubstituteOr(p, n);
    SubstituteOperators(a.problem, a.next)
  }

  /**
   * The translation part of `buildILPProblem` on a lowered problem: the
   * variables, the objective, the normal and the SOS1 constraints in that
   * order, the first failure winning.
   */
  function TranslateProblem(c: SolverConfig, q: Problem): (r: Result<CplexModel>)
    ensures r.Failure? <==> SomeCrossed(c, q.variables) || q.objective.None? || TranslateNormals(q).Failure?
    ensures SomeCrossed(c, q.variables) ==> r.error == IllegalArgument(BoundsOrderMessage)
    ensures !SomeCrossed(c, q.variables) && q.objective.None? ==> r.error == NullPointer
    ensures !SomeCrossed(c, q.variables) && q.objective.Some? && r.Failure? ==> r.error == TranslateNormals(q).error
    ensures r.Success? ==> r.value.variables.Keys == q.variables.Keys
    ensures r.Success? ==> |r.value.rows| == ConstraintCount(q) && |r.value.sos| == SosConstraintCount(q)
  {
    var vs :- TranslateVariables(c, q.variables);
    var obj :- TranslateObjective(q);
    var rows :- TranslateNormals(q);
    Success(CplexModel(vs, obj, rows, TranslateSoss(q.sosConstraints)))
  }

  /**
   * `buildILPProblem`: a problem with general constraints is refused;
   * otherwise it is lowered and translated.
   */
  function BuildIlpProblem(c: SolverConfig, p: Problem, n: nat): (r: Result<CplexModel>)
    ensures GenConstraintCount(p) != 0 ==> r == Failure(IllegalArgument(GeneralUnsupportedMessage))
    ensures GenConstraintCount(p) == 0 && LowerForCplex(p, n).Failure? ==> r == Failure(LowerForCplex(p, n).error)
    ensures GenConstraintCount(p) == 0 && LowerForCplex(p, n).Success? ==>
              r == TranslateProblem(c, LowerForCplex(p, n).value.problem)
  {
    if GenConstraintCount(p) != 0 then Failure(IllegalArgument(GeneralUnsupportedMessage))
    else
      var l :- LowerForCplex(p, n);
      TranslateProblem(c, l.problem)
  }

  /** Every quadratic constraint of `cs` uses `<=`, `>=` or `=`. */
  predicate QuadraticsConverted(cs: seq<NormalConstraint>) {
    forall i :: 0 <= i < |cs| && cs[i].QuadraticNormal? ==> IsCanonical(cs[i].quad.op)
  }

  lemma QuadraticsAppendLinear(cs: seq<NormalConstraint>, ls: seq<LinearConstraint>)
    ensures QuadraticsConverted(cs + AsNormal(ls)) <==> QuadraticsConverted(cs)
  {
    var r := cs + AsNormal(ls);
    assert forall i :: 0 <= i < |cs| ==> r[i] == cs[i];
    assert forall i :: |cs| <= i < |r| ==> r[i] == LinearNormal(ls[i - |cs|]);
  }

  lemma QuadraticsInKept(cs: seq<NormalConstraint>)
    requires QuadraticsConverted(cs)
    ensures QuadraticsConverted(Kept(cs))
  {
    var k := Kept(cs);
    forall i | 0 <= i < |k| && k[i].QuadraticNormal? ensures IsCanonical(k[i].quad.op) {
      assert k[i] in cs;
      var j :| 0 <= j < |cs| && cs[j] == k[i];
    }
  }

  /**
   * On a problem built by `add`, the lowering of `buildILPProblem` leaves no
   * Or constraint, no linear constraint with `<`, `>` or `!=` and no new
   * quadratic constraint; the objective and the general constraints are
   * untouched.
   */
  lemma LowerForCplexShape(p: Problem, n: nat)
    requires WellFormed(p) && LowerForCplex(p, n).Success?
    ensures var q := LowerForCplex(p, n).value.problem;
            && q.orConstraints == [] && q.genConstraints == p.genConstraints && q.objective == p.objective
            && AllPassThrough(q.constraints) && WellFormed(q) && (Registered(p) ==> Registered(q))
            && (QuadraticsConverted(p.constraints) <==> QuadraticsConverted(q.constraints))
  {
    var a := SubstituteOr(p, n).value;
    SubstituteOrOutcome(p, n);
    SubstituteOperatorsOutcome(a.problem, a.next);
    var emitted := ConvertOrs(p.orConstraints, n).value.constraints;
    QuadraticsAppendLinear(p.constraints, Linears(emitted));
    var emitted' := RewriteAll(a.problem.constraints, a.next).value.constraints;
    QuadraticsAppendLinear(Kept(a.problem.constraints), Linears(emitted'));
    if QuadraticsConverted(a.problem.constraints) {
      QuadraticsInKept(a.problem.constraints);
    } else {
      QuadraticSurvives(a.problem.constraints);
    }
  }

  /** A quadratic constraint always passes through, so one with a strict operator stays. */
  lemma QuadraticSurvives(cs: seq<NormalConstraint>)
    requires !QuadraticsConverted(cs)
    ensures !QuadraticsConverted(Kept(cs))
  {
    var i :| 0 <= i < |cs| && cs[i].QuadraticNormal? && !IsCanonical(cs[i].quad.op);
    assert cs[i] in Kept(cs);
    var k := Kept(cs);
    var j :| 0 <= j < |k| && k[j] == cs[i];
  }

  /** The lowering of `buildILPProblem` throws exactly when the full lowering does. */
  lemma LowerForCplexAccepts(p: Problem, n: nat)
    requires WellFormed(p)
    ensures LowerForCplex(p, n).Success? <==> !SomeOrQuadratic(p.orConstraints) && !SomeLinearQuadratic(p.constraints)
  {
    SubstituteOrOutcome(p, n);
    if SubstituteOr(p, n).Success? {
      var a := SubstituteOr(p, n).value;
      Pipeline.OrAddsNoQuadratic(p, n);
      SubstituteOperatorsOutcome(a.problem, a.next);
    }
  }

  /**
   * On a problem built by `add` with an objective, no general constraint
   * and nothing the passes refuse, the `Error`s of
   * `translateNormalConstraints` are never thrown as long as the quadratic
   * constraints use `<=`, `>=` or `=`: the build fails exactly when some
   * variable ends up with crossed bounds.
   */
  lemma BuildOutcome(c: SolverConfig, p: Problem, n: nat)
    requires WellFormed(p) && GenConstraintCount(p) == 0 && p.objective.Some?
    requires !SomeOrQuadratic(p.orConstraints) && !SomeLinearQuadratic(p.constraints)
    requires QuadraticsConverted(p.constraints)
    ensures LowerForCplex(p, n).Success?
    ensures BuildIlpProblem(c, p, n).Failure? <==> SomeCrossed(c, LowerForCplex(p, n).value.problem.variables)
  {
    LowerForCplexAccepts(p, n);
    LowerForCplexShape(p, n);
    TranslateLoweredOutcome(c, LowerForCplex(p, n).value.problem);
  }

  /** On a lowered problem only crossed bounds or a strict quadratic constraint can stop the translation. */
  lemma TranslateLoweredOutcome(c: SolverConfig, q: Problem)
    requires q.orConstraints == [] && q.genConstraints == [] && q.objective.Some?
    requires AllPassThrough(q.constraints)
    ensures QuadraticsConverted(q.constraints) ==>
              (TranslateProblem(c, q).Failure? <==> SomeCrossed(c, q.variables))
    ensures !QuadraticsConverted(q.constraints) && !SomeCrossed(c, q.variables) ==>
              TranslateProblem(c, q) == Failure(Fatal(NotConvertedMessage))
  {
    if QuadraticsConverted(q.constraints) {
      assert !SomeUnconverted(q.constraints) by {
        forall i | 0 <= i < |q.constraints| ensures IsCanonical(Op(q.constraints[i])) {
          assert PassesThrough(q.constraints[i]);
        }
      }
    } else {
      var i :| 0 <= i < |q.constraints| && q.constraints[i].QuadraticNormal? && !IsCanonical(q.constraints[i].quad.op);
      assert !IsCanonical(Op(q.constraints[i]));
    }
  }

  /**
   * A quadratic constraint with `<`, `>` or `!=` passes through both passes
   * and reaches the `Error` of `translateNormalConstraints`.
   */
  lemma BuildRejectsStrictQuadratic(c: SolverConfig, p: Problem, n: nat)
    requires WellFormed(p) && GenConstraintCount(p) == 0 && p.objective.Some?
    requires !SomeOrQuadratic(p.orConstraints) && !SomeLinearQuadratic(p.constraints)
    requires !QuadraticsConverted(p.constraints)
    requires LowerForCplex(p, n).Success? ==> !SomeCrossed(c, LowerForCplex(p, n).value.problem.variables)
    ensures BuildIlpProblem(c, p, n) == Failure(Fatal(NotConvertedMessage))
  {
    LowerForCplexAccepts(p, n);
    LowerForCplexShape(p, n);
    TranslateLoweredOutcome(c, LowerForCplex(p, n).value.problem);
  }
}
