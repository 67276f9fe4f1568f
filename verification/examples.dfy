/**
 * The scenarios of the repository's unit tests, stated over the model:
 * the shapes and sizes the tests expect after `expand`, `convert`,
 * `convertOperator`, the operator pass and the CPLEX bound override.
 */
module Scenarios {
  import opened Wrappers
  import opened Variables
  import opened Operators
  import opened Expressions
  import opened Constraints
  import opened Problems
  import opened Passes
  import OrEncoding
  import OperatorRewrite
  import Sos1Encoding
  import Cplex

  /** A linear constraint built from a list holding a quadratic term is refused. */
  lemma LinearTermsRejected()
    ensures var x, y, z := NewBinary("x"), NewBinary("y"), NewBinary("z");
            NewConstraint([LinearTerm(x, 1.0), LinearTerm(y, 2.0), QuadraticTerm(z, z, 3.0)],
                          LessOrEqual, 4.0, DefaultEpsilon)
            == Failure(IllegalArgument(QuadraticLhsMessage))
  {
    var x, y, z := NewBinary("x"), NewBinary("y"), NewBinary("z");
    var ts := [LinearTerm(x, 1.0), LinearTerm(y, 2.0), QuadraticTerm(z, z, 3.0)];
    assert !AllLinear(ts) by {
      assert !ts[2].LinearTerm?;
    }
  }

  /** `2*((x + y + 42) + 2*z) + 17` expands to three terms and the constants 17 and 84. */
  lemma LinearExpandExample()
    ensures var x, y, z := NewBinary("x"), NewBinary("y"), NewBinary("z");
            var f := AddConstant(Expressions.AddLinearTerm(Expressions.AddLinearTerm(NewLinearFunction(), x, 1.0), y, 1.0), 42.0);
            var g := Expressions.AddLinearTerm(AddNestedFunction(NewLinearFunction(), f, 1.0).value, z, 2.0);
            var h := AddNestedFunction(NewLinearFunction(), g, 2.0).value;
            var lin := AddConstant(AddNestedFunction(NewLinearFunction(), h, 1.0).value, 17.0);
            var e := Expand(lin);
            && |lin.nested| == 1 && e.nested == [] && |e.terms| == 3
            && e.constants == [Constant(17.0), Constant(84.0)]
  {
    var x, y, z := NewBinary("x"), NewBinary("y"), NewBinary("z");
    var f := AddConstant(Expressions.AddLinearTerm(Expressions.AddLinearTerm(NewLinearFunction(), x, 1.0), y, 1.0), 42.0);
    var g := Expressions.AddLinearTerm(AddNestedFunction(NewLinearFunction(), f, 1.0).value, z, 2.0);
    var h := AddNestedFunction(NewLinearFunction(), g, 2.0).value;
    var lin := AddConstant(AddNestedFunction(NewLinearFunction(), h, 1.0).value, 17.0);
    assert f == Function(LinearShape, [LinearTerm(x, 1.0), LinearTerm(y, 1.0)], [Constant(42.0)], []);
    assert g == Function(LinearShape, [LinearTerm(z, 2.0)], [], [WeightedFunction(f, 1.0)]);
    assert h == Function(LinearShape, [], [], [WeightedFunction(g, 2.0)]);
    assert lin == Function(LinearShape, [], [Constant(17.0)], [WeightedFunction(h, 1.0)]);
    LinearExpandChain(f, g, h, lin);
  }

  /** The expansion of the example, from the shapes of its four functions. */
  lemma LinearExpandChain(f: Function, g: Function, h: Function, lin: Function)
    requires f.nested == [] && |f.terms| == 2 && f.constants == [Constant(42.0)]
    requires g.nested == [WeightedFunction(f, 1.0)] && |g.terms| == 1 && g.constants == []
    requires h.nested == [WeightedFunction(g, 2.0)] && h.terms == [] && h.constants == []
    requires lin.nested == [WeightedFunction(h, 1.0)] && lin.terms == [] && lin.constants == [Constant(17.0)]
    ensures |Expand(lin).terms| == 3 && Expand(lin).constants == [Constant(17.0), Constant(84.0)]
  {
    ExpandSingle(g, f, 1.0);
    assert ScaleConstants([Constant(42.0)], 1.0) == [Constant(42.0)] by {
      assert [Constant(42.0)][1..] == [];
    }
    assert |Expand(g).terms| == 3 && Expand(g).constants == [Constant(42.0)];
    ExpandSingle(h, g, 2.0);
    assert ScaleConstants([Constant(42.0)], 2.0) == [Constant(84.0)] by {
      assert [Constant(42.0)][1..] == [];
    }
    assert |Expand(h).terms| == 3 && Expand(h).constants == [Constant(84.0)];
    ExpandSingle(lin, h, 1.0);
    assert ScaleConstants([Constant(84.0)], 1.0) == [Constant(84.0)] by {
      assert [Constant(84.0)][1..] == [];
    }
  }

  /** A linear function refuses a quadratic nested function. */
  lemma QuadraticNestedRejected()
    ensures var x, y := NewBinary("x"), NewBinary("y");
            var f := AddConstant(AddQuadraticTerm(Expressions.AddLinearTerm(NewQuadraticFunction(), x, 1.0), y, y, 1.0), 42.0);
            AddNestedFunction(NewLinearFunction(), f, 1.0).Failure?
  {
  }

  /** The quadratic variant: five terms and the single constant 84 after `expand`. */
  lemma QuadraticExpandExample()
    ensures var x, y, z := NewBinary("x"), NewBinary("y"), NewBinary("z");
            var f := AddConstant(AddQuadraticTerm(Expressions.AddLinearTerm(NewQuadraticFunction(), x, 1.0), y, y, 1.0), 42.0);
            var g := Expressions.AddLinearTerm(AddNestedFunction(NewQuadraticFunction(), f, 1.0).value, z, 2.0);
            var q := AddQuadraticTerm(Expressions.AddLinearTerm(AddNestedFunction(NewQuadraticFunction(), g, 2.0).value, y, 1.0), y, y, 2.0);
            var e := Expand(q);
            && |q.nested| == 1 && e.nested == [] && |e.terms| == 5 && e.constants == [Constant(84.0)]
  {
    var x, y, z := NewBinary("x"), NewBinary("y"), NewBinary("z");
    var f := AddConstant(AddQuadraticTerm(Expressions.AddLinearTerm(NewQuadraticFunction(), x, 1.0), y, y, 1.0), 42.0);
    var g := Expressions.AddLinearTerm(AddNestedFunction(NewQuadraticFunction(), f, 1.0).value, z, 2.0);
    var q := AddQuadraticTerm(Expressions.AddLinearTerm(AddNestedFunction(NewQuadraticFunction(), g, 2.0).value, y, 1.0), y, y, 2.0);
    assert f == Function(QuadraticShape, [LinearTerm(x, 1.0), QuadraticTerm(y, y, 1.0)], [Constant(42.0)], []);
    assert g == Function(QuadraticShape, [LinearTerm(z, 2.0)], [], [WeightedFunction(f, 1.0)]);
    assert q == Function(QuadraticShape, [LinearTerm(y, 1.0), QuadraticTerm(y, y, 2.0)], [],
                         [WeightedFunction(g, 2.0)]);
    ExpandSingle(g, f, 1.0);
    assert |Expand(g).terms| == 3 && Expand(g).constants == [Constant(42.0)];
    ExpandSingle(q, g, 2.0);
  }

  /** `expand` of a function with a single nested function, one level unfolded. */
  lemma ExpandSingle(f: Function, g: Function, w: real)
    requires f.nested == [WeightedFunction(g, w)]
    ensures Expand(f) == Function(f.shape, f.terms + ScaleTerms(Expand(g).terms, w),
                                  f.constants + ScaleConstants(Expand(g).constants, w), [])
  {
    assert NestedTerms(f, 0) == ScaleTerms(Expand(g).terms, w) + NestedTerms(f, 1);
    assert NestedConstants(f, 0) == ScaleConstants(Expand(g).constants, w) + NestedConstants(f, 1);
  }

  /** An Or of two `<=` disjuncts converts to 7 + 7 + 1 = 15 constraints. */
  lemma OrSubstitutionExample(n: nat)
    ensures var x, y := NewBinary("x"), NewBinary("y");
            var c1 := Constraints.AddLinearTerm(Constraints.AddLinearTerm(EmptyConstraint(LessOrEqual, 4.0, DefaultEpsilon), x, 1.0), y, 2.0);
            var c2 := Constraints.AddLinearTerm(Constraints.AddLinearTerm(EmptyConstraint(LessOrEqual, 4.0, DefaultEpsilon), x, 1.0), y, 2.0);
            var o := OrEncoding.NewOr([c1, c2], NewBinary("or"));
            OrEncoding.ConvertAsWritten(o, n).Success? && |OrEncoding.ConvertAsWritten(o, n).value.constraints| == 15
  {
    var x, y := NewBinary("x"), NewBinary("y");
    var c1 := Constraints.AddLinearTerm(Constraints.AddLinearTerm(EmptyConstraint(LessOrEqual, 4.0, DefaultEpsilon), x, 1.0), y, 2.0);
    var o := OrEncoding.NewOr([c1, c1], NewBinary("or"));
    assert c1.lhs == [LinearTerm(x, 1.0), LinearTerm(y, 2.0)];
    assert !OrEncoding.SomeQuadratic(o.constraints);
    assert c1.op == LessOrEqual && [c1, c1][1..] == [c1] && [c1][1..] == [];
    assert OrEncoding.EmittedCount([c1]) == 7;
    assert OrEncoding.EmittedCount(o.constraints) == 14;
  }

  // ---------------------------------------------------------------------------
  // Or(x <= 3, y >= 10): feasible with x = 4 and y = 10 (the second disjunct
  // holds), and infeasible at x = 4, y = 5, where neither holds

  function ExampleOr(): OrEncoding.OrConstraint {
    OrEncoding.NewOr([Constraints.AddLinearTerm(EmptyConstraint(LessOrEqual, 3.0, DefaultEpsilon), NewInteger("x"), 1.0),
                      Constraints.AddLinearTerm(EmptyConstraint(GreaterOrEqual, 10.0, DefaultEpsilon), NewInteger("y"), 1.0)],
                     NewBinary("or"))
  }

  /** The two disjuncts of the example: `x <= 3` and `y >= 10`, both linear. */
  lemma ExampleDisjuncts()
    ensures var o := ExampleOr();
            && |o.constraints| == 2 && !OrEncoding.SomeQuadratic(o.constraints)
            && o.constraints[0].op == LessOrEqual && o.constraints[0].rhs == 3.0
            && o.constraints[1].op == GreaterOrEqual && o.constraints[1].rhs == 10.0
            && o.epsilon == DefaultEpsilon
            && (forall a :: TermsValue(o.constraints[0].lhs, a) == a("x") && TermsValue(o.constraints[1].lhs, a) == a("y"))
  {
    var cs := ExampleOr().constraints;
    assert cs[0].lhs == [LinearTerm(NewInteger("x"), 1.0)] && cs[1].lhs == [LinearTerm(NewInteger("y"), 1.0)];
    assert !OrEncoding.SomeQuadratic(cs) by {
      assert AllLinear(cs[0].lhs) && AllLinear(cs[1].lhs);
    }
  }

  /** The example converts to one inequality block per disjunct. */
  lemma ExampleBlocks()
    ensures var o := ExampleOr();
            && !OrEncoding.SomeQuadratic(o.constraints)
            && OrEncoding.Blocks(o, 0)
               == OrEncoding.InequalityBlock(o.constraints[0], 0, o.epsilon)
                  + OrEncoding.InequalityBlock(o.constraints[1], 1, o.epsilon)
  {
    var o := ExampleOr();
    ExampleDisjuncts();
    var cs := o.constraints;
    var parts := OrEncoding.Parts(cs, 0, o.epsilon);
    assert parts[0] == OrEncoding.Block(cs[0], 0, o.epsilon).value;
    assert parts[1] == OrEncoding.Block(cs[1], 1, o.epsilon).value;
    assert parts[1..][0] == parts[1] && parts[1..][1..] == [];
    assert OrEncoding.Flatten(parts[1..]) == parts[1] + OrEncoding.Flatten([]);
  }

  lemma ExampleNames()
    ensures OrEncoding.SName(0) == "s_0" && OrEncoding.SPrimeName(0) == "s_prime_0"
    ensures OrEncoding.PhiName(0) == "phi_0" && OrEncoding.PhiPrimeName(0) == "phi_prime_0"
    ensures OrEncoding.SName(1) == "s_1" && OrEncoding.SPrimeName(1) == "s_prime_1"
    ensures OrEncoding.PhiName(1) == "phi_1" && OrEncoding.PhiPrimeName(1) == "phi_prime_1"
  {
  }

  /** The block of `x <= 3` holds at `x = 4` with its indicator off. */
  lemma ExampleFirstBlockOff(b: Assignment)
    requires b("x") == 4.0
    requires b(OrEncoding.SName(0)) == 0.0 && b(OrEncoding.SPrimeName(0)) == 1.0
    requires b(OrEncoding.PhiName(0)) == 1.0 && b(OrEncoding.PhiPrimeName(0)) == 0.0
    ensures AllHold(OrEncoding.InequalityBlock(ExampleOr().constraints[0], 0, DefaultEpsilon), b)
  {
    ExampleDisjuncts();
    OrEncoding.InequalityValuesSatisfy(ExampleOr().constraints[0], 0, DefaultEpsilon, b);
  }

  /** The block of `y >= 10` holds at `y = 5` with its indicator off. */
  lemma ExampleSecondBlockOff(b: Assignment)
    requires b("y") == 5.0
    requires b(OrEncoding.SName(1)) == 0.0 && b(OrEncoding.SPrimeName(1)) == 1.0
    requires b(OrEncoding.PhiName(1)) == 5.0 && b(OrEncoding.PhiPrimeName(1)) == 0.0
    ensures AllHold(OrEncoding.InequalityBlock(ExampleOr().constraints[1], 1, DefaultEpsilon), b)
  {
    ExampleDisjuncts();
    OrEncoding.InequalityValuesSatisfy(ExampleOr().constraints[1], 1, DefaultEpsilon, b);
  }

  /** The block of `y >= 10` holds at `y = 10` with its indicator on. */
  lemma ExampleSecondBlockOn(b: Assignment)
    requires b("y") == 10.0
    requires b(OrEncoding.SName(1)) == 1.0 && b(OrEncoding.SPrimeName(1)) == 0.0
    requires b(OrEncoding.PhiName(1)) == 0.0 && b(OrEncoding.PhiPrimeName(1)) == 1.0
    ensures AllHold(OrEncoding.InequalityBlock(ExampleOr().constraints[1], 1, DefaultEpsilon), b)
  {
    ExampleDisjuncts();
    OrEncoding.InequalityValuesSatisfy(ExampleOr().constraints[1], 1, DefaultEpsilon, b);
  }

  /** The example's closing constraint with right-hand side `rhs` holds where `s_0 + s_1 >= rhs`. */
  lemma ExampleClosing(rhs: real, b: Assignment)
    requires b(OrEncoding.SName(0)) + b(OrEncoding.SName(1)) >= rhs
    ensures AllHold([Lin(OrEncoding.Closing(0, 2, rhs))], b)
  {
    var ts := OrEncoding.ClosingTerms(0, 2);
    assert ts == [LinearTerm(OrEncoding.S(0), 1.0), LinearTerm(OrEncoding.S(1), 1.0)];
    TermsValuePair(ts[0], ts[1], b);
    assert ConstraintHolds([Lin(OrEncoding.Closing(0, 2, rhs))][0], b);
  }

  /** The example's conversion holds where its two blocks and its closing constraint do. */
  lemma ExampleHolds(rhs: real, b: Assignment)
    requires AllHold(OrEncoding.InequalityBlock(ExampleOr().constraints[0], 0, DefaultEpsilon), b)
    requires AllHold(OrEncoding.InequalityBlock(ExampleOr().constraints[1], 1, DefaultEpsilon), b)
    requires AllHold([Lin(OrEncoding.Closing(0, 2, rhs))], b)
    ensures AllHold(OrEncoding.Blocks(ExampleOr(), 0) + [Lin(OrEncoding.Closing(0, 2, rhs))], b)
  {
    var o := ExampleOr();
    ExampleBlocks();
    ExampleDisjuncts();
    OrEncoding.AllHoldAppend(OrEncoding.InequalityBlock(o.constraints[0], 0, o.epsilon),
                             OrEncoding.InequalityBlock(o.constraints[1], 1, o.epsilon), b);
    OrEncoding.AllHoldAppend(OrEncoding.Blocks(o, 0), [Lin(OrEncoding.Closing(0, 2, rhs))], b);
  }

  /**
   * As written, the conversion of the example holds at `x = 4`, `y = 5`,
   * where neither disjunct does: both indicators 0, the slacks absorbing
   * the violations, and the closing `s_0 + s_1 >= 0` met.
   */
  lemma OrExampleAsWrittenHolds(b: Assignment)
    requires b("x") == 4.0 && b("y") == 5.0
    requires b(OrEncoding.SName(0)) == 0.0 && b(OrEncoding.SPrimeName(0)) == 1.0
    requires b(OrEncoding.PhiName(0)) == 1.0 && b(OrEncoding.PhiPrimeName(0)) == 0.0
    requires b(OrEncoding.SName(1)) == 0.0 && b(OrEncoding.SPrimeName(1)) == 1.0
    requires b(OrEncoding.PhiName(1)) == 5.0 && b(OrEncoding.PhiPrimeName(1)) == 0.0
    ensures OrEncoding.ConvertAsWritten(ExampleOr(), 0).Success?
    ensures !OrEncoding.DisjunctionHolds(ExampleOr(), b)
    ensures AllHold(OrEncoding.ConvertAsWritten(ExampleOr(), 0).value.constraints, b)
  {
    ExampleBlocks();
    ExampleDisjuncts();
    ExampleFirstBlockOff(b);
    ExampleSecondBlockOff(b);
    ExampleClosing(0.0, b);
    ExampleHolds(0.0, b);
  }

  /** The corrected conversion of the example holds at `x = 4`, `y = 10`, with `s_1 = 1`. */
  lemma OrExampleHolds(b: Assignment)
    requires b("x") == 4.0 && b("y") == 10.0
    requires b(OrEncoding.SName(0)) == 0.0 && b(OrEncoding.SPrimeName(0)) == 1.0
    requires b(OrEncoding.PhiName(0)) == 1.0 && b(OrEncoding.PhiPrimeName(0)) == 0.0
    requires b(OrEncoding.SName(1)) == 1.0 && b(OrEncoding.SPrimeName(1)) == 0.0
    requires b(OrEncoding.PhiName(1)) == 0.0 && b(OrEncoding.PhiPrimeName(1)) == 1.0
    ensures OrEncoding.Convert(ExampleOr(), 0).Success?
    ensures OrEncoding.DisjunctionHolds(ExampleOr(), b)
    ensures AllHold(OrEncoding.Convert(ExampleOr(), 0).value.constraints, b)
  {
    ExampleBlocks();
    ExampleDisjuncts();
    ExampleFirstBlockOff(b);
    ExampleSecondBlockOn(b);
    ExampleClosing(1.0, b);
    ExampleHolds(1.0, b);
    assert Satisfied(ExampleOr().constraints[1], b);
  }

  /** Some assignment with `x = 4` and `y = 5` satisfies the conversion as written. */
  lemma OrExampleAsWrittenFeasible()
    ensures OrEncoding.ConvertAsWritten(ExampleOr(), 0).Success?
    ensures exists b: Assignment :: b("x") == 4.0 && b("y") == 5.0
              && AllHold(OrEncoding.ConvertAsWritten(ExampleOr(), 0).value.constraints, b)
  {
    ExampleNames();
    var b: Assignment := m =>
      if m == "x" then 4.0 else if m == "y" then 5.0
      else if m == "s_prime_0" || m == "phi_0" || m == "s_prime_1" then 1.0
      else if m == "phi_1" then 5.0 else 0.0;
    OrExampleAsWrittenHolds(b);
  }

  /** Some assignment with `x = 4` and `y = 10` satisfies the corrected conversion. */
  lemma OrExampleFeasible()
    ensures OrEncoding.Convert(ExampleOr(), 0).Success?
    ensures exists b: Assignment :: b("x") == 4.0 && b("y") == 10.0
              && AllHold(OrEncoding.Convert(ExampleOr(), 0).value.constraints, b)
  {
    ExampleNames();
    var b: Assignment := m =>
      if m == "x" then 4.0 else if m == "y" then 10.0
      else if m == "s_prime_0" || m == "phi_0" || m == "s_1" || m == "phi_prime_1" then 1.0
      else 0.0;
    OrExampleHolds(b);
  }

  /** The corrected conversion of the example has no solution with `x = 4`, `y = 5` and binary indicators. */
  lemma OrExampleInfeasible(a: Assignment)
    requires a("x") == 4.0 && a("y") == 5.0
    requires a(OrEncoding.SName(0)) == 0.0 || a(OrEncoding.SName(0)) == 1.0
    requires a(OrEncoding.SName(1)) == 0.0 || a(OrEncoding.SName(1)) == 1.0
    ensures OrEncoding.Convert(ExampleOr(), 0).Success?
    ensures !AllHold(OrEncoding.Convert(ExampleOr(), 0).value.constraints, a)
  {
    var o := ExampleOr();
    ExampleDisjuncts();
    assert !OrEncoding.DisjunctionHolds(o, a) by {
      assert !Satisfied(o.constraints[0], a) && !Satisfied(o.constraints[1], a);
    }
    forall j: nat | 0 <= j < 0 + |o.constraints|
      ensures a(OrEncoding.SName(j)) == 0.0 || a(OrEncoding.SName(j)) == 1.0
    {
      if j == 0 {
      } else {
        assert j == 1;
      }
    }
    assert forall i :: 0 <= i < |o.constraints| ==> o.constraints[i].op != NotEqual;
    if AllHold(OrEncoding.Convert(o, 0).value.constraints, a) {
      OrEncoding.ConvertSound(o, 0, a);
      assert false;
    }
  }


  /** An SOS1 constraint over three variables converts to 2 * 3 + 1 = 7 linear constraints. */
  lemma Sos1SubstitutionExample()
    ensures var s := SetVariables(NewEmptySos1(), [NewBinary("x"), NewBinary("y"), NewBinary("z")]);
            |Sos1Encoding.Convert(s).constraints| == 7
  {
  }

  /**
   * `<` with rhs 5 and epsilon 1 becomes `<= 4` over the same terms, `>`
   * with rhs 4 becomes `>= 5`, and `!=` becomes four constraints whose
   * second is an SOS1 constraint.
   */
  lemma OperatorSubstitutionExample(n: nat)
    ensures var x, y := NewBinary("x"), NewBinary("y");
            var less := Constraints.AddLinearTerm(Constraints.AddLinearTerm(EmptyConstraint(Less, 5.0, 1.0), x, 1.0), y, 2.0);
            var r := OperatorRewrite.ConvertOperator(less, n);
            && r.Success? && |r.value.constraints| == 1 && r.value.constraints[0].Lin?
            && r.value.constraints[0].lin.op == LessOrEqual && r.value.constraints[0].lin.rhs == 4.0
            && r.value.constraints[0].lin.lhs == less.lhs
    ensures var x, y := NewBinary("x"), NewBinary("y");
            var greater := Constraints.AddLinearTerm(Constraints.AddLinearTerm(EmptyConstraint(Greater, 4.0, 1.0), x, 10.0), y, 1.0);
            var r := OperatorRewrite.ConvertOperator(greater, n);
            && r.Success? && |r.value.constraints| == 1 && r.value.constraints[0].Lin?
            && r.value.constraints[0].lin.op == GreaterOrEqual && r.value.constraints[0].lin.rhs == 5.0
            && r.value.constraints[0].lin.lhs == greater.lhs
    ensures var x, y := NewBinary("x"), NewBinary("y");
            var notEqual := Constraints.AddLinearTerm(Constraints.AddLinearTerm(EmptyConstraint(NotEqual, 11.0, 1.0), x, 3.0), y, 9.0);
            var r := OperatorRewrite.ConvertOperator(notEqual, n);
            && r.Success? && |r.value.constraints| == 4 && r.value.constraints[1].Sos?
  {
    var x, y := NewBinary("x"), NewBinary("y");
    var less := Constraints.AddLinearTerm(Constraints.AddLinearTerm(EmptyConstraint(Less, 5.0, 1.0), x, 1.0), y, 2.0);
    assert AllLinear(less.lhs) by {
      assert less.lhs == [LinearTerm(x, 1.0), LinearTerm(y, 2.0)];
    }
    var greater := Constraints.AddLinearTerm(Constraints.AddLinearTerm(EmptyConstraint(Greater, 4.0, 1.0), x, 10.0), y, 1.0);
    assert AllLinear(greater.lhs) by {
      assert greater.lhs == [LinearTerm(x, 10.0), LinearTerm(y, 1.0)];
    }
    var notEqual := Constraints.AddLinearTerm(Constraints.AddLinearTerm(EmptyConstraint(NotEqual, 11.0, 1.0), x, 3.0), y, 9.0);
    assert AllLinear(notEqual.lhs) by {
      assert notEqual.lhs == [LinearTerm(x, 3.0), LinearTerm(y, 9.0)];
    }
  }

  /**
   * With the override enabled at -5 and 5, integer and real variables that
   * keep their default bounds are translated with bounds -5 and 5.
   */
  lemma BoundsOverrideExample()
    ensures var c := Cplex.SolverConfig(true, -5, 5);
            var i1, r1 := Cplex.Resolve(c, NewInteger("i1")), Cplex.Resolve(c, NewReal("r1"));
            && LowerBound(i1) == -5.0 && UpperBound(i1) == 5.0
            && LowerBound(r1) == -5.0 && UpperBound(r1) == 5.0
            && Cplex.TranslateVariable(c, NewInteger("i1")) == Success(i1)
  {
  }

  /**
   * A variable used only inside a nested objective function is never
   * registered, so the translation succeeds with an objective coefficient
   * whose CPLEX variable does not exist: `cplexVars.get("z")` is `null`.
   */
  lemma NestedObjectiveUnbound(c: Cplex.SolverConfig)
    ensures var inner := Expressions.AddLinearTerm(NewLinearFunction(), NewReal("z"), 1.0);
            var outer := NewLinearFunction().(nested := [WeightedFunction(inner, 1.0)]);
            var q := SetObjective(NewProblem(), Some(outer));
            && Cplex.TranslateProblem(c, q).Success?
            && "z" in Cplex.CoefNames(Cplex.TranslateProblem(c, q).value.objective.linear)
            && "z" !in Cplex.TranslateProblem(c, q).value.variables
            && !Cplex.ObjectiveBound(Cplex.TranslateProblem(c, q).value)
  {
    var z := NewReal("z");
    var inner := Expressions.AddLinearTerm(NewLinearFunction(), z, 1.0);
    var outer := NewLinearFunction().(nested := [WeightedFunction(inner, 1.0)]);
    var q := SetObjective(NewProblem(), Some(outer));
    assert inner.terms == [LinearTerm(z, 1.0)] && inner.nested == [];
    ExpandSingle(outer, inner, 1.0);
    var ts := Expand(outer).terms;
    assert ts == [LinearTerm(z, 1.0)] by {
      assert ScaleTerms([LinearTerm(z, 1.0)], 1.0) == [LinearTerm(z, 1.0)];
    }
    assert q.variables.Keys == {};
    assert Cplex.TranslateNormals(q).Success?;
    Cplex.TranslateProblemBound(c, q);
    assert !TermsRegistered(ts, q.variables.Keys);
    Cplex.CoefficientsMerge(ts);
    assert Cplex.NamesLinear(ts, "z");
  }

  /**
   * The problem of the CPLEX operator test: `i1 != 10000`, `r1 > 1` and the
   * quadratic `i2^2 < 4`. The lowering of `buildILPProblem` turns the three
   * constraints into five: the quadratic one kept, three linear members of
   * the `!=` rewrite and one for `>`.
   */
  lemma CplexOperatorExample(n: nat)
    ensures var i1, i2, r1 := NewInteger("i1"), NewInteger("i2"), NewReal("r1");
            var c1 := LinearNormal(Constraints.AddLinearTerm(EmptyConstraint(NotEqual, 10000.0, DefaultEpsilon), i1, 1.0));
            var c2 := LinearNormal(Constraints.AddLinearTerm(EmptyConstraint(Greater, 1.0, DefaultEpsilon), r1, 1.0));
            var c3 := QuadraticNormal(QuadraticConstraint([QuadraticTerm(i2, i2, 1.0)], Less, 4.0));
            var p := NewProblem().(constraints := [c1, c2, c3]);
            && Cplex.LowerForCplex(p, n).Success?
            && ConstraintCount(Cplex.LowerForCplex(p, n).value.problem) == 5
  {
    var i1, i2, r1 := NewInteger("i1"), NewInteger("i2"), NewReal("r1");
    var l1 := Constraints.AddLinearTerm(EmptyConstraint(NotEqual, 10000.0, DefaultEpsilon), i1, 1.0);
    var l2 := Constraints.AddLinearTerm(EmptyConstraint(Greater, 1.0, DefaultEpsilon), r1, 1.0);
    var c3 := QuadraticNormal(QuadraticConstraint([QuadraticTerm(i2, i2, 1.0)], Less, 4.0));
    var cs := [LinearNormal(l1), LinearNormal(l2), c3];
    var p := NewProblem().(constraints := cs);
    assert l1.lhs == [LinearTerm(i1, 1.0)] && l2.lhs == [LinearTerm(r1, 1.0)];
    assert WellFormed(p);
    assert !SomeLinearQuadratic(cs) by {
      forall i | 0 <= i < |cs| && cs[i].LinearNormal? ensures AllLinear(cs[i].lin.lhs) {
      }
    }
    Cplex.LowerForCplexAccepts(p, n);
    var a := SubstituteOr(p, n).value;
    assert ConvertOrs([], n).value.constraints == [];
    assert a.problem.constraints == cs;
    SubstituteOperatorsOutcome(a.problem, a.next);
    OperatorExampleCount(l1, l2, c3, a.next);
  }

  /** The counting half of the example: one kept constraint and four linear rewrites. */
  lemma OperatorExampleCount(l1: LinearConstraint, l2: LinearConstraint, c3: NormalConstraint, m: nat)
    requires l1.op == NotEqual && l2.op == Greater && c3.QuadraticNormal?
    requires AllLinear(l1.lhs) && AllLinear(l2.lhs)
    ensures var cs := [LinearNormal(l1), LinearNormal(l2), c3];
            |Kept(cs)| + |Linears(RewriteAll(cs, m).value.constraints)| == 5
  {
    OperatorExampleKept(l1, l2, c3);
    OperatorExampleRewrite(l1, l2, c3, m);
  }

  lemma OperatorExampleKept(l1: LinearConstraint, l2: LinearConstraint, c3: NormalConstraint)
    requires l1.op == NotEqual && l2.op == Greater && c3.QuadraticNormal?
    ensures Kept([LinearNormal(l1), LinearNormal(l2), c3]) == [c3]
  {
    var n1, n2 := LinearNormal(l1), LinearNormal(l2);
    assert !PassesThrough(n1) && !PassesThrough(n2) && PassesThrough(c3);
    KeptCons(c3, []);
    assert Kept([c3]) == [c3];
    KeptCons(n2, [c3]);
    assert Kept([n2, c3]) == [c3] by {
      assert [n2] + [c3] == [n2, c3];
    }
    KeptCons(n1, [n2, c3]);
    assert [n1] + [n2, c3] == [n1, n2, c3];
  }

  lemma OperatorExampleRewrite(l1: LinearConstraint, l2: LinearConstraint, c3: NormalConstraint, m: nat)
    requires l1.op == NotEqual && l2.op == Greater && c3.QuadraticNormal?
    requires AllLinear(l1.lhs) && AllLinear(l2.lhs)
    ensures |Linears(RewriteAll([LinearNormal(l1), LinearNormal(l2), c3], m).value.constraints)| == 4
  {
    var cs := [LinearNormal(l1), LinearNormal(l2), c3];
    assert cs == [LinearNormal(l1)] + [LinearNormal(l2), c3];
    assert [LinearNormal(l2), c3] == [LinearNormal(l2)] + [c3];
    assert [c3] == [c3] + [];
    var h1 := RewriteOne(LinearNormal(l1), m).value;
    var h2 := RewriteOne(LinearNormal(l2), h1.next).value;
    RewriteAllCons(LinearNormal(l1), [LinearNormal(l2), c3], m);
    RewriteAllCons(LinearNormal(l2), [c3], h1.next);
    RewriteAllCons(c3, [], h2.next);
    var rest := RewriteAll([c3], h2.next).value.constraints;
    assert rest == [];
    FourLinears(h1.constraints);
    assert |Linears(h2.constraints)| == 1;
    LinearsAppend(h1.constraints, h2.constraints + rest);
    LinearsAppend(h2.constraints, rest);
  }

  lemma KeptCons(c: NormalConstraint, cs: seq<NormalConstraint>)
    ensures Kept([c] + cs) == (if PassesThrough(c) then [c] else []) + Kept(cs)
  {
    assert ([c] + cs)[0] == c && ([c] + cs)[1..] == cs;
  }

  lemma RewriteAllCons(c: NormalConstraint, cs: seq<NormalConstraint>, n: nat)
    requires RewriteAll([c] + cs, n).Success?
    ensures RewriteOne(c, n).Success? && RewriteAll(cs, RewriteOne(c, n).value.next).Success?
    ensures RewriteAll([c] + cs, n).value.constraints
            == RewriteOne(c, n).value.constraints + RewriteAll(cs, RewriteOne(c, n).value.next).value.constraints
  {
    assert ([c] + cs)[0] == c && ([c] + cs)[1..] == cs;
  }

  /** The shape of the `!=` rewrite holds three linear constraints. */
  lemma FourLinears(cs: seq<Constraint>)
    requires |cs| == 4 && cs[0].Lin? && cs[1].Sos? && cs[2].Lin? && cs[3].Lin?
    ensures |Linears(cs)| == 3
  {
    assert cs == [cs[0]] + [cs[1]] + [cs[2]] + [cs[3]];
    LinearsAppend([cs[0]] + [cs[1]] + [cs[2]], [cs[3]]);
    LinearsAppend([cs[0]] + [cs[1]], [cs[2]]);
    LinearsAppend([cs[0]], [cs[1]]);
  }
}
