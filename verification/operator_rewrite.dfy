/**
 * `LinearConstraint.convertOperator`: the rewrite of `<`, `>` and `!=`
 * into constraints that use only `<=`, `>=` and `=`, plus an SOS1
 * constraint for `!=`.
 */
module OperatorRewrite {
  import opened Wrappers
  import opened Variables
  import opened Operators
  import opened Expressions
  import opened FreshNames
  import opened Constraints

  /** The emitted list and the next unused value of the fresh-name counter. */
  datatype Rewrite = Rewrite(constraints: seq<Constraint>, next: nat)

  function PsiName(n: nat): string {
    FreshName("psi_", n)
  }

  function PsiPrimeName(n: nat): string {
    FreshName("psiPrime_", n)
  }

  lemma PsiNamesDiffer(n: nat)
    ensures PsiName(n) != PsiPrimeName(n)
  {
    FamiliesDisjoint("psi_", "psiPrime_", n, n, 3);
  }

  /**
   * `f != k` becomes `psi + psi' >= 2e`, `SOS1(psi, psi')`,
   * `f + psi >= k + e` and `f - psi' <= k - e`; every emitted constraint
   * carries the source's epsilon.
   */
  function NotEqualRewrite(c: LinearConstraint, n: nat): seq<Constraint> {
    var psi := Slack(PsiName(n));
    var psiPrime := Slack(PsiPrimeName(n));
    var e := c.epsilon;
    [ Lin(LinearConstraint([LinearTerm(psi, 1.0), LinearTerm(psiPrime, 1.0)], GreaterOrEqual, 2.0 * e, e)),
      Sos(NewUnweightedSos1([psi, psiPrime]).(epsilon := e)),
      Lin(LinearConstraint(c.lhs + [LinearTerm(psi, 1.0)], GreaterOrEqual, c.rhs + e, e)),
      Lin(LinearConstraint(c.lhs + [LinearTerm(psiPrime, -1.0)], LessOrEqual, c.rhs - e, e)) ]
  }

  /** Every linear constraint of the list uses `<=`, `>=` or `=`. */
  predicate AllCanonical(cs: seq<Constraint>) {
    forall i :: 0 <= i < |cs| && cs[i].Lin? ==> IsCanonical(cs[i].lin.op)
  }

  /**
   * `convertOperator`. The copy made first refuses a quadratic term, for
   * every operator. `<` and `>` become one non-strict constraint moved by
   * epsilon; `!=` becomes four constraints over two fresh slacks; the
   * other operators need nothing and yield the empty list.
   */
  function ConvertOperator(c: LinearConstraint, n: nat): (r: Result<Rewrite>)
    ensures r.Failure? <==> !AllLinear(c.lhs)
    ensures r.Failure? ==> r.error == IllegalArgument(QuadraticLhsMessage)
    ensures r.Success? ==> (r.value.constraints == [] <==> IsCanonical(c.op))
    ensures r.Success? ==> AllCanonical(r.value.constraints)
    ensures r.Success? ==> r.value.next == if c.op == NotEqual then n + 1 else n
    ensures r.Success? && c.op == Less ==>
              r.value.constraints == [Lin(c.(op := LessOrEqual, rhs := c.rhs - c.epsilon))]
    ensures r.Success? && c.op == Greater ==>
              r.value.constraints == [Lin(c.(op := GreaterOrEqual, rhs := c.rhs + c.epsilon))]
    ensures r.Success? && c.op == NotEqual ==>
              var cs := r.value.constraints;
              |cs| == 4 && cs[0].Lin? && cs[1].Sos? && cs[2].Lin? && cs[3].Lin?
              && cs[0].lin.op == GreaterOrEqual && cs[0].lin.rhs == 2.0 * c.epsilon
              && cs[1].sos.variables == [Slack(PsiName(n)), Slack(PsiPrimeName(n))]
              && cs[2].lin.op == GreaterOrEqual && cs[2].lin.rhs == c.rhs + c.epsilon
              && cs[2].lin.lhs == c.lhs + [LinearTerm(Slack(PsiName(n)), 1.0)]
              && cs[3].lin.op == LessOrEqual && cs[3].lin.rhs == c.rhs - c.epsilon
              && cs[3].lin.lhs == c.lhs + [LinearTerm(Slack(PsiPrimeName(n)), -1.0)]
              && cs[0].lin.epsilon == c.epsilon && cs[1].sos.epsilon == c.epsilon
              && cs[2].lin.epsilon == c.epsilon && cs[3].lin.epsilon == c.epsilon
  {
    var copy :- Copy(c);
    match c.op
    case Less => Success(Rewrite([Lin(copy.(op := LessOrEqual, rhs := c.rhs - c.epsilon))], n))
    case Greater => Success(Rewrite([Lin(copy.(op := GreaterOrEqual, rhs := c.rhs + c.epsilon))], n))
    case NotEqual => Success(Rewrite(NotEqualRewrite(c, n), n + 1))
    case _ => Success(Rewrite([], n))
  }

  // ---------------------------------------------------------------------------
  // Meaning of the rewrite

  /**
   * The strict rewrites are sound for a positive epsilon, and exact on
   * left-hand values at least epsilon away from the right-hand side.
   */
  lemma StrictRewrite(c: LinearConstraint, n: nat, a: Assignment)
    requires c.op == Less || c.op == Greater
    requires AllLinear(c.lhs) && c.epsilon > 0.0
    ensures var l := ConvertOperator(c, n).value.constraints[0].lin;
            (Satisfied(l, a) ==> Satisfied(c, a))
            && (Satisfied(l, a) <==>
                  if c.op == Less then TermsValue(c.lhs, a) <= c.rhs - c.epsilon
                  else TermsValue(c.lhs, a) >= c.rhs + c.epsilon)
  {
  }

  /**
   * Soundness of the `!=` rewrite: for a positive epsilon, any assignment
   * that satisfies the four emitted constraints gives `f != k`.
   */
  lemma NotEqualSound(c: LinearConstraint, n: nat, a: Assignment)
    requires c.op == NotEqual && AllLinear(c.lhs) && c.epsilon > 0.0
    requires AllHold(ConvertOperator(c, n).value.constraints, a)
    ensures Satisfied(c, a)
  {
    var cs := ConvertOperator(c, n).value.constraints;
    var psi := Slack(PsiName(n));
    var psiPrime := Slack(PsiPrimeName(n));
    var e := c.epsilon;
    assert ConstraintHolds(cs[0], a) && ConstraintHolds(cs[1], a);
    assert ConstraintHolds(cs[2], a) && ConstraintHolds(cs[3], a);
    TermsValuePair(LinearTerm(psi, 1.0), LinearTerm(psiPrime, 1.0), a);
    CountNonzeroPair(psi, psiPrime, a);
    TermsValueAppend(c.lhs, [LinearTerm(psi, 1.0)], a);
    TermsValueAppend(c.lhs, [LinearTerm(psiPrime, -1.0)], a);
    assert TermsValue([LinearTerm(psi, 1.0)], a) == 1.0 * a(psi.name);
    assert TermsValue([LinearTerm(psiPrime, -1.0)], a) == -1.0 * a(psiPrime.name);
  }

  /**
   * Completeness of the `!=` rewrite, with the epsilon gap: when the left-hand
   * side is at least epsilon away from the right-hand side, setting one slack
   * to 0 and the other to the distance plus epsilon satisfies all four
   * constraints, keeps both slacks nonnegative and leaves the constraint's
   * own variables alone.
   */
  lemma NotEqualComplete(c: LinearConstraint, n: nat, a: Assignment)
    requires c.op == NotEqual && AllLinear(c.lhs) && c.epsilon > 0.0
    requires TermsValue(c.lhs, a) >= c.rhs + c.epsilon || TermsValue(c.lhs, a) <= c.rhs - c.epsilon
    requires forall i :: 0 <= i < |c.lhs| ==>
               c.lhs[i].var1.name != PsiName(n) && c.lhs[i].var1.name != PsiPrimeName(n)
    ensures exists b: Assignment ::
              AllHold(ConvertOperator(c, n).value.constraints, b)
              && b(PsiName(n)) >= 0.0 && b(PsiPrimeName(n)) >= 0.0
              && forall i :: 0 <= i < |c.lhs| ==> b(c.lhs[i].var1.name) == a(c.lhs[i].var1.name)
  {
    var f := TermsValue(c.lhs, a);
    var e := c.epsilon;
    var up := f >= c.rhs + e;
    var x := if up then 0.0 else c.rhs - f + e;
    var y := if up then f - c.rhs + e else 0.0;
    PsiNamesDiffer(n);
    var b := Override(Override(a, PsiName(n), x), PsiPrimeName(n), y);
    assert b(PsiName(n)) == x && b(PsiPrimeName(n)) == y;
    assert forall i :: 0 <= i < |c.lhs| ==> b(c.lhs[i].var1.name) == a(c.lhs[i].var1.name);
    TermsValueAgree(c.lhs, a, b);
    SlackValuesSatisfy(c, n, b);
  }

  /** The four `!=` constraints hold for any slack values meeting these conditions. */
  lemma SlackValuesSatisfy(c: LinearConstraint, n: nat, b: Assignment)
    requires c.op == NotEqual && AllLinear(c.lhs)
    requires b(PsiName(n)) == 0.0 || b(PsiPrimeName(n)) == 0.0
    requires b(PsiName(n)) + b(PsiPrimeName(n)) >= 2.0 * c.epsilon
    requires TermsValue(c.lhs, b) + b(PsiName(n)) >= c.rhs + c.epsilon
    requires TermsValue(c.lhs, b) - b(PsiPrimeName(n)) <= c.rhs - c.epsilon
    ensures AllHold(ConvertOperator(c, n).value.constraints, b)
  {
    NotEqualIsRewrite(c, n);
    RewriteHolds(c, n, b);
  }

  lemma NotEqualIsRewrite(c: LinearConstraint, n: nat)
    requires c.op == NotEqual && AllLinear(c.lhs)
    ensures ConvertOperator(c, n).value.constraints == NotEqualRewrite(c, n)
  {
  }

  lemma RewriteHolds(c: LinearConstraint, n: nat, b: Assignment)
    requires b(PsiName(n)) == 0.0 || b(PsiPrimeName(n)) == 0.0
    requires b(PsiName(n)) + b(PsiPrimeName(n)) >= 2.0 * c.epsilon
    requires TermsValue(c.lhs, b) + b(PsiName(n)) >= c.rhs + c.epsilon
    requires TermsValue(c.lhs, b) - b(PsiPrimeName(n)) <= c.rhs - c.epsilon
    ensures AllHold(NotEqualRewrite(c, n), b)
  {
    var cs := NotEqualRewrite(c, n);
    var psi := Slack(PsiName(n));
    var psiPrime := Slack(PsiPrimeName(n));
    var e := c.epsilon;
    assert ConstraintHolds(cs[0], b) by {
      TermsValuePair(LinearTerm(psi, 1.0), LinearTerm(psiPrime, 1.0), b);
      assert cs[0] == Lin(LinearConstraint([LinearTerm(psi, 1.0), LinearTerm(psiPrime, 1.0)], GreaterOrEqual, 2.0 * e, e));
    }
    assert ConstraintHolds(cs[1], b) by {
      CountNonzeroPair(psi, psiPrime, b);
      assert cs[1].sos.variables == [psi, psiPrime];
    }
    assert ConstraintHolds(cs[2], b) by {
      SlackTermValue(c.lhs, psi, 1.0, b);
      assert cs[2] == Lin(LinearConstraint(c.lhs + [LinearTerm(psi, 1.0)], GreaterOrEqual, c.rhs + e, e));
    }
    assert ConstraintHolds(cs[3], b) by {
      SlackTermValue(c.lhs, psiPrime, -1.0, b);
      assert cs[3] == Lin(LinearConstraint(c.lhs + [LinearTerm(psiPrime, -1.0)], LessOrEqual, c.rhs - e, e));
    }
  }

  /** Appending one linear term adds its value. */
  lemma SlackTermValue(lhs: seq<Term>, v: Variable, w: real, b: Assignment)
    ensures TermsValue(lhs + [LinearTerm(v, w)], b) == TermsValue(lhs, b) + w * b(v.name)
  {
    TermsValueAppend(lhs, [LinearTerm(v, w)], b);
    assert TermsValue([LinearTerm(v, w)], b) == w * b(v.name) + TermsValue([], b);
  }

  /** Values strictly within epsilon of the right-hand side satisfy `!=` but no assignment of the slacks. */
  lemma NotEqualGap(c: LinearConstraint, n: nat, a: Assignment)
    requires c.op == NotEqual && AllLinear(c.lhs) && c.epsilon > 0.0
    requires c.rhs - c.epsilon < TermsValue(c.lhs, a) < c.rhs + c.epsilon
    ensures !AllHold(ConvertOperator(c, n).value.constraints, a)
  {
    var cs := ConvertOperator(c, n).value.constraints;
    var psi := Slack(PsiName(n));
    var psiPrime := Slack(PsiPrimeName(n));
    assert TermsValue([LinearTerm(psi, 1.0)], a) == 1.0 * a(psi.name);
    assert TermsValue([LinearTerm(psiPrime, -1.0)], a) == -1.0 * a(psiPrime.name);
    TermsValueAppend(c.lhs, [LinearTerm(psi, 1.0)], a);
    TermsValueAppend(c.lhs, [LinearTerm(psiPrime, -1.0)], a);
    CountNonzeroPair(psi, psiPrime, a);

  }

  /**
   * The rewrite of a constraint with a non-empty left-hand side hands only
   * well-shaped constraints to `Problem.add`.
   */
  lemma ConvertOperatorWellShaped(c: LinearConstraint, n: nat)
    requires ConvertOperator(c, n).Success? && |c.lhs| > 0
    ensures AllWellShaped(ConvertOperator(c, n).value.constraints)
  {
  }
}
