/**
 * The three passes in the order their documentation prescribes:
 * `substituteOr`, then `substituteOperators`, then `substituteSOS1`, and
 * why the order matters.
 */
module Pipeline {
  import opened Wrappers
  import opened Operators
  import opened Constraints
  import opened Problems
  import opened Passes
  import OrEncoding

  /** `substituteOr`, `substituteOperators` and `substituteSOS1`, one after another. */
  function Lower(p: Problem, n: nat): (r: Result<Lowered>)
    ensures r.Success? ==> SubstituteOr(p, n).Success?
  {
    var a :- SubstituteOr(p, n);
    var b :- SubstituteOperators(a.problem, a.next);
    var c :- SubstituteSos1(b.problem);
    Success(Lowered(c, b.next))
  }

  /** The Or pass adds only linear constraints free of quadratic terms. */
  lemma OrAddsNoQuadratic(p: Problem, n: nat)
    requires WellFormed(p) && SubstituteOr(p, n).Success?
    ensures SomeLinearQuadratic(SubstituteOr(p, n).value.problem.constraints) <==> SomeLinearQuadratic(p.constraints)
  {
    var emitted := ConvertOrs(p.orConstraints, n).value.constraints;
    ConvertOrsShaped(p.orConstraints, n);
    AddedAllLinear(emitted);
    LinearQuadraticAppend(p.constraints, AsNormal(Linears(emitted)));
  }

  lemma LinearQuadraticAppend(xs: seq<NormalConstraint>, ys: seq<NormalConstraint>)
    ensures SomeLinearQuadratic(xs + ys) <==> SomeLinearQuadratic(xs) || SomeLinearQuadratic(ys)
  {
    var zs := xs + ys;
    if SomeLinearQuadratic(zs) {
      var i :| 0 <= i < |zs| && zs[i].LinearNormal? && !AllLinear(zs[i].lin.lhs);
      if i < |xs| {
        assert zs[i] == xs[i];
      } else {
        assert zs[i] == ys[i - |xs|];
      }
    }
    if SomeLinearQuadratic(xs) {
      var i :| 0 <= i < |xs| && xs[i].LinearNormal? && !AllLinear(xs[i].lin.lhs);
      assert zs[i] == xs[i];
    }
    if SomeLinearQuadratic(ys) {
      var i :| 0 <= i < |ys| && ys[i].LinearNormal? && !AllLinear(ys[i].lin.lhs);
      assert zs[|xs| + i] == ys[i];
    }
  }

  /** The linear members of well-shaped constraints carry no quadratic term. */
  lemma AddedAllLinear(emitted: seq<Constraint>)
    requires AllWellShaped(emitted)
    ensures !SomeLinearQuadratic(AsNormal(Linears(emitted)))
  {
    var added := AsNormal(Linears(emitted));
    LinearsFrom(emitted);
    forall i | 0 <= i < |added| ensures added[i].LinearNormal? && AllLinear(added[i].lin.lhs) {
      assert Lin(Linears(emitted)[i]) in emitted;
    }
  }

  /**
   * On a problem built by `add`, lowering throws exactly when a disjunct or
   * a linear constraint holds a quadratic term. Otherwise no Or and no SOS1
   * constraint is left, every linear constraint uses `<=`, `>=` or `=`, the
   * invariants still hold, and the objective and general constraints are
   * untouched.
   */
  lemma LowerOutcome(p: Problem, n: nat)
    requires WellFormed(p)
    ensures Lower(p, n).Failure? <==> SomeOrQuadratic(p.orConstraints) || SomeLinearQuadratic(p.constraints)
    ensures Lower(p, n).Success? ==>
              var q := Lower(p, n).value.problem;
              && q.orConstraints == [] && q.sosConstraints == []
              && AllPassThrough(q.constraints)
              && WellFormed(q) && (Registered(p) ==> Registered(q))
              && q.objective == p.objective && q.genConstraints == p.genConstraints
  {
    SubstituteOrOutcome(p, n);
    if SubstituteOr(p, n).Success? {
      var a := SubstituteOr(p, n).value;
      OrAddsNoQuadratic(p, n);
      SubstituteOperatorsOutcome(a.problem, a.next);
      if SubstituteOperators(a.problem, a.next).Success? {
        var b := SubstituteOperators(a.problem, a.next).value;
        SubstituteSos1Outcome(b.problem);
      }
    }
  }

  /**
   * After `substituteOr` on a problem with an Or constraint, some linear
   * constraint still uses `<`, `>` or `!=`: the operator pass must follow
   * before a back end that only accepts `<=`, `>=` and `=` sees it.
   */
  lemma OrNeedsOperatorPass(p: Problem, n: nat)
    requires WellFormed(p) && SubstituteOr(p, n).Success? && |p.orConstraints| > 0
    ensures !AllPassThrough(SubstituteOr(p, n).value.problem.constraints)
  {
    OrsEmitStrict(p.orConstraints, n);
    StrictSurvives(p.constraints, ConvertOrs(p.orConstraints, n).value.constraints);
  }

  /** A strict linear member of a conversion, once added, does not pass through. */
  lemma StrictSurvives(cs: seq<NormalConstraint>, emitted: seq<Constraint>)
    requires OrEncoding.SomeStrict(emitted)
    ensures !AllPassThrough(cs + AsNormal(Linears(emitted)))
  {
    var j :| 0 <= j < |emitted| && emitted[j].Lin? && !IsCanonical(emitted[j].lin.op);
    LinearsContains(emitted, emitted[j].lin);
    var ls := Linears(emitted);
    var k :| 0 <= k < |ls| && ls[k] == emitted[j].lin;
    assert (cs + AsNormal(ls))[|cs| + k] == LinearNormal(ls[k]);
  }

  lemma OrsEmitStrict(os: seq<OrEncoding.OrConstraint>, n: nat)
    requires ConvertOrs(os, n).Success? && |os| > 0 && os[0].constraints != []
    ensures OrEncoding.SomeStrict(ConvertOrs(os, n).value.constraints)
  {
    var head := OrEncoding.ConvertAsWritten(os[0], n).value;
    var rest := ConvertOrs(os[1..], head.next).value;
    assert ConvertOrs(os, n).value.constraints == head.constraints + rest.constraints;
    OrEncoding.ConvertStrict(os[0], n);
    StrictAppend(head.constraints, rest.constraints);
  }

  lemma StrictAppend(xs: seq<Constraint>, ys: seq<Constraint>)
    requires OrEncoding.SomeStrict(xs)
    ensures OrEncoding.SomeStrict(xs + ys)
  {
    var j :| 0 <= j < |xs| && xs[j].Lin? && !IsCanonical(xs[j].lin.op);
    assert (xs + ys)[j] == xs[j];
  }
}
