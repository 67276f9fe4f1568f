/**
 * `OrConstraint`: a disjunction of linear constraints, and its `convert`,
 * which encodes every disjunct with indicator binaries `s`, `s'`, real
 * slacks `phi`, `phi'` and SOS1 constraints, then closes the list with a
 * constraint over all the `s` indicators.
 */
module OrEncoding {
  import opened Wrappers
  import opened Variables
  import opened Operators
  import opened Expressions
  import opened FreshNames
  import opened Constraints

  const OrResultMessage := "The result of an Or Constraint has to be binary."

  /** The disjuncts, the binary result variable and the epsilon of the strict gaps. */
  datatype OrConstraint = OrConstraint(constraints: seq<LinearConstraint>, result: Variable, epsilon: real)

  /** The constructors take a `BinaryVariable`; the epsilon defaults to 1e-4. */
  function NewOr(cs: seq<LinearConstraint>, result: Variable): (o: OrConstraint)
    requires result.BinaryVariable?
    ensures o.constraints == cs && o.result == result && o.epsilon == DefaultEpsilon
  {
    OrConstraint(cs, result, DefaultEpsilon)
  }

  function NewOrWithEpsilon(cs: seq<LinearConstraint>, result: Variable, epsilon: real): (o: OrConstraint)
    requires result.BinaryVariable?
    ensures o.constraints == cs && o.result == result && o.epsilon == epsilon
  {
    OrConstraint(cs, result, epsilon)
  }

  function AddConstraint(o: OrConstraint, c: LinearConstraint): (r: OrConstraint)
    ensures r.constraints == o.constraints + [c]
    ensures r.result == o.result && r.epsilon == o.epsilon
  {
    o.(constraints := o.constraints + [c])
  }

  // ---------------------------------------------------------------------------
  // setResult(Variable<?>)

  /**
   * `setResult(Variable<?>)` as written: the guard `x != 1 || x != 0` is
   * true for every value, so every call throws, binary arguments included.
   */
  function SetResultAsWritten(o: OrConstraint, v: Variable): (r: Result<OrConstraint>)
    ensures r == Failure(IllegalArgument(OrResultMessage))
  {
    var x := Variables.Value(v);
    if x != 1.0 || x != 0.0 then Failure(IllegalArgument(OrResultMessage))
    else if v.BinaryVariable? then Success(o.(result := v))
    else Failure(ClassCast)
  }

  /**
   * `setResult(Variable<?>)` with the evidently intended guard `x != 1 && x != 0`:
   * a value other than 0 or 1 is refused with the message, and the cast to
   * `BinaryVariable` refuses integer and real variables.
   */
  function SetResult(o: OrConstraint, v: Variable): (r: Result<OrConstraint>)
    ensures r.Success? <==> v.BinaryVariable?
    ensures r.Success? ==> r.value == o.(result := v)
    ensures Variables.Value(v) != 0.0 && Variables.Value(v) != 1.0 ==>
              r == Failure(IllegalArgument(OrResultMessage))
  {
    var x := Variables.Value(v);
    if x != 1.0 && x != 0.0 then Failure(IllegalArgument(OrResultMessage))
    else if v.BinaryVariable? then Success(o.(result := v))
    else Failure(ClassCast)
  }

  /** The two versions part exactly on binary arguments, which only the corrected one accepts. */
  lemma SetResultDiscrepancy(o: OrConstraint, v: Variable)
    ensures SetResultAsWritten(o, v).Failure?
    ensures SetResult(o, v).Success? <==> v.BinaryVariable?
    ensures SetResultAsWritten(o, NewBinary("r")).Failure? && SetResult(o, NewBinary("r")).Success?
  {
  }

  // ---------------------------------------------------------------------------
  // Auxiliary variables of one disjunct

  function SName(k: nat): string {
    FreshName("s_", k)
  }

  function SPrimeName(k: nat): string {
    FreshName("s_prime_", k)
  }

  function PhiName(k: nat): string {
    FreshName("phi_", k)
  }

  function PhiPrimeName(k: nat): string {
    FreshName("phi_prime_", k)
  }

  /** The four names drawn for one disjunct are pairwise distinct. */
  lemma AuxNamesDistinct(k: nat)
    ensures SName(k) != SPrimeName(k) && PhiName(k) != PhiPrimeName(k)
    ensures SName(k) != PhiName(k) && SName(k) != PhiPrimeName(k)
    ensures SPrimeName(k) != PhiName(k) && SPrimeName(k) != PhiPrimeName(k)
  {
    assert "s_prime_" == "s_" + "prime_";
    assert "phi_prime_" == "phi_" + "prime_";
    ExtendedFamilyDisjoint("s_", "prime_", k, k);
    ExtendedFamilyDisjoint("phi_", "prime_", k, k);
    FamiliesDisjoint("s_", "phi_", k, k, 0);
    FamiliesDisjoint("s_", "phi_prime_", k, k, 0);
    FamiliesDisjoint("s_prime_", "phi_", k, k, 0);
    FamiliesDisjoint("s_prime_", "phi_prime_", k, k, 0);
  }

  function S(k: nat): Variable {
    NewBinary(SName(k))
  }

  function SPrime(k: nat): Variable {
    NewBinary(SPrimeName(k))
  }

  /**
   * `new LinearConstraint(lin.getLhsTerms(), op, lin.getRhs())` followed by
   * `addTerm(v, w)`: the disjunct's own terms, copied, plus one slack term.
   */
  function Derived(lin: LinearConstraint, op: Operator, v: Variable, w: real): (r: LinearConstraint)
    ensures r.lhs == lin.lhs + [LinearTerm(v, w)] && r.op == op && r.rhs == lin.rhs
    ensures r.epsilon == DefaultEpsilon
    ensures forall a :: TermsValue(r.lhs, a) == TermsValue(lin.lhs, a) + Times(w, a(v.name))
  {
    Constraints.AddLinearTerm(LinearConstraint(lin.lhs, op, lin.rhs, DefaultEpsilon), v, w)
  }

  /** A constraint built empty and given weight-1 terms for `x` and `y`. */
  function Sum2(x: Variable, y: Variable, op: Operator, rhs: real): (r: LinearConstraint)
    ensures r.lhs == [LinearTerm(x, 1.0), LinearTerm(y, 1.0)] && r.op == op && r.rhs == rhs
    ensures r.epsilon == DefaultEpsilon
    ensures forall a :: TermsValue(r.lhs, a) == a(x.name) + a(y.name)
  {
    Constraints.AddLinearTerm(Constraints.AddLinearTerm(EmptyConstraint(op, rhs, DefaultEpsilon), x, 1.0), y, 1.0)
  }

  /** A constraint built empty and given weight-1 terms for `x`, `y` and `z`. */
  function Sum3(x: Variable, y: Variable, z: Variable, op: Operator, rhs: real): (r: LinearConstraint)
    ensures r.lhs == [LinearTerm(x, 1.0), LinearTerm(y, 1.0), LinearTerm(z, 1.0)] && r.op == op && r.rhs == rhs
    ensures r.epsilon == DefaultEpsilon
    ensures forall a :: TermsValue(r.lhs, a) == a(x.name) + a(y.name) + a(z.name)
  {
    Constraints.AddLinearTerm(Sum2(x, y, op, rhs), z, 1.0)
  }

  /** `s + s' = 1`, emitted first by every case except `=`. */
  function Complement(k: nat): LinearConstraint {
    Sum2(S(k), SPrime(k), Equal, 1.0)
  }

  /** The sign of `phi` in the constraint that keeps the disjunct's operator. */
  function Sign(op: Operator): real {
    if op == GreaterOrEqual || op == Greater then 1.0 else -1.0
  }

  /**
   * The seven constraints of a `<`, `<=`, `>=` or `>` disjunct `f op k`:
   * `s + s' = 1`, `f + sign*phi op k`, `f - sign*phi' (not op) k`,
   * `phi + s >= 2e`, `phi' + s' >= 2e`, `SOS1(phi, s)`, `SOS1(phi', s')`.
   * The slacks keep the real-variable default bounds.
   */
  function InequalityBlock(lin: LinearConstraint, k: nat, e: real): seq<Constraint>
    requires IsInequality(lin.op)
  {
    var phi := NewReal(PhiName(k));
    var phiPrime := NewReal(PhiPrimeName(k));
    [ Lin(Complement(k)),
      Lin(Derived(lin, lin.op, phi, Sign(lin.op))),
      Lin(Derived(lin, Negation(lin.op), phiPrime, -Sign(lin.op))),
      Lin(Sum2(phi, S(k), GreaterOrEqual, 2.0 * e)),
      Lin(Sum2(phiPrime, SPrime(k), GreaterOrEqual, 2.0 * e)),
      Sos(NewUnweightedSos1([phi, S(k)])),
      Sos(NewUnweightedSos1([phiPrime, SPrime(k)])) ]
  }

  /**
   * The four constraints of an `=` disjunct: `f + phi >= k`, `f - phi' <= k`,
   * `SOS1(phi, phi', s)` and `phi + phi' + s > e`, with nonnegative slacks.
   */
  function EqualBlock(lin: LinearConstraint, k: nat, e: real): seq<Constraint> {
    var phi := Slack(PhiName(k));
    var phiPrime := Slack(PhiPrimeName(k));
    [ Lin(Derived(lin, GreaterOrEqual, phi, 1.0)),
      Lin(Derived(lin, LessOrEqual, phiPrime, -1.0)),
      Sos(NewUnweightedSos1([phi, phiPrime, S(k)])),
      Lin(Sum3(phi, phiPrime, S(k), Greater, e)) ]
  }

  /**
   * The five constraints of a `!=` disjunct: `s + s' = 1` and then the `=`
   * encoding with `s'` in place of `s`.
   */
  function NotEqualBlock(lin: LinearConstraint, k: nat, e: real): seq<Constraint> {
    var phi := Slack(PhiName(k));
    var phiPrime := Slack(PhiPrimeName(k));
    [ Lin(Complement(k)),
      Lin(Derived(lin, GreaterOrEqual, phi, 1.0)),
      Lin(Derived(lin, LessOrEqual, phiPrime, -1.0)),
      Sos(NewUnweightedSos1([phi, phiPrime, SPrime(k)])),
      Lin(Sum3(phi, phiPrime, SPrime(k), Greater, e)) ]
  }

  function BlockSize(op: Operator): nat {
    if IsInequality(op) then 7 else if op == Equal then 4 else 5
  }

  /** Linear members of a block; the remaining one or two are SOS1 constraints. */
  function BlockLinears(op: Operator): nat {
    if IsInequality(op) then 5 else if op == Equal then 3 else 4
  }

  /**
   * The constraints of one disjunct, drawn at counter value `k`. The
   * derived constraints are built with the three-argument constructor,
   * whose `setLhsTerms` refuses a quadratic term of the disjunct.
   */
  function Block(lin: LinearConstraint, k: nat, e: real): (r: Result<seq<Constraint>>)
    ensures r.Failure? <==> !AllLinear(lin.lhs)
    ensures r.Failure? ==> r.error == IllegalArgument(QuadraticLhsMessage)
    ensures r.Success? ==> |r.value| == BlockSize(lin.op)
    ensures r.Success? && lin.op != Equal ==> r.value[0] == Lin(Complement(k))
  {
    var copy :- NewConstraint(lin.lhs, lin.op, lin.rhs, DefaultEpsilon);
    if IsInequality(lin.op) then Success(InequalityBlock(lin, k, e))
    else if lin.op == Equal then Success(EqualBlock(lin, k, e))
    else Success(NotEqualBlock(lin, k, e))
  }

  /** Total number of constraints the disjuncts emit before the closing one. */
  function EmittedCount(cs: seq<LinearConstraint>): nat {
    if cs == [] then 0 else BlockSize(cs[0].op) + EmittedCount(cs[1..])
  }

  predicate SomeQuadratic(cs: seq<LinearConstraint>) {
    exists i :: 0 <= i < |cs| && !AllLinear(cs[i].lhs)
  }

  /** The blocks of all disjuncts, the `i`-th drawn at counter value `n + i`. */
  function Parts(cs: seq<LinearConstraint>, n: nat, e: real): (r: seq<seq<Constraint>>)
    requires !SomeQuadratic(cs)
    ensures |r| == |cs|
    ensures forall i, k :: 0 <= i < |cs| && k == n + i ==>
              Block(cs[i], k, e).Success? && r[i] == Block(cs[i], k, e).value
  {
    seq(|cs|, i requires 0 <= i < |cs| => Block(cs[i], n + i, e).value)
  }

  /** The blocks one after another. */
  function Flatten(parts: seq<seq<Constraint>>): seq<Constraint> {
    if parts == [] then [] else parts[0] + Flatten(parts[1..])
  }

  lemma {:induction false} FlattenLength(parts: seq<seq<Constraint>>, cs: seq<LinearConstraint>)
    requires |parts| == |cs|
    requires forall i :: 0 <= i < |cs| ==> |parts[i]| == BlockSize(cs[i].op)
    ensures |Flatten(parts)| == EmittedCount(cs)
  {
    if parts != [] {
      assert forall i :: 0 <= i < |cs| - 1 ==> parts[1..][i] == parts[i + 1] && cs[1..][i] == cs[i + 1];
      FlattenLength(parts[1..], cs[1..]);
    }
  }

  /** Every block holds wherever the flattened list holds. */
  lemma {:induction false} FlattenHolds(parts: seq<seq<Constraint>>, a: Assignment, i: nat)
    requires AllHold(Flatten(parts), a) && i < |parts|
    ensures AllHold(parts[i], a)
    decreases i
  {
    AllHoldAppend(parts[0], Flatten(parts[1..]), a);
    if i > 0 {
      FlattenHolds(parts[1..], a, i - 1);
    }
  }

  /** The closing terms `s_n + ... + s_(n+m-1)`. */
  function ClosingTerms(n: nat, m: nat): (r: seq<Term>)
    ensures |r| == m && forall i :: 0 <= i < m ==> r[i] == LinearTerm(S(n + i), 1.0)
    decreases m
  {
    if m == 0 then [] else [LinearTerm(S(n), 1.0)] + ClosingTerms(n + 1, m - 1)
  }

  /**
   * `binary_sub`: the closing constraint `s_n + ... + s_(n+m-1) >= rhs`.
   * The Java code builds it with `rhs = 0.0`; the encoding needs `1.0`, so
   * that some disjunct is chosen.
   */
  function Closing(n: nat, m: nat, rhs: real): LinearConstraint {
    LinearConstraint(ClosingTerms(n, m), GreaterOrEqual, rhs, DefaultEpsilon)
  }

  /** The converted list and the next unused value of the counter. */
  datatype OrConversion = OrConversion(constraints: seq<Constraint>, next: nat)

  /** The blocks of all disjuncts one after another, the `i`-th drawn at counter value `n + i`. */
  function Blocks(o: OrConstraint, n: nat): (r: seq<Constraint>)
    requires !SomeQuadratic(o.constraints)
    ensures |r| == EmittedCount(o.constraints)
  {
    var parts := Parts(o.constraints, n, o.epsilon);
    FlattenLength(parts, o.constraints);
    Flatten(parts)
  }

  /**
   * `convert` with the closing constraint the encoding needs: the blocks of
   * all disjuncts, then `sum(s) >= 1`, so that every solution with binary
   * indicators picks some disjunct (`ConvertChoosesDisjunct`). A quadratic
   * term in any disjunct makes the whole call throw. The result variable
   * plays no part in the encoding.
   */
  function Convert(o: OrConstraint, n: nat): (r: Result<OrConversion>)
    ensures r.Failure? <==> SomeQuadratic(o.constraints)
    ensures r.Failure? ==> r.error == IllegalArgument(QuadraticLhsMessage)
    ensures r.Success? ==> |r.value.constraints| == EmittedCount(o.constraints) + 1
    ensures r.Success? ==> r.value.next == n + |o.constraints|
    ensures r.Success? ==>
              var last := r.value.constraints[|r.value.constraints| - 1];
              last.Lin? && last.lin.op == GreaterOrEqual && last.lin.rhs == 1.0
              && |last.lin.lhs| == |o.constraints|
              && forall i :: 0 <= i < |o.constraints| ==> last.lin.lhs[i] == LinearTerm(S(n + i), 1.0)
  {
    if SomeQuadratic(o.constraints) then Failure(IllegalArgument(QuadraticLhsMessage))
    else Success(OrConversion(Blocks(o, n) + [Lin(Closing(n, |o.constraints|, 1.0))], n + |o.constraints|))
  }

  /**
   * `convert` as written, and the conversion `substituteOr` uses: the same
   * blocks, closed by `sum(s) >= 0.0`, which binary indicators always meet
   * (`ClosingVacuous`).
   */
  function ConvertAsWritten(o: OrConstraint, n: nat): (r: Result<OrConversion>)
    ensures r.Failure? <==> Convert(o, n).Failure?
    ensures r.Failure? ==> r == Convert(o, n)
    ensures r.Success? ==>
              var cs := Convert(o, n).value.constraints;
              && r.value.next == Convert(o, n).value.next
              && r.value.constraints == cs[..|cs| - 1] + [Lin(Closing(n, |o.constraints|, 0.0))]
  {
    if SomeQuadratic(o.constraints) then Failure(IllegalArgument(QuadraticLhsMessage))
    else
      var r := OrConversion(Blocks(o, n) + [Lin(Closing(n, |o.constraints|, 0.0))], n + |o.constraints|);
      assert Convert(o, n).value.constraints[..EmittedCount(o.constraints)] == Blocks(o, n);
      Success(r)
  }

  // ---------------------------------------------------------------------------
  // Shape of the blocks

  /** Each inequality block has five linear and two SOS1 members, `=` three and one, `!=` four and one. */
  lemma BlockCounts(lin: LinearConstraint, k: nat, e: real)
    requires AllLinear(lin.lhs)
    ensures var cs := Block(lin, k, e).value;
            |Linears(cs)| == BlockLinears(lin.op) && |Soss(cs)| == BlockSize(lin.op) - BlockLinears(lin.op)
  {
    var cs := Block(lin, k, e).value;
    SplitCounts(cs);
    if IsInequality(lin.op) {
      assert cs == InequalityBlock(lin, k, e);
      InequalitySoss(lin, k, e);
    } else if lin.op == Equal {
      assert cs == EqualBlock(lin, k, e);
      EqualSoss(lin, k, e);
    } else {
      assert cs == NotEqualBlock(lin, k, e);
      NotEqualSoss(lin, k, e);
    }
  }

  lemma InequalitySoss(lin: LinearConstraint, k: nat, e: real)
    requires IsInequality(lin.op)
    ensures |Soss(InequalityBlock(lin, k, e))| == 2
  {
    var cs := InequalityBlock(lin, k, e);
    assert cs == [cs[0]] + [cs[1]] + [cs[2]] + [cs[3]] + [cs[4]] + [cs[5], cs[6]];
    SossAppend([cs[0]] + [cs[1]] + [cs[2]] + [cs[3]] + [cs[4]], [cs[5], cs[6]]);
    SossAppend([cs[0]] + [cs[1]] + [cs[2]] + [cs[3]], [cs[4]]);
    SossAppend([cs[0]] + [cs[1]] + [cs[2]], [cs[3]]);
    SossAppend([cs[0]] + [cs[1]], [cs[2]]);
    SossAppend([cs[0]], [cs[1]]);
    assert Soss([cs[5], cs[6]]) == [cs[5].sos] + Soss([cs[6]]);
  }

  lemma EqualSoss(lin: LinearConstraint, k: nat, e: real)
    ensures |Soss(EqualBlock(lin, k, e))| == 1
  {
    var cs := EqualBlock(lin, k, e);
    assert cs == [cs[0]] + [cs[1]] + [cs[2], cs[3]];
    SossAppend([cs[0]] + [cs[1]], [cs[2], cs[3]]);
    SossAppend([cs[0]], [cs[1]]);
    assert Soss([cs[2], cs[3]]) == [cs[2].sos] + Soss([cs[3]]);
  }

  lemma NotEqualSoss(lin: LinearConstraint, k: nat, e: real)
    ensures |Soss(NotEqualBlock(lin, k, e))| == 1
  {
    var cs := NotEqualBlock(lin, k, e);
    assert cs == [cs[0]] + [cs[1]] + [cs[2]] + [cs[3], cs[4]];
    SossAppend([cs[0]] + [cs[1]] + [cs[2]], [cs[3], cs[4]]);
    SossAppend([cs[0]] + [cs[1]], [cs[2]]);
    SossAppend([cs[0]], [cs[1]]);
    assert Soss([cs[3], cs[4]]) == [cs[3].sos] + Soss([cs[4]]);
  }

  /**
   * In an inequality block the second constraint keeps the disjunct's
   * operator, the third uses its negation, both extend the disjunct's own
   * left-hand side by one slack term, and both couplings are
   * `slack + indicator >= 2e`. Every emitted constraint has the default
   * epsilon, whatever the Or constraint's epsilon.
   */
  lemma InequalityShape(lin: LinearConstraint, k: nat, e: real)
    requires IsInequality(lin.op) && AllLinear(lin.lhs)
    ensures var cs := Block(lin, k, e).value;
            cs[1].Lin? && cs[1].lin.op == lin.op && cs[1].lin.rhs == lin.rhs
            && cs[2].Lin? && cs[2].lin.op == Negation(lin.op) && cs[2].lin.rhs == lin.rhs
            && |cs[1].lin.lhs| == |cs[2].lin.lhs| == |lin.lhs| + 1
            && cs[1].lin.lhs[..|lin.lhs|] == lin.lhs && cs[2].lin.lhs[..|lin.lhs|] == lin.lhs
            && cs[3].Lin? && cs[3].lin.op == GreaterOrEqual && cs[3].lin.rhs == 2.0 * e
            && cs[3].lin.lhs[1] == LinearTerm(S(k), 1.0)
            && cs[4].Lin? && cs[4].lin.op == GreaterOrEqual && cs[4].lin.rhs == 2.0 * e
            && cs[4].lin.lhs[1] == LinearTerm(SPrime(k), 1.0)
            && forall j :: 0 <= j < |cs| ==>
                 (cs[j].Lin? ==> cs[j].lin.epsilon == DefaultEpsilon) && (cs[j].Sos? ==> cs[j].sos.epsilon == DefaultEpsilon)
  {
    var cs := Block(lin, k, e).value;
    assert cs[1].lin.lhs[..|lin.lhs|] == lin.lhs;
    assert cs[2].lin.lhs[..|lin.lhs|] == lin.lhs;
  }

  /**
   * The slacks of an inequality block keep the real-variable defaults; those
   * of an `=` or `!=` block get lower bound 0.
   */
  lemma SlackBounds(lin: LinearConstraint, k: nat, e: real)
    requires AllLinear(lin.lhs)
    ensures var cs := Block(lin, k, e).value;
            var j := if IsInequality(lin.op) then 5 else if lin.op == Equal then 2 else 3;
            cs[j].Sos? && |cs[j].sos.variables| >= 2
            && var phi := cs[j].sos.variables[0];
               phi.RealVariable? && phi.name == PhiName(k)
               && (IsInequality(lin.op) ==> LowerBound(phi) == DefaultRealLower && phi.defaultLower
                                            && UpperBound(phi) == DefaultRealUpper)
               && (!IsInequality(lin.op) ==> LowerBound(phi) == 0.0 && !phi.defaultLower
                                             && LowerBound(cs[j].sos.variables[1]) == 0.0
                                             && cs[j].sos.variables[1].name == PhiPrimeName(k))
  {
  }

  // ---------------------------------------------------------------------------
  // Meaning of the blocks

  /**
   * In the four inequality cases a binary `s` is exactly the truth value of
   * the disjunct: `s = 1` forces `phi = 0` through `SOS1(phi, s)`, which
   * leaves `f op k`; `s = 0` forces `s' = 1` and so `phi' = 0`, which
   * leaves the negated constraint.
   */
  lemma InequalityIndicator(lin: LinearConstraint, k: nat, e: real, a: Assignment)
    requires IsInequality(lin.op)
    requires AllHold(InequalityBlock(lin, k, e), a)
    requires a(SName(k)) == 0.0 || a(SName(k)) == 1.0
    ensures a(SName(k)) == 1.0 <==> Satisfied(lin, a)
  {
    InequalityFacts(lin, k, e, a);
  }

  /** The five facts of an inequality block that the indicator argument uses, over plain values. */
  lemma InequalityFacts(lin: LinearConstraint, k: nat, e: real, a: Assignment)
    requires IsInequality(lin.op)
    requires AllHold(InequalityBlock(lin, k, e), a)
    ensures a(SName(k)) + a(SPrimeName(k)) == 1.0
    ensures a(PhiName(k)) == 0.0 || a(SName(k)) == 0.0
    ensures a(PhiPrimeName(k)) == 0.0 || a(SPrimeName(k)) == 0.0
    ensures Holds(lin.op, TermsValue(lin.lhs, a) + Times(Sign(lin.op), a(PhiName(k))), lin.rhs)
    ensures Holds(Negation(lin.op), TermsValue(lin.lhs, a) + Times(-Sign(lin.op), a(PhiPrimeName(k))), lin.rhs)
  {
    var phi := NewReal(PhiName(k));
    var phiPrime := NewReal(PhiPrimeName(k));
    InequalityParts(lin, k, e, a);
    CountNonzeroPair(phi, S(k), a);
    CountNonzeroPair(phiPrime, SPrime(k), a);
  }

  /** The members of an inequality block that the indicator argument uses, one by one. */
  lemma InequalityParts(lin: LinearConstraint, k: nat, e: real, a: Assignment)
    requires IsInequality(lin.op)
    requires AllHold(InequalityBlock(lin, k, e), a)
    ensures Satisfied(Complement(k), a)
    ensures Satisfied(Derived(lin, lin.op, NewReal(PhiName(k)), Sign(lin.op)), a)
    ensures Satisfied(Derived(lin, Negation(lin.op), NewReal(PhiPrimeName(k)), -Sign(lin.op)), a)
    ensures Sos1Holds(NewUnweightedSos1([NewReal(PhiName(k)), S(k)]), a)
    ensures Sos1Holds(NewUnweightedSos1([NewReal(PhiPrimeName(k)), SPrime(k)]), a)
  {
    var cs := InequalityBlock(lin, k, e);
    assert ConstraintHolds(cs[0], a) && ConstraintHolds(cs[1], a) && ConstraintHolds(cs[2], a);
    assert ConstraintHolds(cs[5], a) && ConstraintHolds(cs[6], a);
  }

  /** In the `=` case, `s = 1` forces both slacks to 0 and so `f = k`. */
  lemma EqualIndicator(lin: LinearConstraint, k: nat, e: real, a: Assignment)
    requires lin.op == Equal
    requires AllHold(EqualBlock(lin, k, e), a)
    requires a(SName(k)) == 1.0
    ensures Satisfied(lin, a)
  {
    var cs := EqualBlock(lin, k, e);
    var phi := Slack(PhiName(k));
    var phiPrime := Slack(PhiPrimeName(k));
    assert ConstraintHolds(cs[0], a) && ConstraintHolds(cs[1], a) && ConstraintHolds(cs[2], a);
    CountNonzeroTriple(phi, phiPrime, S(k), a);
    TermsValueAppend(lin.lhs, [LinearTerm(phi, 1.0)], a);
    TermsValueAppend(lin.lhs, [LinearTerm(phiPrime, -1.0)], a);
    assert TermsValue([LinearTerm(phi, 1.0)], a) == 1.0 * a(phi.name);
    assert TermsValue([LinearTerm(phiPrime, -1.0)], a) == -1.0 * a(phiPrime.name);
  }

  /** Slack and indicator values under which all four `=` constraints hold. */
  lemma EqualValuesSatisfy(lin: LinearConstraint, k: nat, e: real, b: Assignment)
    requires lin.op == Equal
    requires b(SName(k)) == 0.0 && b(PhiName(k)) > 0.0 && b(PhiName(k)) > e && b(PhiPrimeName(k)) == 0.0
    requires TermsValue(lin.lhs, b) == lin.rhs
    ensures AllHold(EqualBlock(lin, k, e), b)
  {
    var cs := EqualBlock(lin, k, e);
    var phi := Slack(PhiName(k));
    var phiPrime := Slack(PhiPrimeName(k));
    TermsValueTriple(LinearTerm(phi, 1.0), LinearTerm(phiPrime, 1.0), LinearTerm(S(k), 1.0), b);
    CountNonzeroTriple(phi, phiPrime, S(k), b);
    TermsValueAppend(lin.lhs, [LinearTerm(phi, 1.0)], b);
    TermsValueAppend(lin.lhs, [LinearTerm(phiPrime, -1.0)], b);
    assert TermsValue([LinearTerm(phi, 1.0)], b) == 1.0 * b(phi.name);
    assert TermsValue([LinearTerm(phiPrime, -1.0)], b) == -1.0 * b(phiPrime.name);
    assert ConstraintHolds(cs[0], b) && ConstraintHolds(cs[1], b);
    assert ConstraintHolds(cs[2], b) && ConstraintHolds(cs[3], b);
  }

  /**
   * The converse of `EqualIndicator` fails: when `f = k`, raising `phi`
   * above epsilon satisfies all four constraints with `s = 0`, so a true
   * `=` disjunct does not force its indicator.
   */
  lemma EqualIndicatorOneWay(lin: LinearConstraint, k: nat, e: real, a: Assignment)
    requires lin.op == Equal && AllLinear(lin.lhs)
    requires TermsValue(lin.lhs, a) == lin.rhs
    requires forall i :: 0 <= i < |lin.lhs| ==>
               lin.lhs[i].var1.name !in {SName(k), PhiName(k), PhiPrimeName(k)}
    ensures exists b: Assignment ::
              AllHold(EqualBlock(lin, k, e), b) && b(SName(k)) == 0.0 && Satisfied(lin, b)
  {
    AuxNamesDistinct(k);
    var x := if e > 0.0 then e + 1.0 else 1.0;
    var b := Override(Override(Override(a, SName(k), 0.0), PhiName(k), x), PhiPrimeName(k), 0.0);
    assert b(SName(k)) == 0.0 && b(PhiName(k)) == x && b(PhiPrimeName(k)) == 0.0;
    assert forall i :: 0 <= i < |lin.lhs| ==> a(lin.lhs[i].var1.name) == b(lin.lhs[i].var1.name);
    TermsValueAgree(lin.lhs, a, b);
    EqualValuesSatisfy(lin, k, e, b);
  }

  /**
   * In the `!=` case the SOS1 holds `s'` rather than `s`, so the implication
   * runs the other way: `s = 0` gives `s' = 1` and `f = k`, hence a true
   * disjunct forces `s = 1`.
   */
  lemma NotEqualIndicator(lin: LinearConstraint, k: nat, e: real, a: Assignment)
    requires lin.op == NotEqual
    requires AllHold(NotEqualBlock(lin, k, e), a)
    requires a(SName(k)) == 0.0 || a(SName(k)) == 1.0
    ensures Satisfied(lin, a) ==> a(SName(k)) == 1.0
  {
    var cs := NotEqualBlock(lin, k, e);
    var phi := Slack(PhiName(k));
    var phiPrime := Slack(PhiPrimeName(k));
    assert ConstraintHolds(cs[0], a) && ConstraintHolds(cs[1], a);
    assert ConstraintHolds(cs[2], a) && ConstraintHolds(cs[3], a);
    TermsValuePair(LinearTerm(S(k), 1.0), LinearTerm(SPrime(k), 1.0), a);
    CountNonzeroTriple(phi, phiPrime, SPrime(k), a);
    TermsValueAppend(lin.lhs, [LinearTerm(phi, 1.0)], a);
    TermsValueAppend(lin.lhs, [LinearTerm(phiPrime, -1.0)], a);
    assert TermsValue([LinearTerm(phi, 1.0)], a) == 1.0 * a(phi.name);
    assert TermsValue([LinearTerm(phiPrime, -1.0)], a) == -1.0 * a(phiPrime.name);
  }

  /** Slack and indicator values under which all five `!=` constraints hold. */
  lemma NotEqualValuesSatisfy(lin: LinearConstraint, k: nat, e: real, b: Assignment)
    requires lin.op == NotEqual
    requires b(SName(k)) == 1.0 && b(SPrimeName(k)) == 0.0
    requires b(PhiName(k)) > 0.0 && b(PhiName(k)) > e && b(PhiPrimeName(k)) == 0.0
    requires TermsValue(lin.lhs, b) == lin.rhs
    ensures AllHold(NotEqualBlock(lin, k, e), b)
  {
    var cs := NotEqualBlock(lin, k, e);
    var phi := Slack(PhiName(k));
    var phiPrime := Slack(PhiPrimeName(k));
    TermsValuePair(LinearTerm(S(k), 1.0), LinearTerm(SPrime(k), 1.0), b);
    TermsValueTriple(LinearTerm(phi, 1.0), LinearTerm(phiPrime, 1.0), LinearTerm(SPrime(k), 1.0), b);
    CountNonzeroTriple(phi, phiPrime, SPrime(k), b);
    TermsValueAppend(lin.lhs, [LinearTerm(phi, 1.0)], b);
    TermsValueAppend(lin.lhs, [LinearTerm(phiPrime, -1.0)], b);
    assert TermsValue([LinearTerm(phi, 1.0)], b) == 1.0 * b(phi.name);
    assert TermsValue([LinearTerm(phiPrime, -1.0)], b) == -1.0 * b(phiPrime.name);
    assert ConstraintHolds(cs[0], b) && ConstraintHolds(cs[1], b) && ConstraintHolds(cs[2], b);
    assert ConstraintHolds(cs[3], b) && ConstraintHolds(cs[4], b);
  }

  /**
   * Indicator and slack values under which all seven constraints of an
   * inequality block hold: the converse of `InequalityFacts`, with the two
   * couplings `phi + s >= 2e` and `phi' + s' >= 2e` added.
   */
  lemma InequalityValuesSatisfy(lin: LinearConstraint, k: nat, e: real, b: Assignment)
    requires IsInequality(lin.op)
    requires b(SName(k)) + b(SPrimeName(k)) == 1.0
    requires b(PhiName(k)) == 0.0 || b(SName(k)) == 0.0
    requires b(PhiPrimeName(k)) == 0.0 || b(SPrimeName(k)) == 0.0
    requires b(PhiName(k)) + b(SName(k)) >= 2.0 * e && b(PhiPrimeName(k)) + b(SPrimeName(k)) >= 2.0 * e
    requires Holds(lin.op, TermsValue(lin.lhs, b) + Times(Sign(lin.op), b(PhiName(k))), lin.rhs)
    requires Holds(Negation(lin.op), TermsValue(lin.lhs, b) + Times(-Sign(lin.op), b(PhiPrimeName(k))), lin.rhs)
    ensures AllHold(InequalityBlock(lin, k, e), b)
  {
    var cs := InequalityBlock(lin, k, e);
    var phi := NewReal(PhiName(k));
    var phiPrime := NewReal(PhiPrimeName(k));
    assert ConstraintHolds(cs[0], b) by {
      assert Satisfied(Complement(k), b);
    }
    assert ConstraintHolds(cs[1], b) by {
      assert Satisfied(Derived(lin, lin.op, phi, Sign(lin.op)), b);
    }
    assert ConstraintHolds(cs[2], b) by {
      assert Satisfied(Derived(lin, Negation(lin.op), phiPrime, -Sign(lin.op)), b);
    }
    assert ConstraintHolds(cs[3], b) && ConstraintHolds(cs[4], b) by {
      assert Satisfied(Sum2(phi, S(k), GreaterOrEqual, 2.0 * e), b);
      assert Satisfied(Sum2(phiPrime, SPrime(k), GreaterOrEqual, 2.0 * e), b);
    }
    assert ConstraintHolds(cs[5], b) && ConstraintHolds(cs[6], b) by {
      CountNonzeroPair(phi, S(k), b);
      CountNonzeroPair(phiPrime, SPrime(k), b);
    }
  }

  /**
   * The converse of `NotEqualIndicator` fails: when `f = k`, raising `phi`
   * above epsilon satisfies all five constraints with `s = 1`, so `s = 1`
   * does not mean the `!=` disjunct holds.
   */
  lemma NotEqualIndicatorOneWay(lin: LinearConstraint, k: nat, e: real, a: Assignment)
    requires lin.op == NotEqual && AllLinear(lin.lhs)
    requires TermsValue(lin.lhs, a) == lin.rhs
    requires forall i :: 0 <= i < |lin.lhs| ==>
               lin.lhs[i].var1.name !in {SName(k), SPrimeName(k), PhiName(k), PhiPrimeName(k)}
    ensures exists b: Assignment ::
              AllHold(NotEqualBlock(lin, k, e), b) && b(SName(k)) == 1.0 && !Satisfied(lin, b)
  {
    AuxNamesDistinct(k);
    var x := if e > 0.0 then e + 1.0 else 1.0;
    var b := Override(Override(Override(Override(a, SName(k), 1.0), SPrimeName(k), 0.0), PhiName(k), x), PhiPrimeName(k), 0.0);
    assert b(SName(k)) == 1.0 && b(SPrimeName(k)) == 0.0 && b(PhiName(k)) == x && b(PhiPrimeName(k)) == 0.0;
    assert forall i :: 0 <= i < |lin.lhs| ==> a(lin.lhs[i].var1.name) == b(lin.lhs[i].var1.name);
    TermsValueAgree(lin.lhs, a, b);
    NotEqualValuesSatisfy(lin, k, e, b);
  }

  // ---------------------------------------------------------------------------
  // The closing constraint and the whole conversion

  /** Nonnegative indicators always satisfy the closing `>= 0.0`: it asks nothing of binary ones. */
  lemma {:induction false} ClosingVacuous(n: nat, m: nat, a: Assignment)
    requires forall j: nat :: n <= j < n + m ==> a(SName(j)) >= 0.0
    ensures Satisfied(Closing(n, m, 0.0), a)
    decreases m
  {
    if m > 0 {
      ClosingVacuous(n + 1, m - 1, a);
      assert a(SName(n)) >= 0.0;
    }
  }

  /** With the indicators all 0, the closing left-hand side is worth 0. */
  lemma {:induction false} ClosingZero(n: nat, m: nat, a: Assignment)
    requires forall j: nat :: n <= j < n + m ==> a(SName(j)) == 0.0
    ensures TermsValue(ClosingTerms(n, m), a) == 0.0
    decreases m
  {
    if m > 0 {
      ClosingZero(n + 1, m - 1, a);
      assert a(SName(n)) == 0.0;
    }
  }

  /** The corrected closing `sum(s) >= 1` over binary indicators sets some indicator to 1. */
  lemma ClosingChoosesOne(n: nat, m: nat, a: Assignment)
    requires Satisfied(Closing(n, m, 1.0), a)
    requires forall j: nat :: n <= j < n + m ==> a(SName(j)) == 0.0 || a(SName(j)) == 1.0
    ensures exists j: nat :: n <= j < n + m && a(SName(j)) == 1.0
  {
    if forall j: nat :: n <= j < n + m ==> a(SName(j)) != 1.0 {
      ClosingZero(n, m, a);
    }
  }

  /** A list holds exactly when both of its halves do. */
  lemma AllHoldAppend(xs: seq<Constraint>, ys: seq<Constraint>, a: Assignment)
    ensures AllHold(xs + ys, a) <==> AllHold(xs, a) && AllHold(ys, a)
  {
    assert forall j :: 0 <= j < |xs| ==> (xs + ys)[j] == xs[j];
    assert forall j :: 0 <= j < |ys| ==> (xs + ys)[|xs| + j] == ys[j];
  }

  /**
   * What an indicator value `s` of a disjunct `c` tells about `c` under `a`:
   * for an inequality it is exactly the truth value of `c`; for `=`, `s = 1`
   * implies `c`; for `!=`, `c` implies `s = 1`.
   */
  predicate IndicatorMeaning(c: LinearConstraint, s: real, a: Assignment) {
    && (IsInequality(c.op) ==> (s == 1.0 <==> Satisfied(c, a)))
    && (c.op == Equal && s == 1.0 ==> Satisfied(c, a))
    && (c.op == NotEqual && Satisfied(c, a) ==> s == 1.0)
  }

  /**
   * What a satisfying assignment of the whole conversion says about each
   * disjunct `i`, through its indicator `s_k` with `k = n + i`: exactly its truth value
   * for an inequality, a sufficient condition for `=`, a necessary one for
   * `!=`.
   */
  lemma ConvertIndicator(o: OrConstraint, n: nat, a: Assignment, i: nat, k: nat)
    requires Convert(o, n).Success? && AllHold(Convert(o, n).value.constraints, a)
    requires i < |o.constraints| && k == n + i
    requires a(SName(k)) == 0.0 || a(SName(k)) == 1.0
    ensures IndicatorMeaning(o.constraints[i], a(SName(k)), a)
  {
    ConvertBlocksHold(o, n, a, i, k);
    BlockIndicator(o.constraints[i], k, o.epsilon, a);
  }

  /** Some disjunct holds under `a`. */
  predicate DisjunctionHolds(o: OrConstraint, a: Assignment) {
    exists i :: 0 <= i < |o.constraints| && Satisfied(o.constraints[i], a)
  }

  /**
   * Soundness of the corrected conversion: in any solution whose indicators
   * are binary, the closing constraint sets some `s_(n+i)` to 1, and the
   * disjunct `i` then holds, unless it is a `!=` disjunct, whose indicator
   * does not force it (`NotEqualIndicatorOneWay`).
   */
  lemma ConvertChoosesDisjunct(o: OrConstraint, n: nat, a: Assignment)
    requires Convert(o, n).Success? && AllHold(Convert(o, n).value.constraints, a)
    requires forall j: nat :: n <= j < n + |o.constraints| ==> a(SName(j)) == 0.0 || a(SName(j)) == 1.0
    ensures exists i :: 0 <= i < |o.constraints| && a(SName(n + i)) == 1.0
                        && (Satisfied(o.constraints[i], a) || o.constraints[i].op == NotEqual)
  {
    ConvertClosingHolds(o, n, a);
    forall i | 0 <= i < |o.constraints|
      ensures IndicatorMeaning(o.constraints[i], a(SName(n + i)), a)
    {
      ConvertIndicator(o, n, a, i, n + i);
    }
    ChoosesFromFacts(o.constraints, n, a);
  }

  /**
   * The choice step of `ConvertChoosesDisjunct`, stated over the facts it
   * needs: the closing constraint and each disjunct's indicator meaning.
   */
  lemma ChoosesFromFacts(cs: seq<LinearConstraint>, n: nat, a: Assignment)
    requires Satisfied(Closing(n, |cs|, 1.0), a)
    requires forall j: nat :: n <= j < n + |cs| ==> a(SName(j)) == 0.0 || a(SName(j)) == 1.0
    requires forall i :: 0 <= i < |cs| ==> IndicatorMeaning(cs[i], a(SName(n + i)), a)
    ensures exists i :: 0 <= i < |cs| && a(SName(n + i)) == 1.0
                        && (Satisfied(cs[i], a) || cs[i].op == NotEqual)
  {
    ClosingChoosesOne(n, |cs|, a);
    var j: nat :| n <= j < n + |cs| && a(SName(j)) == 1.0;
    var i := j - n;
    assert IndicatorMeaning(cs[i], a(SName(n + i)), a);
    ChosenMeaning(cs[i], a);
  }

  /** A disjunct whose indicator reads 1 holds, unless it is a `!=` disjunct. */
  lemma ChosenMeaning(c: LinearConstraint, a: Assignment)
    requires IndicatorMeaning(c, 1.0, a)
    ensures Satisfied(c, a) || c.op == NotEqual
  {
  }

  /** The closing constraint holds wherever the whole conversion does. */
  lemma ConvertClosingHolds(o: OrConstraint, n: nat, a: Assignment)
    requires Convert(o, n).Success? && AllHold(Convert(o, n).value.constraints, a)
    ensures Satisfied(Closing(n, |o.constraints|, 1.0), a)
  {
    var cs := Convert(o, n).value.constraints;
    assert cs[|cs| - 1] == Lin(Closing(n, |o.constraints|, 1.0));
    assert ConstraintHolds(cs[|cs| - 1], a);
  }

  /** Without a `!=` disjunct, every solution with binary indicators satisfies the disjunction. */
  lemma ConvertSound(o: OrConstraint, n: nat, a: Assignment)
    requires Convert(o, n).Success? && AllHold(Convert(o, n).value.constraints, a)
    requires forall j: nat :: n <= j < n + |o.constraints| ==> a(SName(j)) == 0.0 || a(SName(j)) == 1.0
    requires forall i :: 0 <= i < |o.constraints| ==> o.constraints[i].op != NotEqual
    ensures DisjunctionHolds(o, a)
  {
    ConvertChoosesDisjunct(o, n, a);
  }

  /** Every block of a successful conversion holds wherever the whole list holds. */
  lemma ConvertBlocksHold(o: OrConstraint, n: nat, a: Assignment, i: nat, k: nat)
    requires Convert(o, n).Success? && AllHold(Convert(o, n).value.constraints, a)
    requires i < |o.constraints| && k == n + i
    ensures Block(o.constraints[i], k, o.epsilon).Success?
    ensures AllHold(Block(o.constraints[i], k, o.epsilon).value, a)
  {
    var parts := Parts(o.constraints, n, o.epsilon);
    assert Convert(o, n).value.constraints == Blocks(o, n) + [Lin(Closing(n, |o.constraints|, 1.0))];
    AllHoldAppend(Flatten(parts), [Lin(Closing(n, |o.constraints|, 1.0))], a);
    FlattenHolds(parts, a, i);
  }

  /** The per-case indicator facts for a single block. */
  lemma BlockIndicator(c: LinearConstraint, k: nat, e: real, a: Assignment)
    requires Block(c, k, e).Success? && AllHold(Block(c, k, e).value, a)
    requires a(SName(k)) == 0.0 || a(SName(k)) == 1.0
    ensures IndicatorMeaning(c, a(SName(k)), a)
  {
    if IsInequality(c.op) {
      assert Block(c, k, e).value == InequalityBlock(c, k, e);
      InequalityIndicator(c, k, e, a);
    } else if c.op == Equal {
      assert Block(c, k, e).value == EqualBlock(c, k, e);
      if a(SName(k)) == 1.0 {
        EqualIndicator(c, k, e, a);
      }
    } else {
      assert Block(c, k, e).value == NotEqualBlock(c, k, e);
      NotEqualIndicator(c, k, e, a);
    }
  }

  // ---------------------------------------------------------------------------
  // What the conversion hands to `Problem.add`

  lemma InequalityWellShaped(lin: LinearConstraint, k: nat, e: real)
    requires IsInequality(lin.op) && AllLinear(lin.lhs)
    ensures AllWellShaped(InequalityBlock(lin, k, e))
  {
  }

  lemma EqualWellShaped(lin: LinearConstraint, k: nat, e: real)
    requires AllLinear(lin.lhs)
    ensures AllWellShaped(EqualBlock(lin, k, e))
  {
  }

  lemma NotEqualWellShaped(lin: LinearConstraint, k: nat, e: real)
    requires AllLinear(lin.lhs)
    ensures AllWellShaped(NotEqualBlock(lin, k, e))
  {
  }

  /** Every constraint of a block has a non-empty linear left-hand side or is a weighted SOS1. */
  lemma BlockWellShaped(c: LinearConstraint, k: nat, e: real)
    requires Block(c, k, e).Success?
    ensures AllWellShaped(Block(c, k, e).value)
  {
    if IsInequality(c.op) {
      assert Block(c, k, e).value == InequalityBlock(c, k, e);
      InequalityWellShaped(c, k, e);
    } else if c.op == Equal {
      assert Block(c, k, e).value == EqualBlock(c, k, e);
      EqualWellShaped(c, k, e);
    } else {
      assert Block(c, k, e).value == NotEqualBlock(c, k, e);
      NotEqualWellShaped(c, k, e);
    }
  }

  lemma {:induction false} FlattenWellShaped(parts: seq<seq<Constraint>>)
    requires forall i :: 0 <= i < |parts| ==> AllWellShaped(parts[i])
    ensures AllWellShaped(Flatten(parts))
  {
    if parts != [] {
      assert forall i :: 0 <= i < |parts| - 1 ==> parts[1..][i] == parts[i + 1];
      FlattenWellShaped(parts[1..]);
      var xs, ys := parts[0], Flatten(parts[1..]);
      assert forall j :: |xs| <= j < |xs| + |ys| ==> (xs + ys)[j] == ys[j - |xs|];
    }
  }

  lemma PartsWellShaped(cs: seq<LinearConstraint>, n: nat, e: real)
    requires !SomeQuadratic(cs)
    ensures forall i :: 0 <= i < |cs| ==> AllWellShaped(Parts(cs, n, e)[i])
  {
    var parts := Parts(cs, n, e);
    forall i | 0 <= i < |cs|
      ensures AllWellShaped(parts[i])
    {
      var k := n + i;
      assert parts[i] == Block(cs[i], k, e).value;
      BlockWellShaped(cs[i], k, e);
    }
  }

  /**
   * For a non-empty Or constraint every emitted constraint is accepted by
   * `Problem.add`; the closing constraint of an empty one has an empty
   * left-hand side, which `add` refuses.
   */
  lemma ConvertWellShaped(o: OrConstraint, n: nat)
    requires Convert(o, n).Success?
    ensures AllWellShaped(Convert(o, n).value.constraints) <==> |o.constraints| > 0
    ensures AllWellShaped(ConvertAsWritten(o, n).value.constraints) <==> |o.constraints| > 0
  {
    ClosedWellShaped(o, n, 1.0);
    ClosedWellShaped(o, n, 0.0);
  }

  /** `ConvertWellShaped` for the blocks closed by `sum(s) >= rhs`, whatever `rhs`. */
  lemma ClosedWellShaped(o: OrConstraint, n: nat, rhs: real)
    requires !SomeQuadratic(o.constraints)
    ensures AllWellShaped(Blocks(o, n) + [Lin(Closing(n, |o.constraints|, rhs))]) <==> |o.constraints| > 0
  {
    var cs := Blocks(o, n) + [Lin(Closing(n, |o.constraints|, rhs))];
    var parts := Parts(o.constraints, n, o.epsilon);
    PartsWellShaped(o.constraints, n, o.epsilon);
    FlattenWellShaped(parts);
    assert cs[|cs| - 1] == Lin(Closing(n, |o.constraints|, rhs));
    if |o.constraints| > 0 {
      assert forall j :: 0 <= j < |cs| - 1 ==> cs[j] == Flatten(parts)[j];
    }
  }

  // ---------------------------------------------------------------------------
  // How many linear and SOS1 constraints the conversion emits

  /** The linear members the disjuncts emit before the closing constraint. */
  function LinearCount(cs: seq<LinearConstraint>): nat {
    if cs == [] then 0 else BlockLinears(cs[0].op) + LinearCount(cs[1..])
  }

  lemma {:induction false} FlattenLinears(parts: seq<seq<Constraint>>, cs: seq<LinearConstraint>)
    requires |parts| == |cs|
    requires forall i :: 0 <= i < |cs| ==> |Linears(parts[i])| == BlockLinears(cs[i].op)
    ensures |Linears(Flatten(parts))| == LinearCount(cs)
  {
    if parts != [] {
      assert forall i :: 0 <= i < |cs| - 1 ==> parts[1..][i] == parts[i + 1] && cs[1..][i] == cs[i + 1];
      FlattenLinears(parts[1..], cs[1..]);
      LinearsAppend(parts[0], Flatten(parts[1..]));
    }
  }

  /**
   * The conversion emits `LinearCount + 1` linear constraints (the blocks'
   * and the closing one) and the rest, one or two per disjunct, as SOS1.
   */
  lemma ConvertSplit(o: OrConstraint, n: nat)
    requires Convert(o, n).Success?
    ensures |Linears(Convert(o, n).value.constraints)| == LinearCount(o.constraints) + 1
    ensures |Soss(Convert(o, n).value.constraints)| == EmittedCount(o.constraints) - LinearCount(o.constraints)
    ensures |Linears(ConvertAsWritten(o, n).value.constraints)| == LinearCount(o.constraints) + 1
    ensures |Soss(ConvertAsWritten(o, n).value.constraints)| == EmittedCount(o.constraints) - LinearCount(o.constraints)
  {
    ClosedSplit(o, n, 1.0);
    ClosedSplit(o, n, 0.0);
  }

  /** `ConvertSplit` for the blocks closed by `sum(s) >= rhs`, whatever `rhs`. */
  lemma ClosedSplit(o: OrConstraint, n: nat, rhs: real)
    requires !SomeQuadratic(o.constraints)
    ensures |Linears(Blocks(o, n) + [Lin(Closing(n, |o.constraints|, rhs))])| == LinearCount(o.constraints) + 1
    ensures |Soss(Blocks(o, n) + [Lin(Closing(n, |o.constraints|, rhs))])|
            == EmittedCount(o.constraints) - LinearCount(o.constraints)
  {
    var cs := Blocks(o, n) + [Lin(Closing(n, |o.constraints|, rhs))];
    var parts := Parts(o.constraints, n, o.epsilon);
    forall i | 0 <= i < |parts|
      ensures |Linears(parts[i])| == BlockLinears(o.constraints[i].op)
    {
      var k := n + i;
      assert parts[i] == Block(o.constraints[i], k, o.epsilon).value;
      BlockCounts(o.constraints[i], k, o.epsilon);
    }
    FlattenLinears(parts, o.constraints);
    LinearsAppend(Flatten(parts), [Lin(Closing(n, |o.constraints|, rhs))]);
    assert Linears([Lin(Closing(n, |o.constraints|, rhs))]) == [Closing(n, |o.constraints|, rhs)];
    SplitCounts(cs);
  }

  // ---------------------------------------------------------------------------
  // What the encoding leaves for the operator pass

  /** A linear member of `cs` with `<`, `>` or `!=`. */
  predicate SomeStrict(cs: seq<Constraint>) {
    exists j :: 0 <= j < |cs| && cs[j].Lin? && !IsCanonical(cs[j].lin.op)
  }

  lemma InequalityStrict(lin: LinearConstraint, k: nat, e: real)
    requires IsInequality(lin.op)
    ensures SomeStrict(InequalityBlock(lin, k, e))
  {
    var cs := InequalityBlock(lin, k, e);
    if IsCanonical(lin.op) {
      assert !IsCanonical(cs[2].lin.op);
    } else {
      assert !IsCanonical(cs[1].lin.op);
    }
  }

  lemma EqualStrict(lin: LinearConstraint, k: nat, e: real)
    ensures SomeStrict(EqualBlock(lin, k, e))
  {
    assert EqualBlock(lin, k, e)[3].lin.op == Greater;
  }

  lemma NotEqualStrict(lin: LinearConstraint, k: nat, e: real)
    ensures SomeStrict(NotEqualBlock(lin, k, e))
  {
    assert NotEqualBlock(lin, k, e)[4].lin.op == Greater;
  }

  /**
   * Every block holds a strict linear constraint: for an inequality either
   * the constraint itself or its negation is strict, and the `=` and `!=`
   * blocks end with `phi + phi' + s > e`.
   */
  lemma BlockStrict(lin: LinearConstraint, k: nat, e: real)
    requires AllLinear(lin.lhs)
    ensures SomeStrict(Block(lin, k, e).value)
  {
    if IsInequality(lin.op) {
      assert Block(lin, k, e).value == InequalityBlock(lin, k, e);
      InequalityStrict(lin, k, e);
    } else if lin.op == Equal {
      assert Block(lin, k, e).value == EqualBlock(lin, k, e);
      EqualStrict(lin, k, e);
    } else {
      assert Block(lin, k, e).value == NotEqualBlock(lin, k, e);
      NotEqualStrict(lin, k, e);
    }
  }

  /**
   * The conversion of a non-empty Or constraint always holds a strict
   * linear constraint, which is why `substituteOperators` has to follow
   * `substituteOr`.
   */
  lemma ConvertStrict(o: OrConstraint, n: nat)
    requires Convert(o, n).Success? && |o.constraints| > 0
    ensures SomeStrict(Convert(o, n).value.constraints)
    ensures SomeStrict(ConvertAsWritten(o, n).value.constraints)
  {
    ClosedStrict(o, n, 1.0);
    ClosedStrict(o, n, 0.0);
  }

  /** `ConvertStrict` for the blocks closed by `sum(s) >= rhs`, whatever `rhs`. */
  lemma ClosedStrict(o: OrConstraint, n: nat, rhs: real)
    requires !SomeQuadratic(o.constraints) && |o.constraints| > 0
    ensures SomeStrict(Blocks(o, n) + [Lin(Closing(n, |o.constraints|, rhs))])
  {
    var cs := Blocks(o, n) + [Lin(Closing(n, |o.constraints|, rhs))];
    var parts := Parts(o.constraints, n, o.epsilon);
    assert cs == parts[0] + Flatten(parts[1..]) + [Lin(Closing(n, |o.constraints|, rhs))];
    assert parts[0] == Block(o.constraints[0], n, o.epsilon).value;
    BlockStrict(o.constraints[0], n, o.epsilon);
    var j :| 0 <= j < |parts[0]| && parts[0][j].Lin? && !IsCanonical(parts[0][j].lin.op);
    assert cs[j] == parts[0][j];
  }
}
