/**
 * Linear constraints, SOS1 constraints and the mixed lists that the
 * rewrites emit, with their meaning under an assignment of reals to
 * variable names.
 */
module Constraints {
  import opened Wrappers
  import opened Variables
  import opened Operators
  import opened Expressions

  /** The `epsilon` a linear or SOS1 constraint has unless one is given. */
  const DefaultEpsilon: real := 0.0001

  /** `(int) 10E4`, the big-M constant of the SOS1 encoding. */
  const DefaultBound: int := 100000

  const QuadraticLhsMessage := "A linear constraint is not allowed to contain any quadratic terms."

  /** `lhs op rhs`; `epsilon` is the gap used when a strict or `!=` operator is rewritten. */
  datatype LinearConstraint = LinearConstraint(lhs: seq<Term>, op: Operator, rhs: real, epsilon: real)

  /**
   * At most one of `variables` may be nonzero. `weights` only orders the
   * variables for a solver; `binary` collects the indicators each
   * conversion draws; `bound` is the big-M constant.
   */
  datatype Sos1Constraint = Sos1Constraint(variables: seq<Variable>, weights: seq<real>,
                                           binary: seq<Variable>, bound: int, epsilon: real)

  /** An element of the `List<Constraint>` a rewrite returns. */
  datatype Constraint = Lin(lin: LinearConstraint) | Sos(sos: Sos1Constraint)

  predicate AllLinear(ts: seq<Term>) {
    forall i :: 0 <= i < |ts| ==> ts[i].LinearTerm?
  }

  // ---------------------------------------------------------------------------
  // Linear constraints

  /** `new LinearConstraint(op, rhs[, epsilon])`: an empty left-hand side. */
  function EmptyConstraint(op: Operator, rhs: real, epsilon: real): (r: LinearConstraint)
    ensures r.lhs == [] && r.op == op && r.rhs == rhs && r.epsilon == epsilon
  {
    LinearConstraint([], op, rhs, epsilon)
  }

  /**
   * `setLhsTerms`: appends the given terms to the constraint's own list,
   * refusing a list that holds any quadratic term.
   */
  function SetLhsTerms(c: LinearConstraint, ts: seq<Term>): (r: Result<LinearConstraint>)
    ensures r.Failure? <==> !AllLinear(ts)
    ensures r.Failure? ==> r.error == IllegalArgument(QuadraticLhsMessage)
    ensures r.Success? ==> r.value.lhs == c.lhs + ts && r.value.op == c.op
                           && r.value.rhs == c.rhs && r.value.epsilon == c.epsilon
  {
    if exists i :: 0 <= i < |ts| && ts[i].QuadraticTerm? then Failure(IllegalArgument(QuadraticLhsMessage))
    else Success(LinearConstraint(c.lhs + ts, c.op, c.rhs, c.epsilon))
  }

  /** `new LinearConstraint(lhsTerms, op, rhs, epsilon)`. */
  function NewConstraint(ts: seq<Term>, op: Operator, rhs: real, epsilon: real): (r: Result<LinearConstraint>)
    ensures r.Failure? <==> !AllLinear(ts)
    ensures r.Success? ==> r.value == LinearConstraint(ts, op, rhs, epsilon)
  {
    SetLhsTerms(EmptyConstraint(op, rhs, epsilon), ts)
  }

  /**
   * The copy constructor goes through `setLhsTerms`, so it refuses a
   * constraint whose terms were given a quadratic term by `addTerm`.
   */
  function Copy(c: LinearConstraint): (r: Result<LinearConstraint>)
    ensures r.Failure? <==> !AllLinear(c.lhs)
    ensures r.Success? ==> r.value == c
  {
    var e :- SetLhsTerms(EmptyConstraint(c.op, c.rhs, DefaultEpsilon), c.lhs);
    Success(e.(epsilon := c.epsilon))
  }

  /** `addTerm(Term)`: appends without a shape check. */
  function AddTerm(c: LinearConstraint, t: Term): (r: LinearConstraint)
    ensures r.lhs == c.lhs + [t] && r.op == c.op && r.rhs == c.rhs && r.epsilon == c.epsilon
    ensures forall a :: TermsValue(r.lhs, a) == TermsValue(c.lhs, a) + TermValue(t, a)
  {
    var r := LinearConstraint(c.lhs + [t], c.op, c.rhs, c.epsilon);
    forall a ensures TermsValue(r.lhs, a) == TermsValue(c.lhs, a) + TermValue(t, a) {
      TermsValueAppend(c.lhs, [t], a);
      assert TermsValue([t], a) == TermValue(t, a);
    }
    r
  }

  /** `addTerm(var, weight)`. */
  function AddLinearTerm(c: LinearConstraint, v: Variable, w: real): (r: LinearConstraint)
    ensures r == AddTerm(c, LinearTerm(v, w))
    ensures forall a :: TermsValue(r.lhs, a) == TermsValue(c.lhs, a) + w * a(v.name)
  {
    AddTerm(c, LinearTerm(v, w))
  }

  /** The constraint holds under `a`. */
  predicate Satisfied(c: LinearConstraint, a: Assignment) {
    Holds(c.op, TermsValue(c.lhs, a), c.rhs)
  }

  /** A nonnegative real slack: a fresh `RealVariable` after `setLowerBound(0.0)`. */
  function Slack(name: string): (v: Variable)
    ensures v.RealVariable? && v.name == name
    ensures LowerBound(v) == 0.0 && UpperBound(v) == DefaultRealUpper
    ensures !v.defaultLower && v.defaultUpper
  {
    SetRealLowerBound(NewReal(name), 0.0)
  }

  // ---------------------------------------------------------------------------
  // SOS1 constraints

  /** `Arrays.fill(weights, 1)` over a fresh array of length `n`. */
  function UnitWeights(n: nat): (r: seq<real>)
    ensures |r| == n && forall i :: 0 <= i < n ==> r[i] == 1.0
  {
    seq(n, _ => 1.0)
  }

  /** `new SOS1Constraint(variables, weights)`. */
  function NewSos1(vs: seq<Variable>, ws: seq<real>): (r: Sos1Constraint)
    ensures r.variables == vs && r.weights == ws && r.binary == []
    ensures r.bound == DefaultBound && r.epsilon == DefaultEpsilon
  {
    Sos1Constraint(vs, ws, [], DefaultBound, DefaultEpsilon)
  }

  /** `new SOS1Constraint(variables)`: one weight of 1 per variable. */
  function NewUnweightedSos1(vs: seq<Variable>): (r: Sos1Constraint)
    ensures r.variables == vs && |r.weights| == |vs|
    ensures forall i :: 0 <= i < |vs| ==> r.weights[i] == 1.0
    ensures r.binary == [] && r.bound == DefaultBound && r.epsilon == DefaultEpsilon
  {
    Sos1Constraint(vs, UnitWeights(|vs|), [], DefaultBound, DefaultEpsilon)
  }

  /** `new SOS1Constraint()`: no variables and no weights. */
  function NewEmptySos1(): (r: Sos1Constraint)
    ensures r.variables == [] && r.weights == [] && r.binary == []
    ensures r.bound == DefaultBound && r.epsilon == DefaultEpsilon
  {
    NewUnweightedSos1([])
  }

  /** The constructors taking a `bound` call `setBound` last. */
  function WithBound(s: Sos1Constraint, bound: int): (r: Sos1Constraint)
    ensures r.bound == bound && r.variables == s.variables && r.weights == s.weights
    ensures r.binary == s.binary && r.epsilon == s.epsilon
  {
    s.(bound := bound)
  }

  /** `setVariables` appends to the constraint's list and leaves the weights alone. */
  function SetVariables(s: Sos1Constraint, vs: seq<Variable>): (r: Sos1Constraint)
    ensures r.variables == s.variables + vs && r.weights == s.weights
    ensures r.binary == s.binary && r.bound == s.bound && r.epsilon == s.epsilon
  {
    s.(variables := s.variables + vs)
  }

  /** The number of positions of `vs` whose variable is nonzero under `a`. */
  function CountNonzero(vs: seq<Variable>, a: Assignment): (r: nat)
    ensures r <= |vs|
  {
    if vs == [] then 0 else (if a(vs[0].name) != 0.0 then 1 else 0) + CountNonzero(vs[1..], a)
  }

  /**
   * The count is 0 exactly when every variable is 0, and at most 1 exactly
   * when of any two positions one holds a zero variable.
   */
  lemma {:induction false} CountNonzeroMeaning(vs: seq<Variable>, a: Assignment)
    ensures CountNonzero(vs, a) == 0 <==> forall i :: 0 <= i < |vs| ==> a(vs[i].name) == 0.0
    ensures CountNonzero(vs, a) <= 1 <==>
              forall i, j :: 0 <= i < j < |vs| ==> a(vs[i].name) == 0.0 || a(vs[j].name) == 0.0
  {
    if vs != [] {
      var rest := vs[1..];
      assert forall i :: 0 <= i < |rest| ==> rest[i] == vs[i + 1];
      CountNonzeroMeaning(rest, a);
    }
  }

  /** The SOS1 condition: at most one of the variables is nonzero. */
  predicate Sos1Holds(s: Sos1Constraint, a: Assignment) {
    CountNonzero(s.variables, a) <= 1
  }

  /** For two variables the SOS1 condition says that one of them is zero. */
  lemma CountNonzeroPair(x: Variable, y: Variable, a: Assignment)
    ensures CountNonzero([x, y], a) <= 1 <==> a(x.name) == 0.0 || a(y.name) == 0.0
  {
    assert [x, y][1..] == [y];
    assert [y][1..] == [];
  }

  /** For three variables the SOS1 condition says that two of them are zero. */
  lemma CountNonzeroTriple(x: Variable, y: Variable, z: Variable, a: Assignment)
    ensures CountNonzero([x, y, z], a) <= 1 <==>
              (a(x.name) == 0.0 && a(y.name) == 0.0) || (a(x.name) == 0.0 && a(z.name) == 0.0)
              || (a(y.name) == 0.0 && a(z.name) == 0.0)
  {
    assert [x, y, z][1..] == [y, z];
    CountNonzeroPair(y, z, a);
    assert [y, z][1..] == [z];
    assert [z][1..] == [];
  }

  predicate ConstraintHolds(c: Constraint, a: Assignment) {
    match c
    case Lin(l) => Satisfied(l, a)
    case Sos(s) => Sos1Holds(s, a)
  }

  /** Every element of a list holds. */
  predicate AllHold(cs: seq<Constraint>, a: Assignment) {
    forall i :: 0 <= i < |cs| ==> ConstraintHolds(cs[i], a)
  }

  /** The linear members of a mixed list, in order (`filter(LinearConstraint.class::isInstance)`). */
  function Linears(cs: seq<Constraint>): (r: seq<LinearConstraint>)
    ensures |r| <= |cs|
  {
    if cs == [] then []
    else (if cs[0].Lin? then [cs[0].lin] else []) + Linears(cs[1..])
  }

  /** The SOS1 members of a mixed list, in order. */
  function Soss(cs: seq<Constraint>): (r: seq<Sos1Constraint>)
    ensures |r| <= |cs|
  {
    if cs == [] then []
    else (if cs[0].Sos? then [cs[0].sos] else []) + Soss(cs[1..])
  }

  /** Filtering a mixed list into its two kinds loses nothing. */
  lemma {:induction false} SplitCounts(cs: seq<Constraint>)
    ensures |Linears(cs)| + |Soss(cs)| == |cs|
  {
    if cs != [] {
      SplitCounts(cs[1..]);
    }
  }

  lemma {:induction false} LinearsAppend(xs: seq<Constraint>, ys: seq<Constraint>)
    ensures Linears(xs + ys) == Linears(xs) + Linears(ys)
  {
    if xs != [] {
      assert (xs + ys)[1..] == xs[1..] + ys;
      LinearsAppend(xs[1..], ys);
    } else {
      assert xs + ys == ys;
    }
  }

  lemma {:induction false} SossAppend(xs: seq<Constraint>, ys: seq<Constraint>)
    ensures Soss(xs + ys) == Soss(xs) + Soss(ys)
  {
    if xs != [] {
      assert (xs + ys)[1..] == xs[1..] + ys;
      SossAppend(xs[1..], ys);
    } else {
      assert xs + ys == ys;
    }
  }

  /**
   * What `Problem.add` accepts without throwing, and what the later passes
   * can lower: a linear constraint with a non-empty left-hand side of
   * linear terms, or an SOS1 constraint with variables and one weight each.
   */
  predicate WellShaped(c: Constraint) {
    match c
    case Lin(l) => |l.lhs| > 0 && AllLinear(l.lhs)
    case Sos(s) => |s.variables| > 0 && |s.variables| == |s.weights|
  }

  predicate AllWellShaped(cs: seq<Constraint>) {
    forall i :: 0 <= i < |cs| ==> WellShaped(cs[i])
  }

  /** Each member of `Linears(cs)` is the payload of some element of `cs`. */
  lemma {:induction false} LinearsFrom(cs: seq<Constraint>)
    ensures forall j :: 0 <= j < |Linears(cs)| ==> Lin(Linears(cs)[j]) in cs
  {
    if cs != [] {
      LinearsFrom(cs[1..]);
      assert forall x :: x in cs[1..] ==> x in cs;
    }
  }

  /** Each member of `Soss(cs)` is the payload of some element of `cs`. */
  lemma {:induction false} SossFrom(cs: seq<Constraint>)
    ensures forall j :: 0 <= j < |Soss(cs)| ==> Sos(Soss(cs)[j]) in cs
  {
    if cs != [] {
      SossFrom(cs[1..]);
      assert forall x :: x in cs[1..] ==> x in cs;
    }
  }

  lemma TermsValuePair(t: Term, u: Term, a: Assignment)
    ensures TermsValue([t, u], a) == TermValue(t, a) + TermValue(u, a)
  {
    assert [t, u][1..] == [u];
    assert [u][1..] == [];
    assert TermsValue([u], a) == TermValue(u, a) + TermsValue([], a);
  }

  lemma TermsValueTriple(t: Term, u: Term, w: Term, a: Assignment)
    ensures TermsValue([t, u, w], a) == TermValue(t, a) + TermValue(u, a) + TermValue(w, a)
  {
    assert [t, u, w][1..] == [u, w];
    TermsValuePair(u, w, a);
  }

  /** `a` with the variable named `n` set to `x`. */
  function Override(a: Assignment, n: string, x: real): (b: Assignment)
    ensures b(n) == x && forall m :: m != n ==> b(m) == a(m)
  {
    m => if m == n then x else a(m)
  }

  /** Two assignments that agree on every variable of `ts` give `ts` the same value. */
  lemma {:induction false} TermsValueAgree(ts: seq<Term>, a: Assignment, b: Assignment)
    requires forall i :: 0 <= i < |ts| ==> a(ts[i].var1.name) == b(ts[i].var1.name)
    requires forall i :: 0 <= i < |ts| && ts[i].QuadraticTerm? ==> a(ts[i].var2.name) == b(ts[i].var2.name)
    ensures TermsValue(ts, a) == TermsValue(ts, b)
  {
    if ts != [] {
      assert a(ts[0].var1.name) == b(ts[0].var1.name);
      assert ts[0].QuadraticTerm? ==> a(ts[0].var2.name) == b(ts[0].var2.name);
      assert forall i :: 0 <= i < |ts[1..]| ==> ts[1..][i] == ts[i + 1];
      TermsValueAgree(ts[1..], a, b);
    }
  }

  /** The payload of every linear element of `cs` is in `Linears(cs)`. */
  lemma {:induction false} LinearsContains(cs: seq<Constraint>, l: LinearConstraint)
    requires Lin(l) in cs
    ensures l in Linears(cs)
  {
    if cs[0] != Lin(l) {
      assert Lin(l) in cs[1..];
      LinearsContains(cs[1..], l);
    }
  }
}
