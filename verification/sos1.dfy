/**
 * `SOS1Constraint.convert`: the big-M encoding of "at most one of these
 * variables is nonzero" with one binary indicator per variable.
 */
module Sos1Encoding {
  import opened Variables
  import opened Operators
  import opened Expressions
  import opened Constraints

  const IndicatorPrefix := "sos_binary_"

  /** The indicator of `v` is named after `v`, so the names are deterministic. */
  function IndicatorName(v: Variable): string {
    IndicatorPrefix + v.name
  }

  function Indicator(v: Variable): (b: Variable)
    ensures b.BinaryVariable? && b.name == IndicatorName(v)
  {
    NewBinary(IndicatorName(v))
  }

  /** Distinct variable names give distinct indicator names. */
  lemma IndicatorNameInjective(v: Variable, w: Variable)
    ensures IndicatorName(v) == IndicatorName(w) ==> v.name == w.name
  {
    if IndicatorName(v) == IndicatorName(w) {
      assert v.name == IndicatorName(v)[|IndicatorPrefix|..];
      assert w.name == IndicatorName(w)[|IndicatorPrefix|..];
    }
  }

  /** `v - bound * s <= 0`: `v` can be positive only when its indicator is set. */
  function UpperLink(v: Variable, bound: int): LinearConstraint {
    LinearConstraint([LinearTerm(v, 1.0), LinearTerm(Indicator(v), -(bound as real))],
                     LessOrEqual, 0.0, DefaultEpsilon)
  }

  /** `bound * s + v >= 0`: `v` can be negative only when its indicator is set. */
  function LowerLink(v: Variable, bound: int): LinearConstraint {
    LinearConstraint([LinearTerm(Indicator(v), bound as real), LinearTerm(v, 1.0)],
                     GreaterOrEqual, 0.0, DefaultEpsilon)
  }

  /** The two linking constraints of every variable, variable by variable. */
  function Links(vs: seq<Variable>, bound: int): (r: seq<LinearConstraint>)
    ensures |r| == 2 * |vs|
    ensures forall i :: 0 <= i < |vs| ==> r[2 * i] == UpperLink(vs[i], bound)
    ensures forall i :: 0 <= i < |vs| ==> r[2 * i + 1] == LowerLink(vs[i], bound)
  {
    if vs == [] then []
    else [UpperLink(vs[0], bound), LowerLink(vs[0], bound)] + Links(vs[1..], bound)
  }

  /** One weight-1 term per indicator, in the order of the variables. */
  function IndicatorTerms(vs: seq<Variable>): (r: seq<Term>)
    ensures |r| == |vs|
    ensures forall i :: 0 <= i < |vs| ==> r[i] == LinearTerm(Indicator(vs[i]), 1.0)
  {
    if vs == [] then [] else [LinearTerm(Indicator(vs[0]), 1.0)] + IndicatorTerms(vs[1..])
  }

  function Indicators(vs: seq<Variable>): (r: seq<Variable>)
    ensures |r| == |vs| && forall i :: 0 <= i < |vs| ==> r[i] == Indicator(vs[i])
  {
    seq(|vs|, i requires 0 <= i < |vs| => Indicator(vs[i]))
  }

  /** `Sum(s_i) <= 1`: at most one indicator is set. */
  function AtMostOne(vs: seq<Variable>): LinearConstraint {
    LinearConstraint(IndicatorTerms(vs), LessOrEqual, 1.0, DefaultEpsilon)
  }

  /** The emitted constraints and the SOS1 constraint after its `binary` list has grown. */
  datatype Sos1Conversion = Sos1Conversion(constraints: seq<LinearConstraint>, converted: Sos1Constraint)

  /**
   * `convert`: for each variable `v_i`, with indicator `s_i`, the
   * constraints `v_i - bound * s_i <= 0` and `bound * s_i + v_i >= 0`,
   * then `Sum(s_i) <= 1`. The weights and the epsilon play no part.
   */
  function Convert(s: Sos1Constraint): (r: Sos1Conversion)
    ensures |r.constraints| == 2 * |s.variables| + 1
    ensures forall i :: 0 <= i < |s.variables| ==>
              r.constraints[2 * i] == UpperLink(s.variables[i], s.bound)
              && r.constraints[2 * i + 1] == LowerLink(s.variables[i], s.bound)
    ensures var last := r.constraints[2 * |s.variables|];
            last.op == LessOrEqual && last.rhs == 1.0 && |last.lhs| == |s.variables|
            && forall i :: 0 <= i < |s.variables| ==>
                 last.lhs[i] == LinearTerm(Indicator(s.variables[i]), 1.0)
    ensures r.converted == s.(binary := s.binary + Indicators(s.variables))
  {
    Sos1Conversion(Links(s.variables, s.bound) + [AtMostOne(s.variables)],
                   s.(binary := s.binary + Indicators(s.variables)))
  }

  /** Only the variables and the bound decide what `convert` emits. */
  lemma ConvertIgnoresWeights(s: Sos1Constraint, t: Sos1Constraint)
    requires s.variables == t.variables && s.bound == t.bound
    ensures Convert(s).constraints == Convert(t).constraints
  {
  }

  predicate AllSatisfied(cs: seq<LinearConstraint>, a: Assignment) {
    forall i :: 0 <= i < |cs| ==> Satisfied(cs[i], a)
  }

  /** The indicators take only the values 0 and 1, as a binary variable must. */
  predicate IndicatorsBinary(vs: seq<Variable>, a: Assignment) {
    forall i :: 0 <= i < |vs| ==> a(IndicatorName(vs[i])) == 0.0 || a(IndicatorName(vs[i])) == 1.0
  }

  // ---------------------------------------------------------------------------
  // Soundness

  /** A variable whose indicator is 0 is pinned to 0 by its two linking constraints. */
  lemma LinksForceIndicator(v: Variable, bound: int, a: Assignment)
    requires Satisfied(UpperLink(v, bound), a) && Satisfied(LowerLink(v, bound), a)
    requires a(IndicatorName(v)) == 0.0 || a(IndicatorName(v)) == 1.0
    ensures a(v.name) != 0.0 ==> a(IndicatorName(v)) == 1.0
  {
    var m := bound as real;
    var x := a(v.name);
    var b := a(IndicatorName(v));
    TermsValuePair(LinearTerm(v, 1.0), LinearTerm(Indicator(v), -m), a);
    TermsValuePair(LinearTerm(Indicator(v), m), LinearTerm(v, 1.0), a);
    if b == 0.0 {
      assert x <= 0.0 && x >= 0.0;
    }
  }

  /** With 0/1 indicators set wherever the variable is nonzero, the indicator sum bounds the count. */
  lemma {:induction false} IndicatorSumAtLeastCount(vs: seq<Variable>, a: Assignment)
    requires IndicatorsBinary(vs, a)
    requires forall i :: 0 <= i < |vs| && a(vs[i].name) != 0.0 ==> a(IndicatorName(vs[i])) == 1.0
    ensures TermsValue(IndicatorTerms(vs), a) >= CountNonzero(vs, a) as real
  {
    if vs != [] {
      var rest := vs[1..];
      assert forall i :: 0 <= i < |rest| ==> rest[i] == vs[i + 1];
      IndicatorSumAtLeastCount(rest, a);
      assert IndicatorTerms(vs)[1..] == IndicatorTerms(rest);
      assert a(IndicatorName(vs[0])) == 0.0 || a(IndicatorName(vs[0])) == 1.0;
    }
  }

  /**
   * Soundness: an assignment that satisfies every emitted constraint and
   * gives the indicators binary values leaves at most one variable nonzero.
   */
  lemma ConvertSound(s: Sos1Constraint, a: Assignment)
    requires IndicatorsBinary(s.variables, a)
    requires AllSatisfied(Convert(s).constraints, a)
    ensures Sos1Holds(s, a)
  {
    var vs := s.variables;
    var cs := Convert(s).constraints;
    forall i | 0 <= i < |vs| && a(vs[i].name) != 0.0
      ensures a(IndicatorName(vs[i])) == 1.0
    {
      assert Satisfied(cs[2 * i], a) && Satisfied(cs[2 * i + 1], a);
      LinksForceIndicator(vs[i], s.bound, a);
    }
    IndicatorSumAtLeastCount(vs, a);
    assert Satisfied(cs[2 * |vs|], a);
    assert cs[2 * |vs|] == AtMostOne(vs);
  }

  // ---------------------------------------------------------------------------
  // Completeness

  /** Whether some variable of `vs` with indicator name `n` is nonzero under `a`. */
  ghost predicate SomeNonzeroNamed(vs: seq<Variable>, a: Assignment, n: string) {
    exists i :: 0 <= i < |vs| && IndicatorName(vs[i]) == n && a(vs[i].name) != 0.0
  }

  ghost predicate IsIndicatorName(vs: seq<Variable>, n: string) {
    exists i :: 0 <= i < |vs| && IndicatorName(vs[i]) == n
  }

  /** `a`, with every indicator set exactly when its variable is nonzero. */
  ghost function Extend(vs: seq<Variable>, a: Assignment): Assignment {
    n => if SomeNonzeroNamed(vs, a, n) then 1.0 else if IsIndicatorName(vs, n) then 0.0 else a(n)
  }

  lemma ExtendValues(vs: seq<Variable>, a: Assignment, i: nat)
    requires i < |vs|
    requires forall j, k :: 0 <= j < |vs| && 0 <= k < |vs| ==> vs[j].name != IndicatorName(vs[k])
    ensures Extend(vs, a)(vs[i].name) == a(vs[i].name)
    ensures Extend(vs, a)(IndicatorName(vs[i])) == if a(vs[i].name) != 0.0 then 1.0 else 0.0
  {
    var n := IndicatorName(vs[i]);
    assert IsIndicatorName(vs, n);
    if SomeNonzeroNamed(vs, a, n) {
      var j :| 0 <= j < |vs| && IndicatorName(vs[j]) == n && a(vs[j].name) != 0.0;
      IndicatorNameInjective(vs[i], vs[j]);
    } else {
      assert a(vs[i].name) == 0.0;
    }
  }

  /** When each indicator reads 1 exactly for a nonzero variable, the indicator sum is the count. */
  lemma {:induction false} IndicatorSumIsCount(vs: seq<Variable>, a: Assignment, b: Assignment)
    requires forall i :: 0 <= i < |vs| ==>
               b(IndicatorName(vs[i])) == if a(vs[i].name) != 0.0 then 1.0 else 0.0
    ensures TermsValue(IndicatorTerms(vs), b) == CountNonzero(vs, a) as real
  {
    if vs != [] {
      var rest := vs[1..];
      assert forall i :: 0 <= i < |rest| ==> rest[i] == vs[i + 1];
      IndicatorSumIsCount(rest, a, b);
      assert IndicatorTerms(vs)[1..] == IndicatorTerms(rest);
      assert b(IndicatorName(vs[0])) == if a(vs[0].name) != 0.0 then 1.0 else 0.0;
    }
  }

  /** Under the extended assignment the two linking constraints of a bounded variable hold. */
  lemma LinksHold(v: Variable, bound: int, b: Assignment)
    requires -(bound as real) <= b(v.name) <= bound as real
    requires b(IndicatorName(v)) == if b(v.name) != 0.0 then 1.0 else 0.0
    ensures Satisfied(UpperLink(v, bound), b) && Satisfied(LowerLink(v, bound), b)
  {
    var m := bound as real;
    var x := b(v.name);
    var s := b(IndicatorName(v));
    TermsValuePair(LinearTerm(v, 1.0), LinearTerm(Indicator(v), -m), b);
    TermsValuePair(LinearTerm(Indicator(v), m), LinearTerm(v, 1.0), b);
  }

  /** Every linking constraint holds when each variable's pair holds. */
  lemma {:induction false} LinksAllSatisfied(vs: seq<Variable>, bound: int, b: Assignment)
    requires forall i :: 0 <= i < |vs| ==>
               Satisfied(UpperLink(vs[i], bound), b) && Satisfied(LowerLink(vs[i], bound), b)
    ensures AllSatisfied(Links(vs, bound), b)
  {
    if vs != [] {
      var rest := vs[1..];
      assert forall i :: 0 <= i < |rest| ==> rest[i] == vs[i + 1];
      LinksAllSatisfied(rest, bound, b);
      var ls := Links(vs, bound);
      assert ls == [UpperLink(vs[0], bound), LowerLink(vs[0], bound)] + Links(rest, bound);
      forall k | 0 <= k < |ls| ensures Satisfied(ls[k], b) {
        if k >= 2 {
          assert ls[k] == Links(rest, bound)[k - 2];
        }
      }
    }
  }

  /**
   * Completeness, under the big-M assumption: if at most one variable is
   * nonzero and every variable lies within `[-bound, bound]`, setting the
   * indicators satisfies every emitted constraint. Indicator names must not
   * clash with the variables' own names.
   */
  lemma ConvertComplete(s: Sos1Constraint, a: Assignment)
    requires Sos1Holds(s, a)
    requires forall i :: 0 <= i < |s.variables| ==>
               -(s.bound as real) <= a(s.variables[i].name) <= s.bound as real
    requires forall j, k :: 0 <= j < |s.variables| && 0 <= k < |s.variables| ==>
               s.variables[j].name != IndicatorName(s.variables[k])
    ensures forall i :: 0 <= i < |s.variables| ==>
              Extend(s.variables, a)(s.variables[i].name) == a(s.variables[i].name)
    ensures IndicatorsBinary(s.variables, Extend(s.variables, a))
    ensures AllSatisfied(Convert(s).constraints, Extend(s.variables, a))
  {
    var vs := s.variables;
    var b := Extend(vs, a);
    var cs := Convert(s).constraints;
    forall i | 0 <= i < |vs|
      ensures b(vs[i].name) == a(vs[i].name)
      ensures b(IndicatorName(vs[i])) == if a(vs[i].name) != 0.0 then 1.0 else 0.0
    {
      ExtendValues(vs, a, i);
    }
    forall i | 0 <= i < |vs|
      ensures Satisfied(UpperLink(vs[i], s.bound), b) && Satisfied(LowerLink(vs[i], s.bound), b)
    {
      LinksHold(vs[i], s.bound, b);
    }
    IndicatorSumIsCount(vs, a, b);
    assert cs[2 * |vs|] == AtMostOne(vs);
    LinksAllSatisfied(vs, s.bound, b);
    assert cs == Links(vs, s.bound) + [AtMostOne(vs)];
  }

  /** The bound is needed: a value above it violates `v - bound * s <= 0` whatever the indicator. */
  lemma UpperLinkNeedsBound(v: Variable, bound: int, a: Assignment)
    requires bound >= 0
    requires a(IndicatorName(v)) == 0.0 || a(IndicatorName(v)) == 1.0
    requires a(v.name) > bound as real
    ensures !Satisfied(UpperLink(v, bound), a)
  {
    var m := bound as real;
    var x := a(v.name);
    var b := a(IndicatorName(v));
    TermsValuePair(LinearTerm(v, 1.0), LinearTerm(Indicator(v), -m), a);
    assert -m * b >= -m;
  }

  /**
   * Every emitted constraint has a non-empty left-hand side of linear terms
   * exactly when the SOS1 constraint has variables: without any, the final
   * `Sum(s_i) <= 1` has no terms and `Problem.add` refuses it.
   */
  lemma ConvertWellShaped(s: Sos1Constraint)
    ensures (forall i :: 0 <= i < |Convert(s).constraints| ==>
               |Convert(s).constraints[i].lhs| > 0 && AllLinear(Convert(s).constraints[i].lhs))
            <==> |s.variables| > 0
  {
    var cs := Convert(s).constraints;
    var ls := Links(s.variables, s.bound);
    assert cs == ls + [AtMostOne(s.variables)];
    LinksShaped(s.variables, s.bound);
    assert |cs[|ls|].lhs| == |s.variables|;
    assert forall i :: 0 <= i < |ls| ==> cs[i] == ls[i];
  }

  /**
   * Every emitted constraint has linear terms only and uses `<=` or `>=`,
   * so nothing that `substituteSOS1` adds needs the operator pass.
   */
  lemma ConvertCanonical(s: Sos1Constraint)
    ensures forall i :: 0 <= i < |Convert(s).constraints| ==>
              IsCanonical(Convert(s).constraints[i].op) && AllLinear(Convert(s).constraints[i].lhs)
  {
    var cs := Convert(s).constraints;
    var ls := Links(s.variables, s.bound);
    assert cs == ls + [AtMostOne(s.variables)];
    LinksShaped(s.variables, s.bound);
    assert forall i :: 0 <= i < |ls| ==> cs[i] == ls[i];
  }

  /** A linking constraint: two linear terms under `<=` or `>=`. */
  predicate LinkShaped(l: LinearConstraint) {
    |l.lhs| > 0 && AllLinear(l.lhs) && IsCanonical(l.op)
  }

  lemma {:induction false} LinksShaped(vs: seq<Variable>, bound: int)
    ensures forall i :: 0 <= i < |Links(vs, bound)| ==> LinkShaped(Links(vs, bound)[i])
    decreases |vs|
  {
    if vs != [] {
      var head := [UpperLink(vs[0], bound), LowerLink(vs[0], bound)];
      var rest := Links(vs[1..], bound);
      LinksShaped(vs[1..], bound);
      assert Links(vs, bound) == head + rest;
      assert LinkShaped(head[0]) && LinkShaped(head[1]);
      assert forall i :: 2 <= i < |head + rest| ==> (head + rest)[i] == rest[i - 2];
    }
  }
}
