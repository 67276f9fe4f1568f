/**
 * The three lowering passes of `Problem`: `substituteOr`, which replaces
 * every Or constraint by its encoding; `substituteOperators`, which
 * replaces every normal constraint using `<`, `>` or `!=`; and
 * `substituteSOS1`, which replaces every SOS1 constraint by its big-M
 * encoding. Each pass first collects all conversions and only then adds
 * them with `Problem.add`, so a conversion that throws leaves the problem
 * as it was; the model returns the failure instead.
 */
module Passes {
  import opened Wrappers
  import opened Operators
  import opened Constraints
  import opened Problems
  import OperatorRewrite
  import OrEncoding
  import Sos1Encoding

  /** A lowered problem and the next unused value of the fresh-name counter. */
  datatype Lowered = Lowered(problem: Problem, next: nat)

  /** Linear constraints as normal constraints (`map(LinearConstraint.class::cast)`). */
  function AsNormal(ls: seq<LinearConstraint>): (r: seq<NormalConstraint>)
    ensures |r| == |ls| && forall i :: 0 <= i < |ls| ==> r[i] == LinearNormal(ls[i])
  {
    seq(|ls|, i requires 0 <= i < |ls| => LinearNormal(ls[i]))
  }

  // ---------------------------------------------------------------------------
  // `forEach(it -> this.add(it))`

  /**
   * `add` of each normal constraint in turn. The first constraint with an
   * empty left-hand side throws; otherwise all of them are appended and
   * nothing but the constraint list and the registry changes.
   */
  function AddNormals(p: Problem, cs: seq<NormalConstraint>): (r: Result<Problem>)
    ensures r.Failure? <==> !NormalsNonEmpty(cs)
    ensures r.Failure? ==> r.error == IllegalArgument(EmptyLhsMessage)
    ensures r.Success? ==> r.value.constraints == p.constraints + cs
    ensures r.Success? ==> r.value.(constraints := p.constraints, variables := p.variables) == p
    decreases |cs|
  {
    if cs == [] then
      assert p.constraints + cs == p.constraints;
      Success(p)
    else
      NormalsCons(cs);
      AppendCons(p.constraints, cs);
      var q :- AddNormal(p, cs[0]);
      AddNormals(q, cs[1..])
  }

  /** The two messages `add(SOS1Constraint)` throws with. */
  predicate SosRefusal(e: Error) {
    e == IllegalArgument(EmptySosMessage) || e == IllegalArgument(SosWeightsMessage)
  }

  /** `add` of each SOS1 constraint in turn; the first malformed one throws. */
  function AddSoss(p: Problem, ss: seq<Sos1Constraint>): (r: Result<Problem>)
    ensures r.Failure? <==> !SossShaped(ss)
    ensures r.Failure? ==> SosRefusal(r.error)
    ensures r.Success? ==> r.value.sosConstraints == p.sosConstraints + ss
    ensures r.Success? ==> r.value.(sosConstraints := p.sosConstraints, variables := p.variables) == p
    decreases |ss|
  {
    if ss == [] then
      assert p.sosConstraints + ss == p.sosConstraints;
      Success(p)
    else
      SossCons(ss);
      AppendCons(p.sosConstraints, ss);
      var q :- AddSos(p, ss[0]);
      AddSoss(q, ss[1..])
  }

  /** `setGenConstraints`: `add` of each general constraint in turn; the first without variables throws. */
  function AddGenerals(p: Problem, gs: seq<GeneralConstraint>): (r: Result<Problem>)
    ensures r.Failure? <==> !GeneralsNonEmpty(gs)
    ensures r.Failure? ==> r.error == IllegalArgument(EmptyGeneralMessage)
    ensures r.Success? ==> r.value.genConstraints == p.genConstraints + gs
    ensures r.Success? ==> r.value.(genConstraints := p.genConstraints, variables := p.variables) == p
    decreases |gs|
  {
    if gs == [] then
      assert p.genConstraints + gs == p.genConstraints;
      Success(p)
    else
      GeneralsCons(gs);
      AppendCons(p.genConstraints, gs);
      var q :- AddGeneral(p, gs[0]);
      AddGenerals(q, gs[1..])
  }

  /** `setOrConstraints`: `add` of each Or constraint in turn; the first without disjuncts throws. */
  function AddOrs(p: Problem, os: seq<OrEncoding.OrConstraint>): (r: Result<Problem>)
    ensures r.Failure? <==> !OrsNonEmpty(os)
    ensures r.Failure? ==> r.error == IllegalArgument(EmptyOrMessage)
    ensures r.Success? ==> r.value.orConstraints == p.orConstraints + os
    ensures r.Success? ==> r.value.(orConstraints := p.orConstraints, variables := p.variables) == p
    decreases |os|
  {
    if os == [] then
      assert p.orConstraints + os == p.orConstraints;
      Success(p)
    else
      OrsCons(os);
      AppendCons(p.orConstraints, os);
      var q :- AddOr(p, os[0]);
      AddOrs(q, os[1..])
  }

  lemma AppendCons<T>(a: seq<T>, xs: seq<T>)
    requires xs != []
    ensures a + xs == (a + [xs[0]]) + xs[1..]
  {
    assert xs == [xs[0]] + xs[1..];
  }

  lemma NormalsCons(cs: seq<NormalConstraint>)
    requires cs != []
    ensures NormalsNonEmpty(cs) <==> Lhs(cs[0]) != [] && NormalsNonEmpty(cs[1..])
  {
    assert forall i :: 1 <= i < |cs| ==> cs[1..][i - 1] == cs[i];
  }

  lemma SossCons(ss: seq<Sos1Constraint>)
    requires ss != []
    ensures SossShaped(ss) <==> SosAccepted(ss[0]) && SossShaped(ss[1..])
  {
    assert forall i :: 1 <= i < |ss| ==> ss[1..][i - 1] == ss[i];
  }

  lemma GeneralsCons(gs: seq<GeneralConstraint>)
    requires gs != []
    ensures GeneralsNonEmpty(gs) <==> GeneralAccepted(gs[0]) && GeneralsNonEmpty(gs[1..])
  {
    assert forall i :: 1 <= i < |gs| ==> gs[1..][i - 1] == gs[i];
  }

  lemma OrsCons(os: seq<OrEncoding.OrConstraint>)
    requires os != []
    ensures OrsNonEmpty(os) <==> OrAccepted(os[0]) && OrsNonEmpty(os[1..])
  {
    assert forall i :: 1 <= i < |os| ==> os[1..][i - 1] == os[i];
  }

  lemma SplitHead<T>(xs: seq<T>)
    requires xs != []
    ensures xs == [xs[0]] + xs[1..]
    ensures forall i :: 1 <= i < |xs| ==> xs[1..][i - 1] == xs[i]
  {
  }

  /** Adding constraints one by one keeps what `add` keeps. */
  lemma {:induction false} AddNormalsKeeps(p: Problem, cs: seq<NormalConstraint>)
    requires WellFormed(p) && Registered(p) && AddNormals(p, cs).Success?
    ensures WellFormed(AddNormals(p, cs).value) && Registered(AddNormals(p, cs).value)
    decreases |cs|
  {
    if cs != [] {
      AddNormalKeeps(p, cs[0]);
      AddNormalsKeeps(AddNormal(p, cs[0]).value, cs[1..]);
    }
  }

  lemma {:induction false} AddSossKeeps(p: Problem, ss: seq<Sos1Constraint>)
    requires WellFormed(p) && Registered(p) && AddSoss(p, ss).Success?
    ensures WellFormed(AddSoss(p, ss).value) && Registered(AddSoss(p, ss).value)
    decreases |ss|
  {
    if ss != [] {
      AddSosKeeps(p, ss[0]);
      AddSossKeeps(AddSos(p, ss[0]).value, ss[1..]);
    }
  }

  /** Linear constraints that are well-shaped are accepted by `add`. */
  lemma WellShapedLinearsNonEmpty(cs: seq<Constraint>)
    requires AllWellShaped(cs)
    ensures NormalsNonEmpty(AsNormal(Linears(cs)))
  {
    LinearsFrom(cs);
  }

  /** SOS1 constraints that are well-shaped are accepted by `add`. */
  lemma WellShapedSossShaped(cs: seq<Constraint>)
    requires AllWellShaped(cs)
    ensures SossShaped(Soss(cs))
  {
    SossFrom(cs);
  }

  lemma WellShapedAppend(xs: seq<Constraint>, ys: seq<Constraint>)
    requires AllWellShaped(xs) && AllWellShaped(ys)
    ensures AllWellShaped(xs + ys)
  {
    assert forall i :: |xs| <= i < |xs + ys| ==> (xs + ys)[i] == ys[i - |xs|];
  }

  // ---------------------------------------------------------------------------
  // substituteOr

  /** The number of disjuncts over all Or constraints: the counter values `substituteOr` draws. */
  function DisjunctCount(os: seq<OrEncoding.OrConstraint>): nat {
    if os == [] then 0 else |os[0].constraints| + DisjunctCount(os[1..])
  }

  /** The number of constraints the conversions emit, closing constraints included. */
  function OrEmitted(os: seq<OrEncoding.OrConstraint>): nat {
    if os == [] then 0 else OrEncoding.EmittedCount(os[0].constraints) + 1 + OrEmitted(os[1..])
  }

  /** The number of linear constraints among them. */
  function OrLinears(os: seq<OrEncoding.OrConstraint>): nat {
    if os == [] then 0 else OrEncoding.LinearCount(os[0].constraints) + 1 + OrLinears(os[1..])
  }

  predicate SomeOrQuadratic(os: seq<OrEncoding.OrConstraint>) {
    exists i :: 0 <= i < |os| && OrEncoding.SomeQuadratic(os[i].constraints)
  }

  /**
   * `convert` of every Or constraint in turn, the counter running on from
   * one to the next; the first quadratic disjunct throws.
   */
  function ConvertOrs(os: seq<OrEncoding.OrConstraint>, n: nat): (r: Result<OrEncoding.OrConversion>)
    ensures r.Failure? <==> SomeOrQuadratic(os)
    ensures r.Failure? ==> r.error == IllegalArgument(QuadraticLhsMessage)
    ensures r.Success? ==> r.value.next == n + DisjunctCount(os)
    ensures r.Success? ==> |r.value.constraints| == OrEmitted(os)
    decreases |os|
  {
    if os == [] then Success(OrEncoding.OrConversion([], n))
    else
      SplitHead(os);
      var head :- OrEncoding.ConvertAsWritten(os[0], n);
      var rest :- ConvertOrs(os[1..], head.next);
      Success(OrEncoding.OrConversion(head.constraints + rest.constraints, rest.next))
  }

  /** Non-empty Or constraints convert to constraints `add` accepts. */
  lemma {:induction false} ConvertOrsShaped(os: seq<OrEncoding.OrConstraint>, n: nat)
    requires ConvertOrs(os, n).Success? && OrsNonEmpty(os)
    ensures AllWellShaped(ConvertOrs(os, n).value.constraints)
    decreases |os|
  {
    if os != [] {
      SplitHead(os);
      var head := OrEncoding.ConvertAsWritten(os[0], n).value;
      OrEncoding.ConvertWellShaped(os[0], n);
      ConvertOrsShaped(os[1..], head.next);
      WellShapedAppend(head.constraints, ConvertOrs(os[1..], head.next).value.constraints);
    }
  }

  /** The conversions emit `OrLinears(os)` linear constraints; the rest are SOS1. */
  lemma {:induction false} ConvertOrsSplit(os: seq<OrEncoding.OrConstraint>, n: nat)
    requires ConvertOrs(os, n).Success?
    ensures |Linears(ConvertOrs(os, n).value.constraints)| == OrLinears(os)
    ensures |Linears(ConvertOrs(os, n).value.constraints)| + |Soss(ConvertOrs(os, n).value.constraints)| == OrEmitted(os)
    decreases |os|
  {
    SplitCounts(ConvertOrs(os, n).value.constraints);
    if os != [] {
      SplitHead(os);
      var head := OrEncoding.ConvertAsWritten(os[0], n).value;
      OrEncoding.ConvertSplit(os[0], n);
      ConvertOrsSplit(os[1..], head.next);
      LinearsAppend(head.constraints, ConvertOrs(os[1..], head.next).value.constraints);
    }
  }

  /**
   * `substituteOr`: the linear members of all conversions are added as
   * normal constraints, then the SOS1 members, and the Or list is cleared.
   * The objective, the general constraints and the existing constraints
   * stay.
   */
  function SubstituteOr(p: Problem, n: nat): (r: Result<Lowered>)
    ensures SomeOrQuadratic(p.orConstraints) ==> r == Failure(IllegalArgument(QuadraticLhsMessage))
    ensures r.Success? ==>
              var emitted := ConvertOrs(p.orConstraints, n).value.constraints;
              var q := r.value.problem;
              && q.orConstraints == []
              && q.constraints == p.constraints + AsNormal(Linears(emitted))
              && q.sosConstraints == p.sosConstraints + Soss(emitted)
              && q.objective == p.objective && q.objectiveType == p.objectiveType
              && q.genConstraints == p.genConstraints
              && r.value.next == n + DisjunctCount(p.orConstraints)
  {
    var conv :- ConvertOrs(p.orConstraints, n);
    var q :- AddNormals(p, AsNormal(Linears(conv.constraints)));
    var q' :- AddSoss(q, Soss(conv.constraints));
    Success(Lowered(q'.(orConstraints := []), conv.next))
  }

  /**
   * On a problem built by `add`, `substituteOr` throws exactly when some
   * disjunct holds a quadratic term. Otherwise no Or constraint is left,
   * the invariants still hold, and the constraint counts grow by the
   * linear and SOS1 members of the conversions.
   */
  lemma SubstituteOrOutcome(p: Problem, n: nat)
    requires WellFormed(p)
    ensures SubstituteOr(p, n).Failure? <==> SomeOrQuadratic(p.orConstraints)
    ensures SubstituteOr(p, n).Success? ==>
              var q := SubstituteOr(p, n).value.problem;
              && OrConstraintCount(q) == 0
              && WellFormed(q) && (Registered(p) ==> Registered(q))
              && ConstraintCount(q) == ConstraintCount(p) + OrLinears(p.orConstraints)
              && ConstraintCount(q) + SosConstraintCount(q)
                 == ConstraintCount(p) + SosConstraintCount(p) + OrEmitted(p.orConstraints)
  {
    if !SomeOrQuadratic(p.orConstraints) {
      SubstituteOrAccepts(p, n);
      SubstituteOrCounts(p, n);
      SubstituteOrKeeps(p, n);
    }
  }

  lemma SubstituteOrAccepts(p: Problem, n: nat)
    requires WellFormed(p) && !SomeOrQuadratic(p.orConstraints)
    ensures SubstituteOr(p, n).Success?
  {
    var emitted := ConvertOrs(p.orConstraints, n).value.constraints;
    ConvertOrsShaped(p.orConstraints, n);
    WellShapedLinearsNonEmpty(emitted);
    WellShapedSossShaped(emitted);
  }

  lemma SubstituteOrCounts(p: Problem, n: nat)
    requires SubstituteOr(p, n).Success?
    ensures var q := SubstituteOr(p, n).value.problem;
            && ConstraintCount(q) == ConstraintCount(p) + OrLinears(p.orConstraints)
            && ConstraintCount(q) + SosConstraintCount(q)
               == ConstraintCount(p) + SosConstraintCount(p) + OrEmitted(p.orConstraints)
  {
    ConvertOrsSplit(p.orConstraints, n);
  }

  lemma SubstituteOrKeeps(p: Problem, n: nat)
    requires WellFormed(p) && SubstituteOr(p, n).Success?
    ensures WellFormed(SubstituteOr(p, n).value.problem)
    ensures Registered(p) ==> Registered(SubstituteOr(p, n).value.problem)
  {
    var emitted := ConvertOrs(p.orConstraints, n).value.constraints;
    var q := AddNormals(p, AsNormal(Linears(emitted))).value;
    var q' := AddSoss(q, Soss(emitted)).value;
    assert SubstituteOr(p, n).value.problem == q'.(orConstraints := []);
    if Registered(p) {
      AddNormalsKeeps(p, AsNormal(Linears(emitted)));
      AddSossKeeps(q, Soss(emitted));
    } else {
      assert NormalsNonEmpty(q.constraints);
      assert SossShaped(q'.sosConstraints);
    }
  }

  // ---------------------------------------------------------------------------
  // substituteOperators

  /** A normal constraint whose `convertOperator` yields nothing, so it stays in place. */
  predicate PassesThrough(c: NormalConstraint) {
    c.QuadraticNormal? || IsCanonical(c.lin.op)
  }

  /** The `!=` constraints among `cs`: each draws one counter value. */
  function NotEqualCount(cs: seq<NormalConstraint>): nat {
    if cs == [] then 0
    else (if cs[0].LinearNormal? && cs[0].lin.op == NotEqual then 1 else 0) + NotEqualCount(cs[1..])
  }

  /**
   * `convertOperator` of a normal constraint: the linear rewrite, and the
   * empty list for a quadratic constraint.
   */
  function RewriteOne(c: NormalConstraint, n: nat): (r: Result<OperatorRewrite.Rewrite>)
    ensures r.Failure? <==> c.LinearNormal? && !AllLinear(c.lin.lhs)
    ensures r.Success? ==> (r.value.constraints == [] <==> PassesThrough(c))
    ensures r.Success? ==> OperatorRewrite.AllCanonical(r.value.constraints)
    ensures r.Success? ==> r.value.next == n + NotEqualCount([c])
    ensures r.Success? && |Lhs(c)| > 0 ==> AllWellShaped(r.value.constraints)
  {
    match c
    case QuadraticNormal(_) => Success(OperatorRewrite.Rewrite([], n))
    case LinearNormal(l) =>
      RewriteShaped(l, n);
      OperatorRewrite.ConvertOperator(l, n)
  }

  lemma RewriteShaped(l: LinearConstraint, n: nat)
    ensures OperatorRewrite.ConvertOperator(l, n).Success? && |l.lhs| > 0 ==>
              AllWellShaped(OperatorRewrite.ConvertOperator(l, n).value.constraints)
  {
    if OperatorRewrite.ConvertOperator(l, n).Success? && |l.lhs| > 0 {
      OperatorRewrite.ConvertOperatorWellShaped(l, n);
    }
  }

  predicate SomeLinearQuadratic(cs: seq<NormalConstraint>) {
    exists i :: 0 <= i < |cs| && cs[i].LinearNormal? && !AllLinear(cs[i].lin.lhs)
  }

  /** The rewrites of all constraints one after another, the counter running on. */
  function RewriteAll(cs: seq<NormalConstraint>, n: nat): (r: Result<OperatorRewrite.Rewrite>)
    ensures r.Failure? <==> SomeLinearQuadratic(cs)
    ensures r.Failure? ==> r.error == IllegalArgument(QuadraticLhsMessage)
    ensures r.Success? ==> r.value.next == n + NotEqualCount(cs)
    decreases |cs|
  {
    if cs == [] then Success(OperatorRewrite.Rewrite([], n))
    else
      SplitHead(cs);
      var head :- RewriteOne(cs[0], n);
      var rest :- RewriteAll(cs[1..], head.next);
      Success(OperatorRewrite.Rewrite(head.constraints + rest.constraints, rest.next))
  }

  /**
   * The rewrites use only `<=`, `>=` and `=`; they are empty exactly when
   * every constraint passes through; and they are all accepted by `add`
   * when every left-hand side is non-empty.
   */
  lemma {:induction false} RewriteAllShape(cs: seq<NormalConstraint>, n: nat)
    requires RewriteAll(cs, n).Success?
    ensures OperatorRewrite.AllCanonical(RewriteAll(cs, n).value.constraints)
    ensures RewriteAll(cs, n).value.constraints == [] <==> forall i :: 0 <= i < |cs| ==> PassesThrough(cs[i])
    ensures NormalsNonEmpty(cs) ==> AllWellShaped(RewriteAll(cs, n).value.constraints)
    decreases |cs|
  {
    if cs != [] {
      SplitHead(cs);
      var head := RewriteOne(cs[0], n).value;
      RewriteAllShape(cs[1..], head.next);
      var rest := RewriteAll(cs[1..], head.next).value;
      CanonicalAppend(head.constraints, rest.constraints);
      if NormalsNonEmpty(cs) {
        WellShapedAppend(head.constraints, rest.constraints);
      }
    }
  }

  lemma CanonicalAppend(xs: seq<Constraint>, ys: seq<Constraint>)
    requires OperatorRewrite.AllCanonical(xs) && OperatorRewrite.AllCanonical(ys)
    ensures OperatorRewrite.AllCanonical(xs + ys)
  {
    assert forall i :: |xs| <= i < |xs + ys| ==> (xs + ys)[i] == ys[i - |xs|];
  }

  /** The constraints kept in place, in order. */
  function Kept(cs: seq<NormalConstraint>): (r: seq<NormalConstraint>)
    ensures forall i :: 0 <= i < |r| ==> PassesThrough(r[i])
    ensures forall c :: c in r <==> c in cs && PassesThrough(c)
    ensures (forall i :: 0 <= i < |cs| ==> PassesThrough(cs[i])) ==> r == cs
  {
    if cs == [] then []
    else
      SplitHead(cs);
      (if PassesThrough(cs[0]) then [cs[0]] else []) + Kept(cs[1..])
  }

  /** The `delete` list: the constraints whose rewrite is not empty. */
  function Deleted(cs: seq<NormalConstraint>): (r: seq<NormalConstraint>)
    ensures forall c :: c in r <==> c in cs && !PassesThrough(c)
  {
    if cs == [] then []
    else
      SplitHead(cs);
      (if PassesThrough(cs[0]) then [] else [cs[0]]) + Deleted(cs[1..])
  }

  /** `List.removeAll`: every element equal to a member of `ds` goes. */
  function RemoveAll(xs: seq<NormalConstraint>, ds: seq<NormalConstraint>): (r: seq<NormalConstraint>)
    ensures forall x :: x in r <==> x in xs && x !in ds
    ensures |r| <= |xs|
  {
    if xs == [] then []
    else
      SplitHead(xs);
      (if xs[0] in ds then [] else [xs[0]]) + RemoveAll(xs[1..], ds)
  }

  /**
   * Removing the `delete` list leaves exactly the pass-through constraints
   * in their order; the `remove` calls that follow find nothing more to
   * remove.
   */
  lemma {:induction false} RemoveDeletedKeeps(cs: seq<NormalConstraint>, ds: seq<NormalConstraint>)
    requires forall c :: c in cs ==> (c in ds <==> !PassesThrough(c))
    ensures RemoveAll(cs, ds) == Kept(cs)
    decreases |cs|
  {
    if cs != [] {
      SplitHead(cs);
      RemoveDeletedKeeps(cs[1..], ds);
    }
  }

  /**
   * `substituteOperators`: the rewritten constraints leave the list, the
   * linear members of their rewrites are added, then the SOS1 members.
   */
  function SubstituteOperators(p: Problem, n: nat): (r: Result<Lowered>)
    ensures SomeLinearQuadratic(p.constraints) ==> r == Failure(IllegalArgument(QuadraticLhsMessage))
    ensures r.Success? ==>
              var emitted := RewriteAll(p.constraints, n).value.constraints;
              var q := r.value.problem;
              && q.constraints == Kept(p.constraints) + AsNormal(Linears(emitted))
              && q.sosConstraints == p.sosConstraints + Soss(emitted)
              && q.objective == p.objective && q.objectiveType == p.objectiveType
              && q.genConstraints == p.genConstraints && q.orConstraints == p.orConstraints
              && r.value.next == n + NotEqualCount(p.constraints)
  {
    var rw :- RewriteAll(p.constraints, n);
    RemoveDeletedKeeps(p.constraints, Deleted(p.constraints));
    var kept := p.(constraints := RemoveAll(p.constraints, Deleted(p.constraints)));
    var q :- AddNormals(kept, AsNormal(Linears(rw.constraints)));
    var q' :- AddSoss(q, Soss(rw.constraints));
    Success(Lowered(q', rw.next))
  }

  /** Every normal constraint of the list passes through `substituteOperators`. */
  predicate AllPassThrough(cs: seq<NormalConstraint>) {
    forall i :: 0 <= i < |cs| ==> PassesThrough(cs[i])
  }

  /**
   * On a problem built by `add`, `substituteOperators` throws exactly when
   * a linear constraint holds a quadratic term. Otherwise every linear
   * constraint afterwards uses `<=`, `>=` or `=`, and the invariants
   * still hold.
   */
  lemma SubstituteOperatorsOutcome(p: Problem, n: nat)
    requires WellFormed(p)
    ensures SubstituteOperators(p, n).Failure? <==> SomeLinearQuadratic(p.constraints)
    ensures SubstituteOperators(p, n).Success? ==>
              var q := SubstituteOperators(p, n).value.problem;
              && AllPassThrough(q.constraints)
              && WellFormed(q) && (Registered(p) ==> Registered(q))
              && ConstraintCount(q)
                 == |Kept(p.constraints)| + |Linears(RewriteAll(p.constraints, n).value.constraints)|
  {
    if !SomeLinearQuadratic(p.constraints) {
      SubstituteOperatorsAccepts(p, n);
      SubstituteOperatorsKeeps(p, n);
      SubstituteOperatorsLowers(p, n);
    }
  }

  lemma SubstituteOperatorsAccepts(p: Problem, n: nat)
    requires WellFormed(p) && !SomeLinearQuadratic(p.constraints)
    ensures SubstituteOperators(p, n).Success?
  {
    var emitted := RewriteAll(p.constraints, n).value.constraints;
    RewriteAllShape(p.constraints, n);
    WellShapedLinearsNonEmpty(emitted);
    WellShapedSossShaped(emitted);
  }

  /** The constraints kept in place still satisfy the invariants they satisfied in `p`. */
  lemma KeptKeeps(p: Problem)
    requires WellFormed(p)
    ensures WellFormed(p.(constraints := Kept(p.constraints)))
    ensures Registered(p) ==> Registered(p.(constraints := Kept(p.constraints)))
  {
    var ks := Kept(p.constraints);
    forall i | 0 <= i < |ks| ensures exists j :: 0 <= j < |p.constraints| && p.constraints[j] == ks[i] {
      assert ks[i] in p.constraints;
    }
  }

  lemma SubstituteOperatorsKeeps(p: Problem, n: nat)
    requires WellFormed(p) && SubstituteOperators(p, n).Success?
    ensures WellFormed(SubstituteOperators(p, n).value.problem)
    ensures Registered(p) ==> Registered(SubstituteOperators(p, n).value.problem)
  {
    var emitted := RewriteAll(p.constraints, n).value.constraints;
    RemoveDeletedKeeps(p.constraints, Deleted(p.constraints));
    var kept := p.(constraints := Kept(p.constraints));
    KeptKeeps(p);
    var q := AddNormals(kept, AsNormal(Linears(emitted))).value;
    var q' := AddSoss(q, Soss(emitted)).value;
    assert SubstituteOperators(p, n).value.problem == q';
    if Registered(p) {
      AddNormalsKeeps(kept, AsNormal(Linears(emitted)));
      AddSossKeeps(q, Soss(emitted));
    } else {
      assert NormalsNonEmpty(q.constraints);
      assert SossShaped(q'.sosConstraints);
    }
  }

  lemma SubstituteOperatorsLowers(p: Problem, n: nat)
    requires SubstituteOperators(p, n).Success?
    ensures AllPassThrough(SubstituteOperators(p, n).value.problem.constraints)
  {
    var emitted := RewriteAll(p.constraints, n).value.constraints;
    RewriteAllShape(p.constraints, n);
    CanonicalPassThrough(emitted);
    PassThroughAppend(Kept(p.constraints), AsNormal(Linears(emitted)));
  }

  /** The linear members of rewrites that use only `<=`, `>=` and `=` pass through. */
  lemma CanonicalPassThrough(emitted: seq<Constraint>)
    requires OperatorRewrite.AllCanonical(emitted)
    ensures AllPassThrough(AsNormal(Linears(emitted)))
  {
    var added := AsNormal(Linears(emitted));
    LinearsFrom(emitted);
    forall i | 0 <= i < |added| ensures PassesThrough(added[i]) {
      assert Lin(Linears(emitted)[i]) in emitted;
    }
  }

  lemma PassThroughAppend(xs: seq<NormalConstraint>, ys: seq<NormalConstraint>)
    requires AllPassThrough(xs) && AllPassThrough(ys)
    ensures AllPassThrough(xs + ys)
  {
    assert forall i :: |xs| <= i < |xs + ys| ==> (xs + ys)[i] == ys[i - |xs|];
  }

  /**
   * A problem whose normal constraints all pass through is left exactly as
   * it was, and the counter is not advanced: the pass is idempotent.
   */
  lemma SubstituteOperatorsIdle(p: Problem, n: nat)
    requires AllPassThrough(p.constraints) && !SomeLinearQuadratic(p.constraints)
    ensures SubstituteOperators(p, n) == Success(Lowered(p, n))
  {
    var rw := RewriteAll(p.constraints, n).value;
    RewriteAllShape(p.constraints, n);
    NotEqualsNone(p.constraints);
    assert rw == OperatorRewrite.Rewrite([], n);
    RemoveDeletedKeeps(p.constraints, Deleted(p.constraints));
    assert p.(constraints := RemoveAll(p.constraints, Deleted(p.constraints))) == p;
    assert AsNormal(Linears([])) == [] && Soss([]) == [];
    assert AddNormals(p, []) == Success(p);
    assert AddSoss(p, []) == Success(p);
  }

  lemma {:induction false} NotEqualsNone(cs: seq<NormalConstraint>)
    requires AllPassThrough(cs)
    ensures NotEqualCount(cs) == 0
    decreases |cs|
  {
    if cs != [] {
      SplitHead(cs);
      NotEqualsNone(cs[1..]);
    }
  }

  // ---------------------------------------------------------------------------
  // substituteSOS1

  /** The number of constraints the SOS1 conversions emit: two per variable and one more each. */
  function SosEmitted(ss: seq<Sos1Constraint>): nat {
    if ss == [] then 0 else 2 * |ss[0].variables| + 1 + SosEmitted(ss[1..])
  }

  /** `convert` of every SOS1 constraint, one list after another. */
  function ConvertSoss(ss: seq<Sos1Constraint>): (r: seq<LinearConstraint>)
    ensures |r| == SosEmitted(ss)
  {
    if ss == [] then [] else Sos1Encoding.Convert(ss[0]).constraints + ConvertSoss(ss[1..])
  }

  predicate LhsNonEmpty(ls: seq<LinearConstraint>) {
    forall j :: 0 <= j < |ls| ==> ls[j].lhs != []
  }

  predicate AllVariablesGiven(ss: seq<Sos1Constraint>) {
    forall i :: 0 <= i < |ss| ==> ss[i].variables != []
  }

  /**
   * The conversions have non-empty left-hand sides exactly when every SOS1
   * constraint has variables.
   */
  lemma {:induction false} ConvertSossNonEmpty(ss: seq<Sos1Constraint>)
    ensures LhsNonEmpty(ConvertSoss(ss)) <==> AllVariablesGiven(ss)
    decreases |ss|
  {
    if ss != [] {
      SplitHead(ss);
      var head := Sos1Encoding.Convert(ss[0]).constraints;
      ConvertSossNonEmpty(ss[1..]);
      Sos1Encoding.ConvertWellShaped(ss[0]);
      LhsNonEmptyAppend(head, ConvertSoss(ss[1..]));
      if ss[0].variables == [] {
        assert head[0].lhs == [];
      }
      assert AllVariablesGiven(ss) <==> ss[0].variables != [] && AllVariablesGiven(ss[1..]);
    }
  }

  lemma LhsNonEmptyAppend(xs: seq<LinearConstraint>, ys: seq<LinearConstraint>)
    ensures LhsNonEmpty(xs + ys) <==> LhsNonEmpty(xs) && LhsNonEmpty(ys)
  {
    assert forall j :: 0 <= j < |xs| ==> (xs + ys)[j] == xs[j];
    assert forall j :: 0 <= j < |ys| ==> (xs + ys)[|xs| + j] == ys[j];
  }

  /** The conversions only ever use `<=` and `>=` over linear terms. */
  lemma {:induction false} ConvertSossCanonical(ss: seq<Sos1Constraint>)
    ensures forall j :: 0 <= j < |ConvertSoss(ss)| ==>
              IsCanonical(ConvertSoss(ss)[j].op) && AllLinear(ConvertSoss(ss)[j].lhs)
    decreases |ss|
  {
    if ss != [] {
      var head := Sos1Encoding.Convert(ss[0]).constraints;
      var rest := ConvertSoss(ss[1..]);
      ConvertSossCanonical(ss[1..]);
      Sos1Encoding.ConvertCanonical(ss[0]);
      assert forall j :: |head| <= j < |head + rest| ==> (head + rest)[j] == rest[j - |head|];
    }
  }

  lemma AsNormalNonEmpty(ls: seq<LinearConstraint>)
    ensures NormalsNonEmpty(AsNormal(ls)) <==> LhsNonEmpty(ls)
  {
    assert forall j :: 0 <= j < |ls| ==> Lhs(AsNormal(ls)[j]) == ls[j].lhs;
  }

  /**
   * `substituteSOS1`: the conversions of all SOS1 constraints are added as
   * normal constraints and the SOS1 list is cleared. An SOS1 constraint
   * without variables yields a constraint with no terms, which `add`
   * refuses.
   */
  function SubstituteSos1(p: Problem): (r: Result<Problem>)
    ensures r.Failure? <==> !AllVariablesGiven(p.sosConstraints)
    ensures r.Failure? ==> r.error == IllegalArgument(EmptyLhsMessage)
    ensures r.Success? ==>
              && r.value.sosConstraints == []
              && r.value.constraints == p.constraints + AsNormal(ConvertSoss(p.sosConstraints))
              && r.value.objective == p.objective && r.value.objectiveType == p.objectiveType
              && r.value.genConstraints == p.genConstraints && r.value.orConstraints == p.orConstraints
  {
    ConvertSossNonEmpty(p.sosConstraints);
    AsNormalNonEmpty(ConvertSoss(p.sosConstraints));
    var q :- AddNormals(p, AsNormal(ConvertSoss(p.sosConstraints)));
    Success(q.(sosConstraints := []))
  }

  /**
   * On a problem built by `add`, `substituteSOS1` always succeeds, keeps the
   * invariants, adds `2 * |variables| + 1` constraints per SOS1 constraint
   * and leaves constraints that passed through still passing through.
   */
  lemma SubstituteSos1Outcome(p: Problem)
    requires WellFormed(p)
    ensures SubstituteSos1(p).Success?
    ensures var q := SubstituteSos1(p).value;
            && SosConstraintCount(q) == 0
            && WellFormed(q) && (Registered(p) ==> Registered(q))
            && ConstraintCount(q) == ConstraintCount(p) + SosEmitted(p.sosConstraints)
            && (AllPassThrough(p.constraints) ==> AllPassThrough(q.constraints))
  {
    assert AllVariablesGiven(p.sosConstraints);
    SubstituteSos1Keeps(p);
    if AllPassThrough(p.constraints) {
      SubstituteSos1Lowers(p);
    }
  }

  lemma SubstituteSos1Keeps(p: Problem)
    requires WellFormed(p) && SubstituteSos1(p).Success?
    ensures WellFormed(SubstituteSos1(p).value)
    ensures Registered(p) ==> Registered(SubstituteSos1(p).value)
  {
    var added := AsNormal(ConvertSoss(p.sosConstraints));
    var q := AddNormals(p, added).value;
    assert SubstituteSos1(p).value == q.(sosConstraints := []);
    if Registered(p) {
      AddNormalsKeeps(p, added);
    } else {
      assert NormalsNonEmpty(q.constraints);
    }
  }

  lemma SubstituteSos1Lowers(p: Problem)
    requires SubstituteSos1(p).Success? && AllPassThrough(p.constraints)
    ensures AllPassThrough(SubstituteSos1(p).value.constraints)
  {
    ConvertSossCanonical(p.sosConstraints);
    AsNormalPassThrough(ConvertSoss(p.sosConstraints));
    PassThroughAppend(p.constraints, AsNormal(ConvertSoss(p.sosConstraints)));
  }

  lemma AsNormalPassThrough(ls: seq<LinearConstraint>)
    requires forall j :: 0 <= j < |ls| ==> IsCanonical(ls[j].op)
    ensures AllPassThrough(AsNormal(ls))
  {
    assert forall j :: 0 <= j < |ls| ==> AsNormal(ls)[j] == LinearNormal(ls[j]);
  }
}
