/**
 * `Problem`: an objective, four constraint lists and a registry of every
 * variable the objective and the constraints name. `add` validates a
 * constraint and registers its variables; `remove` drops the first equal
 * constraint; the counts are the list sizes.
 */
module Problems {
  import opened Wrappers
  import opened Variables
  import opened Operators
  import opened Expressions
  import opened Constraints
  import opened Registry
  import OrEncoding

  const EmptyLhsMessage := "The left-hand side of a Constraint must not be empty!"
  const EmptyGeneralMessage := "The variables of a General Constraint must not be empty!"
  const EmptySosMessage := "The variables of a SOS Constraint must not be empty!"
  const SosWeightsMessage := "Every variable in a SOS Constraint should be assigned with a weight!"
  const EmptyOrMessage := "The constraints of a Or Constraint must not be empty!"

  /** A quadratic constraint: it has no rewrite of its own and passes through every pass. */
  datatype QuadraticConstraint = QuadraticConstraint(lhs: seq<Term>, op: Operator, rhs: real)

  /** `NormalConstraint`: a linear or a quadratic constraint. */
  datatype NormalConstraint = LinearNormal(lin: LinearConstraint) | QuadraticNormal(quad: QuadraticConstraint)

  function Lhs(c: NormalConstraint): seq<Term> {
    match c
    case LinearNormal(l) => l.lhs
    case QuadraticNormal(q) => q.lhs
  }

  /** A general constraint (used by the Gurobi back end): its variables and its result variable. */
  datatype GeneralConstraint = GeneralConstraint(variables: seq<Variable>, result: Variable)

  datatype ObjectiveType = Min | Max

  /** `objective` is `None` until an objective is set (the Java field starts out null). */
  datatype Problem = Problem(objective: Option<Function>, objectiveType: ObjectiveType,
                             constraints: seq<NormalConstraint>,
                             genConstraints: seq<GeneralConstraint>,
                             sosConstraints: seq<Sos1Constraint>,
                             orConstraints: seq<OrEncoding.OrConstraint>,
                             variables: map<string, Variable>)

  /** `new Problem()`. */
  function NewProblem(): (p: Problem)
    ensures p.objective == None && p.objectiveType == Min
    ensures p.constraints == [] && p.genConstraints == [] && p.sosConstraints == [] && p.orConstraints == []
    ensures p.variables == map[]
  {
    Problem(None, Min, [], [], [], [], map[])
  }

  // ---------------------------------------------------------------------------
  // Counts

  function ConstraintCount(p: Problem): nat {
    |p.constraints|
  }

  function GenConstraintCount(p: Problem): nat {
    |p.genConstraints|
  }

  function SosConstraintCount(p: Problem): nat {
    |p.sosConstraints|
  }

  function OrConstraintCount(p: Problem): nat {
    |p.orConstraints|
  }

  /** `getTotalConstraintCount`: normal, general, SOS and Or constraints together. */
  function TotalConstraintCount(p: Problem): nat {
    ConstraintCount(p) + GenConstraintCount(p) + SosConstraintCount(p) + OrConstraintCount(p)
  }

  function VariableCount(p: Problem): nat {
    |p.variables|
  }

  // ---------------------------------------------------------------------------
  // add

  /**
   * `add(NormalConstraint)`: refuses an empty left-hand side; otherwise
   * registers `var1` of every term and `var2` of every quadratic term and
   * appends the constraint.
   */
  function AddNormal(p: Problem, c: NormalConstraint): (r: Result<Problem>)
    ensures r.Failure? <==> Lhs(c) == []
    ensures r.Failure? ==> r.error == IllegalArgument(EmptyLhsMessage)
    ensures r.Success? ==> r.value.constraints == p.constraints + [c]
    ensures r.Success? ==> r.value.variables == Register(p.variables, TermsVariables(Lhs(c)))
    ensures r.Success? ==> r.value.(constraints := p.constraints, variables := p.variables) == p
  {
    if Lhs(c) == [] then Failure(IllegalArgument(EmptyLhsMessage))
    else
      Success(p.(variables := Register(p.variables, TermsVariables(Lhs(c))),
                 constraints := p.constraints + [c]))
  }

  /**
   * `add(GeneralConstraint)`: refuses an empty variable list; otherwise
   * registers the variables, then the result variable.
   */
  function AddGeneral(p: Problem, g: GeneralConstraint): (r: Result<Problem>)
    ensures r.Failure? <==> g.variables == []
    ensures r.Failure? ==> r.error == IllegalArgument(EmptyGeneralMessage)
    ensures r.Success? ==> r.value.genConstraints == p.genConstraints + [g]
    ensures r.Success? ==> r.value.variables == Register(p.variables, g.variables + [g.result])
    ensures r.Success? ==> r.value.(genConstraints := p.genConstraints, variables := p.variables) == p
  {
    if g.variables == [] then Failure(IllegalArgument(EmptyGeneralMessage))
    else
      Success(p.(variables := Register(p.variables, g.variables + [g.result]),
                 genConstraints := p.genConstraints + [g]))
  }

  /**
   * `add(SOS1Constraint)`: refuses an empty variable list, then a list
   * whose length differs from the number of weights; otherwise registers
   * the variables.
   */
  function AddSos(p: Problem, s: Sos1Constraint): (r: Result<Problem>)
    ensures r.Failure? <==> !SosAccepted(s)
    ensures r.Failure? && s.variables == [] ==> r.error == IllegalArgument(EmptySosMessage)
    ensures r.Failure? && s.variables != [] ==> r.error == IllegalArgument(SosWeightsMessage)
    ensures r.Success? ==> r.value.sosConstraints == p.sosConstraints + [s]
    ensures r.Success? ==> r.value.variables == Register(p.variables, s.variables)
    ensures r.Success? ==> r.value.(sosConstraints := p.sosConstraints, variables := p.variables) == p
  {
    if s.variables == [] then Failure(IllegalArgument(EmptySosMessage))
    else if |s.variables| != |s.weights| then Failure(IllegalArgument(SosWeightsMessage))
    else
      Success(p.(variables := Register(p.variables, s.variables),
                 sosConstraints := p.sosConstraints + [s]))
  }

  /** `var1` of every term of every disjunct, disjunct by disjunct. */
  function DisjunctVariables(cs: seq<LinearConstraint>): (r: seq<Variable>)
    ensures forall i, j :: 0 <= i < |cs| && 0 <= j < |cs[i].lhs| ==> cs[i].lhs[j].var1.name in Names(r)
  {
    if cs == [] then []
    else
      var head := FirstVariables(cs[0].lhs);
      var rest := DisjunctVariables(cs[1..]);
      NamesAppend(head, rest);
      assert forall j :: 0 <= j < |head| ==> head[j].name in Names(head);
      assert forall i :: 1 <= i < |cs| ==> cs[1..][i - 1] == cs[i];
      head + rest
  }

  /**
   * `add(OrConstraint)`: refuses an empty list of disjuncts; otherwise
   * registers `var1` of every disjunct's terms (never a quadratic term's
   * `var2`, nor the result variable) and appends the constraint.
   */
  function AddOr(p: Problem, o: OrEncoding.OrConstraint): (r: Result<Problem>)
    ensures r.Failure? <==> o.constraints == []
    ensures r.Failure? ==> r.error == IllegalArgument(EmptyOrMessage)
    ensures r.Success? ==> r.value.orConstraints == p.orConstraints + [o]
    ensures r.Success? ==> r.value.variables == Register(p.variables, DisjunctVariables(o.constraints))
    ensures r.Success? ==> r.value.(orConstraints := p.orConstraints, variables := p.variables) == p
  {
    if o.constraints == [] then Failure(IllegalArgument(EmptyOrMessage))
    else
      Success(p.(variables := Register(p.variables, DisjunctVariables(o.constraints)),
                 orConstraints := p.orConstraints + [o]))
  }

  /** Each successful `add` raises its own count and the total by one and leaves the other counts alone. */
  lemma AddCounts(p: Problem, c: NormalConstraint, g: GeneralConstraint, s: Sos1Constraint, o: OrEncoding.OrConstraint)
    ensures AddNormal(p, c).Success? ==>
              var q := AddNormal(p, c).value;
              ConstraintCount(q) == ConstraintCount(p) + 1 && TotalConstraintCount(q) == TotalConstraintCount(p) + 1
    ensures AddGeneral(p, g).Success? ==>
              var q := AddGeneral(p, g).value;
              GenConstraintCount(q) == GenConstraintCount(p) + 1 && TotalConstraintCount(q) == TotalConstraintCount(p) + 1
    ensures AddSos(p, s).Success? ==>
              var q := AddSos(p, s).value;
              SosConstraintCount(q) == SosConstraintCount(p) + 1 && TotalConstraintCount(q) == TotalConstraintCount(p) + 1
    ensures AddOr(p, o).Success? ==>
              var q := AddOr(p, o).value;
              OrConstraintCount(q) == OrConstraintCount(p) + 1 && TotalConstraintCount(q) == TotalConstraintCount(p) + 1
  {
  }

  /**
   * After `add(NormalConstraint)` every variable of the constraint is
   * registered under its name, a name used twice maps to the later
   * variable, and every other entry is unchanged.
   */
  lemma AddNormalRegisters(p: Problem, c: NormalConstraint)
    requires Lhs(c) != []
    ensures var m := AddNormal(p, c).value.variables;
            var ts := Lhs(c);
            (forall i :: 0 <= i < |ts| ==> ts[i].var1.name in m)
            && (forall i :: 0 <= i < |ts| && ts[i].QuadraticTerm? ==> ts[i].var2.name in m)
            && (forall x :: x in m <==> x in p.variables || x in Names(TermsVariables(ts)))
            && (forall x :: x in p.variables && x !in Names(TermsVariables(ts)) ==> m[x] == p.variables[x])
  {
  }

  /** Registering a second variable under a name already used replaces the first. */
  lemma SameNameOverwrites(p: Problem, v: Variable, w: Variable, wt: real)
    requires v.name == w.name
    ensures var c := LinearNormal(LinearConstraint([LinearTerm(v, wt), LinearTerm(w, wt)], LessOrEqual, 0.0, DefaultEpsilon));
            AddNormal(p, c).value.variables[v.name] == w
  {
    var vs := TermsVariables([LinearTerm(v, wt), LinearTerm(w, wt)]);
    assert [LinearTerm(v, wt), LinearTerm(w, wt)][1..] == [LinearTerm(w, wt)];
    assert [LinearTerm(w, wt)][1..] == [];
    assert TermsVariables([LinearTerm(w, wt)]) == [w] + TermsVariables([]);
    assert vs == [v, w];
    assert LastOfName(vs, 1);
  }

  // ---------------------------------------------------------------------------
  // remove

  /** `remove(NormalConstraint)`: the registry keeps the constraint's variables. */
  function RemoveNormal(p: Problem, c: NormalConstraint): (r: (Problem, bool))
    ensures r.1 <==> c in p.constraints
    ensures r.0.constraints == RemoveFirst(p.constraints, c).0
    ensures r.0.(constraints := p.constraints) == p
  {
    var (rest, found) := RemoveFirst(p.constraints, c);
    (p.(constraints := rest), found)
  }

  function RemoveGeneral(p: Problem, g: GeneralConstraint): (r: (Problem, bool))
    ensures r.1 <==> g in p.genConstraints
    ensures r.0.genConstraints == RemoveFirst(p.genConstraints, g).0
    ensures r.0.(genConstraints := p.genConstraints) == p
  {
    var (rest, found) := RemoveFirst(p.genConstraints, g);
    (p.(genConstraints := rest), found)
  }

  function RemoveSos(p: Problem, s: Sos1Constraint): (r: (Problem, bool))
    ensures r.1 <==> s in p.sosConstraints
    ensures r.0.sosConstraints == RemoveFirst(p.sosConstraints, s).0
    ensures r.0.(sosConstraints := p.sosConstraints) == p
  {
    var (rest, found) := RemoveFirst(p.sosConstraints, s);
    (p.(sosConstraints := rest), found)
  }

  function RemoveOr(p: Problem, o: OrEncoding.OrConstraint): (r: (Problem, bool))
    ensures r.1 <==> o in p.orConstraints
    ensures r.0.orConstraints == RemoveFirst(p.orConstraints, o).0
    ensures r.0.(orConstraints := p.orConstraints) == p
  {
    var (rest, found) := RemoveFirst(p.orConstraints, o);
    (p.(orConstraints := rest), found)
  }

  /** A removal that finds its constraint lowers its count and the total by one; one that does not changes nothing. */
  lemma RemoveCounts(p: Problem, c: NormalConstraint, o: OrEncoding.OrConstraint)
    ensures var (q, found) := RemoveNormal(p, c);
            (found ==> ConstraintCount(q) == ConstraintCount(p) - 1 && TotalConstraintCount(q) == TotalConstraintCount(p) - 1)
            && (!found ==> q == p)
            && VariableCount(q) == VariableCount(p)
    ensures var (q, found) := RemoveOr(p, o);
            (found ==> OrConstraintCount(q) == OrConstraintCount(p) - 1 && TotalConstraintCount(q) == TotalConstraintCount(p) - 1)
            && (!found ==> q == p)
  {
  }

  /** Adding a normal constraint and removing it again gives back the constraint list, but not the registry. */
  lemma AddThenRemove(p: Problem, c: NormalConstraint)
    requires Lhs(c) != [] && c !in p.constraints
    ensures var q := RemoveNormal(AddNormal(p, c).value, c);
            q.1 && q.0.constraints == p.constraints
            && q.0.variables == Register(p.variables, TermsVariables(Lhs(c)))
  {
    var xs := p.constraints + [c];
    assert xs[..|p.constraints|] == p.constraints;
    assert FirstIndex(xs, c) == |p.constraints|;
  }

  // ---------------------------------------------------------------------------
  // The objective

  /**
   * `setObjective(Function)`: a null objective is replaced by an empty
   * linear function; the variables of the top-level terms are registered,
   * those of nested functions are not.
   */
  function SetObjective(p: Problem, f: Option<Function>): (r: Problem)
    ensures f.None? ==> r.objective == Some(NewLinearFunction()) && r.variables == p.variables
    ensures f.Some? ==> r.objective == f && r.variables == Register(p.variables, TermsVariables(f.value.terms))
    ensures r.(objective := p.objective, variables := p.variables) == p
  {
    var g := if f.None? then NewLinearFunction() else f.value;
    p.(variables := Register(p.variables, TermsVariables(g.terms)), objective := Some(g))
  }

  /** `setObjective(Function, ObjectiveType)`: the one-argument form, and then the type. */
  function SetObjectiveAndType(p: Problem, f: Option<Function>, t: ObjectiveType): (r: Problem)
    ensures r.objectiveType == t
    ensures r.objective == SetObjective(p, f).objective && r.variables == SetObjective(p, f).variables
    ensures r.(objective := p.objective, variables := p.variables, objectiveType := p.objectiveType) == p
  {
    SetObjective(p, f).(objectiveType := t)
  }

  /** `setObjective()`: reads the current objective's terms first, so it throws while none is set. */
  function ResetObjective(p: Problem): (r: Result<Problem>)
    ensures r.Failure? <==> p.objective.None?
    ensures r.Failure? ==> r.error == NullPointer
    ensures r.Success? ==> r.value == p.(objective := Some(NewLinearFunction()))
  {
    if p.objective.None? then Failure(NullPointer)
    else Success(p.(objective := Some(NewLinearFunction())))
  }

  /**
   * A variable that occurs only inside a nested function of the objective
   * is not registered by `setObjective`.
   */
  lemma NestedNotRegistered(p: Problem, f: Function, x: string)
    requires x !in p.variables
    requires forall i :: 0 <= i < |f.terms| ==>
               f.terms[i].var1.name != x && (f.terms[i].QuadraticTerm? ==> f.terms[i].var2.name != x)
    ensures x !in SetObjective(p, Some(f)).variables
  {
  }

  // ---------------------------------------------------------------------------
  // Invariants that `add` establishes

  predicate NormalsNonEmpty(cs: seq<NormalConstraint>) {
    forall i :: 0 <= i < |cs| ==> Lhs(cs[i]) != []
  }

  /** A general constraint `add` accepts: it names at least one variable. */
  predicate GeneralAccepted(g: GeneralConstraint) {
    g.variables != []
  }

  predicate GeneralsNonEmpty(gs: seq<GeneralConstraint>) {
    forall i :: 0 <= i < |gs| ==> GeneralAccepted(gs[i])
  }

  /** An SOS1 constraint `add` accepts: variables, and one weight per variable. */
  predicate SosAccepted(s: Sos1Constraint) {
    s.variables != [] && |s.variables| == |s.weights|
  }

  predicate SossShaped(ss: seq<Sos1Constraint>) {
    forall i :: 0 <= i < |ss| ==> SosAccepted(ss[i])
  }

  /** An Or constraint `add` accepts: it has at least one disjunct. */
  predicate OrAccepted(o: OrEncoding.OrConstraint) {
    o.constraints != []
  }

  predicate OrsNonEmpty(os: seq<OrEncoding.OrConstraint>) {
    forall i :: 0 <= i < |os| ==> OrAccepted(os[i])
  }

  /** What the four `add` overloads demand of the constraints they accept. */
  predicate WellFormed(p: Problem) {
    NormalsNonEmpty(p.constraints) && GeneralsNonEmpty(p.genConstraints)
    && SossShaped(p.sosConstraints) && OrsNonEmpty(p.orConstraints)
  }

  /** Every variable the terms name is a key of the registry. */
  predicate TermsRegistered(ts: seq<Term>, m: set<string>) {
    forall j :: 0 <= j < |ts| ==>
      ts[j].var1.name in m && (ts[j].QuadraticTerm? ==> ts[j].var2.name in m)
  }

  predicate NormalRegistered(c: NormalConstraint, m: set<string>) {
    TermsRegistered(Lhs(c), m)
  }

  predicate VariablesRegistered(vs: seq<Variable>, m: set<string>) {
    forall j :: 0 <= j < |vs| ==> vs[j].name in m
  }

  predicate DisjunctsRegistered(cs: seq<LinearConstraint>, m: set<string>) {
    forall i, j :: 0 <= i < |cs| && 0 <= j < |cs[i].lhs| ==> cs[i].lhs[j].var1.name in m
  }

  predicate NormalsRegistered(cs: seq<NormalConstraint>, m: set<string>) {
    forall i :: 0 <= i < |cs| ==> NormalRegistered(cs[i], m)
  }

  predicate GeneralsRegistered(gs: seq<GeneralConstraint>, m: set<string>) {
    forall i :: 0 <= i < |gs| ==> VariablesRegistered(gs[i].variables, m) && gs[i].result.name in m
  }

  predicate SossRegistered(ss: seq<Sos1Constraint>, m: set<string>) {
    forall i :: 0 <= i < |ss| ==> VariablesRegistered(ss[i].variables, m)
  }

  predicate OrsRegistered(os: seq<OrEncoding.OrConstraint>, m: set<string>) {
    forall i :: 0 <= i < |os| ==> DisjunctsRegistered(os[i].constraints, m)
  }

  /**
   * The registry names every variable `add` registers: both variables of
   * every normal constraint's terms, the variables and result of every
   * general constraint, the variables of every SOS1 constraint and `var1`
   * of every Or disjunct's terms.
   */
  predicate Registered(p: Problem) {
    var m := p.variables.Keys;
    NormalsRegistered(p.constraints, m) && GeneralsRegistered(p.genConstraints, m)
    && SossRegistered(p.sosConstraints, m) && OrsRegistered(p.orConstraints, m)
  }

  /** Registration only ever adds names, so whatever was registered stays registered. */
  lemma RegisteredGrows(p: Problem, m: map<string, Variable>)
    requires Registered(p) && p.variables.Keys <= m.Keys
    ensures Registered(p.(variables := m))
  {
  }

  /** Every `add` that succeeds keeps both invariants. */
  lemma AddKeepsInvariants(p: Problem, c: NormalConstraint, g: GeneralConstraint, s: Sos1Constraint, o: OrEncoding.OrConstraint)
    requires WellFormed(p) && Registered(p)
    ensures AddNormal(p, c).Success? ==> WellFormed(AddNormal(p, c).value) && Registered(AddNormal(p, c).value)
    ensures AddGeneral(p, g).Success? ==> WellFormed(AddGeneral(p, g).value) && Registered(AddGeneral(p, g).value)
    ensures AddSos(p, s).Success? ==> WellFormed(AddSos(p, s).value) && Registered(AddSos(p, s).value)
    ensures AddOr(p, o).Success? ==> WellFormed(AddOr(p, o).value) && Registered(AddOr(p, o).value)
  {
    if AddNormal(p, c).Success? {
      AddNormalKeeps(p, c);
    }
    if AddGeneral(p, g).Success? {
      AddGeneralKeeps(p, g);
    }
    if AddSos(p, s).Success? {
      AddSosKeeps(p, s);
    }
    if AddOr(p, o).Success? {
      AddOrKeeps(p, o);
    }
  }

  lemma AddNormalKeeps(p: Problem, c: NormalConstraint)
    requires WellFormed(p) && Registered(p) && Lhs(c) != []
    ensures WellFormed(AddNormal(p, c).value) && Registered(AddNormal(p, c).value)
  {
    var q := AddNormal(p, c).value;
    var m := q.variables.Keys;
    RegisteredGrows(p, q.variables);
    assert NormalRegistered(c, m);
    assert q.constraints == p.constraints + [c];
    assert NormalsRegistered(q.constraints, m) by {
      forall i | 0 <= i < |q.constraints| ensures NormalRegistered(q.constraints[i], m) {
        if i < |p.constraints| {
          assert q.constraints[i] == p.constraints[i];
        }
      }
    }
  }

  lemma AddGeneralKeeps(p: Problem, g: GeneralConstraint)
    requires WellFormed(p) && Registered(p) && g.variables != []
    ensures WellFormed(AddGeneral(p, g).value) && Registered(AddGeneral(p, g).value)
  {
    var q := AddGeneral(p, g).value;
    var m := q.variables.Keys;
    RegisteredGrows(p, q.variables);
    NamesAppend(g.variables, [g.result]);
    assert [g.result][0].name in Names([g.result]);
    assert forall j :: 0 <= j < |g.variables| ==> g.variables[j].name in Names(g.variables);
    assert GeneralsRegistered(q.genConstraints, m) by {
      forall i | 0 <= i < |q.genConstraints|
        ensures VariablesRegistered(q.genConstraints[i].variables, m) && q.genConstraints[i].result.name in m
      {
        if i < |p.genConstraints| {
          assert q.genConstraints[i] == p.genConstraints[i];
        }
      }
    }
  }

  lemma AddSosKeeps(p: Problem, s: Sos1Constraint)
    requires WellFormed(p) && Registered(p) && SosAccepted(s)
    ensures WellFormed(AddSos(p, s).value) && Registered(AddSos(p, s).value)
  {
    var q := AddSos(p, s).value;
    var m := q.variables.Keys;
    RegisteredGrows(p, q.variables);
    assert forall j :: 0 <= j < |s.variables| ==> s.variables[j].name in Names(s.variables);
    assert SossRegistered(q.sosConstraints, m) by {
      forall i | 0 <= i < |q.sosConstraints| ensures VariablesRegistered(q.sosConstraints[i].variables, m) {
        if i < |p.sosConstraints| {
          assert q.sosConstraints[i] == p.sosConstraints[i];
        }
      }
    }
  }

  lemma AddOrKeeps(p: Problem, o: OrEncoding.OrConstraint)
    requires WellFormed(p) && Registered(p) && o.constraints != []
    ensures WellFormed(AddOr(p, o).value) && Registered(AddOr(p, o).value)
  {
    var q := AddOr(p, o).value;
    var m := q.variables.Keys;
    RegisteredGrows(p, q.variables);
    assert OrsRegistered(q.orConstraints, m) by {
      forall i | 0 <= i < |q.orConstraints| ensures DisjunctsRegistered(q.orConstraints[i].constraints, m) {
        if i < |p.orConstraints| {
          assert q.orConstraints[i] == p.orConstraints[i];
        }
      }
    }
  }

  /** A new problem has both invariants. */
  lemma NewProblemInvariants()
    ensures WellFormed(NewProblem()) && Registered(NewProblem())
  {
  }
}
