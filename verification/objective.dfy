/**
 * `Objective`, the older twin of `Problem`: the same four constraint lists,
 * the same registry and the same `add`, `remove` and count code, so its
 * state is a `Problem`. Only `setObjective` differs: it refuses a missing
 * objective and one without terms instead of substituting an empty one.
 */
module Objectives {
  import opened Wrappers
  import opened Expressions
  import opened Registry
  import opened Problems

  const NoTermsMessage := "An Objective has to contain terms."

  /**
   * `Objective.setObjective(Function)`: a null objective throws on its first
   * dereference and an objective without terms is refused, before anything
   * is registered. Otherwise the variables of the top-level terms are
   * registered and the objective is set; the lists and the type stay.
   */
  function StrictSetObjective(p: Problem, f: Option<Function>): (r: Result<Problem>)
    ensures r.Failure? <==> f.None? || f.value.terms == []
    ensures f.None? ==> r.error == NullPointer
    ensures f.Some? && f.value.terms == [] ==> r.error == IllegalArgument(NoTermsMessage)
    ensures r.Success? ==> r.value.objective == f && r.value.objective.value.terms != []
    ensures r.Success? ==> TermsRegistered(f.value.terms, r.value.variables.Keys)
    ensures r.Success? ==> p.variables.Keys <= r.value.variables.Keys
    ensures r.Success? ==> r.value.(objective := p.objective, variables := p.variables) == p
  {
    if f.None? then Failure(NullPointer)
    else if f.value.terms == [] then Failure(IllegalArgument(NoTermsMessage))
    else Success(p.(variables := Register(p.variables, TermsVariables(f.value.terms)), objective := f))
  }

  /** `setObjective(Function, ObjectiveType)`: the type is set only once the objective was accepted. */
  function StrictSetObjectiveAndType(p: Problem, f: Option<Function>, t: ObjectiveType): (r: Result<Problem>)
    ensures r.Failure? <==> StrictSetObjective(p, f).Failure?
    ensures r.Failure? ==> r.error == StrictSetObjective(p, f).error
    ensures r.Success? ==> r.value.objectiveType == t
    ensures r.Success? ==> r.value.(objectiveType := p.objectiveType) == StrictSetObjective(p, f).value
  {
    var q :- StrictSetObjective(p, f);
    Success(q.(objectiveType := t))
  }

  /**
   * Where the strict `setObjective` accepts, it does what `Problem`'s does;
   * where `Problem`'s accepts a missing objective, the strict one refuses,
   * and an objective without terms that `Problem` takes is refused too.
   */
  lemma StrictAgreesWithProblem(p: Problem, f: Option<Function>)
    ensures StrictSetObjective(p, f).Success? ==> StrictSetObjective(p, f).value == SetObjective(p, f)
    ensures f.None? ==> StrictSetObjective(p, f).Failure? && SetObjective(p, f).objective.value.terms == []
  {
  }

  /** A successful strict `setObjective` keeps the registry invariant of `add`. */
  lemma StrictKeepsRegistered(p: Problem, f: Option<Function>)
    requires Registered(p) && WellFormed(p)
    ensures StrictSetObjective(p, f).Success? ==>
              Registered(StrictSetObjective(p, f).value) && WellFormed(StrictSetObjective(p, f).value)
  {
    if StrictSetObjective(p, f).Success? {
      RegisteredGrows(p, StrictSetObjective(p, f).value.variables);
    }
  }
}
