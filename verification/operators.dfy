/** The six comparison operators of normal constraints and their meaning over the reals. */
module Operators {

  datatype Operator = Less | LessOrEqual | Equal | GreaterOrEqual | Greater | NotEqual

  /** `Operator.toString`; `NotEqual` is the `default` branch of the Java switch. */
  function ToString(op: Operator): (s: string)
    ensures |s| == 1 || |s| == 2
    ensures (|s| == 1) <==> (op == Less || op == Greater)
  {
    match op
    case Less => "<"
    case LessOrEqual => "<="
    case Equal => "=="
    case GreaterOrEqual => ">="
    case Greater => ">"
    case NotEqual => "!="
  }

  /** The six renderings: `==` for equality, and `!=` from the `default` branch. */
  lemma OperatorRenderings()
    ensures ToString(Less) == "<" && ToString(LessOrEqual) == "<=" && ToString(Equal) == "=="
    ensures ToString(GreaterOrEqual) == ">=" && ToString(Greater) == ">" && ToString(NotEqual) == "!="
  {
  }

  /** No two operators render alike, so the rendering identifies the operator. */
  lemma ToStringInjective(a: Operator, b: Operator)
    ensures ToString(a) == ToString(b) ==> a == b
  {
    if ToString(a) == ToString(b) {
      assert ToString(a)[|ToString(a)| - 1] == ToString(b)[|ToString(b)| - 1];
      assert ToString(a)[0] == ToString(b)[0];
    }
  }

  /** The operators every solver back end accepts directly. */
  predicate IsCanonical(op: Operator) {
    op == LessOrEqual || op == GreaterOrEqual || op == Equal
  }

  /** `lhs op rhs` over exact reals. */
  predicate Holds(op: Operator, lhs: real, rhs: real) {
    match op
    case Less => lhs < rhs
    case LessOrEqual => lhs <= rhs
    case Equal => lhs == rhs
    case GreaterOrEqual => lhs >= rhs
    case Greater => lhs > rhs
    case NotEqual => lhs != rhs
  }

  predicate IsInequality(op: Operator) {
    op == Less || op == LessOrEqual || op == GreaterOrEqual || op == Greater
  }

  /**
   * For an inequality, the operator of its negation; used by the Or
   * encoding for the constraint that holds when the indicator is off.
   */
  function Negation(op: Operator): (r: Operator)
    requires IsInequality(op)
    ensures IsInequality(r)
    ensures forall x: real, y: real :: Holds(r, x, y) <==> !Holds(op, x, y)
  {
    match op
    case Less => GreaterOrEqual
    case LessOrEqual => Greater
    case GreaterOrEqual => Less
    case Greater => LessOrEqual
  }
}
