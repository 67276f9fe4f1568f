/**
 * Decision variables: BinaryVariable, IntegerVariable and RealVariable.
 * Integer and real variables remember whether each bound is still the type
 * default; a global bound override applies only to such bounds.
 */
module Variables {

  datatype VarType = Binary | Integer | Real

  const DefaultIntLower: int := -10000
  const DefaultIntUpper: int := 10000
  const DefaultRealLower: real := -10000.0
  const DefaultRealUpper: real := 10000.0

  /**
   * `name` is fixed at construction (no constructor changes it). A binary
   * variable stores its value as a boolean and has no default-bound flags.
   */
  datatype Variable =
    | BinaryVariable(name: string, bit: bool, lower: int, upper: int)
    | IntegerVariable(name: string, intValue: int, lower: int, upper: int,
                      defaultLower: bool, defaultUpper: bool)
    | RealVariable(name: string, realValue: real, realLower: real, realUpper: real,
                   defaultLower: bool, defaultUpper: bool)

  function NewBinary(name: string): (v: Variable)
    ensures v.BinaryVariable? && v.name == name
    ensures LowerBound(v) == 0.0 && UpperBound(v) == 1.0 && Value(v) == 0.0
  {
    BinaryVariable(name, false, 0, 1)
  }

  function NewInteger(name: string): (v: Variable)
    ensures v.IntegerVariable? && v.name == name && Value(v) == 0.0
    ensures v.lower == DefaultIntLower && v.upper == DefaultIntUpper
    ensures v.defaultLower && v.defaultUpper
  {
    IntegerVariable(name, 0, DefaultIntLower, DefaultIntUpper, true, true)
  }

  function NewReal(name: string): (v: Variable)
    ensures v.RealVariable? && v.name == name && Value(v) == 0.0
    ensures v.realLower == DefaultRealLower && v.realUpper == DefaultRealUpper
    ensures v.defaultLower && v.defaultUpper
  {
    RealVariable(name, 0.0, DefaultRealLower, DefaultRealUpper, true, true)
  }

  function Type(v: Variable): VarType {
    match v
    case BinaryVariable(_, _, _, _) => Binary
    case IntegerVariable(_, _, _, _, _, _) => Integer
    case RealVariable(_, _, _, _, _, _) => Real
  }

  /** `getValue`, widened to a real. A binary variable reads back as 0 or 1. */
  function Value(v: Variable): (r: real)
    ensures v.BinaryVariable? ==> r == 0.0 || r == 1.0
  {
    match v
    case BinaryVariable(_, b, _, _) => if b then 1.0 else 0.0
    case IntegerVariable(_, x, _, _, _, _) => x as real
    case RealVariable(_, x, _, _, _, _) => x
  }

  function LowerBound(v: Variable): real {
    if v.RealVariable? then v.realLower else v.lower as real
  }

  function UpperBound(v: Variable): real {
    if v.RealVariable? then v.realUpper else v.upper as real
  }

  /** Binary `setValue`: every nonzero argument is stored as 1. */
  function SetBinaryValue(v: Variable, x: int): (r: Variable)
    requires v.BinaryVariable?
    ensures r.BinaryVariable? && r.name == v.name
    ensures Value(r) == (if x == 0 then 0.0 else 1.0)
    ensures LowerBound(r) == LowerBound(v) && UpperBound(r) == UpperBound(v)
  {
    BinaryVariable(v.name, x != 0, v.lower, v.upper)
  }

  /** `setUpperBound` of a binary or integer variable. Only an integer variable tracks the flag. */
  function SetIntUpperBound(v: Variable, b: int): (r: Variable)
    requires !v.RealVariable?
    ensures Type(r) == Type(v) && r.name == v.name && Value(r) == Value(v)
    ensures UpperBound(r) == b as real && LowerBound(r) == LowerBound(v)
    ensures v.IntegerVariable? ==> !r.defaultUpper && r.defaultLower == v.defaultLower
  {
    match v
    case BinaryVariable(n, x, lo, _) => BinaryVariable(n, x, lo, b)
    case IntegerVariable(n, x, lo, _, dl, _) => IntegerVariable(n, x, lo, b, dl, false)
  }

  /** `setLowerBound` of a binary or integer variable. */
  function SetIntLowerBound(v: Variable, b: int): (r: Variable)
    requires !v.RealVariable?
    ensures Type(r) == Type(v) && r.name == v.name && Value(r) == Value(v)
    ensures LowerBound(r) == b as real && UpperBound(r) == UpperBound(v)
    ensures v.IntegerVariable? ==> !r.defaultLower && r.defaultUpper == v.defaultUpper
  {
    match v
    case BinaryVariable(n, x, _, up) => BinaryVariable(n, x, b, up)
    case IntegerVariable(n, x, _, up, _, du) => IntegerVariable(n, x, b, up, false, du)
  }

  /** `setUpperBound` of a real variable; it clears only the upper flag. */
  function SetRealUpperBound(v: Variable, b: real): (r: Variable)
    requires v.RealVariable?
    ensures r.RealVariable? && r.name == v.name && Value(r) == Value(v)
    ensures UpperBound(r) == b && LowerBound(r) == LowerBound(v)
    ensures !r.defaultUpper && r.defaultLower == v.defaultLower
  {
    RealVariable(v.name, v.realValue, v.realLower, b, v.defaultLower, false)
  }

  /** `setLowerBound` of a real variable; it clears only the lower flag. */
  function SetRealLowerBound(v: Variable, b: real): (r: Variable)
    requires v.RealVariable?
    ensures r.RealVariable? && r.name == v.name && Value(r) == Value(v)
    ensures LowerBound(r) == b && UpperBound(r) == UpperBound(v)
    ensures !r.defaultLower && r.defaultUpper == v.defaultUpper
  {
    RealVariable(v.name, v.realValue, b, v.realUpper, false, v.defaultUpper)
  }

  /** One call of a bound setter, with its argument. */
  datatype BoundUpdate = IntLower(i: int) | IntUpper(i: int) | RealLower(r: real) | RealUpper(r: real)

  predicate IsLowerUpdate(u: BoundUpdate) {
    u.IntLower? || u.RealLower?
  }

  /** Java's static typing: real variables take `Double` bounds, the others `Integer` bounds. */
  predicate Applicable(v: Variable, u: BoundUpdate) {
    if Type(v) == Real then u.RealLower? || u.RealUpper? else u.IntLower? || u.IntUpper?
  }

  function Apply(v: Variable, u: BoundUpdate): (r: Variable)
    requires Applicable(v, u)
    ensures Type(r) == Type(v) && r.name == v.name
  {
    match u
    case IntLower(b) => SetIntLowerBound(v, b)
    case IntUpper(b) => SetIntUpperBound(v, b)
    case RealLower(b) => SetRealLowerBound(v, b)
    case RealUpper(b) => SetRealUpperBound(v, b)
  }

  /** A sequence of setter calls, applied in order. */
  function ApplyAll(v: Variable, us: seq<BoundUpdate>): (r: Variable)
    requires forall i :: 0 <= i < |us| ==> Applicable(v, us[i])
    ensures Type(r) == Type(v) && r.name == v.name
  {
    if us == [] then v
    else
      var init := us[..|us| - 1];
      assert forall i :: 0 <= i < |init| ==> init[i] == us[i];
      var w := ApplyAll(v, init);
      assert Applicable(v, us[|us| - 1]);
      Apply(w, us[|us| - 1])
  }

  /**
   * A default-bound flag is still set after any sequence of setter calls
   * exactly when it was set before and no call touched that bound: once a
   * flag is false it never becomes true again.
   */
  lemma {:induction false} DefaultFlagsOnlyClear(v: Variable, us: seq<BoundUpdate>)
    requires !v.BinaryVariable?
    requires forall i :: 0 <= i < |us| ==> Applicable(v, us[i])
    ensures ApplyAll(v, us).defaultLower <==>
              v.defaultLower && forall i :: 0 <= i < |us| ==> !IsLowerUpdate(us[i])
    ensures ApplyAll(v, us).defaultUpper <==>
              v.defaultUpper && forall i :: 0 <= i < |us| ==> IsLowerUpdate(us[i])
  {
    if us != [] {
      var init := us[..|us| - 1];
      assert forall i :: 0 <= i < |init| ==> init[i] == us[i];
      DefaultFlagsOnlyClear(v, init);
    }
  }

  /** The setters never compare the two bounds: a lower bound above the upper one is stored as given. */
  lemma SettersDoNotCheckOrder()
    ensures var v := SetIntLowerBound(NewInteger("i"), 5);
            var w := SetIntUpperBound(v, 3);
            LowerBound(w) == 5.0 && UpperBound(w) == 3.0
    ensures var v := SetRealLowerBound(NewReal("r"), 2.5);
            LowerBound(SetRealUpperBound(v, -1.0)) > UpperBound(SetRealUpperBound(v, -1.0))
  {
  }
}
