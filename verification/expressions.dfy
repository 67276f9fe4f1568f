/**
 * Terms, constants and (possibly nested) functions, their value under an
 * assignment of reals to variable names, and `expand`, which multiplies
 * nested functions out into one flat function.
 */
module Expressions {
  import opened Wrappers
  import opened Variables

  /** `LinearTerm` (weight * var1) and `QuadraticTerm` (weight * var1 * var2). */
  datatype Term =
    | LinearTerm(var1: Variable, weight: real)
    | QuadraticTerm(var1: Variable, var2: Variable, weight: real)

  datatype Constant = Constant(weight: real)

  /** The Java class of a function: `LinearFunction` or `QuadraticFunction`. */
  datatype Shape = LinearShape | QuadraticShape

  /** A function is Sum(terms) + Sum(constants) + Sum(weight * nested function). */
  datatype Function = Function(shape: Shape, terms: seq<Term>, constants: seq<Constant>,
                               nested: seq<WeightedFunction>)

  datatype WeightedFunction = WeightedFunction(func: Function, weight: real)

  /** Values of the variables, looked up by name. */
  type Assignment = string -> real

  // ---------------------------------------------------------------------------
  // Value semantics

  function TermValue(t: Term, a: Assignment): real {
    match t
    case LinearTerm(v, w) => w * a(v.name)
    case QuadraticTerm(v1, v2, w) => w * a(v1.name) * a(v2.name)
  }

  function TermsValue(ts: seq<Term>, a: Assignment): real {
    if ts == [] then 0.0 else TermValue(ts[0], a) + TermsValue(ts[1..], a)
  }

  function ConstantsValue(cs: seq<Constant>): real {
    if cs == [] then 0.0 else cs[0].weight + ConstantsValue(cs[1..])
  }

  function Value(f: Function, a: Assignment): real
    decreases f, 1, 0
  {
    TermsValue(f.terms, a) + ConstantsValue(f.constants) + NestedValue(f, 0, a)
  }

  /** The weighted values of the nested functions `f.nested[i..]`. */
  function NestedValue(f: Function, i: nat, a: Assignment): real
    requires i <= |f.nested|
    decreases f, 0, |f.nested| - i
  {
    if i == |f.nested| then 0.0
    else Times(f.nested[i].weight, Value(f.nested[i].func, a)) + NestedValue(f, i + 1, a)
  }

  /** Real multiplication, named so that equal arguments give equal products. */
  function Times(w: real, x: real): real {
    w * x
  }

  lemma {:induction false} TermsValueAppend(xs: seq<Term>, ys: seq<Term>, a: Assignment)
    ensures TermsValue(xs + ys, a) == TermsValue(xs, a) + TermsValue(ys, a)
    decreases |xs|
  {
    if xs == [] {
      assert xs + ys == ys;
    } else {
      assert (xs + ys)[1..] == xs[1..] + ys;
      TermsValueAppend(xs[1..], ys, a);
    }
  }

  lemma {:induction false} ConstantsValueAppend(xs: seq<Constant>, ys: seq<Constant>)
    ensures ConstantsValue(xs + ys) == ConstantsValue(xs) + ConstantsValue(ys)
    decreases |xs|
  {
    if xs == [] {
      assert xs + ys == ys;
    } else {
      assert (xs + ys)[1..] == xs[1..] + ys;
      ConstantsValueAppend(xs[1..], ys);
    }
  }

  // ---------------------------------------------------------------------------
  // Construction

  /** `new LinearFunction()`. */
  function NewLinearFunction(): Function {
    Function(LinearShape, [], [], [])
  }

  /** `new QuadraticFunction()`. */
  function NewQuadraticFunction(): Function {
    Function(QuadraticShape, [], [], [])
  }

  /** `addTerm(Term)`: appends the term as given; there is no shape check. */
  function AddTerm(f: Function, t: Term): (r: Function)
    ensures r.shape == f.shape && r.constants == f.constants && r.nested == f.nested
    ensures r.terms == f.terms + [t]
    ensures forall a :: Value(r, a) == Value(f, a) + TermValue(t, a)
  {
    var r := f.(terms := f.terms + [t]);
    forall a ensures Value(r, a) == Value(f, a) + TermValue(t, a) {
      NestedValueSameNested(r, f, 0, a);
      TermsValueAppend(f.terms, [t], a);
      assert TermsValue([t], a) == TermValue(t, a) + TermsValue([], a);
    }
    r
  }

  /** `addTerm(var, weight)`: a linear term. */
  function AddLinearTerm(f: Function, v: Variable, w: real): (r: Function)
    ensures r == AddTerm(f, LinearTerm(v, w))
    ensures forall a :: Value(r, a) == Value(f, a) + w * a(v.name)
  {
    AddTerm(f, LinearTerm(v, w))
  }

  /** `QuadraticFunction.addTerm(var1, var2, weight)`. */
  function AddQuadraticTerm(f: Function, v1: Variable, v2: Variable, w: real): (r: Function)
    requires f.shape == QuadraticShape
    ensures r == AddTerm(f, QuadraticTerm(v1, v2, w))
    ensures forall a :: Value(r, a) == Value(f, a) + w * a(v1.name) * a(v2.name)
  {
    AddTerm(f, QuadraticTerm(v1, v2, w))
  }

  /** `addConstant(weight)`: touches only the constant list. */
  function AddConstant(f: Function, w: real): (r: Function)
    ensures r.shape == f.shape && r.terms == f.terms && r.nested == f.nested
    ensures r.constants == f.constants + [Constant(w)]
    ensures forall a :: Value(r, a) == Value(f, a) + w
  {
    assert ConstantsValue([Constant(w)]) == w;
    AddConstants(f, [Constant(w)])
  }

  /** `addConstants(list)`: appends all given constants, in order. */
  function AddConstants(f: Function, cs: seq<Constant>): (r: Function)
    ensures r.shape == f.shape && r.terms == f.terms && r.nested == f.nested
    ensures r.constants == f.constants + cs
    ensures forall a :: Value(r, a) == Value(f, a) + ConstantsValue(cs)
  {
    var r := f.(constants := f.constants + cs);
    assert forall a :: NestedValue(r, 0, a) == NestedValue(f, 0, a) by {
      forall a { NestedValueSameNested(r, f, 0, a); }
    }
    ConstantsValueAppend(f.constants, cs);
    r
  }

  /**
   * `addNestedFunction(func, weight)`. A linear function refuses a quadratic
   * nested function; otherwise only the nested list grows.
   */
  function AddNestedFunction(f: Function, g: Function, w: real): (r: Result<Function>)
    ensures r.Failure? <==> f.shape == LinearShape && g.shape == QuadraticShape
    ensures r.Failure? ==> r.error.IllegalArgument?
    ensures r.Success? ==> r.value.shape == f.shape && r.value.terms == f.terms
                           && r.value.constants == f.constants
                           && r.value.nested == f.nested + [WeightedFunction(g, w)]
    ensures r.Success? ==> forall a :: Value(r.value, a) == Value(f, a) + Times(w, Value(g, a))
  {
    if f.shape == LinearShape && g.shape == QuadraticShape then
      Failure(IllegalArgument("A linear function must not contain a quadratic nested function."))
    else
      var h := f.(nested := f.nested + [WeightedFunction(g, w)]);
      assert forall a :: NestedValue(h, 0, a) == NestedValue(f, 0, a) + Times(w, Value(g, a)) by {
        forall a { NestedValueAppend(f, h, WeightedFunction(g, w), 0, a); }
      }
      Success(h)
  }

  lemma {:induction false} NestedValueSameNested(f: Function, g: Function, i: nat, a: Assignment)
    requires f.nested == g.nested && i <= |f.nested|
    ensures NestedValue(f, i, a) == NestedValue(g, i, a)
    decreases |f.nested| - i
  {
    if i < |f.nested| {
      NestedValueSameNested(f, g, i + 1, a);
    }
  }

  lemma {:induction false} NestedValueAppend(f: Function, h: Function, x: WeightedFunction, i: nat, a: Assignment)
    requires h.nested == f.nested + [x] && i <= |f.nested|
    ensures NestedValue(h, i, a) == NestedValue(f, i, a) + Times(x.weight, Value(x.func, a))
    decreases |f.nested| - i
  {
    if i < |f.nested| {
      assert h.nested[i] == f.nested[i];
      NestedValueAppend(f, h, x, i + 1, a);
    } else {
      assert h.nested[i] == x;
      assert NestedValue(h, i + 1, a) == 0.0;
    }
  }

  // ---------------------------------------------------------------------------
  // Expansion

  function ScaleTerm(t: Term, w: real): (r: Term)
    ensures r.LinearTerm? == t.LinearTerm? && r.var1 == t.var1 && r.weight == t.weight * w
    ensures r.QuadraticTerm? ==> r.var2 == t.var2
  {
    match t
    case LinearTerm(v, x) => LinearTerm(v, x * w)
    case QuadraticTerm(v1, v2, x) => QuadraticTerm(v1, v2, x * w)
  }

  function ScaleTerms(ts: seq<Term>, w: real): (r: seq<Term>)
    ensures |r| == |ts|
  {
    if ts == [] then [] else [ScaleTerm(ts[0], w)] + ScaleTerms(ts[1..], w)
  }

  function ScaleConstants(cs: seq<Constant>, w: real): (r: seq<Constant>)
    ensures |r| == |cs|
  {
    if cs == [] then [] else [Constant(cs[0].weight * w)] + ScaleConstants(cs[1..], w)
  }

  lemma {:induction false} ScaleTermsAt(ts: seq<Term>, w: real, i: nat)
    requires i < |ts|
    ensures ScaleTerms(ts, w)[i] == ScaleTerm(ts[i], w)
    decreases i
  {
    if i > 0 {
      ScaleTermsAt(ts[1..], w, i - 1);
    }
  }

  lemma {:induction false} ScaleConstantsAt(cs: seq<Constant>, w: real, i: nat)
    requires i < |cs|
    ensures ScaleConstants(cs, w)[i] == Constant(cs[i].weight * w)
    decreases i
  {
    if i > 0 {
      ScaleConstantsAt(cs[1..], w, i - 1);
    }
  }

  lemma TermValueScale(t: Term, w: real, a: Assignment)
    ensures TermValue(ScaleTerm(t, w), a) == Times(w, TermValue(t, a))
  {
    match t
    case LinearTerm(v, x) =>
      assert (x * w) * a(v.name) == w * (x * a(v.name));
    case QuadraticTerm(v1, v2, x) =>
      assert (x * w) * a(v1.name) * a(v2.name) == w * (x * a(v1.name) * a(v2.name));
  }

  lemma {:induction false} TermsValueScale(ts: seq<Term>, w: real, a: Assignment)
    ensures TermsValue(ScaleTerms(ts, w), a) == Times(w, TermsValue(ts, a))
    decreases |ts|
  {
    if ts != [] {
      var r := ScaleTerms(ts, w);
      TermsValueScale(ts[1..], w, a);
      assert r[1..] == ScaleTerms(ts[1..], w);
      TermValueScale(ts[0], w, a);
      ScaleSum(w, TermsValue(ts, a), TermValue(ts[0], a), TermsValue(ts[1..], a));
      assert TermsValue(r, a) == TermValue(r[0], a) + TermsValue(r[1..], a);
    }
  }

  lemma {:induction false} ConstantsValueScale(cs: seq<Constant>, w: real)
    ensures ConstantsValue(ScaleConstants(cs, w)) == Times(w, ConstantsValue(cs))
    decreases |cs|
  {
    if cs != [] {
      var r := ScaleConstants(cs, w);
      ConstantsValueScale(cs[1..], w);
      assert r[1..] == ScaleConstants(cs[1..], w);
      ScaleSum(w, ConstantsValue(cs), cs[0].weight, ConstantsValue(cs[1..]));
      assert ConstantsValue(r) == r[0].weight + ConstantsValue(r[1..]);
    }
  }

  /** Multiplication distributes over a sum known by its value. */
  lemma ScaleSum(w: real, z: real, x: real, y: real)
    requires z == x + y
    ensures Times(w, z) == Times(w, x) + Times(w, y)
  {
  }

  /**
   * `QuadraticFunction.expand`. A function without nested functions is
   * returned as it is. Otherwise the result keeps the receiver's own terms
   * and constants first and unscaled, then, nested function by nested
   * function, the expanded function's constants times the nesting weight
   * and its terms with weight times the nesting weight; it has no nested
   * functions left.
   */
  function Expand(f: Function): (r: Function)
    ensures r.nested == [] && r.shape == f.shape
    ensures f.nested == [] ==> r == f
    ensures |r.terms| >= |f.terms| && r.terms[..|f.terms|] == f.terms
    ensures |r.constants| >= |f.constants| && r.constants[..|f.constants|] == f.constants
    decreases f, 1, 0
  {
    if f.nested == [] then f
    else Function(f.shape, f.terms + NestedTerms(f, 0), f.constants + NestedConstants(f, 0), [])
  }

  /** The scaled terms contributed by `f.nested[i..]`. */
  function NestedTerms(f: Function, i: nat): seq<Term>
    requires i <= |f.nested|
    decreases f, 0, |f.nested| - i
  {
    if i == |f.nested| then []
    else ScaleTerms(Expand(f.nested[i].func).terms, f.nested[i].weight) + NestedTerms(f, i + 1)
  }

  /** The scaled constants contributed by `f.nested[i..]`. */
  function NestedConstants(f: Function, i: nat): seq<Constant>
    requires i <= |f.nested|
    decreases f, 0, |f.nested| - i
  {
    if i == |f.nested| then []
    else ScaleConstants(Expand(f.nested[i].func).constants, f.nested[i].weight) + NestedConstants(f, i + 1)
  }

  /** Expansion does not change the value of a function under any assignment. */
  lemma {:induction false} ExpandPreservesValue(f: Function, a: Assignment)
    ensures Value(Expand(f), a) == Value(f, a)
    decreases f, 1, 0, 0
  {
    if f.nested != [] {
      var e := Expand(f);
      NestedExpansionValue(f, 0, a);
      TermsValueAppend(f.terms, NestedTerms(f, 0), a);
      ConstantsValueAppend(f.constants, NestedConstants(f, 0));
      assert NestedValue(e, 0, a) == 0.0;
    }
  }

  lemma {:induction false} NestedExpansionValue(f: Function, i: nat, a: Assignment)
    requires i <= |f.nested|
    ensures TermsValue(NestedTerms(f, i), a) + ConstantsValue(NestedConstants(f, i)) == NestedValue(f, i, a)
    decreases f, 0, |f.nested| - i, 2
  {
    if i < |f.nested| {
      NestedExpansionStep(f, i, a);
    }
  }

  lemma {:induction false} NestedExpansionStep(f: Function, i: nat, a: Assignment)
    requires i < |f.nested|
    ensures TermsValue(NestedTerms(f, i), a) + ConstantsValue(NestedConstants(f, i)) == NestedValue(f, i, a)
    decreases f, 0, |f.nested| - i, 1
  {
    NestedStep(f, i, a);
    NestedExpansionValue(f, i + 1, a);
    NestedValueUnfold(f, i, a);
  }

  lemma NestedValueUnfold(f: Function, i: nat, a: Assignment)
    requires i < |f.nested|
    ensures NestedValue(f, i, a) == Times(f.nested[i].weight, Value(f.nested[i].func, a)) + NestedValue(f, i + 1, a)
  {
  }

  /** One nested function's share of the expanded lists. */
  lemma NestedStep(f: Function, i: nat, a: Assignment)
    requires i < |f.nested|
    ensures TermsValue(NestedTerms(f, i), a) + ConstantsValue(NestedConstants(f, i))
            == Times(f.nested[i].weight, Value(f.nested[i].func, a))
               + (TermsValue(NestedTerms(f, i + 1), a) + ConstantsValue(NestedConstants(f, i + 1)))
    decreases f, 0, |f.nested| - i, 0
  {
    TermsValueAppend(ScaleTerms(Expand(f.nested[i].func).terms, f.nested[i].weight), NestedTerms(f, i + 1), a);
    ConstantsValueAppend(ScaleConstants(Expand(f.nested[i].func).constants, f.nested[i].weight), NestedConstants(f, i + 1));
    ScaledExpansionValue(f.nested[i].func, f.nested[i].weight, a);
  }

  /** The scaled lists that `g` contributes when nested with weight `w` add up to `w` times its value. */
  lemma {:induction false} ScaledExpansionValue(g: Function, w: real, a: Assignment)
    ensures TermsValue(ScaleTerms(Expand(g).terms, w), a) + ConstantsValue(ScaleConstants(Expand(g).constants, w))
            == Times(w, Value(g, a))
    decreases g, 2, 0, 0
  {
    var e := Expand(g);
    FlatValue(e, a);
    ExpandPreservesValue(g, a);
    TermsValueScale(e.terms, w, a);
    ConstantsValueScale(e.constants, w);
    ScaleSum(w, Value(g, a), TermsValue(e.terms, a), ConstantsValue(e.constants));
  }

  /** A function without nested functions is worth its terms plus its constants. */
  lemma FlatValue(e: Function, a: Assignment)
    requires e.nested == []
    ensures Value(e, a) == TermsValue(e.terms, a) + ConstantsValue(e.constants)
  {
  }

  /** The result of `expand` has no nested functions, so expanding it again returns it unchanged. */
  lemma ExpandIdempotent(f: Function)
    ensures Expand(Expand(f)) == Expand(f)
  {
  }

  /**
   * One level of nesting over a flat function: linear terms stay linear,
   * quadratic terms keep both variables, and every weight and constant of
   * the nested function is multiplied by the nesting weight.
   */
  lemma ExpandOneLevel(f: Function, g: Function, w: real)
    requires f.nested == [WeightedFunction(g, w)] && g.nested == []
    ensures |Expand(f).terms| == |f.terms| + |g.terms|
    ensures |Expand(f).constants| == |f.constants| + |g.constants|
    ensures forall i :: 0 <= i < |g.terms| ==>
              var t := Expand(f).terms[|f.terms| + i];
              t.LinearTerm? == g.terms[i].LinearTerm? && t.var1 == g.terms[i].var1
              && t.weight == g.terms[i].weight * w
              && (t.QuadraticTerm? ==> t.var2 == g.terms[i].var2)
    ensures forall i :: 0 <= i < |g.constants| ==>
              Expand(f).constants[|f.constants| + i].weight == g.constants[i].weight * w
  {
    assert NestedTerms(f, 0) == ScaleTerms(g.terms, w) + NestedTerms(f, 1);
    assert NestedConstants(f, 0) == ScaleConstants(g.constants, w) + NestedConstants(f, 1);
    forall i | 0 <= i < |g.terms|
      ensures Expand(f).terms[|f.terms| + i] == ScaleTerm(g.terms[i], w)
    {
      ScaleTermsAt(g.terms, w, i);
    }
    forall i | 0 <= i < |g.constants|
      ensures Expand(f).constants[|f.constants| + i] == Constant(g.constants[i].weight * w)
    {
      ScaleConstantsAt(g.constants, w, i);
    }
  }

  // ---------------------------------------------------------------------------
  // Aliasing of the receiver

  /**
   * The receiver's state after `expand`: the result is built on the
   * receiver's own term and constant lists, so a receiver with nested
   * functions ends up holding the expanded terms and constants while keeping
   * its nested functions (each in its own post-`expand` state).
   */
  function ExpandReceiver(f: Function): (r: Function)
    decreases f, 1, 0
  {
    if f.nested == [] then f
    else Function(f.shape, Expand(f).terms, Expand(f).constants, NestedReceivers(f, 0))
  }

  function NestedReceivers(f: Function, i: nat): (r: seq<WeightedFunction>)
    requires i <= |f.nested|
    ensures |r| == |f.nested| - i
    ensures forall j :: 0 <= j < |r| ==> r[j].weight == f.nested[i + j].weight
    decreases f, 0, |f.nested| - i
  {
    if i == |f.nested| then []
    else [WeightedFunction(ExpandReceiver(f.nested[i].func), f.nested[i].weight)] + NestedReceivers(f, i + 1)
  }

  /**
   * After `expand` the receiver shares the result's lists and still has its
   * nested functions, so a second `expand` of the same receiver appends the
   * nested contributions once more behind the first result.
   */
  lemma ReceiverGrows(f: Function)
    requires f.nested != []
    ensures ExpandReceiver(f).terms == Expand(f).terms
    ensures ExpandReceiver(f).constants == Expand(f).constants
    ensures |ExpandReceiver(f).nested| == |f.nested|
    ensures Expand(ExpandReceiver(f)).terms[..|Expand(f).terms|] == Expand(f).terms
    ensures Expand(ExpandReceiver(f)).constants[..|Expand(f).constants|] == Expand(f).constants
  {
  }

  predicate AllNestedFlat(f: Function) {
    forall i :: 0 <= i < |f.nested| ==> f.nested[i].func.nested == []
  }

  /**
   * When every nested function is flat, the receiver's value after `expand`
   * counts the nested contributions twice.
   */
  lemma ReceiverValueAfterExpand(f: Function, a: Assignment)
    requires f.nested != [] && AllNestedFlat(f)
    ensures Value(ExpandReceiver(f), a) == Value(f, a) + NestedValue(f, 0, a)
  {
    NestedReceiversOfFlat(f, 0);
    var r := ExpandReceiver(f);
    assert r.nested == f.nested;
    NestedValueSameNested(r, f, 0, a);
    ExpandPreservesValue(f, a);
    var e := Expand(f);
    assert NestedValue(e, 0, a) == 0.0;
    NestedExpansionValue(f, 0, a);
    TermsValueAppend(f.terms, NestedTerms(f, 0), a);
    ConstantsValueAppend(f.constants, NestedConstants(f, 0));
  }

  lemma {:induction false} NestedReceiversOfFlat(f: Function, i: nat)
    requires i <= |f.nested| && AllNestedFlat(f)
    ensures NestedReceivers(f, i) == f.nested[i..]
    decreases |f.nested| - i
  {
    if i < |f.nested| {
      NestedReceiversOfFlat(f, i + 1);
      assert f.nested[i..] == [f.nested[i]] + f.nested[i + 1..];
    }
  }
}
