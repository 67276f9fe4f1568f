/**
 * The name-keyed variable registry of `Problem` (a `HashMap<String,
 * Variable>` filled by `put`) and `List.remove(Object)` on the constraint
 * lists.
 */
module Registry {
  import opened Variables
  import opened Expressions

  /** The names of a list of variables. */
  function Names(vs: seq<Variable>): set<string> {
    set i | 0 <= i < |vs| :: vs[i].name
  }

  /** Position `i` holds the last variable of its name in `vs`. */
  predicate LastOfName(vs: seq<Variable>, i: nat)
    requires i < |vs|
  {
    forall j :: i < j < |vs| ==> vs[j].name != vs[i].name
  }

  /**
   * `put(v.getName(), v)` for each variable of `vs` in turn: every name of
   * `vs` ends up registered, to the last variable of that name, and every
   * other entry stays as it was.
   */
  function Register(m: map<string, Variable>, vs: seq<Variable>): (r: map<string, Variable>)
    ensures r.Keys == m.Keys + Names(vs)
    ensures forall i :: 0 <= i < |vs| && LastOfName(vs, i) ==> r[vs[i].name] == vs[i]
    ensures forall x :: x in m && x !in Names(vs) ==> r[x] == m[x]
    decreases |vs|
  {
    if vs == [] then m
    else
      var r := Register(m[vs[0].name := vs[0]], vs[1..]);
      NamesCons(vs);
      assert forall i :: 1 <= i < |vs| ==> vs[1..][i - 1] == vs[i];
      r
  }

  lemma NamesCons(vs: seq<Variable>)
    requires vs != []
    ensures Names(vs) == {vs[0].name} + Names(vs[1..])
  {
    assert vs == [vs[0]] + vs[1..];
    NamesAppend([vs[0]], vs[1..]);
    assert Names([vs[0]]) == {vs[0].name};
  }

  /** The variables a term names: `var1`, and `var2` of a quadratic term. */
  function TermVariables(t: Term): (r: seq<Variable>)
    ensures t.LinearTerm? ==> r == [t.var1]
    ensures t.QuadraticTerm? ==> r == [t.var1, t.var2]
  {
    match t
    case LinearTerm(v, _) => [v]
    case QuadraticTerm(v1, v2, _) => [v1, v2]
  }

  /** The variables of a list of terms, term by term, in the order `add` registers them. */
  function TermsVariables(ts: seq<Term>): (r: seq<Variable>)
    ensures forall i :: 0 <= i < |ts| ==> ts[i].var1.name in Names(r)
    ensures forall i :: 0 <= i < |ts| && ts[i].QuadraticTerm? ==> ts[i].var2.name in Names(r)
    ensures forall x :: x in Names(r) ==>
              exists i :: 0 <= i < |ts| && (ts[i].var1.name == x || (ts[i].QuadraticTerm? && ts[i].var2.name == x))
  {
    if ts == [] then []
    else
      var head := TermVariables(ts[0]);
      var rest := TermsVariables(ts[1..]);
      assert forall i :: 1 <= i < |ts| ==> ts[1..][i - 1] == ts[i];
      NamesAppend(head, rest);
      TermNames(ts[0]);
      head + rest
  }

  lemma TermNames(t: Term)
    ensures Names(TermVariables(t)) == {t.var1.name} + (if t.QuadraticTerm? then {t.var2.name} else {})
  {
    var vs := TermVariables(t);
    assert vs[0] == t.var1;
    if t.QuadraticTerm? {
      assert vs[1] == t.var2;
      assert forall x :: x in Names(vs) ==> x == vs[0].name || x == vs[1].name;
    } else {
      assert forall x :: x in Names(vs) ==> x == vs[0].name;
    }
  }

  /** Only `var1` of each term: what `add(OrConstraint)` registers. */
  function FirstVariables(ts: seq<Term>): (r: seq<Variable>)
    ensures |r| == |ts| && forall i :: 0 <= i < |ts| ==> r[i] == ts[i].var1
  {
    seq(|ts|, i requires 0 <= i < |ts| => ts[i].var1)
  }

  lemma NamesAppend(xs: seq<Variable>, ys: seq<Variable>)
    ensures Names(xs + ys) == Names(xs) + Names(ys)
  {
    forall x | x in Names(xs + ys) ensures x in Names(xs) + Names(ys) {
      var i :| 0 <= i < |xs + ys| && (xs + ys)[i].name == x;
      if i >= |xs| {
        assert ys[i - |xs|].name == x;
      }
    }
    forall x | x in Names(xs) ensures x in Names(xs + ys) {
      var i :| 0 <= i < |xs| && xs[i].name == x;
      assert (xs + ys)[i] == xs[i];
    }
    forall x | x in Names(ys) ensures x in Names(xs + ys) {
      var i :| 0 <= i < |ys| && ys[i].name == x;
      assert (xs + ys)[|xs| + i] == ys[i];
    }
  }

  // ---------------------------------------------------------------------------
  // List.remove(Object)

  /** The position of the first occurrence of `x` in `xs`. */
  function FirstIndex<T(==)>(xs: seq<T>, x: T): (i: nat)
    requires x in xs
    ensures i < |xs| && xs[i] == x && x !in xs[..i]
  {
    if xs[0] == x then 0
    else
      var j := FirstIndex(xs[1..], x);
      assert xs[..j + 1] == [xs[0]] + xs[1..][..j];
      j + 1
  }

  /**
   * `remove(x)`: drops the first element equal to `x` and reports whether
   * there was one; a list without `x` is returned unchanged.
   */
  function RemoveFirst<T(==)>(xs: seq<T>, x: T): (r: (seq<T>, bool))
    ensures r.1 <==> x in xs
    ensures !r.1 ==> r.0 == xs
    ensures r.1 ==> r.0 == xs[..FirstIndex(xs, x)] + xs[FirstIndex(xs, x) + 1..]
    ensures r.1 ==> |r.0| == |xs| - 1 && multiset(r.0) + multiset{x} == multiset(xs)
  {
    if x in xs then
      var i := FirstIndex(xs, x);
      assert xs == xs[..i] + [x] + xs[i + 1..];
      (xs[..i] + xs[i + 1..], true)
    else (xs, false)
  }
}
