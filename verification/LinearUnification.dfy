/**
 * Unification of linear terms (inference/unification.py:46-107): no variable
 * occurs twice across the two terms, and none is bound already. This is a check
 * a caller can make beforehand, and it makes the result one-pass correct.
 */
module LinearUnification {
  import opened Terms
  import opened Unification

  ghost function Vars(t: Term): iset<string> {
    iset x | Occurs(x, t)
  }

  ghost predicate OccursInside(x: string, s: Bindings) {
    exists y :: y in s && Occurs(x, s[y])
  }

  /** The variables inside the values of s. */
  ghost function Images(s: Bindings): iset<string> {
    iset x | OccursInside(x, s)
  }

  ghost function Bound(s: Bindings): iset<string> {
    iset x | x in s
  }

  ghost function Mentioned(s: Bindings): iset<string> {
    Bound(s) + Images(s)
  }

  ghost predicate Linear(t: Term) {
    match t
    case Var(_) => true
    case Atom(_) => true
    case Dict(m) =>
      && (forall k :: k in m ==> Linear(m[k]))
      && (forall k, k' :: k in m && k' in m && k != k' ==> Vars(m[k]) !! Vars(m[k']))
    case List(l) =>
      && (forall i :: 0 <= i < |l| ==> Linear(l[i]))
      && (forall i, j :: 0 <= i < |l| && 0 <= j < |l| && i != j ==> Vars(l[i]) !! Vars(l[j]))
  }

  ghost predicate LinearProblem(t1: Term, t2: Term, s: Bindings) {
    && Linear(t1) && Linear(t2) && Vars(t1) !! Vars(t2)
    && Bound(s) !! Vars(t1) + Vars(t2)
  }

  ghost function PairVars(xs: seq<Term>, ys: seq<Term>, j: nat): iset<string>
    requires j < |xs| == |ys|
  {
    Vars(xs[j]) + Vars(ys[j])
  }

  ghost function LaterVars(xs: seq<Term>, ys: seq<Term>, i: nat): iset<string>
    requires |xs| == |ys|
    decreases |xs| - i
  {
    if i >= |xs| then iset{} else PairVars(xs, ys, i) + LaterVars(xs, ys, i + 1)
  }

  /** From index i on: pairs of linear terms, variable-disjoint within and across the pairs. */
  ghost predicate LinearPairs(xs: seq<Term>, ys: seq<Term>, i: nat)
    requires |xs| == |ys|
    decreases |xs| - i
  {
    i < |xs| ==>
      && Linear(xs[i]) && Linear(ys[i]) && Vars(xs[i]) !! Vars(ys[i])
      && PairVars(xs, ys, i) !! LaterVars(xs, ys, i + 1)
      && LinearPairs(xs, ys, i + 1)
  }

  lemma {:induction false} InLaterVars(xs: seq<Term>, ys: seq<Term>, i: nat, x: string)
    requires |xs| == |ys|
    ensures x in LaterVars(xs, ys, i) <==> exists j :: i <= j < |xs| && x in PairVars(xs, ys, j)
    decreases |xs| - i
  {
    if i < |xs| {
      InLaterVars(xs, ys, i + 1, x);
    }
  }

  lemma {:induction false} PairsFrom(xs: seq<Term>, ys: seq<Term>, i: nat)
    requires |xs| == |ys|
    requires forall j :: 0 <= j < |xs| ==> Linear(xs[j]) && Linear(ys[j]) && Vars(xs[j]) !! Vars(ys[j])
    requires forall j, k :: 0 <= j < k < |xs| ==> PairVars(xs, ys, j) !! PairVars(xs, ys, k)
    ensures LinearPairs(xs, ys, i)
    decreases |xs| - i
  {
    if i < |xs| {
      PairsFrom(xs, ys, i + 1);
      forall x | x in PairVars(xs, ys, i) ensures x !in LaterVars(xs, ys, i + 1) {
        InLaterVars(xs, ys, i + 1, x);
      }
    }
  }

  /** The bindings a run added to s. */
  function Added(r: Bindings, s: Bindings): Bindings {
    map x | x in r && x !in s :: r[x]
  }

  /** r is s plus bindings among vs, whose values hold no bound variable. */
  ghost predicate Grows(r: Bindings, s: Bindings, vs: iset<string>) {
    && Extends(r, s)
    && Mentioned(Added(r, s)) <= vs
    && Images(Added(r, s)) !! Bound(r)
  }

  lemma OutsideFixed(s: Bindings, t: Term)
    requires Bound(s) !! Vars(t)
    ensures Apply(s, t) == t
  {
    forall x | Occurs(x, t) ensures x !in s {
      assert x in Vars(t);
    }
    ApplyUntouched(s, t);
  }

  lemma GrowsBound(r: Bindings, s: Bindings, vs: iset<string>)
    requires Grows(r, s, vs)
    ensures Bound(r) <= Bound(s) + vs
  {
    assert Bound(r) <= Bound(s) + Bound(Added(r, s));
  }

  lemma BindGrows(s: Bindings, x: string, t: Term)
    requires x !in Bound(s) && Bound(s) !! Vars(t) && x !in Vars(t)
    ensures Bind(s, x, t).Unified?
    ensures Grows(s[x := t], s, iset{x} + Vars(t))
    ensures Apply(s[x := t], t) == t == Apply(s[x := t], Var(x))
  {
    forall y | Occurs(y, t) ensures y !in s[x := t] {
      assert y in Vars(t);
    }
    ApplyUntouched(s[x := t], t);
  }

  lemma LinearKids(a: Term, b: Term, keys: seq<string>)
    requires Linear(a) && Linear(b) && Vars(a) !! Vars(b)
    requires SameShape(a, b) && Visits(keys, a)
    ensures LinearPairs(Kids(a, keys), Kids(b, keys), 0)
  {
    var xs, ys := Kids(a, keys), Kids(b, keys);
    forall j | 0 <= j < |xs| ensures Vars(xs[j]) <= Vars(a) && Vars(ys[j]) <= Vars(b) {
      forall x ensures (Occurs(x, xs[j]) ==> Occurs(x, a)) && (Occurs(x, ys[j]) ==> Occurs(x, b)) {
        KidOccurs(x, a, keys);
        KidOccurs(x, b, keys);
      }
    }
    forall j, k | 0 <= j < k < |xs| ensures Vars(xs[j]) !! Vars(xs[k]) && Vars(ys[j]) !! Vars(ys[k]) {
      assert a.Dict? ==> keys[j] != keys[k] && keys[j] in a.entries && keys[k] in a.entries;
    }
    PairsFrom(xs, ys, 0);
  }

  lemma KidVars(a: Term, b: Term, keys: seq<string>)
    requires SameShape(a, b) && Visits(keys, a)
    ensures LaterVars(Kids(a, keys), Kids(b, keys), 0) == Vars(a) + Vars(b)
  {
    var xs, ys := Kids(a, keys), Kids(b, keys);
    forall x ensures x in LaterVars(xs, ys, 0) <==> x in Vars(a) + Vars(b) {
      InLaterVars(xs, ys, 0, x);
      KidOccurs(x, a, keys);
      KidOccurs(x, b, keys);
      forall j | 0 <= j < |xs| ensures x in PairVars(xs, ys, j) <==> Occurs(x, xs[j]) || Occurs(x, ys[j]) {}
    }
  }

  /** What the children of a linear problem of one shape offer the induction. */
  lemma LinearStep(t1: Term, t2: Term, keys: seq<string>, s: Bindings, vs: iset<string>)
    requires LinearProblem(t1, t2, s) && SameShape(t1, t2) && Visits(keys, t1) && vs == Vars(t1) + Vars(t2)
    ensures var xs, ys := Kids(t1, keys), Kids(t2, keys);
            LinearPairs(xs, ys, 0) && LaterVars(xs, ys, 0) == vs && Bound(s) !! vs
    ensures Apply(s, t1) == t1 && Apply(s, t2) == t2
  {
    LinearKids(t1, t2, keys);
    KidVars(t1, t2, keys);
    OutsideFixed(s, t1);
    OutsideFixed(s, t2);
  }

  /** A run over variables vs terminates, overwrites nothing, and binds only variables among vs. */
  ghost predicate RunsLinearly(out: Outcome, s: Bindings, vs: iset<string>) {
    out != OutOfFuel && (out.Unified? ==> !out.overwrote && Grows(out.bindings, s, vs))
  }

  lemma LinearLeaf(fuel: nat, order: KeyOrder, path: seq<nat>, t1: Term, t2: Term, s: Bindings, vs: iset<string>)
    requires LinearProblem(t1, t2, s) && fuel > 0 && vs == Vars(t1) + Vars(t2)
    requires t1 == t2 || !SameShape(t1, t2)
    ensures var out := Run(fuel, order, path, t1, t2, s);
            && RunsLinearly(out, s, vs)
            && (out.Unified? ==> Apply(out.bindings, t1) == Apply(out.bindings, t2))
  {
    OutsideFixed(s, t1);
    OutsideFixed(s, t2);
    if t1 == t2 {
    } else if t1.Var? {
      assert t1.name in Vars(t1);
      BindGrows(s, t1.name, t2);
    } else if t2.Var? {
      assert t2.name in Vars(t2);
      BindGrows(s, t2.name, t1);
    }
  }

  lemma {:induction false} LinearRun(fuel: nat, order: KeyOrder, path: seq<nat>,
                                     t1: Term, t2: Term, s: Bindings, vs: iset<string>)
    requires LinearProblem(t1, t2, s) && fuel > Height(t1) && vs == Vars(t1) + Vars(t2)
    ensures var out := Run(fuel, order, path, t1, t2, s);
            && RunsLinearly(out, s, vs)
            && (out.Unified? ==> Apply(out.bindings, t1) == Apply(out.bindings, t2))
    decreases fuel, 1
  {
    if t1 == t2 || !SameShape(t1, t2) {
      LinearLeaf(fuel, order, path, t1, t2, s, vs);
    } else {
      LinearStep(t1, t2, Visit(order, path, t1), s, vs);
      LinearInner(fuel, order, path, t1, t2, s, vs);
    }
  }

  lemma KidsUnified(out: Outcome, a: Term, b: Term, keys: seq<string>)
    requires SameShape(a, b) && Visits(keys, a)
    requires out.Unified? ==> AllEqual(out.bindings, Kids(a, keys), Kids(b, keys), 0)
    ensures out.Unified? ==> Apply(out.bindings, a) == Apply(out.bindings, b)
  {
    if out.Unified? {
      KidsEqual(out.bindings, a, b, keys);
    }
  }

  lemma {:induction false} LinearInner(fuel: nat, order: KeyOrder, path: seq<nat>,
                                       a: Term, b: Term, s: Bindings, vs: iset<string>)
    requires fuel > Height(a) && SameShape(a, b) && a != b && Apply(s, a) == a && Apply(s, b) == b
    requires var keys := Visit(order, path, a);
             var xs, ys := Kids(a, keys), Kids(b, keys);
             LinearPairs(xs, ys, 0) && LaterVars(xs, ys, 0) == vs && Bound(s) !! vs
    ensures var out := Run(fuel, order, path, a, b, s);
            && RunsLinearly(out, s, vs)
            && (out.Unified? ==> Apply(out.bindings, a) == Apply(out.bindings, b))
    decreases fuel, 0
  {
    var keys := Visit(order, path, a);
    KidsLower(a, keys);
    RunsOnKids(fuel, order, path, a, b, s);
    LinearRunAll(fuel - 1, order, path, Kids(a, keys), Kids(b, keys), 0, s, vs);
    KidsUnified(Run(fuel, order, path, a, b, s), a, b, keys);
  }

  lemma GrowsAgain(r: Bindings, s': Bindings, s: Bindings, v: iset<string>, w: iset<string>, vs: iset<string>)
    requires Grows(s', s, v) && Grows(r, s', w) && v !! w && vs == v + w && Bound(s) !! vs
    ensures Grows(r, s, vs)
  {
    var n, n', n'' := Added(r, s), Added(s', s), Added(r, s');
    assert Bound(n) <= Bound(n') + Bound(n'');
    forall x | x in Images(n) ensures x in vs && x !in r {
      var y :| y in n && Occurs(x, n[y]);
      if y in s' {
        assert Occurs(x, n'[y]);
        assert x in Images(n') && x !in s';
        assert x in r ==> x in Bound(n'');
      } else {
        assert Occurs(x, n''[y]);
        assert x in Images(n'');
      }
    }
  }

  /** Bindings among other variables leave a term's instance alone. */
  lemma GrowthKeeps(r: Bindings, s': Bindings, w: iset<string>, t: Term)
    requires Grows(r, s', w) && Vars(t) !! w
    ensures Apply(r, t) == Apply(s', t)
  {
    forall x | Occurs(x, t) ensures Apply(r, Var(x)) == Apply(s', Var(x)) {
      assert x in Vars(t);
    }
    ApplyAgrees(r, s', t);
  }

  lemma {:induction false} LinearRunAll(fuel: nat, order: KeyOrder, path: seq<nat>,
                                        xs: seq<Term>, ys: seq<Term>, i: nat, s: Bindings, vs: iset<string>)
    requires |xs| == |ys| && LinearPairs(xs, ys, i) && vs == LaterVars(xs, ys, i) && Bound(s) !! vs
    requires forall j :: i <= j < |xs| ==> fuel > Height(xs[j])
    ensures var out := RunAll(fuel, order, path, xs, ys, i, s);
            && RunsLinearly(out, s, vs)
            && (out.Unified? ==> AllEqual(out.bindings, xs, ys, i))
    decreases fuel, |xs| - i + 2
  {
    if i < |xs| {
      var v, w := PairVars(xs, ys, i), LaterVars(xs, ys, i + 1);
      LinearRun(fuel, order, path + [i], xs[i], ys[i], s, v);
      var out := Run(fuel, order, path + [i], xs[i], ys[i], s);
      if out.Unified? {
        var s' := out.bindings;
        GrowsBound(s', s, v);
        LinearRunAll(fuel, order, path, xs, ys, i + 1, s', w);
        var rest := RunAll(fuel, order, path, xs, ys, i + 1, s');
        if rest.Unified? {
          GrowsAgain(rest.bindings, s', s, v, w, vs);
          GrowthKeeps(rest.bindings, s', w, xs[i]);
          GrowthKeeps(rest.bindings, s', w, ys[i]);
        }
      }
    }
  }

  lemma LeafSucceeds(fuel: nat, order: KeyOrder, path: seq<nat>, t1: Term, t2: Term, s: Bindings, theta: Bindings)
    requires LinearProblem(t1, t2, s) && fuel > 0
    requires t1 == t2 || !SameShape(t1, t2)
    requires Apply(theta, t1) == Apply(theta, t2)
    ensures Run(fuel, order, path, t1, t2, s).Unified?
  {
    OutsideFixed(s, t1);
    OutsideFixed(s, t2);
    if t1 != t2 && !t1.Var? && !t2.Var? {
      DifferentShapes(theta, t1, t2);
    }
    assert t1.Var? ==> t1.name in Vars(t1);
    assert t2.Var? ==> t2.name in Vars(t2);
  }

  /** A linear problem whose terms have a unifier does not clash. */
  lemma {:induction false} LinearSucceeds(fuel: nat, order: KeyOrder, path: seq<nat>,
                                          t1: Term, t2: Term, s: Bindings, theta: Bindings)
    requires LinearProblem(t1, t2, s) && fuel > Height(t1)
    requires Apply(theta, t1) == Apply(theta, t2)
    ensures Run(fuel, order, path, t1, t2, s).Unified?
    decreases fuel, 1
  {
    if t1 == t2 || !SameShape(t1, t2) {
      LeafSucceeds(fuel, order, path, t1, t2, s, theta);
    } else {
      LinearStep(t1, t2, Visit(order, path, t1), s, Vars(t1) + Vars(t2));
      InnerSucceeds(fuel, order, path, t1, t2, s, theta);
    }
  }

  lemma {:induction false} InnerSucceeds(fuel: nat, order: KeyOrder, path: seq<nat>,
                                         a: Term, b: Term, s: Bindings, theta: Bindings)
    requires fuel > Height(a) && SameShape(a, b) && a != b && Apply(s, a) == a && Apply(s, b) == b
    requires var keys := Visit(order, path, a);
             var xs, ys := Kids(a, keys), Kids(b, keys);
             LinearPairs(xs, ys, 0) && Bound(s) !! LaterVars(xs, ys, 0)
    requires Apply(theta, a) == Apply(theta, b)
    ensures Run(fuel, order, path, a, b, s).Unified?
    decreases fuel, 0
  {
    var keys := Visit(order, path, a);
    KidsLower(a, keys);
    KidsEqual(theta, a, b, keys);
    RunsOnKids(fuel, order, path, a, b, s);
    LinearSucceedsAll(fuel - 1, order, path, Kids(a, keys), Kids(b, keys), 0, s, theta);
  }

  lemma {:induction false} LinearSucceedsAll(fuel: nat, order: KeyOrder, path: seq<nat>,
                                             xs: seq<Term>, ys: seq<Term>, i: nat, s: Bindings, theta: Bindings)
    requires |xs| == |ys| && LinearPairs(xs, ys, i) && Bound(s) !! LaterVars(xs, ys, i)
    requires forall j :: i <= j < |xs| ==> fuel > Height(xs[j])
    requires AllEqual(theta, xs, ys, i)
    ensures RunAll(fuel, order, path, xs, ys, i, s).Unified?
    decreases fuel, |xs| - i + 2
  {
    if i < |xs| {
      LinearRun(fuel, order, path + [i], xs[i], ys[i], s, PairVars(xs, ys, i));
      LinearSucceeds(fuel, order, path + [i], xs[i], ys[i], s, theta);
      var s' := Run(fuel, order, path + [i], xs[i], ys[i], s).bindings;
      GrowsBound(s', s, PairVars(xs, ys, i));
      LinearSucceedsAll(fuel, order, path, xs, ys, i + 1, s', theta);
    }
  }

  lemma AddedAgrees(r: Bindings, t: Term, s: Bindings)
    requires Bound(s) !! Vars(t)
    ensures Apply(Added(r, s), t) == Apply(r, t)
  {
    forall x | Occurs(x, t) ensures Apply(Added(r, s), Var(x)) == Apply(r, Var(x)) {
      assert x in Vars(t) && (x in s ==> x in Bound(s));
    }
    ApplyAgrees(Added(r, s), r, t);
  }

  lemma AddedUnifies(r: Bindings, t1: Term, t2: Term, s: Bindings)
    requires Bound(s) !! Vars(t1) + Vars(t2) && Grows(r, s, Vars(t1) + Vars(t2))
    requires Apply(r, t1) == Apply(r, t2)
    ensures Apply(Added(r, s), t1) == Apply(Added(r, s), t2)
    ensures Idempotent(Added(r, s))
  {
    var n := Added(r, s);
    AddedAgrees(r, t1, s);
    AddedAgrees(r, t2, s);
    forall x | x in n ensures Apply(n, n[x]) == n[x] {
      forall y | Occurs(y, n[x]) ensures y !in n {
        assert y in Images(n) && (y in n ==> y in Bound(r));
      }
      ApplyUntouched(n, n[x]);
    }
    IdempotentIffSelfSolution(n);
  }

  /**
   * A linear problem always terminates; it succeeds exactly when the terms have
   * a unifier; then one application of the result makes them equal, and what was
   * added is an idempotent unifier on its own.
   */
  lemma LinearOnePass(order: KeyOrder, path: seq<nat>, t1: Term, t2: Term, s: Bindings, fuel: nat)
    requires LinearProblem(t1, t2, s) && fuel > Height(t1)
    ensures Run(fuel, order, path, t1, t2, s) != OutOfFuel
    ensures Run(fuel, order, path, t1, t2, s).Unified?
            <==> exists theta :: Apply(theta, t1) == Apply(theta, t2)
    ensures Run(fuel, order, path, t1, t2, s).Unified? ==>
              var r := Run(fuel, order, path, t1, t2, s).bindings;
              && Extends(r, s)
              && Apply(r, t1) == Apply(r, t2)
              && Apply(Added(r, s), t1) == Apply(Added(r, s), t2)
              && Idempotent(Added(r, s))
              && forall theta :: Satisfies(theta, r) <==> Solves(theta, s, t1, t2)
  {
    var out := Run(fuel, order, path, t1, t2, s);
    forall theta ensures Apply(theta, t1) == Apply(theta, t2) ==> out.Unified? {
      if Apply(theta, t1) == Apply(theta, t2) {
        LinearSucceeds(fuel, order, path, t1, t2, s, theta);
      }
    }
    LinearRun(fuel, order, path, t1, t2, s, Vars(t1) + Vars(t2));
    if out.Unified? {
      AddedUnifies(out.bindings, t1, t2, s);
      forall theta { Exact(fuel, order, path, t1, t2, s, theta); }
    }
  }
}
