/**
 * Unification of a pattern with any term (inference/unification.py:46-107): no
 * variable occurs twice in the first term, none occurs in the second term or in
 * the bindings, and the bindings do not lead from a variable that can be met to
 * another variable. A caller can check this beforehand; of empty bindings nothing
 * is asked. The order of the arguments matters: with the terms exchanged the
 * unifier may overwrite bindings.
 */
module PatternUnification {
  import opened Terms
  import opened Unification
  import opened LinearUnification

  /** A binding of a variable to a variable is out of reach: its variable is not in ys or in a value. */
  ghost predicate Safe(s: Bindings, ys: iset<string>) {
    forall z :: z in s && s[z].Var? ==> z !in Images(s) && z !in ys
  }

  /** Safe holds in particular of the empty bindings. */
  ghost predicate PatternProblem(t1: Term, t2: Term, s: Bindings) {
    Linear(t1) && Vars(t1) !! Mentioned(s) + Vars(t2) && Safe(s, Vars(t2))
  }

  ghost predicate Solvable(s: Bindings) {
    exists theta :: Satisfies(theta, s)
  }

  /** s without the binding of x, which is used in the other values. */
  function Eliminated(s: Bindings, x: string): Bindings
    requires x in s
  {
    map y | y in s && y != x :: Apply(map[x := s[x]], s[y])
  }

  lemma EliminatedSolved(s: Bindings, x: string, theta: Bindings)
    requires x in s && Satisfies(theta, s)
    ensures Satisfies(theta, Eliminated(s, x))
  {
    var one: Bindings := map[x := s[x]];
    forall y | y in s && y != x ensures Apply(theta, Var(y)) == Apply(theta, Apply(one, s[y])) {
      SolutionAbsorbs(theta, one, s[y]);
    }
  }

  /** A solution after elimination extends to the eliminated variable. */
  lemma EliminatedSolves(s: Bindings, x: string, theta: Bindings)
    requires x in s && (Occurs(x, s[x]) ==> s[x] == Var(x))
    requires x !in theta && Satisfies(theta, Eliminated(s, x))
    ensures Satisfies(Compose(theta, map[x := s[x]]), s)
  {
    var one: Bindings := map[x := s[x]];
    var r := Compose(theta, one);
    if !Occurs(x, s[x]) {
      ApplyUntouched(one, s[x]);
    }
    forall y | y in s ensures Apply(r, Var(y)) == Apply(r, s[y]) {
      ComposeActs(theta, one, s[y]);
      ComposeActs(theta, one, Var(y));
      if y != x {
        assert y in Eliminated(s, x);
      }
    }
  }

  /** Bindings that have a solution have one that binds no other variables. */
  lemma {:induction false} SolvedByKeys(s: Bindings, theta: Bindings) returns (within: Bindings)
    requires Satisfies(theta, s)
    ensures within.Keys <= s.Keys && Satisfies(within, s)
    decreases |s|
  {
    if s == map[] {
      within := map[];
    } else {
      var x :| x in s;
      if Occurs(x, s[x]) {
        OccursHeight(theta, x, s[x]);
      }
      EliminatedSolved(s, x, theta);
      assert Eliminated(s, x).Keys == s.Keys - {x};
      assert |Eliminated(s, x).Keys| < |s.Keys|;
      var rest := SolvedByKeys(Eliminated(s, x), theta);
      EliminatedSolves(s, x, rest);
      within := Compose(rest, map[x := s[x]]);
    }
  }

  /** x is linear and fresh; y holds variables of ys and of values only. */
  ghost predicate Facing(x: Term, y: Term, s: Bindings, ys: iset<string>) {
    && Linear(x) && Vars(x) !! Mentioned(s) + ys
    && Vars(y) <= ys + Images(s) && Safe(s, ys)
  }

  /** r extends s over variables vs, stays safe, and stays solvable. */
  ghost predicate Continues(r: Bindings, s: Bindings, ys: iset<string>, vs: iset<string>) {
    && Extends(r, s) && Safe(r, ys)
    && Mentioned(r) <= Mentioned(s) + ys + vs
    && (Solvable(s) ==> Solvable(r))
  }

  ghost predicate Goes(out: Outcome, s: Bindings, ys: iset<string>, vs: iset<string>) {
    out != OutOfFuel && (out.Unified? ==> !out.overwrote && Continues(out.bindings, s, ys, vs))
  }

  /** The outcomes that a run over patterns with variables vs can have. */
  ghost function Outcomes(s: Bindings, ys: iset<string>, vs: iset<string>): iset<Outcome> {
    iset out | Goes(out, s, ys, vs)
  }

  // ----- one step -----

  lemma AppliedVars(s: Bindings, t: Term)
    ensures Vars(Apply(s, t)) <= Vars(t) + Images(s)
  {
    forall x | x in Vars(Apply(s, t)) ensures x in Vars(t) + Images(s) {
      ApplyOccurs(s, t, x);
    }
  }

  lemma BindImages(s: Bindings, x: string, t: Term)
    requires x !in s
    ensures Images(s[x := t]) == Images(s) + Vars(t)
    ensures Bound(s[x := t]) == Bound(s) + iset{x}
  {
    var r := s[x := t];
    forall z ensures z in Images(r) <==> z in Images(s) + Vars(t) {
      if z in Images(s) {
        var y :| y in s && Occurs(z, s[y]);
        assert y in r && r[y] == s[y];
      }
      if z in Vars(t) {
        assert Occurs(z, r[x]);
      }
    }
  }

  lemma FreshSolves(s: Bindings, u: string, b: Term, theta: Bindings)
    requires u !in Mentioned(s) && !Occurs(u, b) && Satisfies(theta, s)
    ensures Satisfies(theta[u := Apply(theta, b)], s[u := b])
  {
    var r := theta[u := Apply(theta, b)];
    forall t: Term | !Occurs(u, t) ensures Apply(r, t) == Apply(theta, t) {
      ApplyAgrees(r, theta, t);
    }
    forall x | x in s ensures Apply(r, Var(x)) == Apply(r, s[x]) {
      assert x in Bound(s) && (Occurs(u, s[x]) ==> u in Images(s));
    }
  }

  lemma FreshSolvable(s: Bindings, u: string, b: Term)
    requires u !in Mentioned(s) && !Occurs(u, b)
    ensures Solvable(s) ==> Solvable(s[u := b])
  {
    if Solvable(s) {
      var theta :| Satisfies(theta, s);
      FreshSolves(s, u, b, theta);
    }
  }

  /** A fresh variable takes the other term as its value, whatever that is. */
  lemma BindFresh(s: Bindings, u: string, b: Term, ys: iset<string>)
    requires u !in Mentioned(s) + ys && Vars(b) <= ys + Images(s) && Safe(s, ys)
    ensures Continues(s[u := b], s, ys, iset{u})
  {
    BindImages(s, u, b);
    assert Safe(s[u := b], ys);
    assert u !in Vars(b);
    FreshSolvable(s, u, b);
  }

  lemma PatternSolves(s: Bindings, z: string, x: Term, theta: Bindings)
    requires z !in s && Vars(x) !! Bound(s) && !Occurs(z, x)
    requires theta.Keys <= s.Keys && Satisfies(theta, s)
    ensures Satisfies(Compose(map[z := x], theta), s[z := x])
  {
    var one: Bindings := map[z := x];
    var r := Compose(one, theta);
    forall t ensures Apply(r, t) == Apply(one, Apply(theta, t)) {
      ComposeActs(one, theta, t);
    }
    forall v | Occurs(v, x) ensures v !in theta && v !in one {
      assert v in Vars(x);
    }
    ApplyUntouched(theta, x);
    ApplyUntouched(one, x);
    assert Apply(r, Var(z)) == x == Apply(r, x);
    forall y | y in s ensures Apply(r, Var(y)) == Apply(r, s[y]) {
      assert Apply(theta, Var(y)) == Apply(theta, s[y]);
    }
  }

  lemma PatternSolvable(s: Bindings, z: string, x: Term)
    requires z !in s && Vars(x) !! Bound(s) && !Occurs(z, x)
    ensures Solvable(s) ==> Solvable(s[z := x])
  {
    if Solvable(s) {
      var theta :| Satisfies(theta, s);
      var within := SolvedByKeys(s, theta);
      PatternSolves(s, z, x, within);
    }
  }

  /** An unbound variable of the other term takes a pattern as its value, never a variable. */
  lemma BindPattern(s: Bindings, z: string, x: Term, ys: iset<string>)
    requires z !in s && z in ys + Images(s) && !x.Var?
    requires Vars(x) !! Mentioned(s) + ys && Safe(s, ys)
    ensures Continues(s[z := x], s, ys, Vars(x))
  {
    BindImages(s, z, x);
    assert Safe(s[z := x], ys) by {
      forall y | y in s && s[y].Var? ensures y !in Images(s) + Vars(x) {
        assert y in Mentioned(s);
      }
    }
    PatternSolvable(s, z, x);
  }

  /** A variable on the other side is unbound, since it is no value of a variable that can be met. */
  lemma OtherIsUnbound(s: Bindings, y: Term, ys: iset<string>)
    requires Vars(y) <= ys + Images(s) && Safe(s, ys) && Apply(s, y).Var?
    ensures Apply(s, y).name !in s && Apply(s, y).name in ys + Images(s)
  {
    assert y.name in Vars(y);
  }

  lemma LeafGoes(fuel: nat, order: KeyOrder, path: seq<nat>, x: Term, y: Term, s: Bindings, ys: iset<string>)
    requires Facing(x, y, s, ys) && fuel > 0
    requires x == Apply(s, y) || !SameShape(x, Apply(s, y))
    ensures Run(fuel, order, path, x, y, s) in Outcomes(s, ys, Vars(x))
  {
    var b := Apply(s, y);
    OutsideFixed(s, x);
    AppliedVars(s, y);
    if x == b {
    } else if x.Var? {
      assert x.name in Vars(x) && iset{x.name} == Vars(x);
      BindFresh(s, x.name, b, ys);
    } else if b.Var? {
      OtherIsUnbound(s, y, ys);
      BindPattern(s, b.name, x, ys);
    }
  }

  // ----- lists of pairs -----

  ghost function VarsFrom(xs: seq<Term>, i: nat): iset<string>
    decreases |xs| - i
  {
    if i >= |xs| then iset{} else Vars(xs[i]) + VarsFrom(xs, i + 1)
  }

  ghost predicate LinearFrom(xs: seq<Term>, i: nat)
    decreases |xs| - i
  {
    i < |xs| ==> Linear(xs[i]) && Vars(xs[i]) !! VarsFrom(xs, i + 1) && LinearFrom(xs, i + 1)
  }

  lemma {:induction false} InVarsFrom(xs: seq<Term>, i: nat, x: string)
    ensures x in VarsFrom(xs, i) <==> exists j :: i <= j < |xs| && x in Vars(xs[j])
    decreases |xs| - i
  {
    if i < |xs| {
      InVarsFrom(xs, i + 1, x);
    }
  }

  lemma {:induction false} AllLinearFrom(xs: seq<Term>, i: nat)
    requires forall j :: 0 <= j < |xs| ==> Linear(xs[j])
    requires forall j, k :: 0 <= j < k < |xs| ==> Vars(xs[j]) !! Vars(xs[k])
    ensures LinearFrom(xs, i)
    decreases |xs| - i
  {
    if i < |xs| {
      AllLinearFrom(xs, i + 1);
      forall x | x in Vars(xs[i]) ensures x !in VarsFrom(xs, i + 1) {
        InVarsFrom(xs, i + 1, x);
      }
    }
  }

  lemma KidsFace(a: Term, keys: seq<string>)
    requires Linear(a) && Visits(keys, a)
    ensures LinearFrom(Kids(a, keys), 0) && VarsFrom(Kids(a, keys), 0) == Vars(a)
  {
    var xs := Kids(a, keys);
    forall j, k | 0 <= j < k < |xs| ensures Vars(xs[j]) !! Vars(xs[k]) {
      assert a.Dict? ==> keys[j] != keys[k] && keys[j] in a.entries && keys[k] in a.entries;
    }
    AllLinearFrom(xs, 0);
    forall x ensures x in VarsFrom(xs, 0) <==> x in Vars(a) {
      InVarsFrom(xs, 0, x);
      KidOccurs(x, a, keys);
      forall j | 0 <= j < |xs| ensures x in Vars(xs[j]) <==> Occurs(x, xs[j]) {}
    }
  }

  lemma KidsWithin(b: Term, keys: seq<string>, within: iset<string>)
    requires Visits(keys, b) && Vars(b) <= within
    ensures forall j :: 0 <= j < |Kids(b, keys)| ==> Vars(Kids(b, keys)[j]) <= within
  {
    forall j, x | 0 <= j < |Kids(b, keys)| && x in Vars(Kids(b, keys)[j]) ensures x in within {
      KidOccurs(x, b, keys);
      assert x in Vars(b);
    }
  }

  /** A run of two composite terms is a run over pairs of lower patterns and terms. */
  lemma Children(fuel: nat, order: KeyOrder, path: seq<nat>, x: Term, y: Term, s: Bindings, ys: iset<string>)
    returns (xs: seq<Term>, zs: seq<Term>)
    requires Facing(x, y, s, ys) && x != Apply(s, y) && SameShape(x, Apply(s, y)) && fuel > Height(x)
    ensures |xs| == |zs| && Run(fuel, order, path, x, y, s) == RunAll(fuel - 1, order, path, xs, zs, 0, s)
    ensures LinearFrom(xs, 0) && VarsFrom(xs, 0) == Vars(x)
    ensures forall j :: 0 <= j < |zs| ==> Vars(zs[j]) <= ys + Images(s)
    ensures forall j :: 0 <= j < |xs| ==> fuel - 1 > Height(xs[j])
  {
    var keys := Visit(order, path, x);
    OutsideFixed(s, x);
    AppliedVars(s, y);
    KidsLower(x, keys);
    KidsFace(x, keys);
    KidsWithin(Apply(s, y), keys, ys + Images(s));
    RunsOnKids(fuel, order, path, x, y, s);
    xs, zs := Kids(x, keys), Kids(Apply(s, y), keys);
  }

  /** The pairs still to come face each other after a run of the first. */
  lemma StaysFacing(s': Bindings, s: Bindings, ys: iset<string>, v: iset<string>, w: iset<string>)
    requires Continues(s', s, ys, v) && v !! w && w !! Mentioned(s) + ys
    ensures w !! Mentioned(s') + ys && ys + Images(s) <= ys + Images(s')
  {
    forall x | x in Images(s) ensures x in Images(s') {
      var y :| y in s && Occurs(x, s[y]);
      assert y in s' && s'[y] == s[y];
    }
  }

  lemma ContinuesOn(r: Bindings, s': Bindings, s: Bindings, ys: iset<string>, v: iset<string>, w: iset<string>)
    requires Continues(s', s, ys, v) && Continues(r, s', ys, w)
    ensures Continues(r, s, ys, v + w)
  {
    assert Extends(r, s);
    assert Mentioned(r) <= Mentioned(s) + ys + (v + w);
  }

  lemma GoesOn(out: Outcome, rest: Outcome, s: Bindings, ys: iset<string>, v: iset<string>, w: iset<string>)
    requires out.Unified? && out in Outcomes(s, ys, v) && rest in Outcomes(out.bindings, ys, w)
    ensures After(out.overwrote, rest) in Outcomes(s, ys, v + w)
  {
    if rest.Unified? {
      ContinuesOn(rest.bindings, out.bindings, s, ys, v, w);
    }
  }

  lemma ContinuesHere(s: Bindings, ys: iset<string>)
    requires Safe(s, ys)
    ensures Unified(s, false) in Outcomes(s, ys, iset{})
  {
  }

  lemma {:induction false} PatternRun(fuel: nat, order: KeyOrder, path: seq<nat>,
                                      x: Term, y: Term, s: Bindings, ys: iset<string>)
    returns (out: Outcome)
    requires Facing(x, y, s, ys) && fuel > Height(x)
    ensures out == Run(fuel, order, path, x, y, s)
    ensures out in Outcomes(s, ys, Vars(x))
    decreases fuel, 1
  {
    if x == Apply(s, y) || !SameShape(x, Apply(s, y)) {
      LeafGoes(fuel, order, path, x, y, s, ys);
      out := Run(fuel, order, path, x, y, s);
    } else {
      var xs, zs := Children(fuel, order, path, x, y, s, ys);
      out := PatternInner(fuel, order, path, x, y, xs, zs, s, ys, Vars(x));
    }
  }

  lemma {:induction false} PatternInner(fuel: nat, order: KeyOrder, path: seq<nat>, x: Term, y: Term,
                                        xs: seq<Term>, zs: seq<Term>, s: Bindings, ys: iset<string>, vs: iset<string>)
    returns (out: Outcome)
    requires fuel > 0 && |xs| == |zs|
    requires Run(fuel, order, path, x, y, s) == RunAll(fuel - 1, order, path, xs, zs, 0, s)
    requires LinearFrom(xs, 0) && vs == VarsFrom(xs, 0) && vs !! Mentioned(s) + ys && Safe(s, ys)
    requires forall j :: 0 <= j < |zs| ==> Vars(zs[j]) <= ys + Images(s)
    requires forall j :: 0 <= j < |xs| ==> fuel - 1 > Height(xs[j])
    ensures out == Run(fuel, order, path, x, y, s)
    ensures out in Outcomes(s, ys, vs)
    decreases fuel, 0
  {
    out := PatternRunAll(fuel - 1, order, path, xs, zs, 0, s, ys, vs);
  }

  lemma {:induction false} PatternRunAll(fuel: nat, order: KeyOrder, path: seq<nat>, xs: seq<Term>, zs: seq<Term>,
                                         i: nat, s: Bindings, ys: iset<string>, vs: iset<string>)
    returns (out: Outcome)
    requires |xs| == |zs| && LinearFrom(xs, i) && vs == VarsFrom(xs, i) && vs !! Mentioned(s) + ys && Safe(s, ys)
    requires forall j :: i <= j < |zs| ==> Vars(zs[j]) <= ys + Images(s)
    requires forall j :: i <= j < |xs| ==> fuel > Height(xs[j])
    ensures out == RunAll(fuel, order, path, xs, zs, i, s)
    ensures out in Outcomes(s, ys, vs)
    decreases fuel, |xs| - i + 2
  {
    if i >= |xs| {
      out := Unified(s, false);
      ContinuesHere(s, ys);
    } else {
      var v, w := Vars(xs[i]), VarsFrom(xs, i + 1);
      out := PatternRun(fuel, order, path + [i], xs[i], zs[i], s, ys);
      if out.Unified? {
        StaysFacing(out.bindings, s, ys, v, w);
        var rest := PatternRunAll(fuel, order, path, xs, zs, i + 1, out.bindings, ys, w);
        GoesOn(out, rest, s, ys, v, w);
        out := After(out.overwrote, rest);
      }
    }
  }

  // ----- the class -----

  /**
   * A pattern problem always terminates, and an answer has exactly the problem's
   * solutions. There is a solution exactly when the call succeeds and the
   * starting bindings have one.
   */
  lemma PatternExact(order: KeyOrder, path: seq<nat>, t1: Term, t2: Term, s: Bindings, fuel: nat)
    requires PatternProblem(t1, t2, s) && fuel > Height(t1)
    ensures Run(fuel, order, path, t1, t2, s) != OutOfFuel
    ensures Run(fuel, order, path, t1, t2, s).Unified? ==>
              var r := Run(fuel, order, path, t1, t2, s).bindings;
              Extends(r, s) && forall theta :: Satisfies(theta, r) <==> Solves(theta, s, t1, t2)
    ensures (exists theta :: Solves(theta, s, t1, t2)) <==>
              Run(fuel, order, path, t1, t2, s).Unified? && Solvable(s)
  {
    var out := PatternRun(fuel, order, path, t1, t2, s, Vars(t2));
    if out.Unified? {
      forall theta { Exact(fuel, order, path, t1, t2, s, theta); }
      if Solvable(s) {
        var theta :| Satisfies(theta, out.bindings);
        assert Solves(theta, s, t1, t2);
      }
    } else {
      NoneMeansUnsolvable(fuel, order, path, t1, t2, s);
    }
  }

  lemma EmptySolves(theta: Bindings, t1: Term, t2: Term)
    ensures Solves(theta, map[], t1, t2) <==> Apply(theta, t1) == Apply(theta, t2)
  {
  }

  /** From the empty substitution: the call decides whether the terms have a unifier, and its answer has all of them. */
  lemma PatternFromEmpty(order: KeyOrder, path: seq<nat>, t1: Term, t2: Term, fuel: nat) returns (out: Outcome)
    requires Linear(t1) && Vars(t1) !! Vars(t2) && fuel > Height(t1)
    ensures out == Run(fuel, order, path, t1, t2, map[]) && out != OutOfFuel
    ensures out.Unified? <==> exists theta :: Apply(theta, t1) == Apply(theta, t2)
    ensures out.Unified? ==> forall theta :: Satisfies(theta, out.bindings) <==> Apply(theta, t1) == Apply(theta, t2)
  {
    out := Run(fuel, order, path, t1, t2, map[]);
    PatternExact(order, path, t1, t2, map[], fuel);
    assert Satisfies(map[], map[]);
    if out.Unified? {
      var theta :| Solves(theta, map[], t1, t2);
      assert exists e :: Apply(e, t1) == Apply(e, t2) by {
        assert Apply(theta, t1) == Apply(theta, t2);
      }
      forall theta ensures Satisfies(theta, out.bindings) <==> Apply(theta, t1) == Apply(theta, t2) {
        EmptySolves(theta, t1, t2);
      }
    } else {
      forall theta ensures Apply(theta, t1) != Apply(theta, t2) {
        assert !Solves(theta, map[], t1, t2);
        EmptySolves(theta, t1, t2);
      }
    }
  }
}
