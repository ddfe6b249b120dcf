/**
 * Unification with one ground side under ground-valued bindings: the way query
 * calls the unifier (inference/unification.py:155-180). It always terminates
 * and finds the least matcher, in whatever order the keys are visited.
 */
module Matching {
  import opened Terms
  import opened Unification

  ghost predicate OneSideGround(t1: Term, t2: Term) {
    Ground(t1) || Ground(t2)
  }

  /** e extends s and makes the two terms equal in one application. */
  ghost predicate Matches(e: Bindings, s: Bindings, t1: Term, t2: Term) {
    Extends(e, s) && Apply(e, t1) == Apply(e, t2)
  }

  lemma GroundFixed(s: Bindings, t: Term)
    requires Ground(t)
    ensures Apply(s, t) == t
  {
    ApplyUntouched(s, t);
  }

  lemma GroundKids(t: Term, keys: seq<string>)
    requires Ground(t) && Visits(keys, t)
    ensures forall j :: 0 <= j < |Kids(t, keys)| ==> Ground(Kids(t, keys)[j])
    ensures forall j :: 0 <= j < |Kids(t, keys)| ==> Height(Kids(t, keys)[j]) < Height(t)
  {
    forall j, x | 0 <= j < |Kids(t, keys)| ensures !Occurs(x, Kids(t, keys)[j]) {
      KidOccurs(x, t, keys);
    }
  }

  lemma AppliedIsOpen(s: Bindings, t: Term, x: string)
    requires GroundValued(s) && x in s
    ensures !Occurs(x, Apply(s, t))
  {
    ApplyOccurs(s, t, x);
  }

  /** Ground-valued extension of ground-valued bindings solves them, and conversely. */
  lemma ExtensionSolves(e: Bindings, s: Bindings)
    requires GroundValued(s)
    ensures Extends(e, s) <==> Satisfies(e, s)
  {
    forall x | x in s ensures Apply(e, s[x]) == s[x] { GroundFixed(e, s[x]); }
    if Satisfies(e, s) {
      forall x | x in s ensures x in e && e[x] == s[x] {
        assert Apply(e, Var(x)) == s[x];
        assert !Occurs(x, s[x]);
      }
    }
  }

  lemma GroundBind(t1: Term, t2: Term, s: Bindings)
    requires GroundValued(s) && OneSideGround(t1, t2)
    ensures var a, b := Apply(s, t1), Apply(s, t2);
            && (a.Var? && a != b ==> a.name !in s && Ground(b))
            && (b.Var? && a != b ==> b.name !in s && Ground(a))
  {
    var a, b := Apply(s, t1), Apply(s, t2);
    if Ground(t1) { GroundFixed(s, t1); }
    if Ground(t2) { GroundFixed(s, t2); }
    if a.Var? {
      assert Occurs(a.name, a);
      if a.name in s { AppliedIsOpen(s, t1, a.name); }
    }
    if b.Var? {
      assert Occurs(b.name, b);
      if b.name in s { AppliedIsOpen(s, t2, b.name); }
    }
  }

  /** Nothing is rebound, the bindings only grow and stay ground, and the height of the ground side suffices. */
  lemma {:induction false} GroundRun(fuel: nat, order: KeyOrder, path: seq<nat>, t1: Term, t2: Term, s: Bindings)
    requires GroundValued(s)
    requires (Ground(t1) && fuel > Height(t1)) || (Ground(t2) && fuel > Height(t2))
    ensures var out := Run(fuel, order, path, t1, t2, s);
            out != OutOfFuel && (out.Unified? ==> !out.overwrote && GroundValued(out.bindings))
    decreases fuel, 0
  {
    var a, b := Apply(s, t1), Apply(s, t2);
    if a == b {
    } else if a.Var? || b.Var? {
      GroundBind(t1, t2, s);
    } else if SameShape(a, b) {
      var keys := Visit(order, path, a);
      if Ground(t1) && fuel > Height(t1) {
        GroundFixed(s, t1);
        GroundKids(t1, keys);
      } else {
        GroundFixed(s, t2);
        GroundKids(t2, keys);
      }
      GroundRunAll(fuel - 1, order, path, Kids(a, keys), Kids(b, keys), 0, s);
    }
  }

  lemma {:induction false} GroundRunAll(fuel: nat, order: KeyOrder, path: seq<nat>,
                                        xs: seq<Term>, ys: seq<Term>, i: nat, s: Bindings)
    requires |xs| == |ys| && GroundValued(s)
    requires (forall j :: 0 <= j < |xs| ==> Ground(xs[j]) && fuel > Height(xs[j]))
          || (forall j :: 0 <= j < |ys| ==> Ground(ys[j]) && fuel > Height(ys[j]))
    ensures var out := RunAll(fuel, order, path, xs, ys, i, s);
            out != OutOfFuel && (out.Unified? ==> !out.overwrote && GroundValued(out.bindings))
    decreases fuel, |xs| - i + 1
  {
    if i < |xs| {
      GroundRun(fuel, order, path + [i], xs[i], ys[i], s);
      match Run(fuel, order, path + [i], xs[i], ys[i], s)
      case Unified(s', _) => GroundRunAll(fuel, order, path, xs, ys, i + 1, s');
      case _ =>
    }
  }

  /**
   * The unifier decides matching: it terminates; it succeeds exactly when some
   * extension of s matches; and then its result is the least such extension.
   */
  lemma LeastMatcher(order: KeyOrder, path: seq<nat>, t1: Term, t2: Term, s: Bindings, fuel: nat)
    requires GroundValued(s) && OneSideGround(t1, t2)
    requires fuel > Height(t1) + Height(t2)
    ensures Run(fuel, order, path, t1, t2, s) != OutOfFuel
    ensures Run(fuel, order, path, t1, t2, s).Unified? <==> exists e :: Matches(e, s, t1, t2)
    ensures Run(fuel, order, path, t1, t2, s).Unified? ==>
              var r := Run(fuel, order, path, t1, t2, s).bindings;
              && Matches(r, s, t1, t2) && GroundValued(r)
              && forall e :: Matches(e, s, t1, t2) ==> Extends(e, r)
  {
    GroundRun(fuel, order, path, t1, t2, s);
    var out := Run(fuel, order, path, t1, t2, s);
    if out.Unified? {
      var r := out.bindings;
      Sound(fuel, order, path, t1, t2, s);
      ExtensionSolves(r, r);
      assert Solves(r, s, t1, t2);
      ExtensionSolves(r, s);
      assert Matches(r, s, t1, t2);
    }
    forall e | Matches(e, s, t1, t2) ensures out.Unified? && Extends(e, out.bindings) {
      ExtensionSolves(e, s);
      SolvableSucceeds(order, path, t1, t2, s, e);
      ExtensionSolves(e, out.bindings);
    }
  }

  /** The answer does not depend on the order in which dictionary keys are visited. */
  lemma MatchingIgnoresKeyOrder(order: KeyOrder, order': KeyOrder, path: seq<nat>, path': seq<nat>,
                                t1: Term, t2: Term, s: Bindings, fuel: nat)
    requires GroundValued(s) && OneSideGround(t1, t2)
    requires fuel > Height(t1) + Height(t2)
    ensures Answer(Run(fuel, order, path, t1, t2, s)) == Answer(Run(fuel, order', path', t1, t2, s))
  {
    LeastMatcher(order, path, t1, t2, s, fuel);
    LeastMatcher(order', path', t1, t2, s, fuel);
    var out, out' := Run(fuel, order, path, t1, t2, s), Run(fuel, order', path', t1, t2, s);
    if out.Unified? {
      assert Extends(out.bindings, out'.bindings) && Extends(out'.bindings, out.bindings);
      assert out.bindings == out'.bindings;
    }
  }
}
