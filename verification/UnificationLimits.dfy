/**
 * Inputs on which the unifier (inference/unification.py:46-107) falls short of
 * the textbook algorithm: it succeeds without a unifier, its answer needs a
 * second application, and it never ends. In the first the second term is linear
 * and disjoint from the first, so a linear second term is not enough.
 */
module UnificationLimits {
  import opened Terms
  import opened Unification

  const X := Var("?X")
  const Y := Var("?Y")
  const V := Var("?V")
  const W := Var("?W")
  const Z := Var("?Z")
  const A := Atom(Text("a"))
  const B := Atom(Text("b"))

  /** Rebinding ?Y loses an equation: the call succeeds on terms that have no unifier. */
  lemma SucceedsOnUnsolvable(order: KeyOrder, path: seq<nat>)
    ensures Run(2, order, path, List([X, X, X]), List([Y, A, B]), map[])
         == Unified(map["?X" := Y, "?Y" := B], true)
    ensures !exists theta :: Apply(theta, List([X, X, X])) == Apply(theta, List([Y, A, B]))
  {
    var xs, ys := [X, X, X], [Y, A, B];
    ApplyEmpty(List(xs));
    ApplyEmpty(List(ys));
    var s1: Bindings := map["?X" := Y];
    var s2: Bindings := map["?X" := Y, "?Y" := A];
    var s3: Bindings := map["?X" := Y, "?Y" := B];
    assert Run(1, order, path + [0], X, Y, map[]) == Unified(s1, false);
    assert Run(1, order, path + [1], X, A, s1) == Unified(s2, false);
    assert Run(1, order, path + [2], X, B, s2) == Unified(s3, true);
    assert RunAll(1, order, path, xs, ys, 3, s3) == Unified(s3, false);
    assert RunAll(1, order, path, xs, ys, 2, s2) == Unified(s3, true);
    assert RunAll(1, order, path, xs, ys, 1, s1) == Unified(s3, true);
    assert RunAll(1, order, path, xs, ys, 0, map[]) == Unified(s3, true);
    forall theta ensures Apply(theta, List(xs)) != Apply(theta, List(ys)) {
      ItemsEqual(theta, xs, ys);
      assert xs[1] == X && ys[1] == A && xs[2] == X && ys[2] == B;
    }
  }

  lemma AccidentSolved(theta: Bindings, r: Bindings)
    requires r == map["?X" := Y, "?Y" := W, "?Z" := W]
    ensures Satisfies(theta, r) <==> Apply(theta, List([X, X, X, Z])) == Apply(theta, List([Y, Z, W, W]))
  {
    var xs, ys := [X, X, X, Z], [Y, Z, W, W];
    ItemsEqual(theta, xs, ys);
    assert xs[0] == X && ys[0] == Y && xs[1] == X && ys[1] == Z && xs[2] == X && ys[2] == W && xs[3] == Z && ys[3] == W;
    assert "?X" in r && "?Y" in r && "?Z" in r;
  }

  /** A run that overwrites a binding, and whose answer is stale, can still have exactly the problem's solutions. */
  lemma ExactByAccident(order: KeyOrder, path: seq<nat>)
    ensures var r: Bindings := map["?X" := Y, "?Y" := W, "?Z" := W];
            && Run(2, order, path, List([X, X, X, Z]), List([Y, Z, W, W]), map[]) == Unified(r, true) && Stale(r)
            && forall theta ::
                 Satisfies(theta, r) <==> Apply(theta, List([X, X, X, Z])) == Apply(theta, List([Y, Z, W, W]))
  {
    var xs, ys := [X, X, X, Z], [Y, Z, W, W];
    ApplyEmpty(List(xs));
    ApplyEmpty(List(ys));
    var s1: Bindings := map["?X" := Y];
    var s2: Bindings := map["?X" := Y, "?Y" := Z];
    var s3: Bindings := map["?X" := Y, "?Y" := W];
    var r: Bindings := map["?X" := Y, "?Y" := W, "?Z" := W];
    assert Run(1, order, path + [0], X, Y, map[]) == Unified(s1, false);
    assert Run(1, order, path + [1], X, Z, s1) == Unified(s2, false);
    assert Run(1, order, path + [2], X, W, s2) == Unified(s3, true);
    assert Run(1, order, path + [3], Z, W, s3) == Unified(r, false);
    assert RunAll(1, order, path, xs, ys, 4, r) == Unified(r, false);
    assert RunAll(1, order, path, xs, ys, 3, s3) == Unified(r, false);
    assert RunAll(1, order, path, xs, ys, 2, s2) == Unified(r, true);
    assert RunAll(1, order, path, xs, ys, 1, s1) == Unified(r, true);
    assert RunAll(1, order, path, xs, ys, 0, map[]) == Unified(r, true);
    assert LeadsTo(r, "?X", "?Y");
    forall theta ensures Satisfies(theta, r) <==> Apply(theta, List(xs)) == Apply(theta, List(ys)) {
      AccidentSolved(theta, r);
    }
  }

  /** Without any rebinding, the bindings may still need a second application. */
  lemma NeedsSecondPass(order: KeyOrder, path: seq<nat>)
    ensures Run(2, order, path, List([X, Y]), List([Y, A]), map[]) == Unified(map["?X" := Y, "?Y" := A], false)
    ensures var r: Bindings := map["?X" := Y, "?Y" := A];
            Apply(r, List([X, Y])) != Apply(r, List([Y, A])) && !Idempotent(r)
  {
    var xs, ys := [X, Y], [Y, A];
    ApplyEmpty(List(xs));
    ApplyEmpty(List(ys));
    var s1: Bindings := map["?X" := Y];
    var s2: Bindings := map["?X" := Y, "?Y" := A];
    assert Run(1, order, path + [0], X, Y, map[]) == Unified(s1, false);
    assert Run(1, order, path + [1], Y, A, s1) == Unified(s2, false);
    assert RunAll(1, order, path, xs, ys, 2, s2) == Unified(s2, false);
    assert RunAll(1, order, path, xs, ys, 1, s1) == Unified(s2, false);
    ItemsEqual(s2, xs, ys);
    assert xs[0] == X && ys[0] == Y;
    assert Apply(s2, Apply(s2, X)) != Apply(s2, X);
  }

  lemma OccursInSingleton(x: string, t: Term)
    ensures Occurs(x, List([t])) <==> Occurs(x, t)
  {
    assert List([t]).items[0] == t;
  }

  /** The bindings that the diverging call builds: ?X and ?Y contain each other. */
  const CYCLIC: Bindings := map["?V" := X, "?X" := List([Y]), "?Y" := List([X])]

  lemma {:induction false} CyclicDiverges(fuel: nat, order: KeyOrder, path: seq<nat>)
    ensures Run(fuel, order, path, X, Y, CYCLIC) == OutOfFuel
    ensures Run(fuel, order, path, Y, X, CYCLIC) == OutOfFuel
  {
    if fuel > 0 {
      CyclicDiverges(fuel - 1, order, path + [0]);
      assert [X][0] != [Y][0];
      assert RunAll(fuel - 1, order, path, [X], [Y], 0, CYCLIC) == OutOfFuel;
      assert RunAll(fuel - 1, order, path, [Y], [X], 0, CYCLIC) == OutOfFuel;
    }
  }

  /** The occurs check looks at one term only, so a call can recurse for ever. */
  lemma NeverTerminates(order: KeyOrder, path: seq<nat>)
    ensures !Terminates(order, path, List([V, X, Y, X]), List([X, List([Y]), List([V]), Y]), map[])
  {
    var xs, ys := [V, X, Y, X], [X, List([Y]), List([V]), Y];
    ApplyEmpty(List(xs));
    ApplyEmpty(List(ys));
    var s1: Bindings := map["?V" := X];
    var s2: Bindings := map["?V" := X, "?X" := List([Y])];
    forall fuel: nat ensures Run(fuel, order, path, List(xs), List(ys), map[]) == OutOfFuel {
      if fuel > 1 {
        var f := fuel - 1;
        assert Run(f, order, path + [0], V, X, map[]) == Unified(s1, false);
        assert Apply(s1, List([Y])) == List([Y]);
        OccursInSingleton("?X", Y);
        OccursInSingleton("?Y", X);
        assert Run(f, order, path + [1], X, List([Y]), s1) == Unified(s2, false);
        assert Apply(s2, List([V])) == List([X]);
        assert Run(f, order, path + [2], Y, List([V]), s2) == Unified(CYCLIC, false);
        CyclicDiverges(f, order, path + [3]);
        assert RunAll(f, order, path, xs, ys, 3, CYCLIC) == OutOfFuel;
        assert RunAll(f, order, path, xs, ys, 2, s2) == OutOfFuel;
        assert RunAll(f, order, path, xs, ys, 1, s1) == OutOfFuel;
        assert RunAll(f, order, path, xs, ys, 0, map[]) == OutOfFuel;
      }
    }
  }
}
