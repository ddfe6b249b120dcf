/**
 * The unifier (inference/unification.py). It need not terminate, so its
 * specification Run counts down fuel: a result other than OutOfFuel is the
 * result of the source's recursion, whatever the fuel (MoreFuel).
 */
module Unification {
  import opened Wrappers
  import opened Sequences
  import opened Terms

  // ----- the order in which a dictionary's keys are visited -----

  ghost predicate Enumerates(s: seq<string>, ks: set<string>) {
    && NoDuplicates(s)
    && (forall k :: k in ks <==> k in s)
  }

  ghost function SomeOrder(ks: set<string>): (s: seq<string>)
    ensures Enumerates(s, ks)
  {
    if ks == {} then [] else
      var k :| k in ks;
      [k] + SomeOrder(ks - {k})
  }

  /**
   * Dictionaries compare equal whatever their insertion order, yet the loop over
   * the keys follows it. A KeyOrder answers for every call, named by its path
   * from the outermost one, in which order that call visits the keys.
   */
  type KeyOrder = f: (seq<nat>, set<string>) -> seq<string> |
    forall path: seq<nat>, ks: set<string> :: Enumerates(f(path, ks), ks)
    ghost witness (path: seq<nat>, ks: set<string>) => SomeOrder(ks)

  // ----- specification -----

  /** overwrote: some step replaced a binding by a different one, other than a binding of a variable to itself. */
  datatype Outcome = OutOfFuel | Clash | Unified(bindings: Bindings, overwrote: bool)

  function Bind(s: Bindings, x: string, t: Term): Outcome {
    if Occurs(x, t) then Clash else Unified(s[x := t], x in s && s[x] != t && s[x] != Var(x))
  }

  /** Two dictionaries with the same keys, or two lists of the same length. */
  predicate SameShape(a: Term, b: Term) {
    || (a.Dict? && b.Dict? && a.entries.Keys == b.entries.Keys)
    || (a.List? && b.List? && |a.items| == |b.items|)
  }

  function Visit(order: KeyOrder, path: seq<nat>, t: Term): seq<string> {
    if t.Dict? then order(path, t.entries.Keys) else []
  }

  ghost predicate Visits(keys: seq<string>, t: Term) {
    (t.Dict? && Enumerates(keys, t.entries.Keys)) || t.List?
  }

  /** The children of a dictionary in the order of keys, or of a list. */
  function Kids(t: Term, keys: seq<string>): (ts: seq<Term>)
    requires Visits(keys, t)
  {
    if t.List? then t.items else seq(|keys|, i requires 0 <= i < |keys| => t.entries[keys[i]])
  }

  /** The outcome of the remaining pairs, after a step that did or did not overwrite. */
  function After(overwrote: bool, rest: Outcome): Outcome {
    match rest
    case Unified(r, o) => Unified(r, overwrote || o)
    case other => other
  }

  function Run(fuel: nat, order: KeyOrder, path: seq<nat>, t1: Term, t2: Term, s: Bindings): Outcome
    decreases fuel, 1
  {
    if fuel == 0 then OutOfFuel else Decide(fuel, order, path, Apply(s, t1), Apply(s, t2), s)
  }

  /** The case analysis, once the current bindings have been applied. */
  function Decide(fuel: nat, order: KeyOrder, path: seq<nat>, a: Term, b: Term, s: Bindings): Outcome
    requires fuel > 0
    decreases fuel, 0
  {
    if a == b then Unified(s, false)
    else if a.Var? then Bind(s, a.name, b)
    else if b.Var? then Bind(s, b.name, a)
    else if SameShape(a, b) then
      var keys := Visit(order, path, a);
      RunAll(fuel - 1, order, path, Kids(a, keys), Kids(b, keys), 0, s)
    else Clash
  }

  /** The pairs from index i on, each under the bindings the previous ones left. */
  function RunAll(fuel: nat, order: KeyOrder, path: seq<nat>,
                  xs: seq<Term>, ys: seq<Term>, i: nat, s: Bindings): Outcome
    requires |xs| == |ys|
    decreases fuel, |xs| - i + 2
  {
    if i >= |xs| then Unified(s, false) else
    match Run(fuel, order, path + [i], xs[i], ys[i], s)
    case Unified(s', o) => After(o, RunAll(fuel, order, path, xs, ys, i + 1, s'))
    case other => other
  }

  function Answer(o: Outcome): Option<Bindings> {
    if o.Unified? then Some(o.bindings) else None
  }

  ghost predicate Terminates(order: KeyOrder, path: seq<nat>, t1: Term, t2: Term, s: Bindings) {
    exists fuel :: Run(fuel, order, path, t1, t2, s) != OutOfFuel
  }

  // ----- implementation -----

  /** The source's recursion. The ghost fuel only says that the call terminates. */
  method Unify(t1: Term, t2: Term, s: Bindings, order: KeyOrder, path: seq<nat>, ghost fuel: nat)
    returns (result: Option<Bindings>)
    requires Run(fuel, order, path, t1, t2, s) != OutOfFuel
    ensures result == Answer(Run(fuel, order, path, t1, t2, s))
    decreases fuel, 0
  {
    var a := Apply(s, t1);
    var b := Apply(s, t2);
    if a == b {
      return Some(s);
    }
    if a.Var? {
      if Occurs(a.name, b) { return None; }
      return Some(s[a.name := b]);
    }
    if b.Var? {
      if Occurs(b.name, a) { return None; }
      return Some(s[b.name := a]);
    }
    if a.Dict? && b.Dict? {
      if a.entries.Keys != b.entries.Keys { return None; }
      var keys := order(path, a.entries.Keys);
      result := UnifyAll(Kids(a, keys), Kids(b, keys), s, order, path, fuel - 1);
      return;
    }
    if a.List? && b.List? {
      if |a.items| != |b.items| { return None; }
      result := UnifyAll(a.items, b.items, s, order, path, fuel - 1);
      return;
    }
    return None;
  }

  /** The loop shared by dictionaries (values in key order) and lists (zip). */
  method UnifyAll(xs: seq<Term>, ys: seq<Term>, s: Bindings, order: KeyOrder, path: seq<nat>, ghost fuel: nat)
    returns (result: Option<Bindings>)
    requires |xs| == |ys|
    requires RunAll(fuel, order, path, xs, ys, 0, s) != OutOfFuel
    ensures result == Answer(RunAll(fuel, order, path, xs, ys, 0, s))
    decreases fuel, 1
  {
    var cur := s;
    for i := 0 to |xs|
      invariant RunAll(fuel, order, path, xs, ys, i, cur) != OutOfFuel
      invariant Answer(RunAll(fuel, order, path, xs, ys, i, cur)) == Answer(RunAll(fuel, order, path, xs, ys, 0, s))
    {
      var next := Unify(xs[i], ys[i], cur, order, path + [i], fuel);
      if next == None { return None; }
      cur := next.value;
    }
    return Some(cur);
  }

  // ----- one result per call -----

  lemma {:induction false} MoreFuel(fuel: nat, more: nat, order: KeyOrder, path: seq<nat>,
                                    t1: Term, t2: Term, s: Bindings)
    requires fuel <= more
    requires Run(fuel, order, path, t1, t2, s) != OutOfFuel
    ensures Run(more, order, path, t1, t2, s) == Run(fuel, order, path, t1, t2, s)
    decreases fuel, 0
  {
    var a, b := Apply(s, t1), Apply(s, t2);
    if a != b && !a.Var? && !b.Var? && SameShape(a, b) {
      var keys := Visit(order, path, a);
      MoreFuelAll(fuel - 1, more - 1, order, path, Kids(a, keys), Kids(b, keys), 0, s);
    }
  }

  lemma {:induction false} MoreFuelAll(fuel: nat, more: nat, order: KeyOrder, path: seq<nat>,
                                       xs: seq<Term>, ys: seq<Term>, i: nat, s: Bindings)
    requires fuel <= more && |xs| == |ys|
    requires RunAll(fuel, order, path, xs, ys, i, s) != OutOfFuel
    ensures RunAll(more, order, path, xs, ys, i, s) == RunAll(fuel, order, path, xs, ys, i, s)
    decreases fuel, |xs| - i + 1
  {
    if i < |xs| {
      MoreFuel(fuel, more, order, path + [i], xs[i], ys[i], s);
      match Run(fuel, order, path + [i], xs[i], ys[i], s)
      case Unified(s', _) => MoreFuelAll(fuel, more, order, path, xs, ys, i + 1, s');
      case _ =>
    }
  }

  /** Two terminating measurements of one call agree. */
  lemma Deterministic(f: nat, g: nat, order: KeyOrder, path: seq<nat>, t1: Term, t2: Term, s: Bindings)
    requires Run(f, order, path, t1, t2, s) != OutOfFuel
    requires Run(g, order, path, t1, t2, s) != OutOfFuel
    ensures Run(f, order, path, t1, t2, s) == Run(g, order, path, t1, t2, s)
  {
    if f <= g {
      MoreFuel(f, g, order, path, t1, t2, s);
    } else {
      MoreFuel(g, f, order, path, t1, t2, s);
    }
  }

  // ----- children -----

  ghost predicate AllEqual(theta: Bindings, xs: seq<Term>, ys: seq<Term>, i: nat)
    requires |xs| == |ys|
  {
    forall j :: i <= j < |xs| ==> Apply(theta, xs[j]) == Apply(theta, ys[j])
  }

  lemma ItemsEqual(theta: Bindings, xs: seq<Term>, ys: seq<Term>)
    requires |xs| == |ys|
    ensures Apply(theta, List(xs)) == Apply(theta, List(ys)) <==> AllEqual(theta, xs, ys, 0)
  {
    var u, v := Apply(theta, List(xs)).items, Apply(theta, List(ys)).items;
    assert forall j :: 0 <= j < |xs| ==> u[j] == Apply(theta, xs[j]) && v[j] == Apply(theta, ys[j]);
    assert AllEqual(theta, xs, ys, 0) ==> u == v;
  }

  lemma DictsEqual(theta: Bindings, m: map<string, Term>, n: map<string, Term>)
    requires m.Keys == n.Keys
    ensures Apply(theta, Dict(m)) == Apply(theta, Dict(n))
       <==> forall k :: k in m ==> Apply(theta, m[k]) == Apply(theta, n[k])
  {
    var u, v := Apply(theta, Dict(m)).entries, Apply(theta, Dict(n)).entries;
    assert u.Keys == m.Keys == v.Keys;
    forall k | k in m ensures u[k] == Apply(theta, m[k]) && v[k] == Apply(theta, n[k]) {}
    assert (forall k :: k in m ==> u[k] == v[k]) ==> u == v;
  }

  lemma EntriesEqual(theta: Bindings, m: map<string, Term>, n: map<string, Term>, keys: seq<string>)
    requires m.Keys == n.Keys && Enumerates(keys, m.Keys)
    ensures Apply(theta, Dict(m)) == Apply(theta, Dict(n))
       <==> AllEqual(theta, Kids(Dict(m), keys), Kids(Dict(n), keys), 0)
  {
    DictsEqual(theta, m, n);
    var xs, ys := Kids(Dict(m), keys), Kids(Dict(n), keys);
    forall j | 0 <= j < |keys| ensures keys[j] in m && xs[j] == m[keys[j]] && ys[j] == n[keys[j]] {}
    forall k | k in m ensures exists j :: 0 <= j < |keys| && keys[j] == k {}
  }

  lemma KidsEqual(theta: Bindings, a: Term, b: Term, keys: seq<string>)
    requires SameShape(a, b) && Visits(keys, a)
    ensures Apply(theta, a) == Apply(theta, b) <==> AllEqual(theta, Kids(a, keys), Kids(b, keys), 0)
  {
    if a.List? {
      ItemsEqual(theta, a.items, b.items);
    } else {
      EntriesEqual(theta, a.entries, b.entries, keys);
    }
  }

  lemma DifferentShapes(theta: Bindings, a: Term, b: Term)
    requires !a.Var? && !b.Var? && a != b && !SameShape(a, b)
    ensures Apply(theta, a) != Apply(theta, b)
  {
    var u, v := Apply(theta, a), Apply(theta, b);
    if a.Dict? && b.Dict? {
      assert u.entries.Keys == a.entries.Keys && v.entries.Keys == b.entries.Keys;
    } else if a.List? && b.List? {
      assert |u.items| != |v.items|;
    }
  }

  lemma KidsLower(t: Term, keys: seq<string>)
    requires Visits(keys, t)
    ensures forall j :: 0 <= j < |Kids(t, keys)| ==> Height(Kids(t, keys)[j]) < Height(t)
  {
  }

  lemma KidHeights(theta: Bindings, t: Term, keys: seq<string>)
    requires Visits(keys, t)
    ensures forall j :: 0 <= j < |Kids(t, keys)| ==> Height(Apply(theta, Kids(t, keys)[j])) < Height(Apply(theta, t))
  {
    var xs, u := Kids(t, keys), Apply(theta, t);
    forall j | 0 <= j < |xs| ensures Height(Apply(theta, xs[j])) < Height(u) {
      if t.List? {
        assert u.items[j] == Apply(theta, xs[j]);
      } else {
        assert u.entries[keys[j]] == Apply(theta, xs[j]);
      }
    }
  }

  lemma KidOccurs(x: string, t: Term, keys: seq<string>)
    requires Visits(keys, t)
    ensures Occurs(x, t) <==> exists j :: 0 <= j < |Kids(t, keys)| && Occurs(x, Kids(t, keys)[j])
  {
    var ts := Kids(t, keys);
    if t.Dict? {
      forall j | 0 <= j < |ts| ensures ts[j] == t.entries[keys[j]] && keys[j] in t.entries {}
      if Occurs(x, t) {
        var k :| k in t.entries && Occurs(x, t.entries[k]);
        var j :| 0 <= j < |keys| && keys[j] == k;
        assert Occurs(x, ts[j]);
      }
    }
  }

  /** On two terms whose instances differ but have one shape, a run is the run over the instances' children. */
  lemma RunsOnKids(fuel: nat, order: KeyOrder, path: seq<nat>, t1: Term, t2: Term, s: Bindings)
    requires var a, b := Apply(s, t1), Apply(s, t2); fuel > 0 && SameShape(a, b) && a != b
    ensures var a, b := Apply(s, t1), Apply(s, t2);
            var keys := Visit(order, path, a);
            Run(fuel, order, path, t1, t2, s) == RunAll(fuel - 1, order, path, Kids(a, keys), Kids(b, keys), 0, s)
  {
  }

  // ----- completeness -----

  lemma SolutionBinds(theta: Bindings, s: Bindings, x: string, t: Term)
    requires Satisfies(theta, s) && t != Var(x)
    requires Apply(theta, Var(x)) == Apply(theta, t)
    ensures Bind(s, x, t).Unified? && Satisfies(theta, s[x := t])
  {
    if Occurs(x, t) {
      OccursHeight(theta, x, t);
    }
  }

  /** A solution of two composite terms has them of one shape and solves their children, which are lower. */
  lemma KidsSolved(theta: Bindings, a: Term, b: Term, keys: seq<string>)
    requires !a.Var? && !b.Var? && a != b && Apply(theta, a) == Apply(theta, b) && (SameShape(a, b) ==> Visits(keys, a))
    ensures SameShape(a, b) && AllEqual(theta, Kids(a, keys), Kids(b, keys), 0)
    ensures forall j :: 0 <= j < |Kids(a, keys)| ==> Height(Apply(theta, Kids(a, keys)[j])) < Height(Apply(theta, a))
  {
    if !SameShape(a, b) {
      DifferentShapes(theta, a, b);
    }
    KidsEqual(theta, a, b, keys);
    KidHeights(theta, a, keys);
  }

  /**
   * If theta solves the problem, the call terminates within the height of the
   * common instance, does not fail, and theta solves its result.
   */
  lemma {:induction false} Complete(fuel: nat, order: KeyOrder, path: seq<nat>,
                                    t1: Term, t2: Term, s: Bindings, theta: Bindings)
    requires Solves(theta, s, t1, t2)
    requires fuel > Height(Apply(theta, t1))
    ensures Run(fuel, order, path, t1, t2, s).Unified?
    ensures Satisfies(theta, Run(fuel, order, path, t1, t2, s).bindings)
    decreases fuel, 0
  {
    var a, b := Apply(s, t1), Apply(s, t2);
    SolutionAbsorbs(theta, s, t1);
    SolutionAbsorbs(theta, s, t2);
    if a == b {
    } else if a.Var? {
      SolutionBinds(theta, s, a.name, b);
    } else if b.Var? {
      SolutionBinds(theta, s, b.name, a);
    } else {
      KidsSolved(theta, a, b, Visit(order, path, a));
      var keys := Visit(order, path, a);
      CompleteAll(fuel - 1, order, path, Kids(a, keys), Kids(b, keys), 0, s, theta);
    }
  }

  lemma {:induction false} CompleteAll(fuel: nat, order: KeyOrder, path: seq<nat>,
                                       xs: seq<Term>, ys: seq<Term>, i: nat, s: Bindings, theta: Bindings)
    requires |xs| == |ys| && Satisfies(theta, s) && AllEqual(theta, xs, ys, 0)
    requires forall j :: 0 <= j < |xs| ==> fuel > Height(Apply(theta, xs[j]))
    ensures RunAll(fuel, order, path, xs, ys, i, s).Unified?
    ensures Satisfies(theta, RunAll(fuel, order, path, xs, ys, i, s).bindings)
    decreases fuel, |xs| - i + 1
  {
    if i < |xs| {
      Complete(fuel, order, path + [i], xs[i], ys[i], s, theta);
      CompleteAll(fuel, order, path, xs, ys, i + 1, Run(fuel, order, path + [i], xs[i], ys[i], s).bindings, theta);
    }
  }

  /** A solvable problem terminates successfully under every key order, and keeps every solution. */
  lemma SolvableSucceeds(order: KeyOrder, path: seq<nat>, t1: Term, t2: Term, s: Bindings, theta: Bindings)
    requires Solves(theta, s, t1, t2)
    ensures Terminates(order, path, t1, t2, s)
    ensures forall fuel ::
              var out := Run(fuel, order, path, t1, t2, s);
              out != OutOfFuel ==> out.Unified? && Satisfies(theta, out.bindings)
  {
    var enough := Height(Apply(theta, t1)) + 1;
    Complete(enough, order, path, t1, t2, s, theta);
    forall fuel | Run(fuel, order, path, t1, t2, s) != OutOfFuel
      ensures Run(fuel, order, path, t1, t2, s) == Run(enough, order, path, t1, t2, s)
    {
      Deterministic(fuel, enough, order, path, t1, t2, s);
    }
  }

  /** A None answer is a proof that no solution of s unifies the two terms. */
  lemma NoneMeansUnsolvable(fuel: nat, order: KeyOrder, path: seq<nat>, t1: Term, t2: Term, s: Bindings)
    requires Run(fuel, order, path, t1, t2, s) == Clash
    ensures !exists theta :: Solves(theta, s, t1, t2)
  {
    forall theta | Solves(theta, s, t1, t2) ensures false {
      SolvableSucceeds(order, path, t1, t2, s, theta);
    }
  }

  // ----- exactness -----

  /** Without overwriting, only solutions of the problem solve the result. */
  lemma {:induction false} Sound(fuel: nat, order: KeyOrder, path: seq<nat>, t1: Term, t2: Term, s: Bindings)
    requires var out := Run(fuel, order, path, t1, t2, s); out.Unified? && !out.overwrote
    ensures var r := Run(fuel, order, path, t1, t2, s).bindings;
            forall theta :: Satisfies(theta, r) ==> Solves(theta, s, t1, t2)
    decreases fuel, 0
  {
    var a, b := Apply(s, t1), Apply(s, t2);
    var r := Run(fuel, order, path, t1, t2, s).bindings;
    if a != b && !a.Var? && !b.Var? {
      var keys := Visit(order, path, a);
      SoundAll(fuel - 1, order, path, Kids(a, keys), Kids(b, keys), 0, s);
    }
    forall theta | Satisfies(theta, r) ensures Solves(theta, s, t1, t2) {
      SolutionAbsorbs(theta, s, t1);
      SolutionAbsorbs(theta, s, t2);
      if a == b {
      } else if a.Var? || b.Var? {
        var x := if a.Var? then a.name else b.name;
        assert x in r && forall y :: y in s && y != x ==> y in r && r[y] == s[y];
      } else {
        KidsEqual(theta, a, b, Visit(order, path, a));
      }
    }
  }

  lemma {:induction false} SoundAll(fuel: nat, order: KeyOrder, path: seq<nat>,
                                    xs: seq<Term>, ys: seq<Term>, i: nat, s: Bindings)
    requires |xs| == |ys|
    requires var out := RunAll(fuel, order, path, xs, ys, i, s); out.Unified? && !out.overwrote
    ensures var r := RunAll(fuel, order, path, xs, ys, i, s).bindings;
            forall theta :: Satisfies(theta, r) ==> Satisfies(theta, s) && AllEqual(theta, xs, ys, i)
    decreases fuel, |xs| - i + 1
  {
    if i < |xs| {
      var s' := Run(fuel, order, path + [i], xs[i], ys[i], s).bindings;
      Sound(fuel, order, path + [i], xs[i], ys[i], s);
      SoundAll(fuel, order, path, xs, ys, i + 1, s');
    }
  }

  /** A successful run that overwrites nothing has exactly the problem's solutions. */
  lemma Exact(fuel: nat, order: KeyOrder, path: seq<nat>, t1: Term, t2: Term, s: Bindings, theta: Bindings)
    requires var out := Run(fuel, order, path, t1, t2, s); out.Unified? && !out.overwrote
    ensures Satisfies(theta, Run(fuel, order, path, t1, t2, s).bindings) <==> Solves(theta, s, t1, t2)
  {
    Sound(fuel, order, path, t1, t2, s);
    if Solves(theta, s, t1, t2) {
      SolvableSucceeds(order, path, t1, t2, s, theta);
    }
  }

  // ----- exactness from the answer alone -----

  ghost predicate LeadsTo(s: Bindings, w: string, v: string) {
    w in s && s[w] == Var(v)
  }

  /** Some binding leads to a variable that is itself bound to something else. */
  ghost predicate Stale(s: Bindings) {
    exists w, v :: LeadsTo(s, w, v) && v in s && s[v] != Var(v)
  }

  /** A step that overwrites leaves a stale binding behind, and no step removes the last one. */
  lemma BindLeavesStale(s: Bindings, t: Term, x: string, b: Term)
    requires Apply(s, t) == Var(x) && b != Var(x)
    ensures Stale(s) || (x in s && s[x] != Var(x)) ==> Stale(s[x := b])
  {
    var r := s[x := b];
    if x in s && s[x] != Var(x) {
      assert LeadsTo(s, t.name, x) && t.name != x;
      assert LeadsTo(r, t.name, x) && r[x] != Var(x);
    } else if Stale(s) {
      var w, v :| LeadsTo(s, w, v) && v in s && s[v] != Var(v);
      assert LeadsTo(r, w, v) && r[v] != Var(v);
    }
  }

  lemma {:induction false} StaleStays(fuel: nat, order: KeyOrder, path: seq<nat>, t1: Term, t2: Term, s: Bindings)
    requires Run(fuel, order, path, t1, t2, s).Unified?
    ensures var out := Run(fuel, order, path, t1, t2, s); out.overwrote || Stale(s) ==> Stale(out.bindings)
    decreases fuel, 0
  {
    var a, b := Apply(s, t1), Apply(s, t2);
    if a == b {
    } else if a.Var? {
      BindLeavesStale(s, t1, a.name, b);
    } else if b.Var? {
      BindLeavesStale(s, t2, b.name, a);
    } else {
      var keys := Visit(order, path, a);
      StaleStaysAll(fuel - 1, order, path, Kids(a, keys), Kids(b, keys), 0, s);
    }
  }

  lemma {:induction false} StaleStaysAll(fuel: nat, order: KeyOrder, path: seq<nat>,
                                         xs: seq<Term>, ys: seq<Term>, i: nat, s: Bindings)
    requires |xs| == |ys| && RunAll(fuel, order, path, xs, ys, i, s).Unified?
    ensures var out := RunAll(fuel, order, path, xs, ys, i, s); out.overwrote || Stale(s) ==> Stale(out.bindings)
    decreases fuel, |xs| - i + 1
  {
    if i < |xs| {
      StaleStays(fuel, order, path + [i], xs[i], ys[i], s);
      StaleStaysAll(fuel, order, path, xs, ys, i + 1, Run(fuel, order, path + [i], xs[i], ys[i], s).bindings);
    }
  }

  /** An answer without a stale binding has exactly the problem's solutions: a condition on the returned value alone. */
  lemma ExactUnlessStale(fuel: nat, order: KeyOrder, path: seq<nat>, t1: Term, t2: Term, s: Bindings, theta: Bindings)
    requires var out := Run(fuel, order, path, t1, t2, s); out.Unified? && !Stale(out.bindings)
    ensures Satisfies(theta, Run(fuel, order, path, t1, t2, s).bindings) <==> Solves(theta, s, t1, t2)
  {
    StaleStays(fuel, order, path, t1, t2, s);
    Exact(fuel, order, path, t1, t2, s, theta);
  }

  lemma IdempotentIsNotStale(r: Bindings)
    requires Idempotent(r)
    ensures !Stale(r)
  {
    forall w, v | LeadsTo(r, w, v) && v in r ensures r[v] == Var(v) {
      assert Apply(r, Apply(r, Var(w))) == Apply(r, Var(w));
    }
  }

  /**
   * Every successful call: its answer keeps the starting bindings and makes the
   * terms equal in one application exactly when it is idempotent.
   */
  lemma OnePassIffIdempotent(fuel: nat, order: KeyOrder, path: seq<nat>, t1: Term, t2: Term, s: Bindings)
    requires Run(fuel, order, path, t1, t2, s).Unified?
    ensures var r := Run(fuel, order, path, t1, t2, s).bindings;
            Solves(r, s, t1, t2) <==> Idempotent(r)
  {
    var r := Run(fuel, order, path, t1, t2, s).bindings;
    IdempotentIffSelfSolution(r);
    if Idempotent(r) {
      IdempotentIsNotStale(r);
      ExactUnlessStale(fuel, order, path, t1, t2, s, r);
    } else if Solves(r, s, t1, t2) {
      SolvableSucceeds(order, path, t1, t2, s, r);
    }
  }

  /** An idempotent answer has exactly the problem's solutions, so it is a most general unifier. */
  lemma IdempotentIsExact(fuel: nat, order: KeyOrder, path: seq<nat>, t1: Term, t2: Term, s: Bindings, theta: Bindings)
    requires var out := Run(fuel, order, path, t1, t2, s); out.Unified? && Idempotent(out.bindings)
    ensures Satisfies(theta, Run(fuel, order, path, t1, t2, s).bindings) <==> Solves(theta, s, t1, t2)
  {
    IdempotentIsNotStale(Run(fuel, order, path, t1, t2, s).bindings);
    ExactUnlessStale(fuel, order, path, t1, t2, s, theta);
  }
}
