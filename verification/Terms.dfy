/** Nested terms, bindings and one-pass application (inference/unification.py). */
module Terms {

  /** The values a term can hold that are neither variables, dictionaries nor lists. */
  datatype Scalar = Text(text: string) | Number(n: int) | Flag(flag: bool) | Null | Object(id: string)

  /** A string that starts with '?' is a variable; every other string is a Text atom. */
  datatype Term =
    | Var(name: string)
    | Atom(value: Scalar)
    | Dict(entries: map<string, Term>)
    | List(items: seq<Term>)

  type Bindings = map<string, Term>

  /** One pass: the value of a bound variable is not visited again. */
  function Apply(s: Bindings, t: Term): Term
    decreases t
  {
    match t
    case Var(x) => if x in s then s[x] else t
    case Atom(_) => t
    case Dict(m) => Dict(map k | k in m :: Apply(s, m[k]))
    case List(l) => List(seq(|l|, i requires 0 <= i < |l| => Apply(s, l[i])))
  }

  predicate Occurs(x: string, t: Term)
  {
    match t
    case Var(y) => x == y
    case Atom(_) => false
    case Dict(m) => exists k :: k in m && Occurs(x, m[k])
    case List(l) => exists i :: 0 <= i < |l| && Occurs(x, l[i])
  }

  ghost predicate Ground(t: Term) {
    forall x :: !Occurs(x, t)
  }

  ghost predicate GroundValued(s: Bindings) {
    forall x :: x in s ==> Ground(s[x])
  }

  /** Every binding of s survives unchanged in e. */
  ghost predicate Extends(e: Bindings, s: Bindings) {
    forall x :: x in s ==> x in e && e[x] == s[x]
  }

  /** theta solves the equation x = s[x] for every binding of s. */
  ghost predicate Satisfies(theta: Bindings, s: Bindings) {
    forall x :: x in s ==> Apply(theta, Var(x)) == Apply(theta, s[x])
  }

  ghost predicate Solves(theta: Bindings, s: Bindings, t1: Term, t2: Term) {
    Satisfies(theta, s) && Apply(theta, t1) == Apply(theta, t2)
  }

  /** Applying s twice is the same as applying it once. */
  ghost predicate Idempotent(s: Bindings) {
    forall t :: Apply(s, Apply(s, t)) == Apply(s, t)
  }

  ghost function Greatest(s: set<nat>): (r: nat)
    ensures forall n :: n in s ==> n <= r
  {
    if s == {} then 0 else
      var n :| n in s;
      var m := Greatest(s - {n});
      assert forall k :: k in s ==> k == n || k in s - {n};
      if n < m then m else n
  }

  ghost function Height(t: Term): (h: nat)
    ensures t.Dict? ==> forall k :: k in t.entries ==> Height(t.entries[k]) < h
    ensures t.List? ==> forall i :: 0 <= i < |t.items| ==> Height(t.items[i]) < h
    decreases t
  {
    match t
    case Var(_) => 0
    case Atom(_) => 0
    case Dict(m) =>
      var hs := set k | k in m :: Height(m[k]);
      assert forall k :: k in m ==> Height(m[k]) in hs;
      1 + Greatest(hs)
    case List(l) =>
      var hs := set i | 0 <= i < |l| :: Height(l[i]);
      assert forall i :: 0 <= i < |l| ==> Height(l[i]) in hs;
      1 + Greatest(hs)
  }

  // ----- application -----

  lemma {:induction false} ApplyOccurs(s: Bindings, t: Term, x: string)
    ensures Occurs(x, Apply(s, t))
       <==> (x !in s && Occurs(x, t)) || exists y :: y in s && Occurs(y, t) && Occurs(x, s[y])
  {
    match t
    case Var(_) =>
    case Atom(_) =>
    case Dict(m) =>
      forall k | k in m { ApplyOccurs(s, m[k], x); }
      assert forall k :: k in m ==> Apply(s, t).entries[k] == Apply(s, m[k]);
    case List(l) =>
      forall i | 0 <= i < |l| { ApplyOccurs(s, l[i], x); }
      assert forall i :: 0 <= i < |l| ==> Apply(s, t).items[i] == Apply(s, l[i]);
  }

  /** Application depends only on the variables of the term. */
  lemma {:induction false} ApplyAgrees(s: Bindings, r: Bindings, t: Term)
    requires forall x :: Occurs(x, t) ==> Apply(s, Var(x)) == Apply(r, Var(x))
    ensures Apply(s, t) == Apply(r, t)
  {
    match t
    case Var(x) => assert Occurs(x, t);
    case Atom(_) =>
    case Dict(m) =>
      forall k | k in m ensures Apply(s, m[k]) == Apply(r, m[k]) { ApplyAgrees(s, r, m[k]); }
    case List(l) =>
      forall i | 0 <= i < |l| ensures Apply(s, l[i]) == Apply(r, l[i]) { ApplyAgrees(s, r, l[i]); }
  }

  lemma {:induction false} ApplyEmpty(t: Term)
    ensures Apply(map[], t) == t
  {
    match t
    case Var(_) =>
    case Atom(_) =>
    case Dict(m) =>
      forall k | k in m ensures Apply(map[], m[k]) == m[k] { ApplyEmpty(m[k]); }
    case List(l) =>
      forall i | 0 <= i < |l| ensures Apply(map[], l[i]) == l[i] { ApplyEmpty(l[i]); }
  }

  /** Bindings whose variables do not occur in the term leave it alone. */
  lemma ApplyUntouched(s: Bindings, t: Term)
    requires forall x :: Occurs(x, t) ==> x !in s
    ensures Apply(s, t) == t
  {
    ApplyAgrees(s, map[], t);
    ApplyEmpty(t);
  }

  /** A solution of s cannot tell a term from s applied to it. */
  lemma {:induction false} SolutionAbsorbs(theta: Bindings, s: Bindings, t: Term)
    requires Satisfies(theta, s)
    ensures Apply(theta, Apply(s, t)) == Apply(theta, t)
  {
    match t
    case Var(_) =>
    case Atom(_) =>
    case Dict(m) =>
      forall k | k in m ensures Apply(theta, Apply(s, m[k])) == Apply(theta, m[k]) {
        SolutionAbsorbs(theta, s, m[k]);
      }
    case List(l) =>
      forall i | 0 <= i < |l| ensures Apply(theta, Apply(s, l[i])) == Apply(theta, l[i]) {
        SolutionAbsorbs(theta, s, l[i]);
      }
  }

  lemma IdempotentIffSelfSolution(s: Bindings)
    ensures Idempotent(s) <==> Satisfies(s, s)
  {
    if Satisfies(s, s) {
      forall t ensures Apply(s, Apply(s, t)) == Apply(s, t) { SolutionAbsorbs(s, s, t); }
    } else {
      var x :| x in s && Apply(s, Var(x)) != Apply(s, s[x]);
      assert Apply(s, Apply(s, Var(x))) != Apply(s, Var(x));
    }
  }

  /** A variable inside a larger term stays strictly smaller than it under every substitution. */
  lemma {:induction false} OccursHeight(theta: Bindings, x: string, t: Term)
    requires Occurs(x, t)
    ensures Height(Apply(theta, Var(x))) <= Height(Apply(theta, t))
    ensures t != Var(x) ==> Height(Apply(theta, Var(x))) < Height(Apply(theta, t))
  {
    match t
    case Var(_) =>
    case Dict(m) =>
      var k :| k in m && Occurs(x, m[k]);
      OccursHeight(theta, x, m[k]);
      assert Apply(theta, t).entries[k] == Apply(theta, m[k]);
    case List(l) =>
      var i :| 0 <= i < |l| && Occurs(x, l[i]);
      OccursHeight(theta, x, l[i]);
      assert Apply(theta, t).items[i] == Apply(theta, l[i]);
  }

  // ----- composition -----

  function Compose(s: Bindings, o: Bindings): Bindings {
    map x | x in s.Keys + o.Keys :: if x in o then Apply(s, o[x]) else s[x]
  }

  /** The source's loop: copy s, then overwrite with s applied to each value of o. */
  method ComposeBindings(s: Bindings, o: Bindings) returns (result: Bindings)
    ensures result == Compose(s, o)
  {
    result := s;
    var todo := o.Keys;
    while todo != {}
      invariant todo <= o.Keys
      invariant result.Keys == s.Keys + (o.Keys - todo)
      invariant forall x :: x in result ==> result[x] == if x in o && x !in todo then Apply(s, o[x]) else s[x]
    {
      var x :| x in todo;
      result := result[x := Apply(s, o[x])];
      todo := todo - {x};
    }
  }

  /** Composition is the action of applying the two substitutions in turn, on every nested term. */
  lemma {:induction false} ComposeActs(s: Bindings, o: Bindings, t: Term)
    ensures Apply(Compose(s, o), t) == Apply(s, Apply(o, t))
  {
    match t
    case Var(_) =>
    case Atom(_) =>
    case Dict(m) =>
      forall k | k in m ensures Apply(Compose(s, o), m[k]) == Apply(s, Apply(o, m[k])) {
        ComposeActs(s, o, m[k]);
      }
    case List(l) =>
      forall i | 0 <= i < |l| ensures Apply(Compose(s, o), l[i]) == Apply(s, Apply(o, l[i])) {
        ComposeActs(s, o, l[i]);
      }
  }

  lemma ComposeAssociative(r: Bindings, s: Bindings, o: Bindings)
    ensures Compose(Compose(r, s), o) == Compose(r, Compose(s, o))
  {
    forall x | x in o ensures Apply(Compose(r, s), o[x]) == Apply(r, Apply(s, o[x])) {
      ComposeActs(r, s, o[x]);
    }
  }

  lemma ComposeIdentity(s: Bindings)
    ensures Compose(map[], s) == s == Compose(s, map[])
  {
    forall x | x in s ensures Apply(map[], s[x]) == s[x] { ApplyEmpty(s[x]); }
  }
}
