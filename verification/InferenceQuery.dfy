/**
 * Querying a knowledge base (inference/unification.py:145-211 and the Fact and
 * Rule records of cognitive/sim_core.py:44-63).
 */
module InferenceQuery {
  import opened Wrappers
  import opened Sequences
  import opened Terms
  import opened Unification
  import opened Matching

  /** subject is the name of the subject symbol. */
  datatype Fact = Fact(id: string, subject: string, predicate_: string, object_: Term)

  datatype Rule = Rule(id: string, conditions: seq<Fact>, conclusion: Fact)

  function Str(s: string): Term {
    if |s| > 0 && s[0] == '?' then Var(s) else Atom(Text(s))
  }

  function FactTerm(f: Fact): Term {
    Dict(map["subject" := Str(f.subject), "predicate" := Str(f.predicate_), "object" := f.object_])
  }

  /** A rule's condition is passed to query as the Fact record itself, not as a dictionary. */
  function AsObject(f: Fact): Term {
    Atom(Object(f.id))
  }

  // ----- specification -----

  function Listed(answer: Option<Bindings>): seq<Bindings> {
    if answer.Some? then [answer.value] else []
  }

  /** The solutions among the tries, in order. */
  function Kept(tries: seq<Option<Bindings>>): seq<Bindings> {
    if tries == [] then [] else
      var n := |tries| - 1;
      Kept(tries[..n]) + Listed(tries[n])
  }

  lemma KeptNext(tries: seq<Option<Bindings>>, i: nat)
    requires i < |tries|
    ensures Kept(tries[..i + 1]) == Kept(tries[..i]) + Listed(tries[i])
  {
    assert tries[..i + 1][..i] == tries[..i];
  }

  /** What the unifier answers for each fact, in stored order. */
  function FactTries(fuel: nat, order: KeyOrder, goal: Term, s: Bindings, facts: seq<Fact>): seq<Option<Bindings>> {
    seq(|facts|, i requires 0 <= i < |facts| => Answer(Run(fuel, order, [0, i], goal, FactTerm(facts[i]), s)))
  }

  /** What a rule contributes: nothing unless it has no conditions. */
  function RuleTry(fuel: nat, order: KeyOrder, path: seq<nat>, goal: Term, s: Bindings, rule: Rule): Option<Bindings> {
    if rule.conditions == [] then Answer(Run(fuel, order, path, goal, FactTerm(rule.conclusion), s)) else None
  }

  function RuleTries(fuel: nat, order: KeyOrder, goal: Term, s: Bindings, rules: seq<Rule>): seq<Option<Bindings>> {
    seq(|rules|, i requires 0 <= i < |rules| => RuleTry(fuel, order, [1, i], goal, s, rules[i]))
  }

  function Answers(fuel: nat, order: KeyOrder, goal: Term, s: Bindings, facts: seq<Fact>, rules: seq<Rule>)
    : seq<Bindings>
  {
    Kept(FactTries(fuel, order, goal, s, facts)) + Kept(RuleTries(fuel, order, goal, s, rules))
  }

  /** Every unifier call that a query for goal makes at its own level terminates within fuel. */
  ghost predicate Settles(fuel: nat, order: KeyOrder, goal: Term, s: Bindings, facts: seq<Fact>, rules: seq<Rule>) {
    && (forall i :: 0 <= i < |facts| ==> Run(fuel, order, [0, i], goal, FactTerm(facts[i]), s) != OutOfFuel)
    && (forall i :: 0 <= i < |rules| ==> Run(fuel, order, [1, i], goal, FactTerm(rules[i].conclusion), s) != OutOfFuel)
  }

  // ----- conditions never hold -----

  /** A record that is neither a string, a dictionary nor a list unifies with no dictionary. */
  lemma ObjectClashes(fuel: nat, order: KeyOrder, path: seq<nat>, f: Fact, target: Term, s: Bindings)
    requires fuel > 0 && target.Dict?
    ensures Run(fuel, order, path, AsObject(f), target, s) == Clash
  {
    assert Apply(s, AsObject(f)) == AsObject(f);
    assert Apply(s, target).Dict?;
  }

  lemma OnlyDictsUnify(fuel: nat, order: KeyOrder, path: seq<nat>, goal: Term, target: Term, s: Bindings)
    requires goal.Dict? || exists f :: goal == AsObject(f)
    requires fuel > 0 && target.Dict? && Run(fuel, order, path, goal, target, s).Unified?
    ensures goal.Dict?
  {
    if !goal.Dict? {
      var f :| goal == AsObject(f);
      ObjectClashes(fuel, order, path, f, target, s);
    }
  }

  lemma {:induction false} NothingKept(tries: seq<Option<Bindings>>)
    requires forall i :: 0 <= i < |tries| ==> tries[i] == None
    ensures Kept(tries) == []
  {
    if tries != [] {
      NothingKept(tries[..|tries| - 1]);
    }
  }

  /** Whatever the knowledge base holds, no rule condition is ever satisfied. */
  lemma ConditionsNeverHold(fuel: nat, order: KeyOrder, f: Fact, s: Bindings, facts: seq<Fact>, rules: seq<Rule>)
    requires fuel > 0
    ensures Answers(fuel, order, AsObject(f), s, facts, rules) == []
    ensures Settles(fuel, order, AsObject(f), s, facts, rules)
  {
    forall i | 0 <= i < |facts| ensures Run(fuel, order, [0, i], AsObject(f), FactTerm(facts[i]), s) == Clash {
      ObjectClashes(fuel, order, [0, i], f, FactTerm(facts[i]), s);
    }
    forall i | 0 <= i < |rules|
      ensures Run(fuel, order, [1, i], AsObject(f), FactTerm(rules[i].conclusion), s) == Clash
    {
      ObjectClashes(fuel, order, [1, i], f, FactTerm(rules[i].conclusion), s);
    }
    NothingKept(FactTries(fuel, order, AsObject(f), s, facts));
    NothingKept(RuleTries(fuel, order, AsObject(f), s, rules));
  }

  // ----- exactness -----

  /** e is the least substitution whose single application turns goal into target. */
  ghost predicate IsLeastMatcher(e: Bindings, goal: Term, target: Term) {
    Apply(e, goal) == target && forall e' :: Apply(e', goal) == target ==> Extends(e', e)
  }

  /** answer is the least matcher of goal against target, None exactly when there is no matcher. */
  ghost predicate IsExact(answer: Option<Bindings>, goal: Term, target: Term) {
    if answer.Some? then IsLeastMatcher(answer.value, goal, target)
    else forall e :: Apply(e, goal) != target
  }

  lemma OneTarget(fuel: nat, order: KeyOrder, path: seq<nat>, goal: Term, target: Term)
    requires Ground(target) && Run(fuel, order, path, goal, target, map[]) != OutOfFuel
    ensures IsExact(Answer(Run(fuel, order, path, goal, target, map[])), goal, target)
  {
    var enough := Height(goal) + Height(target) + 1;
    LeastMatcher(order, path, goal, target, map[], enough);
    Deterministic(fuel, enough, order, path, goal, target, map[]);
    forall e ensures Matches(e, map[], goal, target) <==> Apply(e, goal) == target {
      GroundFixed(e, target);
    }
  }

  ghost predicate GroundFacts(facts: seq<Fact>) {
    forall i :: 0 <= i < |facts| ==> Ground(FactTerm(facts[i]))
  }

  /** The rules without conditions have ground conclusions. */
  ghost predicate GroundRules(rules: seq<Rule>) {
    forall i :: 0 <= i < |rules| && rules[i].conditions == [] ==> Ground(FactTerm(rules[i].conclusion))
  }

  /** Every fact's try and every unconditional rule's is exact; the other rules contribute nothing. */
  ghost predicate TriesAreExact(fuel: nat, order: KeyOrder, goal: Term, facts: seq<Fact>, rules: seq<Rule>) {
    && (forall i :: 0 <= i < |facts| ==>
          IsExact(FactTries(fuel, order, goal, map[], facts)[i], goal, FactTerm(facts[i])))
    && (forall i :: 0 <= i < |rules| ==>
          var try := RuleTries(fuel, order, goal, map[], rules)[i];
          if rules[i].conditions == [] then IsExact(try, goal, FactTerm(rules[i].conclusion)) else try == None)
  }

  /**
   * A query over ground facts and ground unconditional conclusions answers
   * exactly. Answers keeps, in stored order, the facts' tries and then the
   * rules'; each is the least matcher, and None exactly when nothing matches.
   */
  lemma QueryExact(fuel: nat, order: KeyOrder, goal: Term, facts: seq<Fact>, rules: seq<Rule>)
    requires GroundFacts(facts) && GroundRules(rules) && Settles(fuel, order, goal, map[], facts, rules)
    ensures TriesAreExact(fuel, order, goal, facts, rules)
  {
    forall i | 0 <= i < |facts|
      ensures IsExact(Answer(Run(fuel, order, [0, i], goal, FactTerm(facts[i]), map[])), goal, FactTerm(facts[i]))
    {
      OneTarget(fuel, order, [0, i], goal, FactTerm(facts[i]));
    }
    forall i | 0 <= i < |rules| && rules[i].conditions == []
      ensures var target := FactTerm(rules[i].conclusion);
              IsExact(Answer(Run(fuel, order, [1, i], goal, target, map[])), goal, target)
    {
      OneTarget(fuel, order, [1, i], goal, FactTerm(rules[i].conclusion));
    }
  }

  ghost predicate GroundConclusions(rules: seq<Rule>) {
    forall i :: 0 <= i < |rules| ==> Ground(FactTerm(rules[i].conclusion))
  }

  lemma GroundTargetTerminates(order: KeyOrder, path: seq<nat>, goal: Term, target: Term, fuel: nat)
    requires Ground(target) && fuel > Height(goal) + Height(target)
    ensures Run(fuel, order, path, goal, target, map[]) != OutOfFuel
  {
    LeastMatcher(order, path, goal, target, map[], fuel);
  }

  /** Against ground facts and ground conclusions a query settles, whatever the goal and the conditions. */
  lemma GroundQueryTerminates(order: KeyOrder, goal: Term, facts: seq<Fact>, rules: seq<Rule>)
    requires GroundFacts(facts) && GroundConclusions(rules)
    ensures exists fuel :: fuel > 0 && Settles(fuel, order, goal, map[], facts, rules)
  {
    var known := set i | 0 <= i < |facts| :: Height(FactTerm(facts[i]));
    var derived := set i | 0 <= i < |rules| :: Height(FactTerm(rules[i].conclusion));
    var fuel := Height(goal) + Greatest(known + derived) + 1;
    forall i | 0 <= i < |facts| ensures Run(fuel, order, [0, i], goal, FactTerm(facts[i]), map[]) != OutOfFuel {
      assert Height(FactTerm(facts[i])) in known + derived;
      GroundTargetTerminates(order, [0, i], goal, FactTerm(facts[i]), fuel);
    }
    forall i | 0 <= i < |rules|
      ensures Run(fuel, order, [1, i], goal, FactTerm(rules[i].conclusion), map[]) != OutOfFuel
    {
      assert Height(FactTerm(rules[i].conclusion)) in known + derived;
      GroundTargetTerminates(order, [1, i], goal, FactTerm(rules[i].conclusion), fuel);
    }
    assert Settles(fuel, order, goal, map[], facts, rules);
  }

  /** Over ground facts and ground conclusions every query terminates and answers exactly. */
  lemma GroundQueryExact(order: KeyOrder, goal: Term, facts: seq<Fact>, rules: seq<Rule>) returns (fuel: nat)
    requires GroundFacts(facts) && GroundConclusions(rules)
    ensures fuel > 0 && Settles(fuel, order, goal, map[], facts, rules)
    ensures TriesAreExact(fuel, order, goal, facts, rules)
  {
    GroundQueryTerminates(order, goal, facts, rules);
    fuel :| fuel > 0 && Settles(fuel, order, goal, map[], facts, rules);
    QueryExact(fuel, order, goal, facts, rules);
  }

  // ----- the answers -----

  /** Indices of a list of length n, in order, each at most once. */
  ghost predicate Picks(picked: seq<nat>, n: nat) {
    && (forall k :: 0 <= k < |picked| ==> picked[k] < n)
    && (forall j, k :: 0 <= j < k < |picked| ==> picked[j] < picked[k])
  }

  /**
   * One answer for each fact that the goal can be turned into, in stored order: the
   * least substitution that does it.
   */
  ghost predicate AnswersFacts(goal: Term, facts: seq<Fact>, answers: seq<Bindings>, picked: seq<nat>) {
    && |picked| == |answers| && Picks(picked, |facts|)
    && (forall i :: 0 <= i < |facts| ==> (i in picked <==> exists e :: Apply(e, goal) == FactTerm(facts[i])))
    && (forall k :: 0 <= k < |picked| ==> IsLeastMatcher(answers[k], goal, FactTerm(facts[picked[k]])))
  }

  /** The same for the conclusions of the rules without conditions. */
  ghost predicate AnswersRules(goal: Term, rules: seq<Rule>, answers: seq<Bindings>, picked: seq<nat>) {
    && |picked| == |answers| && Picks(picked, |rules|)
    && (forall i :: 0 <= i < |rules| ==>
          (i in picked <==> rules[i].conditions == [] && exists e :: Apply(e, goal) == FactTerm(rules[i].conclusion)))
    && (forall k :: 0 <= k < |picked| ==> IsLeastMatcher(answers[k], goal, FactTerm(rules[picked[k]].conclusion)))
  }

  /** The answers are those of the facts and then those of the rules. */
  ghost predicate AnswersExactly(goal: Term, facts: seq<Fact>, rules: seq<Rule>, answers: seq<Bindings>) {
    exists fs: seq<nat>, rs: seq<nat> ::
      && |fs| <= |answers| && AnswersFacts(goal, facts, answers[..|fs|], fs)
      && AnswersRules(goal, rules, answers[|fs|..], rs)
  }

  /** kept holds the solutions among the tries, and picked their indices. */
  ghost predicate PicksKept(tries: seq<Option<Bindings>>, kept: seq<Bindings>, picked: seq<nat>) {
    && |picked| == |kept| && Picks(picked, |tries|)
    && (forall i :: 0 <= i < |tries| ==> (i in picked <==> tries[i].Some?))
    && (forall k :: 0 <= k < |picked| ==> tries[picked[k]] == Some(kept[k]))
  }

  lemma PicksNext(tries: seq<Option<Bindings>>, kept: seq<Bindings>, picked: seq<nat>, answer: Option<Bindings>)
    requires PicksKept(tries, kept, picked)
    ensures PicksKept(tries + [answer], kept + Listed(answer), picked + if answer.Some? then [|tries|] else [])
  {
    assert kept + [] == kept && picked + [] == picked;
  }

  /** What is kept of the tries, as a strictly increasing list of their indices. */
  lemma {:induction false} KeptPicks(tries: seq<Option<Bindings>>) returns (picked: seq<nat>)
    ensures PicksKept(tries, Kept(tries), picked)
  {
    if tries == [] {
      picked := [];
    } else {
      var n := |tries| - 1;
      var before := KeptPicks(tries[..n]);
      PicksNext(tries[..n], Kept(tries[..n]), before, tries[n]);
      assert tries[..n] + [tries[n]] == tries;
      picked := before + if tries[n].Some? then [n] else [];
    }
  }

  lemma FactsAnswered(goal: Term, facts: seq<Fact>, tries: seq<Option<Bindings>>) returns (picked: seq<nat>)
    requires |tries| == |facts| && forall i :: 0 <= i < |facts| ==> IsExact(tries[i], goal, FactTerm(facts[i]))
    ensures AnswersFacts(goal, facts, Kept(tries), picked)
  {
    picked := KeptPicks(tries);
    forall k | 0 <= k < |picked| ensures IsLeastMatcher(Kept(tries)[k], goal, FactTerm(facts[picked[k]])) {
      assert picked[k] in picked && IsExact(tries[picked[k]], goal, FactTerm(facts[picked[k]]));
    }
  }

  lemma RulesAnswered(goal: Term, rules: seq<Rule>, tries: seq<Option<Bindings>>) returns (picked: seq<nat>)
    requires |tries| == |rules|
    requires forall i :: 0 <= i < |rules| ==>
               if rules[i].conditions != [] then tries[i] == None
               else IsExact(tries[i], goal, FactTerm(rules[i].conclusion))
    ensures AnswersRules(goal, rules, Kept(tries), picked)
  {
    picked := KeptPicks(tries);
    forall k | 0 <= k < |picked| ensures IsLeastMatcher(Kept(tries)[k], goal, FactTerm(rules[picked[k]].conclusion)) {
      assert picked[k] in picked && IsExact(tries[picked[k]], goal, FactTerm(rules[picked[k]].conclusion));
    }
  }

  lemma AnswersAreExact(fuel: nat, order: KeyOrder, goal: Term, facts: seq<Fact>, rules: seq<Rule>)
    requires GroundFacts(facts) && GroundRules(rules) && Settles(fuel, order, goal, map[], facts, rules)
    ensures AnswersExactly(goal, facts, rules, Answers(fuel, order, goal, map[], facts, rules))
  {
    QueryExact(fuel, order, goal, facts, rules);
    var a, b := FactTries(fuel, order, goal, map[], facts), RuleTries(fuel, order, goal, map[], rules);
    var fs := FactsAnswered(goal, facts, a);
    var rs := RulesAnswered(goal, rules, b);
    var answers := Kept(a) + Kept(b);
    assert answers[..|fs|] == Kept(a) && answers[|fs|..] == Kept(b);
  }

  /** Asking for everything gives back a fact's own subject, predicate and object. */
  lemma WildcardAnswer(f: Fact, e: Bindings)
    requires Ground(FactTerm(f))
    requires IsLeastMatcher(
               e, Dict(map["subject" := Var("?s"), "predicate" := Var("?p"), "object" := Var("?o")]), FactTerm(f))
    ensures e == map["?s" := Str(f.subject), "?p" := Str(f.predicate_), "?o" := f.object_]
  {
    var goal := Dict(map["subject" := Var("?s"), "predicate" := Var("?p"), "object" := Var("?o")]);
    var all: Bindings := map["?s" := Str(f.subject), "?p" := Str(f.predicate_), "?o" := f.object_];
    var t := FactTerm(f);
    assert Apply(all, goal).entries == t.entries;
    forall k | k in t.entries ensures Apply(e, goal.entries[k]) == t.entries[k] && !t.entries[k].Var? {
      assert Apply(e, goal).entries[k] == t.entries[k];
      assert t.entries[k].Var? ==> Occurs(t.entries[k].name, t);
    }
    assert "subject" in t.entries && "predicate" in t.entries && "object" in t.entries;
    assert Extends(all, e);
    assert e == all;
  }

  // ----- implementation -----

  /** The list that the proof procedure appends its solutions to. */
  class Solutions {
    var items: seq<Bindings>

    constructor ()
      ensures items == []
    {
      items := [];
    }

    method Add(answer: Option<Bindings>)
      modifies this
      ensures items == old(items) + Listed(answer)
    {
      if answer.Some? {
        items := items + [answer.value];
      }
    }
  }

  class EnhancedInferenceEngine {
    const facts: seq<Fact>
    const rules: seq<Rule>

    constructor (facts: seq<Fact>, rules: seq<Rule>)
      ensures this.facts == facts && this.rules == rules
    {
      this.facts, this.rules := facts, rules;
    }

    static function Rank(goal: Term): nat {
      if goal.Atom? then 0 else 1
    }

    method Query(goal: Term, order: KeyOrder, ghost fuel: nat) returns (answers: seq<Bindings>)
      requires fuel > 0 && (goal.Dict? || exists f :: goal == AsObject(f))
      requires Settles(fuel, order, goal, map[], facts, rules)
      ensures answers == Answers(fuel, order, goal, map[], facts, rules)
      ensures GroundFacts(facts) && GroundRules(rules) ==> AnswersExactly(goal, facts, rules, answers)
      decreases Rank(goal), 4
    {
      var solutions := new Solutions();
      ProveGoal(goal, map[], solutions, order, fuel);
      answers := solutions.items;
      assert answers[0..] == answers;
    }

    method ProveGoal(goal: Term, s: Bindings, solutions: Solutions, order: KeyOrder, ghost fuel: nat)
      requires fuel > 0 && (goal.Dict? || exists f :: goal == AsObject(f))
      requires Settles(fuel, order, goal, s, facts, rules)
      modifies solutions
      ensures solutions.items == old(solutions.items) + Answers(fuel, order, goal, s, facts, rules)
      ensures s == map[] && GroundFacts(facts) && GroundRules(rules) ==>
                AnswersExactly(goal, facts, rules, solutions.items[|old(solutions.items)|..])
      decreases Rank(goal), 3
    {
      TryFacts(goal, s, solutions, order, fuel);
      TryRules(goal, s, solutions, order, fuel);
      Associates(old(solutions.items), Kept(FactTries(fuel, order, goal, s, facts)),
                 Kept(RuleTries(fuel, order, goal, s, rules)));
      if s == map[] && GroundFacts(facts) && GroundRules(rules) {
        AnswersAreExact(fuel, order, goal, facts, rules);
      }
    }

    method TryFacts(goal: Term, s: Bindings, solutions: Solutions, order: KeyOrder, ghost fuel: nat)
      requires Settles(fuel, order, goal, s, facts, rules)
      modifies solutions
      ensures solutions.items == old(solutions.items) + Kept(FactTries(fuel, order, goal, s, facts))
    {
      ghost var tries := FactTries(fuel, order, goal, s, facts);
      for i := 0 to |facts|
        invariant solutions.items == old(solutions.items) + Kept(tries[..i])
      {
        var r := Unify(goal, FactTerm(facts[i]), s, order, [0, i], fuel);
        KeptNext(tries, i);
        Associates(old(solutions.items), Kept(tries[..i]), Listed(r));
        assert tries[i] == r;
        solutions.Add(r);
      }
      assert tries[..|facts|] == tries;
    }

    method TryRules(goal: Term, s: Bindings, solutions: Solutions, order: KeyOrder, ghost fuel: nat)
      requires fuel > 0 && (goal.Dict? || exists f :: goal == AsObject(f))
      requires Settles(fuel, order, goal, s, facts, rules)
      modifies solutions
      ensures solutions.items == old(solutions.items) + Kept(RuleTries(fuel, order, goal, s, rules))
      decreases Rank(goal), 2
    {
      ghost var tries := RuleTries(fuel, order, goal, s, rules);
      for i := 0 to |rules|
        invariant solutions.items == old(solutions.items) + Kept(tries[..i])
      {
        TryRule(goal, s, rules[i], [1, i], solutions, order, fuel);
        KeptNext(tries, i);
        Associates(old(solutions.items), Kept(tries[..i]), Listed(tries[i]));
      }
      assert tries[..|rules|] == tries;
    }

    /** The body of the loop over the rules. */
    method TryRule(goal: Term, s: Bindings, rule: Rule, path: seq<nat>, solutions: Solutions, order: KeyOrder,
                   ghost fuel: nat)
      requires fuel > 0 && (goal.Dict? || exists f :: goal == AsObject(f))
      requires Run(fuel, order, path, goal, FactTerm(rule.conclusion), s) != OutOfFuel
      modifies solutions
      ensures solutions.items == old(solutions.items) + Listed(RuleTry(fuel, order, path, goal, s, rule))
      decreases Rank(goal), 1
    {
      var r := Unify(goal, FactTerm(rule.conclusion), s, order, path, fuel);
      if r.Some? {
        OnlyDictsUnify(fuel, order, path, goal, FactTerm(rule.conclusion), s);
        ProveConditions(rule.conditions, r.value, solutions, order);
      }
    }

    method ProveConditions(conditions: seq<Fact>, s: Bindings, solutions: Solutions, order: KeyOrder)
      modifies solutions
      ensures solutions.items == old(solutions.items) + if conditions == [] then [s] else []
      decreases 1, 0
    {
      if conditions == [] {
        solutions.items := solutions.items + [s];
        return;
      }
      ConditionsNeverHold(1, order, conditions[0], map[], facts, rules);
      var found := Query(AsObject(conditions[0]), order, 1);
      // The source proves the remaining conditions for each solution of the first; there is none.
      for i := 0 to |found| {
        assert false;
      }
    }
  }
}
