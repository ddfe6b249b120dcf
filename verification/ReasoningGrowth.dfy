/**
 * The tree that record keeping builds: every step has a fresh id, and its parent
 * was added before it (cognitive/sim_trajectory.py:56-102).
 */
module ReasoningGrowth {
  import opened Wrappers
  import opened Sequences
  import opened ReasoningForest
  import opened ReasoningSubtrees
  import opened ReasoningDuality

  /** Every addition has a fresh id and a parent added before it. */
  ghost predicate FreshAndRooted(adds: seq<Addition>) {
    adds != [] ==>
      var last := adds[|adds| - 1];
      var before := Build(adds[..|adds| - 1]);
      && FreshAndRooted(adds[..|adds| - 1])
      && last.id !in before.nodes && (last.parent.Some? ==> last.parent.value in before.nodes)
  }

  /** No step hangs below a step whose id is the empty string. */
  ghost predicate NoEmptyParent(f: Forest) {
    forall x :: x in f.nodes ==> f.nodes[x].parent != Some("")
  }

  /** x is a root, or its parent is present, lists x as a child, and is one level higher. */
  ghost predicate LinkedUp(f: Forest, depth: map<string, nat>, x: string)
    requires x in f.nodes && depth.Keys == f.nodes.Keys
  {
    match f.nodes[x].parent
    case None => x in f.roots
    case Some(p) => p in f.nodes && x in f.nodes[p].children && depth[x] == depth[p] + 1
  }

  /** The children of p are present, distinct, and name p as their parent. */
  ghost predicate LinkedDown(f: Forest, p: string)
    requires p in f.nodes
  {
    var cs := f.nodes[p].children;
    NoDuplicates(cs) && forall c :: c in cs ==> c in f.nodes && f.nodes[c].parent == Some(p)
  }

  /** Parents and children agree, and depth witnesses that there is no cycle. */
  ghost predicate WellGrown(f: Forest, depth: map<string, nat>) {
    && depth.Keys == f.nodes.Keys
    && (forall x {:trigger LinkedUp(f, depth, x)} :: x in f.nodes ==> LinkedUp(f, depth, x))
    && (forall x {:trigger LinkedDown(f, x)} :: x in f.nodes ==> LinkedDown(f, x))
  }

  function AddDepth(depth: map<string, nat>, id: string, parent: Option<string>): map<string, nat> {
    depth[id := if parent.Some? && parent.value in depth then depth[parent.value] + 1 else 0]
  }

  lemma AddNodeLinks(f: Forest, depth: map<string, nat>, id: string, parent: Option<string>, x: string)
    requires WellGrown(f, depth)
    requires id !in f.nodes && (parent.Some? ==> parent.value in f.nodes)
    requires x == id || x in f.nodes
    ensures var g := AddNode(f, id, Node(parent, []));
            LinkedUp(g, AddDepth(depth, id, parent), x) && LinkedDown(g, x)
  {
    var g, d := AddNode(f, id, Node(parent, [])), AddDepth(depth, id, parent);
    assert parent.Some? ==> id in g.nodes[parent.value].children;
    if x != id {
      assert LinkedUp(f, depth, x) && LinkedDown(f, x);
      assert id !in f.nodes[x].children;
    }
  }

  /** add_step with a fresh id and a parent already present keeps the forest well grown. */
  lemma AddNodeGrows(f: Forest, depth: map<string, nat>, id: string, parent: Option<string>)
    requires WellGrown(f, depth)
    requires id !in f.nodes && (parent.Some? ==> parent.value in f.nodes)
    ensures WellGrown(AddNode(f, id, Node(parent, [])), AddDepth(depth, id, parent))
  {
    var g, d := AddNode(f, id, Node(parent, [])), AddDepth(depth, id, parent);
    forall x | x in g.nodes ensures LinkedUp(g, d, x) && LinkedDown(g, x) {
      AddNodeLinks(f, depth, id, parent, x);
    }
  }

  lemma {:induction false} BuiltIsWellGrown(adds: seq<Addition>) returns (depth: map<string, nat>)
    requires FreshAndRooted(adds)
    ensures WellGrown(Build(adds), depth)
  {
    if adds == [] {
      depth := map[];
    } else {
      var last := adds[|adds| - 1];
      var before := BuiltIsWellGrown(adds[..|adds| - 1]);
      AddNodeGrows(Build(adds[..|adds| - 1]), before, last.id, last.parent);
      depth := AddDepth(before, last.id, last.parent);
    }
  }

  lemma WellGrownLinks(f: Forest, depth: map<string, nat>)
    requires WellGrown(f, depth)
    ensures Climbs(f, depth) && (LinksAgree(f) <==> NoEmptyParent(f))
  {
    forall y | y in f.nodes && ParentOf(f, y).Some? ensures depth[ParentOf(f, y).value] < depth[y] {
      assert LinkedUp(f, depth, y);
    }
    if NoEmptyParent(f) {
      forall p | p in f.nodes ensures NoDuplicates(f.nodes[p].children) { assert LinkedDown(f, p); }
      forall p, c | p in f.nodes && c in f.nodes ensures c in ChildrenOf(f, p) <==> ParentOf(f, c) == Some(p) {
        assert LinkedDown(f, p) && LinkedUp(f, depth, c);
      }
    } else {
      var c :| c in f.nodes && f.nodes[c].parent == Some("");
      assert LinkedUp(f, depth, c) && c in ChildrenOf(f, "") && ParentOf(f, c) == None;
    }
  }

  // ----- the downward walk -----

  /** x is y or an ancestor of y, by whatever parent ids, the empty one included. */
  ghost predicate Below(f: Forest, depth: map<string, nat>, x: string, y: string)
    requires WellGrown(f, depth) && y in f.nodes
    decreases depth[y]
  {
    assert LinkedUp(f, depth, y);
    x == y || (f.nodes[y].parent.Some? && Below(f, depth, x, f.nodes[y].parent.value))
  }

  lemma {:induction false} BelowDeeper(f: Forest, depth: map<string, nat>, x: string, y: string)
    requires WellGrown(f, depth) && y in f.nodes && Below(f, depth, x, y)
    ensures x in f.nodes && (x == y || depth[x] < depth[y])
    decreases depth[y]
  {
    assert LinkedUp(f, depth, y);
    if x != y {
      BelowDeeper(f, depth, x, f.nodes[y].parent.value);
    }
  }

  /** What was listed so far is listed once, present, and below x. */
  ghost predicate Grown(f: Forest, depth: map<string, nat>, x: string, seen: seq<string>)
    requires WellGrown(f, depth)
  {
    NoDuplicates(seen) && forall y :: y in seen ==> y in f.nodes && Below(f, depth, x, y)
  }

  lemma GrownChildIsNew(f: Forest, depth: map<string, nat>, x: string, i: nat, c: string)
    requires WellGrown(f, depth) && i < |Seen(f, x, i)| && Grown(f, depth, x, Seen(f, x, i))
    requires c in ChildrenOf(f, Seen(f, x, i)[i])
    ensures c in f.nodes && c !in Seen(f, x, i) && Below(f, depth, x, c)
  {
    var seen := Seen(f, x, i);
    var v := seen[i];
    assert v in seen && LinkedDown(f, v) && LinkedUp(f, depth, c);
    BelowDeeper(f, depth, x, v);
    SeenIsChildren(f, x, i);
    InAllChildren(f, seen[..i], c);
    forall j | 0 <= j < i ensures c !in ChildrenOf(f, seen[j]) {
      assert seen[j] in seen && LinkedDown(f, seen[j]) && seen[j] != v;
    }
  }

  lemma {:induction false} SeenIsGrown(f: Forest, depth: map<string, nat>, x: string, i: nat)
    requires WellGrown(f, depth) && x in f.nodes
    ensures Grown(f, depth, x, Seen(f, x, i))
  {
    if i > 0 {
      SeenIsGrown(f, depth, x, i - 1);
      var before := Seen(f, x, i - 1);
      if i <= |before| {
        var v := before[i - 1];
        assert v in before && LinkedDown(f, v);
        forall c | c in ChildrenOf(f, v) ensures c in f.nodes && c !in before && Below(f, depth, x, c) {
          GrownChildIsNew(f, depth, x, i - 1, c);
        }
        AppendDistinct(before, ChildrenOf(f, v));
      }
    }
  }

  lemma {:induction false} GrownStopsFrom(f: Forest, depth: map<string, nat>, x: string, i: nat)
    requires WellGrown(f, depth) && x in f.nodes && i <= |Seen(f, x, i)|
    ensures SubtreeStops(f, x)
    decreases |f.nodes| - i
  {
    if i < |Seen(f, x, i)| {
      SeenIsGrown(f, depth, x, i);
      DistinctFits(f, Seen(f, x, i));
      GrownStopsFrom(f, depth, x, i + 1);
    }
  }

  lemma {:induction false} ListsBelow(f: Forest, depth: map<string, nat>, x: string, y: string)
    requires WellGrown(f, depth) && SubtreeStops(f, x) && y in f.nodes && Below(f, depth, x, y)
    ensures y in Listing(f, x)
    decreases depth[y]
  {
    assert LinkedUp(f, depth, y);
    ListedFrom(f, x, y);
    if y != x {
      ListsBelow(f, depth, x, f.nodes[y].parent.value);
    }
  }

  /** The downward walk ends and lists every descendant, each once, and nothing else. */
  lemma SubtreeIsBelow(f: Forest, depth: map<string, nat>, x: string)
    requires WellGrown(f, depth) && x in f.nodes
    ensures SubtreeStops(f, x) && NoDuplicates(Subtree(f, x))
    ensures forall y :: y in f.nodes ==> (y in Subtree(f, x) <==> Below(f, depth, x, y))
  {
    GrownStopsFrom(f, depth, x, 0);
    forall p, c | p in f.nodes && c in f.nodes[p].children ensures c in f.nodes {
      assert LinkedDown(f, p);
    }
    ListingIsSubtree(f, x);
    var n: nat :| |Seen(f, x, n)| == n && Listing(f, x) == Seen(f, x, n);
    SeenIsGrown(f, depth, x, n);
    forall y | y in f.nodes && Below(f, depth, x, y) ensures y in Subtree(f, x) {
      ListsBelow(f, depth, x, y);
    }
  }

  /** The listed ids lie on ever deeper levels, at most one level below the id to be visited next. */
  ghost predicate ByLevel(depth: map<string, nat>, seen: seq<string>, i: nat) {
    && (forall y :: y in seen ==> y in depth)
    && (forall j, k :: 0 <= j < k < |seen| ==> depth[seen[j]] <= depth[seen[k]])
    && (i < |seen| ==> forall k :: 0 <= k < |seen| ==> depth[seen[k]] <= depth[seen[i]] + 1)
  }

  lemma {:induction false} SeenByLevel(f: Forest, depth: map<string, nat>, x: string, i: nat)
    requires WellGrown(f, depth) && x in f.nodes && i <= |Seen(f, x, i)|
    ensures ByLevel(depth, Seen(f, x, i), i)
  {
    if i > 0 {
      var before := Seen(f, x, i - 1);
      assert i <= |before|;
      SeenByLevel(f, depth, x, i - 1);
      var v := before[i - 1];
      assert v in before && LinkedDown(f, v);
      forall c | c in ChildrenOf(f, v) ensures c in depth && depth[c] == depth[v] + 1 {
        assert LinkedUp(f, depth, c);
      }
    }
  }

  /** get_subtree is breadth-first: no step is listed after a deeper one. */
  lemma SubtreeByLevel(f: Forest, depth: map<string, nat>, x: string)
    requires WellGrown(f, depth) && x in f.nodes && SubtreeStops(f, x)
    ensures forall y :: y in Subtree(f, x) ==> y in depth
    ensures var ids := Subtree(f, x); forall j, k :: 0 <= j < k < |ids| ==> depth[ids[j]] <= depth[ids[k]]
  {
    forall p, c | p in f.nodes && c in f.nodes[p].children ensures c in f.nodes {
      assert LinkedDown(f, p);
    }
    ListingIsSubtree(f, x);
    var n: nat :| |Seen(f, x, n)| == n && Listing(f, x) == Seen(f, x, n);
    SeenByLevel(f, depth, x, n);
  }

  // ----- the upward walk -----

  /** The step with the empty id lies between x and y, so that the upward walk from y does not reach x. */
  ghost predicate CutOff(f: Forest, depth: map<string, nat>, x: string, y: string)
    requires WellGrown(f, depth) && y in f.nodes
  {
    "" in f.nodes && y != "" && Below(f, depth, x, "") && Below(f, depth, "", y)
  }

  lemma CutOffStep(f: Forest, depth: map<string, nat>, x: string, y: string, p: string)
    requires WellGrown(f, depth) && y in f.nodes && f.nodes[y].parent == Some(p) && p != ""
    ensures p in f.nodes && (CutOff(f, depth, x, y) <==> CutOff(f, depth, x, p))
    ensures CutOff(f, depth, x, p) ==> x != y
  {
    assert LinkedUp(f, depth, y);
    if CutOff(f, depth, x, p) {
      BelowDeeper(f, depth, x, "");
      BelowDeeper(f, depth, "", p);
    }
  }

  /** An upward walk reaches the ancestors that are not cut off. */
  lemma {:induction false} PathIsBelow(f: Forest, depth: map<string, nat>, x: string, y: string)
    requires WellGrown(f, depth) && y in f.nodes
    ensures PathStops(f, y) && (x in Path(f, y) <==> Below(f, depth, x, y) && !CutOff(f, depth, x, y))
    decreases depth[y]
  {
    assert LinkedUp(f, depth, y);
    PathStep(f, y);
    match f.nodes[y].parent
    case None =>
    case Some(p) =>
      if p == "" {
        if Below(f, depth, x, "") { BelowDeeper(f, depth, x, ""); }
        assert Below(f, depth, "", "") && Below(f, depth, "", y) && y != "";
      } else {
        PathIsBelow(f, depth, x, p);
        CutOffStep(f, depth, x, y, p);
      }
  }

  /** A path starts at a root, or below the step with the empty id. */
  lemma PathStart(f: Forest, depth: map<string, nat>, y: string)
    requires WellGrown(f, depth) && y in f.nodes && PathStops(f, y)
    ensures var start := Path(f, y)[0];
            start in f.nodes && (start in f.roots || f.nodes[start].parent == Some(""))
  {
    PathIsChain(f, y);
    assert LinkedUp(f, depth, Path(f, y)[0]);
  }

  // ----- the two walks -----

  /** Both walks from y end, the subtree has no repetitions, and the path starts at a root or below the empty id. */
  ghost predicate WalksEnd(f: Forest, y: string)
    requires y in f.nodes
  {
    && PathStops(f, y) && SubtreeStops(f, y) && NoDuplicates(Subtree(f, y))
    && Path(f, y) != [] && Path(f, y)[0] in f.nodes
    && (Path(f, y)[0] in f.roots || f.nodes[Path(f, y)[0]].parent == Some(""))
  }

  lemma GrownWalksEnd(f: Forest, depth: map<string, nat>, y: string)
    requires WellGrown(f, depth) && y in f.nodes
    ensures WalksEnd(f, y)
  {
    PathIsBelow(f, depth, y, y);
    SubtreeIsBelow(f, depth, y);
    PathIsChain(f, y);
    PathStart(f, depth, y);
  }

  lemma {:induction false} BelowThrough(f: Forest, depth: map<string, nat>, x: string, y: string, z: string)
    requires WellGrown(f, depth) && y in f.nodes && z in f.nodes && Below(f, depth, x, y) && Below(f, depth, y, z)
    ensures Below(f, depth, x, z)
    decreases depth[z]
  {
    assert LinkedUp(f, depth, z);
    if y != z {
      BelowThrough(f, depth, x, y, f.nodes[z].parent.value);
    }
  }

  lemma DisagreeingPairs(f: Forest, depth: map<string, nat>, x: string, y: string)
    requires WellGrown(f, depth) && x in f.nodes && y in f.nodes
    ensures SubtreeStops(f, x) && PathStops(f, y) && ("" in f.nodes ==> SubtreeStops(f, ""))
    ensures !Dual(f, x, y) <==> "" in f.nodes && y != "" && "" in Subtree(f, x) && y in Subtree(f, "")
  {
    PathIsBelow(f, depth, x, y);
    SubtreeIsBelow(f, depth, x);
    if "" in f.nodes {
      SubtreeIsBelow(f, depth, "");
      if CutOff(f, depth, x, y) {
        BelowThrough(f, depth, x, "", y);
      }
    }
  }

  /**
   * With fresh ids under present parents both walks end everywhere, without
   * repetitions, and paths start where they should. The walks disagree on
   * exactly the pairs that the step with the empty id separates, so they agree
   * everywhere exactly when no step has the empty id as its parent.
   */
  lemma DualityCondition(adds: seq<Addition>)
    requires FreshAndRooted(adds)
    ensures var f := Build(adds);
            && (forall y :: y in f.nodes ==> WalksEnd(f, y))
            && (forall x, y :: x in f.nodes && y in f.nodes ==>
                  (!Dual(f, x, y) <==> "" in f.nodes && y != "" && "" in Subtree(f, x) && y in Subtree(f, "")))
            && (WalksAgree(f) <==> NoEmptyParent(f))
  {
    var f := Build(adds);
    var depth := BuiltIsWellGrown(adds);
    forall y | y in f.nodes ensures WalksEnd(f, y) {
      GrownWalksEnd(f, depth, y);
    }
    forall x, y | x in f.nodes && y in f.nodes
      ensures !Dual(f, x, y) <==> "" in f.nodes && y != "" && "" in Subtree(f, x) && y in Subtree(f, "")
    {
      DisagreeingPairs(f, depth, x, y);
    }
    WellGrownLinks(f, depth);
    PathsStopIffClimbs(f);
    WalksAgreeIffLinksAgree(adds);
  }

  /**
   * The empty string is falsy: a child of the step with the empty id is in its
   * subtree, but the step is not on its path.
   */
  lemma EmptyIdBreaksDuality(f: Forest, c: string)
    requires Closed(f) && c in ChildrenOf(f, "") && SubtreeStops(f, "") && c in f.nodes && PathStops(f, c)
    ensures c in Subtree(f, "") && "" !in Path(f, c)
  {
    ListingIsSubtree(f, "");
    ListedFrom(f, "", "");
    ListedFrom(f, "", c);
    if c == "" {
      OwnChildLoops(f, "");
    }
    PathIsChain(f, c);
    var path := Path(f, c);
    forall i | 0 <= i < |path| ensures path[i] != "" {
      if i < |path| - 1 {
        assert ParentOf(f, path[i + 1]) == Some(path[i]);
      }
    }
  }

  lemma AddedUnder(f: Forest, id: string, p: string)
    requires p in f.nodes && p != id
    ensures var g := AddNode(f, id, Node(Some(p), []));
            && g.nodes.Keys == f.nodes.Keys + {id}
            && g.nodes[id] == Node(Some(p), []) && g.nodes[p] == Node(f.nodes[p].parent, f.nodes[p].children + [id])
            && forall x :: x in f.nodes && x != id && x != p ==> g.nodes[x] == f.nodes[x]
  {
  }

  /** Two roots, and one step below the first that is added again below the second. */
  lemma MovedStep() returns (adds: seq<Addition>)
    ensures var f := Build(adds);
            && f.nodes.Keys == {"p", "q", "c"} && f.nodes["c"] == Node(Some("q"), [])
            && f.nodes["p"] == f.nodes["q"] == Node(None, ["c"])
  {
    var roots := [Addition("p", None), Addition("q", None)];
    var once := roots + [Addition("c", Some("p"))];
    adds := once + [Addition("c", Some("q"))];
    assert roots[..1] == [Addition("p", None)] && roots[..1][..0] == [];
    assert once[..2] == roots && adds[..3] == once;
    assert Build(roots[..1]) == Forest(map["p" := Node(None, [])], ["p"]);
    assert Build(roots).nodes == map["p" := Node(None, []), "q" := Node(None, [])];
    AddedUnder(Build(roots), "c", "p");
    assert Build(once) == AddNode(Build(roots), "c", Node(Some("p"), []));
    AddedUnder(Build(once), "c", "q");
    assert Build(adds) == AddNode(Build(once), "c", Node(Some("q"), []));
  }

  /**
   * An id added again under another parent: every parent lists its children, yet the
   * former parent still lists the id.
   */
  lemma MovedStepDisagrees() returns (adds: seq<Addition>)
    ensures var f := Build(adds);
            && NoEmptyParent(f) && (exists depth :: Climbs(f, depth))
            && (forall y :: y in f.nodes && ParentOf(f, y).Some? ==> y in ChildrenOf(f, ParentOf(f, y).value))
            && !WalksAgree(f)
  {
    adds := MovedStep();
    var f := Build(adds);
    assert Climbs(f, map["p" := 0, "q" := 0, "c" := 1]);
    assert "c" in ChildrenOf(f, "p") && ParentOf(f, "c") == Some("q");
    WalksAgreeIffLinksAgree(adds);
  }
}
