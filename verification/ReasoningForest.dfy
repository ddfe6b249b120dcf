/**
 * The forest of reasoning steps as a value and the upward walk in it
 * (cognitive/sim_trajectory.py:49-84). Nothing is assumed of the ids and
 * parents that are added, so the walk need not end.
 */
module ReasoningForest {
  import opened Wrappers
  import opened Sequences

  datatype Node = Node(parent: Option<string>, children: seq<string>)

  datatype Forest = Forest(nodes: map<string, Node>, roots: seq<string>)

  const EMPTY_FOREST := Forest(map[], [])

  /** The effect of add_step for any id and parent, fresh or not, present or not. */
  function AddNode(f: Forest, id: string, node: Node): Forest {
    var added := f.nodes[id := node];
    match node.parent
    case None => Forest(added, f.roots + [id])
    case Some(p) =>
      if p in added then
        Forest(added[p := added[p].(children := added[p].children + [id])], f.roots)
      else
        Forest(added, f.roots)
  }

  /** A call of add_step, as the id and parent of the step. */
  datatype Addition = Addition(id: string, parent: Option<string>)

  function Build(adds: seq<Addition>): Forest {
    if adds == [] then EMPTY_FOREST else
      var last := adds[|adds| - 1];
      AddNode(Build(adds[..|adds| - 1]), last.id, Node(last.parent, []))
  }

  /** Every listed child is present. */
  ghost predicate Closed(f: Forest) {
    forall p, c :: p in f.nodes && c in f.nodes[p].children ==> c in f.nodes
  }

  /** Steps are never removed, so this holds after any additions. */
  lemma {:induction false} BuiltIsClosed(adds: seq<Addition>)
    ensures Closed(Build(adds))
  {
    if adds != [] {
      BuiltIsClosed(adds[..|adds| - 1]);
    }
  }

  // ----- the upward walk -----

  /** Where get_path_to_step goes next: to the parent, if its id is not empty and it is present. */
  function ParentOf(f: Forest, y: string): Option<string>
    requires y in f.nodes
  {
    match f.nodes[y].parent
    case None => None
    case Some(p) => if p != "" && p in f.nodes then Some(p) else None
  }

  /** The path to y, if the walk ends within n moves. */
  function Walk(f: Forest, y: string, n: nat): Option<seq<string>>
    requires y in f.nodes
    decreases n
  {
    match ParentOf(f, y)
    case None => Some([y])
    case Some(p) =>
      if n == 0 then None else
      match Walk(f, p, n - 1)
      case None => None
      case Some(path) => Some(path + [y])
  }

  ghost predicate PathStops(f: Forest, y: string)
    requires y in f.nodes
  {
    exists n: nat :: Walk(f, y, n).Some?
  }

  ghost function Path(f: Forest, y: string): seq<string>
    requires y in f.nodes && PathStops(f, y)
  {
    var n: nat :| Walk(f, y, n).Some?;
    Walk(f, y, n).value
  }

  /** The part of the path above y. */
  ghost function Above(f: Forest, y: string): seq<string>
    requires y in f.nodes && PathStops(f, y)
  {
    Path(f, y)[..|Path(f, y)| - 1]
  }

  lemma {:induction false} WalkMore(f: Forest, y: string, n: nat, m: nat)
    requires y in f.nodes && n <= m && Walk(f, y, n).Some?
    ensures Walk(f, y, m) == Walk(f, y, n)
    decreases n
  {
    match ParentOf(f, y)
    case None =>
    case Some(p) => WalkMore(f, p, n - 1, m - 1);
  }

  lemma WalkIsPath(f: Forest, y: string, n: nat)
    requires y in f.nodes && Walk(f, y, n).Some?
    ensures PathStops(f, y) && Path(f, y) == Walk(f, y, n).value
  {
    var m: nat :| Walk(f, y, m).Some? && Path(f, y) == Walk(f, y, m).value;
    WalkMore(f, y, if n < m then n else m, if n < m then m else n);
  }

  /** The walk from y ends exactly when the one from its parent does, and adds y to it. */
  lemma PathStep(f: Forest, y: string)
    requires y in f.nodes
    ensures match ParentOf(f, y)
            case None => PathStops(f, y) && Path(f, y) == [y]
            case Some(p) => (PathStops(f, y) <==> PathStops(f, p))
                            && (PathStops(f, y) ==> Path(f, y) == Path(f, p) + [y])
  {
    match ParentOf(f, y)
    case None =>
      WalkIsPath(f, y, 0);
    case Some(p) =>
      if PathStops(f, y) {
        var n: nat :| Walk(f, y, n).Some?;
        WalkIsPath(f, y, n);
        WalkIsPath(f, p, n - 1);
      } else if PathStops(f, p) {
        var n: nat :| Walk(f, p, n).Some?;
        assert Walk(f, y, n + 1).Some?;
      }
  }

  lemma PathEnds(f: Forest, y: string)
    requires y in f.nodes && PathStops(f, y)
    ensures Path(f, y) == Above(f, y) + [y]
    ensures match ParentOf(f, y)
            case None => Above(f, y) == []
            case Some(p) => PathStops(f, p) && Above(f, y) == Above(f, p) + [p]
  {
    PathStep(f, y);
    if ParentOf(f, y).Some? {
      PathStep(f, ParentOf(f, y).value);
    }
  }

  /** One round of the loop of get_path_to_step, which grows the path from its end. */
  lemma ClimbOnce(f: Forest, y: string, whole: seq<string>, tail: seq<string>)
    requires y in f.nodes && PathStops(f, y) && whole == Above(f, y) + tail
    ensures match ParentOf(f, y)
            case None => whole == tail
            case Some(p) => PathStops(f, p) && |Path(f, p)| < |Path(f, y)| && whole == Above(f, p) + ([p] + tail)
  {
    PathEnds(f, y);
    PathStep(f, y);
    if ParentOf(f, y).Some? {
      Associates(Above(f, ParentOf(f, y).value), [ParentOf(f, y).value], tail);
    }
  }

  /** Each step of a path has the path up to it as its own. */
  lemma {:induction false} PathPrefix(f: Forest, y: string, i: nat)
    requires y in f.nodes && PathStops(f, y) && i < |Path(f, y)|
    ensures var x := Path(f, y)[i];
            x in f.nodes && PathStops(f, x) && Path(f, x) == Path(f, y)[..i + 1]
    decreases |Path(f, y)|
  {
    PathStep(f, y);
    if i < |Path(f, y)| - 1 {
      var p := ParentOf(f, y).value;
      PathPrefix(f, p, i);
      assert Path(f, y)[..i + 1] == Path(f, p)[..i + 1];
    } else {
      assert Path(f, y)[..i + 1] == Path(f, y);
    }
  }

  /** The path ends in y, starts where there is no parent to go to, and each element is the next one's parent. */
  lemma PathIsChain(f: Forest, y: string)
    requires y in f.nodes && PathStops(f, y)
    ensures var path := Path(f, y);
            && path != [] && path[|path| - 1] == y && NoDuplicates(path)
            && (forall i :: 0 <= i < |path| ==> path[i] in f.nodes)
            && ParentOf(f, path[0]) == None
            && (forall i :: 0 <= i < |path| - 1 ==> ParentOf(f, path[i + 1]) == Some(path[i]))
  {
    var path := Path(f, y);
    PathStep(f, y);
    forall i | 0 <= i < |path|
      ensures path[i] in f.nodes && PathStops(f, path[i]) && Path(f, path[i]) == path[..i + 1]
    {
      PathPrefix(f, y, i);
    }
    PathEnds(f, path[0]);
    forall i | 0 <= i < |path| - 1 ensures ParentOf(f, path[i + 1]) == Some(path[i]) {
      PathEnds(f, path[i + 1]);
      assert Above(f, path[i + 1]) == path[..i + 1];
    }
    forall i, j | 0 <= i < j < |path| ensures path[i] != path[j] {
      assert |Path(f, path[i])| == i + 1;
      assert |Path(f, path[j])| == j + 1;
    }
  }

  /** A step on the path of y is no deeper than y, and is y if it is as deep. */
  lemma OnPath(f: Forest, x: string, y: string)
    requires y in f.nodes && PathStops(f, y) && x in Path(f, y)
    ensures x in f.nodes && PathStops(f, x) && |Path(f, x)| <= |Path(f, y)|
    ensures |Path(f, x)| == |Path(f, y)| ==> x == y
    ensures forall z :: z in Path(f, x) ==> z in Path(f, y)
  {
    var path := Path(f, y);
    var i: nat :| i < |path| && path[i] == x;
    PathPrefix(f, y, i);
    PathEnds(f, y);
    PathEnds(f, x);
  }

  // ----- when the walks end -----

  /** depth decreases along every move to a parent. */
  ghost predicate Climbs(f: Forest, depth: map<string, nat>) {
    && f.nodes.Keys <= depth.Keys
    && forall y {:trigger ParentOf(f, y)} :: y in f.nodes && ParentOf(f, y).Some? ==>
         depth[ParentOf(f, y).value] < depth[y]
  }

  lemma {:induction false} ClimbStops(f: Forest, depth: map<string, nat>, y: string)
    requires Climbs(f, depth) && y in f.nodes
    ensures PathStops(f, y)
    decreases depth[y]
  {
    PathStep(f, y);
    if ParentOf(f, y).Some? {
      ClimbStops(f, depth, ParentOf(f, y).value);
    }
  }

  /** All upward walks end exactly when the present parents leave room for a depth. */
  lemma PathsStopIffClimbs(f: Forest)
    ensures (forall y :: y in f.nodes ==> PathStops(f, y)) <==> exists depth :: Climbs(f, depth)
  {
    if forall y :: y in f.nodes ==> PathStops(f, y) {
      var depth := map y | y in f.nodes :: |Path(f, y)|;
      forall y | y in f.nodes && ParentOf(f, y).Some? ensures depth[ParentOf(f, y).value] < depth[y] {
        PathStep(f, y);
      }
      assert Climbs(f, depth);
    }
    if depth :| Climbs(f, depth) {
      forall y | y in f.nodes ensures PathStops(f, y) {
        ClimbStops(f, depth, y);
      }
    }
  }

  /** A step that is its own parent is never left again. */
  lemma OwnParentLoops(f: Forest, y: string)
    requires y in f.nodes && ParentOf(f, y) == Some(y)
    ensures !PathStops(f, y)
  {
    PathStep(f, y);
  }

  /** Fresh ids are not enough: a step under a parent that only comes later, and then hangs below it. */
  lemma LateParentLoops(f: Forest, a: string, b: string)
    requires a != b && a != "" && b != ""
    ensures var g := AddNode(AddNode(f, a, Node(Some(b), [])), b, Node(Some(a), []));
            a in g.nodes && b in g.nodes && !PathStops(g, a) && !PathStops(g, b)
  {
    var g := AddNode(AddNode(f, a, Node(Some(b), [])), b, Node(Some(a), []));
    assert ParentOf(g, a) == Some(b) && ParentOf(g, b) == Some(a);
    PathStep(g, a);
    PathStep(g, b);
  }
}
