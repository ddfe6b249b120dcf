/**
 * The breadth-first walk of get_subtree (cognitive/sim_trajectory.py:86-102) on
 * any forest. It keeps no visited set, so it need not end.
 */
module ReasoningSubtrees {
  import opened Wrappers
  import opened ReasoningForest

  function ChildrenOf(f: Forest, p: string): seq<string> {
    if p in f.nodes then f.nodes[p].children else []
  }

  /** The children of the listed steps, one after the other. */
  function AllChildren(f: Forest, ids: seq<string>): seq<string> {
    if ids == [] then [] else
      AllChildren(f, ids[..|ids| - 1]) + ChildrenOf(f, ids[|ids| - 1])
  }

  /** The ids listed from x after visiting i of them: each visit appends the children. */
  function Seen(f: Forest, x: string, i: nat): seq<string> {
    if i == 0 then [x] else
      var before := Seen(f, x, i - 1);
      if i <= |before| then before + ChildrenOf(f, before[i - 1]) else before
  }

  /** The queue runs empty: as many ids are visited as were listed. */
  ghost predicate SubtreeStops(f: Forest, x: string) {
    exists i: nat :: |Seen(f, x, i)| == i
  }

  ghost function Listing(f: Forest, x: string): seq<string>
    requires SubtreeStops(f, x)
  {
    var i: nat :| |Seen(f, x, i)| == i;
    Seen(f, x, i)
  }

  /** The walk skips ids that are not present. */
  function Present(f: Forest, ids: seq<string>): seq<string> {
    if ids == [] then [] else
      var n := |ids| - 1;
      Present(f, ids[..n]) + if ids[n] in f.nodes then [ids[n]] else []
  }

  /** What get_subtree returns for x. */
  ghost function Subtree(f: Forest, x: string): seq<string>
    requires SubtreeStops(f, x)
  {
    Present(f, Listing(f, x))
  }

  lemma {:induction false} PresentAll(f: Forest, ids: seq<string>)
    requires forall y :: y in ids ==> y in f.nodes
    ensures Present(f, ids) == ids
  {
    if ids != [] {
      var n := |ids| - 1;
      PresentAll(f, ids[..n]);
      assert ids == ids[..n] + [ids[n]];
    }
  }

  lemma PresentNext(f: Forest, ids: seq<string>, i: nat)
    requires i < |ids|
    ensures Present(f, ids[..i + 1]) == Present(f, ids[..i]) + if ids[i] in f.nodes then [ids[i]] else []
  {
    assert ids[..i + 1][..i] == ids[..i];
  }

  // ----- the listing -----

  lemma {:induction false} SeenGrows(f: Forest, x: string, i: nat, j: nat)
    requires i <= j
    ensures Seen(f, x, i) <= Seen(f, x, j)
    ensures |Seen(f, x, i)| <= i ==> Seen(f, x, j) == Seen(f, x, i)
    decreases j
  {
    if i < j {
      SeenGrows(f, x, i, j - 1);
    }
  }

  lemma SeenIsListing(f: Forest, x: string, i: nat)
    requires |Seen(f, x, i)| == i
    ensures SubtreeStops(f, x) && Listing(f, x) == Seen(f, x, i)
  {
    var j: nat :| |Seen(f, x, j)| == j && Listing(f, x) == Seen(f, x, j);
    if i <= j { SeenGrows(f, x, i, j); } else { SeenGrows(f, x, j, i); }
  }

  /** The visits so far account for everything listed. */
  lemma {:induction false} SeenIsChildren(f: Forest, x: string, i: nat)
    requires i <= |Seen(f, x, i)|
    ensures Seen(f, x, i) == [x] + AllChildren(f, Seen(f, x, i)[..i])
  {
    if i > 0 {
      var before, seen := Seen(f, x, i - 1), Seen(f, x, i);
      assert i <= |before|;
      SeenIsChildren(f, x, i - 1);
      assert seen[..i][..i - 1] == before[..i - 1] && seen[..i][i - 1] == before[i - 1];
    } else {
      assert [x][..0] == [];
    }
  }

  lemma ListingIsChildren(f: Forest, x: string)
    requires SubtreeStops(f, x)
    ensures Listing(f, x) == [x] + AllChildren(f, Listing(f, x))
  {
    var i: nat :| |Seen(f, x, i)| == i && Listing(f, x) == Seen(f, x, i);
    SeenIsChildren(f, x, i);
    assert Seen(f, x, i)[..i] == Seen(f, x, i);
  }

  lemma {:induction false} InAllChildren(f: Forest, ids: seq<string>, c: string)
    ensures c in AllChildren(f, ids) <==> exists j :: 0 <= j < |ids| && c in ChildrenOf(f, ids[j])
  {
    if ids != [] {
      InAllChildren(f, ids[..|ids| - 1], c);
    }
  }

  /** A listed id is the start or a child of a listed id. */
  lemma ListedFrom(f: Forest, x: string, c: string)
    requires SubtreeStops(f, x)
    ensures c in Listing(f, x) <==> c == x || exists p :: p in Listing(f, x) && c in ChildrenOf(f, p)
  {
    var ids := Listing(f, x);
    ListingIsChildren(f, x);
    InAllChildren(f, ids, c);
    assert c in ids <==> c == x || c in AllChildren(f, ids);
  }

  /** Each child of a visited id is listed after it. */
  lemma ChildAfter(f: Forest, x: string, n: nat, j: nat, c: string) returns (k: nat)
    requires |Seen(f, x, n)| == n && j < n && c in ChildrenOf(f, Seen(f, x, n)[j])
    ensures j < k < n && Seen(f, x, n)[k] == c
  {
    var seen, before := Seen(f, x, n), Seen(f, x, j);
    SeenGrows(f, x, j, n);
    SeenGrows(f, x, j + 1, n);
    assert |before| > j && before[j] == seen[j];
    var cs := ChildrenOf(f, seen[j]);
    var m :| 0 <= m < |cs| && cs[m] == c;
    k := |before| + m;
    assert Seen(f, x, j + 1)[k] == c;
  }

  // ----- when the walk ends -----

  /** rank holds x and, with each id, its children, which rank lower. */
  ghost predicate Falls(f: Forest, x: string, rank: map<string, nat>) {
    x in rank && forall p, c :: p in rank && c in ChildrenOf(f, p) ==> c in rank && rank[c] < rank[p]
  }

  /** The number of ids listed below the given ones, themselves included. */
  ghost function Size(f: Forest, x: string, rank: map<string, nat>, ids: seq<string>, bound: nat): nat
    requires Falls(f, x, rank) && forall p :: p in ids ==> p in rank && rank[p] < bound
    decreases bound, |ids|
  {
    if ids == [] then 0 else
      1 + Size(f, x, rank, ChildrenOf(f, ids[0]), rank[ids[0]]) + Size(f, x, rank, ids[1..], bound)
  }

  lemma {:induction false} SizeBound(f: Forest, x: string, rank: map<string, nat>, ids: seq<string>, a: nat, b: nat)
    requires Falls(f, x, rank) && a <= b && forall p :: p in ids ==> p in rank && rank[p] < a
    ensures Size(f, x, rank, ids, a) == Size(f, x, rank, ids, b)
    decreases |ids|
  {
    if ids != [] {
      SizeBound(f, x, rank, ids[1..], a, b);
    }
  }

  lemma {:induction false} SizeConcat(f: Forest, x: string, rank: map<string, nat>,
                                      ids: seq<string>, more: seq<string>, bound: nat)
    requires Falls(f, x, rank) && forall p :: p in ids + more ==> p in rank && rank[p] < bound
    requires forall p :: p in ids || p in more ==> p in ids + more
    ensures Size(f, x, rank, ids + more, bound) == Size(f, x, rank, ids, bound) + Size(f, x, rank, more, bound)
    decreases |ids|
  {
    if ids == [] {
      assert ids + more == more;
    } else {
      assert (ids + more)[1..] == ids[1..] + more;
      SizeConcat(f, x, rank, ids[1..], more, bound);
    }
  }

  /** Every visit pays for one of the ids below the queue. */
  lemma VisitPays(f: Forest, x: string, rank: map<string, nat>, queue: seq<string>, bound: nat)
    requires Falls(f, x, rank) && queue != [] && forall p :: p in queue ==> p in rank && rank[p] < bound
    ensures var next := queue[1..] + ChildrenOf(f, queue[0]);
            && (forall p :: p in next ==> p in rank && rank[p] < bound)
            && Size(f, x, rank, queue, bound) == 1 + Size(f, x, rank, next, bound)
  {
    var cs := ChildrenOf(f, queue[0]);
    assert queue[0] in queue;
    SizeConcat(f, x, rank, queue[1..], cs, bound);
    SizeBound(f, x, rank, cs, rank[queue[0]], bound);
  }

  lemma SeenNext(f: Forest, x: string, i: nat)
    requires i < |Seen(f, x, i)|
    ensures i + 1 <= |Seen(f, x, i + 1)|
    ensures var queue := Seen(f, x, i)[i..];
            Seen(f, x, i + 1)[i + 1..] == queue[1..] + ChildrenOf(f, queue[0])
  {
  }

  /** One visit of a walk that ends after n: the queue moves on, and the id is kept if it is present. */
  lemma VisitNext(f: Forest, x: string, n: nat, i: nat)
    requires |Seen(f, x, n)| == n && i <= n && i < |Seen(f, x, i)|
    ensures i < n && i + 1 <= |Seen(f, x, i + 1)|
    ensures var queue, v := Seen(f, x, i)[i..], Seen(f, x, i)[i];
            && Seen(f, x, i + 1)[i + 1..] == queue[1..] + ChildrenOf(f, v)
            && Present(f, Seen(f, x, i + 1)[..i + 1])
               == Present(f, Seen(f, x, i)[..i]) + if v in f.nodes then [v] else []
  {
    SeenNext(f, x, i);
    SeenGrows(f, x, i, i + 1);
    PresentNext(f, Seen(f, x, i + 1), i);
    assert Seen(f, x, i + 1)[..i] == Seen(f, x, i)[..i];
  }

  lemma {:induction false} FallStopsFrom(f: Forest, x: string, rank: map<string, nat>,
                                         bound: nat, i: nat, queue: seq<string>)
    requires Falls(f, x, rank) && i <= |Seen(f, x, i)| && queue == Seen(f, x, i)[i..]
    requires forall p :: p in queue ==> p in rank && rank[p] < bound
    ensures SubtreeStops(f, x)
    decreases Size(f, x, rank, queue, bound)
  {
    if queue != [] {
      VisitPays(f, x, rank, queue, bound);
      SeenNext(f, x, i);
      FallStopsFrom(f, x, rank, bound, i + 1, queue[1..] + ChildrenOf(f, queue[0]));
    }
  }

  /** The last place at which an id is listed. */
  ghost function LastIndex(ids: seq<string>, p: string): (j: nat)
    requires p in ids
    ensures j < |ids| && ids[j] == p && forall k :: j < k < |ids| ==> ids[k] != p
  {
    var n := |ids| - 1;
    if ids[n] == p then n else LastIndex(ids[..n], p)
  }

  lemma StopFalls(f: Forest, x: string, n: nat) returns (rank: map<string, nat>)
    requires |Seen(f, x, n)| == n
    ensures Falls(f, x, rank)
  {
    var seen := Seen(f, x, n);
    SeenGrows(f, x, 0, n);
    assert seen[0] == x;
    rank := map p | p in seen :: n - LastIndex(seen, p);
    forall p, c | p in rank && c in ChildrenOf(f, p) ensures c in rank && rank[c] < rank[p] {
      var k := ChildAfter(f, x, n, LastIndex(seen, p), c);
      assert c in seen && LastIndex(seen, c) >= k;
    }
  }

  /** The walk from x ends exactly when the ids below x can be ranked: no id hangs below itself there. */
  lemma SubtreeStopsIffFalls(f: Forest, x: string)
    ensures SubtreeStops(f, x) <==> exists rank :: Falls(f, x, rank)
  {
    if n: nat :| |Seen(f, x, n)| == n {
      var rank := StopFalls(f, x, n);
    }
    if rank :| Falls(f, x, rank) {
      FallStopsFrom(f, x, rank, rank[x] + 1, 0, [x]);
    }
  }

  /** A step that is its own child is listed again at every visit. */
  lemma OwnChildLoops(f: Forest, y: string)
    requires y in ChildrenOf(f, y)
    ensures !SubtreeStops(f, y)
  {
    SubtreeStopsIffFalls(f, y);
  }

  /** Adding a step as its own parent, to any forest, makes both walks from it endless. */
  lemma OwnParentAdded(f: Forest, id: string)
    requires id != ""
    ensures var g := AddNode(f, id, Node(Some(id), []));
            id in g.nodes && !PathStops(g, id) && !SubtreeStops(g, id)
  {
    var g := AddNode(f, id, Node(Some(id), []));
    assert g.nodes[id] == Node(Some(id), [id]);
    OwnParentLoops(g, id);
    OwnChildLoops(g, id);
  }
}
