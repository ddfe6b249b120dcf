/**
 * When the upward and the downward walk tell the same story
 * (cognitive/sim_trajectory.py:56-102), for any sequence of additions.
 */
module ReasoningDuality {
  import opened Wrappers
  import opened Sequences
  import opened ReasoningForest
  import opened ReasoningSubtrees

  /** A step's children are, each once, the steps that name it as their parent and can go there. */
  ghost predicate LinksAgree(f: Forest) {
    && (forall p {:trigger f.nodes[p]} :: p in f.nodes ==> NoDuplicates(f.nodes[p].children))
    && forall p, c {:trigger ChildrenOf(f, p), ParentOf(f, c)} :: p in f.nodes && c in f.nodes ==>
         (c in ChildrenOf(f, p) <==> ParentOf(f, c) == Some(p))
  }

  ghost predicate Dual(f: Forest, x: string, y: string)
    requires x in f.nodes && y in f.nodes && SubtreeStops(f, x) && PathStops(f, y)
  {
    y in Subtree(f, x) <==> x in Path(f, y)
  }

  /** Both walks end everywhere, get_subtree lists nothing twice, and y is below x exactly when x is above y. */
  ghost predicate WalksAgree(f: Forest) {
    && (forall y :: y in f.nodes ==> PathStops(f, y) && SubtreeStops(f, y))
    && (forall x :: x in f.nodes ==> NoDuplicates(Subtree(f, x)))
    && forall x, y :: x in f.nodes && y in f.nodes ==> Dual(f, x, y)
  }

  lemma {:induction false} SeenIsPresent(f: Forest, x: string, i: nat)
    requires Closed(f) && x in f.nodes
    ensures forall y :: y in Seen(f, x, i) ==> y in f.nodes
  {
    if i > 0 {
      SeenIsPresent(f, x, i - 1);
      var before := Seen(f, x, i - 1);
      if i <= |before| {
        assert before[i - 1] in before;
      }
    }
  }

  lemma ListingIsSubtree(f: Forest, x: string)
    requires Closed(f) && x in f.nodes && SubtreeStops(f, x)
    ensures Subtree(f, x) == Listing(f, x)
  {
    var n: nat :| |Seen(f, x, n)| == n && Listing(f, x) == Seen(f, x, n);
    SeenIsPresent(f, x, n);
    PresentAll(f, Listing(f, x));
  }

  // ----- agreeing links make agreeing walks -----

  /** What was listed so far is listed once, present, and below x. */
  ghost predicate Listed(f: Forest, x: string, seen: seq<string>) {
    NoDuplicates(seen) && forall y :: y in seen ==> y in f.nodes && PathStops(f, y) && x in Path(f, y)
  }

  ghost predicate Sound(f: Forest) {
    Closed(f) && LinksAgree(f) && forall y :: y in f.nodes ==> PathStops(f, y)
  }

  lemma ChildIsNew(f: Forest, x: string, i: nat, c: string)
    requires Sound(f) && i < |Seen(f, x, i)| && Listed(f, x, Seen(f, x, i)) && c in ChildrenOf(f, Seen(f, x, i)[i])
    ensures c in f.nodes && c !in Seen(f, x, i) && x in Path(f, c)
  {
    var seen := Seen(f, x, i);
    var v := seen[i];
    assert v in seen && ParentOf(f, c) == Some(v);
    PathStep(f, c);
    OnPath(f, x, v);
    assert c != x;
    SeenIsChildren(f, x, i);
    InAllChildren(f, seen[..i], c);
    forall j | 0 <= j < i ensures c !in ChildrenOf(f, seen[j]) {
      assert seen[j] in seen && seen[j] != v;
    }
  }

  lemma {:induction false} SeenIsListed(f: Forest, x: string, i: nat)
    requires Sound(f) && x in f.nodes
    ensures Listed(f, x, Seen(f, x, i))
  {
    if i == 0 {
      PathEnds(f, x);
    } else {
      SeenIsListed(f, x, i - 1);
      var before := Seen(f, x, i - 1);
      if i <= |before| {
        forall c | c in ChildrenOf(f, before[i - 1]) ensures c in f.nodes && c !in before && x in Path(f, c) {
          ChildIsNew(f, x, i - 1, c);
        }
        assert before[i - 1] in before;
        AppendDistinct(before, ChildrenOf(f, before[i - 1]));
      }
    }
  }

  lemma DistinctFits(f: Forest, seen: seq<string>)
    requires NoDuplicates(seen) && forall y :: y in seen ==> y in f.nodes
    ensures |seen| <= |f.nodes|
  {
    DistinctSize(seen);
    var all := set y | y in seen;
    assert all <= f.nodes.Keys;
    SubsetSize(all, f.nodes.Keys);
  }

  lemma {:induction false} SoundStopsFrom(f: Forest, x: string, i: nat)
    requires Sound(f) && x in f.nodes && i <= |Seen(f, x, i)|
    ensures SubtreeStops(f, x)
    decreases |f.nodes| - i
  {
    if i < |Seen(f, x, i)| {
      SeenIsListed(f, x, i);
      DistinctFits(f, Seen(f, x, i));
      SoundStopsFrom(f, x, i + 1);
    }
  }

  lemma {:induction false} ListsDescendants(f: Forest, x: string, y: string)
    requires Sound(f) && SubtreeStops(f, x) && y in f.nodes && x in Path(f, y)
    ensures y in Listing(f, x)
    decreases |Path(f, y)|
  {
    ListedFrom(f, x, y);
    if y != x {
      PathStep(f, y);
      var p := ParentOf(f, y).value;
      ListsDescendants(f, x, p);
      assert y in ChildrenOf(f, p);
    }
  }

  lemma SoundAgrees(f: Forest)
    requires Sound(f)
    ensures WalksAgree(f)
  {
    forall x | x in f.nodes
      ensures SubtreeStops(f, x) && NoDuplicates(Subtree(f, x))
           && forall y :: y in f.nodes ==> Dual(f, x, y)
    {
      SoundStopsFrom(f, x, 0);
      ListingIsSubtree(f, x);
      var n: nat :| |Seen(f, x, n)| == n && Listing(f, x) == Seen(f, x, n);
      SeenIsListed(f, x, n);
      forall y | y in f.nodes ensures Dual(f, x, y) {
        if x in Path(f, y) {
          ListsDescendants(f, x, y);
        }
      }
    }
  }

  // ----- agreeing walks need agreeing links -----

  lemma ApartInConcat(s: seq<string>, t: seq<string>, c: string)
    requires NoDuplicates(s + t) && c in s
    ensures c !in t
  {
    var i :| 0 <= i < |s| && s[i] == c;
    forall j | 0 <= j < |t| ensures t[j] != c {
      assert (s + t)[i] == s[i] && (s + t)[|s| + j] == t[j];
    }
  }

  lemma {:induction false} ChildrenApart(f: Forest, ids: seq<string>, j: nat, k: nat, c: string)
    requires NoDuplicates(AllChildren(f, ids)) && j < k < |ids|
    requires c in ChildrenOf(f, ids[j])
    ensures c !in ChildrenOf(f, ids[k])
  {
    var n := |ids| - 1;
    var before, last := AllChildren(f, ids[..n]), ChildrenOf(f, ids[n]);
    assert AllChildren(f, ids) == before + last;
    if k == n {
      InAllChildren(f, ids[..n], c);
      assert ids[..n][j] == ids[j];
      ApartInConcat(before, last, c);
    } else {
      assert forall a, b :: 0 <= a < b < |before| ==>
          (before + last)[a] == before[a] && (before + last)[b] == before[b];
      ChildrenApart(f, ids[..n], j, k, c);
    }
  }

  lemma {:induction false} ChildrenOnce(f: Forest, ids: seq<string>, p: string)
    requires NoDuplicates(AllChildren(f, ids)) && p in ids
    ensures NoDuplicates(ChildrenOf(f, p))
  {
    var n := |ids| - 1;
    var before, last := AllChildren(f, ids[..n]), ChildrenOf(f, ids[n]);
    assert AllChildren(f, ids) == before + last;
    if ids[n] == p {
      assert forall a :: 0 <= a < |last| ==> (before + last)[|before| + a] == last[a];
    } else {
      assert forall a :: 0 <= a < |before| ==> (before + last)[a] == before[a];
      ChildrenOnce(f, ids[..n], p);
    }
  }

  /** The listing without its start is duplicate-free and does not hold the start. */
  lemma ListingTail(f: Forest, x: string)
    requires SubtreeStops(f, x) && NoDuplicates(Listing(f, x))
    ensures var all := AllChildren(f, Listing(f, x)); NoDuplicates(all) && x !in all
  {
    var ids := Listing(f, x);
    ListingIsChildren(f, x);
    var all := AllChildren(f, ids);
    assert forall a :: 0 <= a < |all| ==> ids[1 + a] == all[a];
    assert ids[0] == x;
  }

  lemma UnderOne(f: Forest, ids: seq<string>, p: string, q: string, c: string)
    requires NoDuplicates(AllChildren(f, ids)) && p in ids && q in ids && c in ChildrenOf(f, p) && c in ChildrenOf(f, q)
    ensures p == q
  {
    var j :| 0 <= j < |ids| && ids[j] == p;
    var k :| 0 <= k < |ids| && ids[k] == q;
    if j < k { ChildrenApart(f, ids, j, k, c); }
    if k < j { ChildrenApart(f, ids, k, j, c); }
  }

  /** A listing without repetitions: no id is its own child, listed under two ids, or listed twice under one. */
  lemma ListingApart(f: Forest, x: string, p: string, q: string, c: string)
    requires SubtreeStops(f, x) && NoDuplicates(Listing(f, x))
    requires p in Listing(f, x) && q in Listing(f, x) && c in ChildrenOf(f, p) && c in ChildrenOf(f, q)
    ensures p == q && c != x && NoDuplicates(ChildrenOf(f, p))
  {
    var ids := Listing(f, x);
    ListingTail(f, x);
    ChildrenOnce(f, ids, p);
    InAllChildren(f, ids, c);
    UnderOne(f, ids, p, q, c);
  }

  ghost predicate Agreeing(f: Forest) {
    Closed(f) && WalksAgree(f) && forall x :: x in f.nodes ==> Listing(f, x) == Subtree(f, x)
  }

  lemma {:induction false} PresentIn(f: Forest, ids: seq<string>, y: string)
    requires y in Present(f, ids)
    ensures y in f.nodes
  {
    var n := |ids| - 1;
    if y in Present(f, ids[..n]) {
      PresentIn(f, ids[..n], y);
    }
  }

  lemma SubtreePresent(f: Forest, x: string, y: string)
    requires SubtreeStops(f, x) && y in Subtree(f, x)
    ensures y in f.nodes
  {
    PresentIn(f, Listing(f, x), y);
  }

  /** A step that can go to its parent is listed among the parent's children. */
  lemma ParentListsIt(f: Forest, c: string, q: string)
    requires Agreeing(f) && c in f.nodes && ParentOf(f, c) == Some(q)
    ensures c in ChildrenOf(f, q)
  {
    PathStep(f, c);
    PathEnds(f, q);
    assert Dual(f, q, c) && q in Path(f, c);
    ListedFrom(f, q, c);
    assert c != q;
    var r :| r in Listing(f, q) && c in ChildrenOf(f, r);
    assert r in f.nodes;
    SubtreePresent(f, q, r);
    assert Dual(f, q, r) && Dual(f, r, c);
    ListedFrom(f, r, c);
    ListedFrom(f, r, r);
    ListingApart(f, r, r, r, c);
    OnPath(f, q, r);
    OnPath(f, r, q);
  }

  /** A listed child names the step that lists it as its parent. */
  lemma ChildNamesParent(f: Forest, p: string, c: string)
    requires Agreeing(f) && p in f.nodes && c in ChildrenOf(f, p)
    ensures c in f.nodes && ParentOf(f, c) == Some(p) && NoDuplicates(f.nodes[p].children)
  {
    ListedFrom(f, p, c);
    ListedFrom(f, p, p);
    ListingApart(f, p, p, p, c);
    assert Dual(f, p, c) && p in Path(f, c);
    PathStep(f, c);
    var q := ParentOf(f, c).value;
    ParentListsIt(f, c, q);
    assert p in Path(f, q) && Dual(f, p, q);
    ListingApart(f, p, p, q, c);
  }

  lemma AgreeingIsLinked(f: Forest)
    requires Agreeing(f)
    ensures LinksAgree(f)
  {
    forall p, c | p in f.nodes && c in f.nodes ensures c in ChildrenOf(f, p) <==> ParentOf(f, c) == Some(p) {
      if c in ChildrenOf(f, p) { ChildNamesParent(f, p, c); }
      if ParentOf(f, c) == Some(p) { ParentListsIt(f, c, p); }
    }
    forall p | p in f.nodes ensures NoDuplicates(f.nodes[p].children) {
      var cs := f.nodes[p].children;
      if cs != [] {
        assert cs[0] in ChildrenOf(f, p);
        ChildNamesParent(f, p, cs[0]);
      }
    }
  }

  /**
   * For whatever sequence of add_step calls: the two walks end everywhere and
   * agree exactly when parents and children agree and the parents leave room
   * for a depth.
   */
  lemma WalksAgreeIffLinksAgree(adds: seq<Addition>)
    ensures var f := Build(adds); WalksAgree(f) <==> LinksAgree(f) && exists depth :: Climbs(f, depth)
  {
    var f := Build(adds);
    BuiltIsClosed(adds);
    PathsStopIffClimbs(f);
    if WalksAgree(f) {
      forall x | x in f.nodes ensures Listing(f, x) == Subtree(f, x) {
        ListingIsSubtree(f, x);
      }
      AgreeingIsLinked(f);
    }
    if Sound(f) {
      SoundAgrees(f);
    }
  }
}
