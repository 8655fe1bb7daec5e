/**
 A summary added behind summaries that are in order: the projection lists the old ones as before and puts the new one
 behind those that start no later. How many that are is all that can change when the path is cut.
 */
module LateSummary {
  import opened Sequences
  import opened Items
  import opened Projection
  import opened Compaction
  import opened LivePath
  import opened NormalFormExact

  /** Summaries placed in [a, b), oldest first. */
  function PlacedBetween(path: seq<Node>, branch: BranchId, a: nat, b: nat, n: nat): seq<Item>
    requires n <= |path|
  {
    if n == 0 then []
    else
      var rest := PlacedBetween(path, branch, a, b, n - 1);
      if IsCompaction(path[n - 1]) && a <= PlaceFrom(path, 0, n - 1) < b then rest + [ItemOf(path[n - 1], branch)]
      else rest
  }

  lemma {:induction false} BetweenStep(path: seq<Node>, branch: BranchId, a: nat, m: nat, n: nat)
    requires n <= |path| && a <= m && OrderedFrom(path, 0)
    ensures PlacedBetween(path, branch, a, m + 1, n) ==
            PlacedBetween(path, branch, a, m, n) + SummariesAt(path, branch, m, n)
  {
    if n != 0 {
      BetweenStep(path, branch, a, m, n - 1);
      if IsCompaction(path[n - 1]) && PlaceFrom(path, 0, n - 1) < m {
        NonePlacedAt(path, branch, m, n - 1);
      }
    }
  }

  lemma {:induction false} BetweenNone(path: seq<Node>, branch: BranchId, a: nat, n: nat)
    requires n <= |path|
    ensures PlacedBetween(path, branch, a, a, n) == []
  {
    if n != 0 { BetweenNone(path, branch, a, n - 1); }
  }

  lemma {:induction false} BelowAll(path: seq<Node>, branch: BranchId, v: nat, n: nat)
    requires n <= |path| <= v
    ensures PlacedBelow(path, branch, v, n) == SummariesUpTo(path, branch, n)
  {
    if n != 0 { BelowAll(path, branch, v, n - 1); }
  }

  lemma {:induction false} BelowThenBetween(path: seq<Node>, branch: BranchId, a: nat, b: nat)
    requires a <= b && OrderedFrom(path, 0)
    ensures PlacedBelow(path, branch, b, |path|) ==
            PlacedBelow(path, branch, a, |path|) + PlacedBetween(path, branch, a, b, |path|)
    decreases b
  {
    if a == b {
      BetweenNone(path, branch, a, |path|);
    } else {
      BelowThenBetween(path, branch, a, b - 1);
      PlacedBelowStep(path, branch, b - 1, |path|);
      BetweenStep(path, branch, a, b - 1, |path|);
      Assoc(PlacedBelow(path, branch, a, |path|), PlacedBetween(path, branch, a, b - 1, |path|),
            SummariesAt(path, branch, b - 1, |path|));
    }
  }

  // ---------------------------------------------------------------- emitting with one more summary

  lemma {:induction false} SummariesAppend(path: seq<Node>, node: Node, branch: BranchId, v: nat, n: nat)
    requires n <= |path|
    ensures SummariesAt(path + [node], branch, v, n) == SummariesAt(path, branch, v, n)
  {
    if n != 0 {
      SummariesAppend(path, node, branch, v, n - 1);
      PlaceAppend(path, [node], 0, n - 1);
    }
  }

  lemma SummariesLast(path: seq<Node>, node: Node, branch: BranchId, v: nat)
    requires IsCompaction(node)
    ensures SummariesAt(path + [node], branch, v, |path| + 1) ==
            SummariesAt(path, branch, v, |path|) +
            if PlaceFrom(path + [node], 0, |path|) == v then [ItemOf(node, branch)] else []
  {
    SummariesAppend(path, node, branch, v, |path|);
  }

  /** The summaries before place `v` once `item` is placed at `m` behind the others there. */
  function LateUpTo(path: seq<Node>, branch: BranchId, m: nat, item: Item, v: nat): seq<Item> {
    if v <= m then PlacedBelow(path, branch, v, |path|)
    else PlacedBelow(path, branch, m + 1, |path|) + [item] + PlacedBetween(path, branch, m + 1, v, |path|)
  }

  lemma LateStep(path: seq<Node>, node: Node, branch: BranchId, v: nat)
    requires IsCompaction(node) && OrderedFrom(path, 0)
    ensures var m, item := PlaceFrom(path + [node], 0, |path|), ItemOf(node, branch);
            LateUpTo(path, branch, m, item, v + 1) ==
            LateUpTo(path, branch, m, item, v) + SummariesAt(path + [node], branch, v, |path| + 1)
  {
    var m, item := PlaceFrom(path + [node], 0, |path|), ItemOf(node, branch);
    SummariesLast(path, node, branch, v);
    if v <= m {
      PlacedBelowStep(path, branch, v, |path|);
      BetweenNone(path, branch, m + 1, |path|);
      Assoc(PlacedBelow(path, branch, v, |path|), SummariesAt(path, branch, v, |path|), [item]);
    } else {
      BetweenStep(path, branch, m + 1, v, |path|);
      Assoc(PlacedBelow(path, branch, m + 1, |path|) + [item], PlacedBetween(path, branch, m + 1, v, |path|),
            SummariesAt(path, branch, v, |path|));
    }
  }

  lemma {:induction false} LateEmitted(path: seq<Node>, node: Node, branch: BranchId, n: nat)
    requires IsCompaction(node) && OrderedFrom(path, 0) && InFrontFrom(path + [node], 0) && n <= |path| + 1
    ensures EmitUpTo(path + [node], branch, n) ==
            LateUpTo(path, branch, PlaceFrom(path + [node], 0, |path|), ItemOf(node, branch), n) +
            SurvivorsUpTo(path + [node], branch, n)
  {
    var path', m, item := path + [node], PlaceFrom(path + [node], 0, |path|), ItemOf(node, branch);
    if n == 0 {
      PlacedBelowNone(path, branch, |path|);
    } else {
      var i := n - 1;
      LateEmitted(path, node, branch, i);
      LateStep(path, node, branch, i);
      SummariesOrSurvivors(path', branch, i);
      var own := OwnItem(path', branch, i);
      assert SurvivorsUpTo(path', branch, n) == SurvivorsUpTo(path', branch, i) + own;
      Exchange(LateUpTo(path, branch, m, item, i), SurvivorsUpTo(path', branch, i),
               SummariesAt(path', branch, i, |path'|), own);
    }
  }

  // ---------------------------------------------------------------- the shape of the projection

  /** `all` with `item` put behind the first `k`, and then the rest. */
  function Late(all: seq<Item>, k: nat, item: Item, rest: seq<Item>): seq<Item>
    requires k <= |all|
  {
    all[..k] + [item] + all[k..] + rest
  }

  /** How many old summaries the new one is listed behind: those that start no later than it does. */
  function Behind(path: seq<Node>, node: Node, branch: BranchId): nat {
    |PlacedBelow(path, branch, PlaceFrom(path + [node], 0, |path|) + 1, |path|)|
  }

  lemma LateIs(below: seq<Item>, above: seq<Item>, item: Item, rest: seq<Item>)
    ensures Late(below + above, |below|, item, rest) == below + [item] + above + rest
    ensures (below + above)[..|below|] == below
  {
    assert (below + above)[..|below|] == below && (below + above)[|below|..] == above;
  }

  lemma BelowAndAbove(path: seq<Node>, branch: BranchId, m: nat)
    requires OrderedFrom(path, 0) && m <= |path|
    ensures SummariesUpTo(path, branch, |path|) ==
            PlacedBelow(path, branch, m + 1, |path|) + PlacedBetween(path, branch, m + 1, |path| + 1, |path|)
  {
    BelowThenBetween(path, branch, m + 1, |path| + 1);
    BelowAll(path, branch, |path| + 1, |path|);
  }

  lemma LateProjection(path: seq<Node>, node: Node, branch: BranchId)
    requires IsCompaction(node) && OrderedFrom(path, 0) && InFrontFrom(path + [node], 0)
    ensures Behind(path, node, branch) <= |SummariesUpTo(path, branch, |path|)|
    ensures Project(path + [node], branch) ==
            Late(SummariesUpTo(path, branch, |path|), Behind(path, node, branch), ItemOf(node, branch),
                 SurvivorsUpTo(path + [node], branch, |path| + 1))
  {
    var m, n := PlaceFrom(path + [node], 0, |path|), |path| + 1;
    LateEmitted(path, node, branch, n);
    BelowAndAbove(path, branch, m);
    LateIs(PlacedBelow(path, branch, m + 1, |path|), PlacedBetween(path, branch, m + 1, n, |path|),
           ItemOf(node, branch), SurvivorsUpTo(path + [node], branch, n));
  }

  /** They are the first that many. */
  lemma BehindAreFirst(path: seq<Node>, node: Node, branch: BranchId)
    requires OrderedFrom(path, 0)
    ensures Behind(path, node, branch) <= |SummariesUpTo(path, branch, |path|)|
    ensures PlacedBelow(path, branch, PlaceFrom(path + [node], 0, |path|) + 1, |path|) ==
            SummariesUpTo(path, branch, |path|)[..Behind(path, node, branch)]
  {
    var m := PlaceFrom(path + [node], 0, |path|);
    BelowAndAbove(path, branch, m);
    LateIs(PlacedBelow(path, branch, m + 1, |path|), PlacedBetween(path, branch, m + 1, |path| + 1, |path|),
           ItemOf(node, branch), []);
  }

  lemma LateSame(all: seq<Item>, k: nat, l: nat, item: Item, rest: seq<Item>)
    requires k <= |all| && l <= |all| && forall i | 0 <= i < |all| :: all[i].node != item.node
    ensures Late(all, k, item, rest) == Late(all, l, item, rest) <==> k == l
  {
    var a, b := Late(all, k, item, rest), Late(all, l, item, rest);
    if k < l {
      assert a[k] == item && b[k] == all[k];
    } else if l < k {
      assert a[l] == all[l] && b[l] == item;
    }
  }

  // ---------------------------------------------------------------- the same path, cut

  ghost predicate NoSummaryBelow(path: seq<Node>, g: nat) {
    g <= |path| && forall q | 0 <= q < g :: !IsCompaction(path[q])
  }

  lemma {:induction false} SummariesCut(path: seq<Node>, branch: BranchId, g: nat, n: nat)
    requires NoSummaryBelow(path, g) && n <= |path|
    ensures SummariesUpTo(path, branch, n) == if n <= g then [] else SummariesUpTo(path[g..], branch, n - g)
  {
    if n != 0 { SummariesCut(path, branch, g, n - 1); }
  }

  lemma {:induction false} BelowCut(path: seq<Node>, branch: BranchId, g: nat, a: nat, b: nat, n: nat)
    requires NoSummaryBelow(path, g) && n <= |path|
    requires forall p | g <= p < |path| && IsCompaction(path[p]) ::
               PlaceFrom(path, 0, p) < a <==> PlaceFrom(path[g..], 0, p - g) < b
    ensures PlacedBelow(path, branch, a, n) == if n <= g then [] else PlacedBelow(path[g..], branch, b, n - g)
  {
    if n != 0 { BelowCut(path, branch, g, a, b, n - 1); }
  }

  lemma {:induction false} BelowShows(path: seq<Node>, branch: BranchId, m: nat, n: nat, p: nat)
    requires n <= |path| && p < |path| && DistinctIds(path) && IsCompaction(path[p])
    ensures Shows(PlacedBelow(path, branch, m, n), path[p].id) <==> p < n && PlaceFrom(path, 0, p) < m
  {
    if n != 0 {
      BelowShows(path, branch, m, n - 1, p);
      var rest, item := PlacedBelow(path, branch, m, n - 1), ItemOf(path[n - 1], branch);
      ShowsSnoc(rest, item, path[p].id);
      assert item.node == path[p].id <==> p == n - 1;
    }
  }

  lemma ShowsSnoc(s: seq<Item>, x: Item, id: NodeId)
    ensures Shows(s + [x], id) <==> Shows(s, id) || x.node == id
  {
    if Shows(s, id) { ExtendAt(s, [x], id); }
    assert x.node == id ==> NodeAt(s + [x], |s|, id);
    if i: nat :| NodeAt(s + [x], i, id) {
      assert i < |s| ==> NodeAt(s, i, id);
    }
  }

  /** On the path and on the cut path the new summary is listed behind the same old ones. */
  ghost predicate SameBehind(path: seq<Node>, node: Node, g: nat)
    requires g <= |path|
  {
    forall p | g <= p < |path| && IsCompaction(path[p]) ::
      PlaceFrom(path, 0, p) <= PlaceFrom(path + [node], 0, |path|) <==>
      PlaceFrom(path, g, p) <= PlaceFrom(path + [node], g, |path|)
  }

  lemma PlacesCut(path: seq<Node>, node: Node, g: nat, p: nat)
    requires g <= p < |path|
    ensures PlaceFrom(path[g..], 0, p - g) + g == PlaceFrom(path, g, p)
    ensures PlaceFrom(path[g..] + [node], 0, |path| - g) + g == PlaceFrom(path + [node], g, |path|)
  {
    PlaceCut(path, g, p);
    PlaceCut(path + [node], g, |path|);
    assert (path + [node])[g..] == path[g..] + [node];
  }

  lemma SameBehindCounts(path: seq<Node>, node: Node, g: nat, branch: BranchId)
    requires NoSummaryBelow(path, g) && SameBehind(path, node, g)
    ensures Behind(path, node, branch) == Behind(path[g..], node, branch)
  {
    var a, b := PlaceFrom(path + [node], 0, |path|) + 1, PlaceFrom(path[g..] + [node], 0, |path| - g) + 1;
    forall p | g <= p < |path| && IsCompaction(path[p])
      ensures PlaceFrom(path, 0, p) < a <==> PlaceFrom(path[g..], 0, p - g) < b
    {
      PlacesCut(path, node, g, p);
    }
    BelowCut(path, branch, g, a, b, |path|);
  }

  lemma SameCount(path: seq<Node>, g: nat, branch: BranchId, a: nat, b: nat, p: nat)
    requires DistinctIds(path) && g <= p < |path| && IsCompaction(path[p])
    requires PlacedBelow(path, branch, a, |path|) == PlacedBelow(path[g..], branch, b, |path| - g)
    ensures PlaceFrom(path, 0, p) < a <==> PlaceFrom(path[g..], 0, p - g) < b
  {
    BelowShows(path, branch, a, |path|, p);
    BelowShows(path[g..], branch, b, |path| - g, p - g);
  }

  lemma {:induction false} SummariesAreOld(path: seq<Node>, branch: BranchId, n: nat, id: NodeId)
    requires n <= |path| && FreshId(path, id)
    ensures forall i | 0 <= i < |SummariesUpTo(path, branch, n)| :: SummariesUpTo(path, branch, n)[i].node != id
  {
    if n != 0 { SummariesAreOld(path, branch, n - 1, id); }
  }

  /** A summary behind old ones in order, on the whole path and on the cut. */
  ghost predicate LateOnBoth(path: seq<Node>, node: Node, g: nat) {
    && DistinctIds(path) && FreshId(path, node.id) && IsCompaction(node)
    && g <= |path| && Droppable(path + [node], g)
    && OrderedFrom(path, 0) && OrderedFrom(path[g..], 0)
    && InFrontFrom(path + [node], 0) && InFrontFrom(path[g..] + [node], 0)
  }

  lemma LateNoSummaryBelow(path: seq<Node>, node: Node, g: nat)
    requires g <= |path| && Droppable(path + [node], g)
    ensures NoSummaryBelow(path, g)
  {
    assert forall q | 0 <= q < g :: (path + [node])[q] == path[q];
  }

  /** What is left after the summaries does not depend on the cut. */
  lemma CutSurvivors(path: seq<Node>, node: Node, g: nat, branch: BranchId)
    requires g <= |path| && Droppable(path + [node], g)
    ensures SurvivorsUpTo(path[g..] + [node], branch, |path| - g + 1) ==
            SurvivorsUpTo(path + [node], branch, |path| + 1)
  {
    assert (path + [node])[g..] == path[g..] + [node];
    CutKeepsReplaced(path + [node], g);
    CutKeepsSurvivors(path + [node], branch, g, |path| + 1);
  }

  lemma CutCounts(path: seq<Node>, node: Node, g: nat, branch: BranchId)
    requires LateOnBoth(path, node, g)
    ensures Project(path[g..] + [node], branch) == Project(path + [node], branch) <==>
            Behind(path[g..], node, branch) == Behind(path, node, branch)
  {
    LateProjection(path, node, branch);
    LateProjection(path[g..], node, branch);
    LateNoSummaryBelow(path, node, g);
    SummariesCut(path, branch, g, |path|);
    CutSurvivors(path, node, g, branch);
    SummariesAreOld(path, branch, |path|, node.id);
    LateSame(SummariesUpTo(path, branch, |path|), Behind(path, node, branch), Behind(path[g..], node, branch),
             ItemOf(node, branch), SurvivorsUpTo(path + [node], branch, |path| + 1));
  }

  lemma CountsGiveSame(path: seq<Node>, node: Node, g: nat, branch: BranchId)
    requires LateOnBoth(path, node, g) && Behind(path[g..], node, branch) == Behind(path, node, branch)
    ensures SameBehind(path, node, g)
  {
    BehindAreFirst(path, node, branch);
    BehindAreFirst(path[g..], node, branch);
    LateNoSummaryBelow(path, node, g);
    SummariesCut(path, branch, g, |path|);
    var a, b := PlaceFrom(path + [node], 0, |path|) + 1, PlaceFrom(path[g..] + [node], 0, |path| - g) + 1;
    if g < |path| {
      forall p | g <= p < |path| && IsCompaction(path[p])
        ensures PlaceFrom(path, 0, p) < a <==> PlaceFrom(path, g, p) <= PlaceFrom(path + [node], g, |path|)
      {
        SameCount(path, g, branch, a, b, p);
        PlacesCut(path, node, g, p);
      }
    }
  }

  /**
   A path and its cut below `g` project alike with the new summary exactly when, on both, the new summary is listed
   behind the same old ones.
   */
  lemma CutShowsSameExactlyWhen(path: seq<Node>, node: Node, g: nat, branch: BranchId)
    requires LateOnBoth(path, node, g)
    ensures Project(path[g..] + [node], branch) == Project(path + [node], branch) <==> SameBehind(path, node, g)
  {
    CutCounts(path, node, g, branch);
    if SameBehind(path, node, g) {
      LateNoSummaryBelow(path, node, g);
      SameBehindCounts(path, node, g, branch);
    } else if Behind(path[g..], node, branch) == Behind(path, node, branch) {
      CountsGiveSame(path, node, g, branch);
    }
  }
}
