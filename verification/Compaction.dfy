/**
 Compaction of a live conversation (agent/compact.go `selectCompactionNodes`, runtime/history.go
 `CompactContext` and `setCompactionFloor`) and what it does to the projection: every summary in the order
 of creation, then exactly the nodes never replaced, wherever the path is cut below the floor.
 */
module Compaction {
  import opened Items
  import opened Projection

  // ---------------------------------------------------------------- normal form

  function SummariesUpTo(path: seq<Node>, branch: BranchId, n: nat): seq<Item>
    requires n <= |path|
  {
    if n == 0 then []
    else
      var rest := SummariesUpTo(path, branch, n - 1);
      if IsCompaction(path[n - 1]) then rest + [ItemOf(path[n - 1], branch)] else rest
  }

  function SurvivorsUpTo(path: seq<Node>, branch: BranchId, n: nat): seq<Item>
    requires n <= |path|
  {
    if n == 0 then []
    else
      var rest := SurvivorsUpTo(path, branch, n - 1);
      if Survives(path, n - 1) then rest + [ItemOf(path[n - 1], branch)] else rest
  }

  /** All summaries, oldest first, then the nodes no summary replaced, in path order. */
  function NormalForm(path: seq<Node>, branch: BranchId): seq<Item> {
    SummariesUpTo(path, branch, |path|) + SurvivorsUpTo(path, branch, |path|)
  }

  /** Cut off below `floor`, later summaries are not placed before earlier ones. */
  ghost predicate OrderedFrom(path: seq<Node>, floor: nat) {
    forall p, q | floor <= p < q < |path| && IsCompaction(path[p]) && IsCompaction(path[q]) ::
      PlaceFrom(path, floor, p) <= PlaceFrom(path, floor, q)
  }

  /** Cut off below `floor`, no summary is placed behind a surviving node. */
  ghost predicate InFrontFrom(path: seq<Node>, floor: nat) {
    forall p, u | floor <= p < |path| && floor <= u < |path| && IsCompaction(path[p]) && Survives(path, u) ::
      PlaceFrom(path, floor, p) <= u
  }

  function PlacedBelow(path: seq<Node>, branch: BranchId, m: nat, n: nat): seq<Item>
    requires n <= |path|
  {
    if n == 0 then []
    else
      var rest := PlacedBelow(path, branch, m, n - 1);
      if IsCompaction(path[n - 1]) && PlaceFrom(path, 0, n - 1) < m then rest + [ItemOf(path[n - 1], branch)] else rest
  }

  lemma {:induction false} NonePlacedAt(path: seq<Node>, branch: BranchId, v: nat, n: nat)
    requires n <= |path|
    requires forall p | 0 <= p < n && IsCompaction(path[p]) :: PlaceFrom(path, 0, p) != v
    ensures SummariesAt(path, branch, v, n) == []
  {
    if n != 0 { NonePlacedAt(path, branch, v, n - 1); }
  }

  lemma {:induction false} PlacedBelowStep(path: seq<Node>, branch: BranchId, m: nat, n: nat)
    requires n <= |path| && OrderedFrom(path, 0)
    ensures PlacedBelow(path, branch, m + 1, n) == PlacedBelow(path, branch, m, n) + SummariesAt(path, branch, m, n)
  {
    if n != 0 {
      PlacedBelowStep(path, branch, m, n - 1);
      if IsCompaction(path[n - 1]) && PlaceFrom(path, 0, n - 1) < m {
        NonePlacedAt(path, branch, m, n - 1);
      }
    }
  }

  lemma {:induction false} PlacedBelowNone(path: seq<Node>, branch: BranchId, n: nat)
    requires n <= |path|
    ensures PlacedBelow(path, branch, 0, n) == []
  {
    if n != 0 { PlacedBelowNone(path, branch, n - 1); }
  }

  lemma {:induction false} PlacedBelowAll(path: seq<Node>, branch: BranchId, n: nat)
    requires n <= |path|
    ensures PlacedBelow(path, branch, |path|, n) == SummariesUpTo(path, branch, n)
  {
    if n != 0 { PlacedBelowAll(path, branch, n - 1); }
  }

  lemma {:induction false} SurvivorBefore(path: seq<Node>, branch: BranchId, n: nat) returns (u: nat)
    requires n <= |path| && SurvivorsUpTo(path, branch, n) != []
    ensures u < n && Survives(path, u)
  {
    if Survives(path, n - 1) { u := n - 1; } else { u := SurvivorBefore(path, branch, n - 1); }
  }

  lemma Exchange<T>(a: seq<T>, b: seq<T>, c: seq<T>, d: seq<T>)
    requires b == [] || c == []
    ensures (a + b) + (c + d) == (a + c) + (b + d)
  {}

  lemma SummariesOrSurvivors(path: seq<Node>, branch: BranchId, i: nat)
    requires i <= |path| && InFrontFrom(path, 0)
    ensures SurvivorsUpTo(path, branch, i) == [] || SummariesAt(path, branch, i, |path|) == []
  {
    if SurvivorsUpTo(path, branch, i) != [] {
      var u := SurvivorBefore(path, branch, i);
      NonePlacedAt(path, branch, i, |path|);
    }
  }

  lemma {:induction false} EmittedSoFar(path: seq<Node>, branch: BranchId, n: nat)
    requires n <= |path| && OrderedFrom(path, 0) && InFrontFrom(path, 0)
    ensures EmitUpTo(path, branch, n) == PlacedBelow(path, branch, n, |path|) + SurvivorsUpTo(path, branch, n)
  {
    if n == 0 {
      PlacedBelowNone(path, branch, |path|);
    } else {
      var i := n - 1;
      EmittedSoFar(path, branch, i);
      PlacedBelowStep(path, branch, i, |path|);
      SummariesOrSurvivors(path, branch, i);
      var own := OwnItem(path, branch, i);
      assert SurvivorsUpTo(path, branch, n) == SurvivorsUpTo(path, branch, i) + own;
      Exchange(PlacedBelow(path, branch, i, |path|), SurvivorsUpTo(path, branch, i),
               SummariesAt(path, branch, i, |path|), own);
    }
  }

  /** Ordered placements in front of every survivor give the normal form. */
  lemma OrderedGivesNormalForm(path: seq<Node>, branch: BranchId)
    requires OrderedFrom(path, 0) && InFrontFrom(path, 0)
    ensures Project(path, branch) == NormalForm(path, branch)
  {
    EmittedSoFar(path, branch, |path|);
    PlacedBelowAll(path, branch, |path|);
  }

  // ---------------------------------------------------------------- cutting a path below its floor

  lemma {:induction false} FirstListedCut(path: seq<Node>, g: nat, ids: seq<NodeId>, lo: nat, hi: nat)
    requires g <= |path| && lo <= hi <= |path| - g
    ensures FirstListed(path[g..], ids, lo, hi) + g == FirstListed(path, ids, lo + g, hi + g)
    decreases hi - lo
  {
    if lo != hi { FirstListedCut(path, g, ids, lo + 1, hi); }
  }

  lemma PlaceCut(path: seq<Node>, g: nat, p: nat)
    requires g <= p < |path|
    ensures PlaceFrom(path[g..], 0, p - g) + g == PlaceFrom(path, g, p)
  {
    FirstListedCut(path, g, ReplacedBy(path[p]), 0, p + 1 - g);
  }

  lemma {:induction false} ReplacedIdsAppend(a: seq<Node>, b: seq<Node>)
    ensures ReplacedIds(a + b) == ReplacedIds(a) + ReplacedIds(b)
  {
    if b == [] {
      assert a + b == a;
    } else {
      ReplacedIdsAppend(a, b[..|b| - 1]);
      assert (a + b)[..|a + b| - 1] == a + b[..|b| - 1];
    }
  }

  lemma {:induction false} NothingReplacedBy(path: seq<Node>)
    requires forall q | 0 <= q < |path| :: !IsCompaction(path[q])
    ensures ReplacedIds(path) == {}
  {
    if path != [] { NothingReplacedBy(path[..|path| - 1]); }
  }

  lemma {:induction false} InReplaced(path: seq<Node>, id: NodeId)
    ensures id in ReplacedIds(path) <==> exists p :: 0 <= p < |path| && id in ReplacedBy(path[p])
  {
    if path != [] {
      var init, last := path[..|path| - 1], path[|path| - 1];
      InReplaced(init, id);
      if id in ReplacedIds(init) {
        var p :| 0 <= p < |init| && id in ReplacedBy(init[p]);
        assert path[p] == init[p];
      }
    }
  }

  /** Everything below `g` is replaced and none of it is a summary. */
  ghost predicate Droppable(path: seq<Node>, g: nat) {
    g <= |path| && forall q | 0 <= q < g :: !IsCompaction(path[q]) && path[q].id in ReplacedIds(path)
  }

  lemma CutKeepsReplaced(path: seq<Node>, g: nat)
    requires Droppable(path, g)
    ensures ReplacedIds(path[g..]) == ReplacedIds(path)
  {
    assert path == path[..g] + path[g..];
    ReplacedIdsAppend(path[..g], path[g..]);
    NothingReplacedBy(path[..g]);
  }

  lemma {:induction false} CutKeepsSummaries(path: seq<Node>, branch: BranchId, g: nat, n: nat)
    requires Droppable(path, g) && n <= |path|
    ensures SummariesUpTo(path, branch, n) == if n <= g then [] else SummariesUpTo(path[g..], branch, n - g)
  {
    if n != 0 { CutKeepsSummaries(path, branch, g, n - 1); }
  }

  lemma {:induction false} CutKeepsSurvivors(path: seq<Node>, branch: BranchId, g: nat, n: nat)
    requires Droppable(path, g) && n <= |path| && ReplacedIds(path[g..]) == ReplacedIds(path)
    ensures SurvivorsUpTo(path, branch, n) == if n <= g then [] else SurvivorsUpTo(path[g..], branch, n - g)
  {
    if n != 0 { CutKeepsSurvivors(path, branch, g, n - 1); }
  }

  /** Dropping replaced nodes does not change what should be shown. */
  lemma CutKeepsNormalForm(path: seq<Node>, branch: BranchId, g: nat)
    requires Droppable(path, g)
    ensures NormalForm(path[g..], branch) == NormalForm(path, branch)
  {
    CutKeepsReplaced(path, g);
    CutKeepsSummaries(path, branch, g, |path|);
    CutKeepsSurvivors(path, branch, g, |path|);
  }

  lemma CutProjection(path: seq<Node>, branch: BranchId, g: nat)
    requires Droppable(path, g) && OrderedFrom(path, g) && InFrontFrom(path, g)
    ensures Project(path[g..], branch) == NormalForm(path, branch)
  {
    var v := path[g..];
    CutKeepsReplaced(path, g);
    CutKeepsNormalForm(path, branch, g);
    forall p | 0 <= p < |v| ensures PlaceFrom(v, 0, p) + g == PlaceFrom(path, g, p + g) {
      PlaceCut(path, g, p + g);
    }
    assert OrderedFrom(v, 0);
    assert InFrontFrom(v, 0) by {
      forall p, u | 0 <= p < |v| && 0 <= u < |v| && IsCompaction(v[p]) && Survives(v, u) ensures PlaceFrom(v, 0, p) <= u
      {
        assert Survives(path, u + g);
      }
    }
    OrderedGivesNormalForm(v, branch);
  }
}
