/**
 When exactly a projection is in normal form, for any path whatever was compacted: the placements respect the
 order of the summaries and none lies behind a surviving node. Both are visible from the replaced ids alone.
 */
module NormalFormExact {
  import opened Items
  import opened Projection
  import opened Compaction

  ghost predicate NodeAt(s: seq<Item>, i: nat, id: NodeId) {
    i < |s| && s[i].node == id
  }

  ghost predicate Shows(s: seq<Item>, id: NodeId) {
    exists i: nat :: NodeAt(s, i, id)
  }

  ghost predicate Before(s: seq<Item>, a: NodeId, b: NodeId) {
    exists i: nat, j: nat :: i < j && NodeAt(s, i, a) && NodeAt(s, j, b)
  }

  predicate DistinctNodes(s: seq<Item>) {
    forall i, j | 0 <= i < j < |s| :: s[i].node != s[j].node
  }

  lemma NotBothWays(s: seq<Item>, a: NodeId, b: NodeId)
    requires DistinctNodes(s) && Before(s, a, b)
    ensures !Before(s, b, a)
  {}

  lemma BeforeConcat(s: seq<Item>, t: seq<Item>, a: NodeId, b: NodeId)
    requires Shows(s, a)
    requires Shows(t, b)
    ensures Before(s + t, a, b)
  {
    var i: nat :| NodeAt(s, i, a);
    var j: nat :| NodeAt(t, j, b);
    assert NodeAt(s + t, i, a) && NodeAt(s + t, |s| + j, b);
  }

  lemma BeforeExtend(s: seq<Item>, t: seq<Item>, a: NodeId, b: NodeId)
    requires Before(s, a, b)
    ensures Before(s + t, a, b)
  {
    var i: nat, j: nat :| i < j && NodeAt(s, i, a) && NodeAt(s, j, b);
    assert NodeAt(s + t, i, a) && NodeAt(s + t, j, b);
  }

  lemma ExtendAt(s: seq<Item>, t: seq<Item>, id: NodeId)
    requires Shows(s, id)
    ensures Shows(s + t, id)
  {
    var i: nat :| NodeAt(s, i, id);
    assert NodeAt(s + t, i, id);
  }

  lemma ShiftAt(s: seq<Item>, t: seq<Item>, id: NodeId)
    requires Shows(t, id)
    ensures Shows(s + t, id)
  {
    var i: nat :| NodeAt(t, i, id);
    assert NodeAt(s + t, |s| + i, id);
  }

  // ---------------------------------------------------------------- where nodes stand in the projection

  lemma {:induction false} PlacedSummary(path: seq<Node>, branch: BranchId, p: nat, n: nat)
    requires p < n <= |path| && IsCompaction(path[p])
    ensures Shows(SummariesAt(path, branch, PlaceFrom(path, 0, p), n), path[p].id)
  {
    var v := PlaceFrom(path, 0, p);
    if p == n - 1 {
      assert NodeAt(SummariesAt(path, branch, v, n), |SummariesAt(path, branch, v, n - 1)|, path[p].id);
    } else {
      PlacedSummary(path, branch, p, n - 1);
      var rest := SummariesAt(path, branch, v, n - 1);
      ExtendAt(rest, if IsCompaction(path[n - 1]) && PlaceFrom(path, 0, n - 1) == v then [ItemOf(path[n - 1], branch)]
                     else [], path[p].id);
    }
  }

  lemma {:induction false} EmittedBefore(path: seq<Node>, branch: BranchId, v: nat, n: nat, id: NodeId)
    requires v < n <= |path| && Shows(EmitAt(path, branch, v), id)
    ensures Shows(EmitUpTo(path, branch, n), id)
  {
    if v == n - 1 {
      ShiftAt(EmitUpTo(path, branch, n - 1), EmitAt(path, branch, v), id);
    } else {
      EmittedBefore(path, branch, v, n - 1, id);
      ExtendAt(EmitUpTo(path, branch, n - 1), EmitAt(path, branch, n - 1), id);
    }
  }

  lemma {:induction false} EmitOrder(path: seq<Node>, branch: BranchId, v: nat, w: nat, n: nat, a: NodeId, b: NodeId)
    requires v < w < n <= |path|
    requires Shows(EmitAt(path, branch, v), a)
    requires Shows(EmitAt(path, branch, w), b)
    ensures Before(EmitUpTo(path, branch, n), a, b)
  {
    if w == n - 1 {
      EmittedBefore(path, branch, v, w, a);
      BeforeConcat(EmitUpTo(path, branch, w), EmitAt(path, branch, w), a, b);
    } else {
      EmitOrder(path, branch, v, w, n - 1, a, b);
      BeforeExtend(EmitUpTo(path, branch, n - 1), EmitAt(path, branch, n - 1), a, b);
    }
  }

  lemma SummaryEmitted(path: seq<Node>, branch: BranchId, p: nat)
    requires p < |path| && IsCompaction(path[p])
    ensures Shows(EmitAt(path, branch, PlaceFrom(path, 0, p)), path[p].id)
  {
    var v := PlaceFrom(path, 0, p);
    PlacedSummary(path, branch, p, |path|);
    ExtendAt(SummariesAt(path, branch, v, |path|), OwnItem(path, branch, v), path[p].id);
  }

  lemma SurvivorEmitted(path: seq<Node>, branch: BranchId, u: nat)
    requires u < |path| && Survives(path, u)
    ensures Shows(EmitAt(path, branch, u), path[u].id)
  {
    assert NodeAt([ItemOf(path[u], branch)], 0, path[u].id);
    ShiftAt(SummariesAt(path, branch, u, |path|), [ItemOf(path[u], branch)], path[u].id);
  }

  // ---------------------------------------------------------------- where nodes stand in the normal form

  lemma {:induction false} SummaryListed(path: seq<Node>, branch: BranchId, p: nat, n: nat)
    requires p < n <= |path| && IsCompaction(path[p])
    ensures Shows(SummariesUpTo(path, branch, n), path[p].id)
  {
    var rest := SummariesUpTo(path, branch, n - 1);
    if p == n - 1 {
      assert NodeAt(SummariesUpTo(path, branch, n), |rest|, path[p].id);
    } else {
      SummaryListed(path, branch, p, n - 1);
      ExtendAt(rest, [ItemOf(path[n - 1], branch)], path[p].id);
    }
  }

  lemma {:induction false} SummaryOrder(path: seq<Node>, branch: BranchId, p: nat, q: nat, n: nat)
    requires p < q < n <= |path| && IsCompaction(path[p]) && IsCompaction(path[q])
    ensures Before(SummariesUpTo(path, branch, n), path[p].id, path[q].id)
  {
    var rest := SummariesUpTo(path, branch, n - 1);
    if q == n - 1 {
      SummaryListed(path, branch, p, n - 1);
      assert NodeAt([ItemOf(path[q], branch)], 0, path[q].id);
      BeforeConcat(rest, [ItemOf(path[q], branch)], path[p].id, path[q].id);
    } else {
      SummaryOrder(path, branch, p, q, n - 1);
      BeforeExtend(rest, [ItemOf(path[n - 1], branch)], path[p].id, path[q].id);
    }
  }

  lemma {:induction false} SurvivorListed(path: seq<Node>, branch: BranchId, u: nat, n: nat)
    requires u < n <= |path| && Survives(path, u)
    ensures Shows(SurvivorsUpTo(path, branch, n), path[u].id)
  {
    var rest := SurvivorsUpTo(path, branch, n - 1);
    if u == n - 1 {
      assert NodeAt(SurvivorsUpTo(path, branch, n), |rest|, path[u].id);
    } else {
      SurvivorListed(path, branch, u, n - 1);
      ExtendAt(rest, [ItemOf(path[n - 1], branch)], path[u].id);
    }
  }

  /** Each part lists nodes of the first `n` positions, each once, summaries in one and the rest in the other. */
  lemma {:induction false} SummaryNodes(path: seq<Node>, branch: BranchId, n: nat)
    requires n <= |path| && DistinctIds(path)
    ensures DistinctNodes(SummariesUpTo(path, branch, n))
    ensures forall x | x in SummariesUpTo(path, branch, n) :: exists p ::
            0 <= p < n && IsCompaction(path[p]) && x.node == path[p].id
  {
    if n != 0 { SummaryNodes(path, branch, n - 1); }
  }

  lemma {:induction false} SurvivorNodes(path: seq<Node>, branch: BranchId, n: nat)
    requires n <= |path| && DistinctIds(path)
    ensures DistinctNodes(SurvivorsUpTo(path, branch, n))
    ensures forall x | x in SurvivorsUpTo(path, branch, n) :: exists p ::
            0 <= p < n && !IsCompaction(path[p]) && x.node == path[p].id
  {
    if n != 0 { SurvivorNodes(path, branch, n - 1); }
  }

  lemma NormalFormNodes(path: seq<Node>, branch: BranchId)
    requires DistinctIds(path)
    ensures DistinctNodes(NormalForm(path, branch))
  {
    SummaryNodes(path, branch, |path|);
    SurvivorNodes(path, branch, |path|);
    var a, b := SummariesUpTo(path, branch, |path|), SurvivorsUpTo(path, branch, |path|);
    forall i, j | 0 <= i < |a| && 0 <= j < |b| ensures a[i].node != b[j].node {
      assert a[i] in a && b[j] in b;
    }
  }

  lemma MisorderedShows(path: seq<Node>, branch: BranchId, p: nat, q: nat)
    requires DistinctIds(path) && p < q < |path| && IsCompaction(path[p]) && IsCompaction(path[q])
    requires PlaceFrom(path, 0, q) < PlaceFrom(path, 0, p)
    ensures Project(path, branch) != NormalForm(path, branch)
  {
    SummaryEmitted(path, branch, p);
    SummaryEmitted(path, branch, q);
    EmitOrder(path, branch, PlaceFrom(path, 0, q), PlaceFrom(path, 0, p), |path|, path[q].id, path[p].id);
    SummaryOrder(path, branch, p, q, |path|);
    BeforeExtend(SummariesUpTo(path, branch, |path|), SurvivorsUpTo(path, branch, |path|), path[p].id, path[q].id);
    NormalFormNodes(path, branch);
    NotBothWays(NormalForm(path, branch), path[p].id, path[q].id);
  }

  lemma BehindSurvivorShows(path: seq<Node>, branch: BranchId, p: nat, u: nat)
    requires DistinctIds(path) && p < |path| && u < |path| && IsCompaction(path[p]) && Survives(path, u)
    requires u < PlaceFrom(path, 0, p)
    ensures Project(path, branch) != NormalForm(path, branch)
  {
    SummaryEmitted(path, branch, p);
    SurvivorEmitted(path, branch, u);
    EmitOrder(path, branch, u, PlaceFrom(path, 0, p), |path|, path[u].id, path[p].id);
    SummaryListed(path, branch, p, |path|);
    SurvivorListed(path, branch, u, |path|);
    BeforeConcat(SummariesUpTo(path, branch, |path|), SurvivorsUpTo(path, branch, |path|), path[p].id, path[u].id);
    NormalFormNodes(path, branch);
    NotBothWays(NormalForm(path, branch), path[p].id, path[u].id);
  }

  /**
   For every path: the projection is in normal form if and only if the placements are ordered and in front of all
   survivors.
   */
  lemma NormalFormExactlyWhen(path: seq<Node>, branch: BranchId)
    requires DistinctIds(path)
    ensures Project(path, branch) == NormalForm(path, branch) <==> OrderedFrom(path, 0) && InFrontFrom(path, 0)
  {
    if !OrderedFrom(path, 0) {
      var p, q :| 0 <= p < q < |path| && IsCompaction(path[p]) && IsCompaction(path[q]) &&
        PlaceFrom(path, 0, p) > PlaceFrom(path, 0, q);
      MisorderedShows(path, branch, p, q);
    } else if !InFrontFrom(path, 0) {
      var p, u :| 0 <= p < |path| && 0 <= u < |path| && IsCompaction(path[p]) && Survives(path, u) &&
        PlaceFrom(path, 0, p) > u;
      BehindSurvivorShows(path, branch, p, u);
    } else {
      OrderedGivesNormalForm(path, branch);
    }
  }
}
