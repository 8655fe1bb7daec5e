/** The floor of a branch as an index, and the loops of agent/compact.go and runtime/history.go that choose nodes. */
module CompactionFloor {
  import opened Items
  import opened Projection
  import opened LivePath
  import opened ConversationTree

  /** Where the walk from the head stops: at the node named by the floor, or at the root. */
  function FloorIndex(chain: seq<Node>, floor: NodeId): (f: nat)
    ensures f <= |chain|
  {
    if chain == [] then 0
    else if chain[|chain| - 1].id == floor then |chain| - 1
    else FloorIndex(chain[..|chain| - 1], floor)
  }

  lemma {:induction false} FloorIndexCuts(chain: seq<Node>, floor: NodeId)
    ensures FromFloor(chain, floor) == chain[FloorIndex(chain, floor)..]
  {
    if chain != [] && chain[|chain| - 1].id != floor {
      var init := chain[..|chain| - 1];
      FloorIndexCuts(init, floor);
      var f := FloorIndex(init, floor);
      assert chain[f..] == init[f..] + [chain[|chain| - 1]];
    }
  }

  lemma {:induction false} FloorIndexAt(chain: seq<Node>, f: nat)
    requires DistinctIds(chain) && f < |chain|
    ensures FloorIndex(chain, chain[f].id) == f
  {
    if f < |chain| - 1 { FloorIndexAt(chain[..|chain| - 1], f); }
  }

  /** New nodes do not move the floor. */
  lemma {:induction false} FloorIndexKept(chain: seq<Node>, added: seq<Node>, floor: NodeId)
    requires forall i | 0 <= i < |added| :: added[i].id != floor
    ensures FloorIndex(chain + added, floor) == FloorIndex(chain, floor)
  {
    if added == [] {
      assert chain + added == chain;
    } else {
      FloorIndexKept(chain, added[..|added| - 1], floor);
      assert (chain + added)[..|chain + added| - 1] == chain + added[..|added| - 1];
    }
  }

  function FloorOf(chain: seq<Node>, floors: map<BranchId, NodeId>, branch: BranchId): (f: nat)
    ensures f <= |chain|
  {
    if branch in floors then FloorIndex(chain, floors[branch]) else 0
  }

  /** Whether every id names a node. */
  method AllKnown(nodes: Nodes, ids: seq<NodeId>) returns (ok: bool)
    ensures ok <==> forall i | 0 <= i < |ids| :: ids[i] != "" && ids[i] in nodes
  {
    for i := 0 to |ids|
      invariant forall k | 0 <= k < i :: ids[k] != "" && ids[k] in nodes
    {
      if ids[i] == "" || ids[i] !in nodes {
        return false;
      }
    }
    ok := true;
  }

  method FindUnlisted(path: seq<Node>, ids: seq<NodeId>) returns (q: nat)
    ensures q == FirstUnlisted(path, ids)
  {
    q := 0;
    while q < |path|
      invariant q <= |path|
      invariant forall k | 0 <= k < q :: path[k].id in ids
    {
      if path[q].id !in ids {
        return;
      }
      q := q + 1;
    }
  }

  /** `selectCompactionNodes` on the visible path. */
  method SelectCompactionNodes(path: seq<Node>, keepWindow: nat) returns (ids: seq<NodeId>)
    ensures ids == SelectNodes(path, keepWindow)
  {
    ids := [];
    if |path| <= keepWindow {
      return;
    }
    for i := 0 to |path| - keepWindow
      invariant ids == NonSummaryIds(path, i)
    {
      if !path[i].payload.CompactionEvent? {
        ids := ids + [path[i].id];
      }
    }
  }
}
