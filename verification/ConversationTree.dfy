/**
 The parent-linked tree of conversation/tree.go. A `Tree` object owns the nodes, the branch heads and the
 per-branch floors; `ChainTo` reads a branch back from its parent links.
 */
module ConversationTree {
  import opened Sequences
  import opened Items
  import opened Projection

  type Nodes = map<NodeId, Node>

  // ---------------------------------------------------------------- parent chains

  /** The nodes from the root to `id`, following parent links; a link already followed is not followed again. */
  function ChainTo(nodes: Nodes, id: NodeId): seq<Node>
    decreases |nodes|
  {
    if id == "" || id !in nodes then []
    else
      assert |nodes - {id}| < |nodes| by { assert (nodes - {id}).Keys == nodes.Keys - {id}; }
      ChainTo(nodes - {id}, nodes[id].parent) + [nodes[id]]
  }

  function IdBefore(path: seq<Node>, i: nat): NodeId
    requires i <= |path|
  {
    if i == 0 then "" else path[i - 1].id
  }

  /** `path` is linked from the root: each node names the one before it as its parent. */
  predicate Linked(path: seq<Node>) {
    forall i | 0 <= i < |path| :: path[i].id != "" && path[i].parent == IdBefore(path, i)
  }

  predicate Holds(nodes: Nodes, path: seq<Node>) {
    forall i | 0 <= i < |path| :: path[i].id in nodes && nodes[path[i].id] == path[i]
  }

  lemma LinkedPrefix(path: seq<Node>)
    requires Linked(path) && path != []
    ensures Linked(path[..|path| - 1]) && path[|path| - 1].parent == HeadId(path[..|path| - 1])
  {
    var init := path[..|path| - 1];
    forall i | 0 <= i < |init| ensures init[i].id != "" && init[i].parent == IdBefore(init, i) {
      assert init[i] == path[i] && IdBefore(init, i) == IdBefore(path, i);
    }
  }

  lemma HoldsWithout(nodes: Nodes, path: seq<Node>)
    requires Holds(nodes, path) && DistinctIds(path) && path != []
    ensures Holds(nodes - {path[|path| - 1].id}, path[..|path| - 1])
    ensures DistinctIds(path[..|path| - 1])
  {}

  lemma ChainUnfold(nodes: Nodes, node: Node)
    requires node.id != "" && node.id in nodes && nodes[node.id] == node
    ensures ChainTo(nodes, node.id) == ChainTo(nodes - {node.id}, node.parent) + [node]
  {}

  lemma ChainOfRoot(nodes: Nodes)
    ensures ChainTo(nodes, "") == []
  {}

  /** A linked path held by the tree is the chain of its last node. */
  lemma {:induction false} ChainIsPath(nodes: Nodes, path: seq<Node>)
    requires Linked(path) && Holds(nodes, path) && DistinctIds(path)
    ensures ChainTo(nodes, HeadId(path)) == path
    decreases |path|
  {
    if path == [] {
      ChainOfRoot(nodes);
    } else {
      var init, last := path[..|path| - 1], path[|path| - 1];
      Unsnoc(path);
      LinkedPrefix(path);
      HoldsWithout(nodes, path);
      ChainIsPath(nodes - {last.id}, init);
      ChainUnfold(nodes, last);
    }
  }

  /** What `Path` returns: the chain from the floor on, or all of it when the floor is not on the chain. */
  function FromFloor(chain: seq<Node>, floor: NodeId): seq<Node> {
    if chain == [] then []
    else if chain[|chain| - 1].id == floor then [chain[|chain| - 1]]
    else FromFloor(chain[..|chain| - 1], floor) + [chain[|chain| - 1]]
  }

  lemma {:induction false} FromFloorAbsent(chain: seq<Node>, floor: NodeId)
    requires forall i | 0 <= i < |chain| :: chain[i].id != floor
    ensures FromFloor(chain, floor) == chain
  {
    if chain != [] {
      FromFloorAbsent(chain[..|chain| - 1], floor);
      assert chain == chain[..|chain| - 1] + [chain[|chain| - 1]];
    }
  }

  // ---------------------------------------------------------------- batches of nodes

  /** The chain of new nodes a batch of payloads becomes. */
  function NewNodes(parent: NodeId, ids: seq<NodeId>, payloads: seq<Payload>): (r: seq<Node>)
    requires |ids| == |payloads|
    ensures |r| == |ids|
    ensures forall i | 0 <= i < |r| :: r[i].id == ids[i] && r[i].payload == payloads[i]
  {
    if ids == [] then []
    else
      var n := |ids| - 1;
      NewNodes(parent, ids[..n], payloads[..n]) + [Node(ids[n], if n == 0 then parent else ids[n - 1], payloads[n])]
  }

  function IdAt(head: NodeId, ids: seq<NodeId>, i: nat): NodeId
    requires i <= |ids|
  {
    if i == 0 then head else ids[i - 1]
  }

  lemma NewNodesSnoc(parent: NodeId, ids: seq<NodeId>, payloads: seq<Payload>, i: nat)
    requires |ids| == |payloads| && i < |ids|
    ensures NewNodes(parent, ids[..i + 1], payloads[..i + 1])
         == NewNodes(parent, ids[..i], payloads[..i]) + [Node(ids[i], IdAt(parent, ids, i), payloads[i])]
  {
    assert ids[..i + 1][..i] == ids[..i] && payloads[..i + 1][..i] == payloads[..i];
  }

  /** Builds a batch below `head`, refused if an id is already taken. */
  method MakeNodes(taken: Nodes, head: NodeId, ids: seq<NodeId>, payloads: seq<Payload>) returns (r: Result<seq<Node>>)
    requires |ids| == |payloads|
    ensures r.Ok? <==> forall id | id in ids :: id !in taken
    ensures r.Ok? ==> r.value == NewNodes(head, ids, payloads)
  {
    var parent, nodes := head, [];
    for i := 0 to |payloads|
      invariant nodes == NewNodes(head, ids[..i], payloads[..i])
      invariant parent == IdAt(head, ids, i)
      invariant forall id | id in ids[..i] :: id !in taken
    {
      if ids[i] in taken {
        assert ids[i] in ids;
        return Err;
      }
      NewNodesSnoc(head, ids, payloads, i);
      nodes := nodes + [Node(ids[i], parent, payloads[i])];
      parent := ids[i];
    }
    assert ids[..|ids|] == ids && payloads[..|payloads|] == payloads;
    return Ok(nodes);
  }

  function NodeBefore(head: NodeId, nodes: seq<Node>, i: nat): NodeId
    requires i <= |nodes|
  {
    if i == 0 then head else nodes[i - 1].id
  }

  /** A chain hanging below `head`. */
  predicate ChainedFrom(head: NodeId, nodes: seq<Node>) {
    forall i | 0 <= i < |nodes| :: nodes[i].id != "" && nodes[i].parent == NodeBefore(head, nodes, i)
  }

  predicate DistinctNew(ids: seq<NodeId>) {
    && (forall i | 0 <= i < |ids| :: ids[i] != "")
    && (forall i, j | 0 <= i < j < |ids| :: ids[i] != ids[j])
  }

  lemma {:induction false} NewNodesChained(head: NodeId, ids: seq<NodeId>, payloads: seq<Payload>)
    requires |ids| == |payloads| && DistinctNew(ids)
    ensures ChainedFrom(head, NewNodes(head, ids, payloads)) && DistinctIds(NewNodes(head, ids, payloads))
  {
    if ids != [] {
      var n := |ids| - 1;
      NewNodesChained(head, ids[..n], payloads[..n]);
      var init, nodes := NewNodes(head, ids[..n], payloads[..n]), NewNodes(head, ids, payloads);
      forall i | 0 <= i < |nodes| ensures nodes[i].id != "" && nodes[i].parent == NodeBefore(head, nodes, i) {
        if i < n { assert nodes[i] == init[i] && NodeBefore(head, nodes, i) == NodeBefore(head, init, i); }
      }
    }
  }

  function AddAll(nodes: Nodes, added: seq<Node>): Nodes {
    if added == [] then nodes else AddAll(nodes, added[..|added| - 1])[added[|added| - 1].id := added[|added| - 1]]
  }

  lemma {:induction false} AddAllKeys(nodes: Nodes, added: seq<Node>)
    ensures forall id | id in AddAll(nodes, added) :: id in nodes || exists i :: 0 <= i < |added| && added[i].id == id
    ensures forall id | id in nodes :: id in AddAll(nodes, added)
  {
    if added != [] {
      AddAllKeys(nodes, added[..|added| - 1]);
      assert forall i | 0 <= i < |added| - 1 :: added[..|added| - 1][i] == added[i];
    }
  }

  lemma AddAllSnoc(nodes: Nodes, added: seq<Node>, i: nat)
    requires i < |added|
    ensures AddAll(nodes, added[..i + 1]) == AddAll(nodes, added[..i])[added[i].id := added[i]]
  {
    assert added[..i + 1][..i] == added[..i];
  }

  lemma NewToTree(nodes: Nodes, added: seq<Node>, i: nat)
    requires i < |added| && DistinctIds(added) && added[i].id !in nodes
    ensures added[i].id !in AddAll(nodes, added[..i])
  {
    AddAllKeys(nodes, added[..i]);
  }

  // ---------------------------------------------------------------- the tree

  /** A witness that parent links lead to the root: the chain of every node. */
  ghost predicate ChainsOk(nodes: Nodes, chains: map<NodeId, seq<Node>>) {
    && "" in chains && chains[""] == [] && "" !in nodes
    && chains.Keys == nodes.Keys + {""}
    && forall id | id in nodes ::
         && nodes[id].id == id
         && nodes[id].parent in chains
         && chains[id] == chains[nodes[id].parent] + [nodes[id]]
  }

  lemma {:induction false} ChainShape(nodes: Nodes, chains: map<NodeId, seq<Node>>, id: NodeId)
    requires ChainsOk(nodes, chains) && id in chains
    ensures Linked(chains[id]) && Holds(nodes, chains[id]) && HeadId(chains[id]) == id
    ensures forall i | 0 <= i < |chains[id]| :: |chains[chains[id][i].id]| == i + 1
    ensures DistinctIds(chains[id])
    decreases |chains[id]|
  {
    if id != "" {
      var parent := nodes[id].parent;
      ChainShape(nodes, chains, parent);
      forall i | 0 <= i < |chains[id]| ensures |chains[chains[id][i].id]| == i + 1 {
        if i < |chains[parent]| { assert chains[id][i] == chains[parent][i]; }
      }
    }
  }

  lemma ChainsAreChains(nodes: Nodes, chains: map<NodeId, seq<Node>>, id: NodeId)
    requires ChainsOk(nodes, chains) && id in chains
    ensures ChainTo(nodes, id) == chains[id]
  {
    ChainShape(nodes, chains, id);
    ChainIsPath(nodes, chains[id]);
  }

  lemma ChainsExtend(nodes: Nodes, chains: map<NodeId, seq<Node>>, node: Node)
    requires ChainsOk(nodes, chains) && node.id != "" && node.id !in nodes && node.parent in chains
    ensures ChainsOk(nodes[node.id := node], chains[node.id := chains[node.parent] + [node]])
  {}

  lemma {:induction false} AddAllKeeps(nodes: Nodes, added: seq<Node>, path: seq<Node>)
    requires Holds(nodes, path) && forall i | 0 <= i < |added| :: added[i].id !in nodes
    ensures Holds(AddAll(nodes, added), path)
  {
    if added != [] { AddAllKeeps(nodes, added[..|added| - 1], path); }
  }

  /** Adding nodes changes no chain that was there. */
  lemma ChainKept(nodes: Nodes, chains: map<NodeId, seq<Node>>, added: seq<Node>, id: NodeId)
    requires ChainsOk(nodes, chains) && id in chains && forall i | 0 <= i < |added| :: added[i].id !in nodes
    ensures ChainTo(AddAll(nodes, added), id) == ChainTo(nodes, id)
  {
    ChainShape(nodes, chains, id);
    AddAllKeeps(nodes, added, chains[id]);
    ChainIsPath(AddAll(nodes, added), chains[id]);
    ChainIsPath(nodes, chains[id]);
  }

  function BranchOr(branch: BranchId): BranchId {
    if branch == "" then MainBranch else branch
  }

  /** The branch heads after the first `n` nodes of a batch. */
  function HeadsAfter(heads: map<BranchId, NodeId>, branch: BranchId, added: seq<Node>, n: nat): map<BranchId, NodeId>
    requires n <= |added|
  {
    if n == 0 then heads else heads[branch := added[n - 1].id]
  }

  lemma HeadsSnoc(heads: map<BranchId, NodeId>, branch: BranchId, added: seq<Node>, n: nat)
    requires n < |added|
    ensures HeadsAfter(heads, branch, added, n)[branch := added[n].id] == HeadsAfter(heads, branch, added, n + 1)
  {}

  class Tree {
    var nodes: Nodes
    var branches: map<BranchId, NodeId>
    var floors: map<BranchId, NodeId>
    ghost var chains: map<NodeId, seq<Node>>

    ghost predicate Valid()
      reads this
    {
      && ChainsOk(nodes, chains)
      && (forall b | b in branches :: branches[b] in chains)
      && (forall b | b in floors :: floors[b] != "")
    }

    /** A branch read from the root, floor or not. */
    ghost function Chain(branch: BranchId): seq<Node>
      reads this
    {
      if branch in branches then ChainTo(nodes, branches[branch]) else []
    }

    /** What `Path` shows of a branch. */
    ghost function Visible(branch: BranchId): seq<Node>
      reads this
    {
      if branch in floors then FromFloor(Chain(branch), floors[branch]) else Chain(branch)
    }

    lemma ChainFacts(branch: BranchId)
      requires Valid() && branch in branches
      ensures DistinctIds(Chain(branch)) && Linked(Chain(branch)) && Holds(nodes, Chain(branch))
      ensures HeadId(Chain(branch)) == branches[branch]
    {
      ChainShape(nodes, chains, branches[branch]);
      ChainsAreChains(nodes, chains, branches[branch]);
    }

    constructor ()
      ensures Valid()
      ensures nodes == map[] && branches == map[MainBranch := ""] && floors == map[]
    {
      nodes, branches, floors := map[], map[MainBranch := ""], map[];
      chains := map["" := []];
    }

    /** Adds one node under an existing parent and makes it the branch head; on an error nothing changes. */
    method InsertNode(branch: BranchId, node: Node) returns (ok: bool)
      requires Valid()
      modifies this
      ensures Valid() && floors == old(floors)
      ensures ok <==> node.id != "" && node.id !in old(nodes) && (node.parent == "" || node.parent in old(nodes))
      ensures !ok ==> nodes == old(nodes) && branches == old(branches)
      ensures ok ==> nodes == old(nodes)[node.id := node] && branches == old(branches)[BranchOr(branch) := node.id]
      ensures ok ==> Chain(BranchOr(branch)) == ChainTo(old(nodes), node.parent) + [node]
      ensures forall b | b in old(branches) && (!ok || b != BranchOr(branch)) :: Chain(b) == old(Chain(b))
    {
      ghost var before, links := nodes, chains;
      if node.id == "" || node.id in nodes || (node.parent != "" && node.parent !in nodes) {
        return false;
      }
      ChainsExtend(nodes, chains, node);
      nodes := nodes[node.id := node];
      chains := chains[node.id := chains[node.parent] + [node]];
      branches := branches[BranchOr(branch) := node.id];
      ok := true;
      ChainsAreChains(nodes, chains, node.id);
      ChainsAreChains(before, links, node.parent);
      forall b | b in old(branches) && b != BranchOr(branch) ensures Chain(b) == old(Chain(b)) {
        ChainsAreChains(nodes, chains, branches[b]);
        ChainsAreChains(before, links, branches[b]);
      }
    }

    ghost function Head(branch: BranchId): NodeId
      reads this
    {
      if branch in branches then branches[branch] else ""
    }

    /** Inserts a batch below the head of `branch`; it never fails half-way and touches no other branch. */
    method InsertChain(branch: BranchId, added: seq<Node>)
      requires Valid() && branch != "" && ChainedFrom(Head(branch), added) && DistinctIds(added)
      requires forall i | 0 <= i < |added| :: added[i].id !in nodes
      modifies this
      ensures Valid() && floors == old(floors)
      ensures nodes == AddAll(old(nodes), added)
      ensures branches == HeadsAfter(old(branches), branch, added, |added|)
      ensures Chain(branch) == old(Chain(branch)) + added
      ensures forall b | b in old(branches) && b != branch :: Chain(b) == old(Chain(b))
    {
      ghost var before, links, heads := nodes, chains, branches;
      ChainOfRoot(nodes);
      InsertBelow(branch, added, Head(branch));
      forall b | b in heads && b != branch ensures ChainTo(nodes, heads[b]) == ChainTo(before, heads[b]) {
        ChainKept(before, links, added, heads[b]);
      }
    }

    method InsertBelow(branch: BranchId, added: seq<Node>, ghost head: NodeId)
      requires Valid() && branch != "" && ChainedFrom(head, added) && DistinctIds(added)
      requires head == "" || head in nodes
      requires forall i | 0 <= i < |added| :: added[i].id !in nodes
      modifies this
      ensures Valid() && floors == old(floors)
      ensures nodes == AddAll(old(nodes), added)
      ensures branches == HeadsAfter(old(branches), branch, added, |added|)
      ensures ChainTo(nodes, NodeBefore(head, added, |added|)) == ChainTo(old(nodes), head) + added
    {
      ghost var start, before, heads := nodes, ChainTo(nodes, head), branches;
      assert before + added[..0] == before;
      for i := 0 to |added|
        invariant Valid() && floors == old(floors)
        invariant nodes == AddAll(start, added[..i])
        invariant branches == HeadsAfter(heads, branch, added, i)
        invariant ChainTo(nodes, NodeBefore(head, added, i)) == before + added[..i]
        invariant NodeBefore(head, added, i) == "" || NodeBefore(head, added, i) in nodes
      {
        InsertNext(branch, added, i, start, before);
        HeadsSnoc(heads, branch, added, i);
      }
      assert added[..|added|] == added;
    }

    method InsertNext(branch: BranchId, added: seq<Node>, i: nat, ghost start: Nodes, ghost before: seq<Node>)
      requires Valid() && branch != "" && i < |added| && DistinctIds(added) && added[i].id != "" &&
               added[i].id !in start
      requires nodes == AddAll(start, added[..i])
      requires added[i].parent == "" || added[i].parent in nodes
      requires ChainTo(nodes, added[i].parent) == before + added[..i]
      modifies this
      ensures Valid() && floors == old(floors)
      ensures nodes == AddAll(start, added[..i + 1]) && added[i].id in nodes
      ensures branches == old(branches)[branch := added[i].id]
      ensures ChainTo(nodes, added[i].id) == before + added[..i + 1]
    {
      NewToTree(start, added, i);
      AddAllSnoc(start, added, i);
      var ok := InsertNode(branch, added[i]);
      PrefixStep(added, i);
      Assoc(before, added[..i], [added[i]]);
    }

    /**
     A fork starts at the same head and does not inherit the floor; one set for its name before it existed applies.
     */
    method Fork(from: BranchId, to: BranchId) returns (ok: bool)
      requires Valid() && to != ""
      modifies this`branches
      ensures Valid()
      ensures ok <==> BranchOr(from) in old(branches) && to !in old(branches)
      ensures branches == if ok then old(branches)[to := old(branches)[BranchOr(from)]] else old(branches)
      ensures ok ==> Chain(to) == old(Chain(BranchOr(from)))
      ensures ok ==> Visible(to) == if to in floors then FromFloor(Chain(to), floors[to]) else Chain(to)
      ensures forall b | b in old(branches) :: Chain(b) == old(Chain(b)) && Visible(b) == old(Visible(b))
    {
      var source := BranchOr(from);
      if source !in branches || to in branches {
        return false;
      }
      branches := branches[to := branches[source]];
      ok := true;
    }

    method MoveHead(branch: BranchId, node: NodeId) returns (ok: bool)
      requires Valid()
      modifies this`branches
      ensures Valid()
      ensures ok <==> BranchOr(branch) in old(branches) && (node == "" || node in nodes)
      ensures branches == if ok then old(branches)[BranchOr(branch) := node] else old(branches)
      ensures ok ==> Chain(BranchOr(branch)) == ChainTo(nodes, node)
    {
      var b := BranchOr(branch);
      if b !in branches || (node != "" && node !in nodes) {
        return false;
      }
      branches := branches[b := node];
      ok := true;
    }

    /** Cuts what the branch shows at the node, or shows all of it again; no other branch shows anything else. */
    method SetFloor(branch: BranchId, node: NodeId)
      requires Valid()
      modifies this`floors
      ensures Valid()
      ensures Visible(BranchOr(branch)) ==
              if node == "" then Chain(BranchOr(branch)) else FromFloor(Chain(BranchOr(branch)), node)
      ensures forall b | b != BranchOr(branch) :: Visible(b) == old(Visible(b))
      ensures floors == if node == "" then old(floors) - {BranchOr(branch)} else old(floors)[BranchOr(branch) := node]
    {
      var b := BranchOr(branch);
      if node == "" {
        floors := floors - {b};
        return;
      }
      floors := floors[b := node];
    }

    /** Follows parent links from `head`; ends at the floor or the root and never meets a missing node. */
    method Walk(head: NodeId, floor: NodeId) returns (reversed: seq<Node>)
      requires Valid() && head in chains
      ensures Reversed(reversed) == FromFloor(chains[head], floor)
    {
      reversed := [];
      var id := head;
      while id != ""
        invariant id in chains
        invariant FromFloor(chains[head], floor) == FromFloor(chains[id], floor) + Reversed(reversed)
        decreases |chains[id]|
      {
        var node := nodes[id];
        FloorStep(chains[node.parent], node, floor, reversed);
        reversed := reversed + [node];
        if id == floor {
          return;
        }
        id := node.parent;
      }
    }

    method Path(branch: BranchId) returns (r: Result<seq<Node>>)
      requires Valid()
      ensures r == if BranchOr(branch) in branches then Ok(Visible(BranchOr(branch))) else Err
    {
      var b := BranchOr(branch);
      if b !in branches {
        return Err;
      }
      var floor := if b in floors then floors[b] else "";
      var reversed := Walk(branches[b], floor);
      var out := Reverse(reversed);
      ChainsAreChains(nodes, chains, branches[b]);
      ChainShape(nodes, chains, branches[b]);
      if b !in floors {
        FromFloorAbsent(Chain(b), "");
      }
      return Ok(out);
    }
  }

  /** One step of the walk moves the last node of the chain to the reversed list. */
  lemma FloorStep(chain: seq<Node>, node: Node, floor: NodeId, reversed: seq<Node>)
    ensures FromFloor(chain + [node], floor) + Reversed(reversed)
         == (if node.id == floor then [] else FromFloor(chain, floor)) + Reversed(reversed + [node])
  {
    assert (chain + [node])[..|chain|] == chain;
    assert (reversed + [node])[..|reversed|] == reversed;
  }
}
