/** What inserting the events of a log one by one makes of an empty tree (runtime/history.go, resuming). */
module ResumedTree {
  import opened Sequences
  import opened Items
  import opened Projection
  import opened LivePath
  import opened ConversationTree
  import opened HistoryEvents
  import opened ThreadStore
  import opened HistoryRun

  /** The nodes of a tree rebuilt from `events`. */
  function TreeNodes(events: seq<Event>): Nodes {
    AddAll(map[], NodesIn(events))
  }

  predicate CanInsert(nodes: Nodes, node: Node) {
    node.id != "" && node.id !in nodes && (node.parent == "" || node.parent in nodes)
  }

  function NodeOf(e: Event): Node
    requires e.body.Conversation?
  {
    Node(e.node, e.parent, Decode(e.body.kind, e.body.wire))
  }

  /** Every conversation event finds its parent and takes a new id. */
  predicate Insertable(events: seq<Event>) {
    events == [] ||
    (var init, last := events[..|events| - 1], events[|events| - 1];
     Insertable(init) && (last.body.Conversation? ==> CanInsert(TreeNodes(init), NodeOf(last))))
  }

  /** The branch heads: each conversation event moves the head of the branch it is recorded under. */
  function HeadsOf(events: seq<Event>): map<BranchId, NodeId> {
    if events == [] then map[MainBranch := ""]
    else
      var e := events[|events| - 1];
      var heads := HeadsOf(events[..|events| - 1]);
      if e.body.Conversation? then heads[BranchOr(e.branch) := e.node] else heads
  }

  lemma TreeNodesSnoc(events: seq<Event>, e: Event)
    ensures TreeNodes(events + [e]) == if e.body.Conversation? then TreeNodes(events)[e.node := NodeOf(e)]
                                       else TreeNodes(events)
  {
    NodesInSnoc(events, e);
    if e.body.Conversation? {
      AddAllOne(NodesIn(events), NodeOf(e));
    } else {
      assert NodesIn(events) + [] == NodesIn(events);
    }
  }

  lemma {:induction false} AddAllOne(nodes: seq<Node>, node: Node)
    ensures AddAll(map[], nodes + [node]) == AddAll(map[], nodes)[node.id := node]
  {
    SnocInit(nodes, node);
  }

  lemma HeadsSnoc(events: seq<Event>, e: Event)
    ensures HeadsOf(events + [e]) == if e.body.Conversation? then HeadsOf(events)[BranchOr(e.branch) := e.node]
                                     else HeadsOf(events)
  {
    assert (events + [e])[..|events|] == events;
  }

  lemma InsertableSnoc(events: seq<Event>, e: Event)
    ensures Insertable(events + [e]) <==>
            Insertable(events) && (e.body.Conversation? ==> CanInsert(TreeNodes(events), NodeOf(e)))
  {
    assert (events + [e])[..|events|] == events;
  }

  /** Once one event is refused no longer log is accepted. */
  lemma {:induction false} InsertablePrefix(events: seq<Event>, i: nat)
    requires i <= |events| && Insertable(events)
    ensures Insertable(events[..i])
    decreases |events|
  {
    if i < |events| {
      InsertablePrefix(events[..|events| - 1], i);
      assert events[..|events| - 1][..i] == events[..i];
    } else {
      assert events[..i] == events;
    }
  }

  lemma {:induction false} NodesHeld(path: seq<Node>)
    requires DistinctIds(path)
    ensures Holds(AddAll(map[], path), path)
  {
    if path != [] { NodesHeld(path[..|path| - 1]); }
  }

  lemma LinkedInit(nodes: seq<Node>, node: Node)
    requires Linked(nodes + [node]) && DistinctIds(nodes + [node])
    ensures Linked(nodes) && DistinctIds(nodes) && node.id != "" && node.parent == HeadId(nodes)
    ensures forall i | 0 <= i < |nodes| :: nodes[i].id != node.id
  {
    var path := nodes + [node];
    assert path[..|path| - 1] == nodes;
    LinkedPrefix(path);
    assert path[|nodes|] == node;
    assert forall i | 0 <= i < |nodes| :: path[i] == nodes[i];
  }

  lemma CanInsertNext(nodes: seq<Node>, node: Node)
    requires Linked(nodes + [node]) && DistinctIds(nodes + [node])
    ensures CanInsert(AddAll(map[], nodes), node)
  {
    LinkedInit(nodes, node);
    AddAllKeys(map[], nodes);
    NodesHeld(nodes);
  }

  lemma NodesInOther(events: seq<Event>)
    requires events != [] && !events[|events| - 1].body.Conversation?
    ensures NodesIn(events) == NodesIn(events[..|events| - 1])
  {}

  /** A log whose nodes are linked is accepted, whatever branches its events are recorded under. */
  lemma {:induction false} LinkedIsInsertable(events: seq<Event>)
    requires Linked(NodesIn(events)) && DistinctIds(NodesIn(events))
    ensures Insertable(events)
  {
    if events != [] {
      var init, last := events[..|events| - 1], events[|events| - 1];
      if last.body.Conversation? {
        LinkedInit(NodesIn(init), NodeOf(last));
        CanInsertNext(NodesIn(init), NodeOf(last));
      } else {
        NodesInOther(events);
      }
      LinkedIsInsertable(init);
    }
  }

  /** The branch the last conversation event is recorded under, or "". */
  function LastBranch(events: seq<Event>): BranchId {
    if events == [] then ""
    else if events[|events| - 1].body.Conversation? then BranchOr(events[|events| - 1].branch)
    else LastBranch(events[..|events| - 1])
  }

  predicate Mentions(path: seq<Node>, id: NodeId) {
    exists i :: 0 <= i < |path| && path[i].id == id
  }

  lemma MentionsSnoc(path: seq<Node>, node: Node, id: NodeId)
    ensures Mentions(path + [node], id) <==> Mentions(path, id) || id == node.id
  {
    assert (path + [node])[|path|] == node;
    assert forall i | 0 <= i < |path| :: (path + [node])[i] == path[i];
  }

  lemma {:induction false} HeadsMentioned(events: seq<Event>, branch: BranchId)
    requires branch in HeadsOf(events)
    ensures HeadsOf(events)[branch] == "" || Mentions(NodesIn(events), HeadsOf(events)[branch])
  {
    if events != [] {
      var init, last := events[..|events| - 1], events[|events| - 1];
      if last.body.Conversation? {
        if BranchOr(last.branch) != branch { HeadsMentioned(init, branch); }
        MentionsSnoc(NodesIn(init), NodeOf(last), HeadsOf(events)[branch]);
      } else {
        NodesInOther(events);
        HeadsMentioned(init, branch);
      }
    }
  }

  /** The head of a branch is the last node of the log exactly when the last event is recorded under it. */
  lemma {:induction false} HeadIsLast(events: seq<Event>, branch: BranchId)
    requires Linked(NodesIn(events)) && DistinctIds(NodesIn(events)) && NodesIn(events) != []
    ensures branch in HeadsOf(events) && HeadsOf(events)[branch] == HeadId(NodesIn(events)) <==>
            LastBranch(events) == branch
  {
    var init, last := events[..|events| - 1], events[|events| - 1];
    if last.body.Conversation? {
      LinkedInit(NodesIn(init), NodeOf(last));
      if BranchOr(last.branch) != branch && branch in HeadsOf(init) { HeadsMentioned(init, branch); }
    } else {
      NodesInOther(events);
      HeadIsLast(init, branch);
    }
  }

  /** The chain a branch shows after the rebuild. */
  ghost function RebuiltChain(events: seq<Event>, branch: BranchId): seq<Node> {
    if branch in HeadsOf(events) then ChainTo(TreeNodes(events), HeadsOf(events)[branch]) else []
  }

  lemma {:induction false} AddAllHolds(path: seq<Node>, id: NodeId)
    ensures id in AddAll(map[], path) <==> Mentions(path, id)
  {
    if path != [] {
      var init, last := path[..|path| - 1], path[|path| - 1];
      AddAllHolds(init, id);
      Unsnoc(path);
      MentionsSnoc(init, last, id);
    }
  }

  lemma DistinctSnoc(path: seq<Node>, node: Node)
    requires DistinctIds(path) && !Mentions(path, node.id)
    ensures DistinctIds(path + [node])
  {}

  /** An accepted log holds no id twice. */
  lemma {:induction false} InsertableDistinct(events: seq<Event>)
    requires Insertable(events)
    ensures DistinctIds(NodesIn(events))
  {
    if events != [] {
      var init, last := events[..|events| - 1], events[|events| - 1];
      InsertableDistinct(init);
      if last.body.Conversation? {
        AddAllHolds(NodesIn(init), last.node);
        DistinctSnoc(NodesIn(init), NodeOf(last));
      } else {
        NodesInOther(events);
      }
    }
  }

  lemma ChainsInsert(events: seq<Event>, e: Event, chains: map<NodeId, seq<Node>>)
    requires ChainsOk(TreeNodes(events), chains) && e.body.Conversation? && CanInsert(TreeNodes(events), NodeOf(e))
    ensures ChainsOk(TreeNodes(events + [e]), chains[e.node := chains[e.parent] + [NodeOf(e)]])
  {
    TreeNodesSnoc(events, e);
    ChainsExtend(TreeNodes(events), chains, NodeOf(e));
  }

  /** Parent links in a rebuilt tree lead to a root. */
  lemma {:induction false} RebuiltChains(events: seq<Event>) returns (chains: map<NodeId, seq<Node>>)
    requires Insertable(events)
    ensures ChainsOk(TreeNodes(events), chains)
  {
    if events == [] {
      chains := map["" := []];
    } else {
      var init, last := events[..|events| - 1], events[|events| - 1];
      chains := RebuiltChains(init);
      assert events == init + [last];
      if last.body.Conversation? {
        ChainsInsert(init, last, chains);
        chains := chains[last.node := chains[last.parent] + [NodeOf(last)]];
      } else {
        TreeNodesSnoc(init, last);
      }
    }
  }

  /** What a branch shows is one linked path, from a root to the branch's head. */
  lemma RebuiltShape(events: seq<Event>, branch: BranchId)
    requires Insertable(events) && branch in HeadsOf(events)
    ensures Linked(RebuiltChain(events, branch)) && HeadId(RebuiltChain(events, branch)) == HeadsOf(events)[branch]
  {
    var chains := RebuiltChains(events);
    var head := HeadsOf(events)[branch];
    HeadsMentioned(events, branch);
    AddAllHolds(NodesIn(events), head);
    ChainShape(TreeNodes(events), chains, head);
    ChainsAreChains(TreeNodes(events), chains, head);
  }

  /** All the nodes are on one path, which ends under the branch. */
  predicate OnePathTo(events: seq<Event>, branch: BranchId) {
    NodesIn(events) == [] || (Linked(NodesIn(events)) && LastBranch(events) == branch)
  }

  lemma OnePathIsRebuilt(events: seq<Event>, branch: BranchId)
    requires Insertable(events) && OnePathTo(events, branch)
    ensures RebuiltChain(events, branch) == NodesIn(events)
  {
    var path, nodes := NodesIn(events), TreeNodes(events);
    InsertableDistinct(events);
    NodesHeld(path);
    if path != [] {
      HeadIsLast(events, branch);
      ChainIsPath(nodes, path);
    } else if branch in HeadsOf(events) {
      HeadsMentioned(events, branch);
    }
  }

  /**
   Resuming a branch rebuilds every node its log holds exactly when the log holds none, or they are linked one to
   the next and the last is recorded under that branch. The condition is on the log alone.
   */
  lemma RebuiltExactlyWhen(events: seq<Event>, branch: BranchId)
    requires Insertable(events)
    ensures RebuiltChain(events, branch) == NodesIn(events) <==> OnePathTo(events, branch)
  {
    if OnePathTo(events, branch) {
      OnePathIsRebuilt(events, branch);
    } else if branch in HeadsOf(events) && RebuiltChain(events, branch) == NodesIn(events) {
      RebuiltShape(events, branch);
      InsertableDistinct(events);
      HeadIsLast(events, branch);
    }
  }

  /**
   A branch has a head after the rebuild exactly when it is `main` or some conversation event is recorded under it.
   */
  lemma {:induction false} HeadExactlyWhen(events: seq<Event>, branch: BranchId)
    ensures branch in HeadsOf(events) <==>
            branch == MainBranch || exists e :: e in events && e.body.Conversation? && BranchOr(e.branch) == branch
  {
    if events != [] {
      var init, last := events[..|events| - 1], events[|events| - 1];
      HeadExactlyWhen(init, branch);
      assert last in events && forall e | e in init :: e in events;
      assert forall e | e in events :: e in init || e == last;
    }
  }

  /** Read literally, the last listed ids are those of the last summary event. */
  lemma LastReplacedSnoc(path: seq<Node>, node: Node)
    ensures LastReplaced(path + [node]) == if IsCompaction(node) then ReplacedBy(node) else LastReplaced(path)
  {
    assert (path + [node])[..|path|] == path;
  }

  lemma {:induction false} LastBranchOf(events: seq<Event>, branch: BranchId)
    requires forall e | e in events :: e.branch == branch
    ensures NodesIn(events) == [] || LastBranch(events) == BranchOr(branch)
  {
    if events != [] {
      var init, last := events[..|events| - 1], events[|events| - 1];
      assert last in events;
      if !last.body.Conversation? {
        LastBranchOf(init, branch);
        NodesInOther(events);
      }
    }
  }

  /** The conversation a resumed branch shows, whatever the log holds. */
  ghost function ResumedOn(events: seq<Event>, branch: BranchId): Chat {
    var chain, replaced := RebuiltChain(events, branch), LastReplaced(NodesIn(events));
    Chat(chain, if replaced == [] then 0 else FloorAfter(chain, 0, replaced))
  }

  /**
   At every point of every run, rebuilding `main` from the log succeeds and shows a provider what the live conversation
   shows.
   */
  lemma RebuiltEqualsLive(id: ThreadId, metadata: map<string, string>, session: string, steps: seq<Step>, s: System)
    requires id != "" && Reaches(Initial(id, metadata, session), steps, s)
    ensures View(s.thread, MainBranch).Ok? && Insertable(View(s.thread, MainBranch).value)
    ensures var c := ResumedOn(View(s.thread, MainBranch).value, MainBranch);
            c.floor <= |c.path| && ShownMessages(c) == ShownMessages(s.chat)
  {
    LogMatchesConversation(id, metadata, session, steps, s);
    var events := View(s.thread, MainBranch).value;
    LastBranchOf(events, MainBranch);
    LinkedIsInsertable(events);
    RebuiltExactlyWhen(events, MainBranch);
    ResumeEqualsLive(id, metadata, session, steps, s);
  }
}
