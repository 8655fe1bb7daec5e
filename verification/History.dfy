/**
 The `History` object of runtime/history.go over a tree and, optionally, a live thread, with the compaction entry
 point of agent/compact.go. Every method is tied to the pure steps of `HistoryRun`.
 */
module History {
  import opened Sequences
  import opened Items
  import opened Projection
  import opened LivePath
  import opened ConversationTree
  import opened CompactionFloor
  import opened ThreadStore
  import opened ThreadImport
  import opened MemoryStore
  import opened HistoryRun
  import opened ResumedTree
  import opened TurnFragments

  const DefaultKeepWindow: nat := 4

  class History {
    const tree: Tree
    const branch: BranchId
    const live: Live?
    const session: string

    constructor (branch: BranchId, live: Live?, session: string)
      requires branch != ""
      ensures Valid() && fresh(tree)
      ensures this.branch == branch && this.live == live && this.session == session
      ensures tree.nodes == map[] && tree.branches == map[MainBranch := ""] && tree.floors == map[]
    {
      tree := new Tree();
      this.branch, this.live, this.session := branch, live, session;
    }

    ghost predicate Valid()
      reads this, tree
    {
      tree.Valid() && branch != "" && (branch in tree.floors ==> tree.floors[branch] in tree.nodes)
    }

    /** The conversation on the branch: its whole chain, and how much of it the floor hides. */
    ghost function Current(): (c: Chat)
      reads this, tree
      ensures c.floor <= |c.path|
    {
      Chat(tree.Chain(branch), FloorOf(tree.Chain(branch), tree.floors, branch))
    }

    lemma VisibleIs()
      ensures tree.Visible(branch) == Current().path[Current().floor..]
    {
      if branch in tree.floors {
        FloorIndexCuts(tree.Chain(branch), tree.floors[branch]);
      }
    }

    lemma HeadOfCurrent()
      requires Valid()
      ensures tree.Head(branch) == HeadId(Current().path)
    {
      if branch in tree.branches { tree.ChainFacts(branch); }
    }

    /** The events a batch is logged as: what the caller adds first, then one event per node. */
    function Batch(prefix: seq<Event>, nodes: seq<Node>): seq<Event> {
      prefix + EventsFor(nodes, branch, session)
    }

    /** Whether the batch can be recorded: without a live thread there may be no extra events. */
    ghost predicate CanRecord(cancelled: bool, prefix: seq<Event>, nodes: seq<Node>)
      reads this, live, if live == null then {} else {live.store}
    {
      if live == null then prefix == [] else live.CanAppend(cancelled, Batch(prefix, nodes))
    }

    /** What committing a batch returns: its ids if none is taken and it can be recorded, and otherwise an error. */
    ghost function Outcome(cancelled: bool, prefix: seq<Event>, payloads: seq<Payload>,
                           ids: seq<NodeId>): Result<seq<NodeId>>
      requires |ids| == |payloads|
      reads this, tree, live, if live == null then {} else {live.store}
    {
      if && (forall id | id in ids :: id !in tree.nodes)
         && CanRecord(cancelled, prefix, NewNodes(tree.Head(branch), ids, payloads))
      then Ok(ids)
      else Err
    }

    /** The history writes `main` of its live thread, and that log decodes to the conversation. */
    ghost predicate Synced()
      reads this, tree, live, if live == null then {} else {live.store}
    {
      live != null && branch == MainBranch == live.branchId &&
      LogMatches(live.store.threads, live.threadId, Current().path)
    }

    /** The live thread after the batch. */
    ghost function ThreadsAfter(threads: Threads, prefix: seq<Event>, nodes: seq<Node>): Threads
    {
      if live == null || Batch(prefix, nodes) == [] || live.threadId !in threads then threads
      else threads[live.threadId :=
                   AppendAll(threads[live.threadId], live.branchId, Map(live.Attributed, Batch(prefix, nodes)))]
    }

    method Record(cancelled: bool, prefix: seq<Event>, nodes: seq<Node>) returns (ok: bool)
      modifies if live == null then {} else {live.store}
      ensures unchanged(tree)
      ensures ok <==> old(CanRecord(cancelled, prefix, nodes))
      ensures live != null && !ok ==> live.store.threads == old(live.store.threads)
      ensures live != null && ok ==> live.store.threads == ThreadsAfter(old(live.store.threads), prefix, nodes)
    {
      if live == null {
        return |prefix| == 0;
      }
      var events := MakeEvents(nodes, branch, session);
      ok := live.Append(cancelled, prefix + events);
    }

    /** A recorded batch keeps the log on `main` in step with the conversation it extends. */
    lemma LogKeepsUp(threads: Threads, prefix: seq<Event>, nodes: seq<Node>, path: seq<Node>)
      requires live != null && branch == MainBranch == live.branchId
      requires LogMatches(threads, live.threadId, path) && forall e | e in prefix :: !e.body.Conversation?
      ensures LogMatches(ThreadsAfter(threads, prefix, nodes), live.threadId, path + nodes)
    {
      ReloadedConcat(path, nodes);
      NodesOfCommit(prefix, nodes, session);
      if Batch(prefix, nodes) != [] {
        AttributedNodes(live, Batch(prefix, nodes));
        MainNodesAll(threads[live.threadId], Map(live.Attributed, Batch(prefix, nodes)));
      } else {
        assert MainNodes(threads[live.threadId]) + [] == MainNodes(threads[live.threadId]);
      }
    }

    /** What a recorded batch does to the tree. */
    twostate predicate TreeGrew(nodes: seq<Node>)
      reads tree
    {
      && tree.nodes == AddAll(old(tree.nodes), nodes)
      && tree.branches == HeadsAfter(old(tree.branches), branch, nodes, |nodes|)
      && tree.floors == old(tree.floors)
      && tree.Chain(branch) == old(tree.Chain(branch)) + nodes
      && forall b | b in old(tree.branches) && b != branch :: tree.Chain(b) == old(tree.Chain(b))
    }

    /** `appendPayloads`: log and tree both take the whole batch or neither takes anything. */
    method AppendPayloads(cancelled: bool, prefix: seq<Event>, payloads: seq<Payload>, ids: seq<NodeId>)
      returns (r: Result<seq<NodeId>>)
      requires Valid() && |ids| == |payloads| && DistinctNew(ids)
      modifies tree, if live == null then {} else {live.store}
      ensures Valid()
      ensures r == Ok(ids) || r == Err
      ensures r.Ok? <==> old((forall id | id in ids :: id !in tree.nodes)
                             && CanRecord(cancelled, prefix, NewNodes(tree.Head(branch), ids, payloads)))
      ensures r.Err? ==> unchanged(tree) && (live != null ==> live.store.threads == old(live.store.threads))
      ensures r.Ok? ==> TreeGrew(NewNodes(old(tree.Head(branch)), ids, payloads))
      ensures r.Ok? && live != null ==>
                live.store.threads == ThreadsAfter(old(live.store.threads), prefix,
                                                   NewNodes(old(tree.Head(branch)), ids, payloads))
    {
      var head := if branch in tree.branches then tree.branches[branch] else "";
      var made := MakeNodes(tree.nodes, head, ids, payloads);
      if made.Err? {
        return Err;
      }
      var nodes := made.value;
      NewNodesChained(head, ids, payloads);
      assert forall i | 0 <= i < |nodes| :: nodes[i].id == ids[i] && ids[i] in ids;
      var ok := AppendNodes(cancelled, prefix, nodes);
      return if ok then Ok(ids) else Err;
    }

    /** Log first, then tree. */
    method AppendNodes(cancelled: bool, prefix: seq<Event>, nodes: seq<Node>) returns (ok: bool)
      requires Valid() && ChainedFrom(tree.Head(branch), nodes) && DistinctIds(nodes)
      requires forall i | 0 <= i < |nodes| :: nodes[i].id !in tree.nodes
      modifies tree, if live == null then {} else {live.store}
      ensures Valid() && (ok <==> old(CanRecord(cancelled, prefix, nodes)))
      ensures !ok ==> unchanged(tree) && (live != null ==> live.store.threads == old(live.store.threads))
      ensures ok ==> TreeGrew(nodes)
      ensures ok && live != null ==> live.store.threads == ThreadsAfter(old(live.store.threads), prefix, nodes)
    {
      ok := Record(cancelled, prefix, nodes);
      if ok {
        Insert(nodes);
      }
    }

    method Insert(nodes: seq<Node>)
      requires Valid() && ChainedFrom(tree.Head(branch), nodes) && DistinctIds(nodes)
      requires forall i | 0 <= i < |nodes| :: nodes[i].id !in tree.nodes
      modifies tree
      ensures Valid() && TreeGrew(nodes)
    {
      ghost var before := tree.nodes;
      AddAllKeys(before, nodes);
      tree.InsertChain(branch, nodes);
    }

    /** Neither the conversation nor any thread has changed. */
    twostate predicate Kept()
      reads this, tree, live, if live == null then {} else {live.store}
    {
      Current() == old(Current()) && (live != null ==> live.store.threads == old(live.store.threads))
    }

    /** The live thread, if any, has grown by the caller's events and those of the nodes. */
    twostate predicate Logged(new prefix: seq<Event>, new nodes: seq<Node>)
      reads this, live, if live == null then {} else {live.store}
    {
      live != null ==> live.store.threads == ThreadsAfter(old(live.store.threads), prefix, nodes)
    }

    /** Whatever takes a batch keeps log and conversation in step. */
    twostate lemma LoggedInStep(prefix: seq<Event>, nodes: seq<Node>)
      requires old(Synced()) && Logged(prefix, nodes) && Current().path == old(Current()).path + nodes
      requires forall e | e in prefix :: !e.body.Conversation?
      ensures Synced()
    {
      LogKeepsUp(old(live.store.threads), prefix, nodes, old(Current()).path);
    }

    /** Committing a batch, as the conversation sees it. */
    method Commit(cancelled: bool, prefix: seq<Event>, payloads: seq<Payload>, ids: seq<NodeId>)
      returns (r: Result<seq<NodeId>>)
      requires Valid() && |ids| == |payloads| && DistinctNew(ids)
      modifies tree, if live == null then {} else {live.store}
      ensures Valid() && r == old(Outcome(cancelled, prefix, payloads, ids))
      ensures r.Err? ==> Kept()
      ensures r.Ok? ==> Current() == Extended(old(Current()), ids, payloads)
      ensures r.Ok? ==> Logged(prefix, NewNodes(HeadId(old(Current()).path), ids, payloads))
    {
      HeadOfCurrent();
      ghost var c, head := Current(), tree.Head(branch);
      r := AppendPayloads(cancelled, prefix, payloads, ids);
      if r.Ok? && branch in tree.floors {
        FloorIndexKept(c.path, NewNodes(head, ids, payloads), tree.floors[branch]);
      }
    }

    /** The same, with the outcome told before the call. */
    method CommitAs(cancelled: bool, prefix: seq<Event>, payloads: seq<Payload>, ids: seq<NodeId>,
                    ghost outcome: Result<seq<NodeId>>)
      returns (r: Result<seq<NodeId>>)
      requires Valid() && |ids| == |payloads| && DistinctNew(ids)
      requires outcome == Outcome(cancelled, prefix, payloads, ids)
      modifies tree, if live == null then {} else {live.store}
      ensures Valid() && r == outcome
      ensures r.Err? ==> Kept()
      ensures r.Ok? ==> Current() == Extended(old(Current()), ids, payloads)
      ensures r.Ok? ==> Logged(prefix, NewNodes(HeadId(old(Current()).path), ids, payloads))
    {
      r := Commit(cancelled, prefix, payloads, ids);
    }

    /**
     A finished turn becomes one batch: its request messages, then the assistant turn. `contents` and `outcome` name
     what the turn holds and what committing it returns.
     */
    method CommitFragment(cancelled: bool, fragment: TurnFragment, events: seq<Event>, ids: seq<NodeId>,
                          ghost contents: seq<Payload>, ghost outcome: Result<seq<NodeId>>)
      returns (r: Result<seq<NodeId>>)
      requires Valid() && DistinctNew(ids) && contents == fragment.Contents() && |ids| == |contents|
      requires outcome == Outcome(cancelled, events, contents, ids)
      modifies tree, if live == null then {} else {live.store}
      ensures Valid() && r == if old(fragment.Ready()) then outcome else Err
      ensures r.Err? ==> Kept()
      ensures r.Ok? ==> Current() == Extended(old(Current()), ids, contents)
      ensures r.Ok? ==> Logged(events, NewNodes(HeadId(old(Current()).path), ids, contents))
    {
      var payloads := fragment.Payloads();
      if payloads.Ok? {
        r := CommitAs(cancelled, events, payloads.value, ids, outcome);
      } else {
        r := Err;
      }
    }

    /** Moves the floor to the first visible node that is not replaced. */
    method SetCompactionFloor(replaced: seq<NodeId>)
      requires Valid()
      modifies tree`floors
      ensures Valid()
      ensures Current() == Chat(old(Current()).path, FloorAfter(old(Current()).path, old(Current()).floor, replaced))
    {
      VisibleIs();
      ghost var c := Current();
      var path := tree.Path(branch);
      if path.Err? || |path.value| == 0 {
        return;
      }
      var q := FindUnlisted(path.value, replaced);
      if q < |path.value| {
        PutFloor(path.value[q].id, c.floor + q);
      }
    }

    method PutFloor(id: NodeId, ghost f: nat)
      requires Valid() && f < |tree.Chain(branch)| && tree.Chain(branch)[f].id == id
      modifies tree`floors
      ensures Valid() && Current() == Chat(old(Current()).path, f)
    {
      tree.ChainFacts(branch);
      FloorIndexAt(tree.Chain(branch), f);
      tree.SetFloor(branch, id);
    }

    /** Every id is that of a node. */
    ghost predicate Known(ids: seq<NodeId>)
      reads tree
    {
      forall i | 0 <= i < |ids| :: ids[i] != "" && ids[i] in tree.nodes
    }

    method CheckSummary(summary: string, replaced: seq<NodeId>) returns (ok: bool)
      ensures ok <==> summary != "" && Known(replaced)
    {
      if summary == "" {
        return false;
      }
      ok := AllKnown(tree.nodes, replaced);
    }

    method CommitNode(cancelled: bool, summary: string, replaced: seq<NodeId>, id: NodeId, ghost can: bool)
      returns (ok: bool)
      requires Valid() && id != ""
      requires can == Outcome(cancelled, [], [CompactionEvent(summary, replaced)], [id]).Ok?
      modifies tree, if live == null then {} else {live.store}
      ensures Valid() && ok == can
      ensures !ok ==> Kept()
      ensures ok ==> Current() == WithSummary(old(Current()), id, summary, replaced)
      ensures ok ==> Logged([], [SummaryBelow(old(Current()).path, id, summary, replaced)])
    {
      ExtendedBySummary(Current(), id, summary, replaced);
      var ids := Commit(cancelled, [], [CompactionEvent(summary, replaced)], [id]);
      ok := ids.Ok?;
    }

    /** One summary node, then the floor; `can` is whether the node can be committed. */
    method CommitSummary(cancelled: bool, summary: string, replaced: seq<NodeId>, id: NodeId, ghost can: bool)
      returns (ok: bool)
      requires Valid() && id != ""
      requires can == Outcome(cancelled, [], [CompactionEvent(summary, replaced)], [id]).Ok?
      modifies tree, if live == null then {} else {live.store}
      ensures Valid() && ok == can
      ensures !ok ==> Kept()
      ensures ok ==> Current() == Summarised(old(Current()), id, summary, replaced)
      ensures ok ==> Logged([], [SummaryBelow(old(Current()).path, id, summary, replaced)])
    {
      ok := CommitNode(cancelled, summary, replaced, id, can);
      if ok {
        SetCompactionFloor(replaced);
      }
    }

    /** `CompactContext`: checks, then the summary; `can` is whether its node can be committed. */
    method CompactContext(cancelled: bool, summary: string, replaced: seq<NodeId>, id: NodeId, ghost can: bool)
      returns (r: Result<NodeId>)
      requires Valid() && id != ""
      requires can == Outcome(cancelled, [], [CompactionEvent(summary, replaced)], [id]).Ok?
      modifies tree, if live == null then {} else {live.store}
      ensures Valid() && r == if summary != "" && old(Known(replaced)) && can then Ok(id) else Err
      ensures r.Err? ==> Kept()
      ensures r.Ok? ==> Current() == Summarised(old(Current()), id, summary, replaced)
      ensures r.Ok? ==> Logged([], [SummaryBelow(old(Current()).path, id, summary, replaced)])
    {
      var ok := CheckSummary(summary, replaced);
      if ok {
        ok := CommitSummary(cancelled, summary, replaced, id, can);
      }
      r := if ok then Ok(id) else Err;
    }

    lemma SelectedKnown(keep: nat)
      requires Valid() && branch in tree.branches
      ensures var c := Current();
              forall x | x in SelectNodes(c.path[c.floor..], keep) :: x != "" && x in tree.nodes
    {
      var c := Current();
      tree.ChainFacts(branch);
      if SelectNodes(c.path[c.floor..], keep) != [] { SelectedNodes(c.path, c.floor, keep); }
    }

    /** What a compaction would replace. */
    ghost function Replaceable(keep: nat): seq<NodeId>
      reads this, tree
    {
      if branch in tree.branches then SelectNodes(Current().path[Current().floor..], keep) else []
    }

    /** The nodes to replace, all of them known. */
    method ChooseNodes(keep: nat) returns (ids: seq<NodeId>)
      requires Valid()
      ensures ids == Replaceable(keep) && Known(ids)
    {
      VisibleIs();
      var path := tree.Path(branch);
      if path.Err? {
        return [];
      }
      SelectedKnown(keep);
      ids := SelectCompactionNodes(path.value, keep);
    }

    method CompactChosen(cancelled: bool, keep: nat, summary: string, ids: seq<NodeId>, id: NodeId, ghost can: bool)
      returns (r: Result<NodeId>)
      requires Valid() && id != "" && ids == Replaceable(keep) && Known(ids)
      requires can == Outcome(cancelled, [], [CompactionEvent(summary, ids)], [id]).Ok?
      modifies tree, if live == null then {} else {live.store}
      ensures Valid() && r == if ids != [] && summary != "" && can then Ok(id) else Err
      ensures r.Err? ==> Kept()
      ensures r.Ok? ==> Current() == CompactChat(old(Current()), keep, summary, id) != old(Current())
      ensures r.Ok? ==> Logged([], [SummaryBelow(old(Current()).path, id, summary, ids)])
    {
      if |ids| == 0 {
        return Err;
      }
      SummarisedIs(Current(), keep, summary, id);
      r := CompactContext(cancelled, summary, ids, id, can);
    }

    /**
     A compaction request: window, choice of nodes, commit, and on a thread a render of the context after it. When that
     render fails the request fails although the summary is committed; any other failure leaves everything as it was.
     `can` is whether the summary's node can be committed.
     */
    method Compact(cancelled: bool, keepWindow: int, summary: string, id: NodeId, renderFails: bool, ghost can: bool)
      returns (r: Result<NodeId>, ghost committed: bool)
      requires Valid() && id != ""
      requires can == Outcome(cancelled, [], [CompactionEvent(summary, Replaceable(WindowOr(keepWindow)))], [id]).Ok?
      modifies tree, if live == null then {} else {live.store}
      ensures Valid() && r == if committed && !renderFails then Ok(id) else Err
      ensures committed <==> old(Replaceable(WindowOr(keepWindow))) != [] && summary != "" && can
      ensures !committed ==> Kept()
      ensures committed ==>
              Current() == CompactChat(old(Current()), WindowOr(keepWindow), summary, id) != old(Current())
      ensures committed ==>
                Logged([], [SummaryBelow(old(Current()).path, id, summary, old(Replaceable(WindowOr(keepWindow))))])
    {
      var ids := ChooseNodes(WindowOr(keepWindow));
      r := CompactChosen(cancelled, WindowOr(keepWindow), summary, ids, id, can);
      committed := r.Ok?;
      if renderFails {
        r := Err;
      }
    }

    method InsertEvent(e: Event, ghost before: seq<Event>) returns (ok: bool)
      requires Valid() && tree.nodes == TreeNodes(before) && tree.branches == HeadsOf(before) && tree.floors == map[]
      modifies tree
      ensures Valid() && tree.floors == map[]
      ensures ok <==> e.body.Conversation? ==> CanInsert(TreeNodes(before), NodeOf(e))
      ensures ok ==> tree.nodes == TreeNodes(before + [e]) && tree.branches == HeadsOf(before + [e])
    {
      TreeNodesSnoc(before, e);
      ResumedTree.HeadsSnoc(before, e);
      if !e.body.Conversation? {
        return true;
      }
      ok := tree.InsertNode(e.branch, NodeOf(e));
    }

    /** `ResumeHistoryFromThread` on a new history, given the events of its branch. */
    method Resume(events: seq<Event>) returns (ok: bool)
      requires Valid() && tree.nodes == map[] && tree.branches == map[MainBranch := ""] && tree.floors == map[]
      modifies tree
      ensures Valid()
      ensures ok <==> Insertable(events)
      ensures ok ==> tree.nodes == TreeNodes(events) && tree.branches == HeadsOf(events)
      ensures ok ==> Current() == ResumedOn(events, branch)
    {
      var replaced: seq<NodeId> := [];
      for i := 0 to |events|
        invariant Valid() && tree.floors == map[] && Insertable(events[..i])
        invariant tree.nodes == TreeNodes(events[..i]) && tree.branches == HeadsOf(events[..i])
        invariant replaced == LastReplaced(NodesIn(events[..i]))
      {
        PrefixStep(events, i);
        var e := events[i];
        InsertableSnoc(events[..i], e);
        ReplacedAfter(events[..i], e);
        if e.body.Conversation? && IsCompaction(NodeOf(e)) {
          replaced := ReplacedBy(NodeOf(e));
        }
        ok := InsertEvent(e, events[..i]);
        if !ok {
          NotInsertable(events, i);
          return;
        }
      }
      assert events[..|events|] == events;
      if |replaced| > 0 {
        SetCompactionFloor(replaced);
      }
      ok := true;
    }
  }

  /** The log of a thread decodes, on `main`, to `path`. */
  ghost predicate LogMatches(threads: Threads, id: ThreadId, path: seq<Node>) {
    && id in threads && ThreadOk(threads[id]) && MainBranch in threads[id].branches
    && MainNodes(threads[id]) == ReloadedPath(path)
  }

  lemma {:induction false} AttributedNodes(live: Live, events: seq<Event>)
    requires live.branchId == MainBranch
    ensures NodesOnMain(Map(live.Attributed, events)) == NodesOnMain(events)
  {
    if events != [] {
      var init := events[..|events| - 1];
      AttributedNodes(live, init);
      assert Map(live.Attributed, events)[..|events| - 1] == Map(live.Attributed, init);
    }
  }

  lemma NotInsertable(events: seq<Event>, i: nat)
    requires i < |events| && !Insertable(events[..i + 1])
    ensures !Insertable(events)
  {
    if Insertable(events) { InsertablePrefix(events, i + 1); }
  }

  lemma ReplacedAfter(events: seq<Event>, e: Event)
    ensures LastReplaced(NodesIn(events + [e]))
         == if e.body.Conversation? && IsCompaction(NodeOf(e)) then ReplacedBy(NodeOf(e))
            else LastReplaced(NodesIn(events))
  {
    NodesInSnoc(events, e);
    if e.body.Conversation? {
      LastReplacedSnoc(NodesIn(events), NodeOf(e));
    } else {
      assert NodesIn(events) + [] == NodesIn(events);
    }
  }

  /** A conversation with a batch below its head. */
  function Extended(c: Chat, ids: seq<NodeId>, payloads: seq<Payload>): Chat
    requires |ids| == |payloads|
  {
    Chat(c.path + NewNodes(HeadId(c.path), ids, payloads), c.floor)
  }

  function SummaryBelow(path: seq<Node>, id: NodeId, summary: string, replaced: seq<NodeId>): Node {
    Node(id, HeadId(path), CompactionEvent(summary, replaced))
  }

  function WithSummary(c: Chat, id: NodeId, summary: string, replaced: seq<NodeId>): Chat {
    Chat(c.path + [SummaryBelow(c.path, id, summary, replaced)], c.floor)
  }

  /** A conversation with a summary below its head and the floor moved past what it replaced. */
  function Summarised(c: Chat, id: NodeId, summary: string, replaced: seq<NodeId>): Chat
    requires c.floor <= |c.path|
  {
    var path := WithSummary(c, id, summary, replaced).path;
    Chat(path, FloorAfter(path, c.floor, replaced))
  }

  lemma SummarisedIs(c: Chat, keep: nat, summary: string, id: NodeId)
    requires c.floor <= |c.path| && SelectNodes(c.path[c.floor..], keep) != []
    ensures Summarised(c, id, summary, SelectNodes(c.path[c.floor..], keep)) == CompactChat(c, keep, summary, id) != c
  {
    assert |CompactChat(c, keep, summary, id).path| == |c.path| + 1;
  }

  function WindowOr(keepWindow: int): nat {
    if keepWindow <= 0 then DefaultKeepWindow else keepWindow
  }

  lemma ExtendedBySummary(c: Chat, id: NodeId, summary: string, replaced: seq<NodeId>)
    ensures var node := SummaryBelow(c.path, id, summary, replaced);
            && NewNodes(HeadId(c.path), [id], [CompactionEvent(summary, replaced)]) == [node]
            && Extended(c, [id], [CompactionEvent(summary, replaced)]) == WithSummary(c, id, summary, replaced)
  {
    assert [id][..0] == [] && [CompactionEvent(summary, replaced)][..0] == [];
  }

  /** The events of a batch, built in order. */
  method MakeEvents(nodes: seq<Node>, branch: BranchId, session: string) returns (events: seq<Event>)
    ensures events == EventsFor(nodes, branch, session)
  {
    events := [];
    for i := 0 to |nodes|
      invariant events == EventsFor(nodes[..i], branch, session)
    {
      PrefixStep(nodes, i);
      events := events + [EventFor(nodes[i], branch, session)];
    }
    assert nodes[..|nodes|] == nodes;
  }
}
