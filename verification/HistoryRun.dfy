/**
 A conversation and its log, as a state machine: turns are committed and compacted on `main` while anyone else
 appends to other branches, forks and archives the same thread. In every reachable state the log decodes to the
 conversation's nodes, and rebuilding from the log shows a provider the same messages.
 */
module HistoryRun {
  import opened Sequences
  import opened Unified
  import opened Items
  import opened Projection
  import opened Compaction
  import opened LivePath
  import opened ConversationTree
  import opened HistoryEvents
  import opened ThreadStore
  import opened ThreadViews
  import opened Normalization

  /** A branch of the conversation: all its nodes from the root, and how many of them the floor hides. */
  datatype Chat = Chat(path: seq<Node>, floor: nat)

  ghost predicate ChatOk(c: Chat) {
    Live(c.path, c.floor) && Linked(c.path)
  }

  /** A conversation as committing and compacting leave it. */
  type LiveChat = c: Chat | ChatOk(c) ghost witness Chat([], 0)

  datatype System = System(thread: LiveThread, chat: LiveChat)

  // ---------------------------------------------------------------- nodes and their events

  function EventFor(node: Node, branch: BranchId, session: string): Event {
    Event("", branch, 0, node.id, node.parent, session, Conversation(EncodeKind(node.payload), Encode(node.payload)))
  }

  function EventsFor(nodes: seq<Node>, branch: BranchId, session: string): (r: seq<Event>)
    ensures |r| == |nodes|
  {
    if nodes == [] then []
    else EventsFor(nodes[..|nodes| - 1], branch, session) + [EventFor(nodes[|nodes| - 1], branch, session)]
  }

  /** The node an event records, if it is a conversation event. */
  function NodeIn(e: Event): seq<Node> {
    match e.body
    case Conversation(kind, wire) => [Node(e.node, e.parent, Decode(kind, wire))]
    case _ => []
  }

  function NodesIn(events: seq<Event>): seq<Node> {
    if events == [] then [] else NodesIn(events[..|events| - 1]) + NodeIn(events[|events| - 1])
  }

  lemma NodesInSnoc(events: seq<Event>, e: Event)
    ensures NodesIn(events + [e]) == NodesIn(events) + NodeIn(e)
  {
    assert (events + [e])[..|events|] == events;
  }

  function ReloadedNode(n: Node): Node { n.(payload := Reloaded(n.payload)) }

  function ReloadedPath(path: seq<Node>): (r: seq<Node>)
    ensures |r| == |path| && forall i | 0 <= i < |path| :: r[i] == ReloadedNode(path[i])
  {
    if path == [] then [] else ReloadedPath(path[..|path| - 1]) + [ReloadedNode(path[|path| - 1])]
  }

  lemma NodeInEventFor(n: Node, branch: BranchId, session: string, e: Event)
    requires e.node == n.id && e.parent == n.parent && e.body == EventFor(n, branch, session).body
    ensures NodeIn(e) == [ReloadedNode(n)]
  {
    PayloadRoundTrip(n.payload);
  }

  // ---------------------------------------------------------------- the log on main

  ghost function MainNodes(t: LiveThread): seq<Node>
    requires MainBranch in t.branches
  {
    NodesIn(Shown(t, MainBranch))
  }

  lemma MainNodesAppendOne(t: LiveThread, live: BranchId, e: Event)
    requires MainBranch in t.branches
    ensures MainNodes(AppendOne(t, live, e))
         == if Stamped(t, live, e).branch == MainBranch then MainNodes(t) + NodeIn(e) else MainNodes(t)
  {
    AppendExtendsOneView(t, live, e, MainBranch);
    NodesInSnoc(Shown(t, MainBranch), Stamped(t, live, e));
  }

  /** Other writers: whatever they append is not a conversation event on `main`. */
  predicate Elsewhere(t: Thread, live: BranchId, e: Event) {
    Stamped(t, live, e).branch != MainBranch || !e.body.Conversation?
  }

  predicate ForeignOp(t: Thread, op: Op) {
    op.Append? ==> forall e | e in op.events :: Elsewhere(t, op.live, e)
  }

  lemma {:induction false} MainNodesElsewhere(t: LiveThread, live: BranchId, events: seq<Event>)
    requires MainBranch in t.branches && forall e | e in events :: Elsewhere(t, live, e)
    ensures AppendAll(t, live, events).branches == t.branches && AppendAll(t, live, events).root == t.root
    ensures MainNodes(AppendAll(t, live, events)) == MainNodes(t)
  {
    if events != [] {
      var init, last := events[..|events| - 1], events[|events| - 1];
      MainNodesElsewhere(t, live, init);
      MainNodesAppendOne(AppendAll(t, live, init), live, last);
      assert Elsewhere(t, live, last);
    }
  }

  lemma MainNodesForeign(t: LiveThread, op: Op)
    requires MainBranch in t.branches && ForeignOp(t, op)
    ensures MainBranch in Apply(t, op).branches
    ensures MainNodes(Apply(t, op)) == MainNodes(t)
  {
    match op
    case Append(live, events) => MainNodesElsewhere(t, live, events);
    case Fork(from, to, session) =>
      if CanFork(t, from, to) && to != "" { ForkHidesFromOthers(t, from, to, session, MainBranch); }
    case SetArchived(archived) => MainNodesArchive(t, archived);
  }

  lemma MainNodesArchive(t: LiveThread, archived: bool)
    requires MainBranch in t.branches
    ensures MainBranch in ArchivedAs(t, archived).branches && MainNodes(ArchivedAs(t, archived)) == MainNodes(t)
  {
    MainNodesMarked(t, archived);
    MainNodesAppendOne(t.(archived := archived), t.root,
                       Lifecycle("", if archived then ThreadArchived else ThreadUnarchived));
  }

  lemma MainNodesMarked(t: LiveThread, archived: bool)
    requires MainBranch in t.branches
    ensures ThreadOk(t.(archived := archived)) && MainNodes(t.(archived := archived)) == MainNodes(t)
  {
    ArchiveMarkShows(t, archived);
  }

  lemma MainBranchKept(t: LiveThread, op: Op)
    requires MainBranch in t.branches
    ensures MainBranch in Apply(t, op).branches && Apply(t, op).branches[MainBranch] == t.branches[MainBranch]
  {
    match op
    case Append(live, events) => AppendKeepsBranches(t, live, events);
    case Fork(from, to, session) =>
    case SetArchived(archived) =>
  }

  lemma {:induction false} AppendKeepsBranches(t: LiveThread, live: BranchId, events: seq<Event>)
    ensures AppendAll(t, live, events).branches == t.branches
  {
    if events != [] { AppendKeepsBranches(t, live, events[..|events| - 1]); }
  }

  // ---------------------------------------------------------------- batches

  /** The nodes a batch appended by `main` adds to the log on `main`. */
  function NodesOnMain(events: seq<Event>): seq<Node> {
    if events == [] then []
    else
      var e := events[|events| - 1];
      NodesOnMain(events[..|events| - 1]) + if e.branch == "" || e.branch == MainBranch then NodeIn(e) else []
  }

  lemma {:induction false} MainNodesAll(t: LiveThread, events: seq<Event>)
    requires MainBranch in t.branches
    ensures AppendAll(t, MainBranch, events).branches == t.branches
    ensures MainNodes(AppendAll(t, MainBranch, events)) == MainNodes(t) + NodesOnMain(events)
  {
    if events != [] {
      var init, last := events[..|events| - 1], events[|events| - 1];
      MainNodesAll(t, init);
      MainNodesAppendOne(AppendAll(t, MainBranch, init), MainBranch, last);
      var here := if last.branch == "" || last.branch == MainBranch then NodeIn(last) else [];
      Assoc(MainNodes(t), NodesOnMain(init), here);
    }
  }

  lemma {:induction false} NodesOnMainConcat(a: seq<Event>, b: seq<Event>)
    ensures NodesOnMain(a + b) == NodesOnMain(a) + NodesOnMain(b)
  {
    if b == [] {
      assert a + b == a;
    } else {
      NodesOnMainConcat(a, b[..|b| - 1]);
      assert (a + b)[..|a + b| - 1] == a + b[..|b| - 1];
    }
  }

  lemma {:induction false} NoNodesOnMain(events: seq<Event>)
    requires forall e | e in events :: !e.body.Conversation?
    ensures NodesOnMain(events) == []
  {
    if events != [] { NoNodesOnMain(events[..|events| - 1]); }
  }

  lemma {:induction false} NodesOfBatch(nodes: seq<Node>, session: string)
    ensures NodesOnMain(EventsFor(nodes, MainBranch, session)) == ReloadedPath(nodes)
  {
    if nodes != [] {
      var init, last := nodes[..|nodes| - 1], nodes[|nodes| - 1];
      NodesOfBatch(init, session);
      NodesOnMainSnoc(EventsFor(init, MainBranch, session), EventFor(last, MainBranch, session));
      NodeInEventFor(last, MainBranch, session, EventFor(last, MainBranch, session));
    }
  }

  lemma NodesOnMainSnoc(events: seq<Event>, e: Event)
    ensures NodesOnMain(events + [e]) == NodesOnMain(events) + if e.branch == "" || e.branch == MainBranch
                                                               then NodeIn(e) else []
  {
    assert (events + [e])[..|events|] == events;
  }

  function Logged(t: LiveThread, prefix: seq<Event>, nodes: seq<Node>, session: string): LiveThread {
    AppendAll(t, MainBranch, prefix + EventsFor(nodes, MainBranch, session))
  }

  /** What the log on `main` holds after a commit. */
  lemma MainNodesLogged(t: LiveThread, prefix: seq<Event>, nodes: seq<Node>, session: string)
    requires MainBranch in t.branches && forall e | e in prefix :: !e.body.Conversation?
    ensures Logged(t, prefix, nodes, session).branches == t.branches
    ensures MainNodes(Logged(t, prefix, nodes, session)) == MainNodes(t) + ReloadedPath(nodes)
  {
    MainNodesAll(t, prefix + EventsFor(nodes, MainBranch, session));
    NodesOfCommit(prefix, nodes, session);
  }

  lemma NodesOfCommit(prefix: seq<Event>, nodes: seq<Node>, session: string)
    requires forall e | e in prefix :: !e.body.Conversation?
    ensures NodesOnMain(prefix + EventsFor(nodes, MainBranch, session)) == ReloadedPath(nodes)
  {
    NodesOnMainConcat(prefix, EventsFor(nodes, MainBranch, session));
    NoNodesOnMain(prefix);
    NodesOfBatch(nodes, session);
  }

  // ---------------------------------------------------------------- what a step does to the conversation

  lemma IdBeforeSnoc(path: seq<Node>, node: Node, i: nat)
    requires i <= |path|
    ensures IdBefore(path + [node], i) == IdBefore(path, i)
  {}

  lemma LinkedSnoc(path: seq<Node>, node: Node)
    requires Linked(path) && node.id != "" && node.parent == HeadId(path)
    ensures Linked(path + [node])
  {
    forall i | 0 <= i < |path + [node]|
      ensures (path + [node])[i].id != "" && (path + [node])[i].parent == IdBefore(path + [node], i)
    {
      IdBeforeSnoc(path, node, i);
    }
  }

  predicate FreshIds(path: seq<Node>, ids: seq<NodeId>) {
    && (forall i | 0 <= i < |ids| :: ids[i] != "" && FreshId(path, ids[i]))
    && (forall i, j | 0 <= i < j < |ids| :: ids[i] != ids[j])
  }

  /** The path after committing a batch node by node. */
  function Grown(path: seq<Node>, ids: seq<NodeId>, payloads: seq<Payload>): (r: seq<Node>)
    requires |ids| == |payloads|
    ensures |r| == |path| + |ids|
    ensures forall q | 0 <= q < |r| :: r[q].id == if q < |path| then path[q].id else ids[q - |path|]
  {
    if ids == [] then path
    else
      var n := |ids| - 1;
      var before := Grown(path, ids[..n], payloads[..n]);
      before + [Node(ids[n], HeadId(before), payloads[n])]
  }

  lemma HeadGrown(path: seq<Node>, ids: seq<NodeId>, payloads: seq<Payload>, n: nat)
    requires n <= |ids| == |payloads|
    ensures HeadId(Grown(path, ids[..n], payloads[..n])) == if n == 0 then HeadId(path) else ids[n - 1]
  {
    var r := Grown(path, ids[..n], payloads[..n]);
    if n > 0 { assert r[|path| + n - 1].id == ids[..n][n - 1]; }
  }

  lemma {:induction false} GrownIs(path: seq<Node>, ids: seq<NodeId>, payloads: seq<Payload>)
    requires |ids| == |payloads|
    ensures Grown(path, ids, payloads) == path + NewNodes(HeadId(path), ids, payloads)
  {
    if ids == [] {
      assert path + [] == path;
    } else {
      var n := |ids| - 1;
      GrownIs(path, ids[..n], payloads[..n]);
      var before := Grown(path, ids[..n], payloads[..n]);
      HeadGrown(path, ids, payloads, n);
      Assoc(path, NewNodes(HeadId(path), ids[..n], payloads[..n]), [Node(ids[n], HeadId(before), payloads[n])]);
    }
  }

  lemma FreshAfter(path: seq<Node>, ids: seq<NodeId>, payloads: seq<Payload>, n: nat)
    requires |ids| == |payloads| && FreshIds(path, ids) && n < |ids|
    ensures FreshId(Grown(path, ids[..n], payloads[..n]), ids[n])
  {}

  lemma CommitOneChat(c: LiveChat, node: Node)
    requires node.id != "" && FreshId(c.path, node.id) && !IsCompaction(node) && node.parent == HeadId(c.path)
    ensures ChatOk(Chat(c.path + [node], c.floor))
  {
    LiveCommit(c.path, c.floor, node);
    LinkedSnoc(c.path, node);
  }

  /** Committing a batch is committing its nodes one by one, and each keeps the shape. */
  ghost function Committed(c: LiveChat, ids: seq<NodeId>, payloads: seq<Payload>): (r: LiveChat)
    requires |ids| == |payloads| && FreshIds(c.path, ids) && forall p | p in payloads :: !p.CompactionEvent?
    ensures r == Chat(c.path + NewNodes(HeadId(c.path), ids, payloads), c.floor)
  {
    GrownIs(c.path, ids, payloads);
    if ids == [] then c
    else
      var n := |ids| - 1;
      var before := Committed(c, ids[..n], payloads[..n]);
      GrownIs(c.path, ids[..n], payloads[..n]);
      FreshAfter(c.path, ids, payloads, n);
      var node := Node(ids[n], HeadId(before.path), payloads[n]);
      CommitOneChat(before, node);
      Chat(before.path + [node], before.floor)
  }

  /** One compaction: nothing when nothing is old enough, otherwise a summary node and a new floor. */
  function CompactChat(c: Chat, keep: nat, summary: string, id: NodeId): (r: Chat)
    requires c.floor <= |c.path|
    ensures c.path <= r.path && r.floor <= |r.path|
  {
    if SelectNodes(c.path[c.floor..], keep) == [] then c
    else
      var node := SummaryNode(c.path, c.floor, keep, summary, id);
      Chat(c.path + [node], FloorAfter(c.path + [node], c.floor, ReplacedBy(node)))
  }

  lemma CompactKeepsChat(c: LiveChat, keep: nat, summary: string, id: NodeId)
    requires id != "" && FreshId(c.path, id)
    ensures ChatOk(CompactChat(c, keep, summary, id))
  {
    if SelectNodes(c.path[c.floor..], keep) != [] {
      LiveCompact(c.path, c.floor, keep, summary, id);
      LinkedSnoc(c.path, SummaryNode(c.path, c.floor, keep, summary, id));
    }
  }

  ghost function Compacted(c: LiveChat, keep: nat, summary: string, id: NodeId): (r: LiveChat)
    requires id != "" && FreshId(c.path, id)
    ensures r == CompactChat(c, keep, summary, id)
  {
    CompactKeepsChat(c, keep, summary, id);
    CompactChat(c, keep, summary, id)
  }

  // ---------------------------------------------------------------- the machine

  datatype Step =
    | Commit(prefix: seq<Event>, ids: seq<NodeId>, payloads: seq<Payload>, session: string)
    | Compact(keep: nat, summary: string, id: NodeId, session: string)
    | Foreign(op: Op)
    | Failed

  /**
   What the source does and what its callers respect: generated ids are fresh, only `Compact` writes summaries,
   nobody else writes the conversation on `main`.
   */
  predicate Enabled(s: System, step: Step) {
    match step
    case Commit(prefix, ids, payloads, _) =>
      && |ids| == |payloads| && FreshIds(s.chat.path, ids)
      && (forall p | p in payloads :: !p.CompactionEvent?)
      && (forall e | e in prefix :: !e.body.Conversation?)
    case Compact(_, _, id, _) => id != "" && FreshId(s.chat.path, id)
    case Foreign(op) => ForeignOp(s.thread, op)
    case Failed => true
  }

  ghost function Next(s: System, step: Step): System
    requires Enabled(s, step)
  {
    match step
    case Commit(prefix, ids, payloads, session) =>
      System(Logged(s.thread, prefix, NewNodes(HeadId(s.chat.path), ids, payloads), session),
             Committed(s.chat, ids, payloads))
    case Compact(keep, summary, id, session) =>
      var chat := Compacted(s.chat, keep, summary, id);
      System(if chat == s.chat then s.thread else Logged(s.thread, [], chat.path[|s.chat.path|..], session), chat)
    case Foreign(op) => s.(thread := Apply(s.thread, op))
    case Failed => s
  }

  function Initial(id: ThreadId, metadata: map<string, string>, session: string): System
    requires id != ""
  {
    LiveEmpty();
    System(Created(id, MainBranch, metadata, session), Chat([], 0))
  }

  /** The log on `main`, which nothing precedes, decodes to the conversation's nodes. */
  ghost predicate Synced(s: System) {
    && MainBranch in s.thread.branches && s.thread.branches[MainBranch].parent == ""
    && MainNodes(s.thread) == ReloadedPath(s.chat.path)
  }

  lemma ReloadedConcat(a: seq<Node>, b: seq<Node>)
    ensures ReloadedPath(a + b) == ReloadedPath(a) + ReloadedPath(b)
  {}

  lemma SyncedAppend(s: System, prefix: seq<Event>, nodes: seq<Node>, session: string, chat: LiveChat)
    requires Synced(s) && chat.path == s.chat.path + nodes && forall e | e in prefix :: !e.body.Conversation?
    ensures Synced(System(Logged(s.thread, prefix, nodes, session), chat))
  {
    MainNodesLogged(s.thread, prefix, nodes, session);
    ReloadedConcat(s.chat.path, nodes);
  }

  lemma SyncedStep(s: System, step: Step)
    requires Synced(s) && Enabled(s, step)
    ensures Synced(Next(s, step))
  {
    match step
    case Commit(prefix, ids, payloads, session) =>
      SyncedAppend(s, prefix, NewNodes(HeadId(s.chat.path), ids, payloads), session, Committed(s.chat, ids, payloads));
    case Compact(keep, summary, id, session) =>
      var chat := Compacted(s.chat, keep, summary, id);
      if chat != s.chat {
        assert chat.path == s.chat.path + chat.path[|s.chat.path|..];
        SyncedAppend(s, [], chat.path[|s.chat.path|..], session, chat);
      }
    case Foreign(op) =>
      MainNodesForeign(s.thread, op);
      MainBranchKept(s.thread, op);
    case Failed =>
  }

  lemma SyncedInitial(id: ThreadId, metadata: map<string, string>, session: string)
    requires id != ""
    ensures Synced(Initial(id, metadata, session))
  {
    var t := Created(id, MainBranch, metadata, session);
    StartAgrees(id, MainBranch, metadata, session);
    assert t.events == [] + [t.events[0]];
    NodesInSnoc([], t.events[0]);
  }

  ghost predicate StepsTo(s: System, step: Step, s': System) {
    Enabled(s, step) && s' == Next(s, step)
  }

  /** `s` is what the steps, each enabled where it is taken, lead to from `start`. */
  ghost predicate Reaches(start: System, steps: seq<Step>, s: System) {
    if steps == [] then s == start
    else
      var earlier, last := steps[..|steps| - 1], steps[|steps| - 1];
      exists mid :: Reaches(start, earlier, mid) && StepsTo(mid, last, s)
  }

  lemma {:induction false} SyncedReached(start: System, steps: seq<Step>, s: System)
    requires Synced(start) && Reaches(start, steps, s)
    ensures Synced(s)
  {
    if steps != [] {
      var mid :| Reaches(start, steps[..|steps| - 1], mid) && StepsTo(mid, steps[|steps| - 1], s);
      SyncedReached(start, steps[..|steps| - 1], mid);
      SyncedStep(mid, steps[|steps| - 1]);
    }
  }

  /**
   Log and conversation never diverge: in every reachable state, what the log on `main` decodes to is the conversation,
   link by link.
   */
  lemma LogMatchesConversation(id: ThreadId, metadata: map<string, string>, session: string, steps: seq<Step>,
                               s: System)
    requires id != "" && Reaches(Initial(id, metadata, session), steps, s)
    ensures MainBranch in s.thread.branches
    ensures View(s.thread, MainBranch).Ok? && NodesIn(View(s.thread, MainBranch).value) == ReloadedPath(s.chat.path)
    ensures Linked(NodesIn(View(s.thread, MainBranch).value)) && DistinctIds(NodesIn(View(s.thread, MainBranch).value))
    ensures forall e | e in View(s.thread, MainBranch).value :: e.branch == MainBranch
  {
    SyncedInitial(id, metadata, session);
    SyncedReached(Initial(id, metadata, session), steps, s);
    ViewIs(s.thread, MainBranch);
    ReloadedLinked(s.chat.path);
    ShownOnMain(s.thread);
  }

  lemma ShownOnMain(t: LiveThread)
    requires MainBranch in t.branches && t.branches[MainBranch].parent == ""
    ensures forall e | e in Shown(t, MainBranch) :: e.branch == MainBranch
  {
    WindowsUnfold(t, MainBranch, 0);
  }

  lemma ReloadedLinked(path: seq<Node>)
    requires Linked(path) && DistinctIds(path)
    ensures Linked(ReloadedPath(path)) && DistinctIds(ReloadedPath(path))
  {
    var r := ReloadedPath(path);
    forall i | 0 <= i < |r| ensures r[i].id != "" && r[i].parent == IdBefore(r, i) {
      assert IdBefore(r, i) == IdBefore(path, i);
    }
  }

  // ---------------------------------------------------------------- going through the log changes no message

  lemma FirstListedReloaded(path: seq<Node>, ids: seq<NodeId>, lo: nat, hi: nat)
    requires lo <= hi <= |path|
    ensures FirstListed(ReloadedPath(path), ids, lo, hi) == FirstListed(path, ids, lo, hi)
    decreases hi - lo
  {
    if lo != hi { FirstListedReloaded(path, ids, lo + 1, hi); }
  }

  lemma PlaceReloaded(path: seq<Node>, p: nat)
    requires p < |path|
    ensures PlaceFrom(ReloadedPath(path), 0, p) == PlaceFrom(path, 0, p)
  {
    FirstListedReloaded(path, ReplacedBy(path[p]), 0, p + 1);
  }

  lemma {:induction false} ReplacedReloaded(path: seq<Node>)
    ensures ReplacedIds(ReloadedPath(path)) == ReplacedIds(path)
  {
    if path != [] {
      ReplacedReloaded(path[..|path| - 1]);
      assert ReloadedPath(path)[..|path| - 1] == ReloadedPath(path[..|path| - 1]);
    }
  }

  lemma {:induction false} SummariesReloaded(path: seq<Node>, branch: BranchId, v: nat, n: nat)
    requires n <= |path|
    ensures SummariesAt(ReloadedPath(path), branch, v, n) == SummariesAt(path, branch, v, n)
  {
    if n != 0 {
      SummariesReloaded(path, branch, v, n - 1);
      PlaceReloaded(path, n - 1);
    }
  }

  lemma AlikeSelf(s: seq<Item>)
    ensures AllAlike(s, s)
  {}

  lemma AlikeConcat(a: seq<Item>, b: seq<Item>, c: seq<Item>, d: seq<Item>)
    requires AllAlike(a, b) && AllAlike(c, d)
    ensures AllAlike(a + c, b + d)
  {}

  lemma ItemReloaded(node: Node, branch: BranchId)
    ensures Alike(ItemOf(ReloadedNode(node), branch), ItemOf(node, branch))
  {}

  lemma OwnReloaded(path: seq<Node>, branch: BranchId, i: nat)
    requires i < |path|
    ensures AllAlike(OwnItem(ReloadedPath(path), branch, i), OwnItem(path, branch, i))
  {
    SurvivesReloaded(path, i);
    ItemReloaded(path[i], branch);
  }

  lemma SurvivesReloaded(path: seq<Node>, i: nat)
    requires i < |path|
    ensures Survives(ReloadedPath(path), i) == Survives(path, i)
  {
    ReplacedReloaded(path);
  }

  lemma EmitReloaded(path: seq<Node>, branch: BranchId, i: nat)
    requires i < |path|
    ensures AllAlike(EmitAt(ReloadedPath(path), branch, i), EmitAt(path, branch, i))
  {
    var summaries := SummariesAt(path, branch, i, |path|);
    SummariesReloaded(path, branch, i, |path|);
    AlikeSelf(summaries);
    OwnReloaded(path, branch, i);
    AlikeConcat(summaries, summaries, OwnItem(ReloadedPath(path), branch, i), OwnItem(path, branch, i));
  }

  lemma {:induction false} ProjectionReloaded(path: seq<Node>, branch: BranchId, n: nat)
    requires n <= |path|
    ensures AllAlike(EmitUpTo(ReloadedPath(path), branch, n), EmitUpTo(path, branch, n))
  {
    if n != 0 {
      ProjectionReloaded(path, branch, n - 1);
      EmitReloaded(path, branch, n - 1);
      AlikeConcat(EmitUpTo(ReloadedPath(path), branch, n - 1), EmitUpTo(path, branch, n - 1),
                  EmitAt(ReloadedPath(path), branch, n - 1), EmitAt(path, branch, n - 1));
    }
  }

  lemma {:induction false} LastReplacedReloaded(path: seq<Node>)
    ensures LastReplaced(ReloadedPath(path)) == LastReplaced(path)
  {
    if path != [] {
      LastReplacedReloaded(path[..|path| - 1]);
      assert ReloadedPath(path)[..|path| - 1] == ReloadedPath(path[..|path| - 1]);
    }
  }

  lemma FirstUnlistedSame(a: seq<Node>, b: seq<Node>, ids: seq<NodeId>)
    requires |a| == |b| && forall i | 0 <= i < |a| :: a[i].id == b[i].id
    ensures FirstUnlisted(a, ids) == FirstUnlisted(b, ids)
  {}

  lemma ResumedFloorReloaded(path: seq<Node>)
    ensures ResumedFloor(ReloadedPath(path)) == ResumedFloor(path)
  {
    LastReplacedReloaded(path);
    assert path[0..] == path && ReloadedPath(path)[0..] == ReloadedPath(path);
    FirstUnlistedSame(ReloadedPath(path), path, LastReplaced(path));
  }

  lemma ReloadedAt(path: seq<Node>, g: nat, i: nat)
    requires g + i < |path|
    ensures ReloadedPath(path)[g..][i] == ReloadedNode(path[g + i]) &&
            ReloadedPath(path[g..])[i] == ReloadedNode(path[g + i])
  {
    assert ReloadedPath(path)[g..][i] == ReloadedPath(path)[g + i];
    assert path[g..][i] == path[g + i];
  }

  lemma ReloadedCut(path: seq<Node>, g: nat)
    requires g <= |path|
    ensures ReloadedPath(path)[g..] == ReloadedPath(path[g..])
  {
    forall i: nat | i < |path| - g ensures ReloadedPath(path)[g..][i] == ReloadedPath(path[g..])[i] {
      ReloadedAt(path, g, i);
    }
  }

  // ---------------------------------------------------------------- resuming

  /** The conversation `ResumeHistoryFromThread` rebuilds from the events of a branch. */
  function Resumed(events: seq<Event>): Chat {
    Chat(NodesIn(events), ResumedFloor(NodesIn(events)))
  }

  function ShownMessages(c: Chat): seq<Message>
    requires c.floor <= |c.path|
  {
    Messages(Project(c.path[c.floor..], MainBranch))
  }

  lemma ReloadedMessages(path: seq<Node>)
    ensures Messages(Project(ReloadedPath(path), MainBranch)) == Messages(Project(path, MainBranch))
  {
    ProjectionReloaded(path, MainBranch, |path|);
    MessagesAlike(Project(ReloadedPath(path), MainBranch), Project(path, MainBranch));
  }

  lemma ResumedMessages(c: LiveChat, events: seq<Event>)
    requires NodesIn(events) == ReloadedPath(c.path)
    ensures ShownMessages(Resumed(events)) == ShownMessages(c)
  {
    var g := ResumedFloor(c.path);
    ResumedFloorReloaded(c.path);
    ReloadedCut(c.path, g);
    ReloadedMessages(c.path[g..]);
    ResumedProjection(c.path, c.floor, MainBranch);
  }

  /**
   Resume equals live: at every point of every run, a provider is sent the same messages by the live conversation
   and by the one rebuilt from the log, although the rebuilt floor may differ and plain assistant messages come
   back as assistant turns.
   */
  lemma ResumeEqualsLive(id: ThreadId, metadata: map<string, string>, session: string, steps: seq<Step>, s: System)
    requires id != "" && Reaches(Initial(id, metadata, session), steps, s)
    ensures View(s.thread, MainBranch).Ok?
    ensures ShownMessages(Resumed(View(s.thread, MainBranch).value)) == ShownMessages(s.chat)
  {
    LogMatchesConversation(id, metadata, session, steps, s);
    ResumedMessages(s.chat, View(s.thread, MainBranch).value);
  }

  /**
   Compaction normal form and invisible floor: at every point of every run the live view, and the view of a fork
   taken there (which has no floor), show all summaries in creation order and then exactly the nodes no summary
   replaced, in path order.
   */
  lemma FloorIsInvisible(s: System, branch: BranchId)
    ensures Project(s.chat.path[s.chat.floor..], branch) == NormalForm(s.chat.path, branch)
    ensures Project(s.chat.path, branch) == NormalForm(s.chat.path, branch)
  {
    LiveProjection(s.chat.path, s.chat.floor, branch, s.chat.floor);
    LiveProjection(s.chat.path, s.chat.floor, branch, 0);
    assert s.chat.path[0..] == s.chat.path;
  }
}
