/**
 A conversation resumed on a fork (runtime/history.go over a forked thread). The fork's log begins with what its parent
 had written; the resumed tree has no head for the new branch, so the fork's turns start from the root. Whatever is
 committed on the fork, and however often it is resumed, the inherited nodes are never on the fork's path again.
 */
module ForkedHistory {
  import opened Sequences
  import opened Items
  import opened Projection
  import opened ConversationTree
  import opened ThreadStore
  import opened ThreadViews
  import opened HistoryRun
  import opened ResumedTree

  /** The head a resumed history has for a branch; none reads as the root. */
  function HeadOn(events: seq<Event>, branch: BranchId): NodeId {
    if branch in HeadsOf(events) then HeadsOf(events)[branch] else ""
  }

  /** The log holds `inherited` and then `own`, and `own` is a path of its own that ends at the fork's head. */
  ghost predicate Apart(inherited: seq<Node>, own: seq<Node>, events: seq<Event>, fork: BranchId) {
    && Insertable(events)
    && NodesIn(events) == inherited + own
    && Linked(own)
    && HeadOn(events, fork) == HeadId(own)
  }

  lemma MentionsConcat(a: seq<Node>, b: seq<Node>, id: NodeId)
    ensures Mentions(a + b, id) <==> Mentions(a, id) || Mentions(b, id)
  {
    assert forall i | 0 <= i < |a| :: (a + b)[i] == a[i];
    assert forall i | 0 <= i < |b| :: (a + b)[|a| + i] == b[i];
  }

  lemma HoldsSuffix(nodes: Nodes, a: seq<Node>, b: seq<Node>)
    requires Holds(nodes, a + b) && DistinctIds(a + b)
    ensures Holds(nodes, b) && DistinctIds(b)
  {
    assert forall i | 0 <= i < |b| :: (a + b)[|a| + i] == b[i];
  }

  /** The chain a resume shows is the fork's own path. */
  lemma ApartChain(inherited: seq<Node>, own: seq<Node>, events: seq<Event>, fork: BranchId)
    requires Apart(inherited, own, events, fork)
    ensures RebuiltChain(events, fork) == own
  {
    InsertableDistinct(events);
    NodesHeld(NodesIn(events));
    HoldsSuffix(TreeNodes(events), inherited, own);
    ChainIsPath(TreeNodes(events), own);
    if own != [] {
      assert own[|own| - 1].id != "";
    }
  }

  lemma ApartEvent(inherited: seq<Node>, own: seq<Node>, events: seq<Event>, fork: BranchId, e: Event)
    requires Apart(inherited, own, events, fork) && e.body.Conversation? && BranchOr(e.branch) == fork
    requires e.node != "" && !Mentions(NodesIn(events), e.node) && e.parent == HeadId(own)
    ensures Apart(inherited, own + [NodeOf(e)], events + [e], fork)
  {
    AddAllHolds(NodesIn(events), e.node);
    AddAllHolds(NodesIn(events), e.parent);
    if own != [] {
      assert Mentions(own, HeadId(own));
      MentionsConcat(inherited, own, HeadId(own));
    }
    InsertableSnoc(events, e);
    NodesInSnoc(events, e);
    Assoc(inherited, own, [NodeOf(e)]);
    LinkedSnoc(own, NodeOf(e));
    ResumedTree.HeadsSnoc(events, e);
  }

  lemma ApartNote(inherited: seq<Node>, own: seq<Node>, events: seq<Event>, fork: BranchId, e: Event)
    requires Apart(inherited, own, events, fork) && !e.body.Conversation?
    ensures Apart(inherited, own, events + [e], fork)
  {
    InsertableSnoc(events, e);
    NodesInSnoc(events, e);
    assert NodesIn(events) + [] == NodesIn(events);
    ResumedTree.HeadsSnoc(events, e);
  }

  // ---------------------------------------------------------------- turns on the fork

  predicate NewIds(nodes: seq<Node>, ids: seq<NodeId>) {
    DistinctNew(ids) && forall i | 0 <= i < |ids| :: !Mentions(nodes, ids[i])
  }

  ghost predicate ApartOn(t: LiveThread, fork: BranchId, inherited: seq<Node>, own: seq<Node>) {
    fork in t.branches && fork != "" && Apart(inherited, own, Shown(t, fork), fork)
  }

  lemma StoredNode(t: Thread, fork: BranchId, node: Node, session: string)
    requires fork != ""
    ensures var stored := Stamped(t, fork, EventFor(node, fork, session));
            && stored.body.Conversation? && stored.branch == fork && BranchOr(stored.branch) == fork
            && stored.node == node.id && stored.parent == node.parent && NodeOf(stored) == ReloadedNode(node)
  {
    NodeInEventFor(node, fork, session, Stamped(t, fork, EventFor(node, fork, session)));
  }

  lemma ApartAppend(t: LiveThread, fork: BranchId, inherited: seq<Node>, own: seq<Node>, node: Node, session: string)
    requires ApartOn(t, fork, inherited, own)
    requires node.id != "" && !Mentions(inherited + own, node.id) && node.parent == HeadId(own)
    ensures ApartOn(AppendOne(t, fork, EventFor(node, fork, session)), fork, inherited, own + [ReloadedNode(node)])
  {
    var e := EventFor(node, fork, session);
    AppendExtendsOneView(t, fork, e, fork);
    StoredNode(t, fork, node, session);
    ApartEvent(inherited, own, Shown(t, fork), fork, Stamped(t, fork, e));
  }

  lemma HeadConcat(a: seq<Node>, b: seq<Node>)
    ensures HeadId(a + b) == if b == [] then HeadId(a) else b[|b| - 1].id
  {
    if b == [] { assert a + b == a; }
  }

  lemma LastReloaded(head: NodeId, ids: seq<NodeId>, payloads: seq<Payload>)
    requires |ids| == |payloads| && ids != []
    ensures ReloadedPath(NewNodes(head, ids, payloads))[|ids| - 1].id == ids[|ids| - 1]
  {}

  lemma HeadReloaded(own: seq<Node>, ids: seq<NodeId>, payloads: seq<Payload>, n: nat)
    requires n <= |ids| == |payloads|
    ensures HeadId(own + ReloadedPath(NewNodes(HeadId(own), ids[..n], payloads[..n]))) == IdAt(HeadId(own), ids, n)
  {
    HeadConcat(own, ReloadedPath(NewNodes(HeadId(own), ids[..n], payloads[..n])));
    if n != 0 { LastReloaded(HeadId(own), ids[..n], payloads[..n]); }
  }

  lemma NewNodesMention(head: NodeId, ids: seq<NodeId>, payloads: seq<Payload>, id: NodeId)
    requires |ids| == |payloads| && id !in ids
    ensures !Mentions(ReloadedPath(NewNodes(head, ids, payloads)), id)
  {
    assert forall i | 0 <= i < |ids| :: ids[i] in ids;
  }

  lemma StillNew(inherited: seq<Node>, own: seq<Node>, ids: seq<NodeId>, payloads: seq<Payload>, n: nat)
    requires |ids| == |payloads| && NewIds(inherited + own, ids) && n < |ids|
    ensures !Mentions(inherited + (own + ReloadedPath(NewNodes(HeadId(own), ids[..n], payloads[..n]))), ids[n])
  {
    var added := ReloadedPath(NewNodes(HeadId(own), ids[..n], payloads[..n]));
    NewNodesMention(HeadId(own), ids[..n], payloads[..n], ids[n]);
    Assoc(inherited, own, added);
    MentionsConcat(inherited + own, added, ids[n]);
  }

  /** A turn lengthens the fork's own path, and nothing else of it. */
  lemma {:induction false} ApartTurn(t: LiveThread, fork: BranchId, inherited: seq<Node>, own: seq<Node>,
                                     ids: seq<NodeId>, payloads: seq<Payload>, session: string)
    requires ApartOn(t, fork, inherited, own) && |ids| == |payloads| && NewIds(inherited + own, ids)
    ensures var nodes := NewNodes(HeadId(own), ids, payloads);
            ApartOn(AppendAll(t, fork, EventsFor(nodes, fork, session)), fork, inherited, own + ReloadedPath(nodes))
    decreases |ids|
  {
    if ids == [] {
      assert own + [] == own;
    } else {
      var n := |ids| - 1;
      assert ids[..|ids|] == ids && payloads[..|payloads|] == payloads;
      var nodes, init := NewNodes(HeadId(own), ids, payloads), NewNodes(HeadId(own), ids[..n], payloads[..n]);
      var last := Node(ids[n], IdAt(HeadId(own), ids, n), payloads[n]);
      NewNodesSnoc(HeadId(own), ids, payloads, n);
      SnocInit(init, last);
      ApartTurn(t, fork, inherited, own, ids[..n], payloads[..n], session);
      HeadReloaded(own, ids, payloads, n);
      StillNew(inherited, own, ids, payloads, n);
      var before := AppendAll(t, fork, EventsFor(init, fork, session));
      ApartAppend(before, fork, inherited, own + ReloadedPath(init), last, session);
      EventsForSnoc(t, fork, init, last, session);
      Assoc(own, ReloadedPath(init), [ReloadedNode(last)]);
      ReloadedConcat(init, [last]);
    }
  }

  lemma EventsForSnoc(t: LiveThread, fork: BranchId, init: seq<Node>, last: Node, session: string)
    ensures AppendAll(t, fork, EventsFor(init + [last], fork, session)) ==
            AppendOne(AppendAll(t, fork, EventsFor(init, fork, session)), fork, EventFor(last, fork, session))
  {
    SnocInit(init, last);
    SnocInit(EventsFor(init, fork, session), EventFor(last, fork, session));
  }

  // ---------------------------------------------------------------- what others do

  /** Nobody else writes the conversation of the fork. */
  predicate Outside(t: Thread, fork: BranchId, live: BranchId, e: Event) {
    Stamped(t, live, e).branch != fork || !e.body.Conversation?
  }

  predicate OutsideOp(t: Thread, fork: BranchId, op: Op) {
    op.Append? ==> forall e | e in op.events :: Outside(t, fork, op.live, e)
  }

  lemma ApartOutside(t: LiveThread, fork: BranchId, inherited: seq<Node>, own: seq<Node>, live: BranchId, e: Event)
    requires ApartOn(t, fork, inherited, own) && Outside(t, fork, live, e)
    ensures ApartOn(AppendOne(t, live, e), fork, inherited, own)
  {
    AppendExtendsOneView(t, live, e, fork);
    if Stamped(t, live, e).branch == fork { ApartNote(inherited, own, Shown(t, fork), fork, Stamped(t, live, e)); }
  }

  lemma {:induction false} ApartOutsideAll(t: LiveThread, fork: BranchId, inherited: seq<Node>, own: seq<Node>,
                                           live: BranchId, events: seq<Event>)
    requires ApartOn(t, fork, inherited, own) && forall e | e in events :: Outside(t, fork, live, e)
    ensures AppendAll(t, live, events).root == t.root && ApartOn(AppendAll(t, live, events), fork, inherited, own)
  {
    if events != [] {
      var init, last := events[..|events| - 1], events[|events| - 1];
      ApartOutsideAll(t, fork, inherited, own, live, init);
      assert Outside(t, fork, live, last);
      ApartOutside(AppendAll(t, live, init), fork, inherited, own, live, last);
    }
  }

  lemma ApartOutsideOp(t: LiveThread, fork: BranchId, inherited: seq<Node>, own: seq<Node>, op: Op)
    requires ApartOn(t, fork, inherited, own) && OutsideOp(t, fork, op)
    ensures ApartOn(Apply(t, op), fork, inherited, own)
  {
    match op
    case Append(live, events) => ApartOutsideAll(t, fork, inherited, own, live, events);
    case Fork(from, to, session) =>
      if CanFork(t, from, to) && to != "" { ForkHidesFromOthers(t, from, to, session, fork); }
    case SetArchived(archived) =>
      ArchiveMarkShows(t, archived);
      ApartOutside(t.(archived := archived), fork, inherited, own, t.root,
                   Lifecycle("", if archived then ThreadArchived else ThreadUnarchived));
  }

  // ---------------------------------------------------------------- the fork itself

  lemma {:induction false} HeadOnNone(events: seq<Event>, branch: BranchId)
    requires forall e | e in events :: e.body.Conversation? ==> BranchOr(e.branch) != branch
    ensures HeadOn(events, branch) == ""
  {
    if events != [] {
      var init, last := events[..|events| - 1], events[|events| - 1];
      HeadOnNone(init, branch);
      assert last in events;
    }
  }

  /** Nothing a branch shows is recorded under a branch that does not exist yet. */
  lemma ShownElsewhere(t: LiveThread, b: BranchId, fork: BranchId)
    requires b in t.branches && fork !in t.branches
    ensures forall e | e in Shown(t, b) :: BranchOr(e.branch) != fork
  {
    WindowKeys(t, b, 0);
  }

  lemma ApartFresh(events: seq<Event>, fork: BranchId, created: Event)
    requires Insertable(events) && (forall e | e in events :: BranchOr(e.branch) != fork) && !created.body.Conversation?
    ensures Apart(NodesIn(events), [], events + [created], fork)
  {
    HeadOnNone(events, fork);
    assert NodesIn(events) + [] == NodesIn(events);
    ApartNote(NodesIn(events), [], events, fork, created);
  }

  /** A new fork: all of its parent's nodes, and none of its own. */
  lemma ApartStart(t: LiveThread, from: BranchId, fork: BranchId, session: string)
    requires CanFork(t, from, fork) && fork != "" && Insertable(Shown(t, BranchOrRoot(t, from)))
    ensures ApartOn(Forked(t, from, fork, session), fork, NodesIn(Shown(t, BranchOrRoot(t, from))), [])
  {
    var parent := BranchOrRoot(t, from);
    var t': LiveThread := Forked(t, from, fork, session);
    ForkEvent(t, from, fork, session);
    ForkSnapshots(t, from, fork, session);
    ShownElsewhere(t, parent, fork);
    ApartFresh(Shown(t, parent), fork, t'.events[|t.events|]);
  }

  // ---------------------------------------------------------------- every run on the fork

  /** The thread, and the conversation committed on the fork so far. */
  datatype ForkState = ForkState(thread: LiveThread, own: seq<Node>)

  datatype ForkStep =
    | Turn(ids: seq<NodeId>, payloads: seq<Payload>, session: string)
    | Other(op: Op)

  ghost predicate Allowed(s: ForkState, fork: BranchId, step: ForkStep) {
    && fork in s.thread.branches
    && match step
       case Turn(ids, payloads, _) => |ids| == |payloads| && NewIds(NodesIn(Shown(s.thread, fork)), ids)
       case Other(op) => OutsideOp(s.thread, fork, op)
  }

  ghost function After(s: ForkState, fork: BranchId, step: ForkStep): ForkState
    requires Allowed(s, fork, step)
  {
    match step
    case Turn(ids, payloads, session) =>
      var nodes := NewNodes(HeadId(s.own), ids, payloads);
      ForkState(AppendAll(s.thread, fork, EventsFor(nodes, fork, session)), s.own + nodes)
    case Other(op) => s.(thread := Apply(s.thread, op))
  }

  ghost predicate Moves(s: ForkState, fork: BranchId, step: ForkStep, s': ForkState) {
    Allowed(s, fork, step) && s' == After(s, fork, step)
  }

  ghost predicate Leads(start: ForkState, fork: BranchId, steps: seq<ForkStep>, s: ForkState) {
    if steps == [] then s == start
    else
      var earlier, last := steps[..|steps| - 1], steps[|steps| - 1];
      exists mid :: Leads(start, fork, earlier, mid) && Moves(mid, fork, last, s)
  }

  lemma ApartStep(s: ForkState, fork: BranchId, inherited: seq<Node>, step: ForkStep)
    requires ApartOn(s.thread, fork, inherited, ReloadedPath(s.own)) && Allowed(s, fork, step)
    ensures var s' := After(s, fork, step); ApartOn(s'.thread, fork, inherited, ReloadedPath(s'.own))
  {
    match step
    case Turn(ids, payloads, session) =>
      assert HeadId(ReloadedPath(s.own)) == HeadId(s.own);
      ApartTurn(s.thread, fork, inherited, ReloadedPath(s.own), ids, payloads, session);
      ReloadedConcat(s.own, NewNodes(HeadId(s.own), ids, payloads));
    case Other(op) => ApartOutsideOp(s.thread, fork, inherited, ReloadedPath(s.own), op);
  }

  lemma {:induction false} ApartThroughout(start: ForkState, fork: BranchId, inherited: seq<Node>,
                                           steps: seq<ForkStep>, s: ForkState)
    requires ApartOn(start.thread, fork, inherited, ReloadedPath(start.own)) && Leads(start, fork, steps, s)
    ensures ApartOn(s.thread, fork, inherited, ReloadedPath(s.own))
  {
    if steps != [] {
      var mid :| Leads(start, fork, steps[..|steps| - 1], mid) && Moves(mid, fork, steps[|steps| - 1], s);
      ApartThroughout(start, fork, inherited, steps[..|steps| - 1], mid);
      ApartStep(mid, fork, inherited, steps[|steps| - 1]);
    }
  }

  /**
   A fork's turns never bring back what it inherited: after any run on the fork, resuming it shows the fork's own turns
   and nothing before them, although its log still holds every inherited node.
   */
  lemma ForkForgets(t: LiveThread, from: BranchId, fork: BranchId, session: string, steps: seq<ForkStep>, s: ForkState)
    requires CanFork(t, from, fork) && fork != "" && Insertable(Shown(t, BranchOrRoot(t, from)))
    requires Leads(ForkState(Forked(t, from, fork, session), []), fork, steps, s)
    ensures View(s.thread, fork).Ok?
    ensures var inherited, events := NodesIn(Shown(t, BranchOrRoot(t, from))), View(s.thread, fork).value;
            && Insertable(events)
            && NodesIn(events) == inherited + ReloadedPath(s.own)
            && RebuiltChain(events, fork) == ReloadedPath(s.own)
            && (RebuiltChain(events, fork) == NodesIn(events) <==> inherited == [])
  {
    var inherited := NodesIn(Shown(t, BranchOrRoot(t, from)));
    ApartStart(t, from, fork, session);
    ApartThroughout(ForkState(Forked(t, from, fork, session), []), fork, inherited, steps, s);
    ViewIs(s.thread, fork);
    ApartChain(inherited, ReloadedPath(s.own), Shown(s.thread, fork), fork);
    if inherited == [] {
      assert inherited + ReloadedPath(s.own) == ReloadedPath(s.own);
    }
  }

  lemma MainInsertable(id: ThreadId, metadata: map<string, string>, session: string, run: seq<Step>, main: System)
    requires id != "" && Reaches(Initial(id, metadata, session), run, main)
    ensures MainBranch in main.thread.branches && Insertable(Shown(main.thread, MainBranch))
    ensures NodesIn(Shown(main.thread, MainBranch)) == ReloadedPath(main.chat.path)
  {
    LogMatchesConversation(id, metadata, session, run, main);
    ViewIs(main.thread, MainBranch);
    LinkedIsInsertable(Shown(main.thread, MainBranch));
  }

  /**
   Forking `main` at any point of any run: the fork's log holds the conversation of `main`, the fork shows none of it.
   */
  lemma ForkOfMainForgets(id: ThreadId, metadata: map<string, string>, session: string, run: seq<Step>, main: System,
                          fork: BranchId, steps: seq<ForkStep>, s: ForkState)
    requires id != "" && Reaches(Initial(id, metadata, session), run, main)
    requires CanFork(main.thread, MainBranch, fork) && fork != ""
    requires Leads(ForkState(Forked(main.thread, MainBranch, fork, session), []), fork, steps, s)
    ensures View(s.thread, fork).Ok? && Insertable(View(s.thread, fork).value)
    ensures NodesIn(View(s.thread, fork).value) == ReloadedPath(main.chat.path) + ReloadedPath(s.own)
    ensures RebuiltChain(View(s.thread, fork).value, fork) == ReloadedPath(s.own)
  {
    MainInsertable(id, metadata, session, run, main);
    ForkForgets(main.thread, MainBranch, fork, session, steps, s);
  }

  lemma ReachesOne(start: System, step: Step)
    requires Enabled(start, step)
    ensures Reaches(start, [step], Next(start, step))
  {
    assert [step][..0] == [] && Reaches(start, [], start) && StepsTo(start, step, Next(start, step));
  }

  lemma OneTurn(id: ThreadId, session: string, node: Node)
    requires id != "" && node.id != "" && node.parent == "" && !node.payload.CompactionEvent?
    ensures var start, turn := Initial(id, map[], session), Commit([], [node.id], [node.payload], session);
            && Enabled(start, turn)
            && Next(start, turn).chat.path == [node]
            && Next(start, turn).thread == AppendOne(start.thread, MainBranch, EventFor(node, MainBranch, session))
  {
    var nodes, e := NewNodes("", [node.id], [node.payload]), EventFor(node, MainBranch, session);
    assert nodes == [node] && [node][..0] == [];
    assert EventsFor(nodes, MainBranch, session) == [e] && [] + [e] == [e] && [e][..0] == [];
    var thread := Initial(id, map[], session).thread;
    assert AppendAll(thread, MainBranch, [e]) == AppendOne(AppendAll(thread, MainBranch, []), MainBranch, e);
  }

  lemma OneTurnReached(id: ThreadId, session: string, node: Node) returns (main: System)
    requires id != "" && node.id != "" && node.parent == "" && !node.payload.CompactionEvent?
    ensures Reaches(Initial(id, map[], session), [Commit([], [node.id], [node.payload], session)], main)
    ensures main.chat.path == [node]
    ensures main.thread == AppendOne(Created(id, MainBranch, map[], session), MainBranch,
                                     EventFor(node, MainBranch, session))
  {
    var start, turn := Initial(id, map[], session), Commit([], [node.id], [node.payload], session);
    OneTurn(id, session, node);
    ReachesOne(start, turn);
    main := Next(start, turn);
  }

  /** The log of the branch holds the nodes; resumed on it, a conversation has none. */
  ghost predicate ShowsNone(t: LiveThread, fork: BranchId, nodes: seq<Node>) {
    && View(t, fork).Ok? && Insertable(View(t, fork).value)
    && NodesIn(View(t, fork).value) == nodes && RebuiltChain(View(t, fork).value, fork) == []
  }

  /** At any point of any run on `main`: a new fork of it shows nothing of the conversation its log holds. */
  lemma NewForkIsEmpty(id: ThreadId, metadata: map<string, string>, session: string, run: seq<Step>, main: System,
                       fork: BranchId)
    requires id != "" && Reaches(Initial(id, metadata, session), run, main)
    requires CanFork(main.thread, MainBranch, fork) && fork != ""
    ensures ShowsNone(Forked(main.thread, MainBranch, fork, session), fork, ReloadedPath(main.chat.path))
  {
    MainInsertable(id, metadata, session, run, main);
    ApartStart(main.thread, MainBranch, fork, session);
    ApartShowsNone(Forked(main.thread, MainBranch, fork, session), fork, ReloadedPath(main.chat.path));
  }

  lemma ApartShowsNone(t: LiveThread, fork: BranchId, inherited: seq<Node>)
    requires ApartOn(t, fork, inherited, [])
    ensures ShowsNone(t, fork, inherited)
  {
    ViewIs(t, fork);
    ApartChain(inherited, [], Shown(t, fork), fork);
    assert inherited + [] == inherited;
  }

  lemma RunForks(start: LiveThread, live: BranchId, e: Event, fork: BranchId, session: string)
    requires live in start.branches && live != "" && fork !in start.branches && fork != "" && HasKind(e)
    ensures CanFork(AppendOne(start, live, e), live, fork)
    ensures Run(start, [Append(live, [e]), Fork(live, fork, session)]) ==
            Forked(AppendOne(start, live, e), live, fork, session)
  {
    var append, forking := Append(live, [e]), Fork(live, fork, session);
    RunSnoc(start, [], append);
    RunSnoc(start, [append], forking);
    assert [] + [append] == [append] && [append] + [forking] == [append, forking];
    AppendedOne(start, live, e);
  }

  lemma ForkAfterTurn(id: ThreadId, session: string, node: Node, fork: BranchId)
    requires id != "" && node.id != "" && node.parent == "" && !node.payload.CompactionEvent?
    requires fork != "" && fork != MainBranch
    ensures var e := EventFor(node, MainBranch, session);
            var t := AppendOne(Created(id, MainBranch, map[], session), MainBranch, e);
            ShowsNone(Forked(t, MainBranch, fork, session), fork, [ReloadedNode(node)])
  {
    var main := OneTurnReached(id, session, node);
    ForkableAfter(id, session, EventFor(node, MainBranch, session), fork);
    ReloadedOne(node);
    NewForkIsEmpty(id, map[], session, [Commit([], [node.id], [node.payload], session)], main, fork);
  }

  lemma ForkableAfter(id: ThreadId, session: string, e: Event, fork: BranchId)
    requires fork != MainBranch
    ensures CanFork(AppendOne(Created(id, MainBranch, map[], session), MainBranch, e), MainBranch, fork)
  {}

  lemma ReloadedOne(node: Node)
    ensures ReloadedPath([node]) == [ReloadedNode(node)]
  {}

  /** A thread with one turn, forked: the fork's log holds the turn, and the resumed fork shows nothing. */
  lemma ForkedTurnIsLost(id: ThreadId, session: string, node: Node, fork: BranchId)
    requires id != "" && node.id != "" && node.parent == "" && !node.payload.CompactionEvent?
    requires fork != "" && fork != MainBranch
    ensures var turn := Append(MainBranch, [EventFor(node, MainBranch, session)]);
            var t := Run(Created(id, MainBranch, map[], session), [turn, Fork(MainBranch, fork, session)]);
            ShowsNone(t, fork, [ReloadedNode(node)])
  {
    RunForks(Created(id, MainBranch, map[], session), MainBranch, EventFor(node, MainBranch, session), fork, session);
    ForkAfterTurn(id, session, node, fork);
  }
}
