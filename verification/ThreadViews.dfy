/**
 Branch isolation and fork snapshots: in every reachable thread the windows over the shared log give each branch
 exactly the view it would have if it owned a private list, copied at the fork and appended to only by itself.
 */
module ThreadViews {
  import opened Sequences
  import opened Items
  import opened ThreadStore

  // ---------------------------------------------------------------- one append

  /** A branch of a reachable thread always has its lineage. */
  lemma {:induction false} LineageExists(t: LiveThread, b: BranchId)
    requires b in t.branches
    ensures Lineage(t.branches, b).Some?
    decreases t.branches[b].forkSeq
  {
    if t.branches[b].parent != "" { LineageExists(t, t.branches[b].parent); }
  }

  ghost function WindowsAt(t: LiveThread, b: BranchId, until: nat): map<BranchId, Window>
    requires b in t.branches
  {
    LineageExists(t, b);
    WindowsOf(Lineage(t.branches, b).value, until)
  }

  lemma WindowsUnfold(t: LiveThread, b: BranchId, until: nat)
    requires b in t.branches
    ensures var branch := t.branches[b];
            WindowsAt(t, b, until) ==
            (if branch.parent == "" then map[]
             else WindowsAt(t, branch.parent, branch.forkSeq))[b := Window(branch.forkSeq, until)]
  {
    LineageExists(t, b);
    var branch := t.branches[b];
    if branch.parent != "" { LineageExists(t, branch.parent); }
    var above := if branch.parent == "" then [] else Lineage(t.branches, branch.parent).value;
    assert Lineage(t.branches, b) == Some(above + [branch]);
    assert (above + [branch])[..|above|] == above;
    assert WindowsOf(above + [branch], until) == WindowsOf(above, branch.forkSeq)[b := Window(branch.forkSeq, until)];
  }

  /** What a registered branch of a reachable thread shows. */
  ghost function Shown(t: LiveThread, b: BranchId): seq<Event>
    requires b in t.branches
  {
    Filter(Visible(WindowsAt(t, b, 0)), t.events)
  }

  lemma ViewIs(t: LiveThread, b: BranchId)
    requires b in t.branches
    ensures View(t, b) == Ok(Shown(t, b))
  {
    LineageExists(t, b);
  }

  /** An ancestor's window closed before the log's end: nothing new gets in. */
  lemma {:induction false} ClosedWindow(t: LiveThread, b: BranchId, until: nat, e: Event)
    requires b in t.branches && 0 < until < t.nextSeq && e.seqNo == t.nextSeq
    ensures !InWindow(WindowsAt(t, b, until), e)
    decreases t.branches[b].forkSeq
  {
    WindowsUnfold(t, b, until);
    var branch := t.branches[b];
    if branch.parent != "" { ClosedWindow(t, branch.parent, branch.forkSeq, e); }
  }

  /** A new event is visible on its own branch and on no other. */
  lemma NewEventVisible(t: LiveThread, b: BranchId, e: Event)
    requires b in t.branches && e.seqNo == t.nextSeq
    ensures InWindow(WindowsAt(t, b, 0), e) <==> e.branch == b
  {
    WindowsUnfold(t, b, 0);
    var branch := t.branches[b];
    if branch.parent != "" { ClosedWindow(t, branch.parent, branch.forkSeq, e); }
  }

  lemma AppendExtendsOneView(t: LiveThread, live: BranchId, e: Event, b: BranchId)
    requires b in t.branches
    ensures var stored := Stamped(t, live, e);
            Shown(AppendOne(t, live, e), b) == if stored.branch == b then Shown(t, b) + [stored] else Shown(t, b)
  {
    var stored := Stamped(t, live, e);
    var t' := AppendOne(t, live, e);
    NewEventVisible(t, b, stored);
    assert WindowsAt(t', b, 0) == WindowsAt(t, b, 0);
    assert t'.events[..|t.events|] == t.events;
  }

  // ---------------------------------------------------------------- one fork

  lemma {:induction false} LineageUntouched(before: Branches, branch: Branch, b: BranchId)
    requires Rooted(before) && branch.id !in before && Rooted(before[branch.id := branch]) && branch.id != ""
    requires b == "" || b in before
    requires forall x | x in before :: before[x].parent == "" || before[x].parent in before
    ensures Lineage(before[branch.id := branch], b) == Lineage(before, b)
    decreases if b != "" && b in before then before[b].forkSeq + 1 else 0
  {
    if b != "" { LineageUntouched(before, branch, before[b].parent); }
  }

  /** Cutting the parent at the end of the log hides nothing that is already there. */
  lemma UntilEnd(t: LiveThread, b: BranchId, e: Event)
    requires b in t.branches && e in t.events
    ensures InWindow(WindowsAt(t, b, t.nextSeq - 1), e) <==> InWindow(WindowsAt(t, b, 0), e)
  {
    WindowsUnfold(t, b, t.nextSeq - 1);
    WindowsUnfold(t, b, 0);
  }

  lemma {:induction false} WindowKeys(t: LiveThread, b: BranchId, until: nat)
    requires b in t.branches
    ensures WindowsAt(t, b, until).Keys <= t.branches.Keys
    decreases t.branches[b].forkSeq
  {
    WindowsUnfold(t, b, until);
    if t.branches[b].parent != "" { WindowKeys(t, t.branches[b].parent, t.branches[b].forkSeq); }
  }

  /** On the events before the fork, the new branch sees what its parent sees. */
  lemma ForkSeesParent(t: LiveThread, from: BranchId, to: BranchId, windows: map<BranchId, Window>, e: Event)
    requires from in t.branches && to !in t.branches && e in t.events
    requires windows == WindowsAt(t, from, t.nextSeq - 1)[to := Window(t.nextSeq - 1, 0)]
    ensures InWindow(windows, e) <==> InWindow(WindowsAt(t, from, 0), e)
  {
    UntilEnd(t, from, e);
    WindowKeys(t, from, 0);
    assert e.seqNo <= t.nextSeq - 1;
  }

  lemma ForkWindows(t: LiveThread, from: BranchId, to: BranchId, session: string)
    requires CanFork(t, from, to) && to != ""
    ensures WindowsAt(Forked(t, from, to, session), to, 0)
         == WindowsAt(t, BranchOrRoot(t, from), t.nextSeq - 1)[to := Window(t.nextSeq - 1, 0)]
    ensures forall b | b in t.branches :: WindowsAt(Forked(t, from, to, session), b, 0) == WindowsAt(t, b, 0)
  {
    var t' := Forked(t, from, to, session);
    var branch := t'.branches[to];
    forall b | b in t.branches ensures Lineage(t'.branches, b) == Lineage(t.branches, b) {
      LineageUntouched(t.branches, branch, b);
    }
    WindowsUnfold(t', to, 0);
  }

  lemma ForkShowsParent(t: LiveThread, from: BranchId, to: BranchId, session: string)
    requires CanFork(t, from, to) && to != ""
    ensures var t', parent := Forked(t, from, to, session), BranchOrRoot(t, from);
            Shown(t', to) == Shown(t, parent) + [t'.events[|t.events|]]
  {
    var t', parent := Forked(t, from, to, session), BranchOrRoot(t, from);
    ForkWindows(t, from, to, session);
    assert t'.events[..|t.events|] == t.events;
    var windows := WindowsAt(t', to, 0);
    forall e | e in t.events ensures Visible(windows)(e) == Visible(WindowsAt(t, parent, 0))(e) {
      ForkSeesParent(t, parent, to, windows, e);
    }
    FilterSame(Visible(windows), Visible(WindowsAt(t, parent, 0)), t.events);
  }

  lemma ForkHidesFromOthers(t: LiveThread, from: BranchId, to: BranchId, session: string, b: BranchId)
    requires CanFork(t, from, to) && to != "" && b in t.branches
    ensures var t' := Forked(t, from, to, session); Shown(t', b) == Shown(t, b)
  {
    var t' := Forked(t, from, to, session);
    ForkWindows(t, from, to, session);
    WindowKeys(t, b, 0);
    assert t'.events[..|t.events|] == t.events;
  }

  /** A fork starts with its parent's view and its own creation event; nobody else's view changes. */
  lemma ForkSnapshots(t: LiveThread, from: BranchId, to: BranchId, session: string)
    requires CanFork(t, from, to) && to != ""
    ensures var t', parent := Forked(t, from, to, session), BranchOrRoot(t, from);
            && Shown(t', to) == Shown(t, parent) + [t'.events[|t.events|]]
            && t'.events[|t.events|].body == BranchCreated(parent, to, t.nextSeq - 1)
            && (forall b | b in t.branches :: Shown(t', b) == Shown(t, b))
  {
    ForkShowsParent(t, from, to, session);
    forall b | b in t.branches ensures Shown(Forked(t, from, to, session), b) == Shown(t, b) {
      ForkHidesFromOthers(t, from, to, session, b);
    }
  }

  // ---------------------------------------------------------------- whole runs

  datatype Op =
    | Append(live: BranchId, events: seq<Event>)
    | Fork(from: BranchId, to: BranchId, session: string)
    | SetArchived(archived: bool)

  function Apply(t: LiveThread, op: Op): LiveThread {
    match op
    case Append(live, events) => Appended(t, live, events)
    case Fork(from, to, session) => if CanFork(t, from, to) && to != "" then Forked(t, from, to, session) else t
    case SetArchived(archived) => ArchivedAs(t, archived)
  }

  function Run(start: LiveThread, ops: seq<Op>): LiveThread {
    if ops == [] then start else Apply(Run(start, ops[..|ops| - 1]), ops[|ops| - 1])
  }

  lemma RunSnoc(start: LiveThread, ops: seq<Op>, op: Op)
    ensures Run(start, ops + [op]) == Apply(Run(start, ops), op)
  {
    SnocInit(ops, op);
  }

  lemma AppendedOne(t: Thread, live: BranchId, e: Event)
    requires HasKind(e)
    ensures Appended(t, live, [e]) == AppendOne(t, live, e)
  {
    assert [e][..0] == [] && AppendAll(t, live, []) == t;
  }

  /** The reference: every branch owns its list. */
  type Lists = map<BranchId, seq<Event>>

  function Push(lists: Lists, e: Event): Lists {
    if e.branch in lists then lists[e.branch := lists[e.branch] + [e]] else lists
  }

  /** Pushes events `from..` of the log to the lists of the branches they name. */
  function PushAll(lists: Lists, log: seq<Event>, from: nat): Lists
    requires from <= |log|
    decreases |log|
  {
    if from == |log| then lists else Push(PushAll(lists, log[..|log| - 1], from), log[|log| - 1])
  }

  /**
   One operation on private lists: a fork copies its parent's list first, then new events go to the branch they name.
   */
  function ApplyLists(lists: Lists, t: LiveThread, op: Op): Lists
  {
    var t' := Apply(t, op);
    var copied := match op
                  case Fork(from, to, _) =>
                    var parent := BranchOrRoot(t, from);
                    if CanFork(t, from, to) && to != "" && parent in lists then lists[to := lists[parent]] else lists
                  case _ => lists;
    if |t.events| <= |t'.events| then PushAll(copied, t'.events, |t.events|) else copied
  }

  function RunLists(start: LiveThread, lists: Lists, ops: seq<Op>): Lists
  {
    if ops == [] then lists
    else ApplyLists(RunLists(start, lists, ops[..|ops| - 1]), Run(start, ops[..|ops| - 1]), ops[|ops| - 1])
  }

  ghost predicate AgreesAt(t: LiveThread, lists: Lists, b: BranchId) {
    b in t.branches && b in lists && Shown(t, b) == lists[b]
  }

  ghost predicate Agrees(t: LiveThread, lists: Lists) {
    lists.Keys == t.branches.Keys && forall b | b in lists :: AgreesAt(t, lists, b)
  }

  lemma PushAllSnoc(lists: Lists, log: seq<Event>, e: Event, from: nat)
    requires from <= |log|
    ensures PushAll(lists, log + [e], from) == Push(PushAll(lists, log, from), e)
  {
    assert (log + [e])[..|log|] == log;
  }

  lemma PushAt(lists: Lists, e: Event, b: BranchId)
    requires b in lists
    ensures Push(lists, e).Keys == lists.Keys
    ensures Push(lists, e)[b] == if e.branch == b then lists[b] + [e] else lists[b]
  {}

  lemma AppendAgreesAt(t: LiveThread, lists: Lists, live: BranchId, e: Event, b: BranchId)
    requires AgreesAt(t, lists, b)
    ensures AgreesAt(AppendOne(t, live, e), Push(lists, Stamped(t, live, e)), b)
  {
    AppendExtendsOneView(t, live, e, b);
    PushAt(lists, Stamped(t, live, e), b);
  }

  lemma AgreesAppendOne(t: LiveThread, lists: Lists, live: BranchId, e: Event)
    requires Agrees(t, lists)
    ensures Agrees(AppendOne(t, live, e), Push(lists, Stamped(t, live, e)))
  {
    forall b | b in lists ensures AgreesAt(AppendOne(t, live, e), Push(lists, Stamped(t, live, e)), b) {
      AppendAgreesAt(t, lists, live, e, b);
    }
  }

  lemma {:induction false} AgreesAppendAll(t: LiveThread, lists: Lists, live: BranchId, events: seq<Event>)
    requires Agrees(t, lists)
    ensures |AppendAll(t, live, events).events| == |t.events| + |events|
    ensures Agrees(AppendAll(t, live, events), PushAll(lists, AppendAll(t, live, events).events, |t.events|))
  {
    if events != [] {
      var init, last := events[..|events| - 1], events[|events| - 1];
      AgreesAppendAll(t, lists, live, init);
      var t1 := AppendAll(t, live, init);
      AgreesAppendOne(t1, PushAll(lists, t1.events, |t.events|), live, last);
      PushAllSnoc(lists, t1.events, Stamped(t1, live, last), |t.events|);
    }
  }

  /** The event that records a fork stands at the end of the log, on the new branch. */
  lemma ForkEvent(t: LiveThread, from: BranchId, to: BranchId, session: string)
    requires CanFork(t, from, to) && to != ""
    ensures var t' := Forked(t, from, to, session);
            && |t'.events| == |t.events| + 1 && t'.events[|t.events|].branch == to
            && t'.branches.Keys == t.branches.Keys + {to}
  {}

  lemma ForkAgreesAt(t: LiveThread, lists: Lists, from: BranchId, to: BranchId, session: string, b: BranchId)
    requires Agrees(t, lists) && CanFork(t, from, to) && to != "" && (b == to || b in lists)
    ensures |Forked(t, from, to, session).events| == |t.events| + 1
    ensures AgreesAt(Forked(t, from, to, session),
                     ForkLists(t, lists, from, to, Forked(t, from, to, session).events[|t.events|]), b)
  {
    ForkEvent(t, from, to, session);
    assert AgreesAt(t, lists, BranchOrRoot(t, from));
    if b == to {
      ForkShowsParent(t, from, to, session);
    } else {
      assert AgreesAt(t, lists, b);
      ForkHidesFromOthers(t, from, to, session, b);
    }
  }

  /** A fork copies its parent's list and begins with its creation. */
  function ForkLists(t: LiveThread, lists: Lists, from: BranchId, to: BranchId, created: Event): Lists {
    var parent := BranchOrRoot(t, from);
    Push(if parent in lists then lists[to := lists[parent]] else lists, created)
  }

  lemma ForkKeys(t: LiveThread, lists: Lists, from: BranchId, to: BranchId, created: Event)
    requires lists.Keys == t.branches.Keys && CanFork(t, from, to)
    ensures ForkLists(t, lists, from, to, created).Keys == lists.Keys + {to}
  {}

  lemma AgreesFork(t: LiveThread, lists: Lists, from: BranchId, to: BranchId, session: string)
    requires Agrees(t, lists) && CanFork(t, from, to) && to != ""
    ensures |Forked(t, from, to, session).events| == |t.events| + 1
    ensures Agrees(Forked(t, from, to, session),
                   ForkLists(t, lists, from, to, Forked(t, from, to, session).events[|t.events|]))
  {
    ForkEvent(t, from, to, session);
    var t': LiveThread := Forked(t, from, to, session);
    var after := ForkLists(t, lists, from, to, t'.events[|t.events|]);
    ForkKeys(t, lists, from, to, t'.events[|t.events|]);
    forall b | b in after ensures AgreesAt(t', after, b) {
      ForkAgreesAt(t, lists, from, to, session, b);
    }
  }

  /** The archived flag is not part of any view. */
  lemma ArchiveMarkShows(t: LiveThread, archived: bool)
    ensures ThreadOk(t.(archived := archived))
    ensures forall b | b in t.branches :: Shown(t.(archived := archived), b) == Shown(t, b)
  {
    var marked := t.(archived := archived);
    assert ThreadOk(marked);
  }

  lemma AgreesArchive(t: LiveThread, lists: Lists, archived: bool)
    requires Agrees(t, lists)
    ensures var t' := ArchivedAs(t, archived); Agrees(t', Push(lists, t'.events[|t.events|]))
  {
    ArchiveMarkShows(t, archived);
    var e := Lifecycle("", if archived then ThreadArchived else ThreadUnarchived);
    AgreesAppendOne(t.(archived := archived), lists, t.root, e);
  }

  lemma PushOnly(lists: Lists, log: seq<Event>, e: Event)
    ensures PushAll(lists, log + [e], |log|) == Push(lists, e)
  {
    PushAllSnoc(lists, log, e, |log|);
  }

  lemma AgreesStepAppend(t: LiveThread, lists: Lists, live: BranchId, events: seq<Event>)
    requires Agrees(t, lists)
    ensures Agrees(Apply(t, Append(live, events)), ApplyLists(lists, t, Append(live, events)))
  {
    AgreesAppendAll(t, lists, live, events);
  }

  lemma ForkPushes(t: LiveThread, lists: Lists, from: BranchId, to: BranchId, session: string)
    requires lists.Keys == t.branches.Keys && CanFork(t, from, to) && to != ""
    ensures |Forked(t, from, to, session).events| == |t.events| + 1
    ensures ApplyLists(lists, t, Fork(from, to, session)) ==
            ForkLists(t, lists, from, to, Forked(t, from, to, session).events[|t.events|])
  {
    ForkEvent(t, from, to, session);
    PushOnly(lists[to := lists[BranchOrRoot(t, from)]], t.events, Forked(t, from, to, session).events[|t.events|]);
  }

  lemma AgreesStepArchive(t: LiveThread, lists: Lists, archived: bool)
    requires Agrees(t, lists)
    ensures Agrees(Apply(t, SetArchived(archived)), ApplyLists(lists, t, SetArchived(archived)))
  {
    AgreesArchive(t, lists, archived);
    PushOnly(lists, t.events, ArchivedAs(t, archived).events[|t.events|]);
  }

  lemma AgreesStep(t: LiveThread, lists: Lists, op: Op)
    requires Agrees(t, lists)
    ensures Agrees(Apply(t, op), ApplyLists(lists, t, op))
  {
    match op
    case Append(live, events) => AgreesStepAppend(t, lists, live, events);
    case Fork(from, to, session) =>
      if CanFork(t, from, to) && to != "" {
        AgreesFork(t, lists, from, to, session);
        ForkPushes(t, lists, from, to, session);
      }
    case SetArchived(archived) => AgreesStepArchive(t, lists, archived);
  }

  lemma StartAgrees(id: ThreadId, branch: BranchId, metadata: map<string, string>, session: string)
    requires id != ""
    ensures var t := Created(id, branch, metadata, session); Agrees(t, map[t.root := t.events])
  {
    var t := Created(id, branch, metadata, session);
    WindowsUnfold(t, t.root, 0);
    FilterAll(Visible(WindowsAt(t, t.root, 0)), t.events);
  }

  lemma {:induction false} RunAgrees(start: LiveThread, lists: Lists, ops: seq<Op>)
    requires Agrees(start, lists)
    ensures Agrees(Run(start, ops), RunLists(start, lists, ops))
  {
    if ops != [] {
      RunAgrees(start, lists, ops[..|ops| - 1]);
      AgreesStep(Run(start, ops[..|ops| - 1]), RunLists(start, lists, ops[..|ops| - 1]), ops[|ops| - 1]);
    }
  }

  /**
   For every run of appends (to any branch), forks and archivings of a new thread: on every branch the windows
   over the one log return exactly the private list.
   */
  lemma BranchesAreIsolated(id: ThreadId, branch: BranchId, metadata: map<string, string>, session: string,
                            ops: seq<Op>)
    requires id != ""
    ensures var start := Created(id, branch, metadata, session);
            var t, lists := Run(start, ops), RunLists(start, map[start.root := start.events], ops);
            && lists.Keys == t.branches.Keys
            && forall b | b in lists :: View(t, b) == Ok(lists[b])
  {
    var start := Created(id, branch, metadata, session);
    StartAgrees(id, branch, metadata, session);
    RunAgrees(start, map[start.root := start.events], ops);
    var t := Run(start, ops);
    forall b | b in t.branches ensures View(t, b) == Ok(Shown(t, b)) { ViewIs(t, b); }
  }
}
