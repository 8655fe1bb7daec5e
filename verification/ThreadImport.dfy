/**
 `MemoryStore.Import`: replaying a thread's own events into an empty store rebuilds the thread, exactly when what its
 events record about root, branches, metadata and archiving is what the thread holds. Callers can break that with a
 branch name that was never created, or by appending an event of the store's own kinds.
 */
module ThreadImport {
  import opened Sequences
  import opened Items
  import opened ThreadStore
  import opened ThreadViews

  type Threads = map<ThreadId, Thread>

  function ImportBranch(e: Event): BranchId {
    if e.branch == "" then MainBranch else e.branch
  }

  function Placeholder(b: BranchId): Branch { Branch(b, "", 0) }

  /** What the store holds for the event's thread just before the event is recorded. */
  function ImportTarget(threads: Threads, e: Event): Thread {
    var b := ImportBranch(e);
    var t := if e.thread in threads then threads[e.thread]
             else Thread(e.thread, b, map[b := Placeholder(b)], map[], false, 1, []);
    if b in t.branches then t else t.(branches := t.branches[b := Placeholder(b)])
  }

  function ImportInto(t: Thread, e: Event): Thread {
    var b := ImportBranch(e);
    var marked := match e.body
                  case ThreadCreated(metadata) =>
                    t.(root := b, metadata := if metadata != map[] then metadata else t.metadata)
                  case BranchCreated(from, to, forkSeq) =>
                    var id := if to == "" then b else to;
                    t.(branches := t.branches[id := Branch(id, from, forkSeq)])
                  case ThreadArchived => t.(archived := true)
                  case ThreadUnarchived => t.(archived := false)
                  case _ => t;
    marked.(events := t.events + [e.(branch := b)],
            nextSeq := if e.seqNo >= t.nextSeq then e.seqNo + 1 else t.nextSeq)
  }

  /** An event without a branch is kept on `main`, as it is otherwise, after what was there. */
  lemma UnbranchedGoesToMain(threads: Threads, e: Event)
    requires e.branch == "" && e.thread != ""
    ensures var t := ImportInto(ImportTarget(threads, e), e);
            && t.events == (if e.thread in threads then threads[e.thread].events else []) + [e.(branch := "main")]
            && "main" in t.branches && e.seqNo < t.nextSeq
  {}

  predicate Importable(e: Event) {
    e.thread != "" && HasKind(e)
  }

  /** The store after importing in order, up to the first event that is refused. */
  function Imported(threads: Threads, events: seq<Event>): Threads {
    if events == [] then threads
    else
      var before := Imported(threads, events[..|events| - 1]);
      var e := events[|events| - 1];
      if forall x | x in events :: Importable(x)
      then before[e.thread := ImportInto(ImportTarget(before, e), e)]
      else before
  }

  lemma ImportedSnoc(threads: Threads, events: seq<Event>, e: Event)
    requires forall x | x in events + [e] :: Importable(x)
    ensures var before := Imported(threads, events);
            Imported(threads, events + [e]) == before[e.thread := ImportInto(ImportTarget(before, e), e)]
  {
    assert (events + [e])[..|events|] == events;
  }

  // ---------------------------------------------------------------- what importing a live thread yields

  function Named(events: seq<Event>): set<BranchId> {
    set e | e in events :: e.branch
  }

  function Placeholders(names: set<BranchId>): Branches {
    map b | b in names :: Placeholder(b)
  }

  /** The thread with a placeholder for every branch that is only named. */
  function WithNamed(t: Thread): Thread {
    t.(branches := Placeholders(Named(t.events)) + t.branches)
  }

  /** An event a caller appends, as opposed to those the store writes about the thread itself. */
  predicate IsPlain(e: Event) {
    HasKind(e) && (e.body.Conversation? || e.body.OtherEvent?)
  }

  predicate PlainOp(op: Op) {
    op.Append? ==> forall e | e in op.events :: IsPlain(e)
  }

  predicate AllImportable(events: seq<Event>) {
    forall e | e in events :: Importable(e) && e.branch != ""
  }

  /** Importing the log yields the thread, up to branches that are only named. */
  ghost predicate Rebuilds(t: Thread) {
    && t.id != "" && t.root != "" && t.nextSeq > 0
    && AllImportable(t.events)
    && Imported(map[], t.events) == map[t.id := WithNamed(t)]
  }

  lemma NamedSnoc(events: seq<Event>, e: Event)
    ensures Named(events + [e]) == Named(events) + {e.branch}
  {
    forall b | b in Named(events) + {e.branch} ensures b in Named(events + [e]) {
      if b == e.branch { assert e in events + [e]; }
      else { var x :| x in events && x.branch == b; assert x in events + [e]; }
    }
  }

  function Adding(branches: Branches, b: BranchId): Branches {
    if b in branches then branches else branches[b := Placeholder(b)]
  }

  /** Naming a branch adds a placeholder unless the branch is known. */
  lemma PlaceholdersGrow(names: set<BranchId>, branches: Branches, b: BranchId)
    ensures Placeholders(names + {b}) + branches == Adding(Placeholders(names) + branches, b)
  {}

  lemma ImportedCreated(t: Thread, e: Event)
    requires t.events == [e] && Importable(e) && e.branch != "" && e.body == ThreadCreated(t.metadata)
    requires t == Thread(e.thread, e.branch, map[e.branch := Placeholder(e.branch)], t.metadata, false, e.seqNo + 1,
                         [e]) && e.seqNo == 1
    ensures Imported(map[], t.events) == map[t.id := t]
  {
    assert t.events == [] + [e];
    ImportedSnoc(map[], [], e);
    assert ImportInto(ImportTarget(map[], e), e) == t;
  }

  lemma NamedOne(e: Event)
    ensures Named([e]) == {e.branch}
  {
    assert e in [e];
  }

  lemma RebuildsCreated(id: ThreadId, branch: BranchId, metadata: map<string, string>, session: string)
    requires id != ""
    ensures Rebuilds(Created(id, branch, metadata, session))
  {
    var t := Created(id, branch, metadata, session);
    ImportedCreated(t, t.events[0]);
    NamedOne(t.events[0]);
    assert WithNamed(t).branches == t.branches;
  }

  /** One more imported event. */
  lemma RebuildsStep(t: Thread, t1: Thread, e: Event)
    requires Rebuilds(t) && Importable(e) && e.branch != "" && e.thread == t.id
    requires t1.events == t.events + [e] && t1.id == t.id && t1.root == t.root && t1.nextSeq > 0
    requires ImportInto(ImportTarget(map[t.id := WithNamed(t)], e), e) == WithNamed(t1)
    ensures Rebuilds(t1)
  {
    AllImportableSnoc(t.events, e);
    ImportedSnoc(map[], t.events, e);
    OverwriteOnly(t.id, WithNamed(t), WithNamed(t1));
  }

  lemma AllImportableSnoc(events: seq<Event>, e: Event)
    requires AllImportable(events) && Importable(e) && e.branch != ""
    ensures AllImportable(events + [e])
  {}

  lemma OverwriteOnly(id: ThreadId, a: Thread, b: Thread)
    ensures map[id := a][id := b] == map[id := b]
  {}

  lemma ImportPlain(w: Thread, e: Event)
    requires IsPlain(e) && e.branch != "" && e.thread == w.id && e.seqNo == w.nextSeq
    ensures ImportInto(ImportTarget(map[w.id := w], e), e)
         == w.(branches := Adding(w.branches, e.branch), events := w.events + [e], nextSeq := w.nextSeq + 1)
  {
    assert e.(branch := e.branch) == e;
  }

  lemma RebuildsAppend(t: Thread, live: BranchId, e: Event)
    requires Rebuilds(t) && IsPlain(e)
    ensures Rebuilds(AppendOne(t, live, e))
  {
    var stored := Stamped(t, live, e);
    NamedSnoc(t.events, stored);
    PlaceholdersGrow(Named(t.events), t.branches, stored.branch);
    ImportPlain(WithNamed(t), stored);
    RebuildsStep(t, AppendOne(t, live, e), stored);
  }

  lemma {:induction false} RebuildsAppendAll(t: Thread, live: BranchId, events: seq<Event>)
    requires Rebuilds(t) && forall e | e in events :: IsPlain(e)
    ensures Rebuilds(AppendAll(t, live, events))
  {
    if events != [] {
      RebuildsAppendAll(t, live, events[..|events| - 1]);
      RebuildsAppend(AppendAll(t, live, events[..|events| - 1]), live, events[|events| - 1]);
    }
  }

  lemma ImportFork(w: Thread, e: Event)
    requires e.body.BranchCreated? && e.body.to == e.branch != "" && e.thread == w.id && e.seqNo == w.nextSeq
    ensures ImportInto(ImportTarget(map[w.id := w], e), e)
         == w.(branches := w.branches[e.branch := Branch(e.branch, e.body.from, e.body.forkSeq)],
               events := w.events + [e], nextSeq := w.nextSeq + 1)
  {
    assert e.(branch := e.branch) == e;
  }

  /** A fork's record replaces its placeholder. */
  lemma PlaceholderReplaced(names: set<BranchId>, branches: Branches, b: BranchId, branch: Branch)
    ensures Placeholders(names + {b}) + branches[b := branch] == (Placeholders(names) + branches)[b := branch]
  {}

  lemma ForkedIs(t: Thread, from: BranchId, to: BranchId, session: string, created: Event)
    requires to != "" && t.nextSeq > 0
    requires created == Stamped(t, to, Lifecycle(session, BranchCreated(BranchOrRoot(t, from), to, t.nextSeq - 1)))
    ensures Forked(t, from, to, session)
         == t.(branches := t.branches[to := Branch(to, BranchOrRoot(t, from), t.nextSeq - 1)],
               events := t.events + [created], nextSeq := t.nextSeq + 1)
  {}

  lemma WithNamedAfter(t: Thread, branches: Branches, e: Event, all: Branches)
    requires Placeholders(Named(t.events) + {e.branch}) + branches == all
    ensures WithNamed(t.(branches := branches, events := t.events + [e], nextSeq := t.nextSeq + 1))
         == WithNamed(t).(branches := all, events := t.events + [e], nextSeq := t.nextSeq + 1)
  {
    NamedSnoc(t.events, e);
  }

  lemma RebuildsFork(t: Thread, from: BranchId, to: BranchId, session: string)
    requires Rebuilds(t) && to != ""
    ensures Rebuilds(Forked(t, from, to, session))
  {
    var branch := Branch(to, BranchOrRoot(t, from), t.nextSeq - 1);
    var created := Stamped(t, to, Lifecycle(session, BranchCreated(branch.parent, to, branch.forkSeq)));
    var w := WithNamed(t);
    PlaceholderReplaced(Named(t.events), t.branches, to, branch);
    WithNamedAfter(t, t.branches[to := branch], created, w.branches[to := branch]);
    ForkedIs(t, from, to, session, created);
    ImportFork(w, created);
    RebuildsStep(t, Forked(t, from, to, session), created);
  }

  lemma ImportArchive(w: Thread, e: Event, archived: bool)
    requires e.body == (if archived then ThreadArchived else ThreadUnarchived) && e.branch != "" && e.thread == w.id &&
             e.seqNo == w.nextSeq
    ensures ImportInto(ImportTarget(map[w.id := w], e), e)
         == w.(branches := Adding(w.branches, e.branch), archived := archived, events := w.events + [e],
               nextSeq := w.nextSeq + 1)
  {
    assert e.(branch := e.branch) == e;
  }

  lemma RebuildsArchive(t: Thread, archived: bool)
    requires Rebuilds(t)
    ensures Rebuilds(ArchivedAs(t, archived))
  {
    var e := Stamped(t, t.root, Lifecycle("", if archived then ThreadArchived else ThreadUnarchived));
    NamedSnoc(t.events, e);
    PlaceholdersGrow(Named(t.events), t.branches, e.branch);
    ImportArchive(WithNamed(t), e, archived);
    RebuildsStep(t, ArchivedAs(t, archived), e);
  }

  lemma RebuildsApply(t: LiveThread, op: Op)
    requires Rebuilds(t) && PlainOp(op)
    ensures Rebuilds(Apply(t, op))
  {
    match op
    case Append(live, events) => RebuildsAppendAll(t, live, events);
    case Fork(from, to, session) =>
      if CanFork(t, from, to) && to != "" { RebuildsFork(t, from, to, session); }
    case SetArchived(archived) => RebuildsArchive(t, archived);
  }

  lemma {:induction false} RebuildsRun(start: LiveThread, ops: seq<Op>)
    requires Rebuilds(start) && forall op | op in ops :: PlainOp(op)
    ensures Rebuilds(Run(start, ops))
  {
    if ops != [] {
      RebuildsRun(start, ops[..|ops| - 1]);
      RebuildsApply(Run(start, ops[..|ops| - 1]), ops[|ops| - 1]);
    }
  }

  lemma OnlyNamedMatters(t: Thread)
    ensures WithNamed(t) == t <==> Named(t.events) <= t.branches.Keys
  {
    var all := Placeholders(Named(t.events)) + t.branches;
    if Named(t.events) <= t.branches.Keys {
      assert all == t.branches;
    } else {
      var b :| b in Named(t.events) && b !in t.branches;
      assert b in all;
    }
  }

  // ---------------------------------------------------------------- what a log says about its thread

  /** The branch of the last creation event; of the first event if there is none. */
  function LastRoot(events: seq<Event>): BranchId {
    if events == [] then ""
    else if |events| == 1 || events[|events| - 1].body.ThreadCreated? then events[|events| - 1].branch
    else LastRoot(events[..|events| - 1])
  }

  /** The last metadata recorded that is not empty. */
  function LastMetadata(events: seq<Event>): map<string, string> {
    if events == [] then map[]
    else
      var e := events[|events| - 1];
      if e.body.ThreadCreated? && e.body.metadata != map[] then e.body.metadata
      else LastMetadata(events[..|events| - 1])
  }

  /** Whether the last archiving mark is up. */
  predicate LastArchived(events: seq<Event>) {
    events != [] &&
    (events[|events| - 1].body.ThreadArchived? ||
     (!events[|events| - 1].body.ThreadUnarchived? && LastArchived(events[..|events| - 1])))
  }

  /** The last record of every branch; one that is only named has neither parent nor fork point. */
  function LastRecords(events: seq<Event>): Branches {
    if events == [] then map[]
    else
      var e, known := events[|events| - 1], LastRecords(events[..|events| - 1]);
      var named := Adding(known, e.branch);
      match e.body
      case BranchCreated(from, to, forkSeq) =>
        var id := if to == "" then e.branch else to;
        named[id := Branch(id, from, forkSeq)]
      case _ => named
  }

  /** The thread a log describes. */
  function Described(id: ThreadId, events: seq<Event>): Thread {
    Thread(id, LastRoot(events), LastRecords(events), LastMetadata(events), LastArchived(events), |events| + 1, events)
  }

  /** The thread's events carry its id, a branch and a kind, and are numbered from 1. */
  ghost predicate OwnLog(id: ThreadId, events: seq<Event>) {
    forall i | 0 <= i < |events| ::
      Importable(events[i]) && events[i].thread == id && events[i].branch != "" && events[i].seqNo == i + 1
  }

  lemma ImportFirst(e: Event)
    requires Importable(e) && e.branch != "" && e.seqNo == 1
    ensures ImportInto(ImportTarget(map[], e), e) == Described(e.thread, [e])
  {
    assert [e][..0] == [] && e.(branch := e.branch) == e && [] + [e] == [e];
    assert Adding(map[], e.branch) == map[e.branch := Placeholder(e.branch)];
    assert LastRecords([]) == map[] && LastMetadata([]) == map[] && !LastArchived([]);
  }

  lemma ImportNext(id: ThreadId, events: seq<Event>, e: Event)
    requires events != [] && e.thread == id && e.branch != "" && e.seqNo == |events| + 1
    ensures ImportInto(ImportTarget(map[id := Described(id, events)], e), e) == Described(id, events + [e])
  {
    SnocInit(events, e);
    assert e.(branch := e.branch) == e;
  }

  /** Importing any log of one thread gives the thread the log describes. */
  lemma {:induction false} ImportedIs(id: ThreadId, events: seq<Event>)
    requires events != [] && OwnLog(id, events)
    ensures Imported(map[], events) == map[id := Described(id, events)]
  {
    var init, last := events[..|events| - 1], events[|events| - 1];
    Unsnoc(events);
    ImportedSnoc(map[], init, last);
    if init == [] {
      ImportFirst(last);
    } else {
      ImportedIs(id, init);
      ImportNext(id, init, last);
      OverwriteOnly(id, Described(id, init), Described(id, events));
    }
  }

  // ---------------------------------------------------------------- every run, whatever callers append

  ghost predicate OwnThread(t: Thread) {
    t.id != "" && t.root != "" && t.events != [] && t.nextSeq == |t.events| + 1 && OwnLog(t.id, t.events)
  }

  lemma OwnAppend(t: Thread, live: BranchId, e: Event)
    requires OwnThread(t) && HasKind(e)
    ensures OwnThread(AppendOne(t, live, e))
  {
    var stored := Stamped(t, live, e);
    assert (t.events + [stored])[|t.events|] == stored;
  }

  lemma {:induction false} OwnAppendAll(t: Thread, live: BranchId, events: seq<Event>)
    requires OwnThread(t) && forall e | e in events :: HasKind(e)
    ensures OwnThread(AppendAll(t, live, events))
  {
    if events != [] {
      OwnAppendAll(t, live, events[..|events| - 1]);
      OwnAppend(AppendAll(t, live, events[..|events| - 1]), live, events[|events| - 1]);
    }
  }

  lemma OwnApply(t: LiveThread, op: Op)
    requires OwnThread(t)
    ensures OwnThread(Apply(t, op))
  {
    match op
    case Append(live, events) =>
      if forall e | e in events :: HasKind(e) { OwnAppendAll(t, live, events); }
    case Fork(from, to, session) =>
      if CanFork(t, from, to) && to != "" {
        OwnAppend(Registered(t, from, to), to,
                  Lifecycle(session, BranchCreated(BranchOrRoot(t, from), to, t.nextSeq - 1)));
      }
    case SetArchived(archived) =>
      OwnAppend(t.(archived := archived), t.root, Lifecycle("", if archived then ThreadArchived else ThreadUnarchived));
  }

  lemma {:induction false} OwnRun(start: LiveThread, ops: seq<Op>)
    requires OwnThread(start)
    ensures OwnThread(Run(start, ops))
  {
    if ops != [] {
      OwnRun(start, ops[..|ops| - 1]);
      OwnApply(Run(start, ops[..|ops| - 1]), ops[|ops| - 1]);
    }
  }

  /** What the log records about the thread is what the thread holds. */
  predicate LogTells(t: Thread) {
    && LastRoot(t.events) == t.root && LastMetadata(t.events) == t.metadata
    && LastArchived(t.events) == t.archived && LastRecords(t.events) == t.branches
  }

  lemma RoundTripExactlyWhen(t: Thread)
    requires OwnThread(t)
    ensures Imported(map[], t.events) == map[t.id := t] <==> LogTells(t)
  {
    ImportedIs(t.id, t.events);
    assert map[t.id := Described(t.id, t.events)][t.id] == Described(t.id, t.events) && map[t.id := t][t.id] == t;
  }

  /**
   For every thread built by a run, whatever callers appended: importing its log into an empty store gives back the
   same thread if and only if the last root, metadata, archiving mark and branch records in the log are the thread's.
   */
  lemma ImportRoundTrip(id: ThreadId, branch: BranchId, metadata: map<string, string>, session: string, ops: seq<Op>)
    requires id != ""
    ensures var t := Run(Created(id, branch, metadata, session), ops);
            Imported(map[], t.events) == map[t.id := t] <==> LogTells(t)
  {
    OwnRun(Created(id, branch, metadata, session), ops);
    RoundTripExactlyWhen(Run(Created(id, branch, metadata, session), ops));
  }

  /**
   When callers append no event of the store's own kinds, that comes down to branch names: importing gives back the same
   thread (branches, fork points, metadata, archived flag, next number, events, hence every view) if and only if
   every event names a branch that exists.
   */
  lemma PlainRoundTrip(id: ThreadId, branch: BranchId, metadata: map<string, string>, session: string, ops: seq<Op>)
    requires id != "" && forall op | op in ops :: PlainOp(op)
    ensures var t := Run(Created(id, branch, metadata, session), ops);
            Imported(map[], t.events) == map[t.id := t] <==> Named(t.events) <= t.branches.Keys
  {
    var start := Created(id, branch, metadata, session);
    RebuildsCreated(id, branch, metadata, session);
    RebuildsRun(start, ops);
    var t := Run(start, ops);
    OnlyNamedMatters(t);
    assert map[t.id := WithNamed(t)][t.id] == WithNamed(t) && map[t.id := t][t.id] == t;
  }

  // ---------------------------------------------------------------- two runs that do not come back

  /** An event under a branch that was never created comes back with that branch. */
  lemma UnknownBranchComesBack(id: ThreadId, root: BranchId, e: Event)
    requires id != "" && root != "" && IsPlain(e) && e.branch != "" && e.branch != root
    ensures var t := Run(Created(id, root, map[], ""), [Append(root, [e])]);
            Imported(map[], t.events) != map[t.id := t]
  {
    var start, op := Created(id, root, map[], ""), Append(root, [e]);
    OneAppend(start, root, e);
    PlainRoundTrip(id, root, map[], "", [op]);
    var t := AppendOne(start, root, e);
    NamedSnoc(start.events, Stamped(start, root, e));
    assert e.branch in Named(t.events) && e.branch !in t.branches;
  }

  lemma CallerArchived(id: ThreadId, root: BranchId)
    requires root != ""
    ensures var t := AppendOne(Created(id, root, map[], ""), root, Lifecycle("", ThreadArchived));
            !t.archived && Named(t.events) <= t.branches.Keys && !LogTells(t)
  {
    var start, e := Created(id, root, map[], ""), Lifecycle("", ThreadArchived);
    var stored := Stamped(start, root, e);
    NamedSnoc(start.events, stored);
    NamedOne(start.events[0]);
    SnocInit(start.events, stored);
    assert LastArchived(start.events + [stored]);
  }

  lemma OneAppend(start: LiveThread, live: BranchId, e: Event)
    requires HasKind(e)
    ensures Run(start, [Append(live, [e])]) == AppendOne(start, live, e)
  {
    RunSnoc(start, [], Append(live, [e]));
    assert [] + [Append(live, [e])] == [Append(live, [e])];
    AppendedOne(start, live, e);
  }

  /** An archiving event a caller appends leaves the thread unarchived, and comes back archived. */
  lemma CallerArchiveComesBack(id: ThreadId, root: BranchId)
    requires id != "" && root != ""
    ensures var t := Run(Created(id, root, map[], ""), [Append(root, [Lifecycle("", ThreadArchived)])]);
            && !t.archived && Named(t.events) <= t.branches.Keys
            && Imported(map[], t.events) != map[t.id := t]
  {
    OneAppend(Created(id, root, map[], ""), root, Lifecycle("", ThreadArchived));
    CallerArchived(id, root);
    ImportRoundTrip(id, root, map[], "", [Append(root, [Lifecycle("", ThreadArchived)])]);
  }

  /** Two imported records that name each other as parent: the view of either branch never returns. */
  lemma ImportedCycle(id: ThreadId, a: BranchId, b: BranchId)
    requires id != "" && a != "" && b != "" && a != b
    ensures var events := [Event(id, a, 1, "", "", "", BranchCreated(b, a, 0)),
                           Event(id, b, 2, "", "", "", BranchCreated(a, b, 0))];
            Imported(map[], events) == map[id := Described(id, events)] && !WalkEnds(Described(id, events).branches, a)
  {
    var first, second := Event(id, a, 1, "", "", "", BranchCreated(b, a, 0)),
      Event(id, b, 2, "", "", "", BranchCreated(a, b, 0));
    ImportedIs(id, [first, second]);
    assert [first, second][..1] == [first] && [first][..0] == [];
    var branches := LastRecords([first, second]);
    assert LastRecords([first]) == Adding(LastRecords([]), a)[a := Branch(a, b, 0)];
    assert a in branches && branches[a].parent == b && b in branches && branches[b].parent == a;
    assert Up(branches, b, 1) == a;
    CycleNeverEnds(branches, a, 2);
  }
}
