/**
 The branching, append-only thread log of thread/store.go and thread/memorystore.go. Branches share one event
 list; a fork is a sequence number. `View` is what `EventsForBranch` returns.
 */
module ThreadStore {
  import opened Sequences
  import opened Items
  import opened HistoryEvents

  type ThreadId = string

  datatype Body =
    | ThreadCreated(metadata: map<string, string>)
    | BranchCreated(from: BranchId, to: BranchId, forkSeq: nat)
    | ThreadArchived
    | ThreadUnarchived
    | Conversation(kind: ConversationKind, wire: Wire)
    | OtherEvent(tag: string)

  datatype Event = Event(
    thread: ThreadId,
    branch: BranchId,
    seqNo: nat,
    node: NodeId,
    parent: NodeId,
    session: string,
    body: Body
  )

  datatype Branch = Branch(id: BranchId, parent: BranchId, forkSeq: nat)

  type Branches = map<BranchId, Branch>

  datatype Thread = Thread(
    id: ThreadId,
    root: BranchId,
    branches: Branches,
    metadata: map<string, string>,
    archived: bool,
    nextSeq: nat,
    events: seq<Event>
  )

  predicate HasKind(e: Event) {
    e.body.OtherEvent? ==> e.body.tag != ""
  }

  // ---------------------------------------------------------------- reading a branch

  /** Fork points strictly decrease towards the root, so walking parents ends. */
  ghost predicate Rooted(branches: Branches) {
    forall b | b in branches ::
      && branches[b].id == b
      && (branches[b].parent in branches ==> branches[branches[b].parent].forkSeq < branches[b].forkSeq)
  }

  /** A branch and its ancestors, root first; none if a parent is missing. */
  ghost function Lineage(branches: Branches, b: BranchId): Option<seq<Branch>>
    requires Rooted(branches)
    decreases if b != "" && b in branches then branches[b].forkSeq + 1 else 0
  {
    if b == "" then Some([])
    else if b !in branches then None
    else
      match Lineage(branches, branches[b].parent)
      case None => None
      case Some(above) => Some(above + [branches[b]])
  }

  datatype Window = Window(after: nat, until: nat)

  /** Each ancestor contributes what it held between its own fork and the next one's; 0 means no end. */
  function WindowsOf(line: seq<Branch>, until: nat): map<BranchId, Window> {
    if line == [] then map[]
    else
      var last := line[|line| - 1];
      WindowsOf(line[..|line| - 1], last.forkSeq)[last.id := Window(last.forkSeq, until)]
  }

  predicate InWindow(windows: map<BranchId, Window>, e: Event) {
    && e.branch in windows
    && e.seqNo > windows[e.branch].after
    && (windows[e.branch].until > 0 ==> e.seqNo <= windows[e.branch].until)
  }

  function Visible(windows: map<BranchId, Window>): Event -> bool {
    (e: Event) => InWindow(windows, e)
  }

  function BranchOrRoot(t: Thread, b: BranchId): BranchId {
    if b != "" then b else if t.root != "" then t.root else MainBranch
  }

  ghost function WindowsFor(branches: Branches, b: BranchId): Result<map<BranchId, Window>>
    requires Rooted(branches)
  {
    if branches == map[] then (if b == MainBranch || b == "" then Ok(map[MainBranch := Window(0, 0)]) else Err)
    else
      match Lineage(branches, b)
      case None => Err
      case Some(line) => Ok(WindowsOf(line, 0))
  }

  ghost function View(t: Thread, b: BranchId): Result<seq<Event>>
    requires Rooted(t.branches)
  {
    match WindowsFor(t.branches, BranchOrRoot(t, b))
    case Err => Err
    case Ok(windows) => Ok(Filter(Visible(windows), t.events))
  }

  // ---------------------------------------------------------------- walking any branch records

  /** Walking parents from `b` reaches the root or a missing branch within `n` steps. */
  ghost predicate Ends(branches: Branches, b: BranchId, n: nat)
    decreases n
  {
    b == "" || b !in branches || (n > 0 && Ends(branches, branches[b].parent, n - 1))
  }

  /** Whether walking parents ends; on records that form a cycle it does not. */
  ghost predicate WalkEnds(branches: Branches, b: BranchId) {
    exists n: nat :: Ends(branches, b, n)
  }

  /** A branch and its ancestors, root first; none if a parent is missing. */
  ghost function LineWithin(branches: Branches, b: BranchId, n: nat): Option<seq<Branch>>
    requires Ends(branches, b, n)
    decreases n
  {
    if b == "" then Some([])
    else if b !in branches then None
    else
      match LineWithin(branches, branches[b].parent, n - 1)
      case None => None
      case Some(above) => Some(above + [branches[b]])
  }

  lemma {:induction false} LineSame(branches: Branches, b: BranchId, m: nat, n: nat)
    requires Ends(branches, b, m) && Ends(branches, b, n)
    ensures LineWithin(branches, b, m) == LineWithin(branches, b, n)
    decreases n
  {
    if b != "" && b in branches { LineSame(branches, branches[b].parent, m - 1, n - 1); }
  }

  ghost function Line(branches: Branches, b: BranchId): Option<seq<Branch>>
    requires WalkEnds(branches, b)
  {
    var n: nat :| Ends(branches, b, n);
    LineWithin(branches, b, n)
  }

  /** The `k`-th ancestor, or where the walk stops. */
  function Up(branches: Branches, b: BranchId, k: nat): BranchId
    decreases k
  {
    if k == 0 || b == "" || b !in branches then b else Up(branches, branches[b].parent, k - 1)
  }

  lemma {:induction false} EndsUp(branches: Branches, b: BranchId, n: nat, k: nat)
    requires Ends(branches, b, n) && Up(branches, b, k) != "" && Up(branches, b, k) in branches
    ensures k <= n && Ends(branches, Up(branches, b, k), n - k)
    decreases k
  {
    if k != 0 && b != "" && b in branches { EndsUp(branches, branches[b].parent, n - 1, k - 1); }
  }

  lemma {:induction false} NeverWithin(branches: Branches, b: BranchId, k: nat, n: nat)
    requires b != "" && b in branches && k > 0 && Up(branches, b, k) == b
    ensures !Ends(branches, b, n)
    decreases n
  {
    if Ends(branches, b, n) {
      EndsUp(branches, b, n, k);
      NeverWithin(branches, b, k, n - k);
    }
  }

  /** A branch that is its own ancestor is walked for ever. */
  lemma CycleNeverEnds(branches: Branches, b: BranchId, k: nat)
    requires b != "" && b in branches && k > 0 && Up(branches, b, k) == b
    ensures !WalkEnds(branches, b)
  {
    forall n: nat ensures !Ends(branches, b, n) { NeverWithin(branches, b, k, n); }
  }

  /** Fork points that decrease towards the root are enough. */
  lemma {:induction false} RootedEnds(branches: Branches, b: BranchId) returns (n: nat)
    requires Rooted(branches)
    ensures Ends(branches, b, n) && LineWithin(branches, b, n) == Lineage(branches, b)
    decreases if b != "" && b in branches then branches[b].forkSeq + 1 else 0
  {
    if b == "" || b !in branches {
      n := 0;
    } else {
      var above := RootedEnds(branches, branches[b].parent);
      n := above + 1;
    }
  }

  lemma RootedLine(branches: Branches, b: BranchId)
    requires Rooted(branches)
    ensures WalkEnds(branches, b) && Line(branches, b) == Lineage(branches, b)
  {
    var n := RootedEnds(branches, b);
    var m: nat :| Ends(branches, b, m) && Line(branches, b) == LineWithin(branches, b, m);
    LineSame(branches, b, m, n);
  }

  /** What a line of ancestors shows: its windows, or an error. */
  ghost function WindowsOn(line: Option<seq<Branch>>): Result<map<BranchId, Window>> {
    match line
    case None => Err
    case Some(line) => Ok(WindowsOf(line, 0))
  }

  /** `branchWindows` on any records on which it returns. */
  ghost function WindowsFound(branches: Branches, b: BranchId): Result<map<BranchId, Window>>
    requires WalkEnds(branches, b)
  {
    if branches == map[] then (if b == MainBranch || b == "" then Ok(map[MainBranch := Window(0, 0)]) else Err)
    else WindowsOn(Line(branches, b))
  }

  lemma FoundOnRooted(branches: Branches, b: BranchId)
    requires Rooted(branches)
    ensures WalkEnds(branches, b) && WindowsFound(branches, b) == WindowsFor(branches, b)
  {
    RootedLine(branches, b);
  }

  /** Walking up from `branch` has reached `current` and collected `below`. */
  ghost predicate Collected(whole: Option<seq<Branch>>, above: Option<seq<Branch>>, below: seq<Branch>) {
    match above
    case None => whole == None
    case Some(line) => whole == Some(line + below)
  }

  lemma CollectStep(branches: Branches, whole: Option<seq<Branch>>, current: BranchId, n: nat, below: seq<Branch>)
    requires Ends(branches, current, n) && current != "" && current in branches
    requires Collected(whole, LineWithin(branches, current, n), below)
    ensures Collected(whole, LineWithin(branches, branches[current].parent, n - 1), [branches[current]] + below)
  {
    var b := branches[current];
    if LineWithin(branches, b.parent, n - 1).Some? {
      Assoc(LineWithin(branches, b.parent, n - 1).value, [b], below);
    }
  }

  /** Follows parents from `branch` to the root. */
  method CollectPath(branches: Branches, branch: BranchId) returns (r: Result<seq<Branch>>)
    requires WalkEnds(branches, branch)
    ensures r == match Line(branches, branch) case None => Err case Some(line) => Ok(line)
  {
    var current := branch;
    var reversed: seq<Branch> := [];
    ghost var whole := Line(branches, branch);
    ghost var n: nat :| Ends(branches, branch, n) && whole == LineWithin(branches, branch, n);
    assert whole.Some? ==> whole.value + [] == whole.value;
    while current != ""
      invariant Ends(branches, current, n) && Collected(whole, LineWithin(branches, current, n), Reversed(reversed))
      decreases n, if current != "" then 1 else 0
    {
      if current !in branches {
        return Err;
      }
      ReversedSnoc(reversed, branches[current]);
      CollectStep(branches, whole, current, n, Reversed(reversed));
      reversed := reversed + [branches[current]];
      current := branches[current].parent;
      n := n - 1;
    }
    var path := Reverse(reversed);
    assert [] + path == path;
    return Ok(path);
  }

  method BranchWindows(branches: Branches, branch: BranchId) returns (r: Result<map<BranchId, Window>>)
    requires WalkEnds(branches, branch)
    ensures r == WindowsFound(branches, branch)
  {
    if |branches| == 0 {
      if branch == MainBranch || branch == "" {
        return Ok(map[MainBranch := Window(0, 0)]);
      }
      return Err;
    }
    var collected := CollectPath(branches, branch);
    if collected.Err? {
      return Err;
    }
    var path := collected.value;
    var windows: map<BranchId, Window> := map[];
    for i := 0 to |path|
      invariant windows == WindowsOf(path[..i], if i < |path| then path[i].forkSeq else 0)
    {
      PrefixStep(path, i);
      var until := if i + 1 < |path| then path[i + 1].forkSeq else 0;
      windows := windows[path[i].id := Window(path[i].forkSeq, until)];
    }
    assert path[..|path|] == path;
    return Ok(windows);
  }

  /** What `EventsForBranch` returns wherever walking the branch's parents ends. */
  ghost function ViewFound(t: Thread, b: BranchId): Result<seq<Event>>
    requires WalkEnds(t.branches, BranchOrRoot(t, b))
  {
    match WindowsFound(t.branches, BranchOrRoot(t, b))
    case Err => Err
    case Ok(windows) => Ok(Filter(Visible(windows), t.events))
  }

  /** On fork points that decrease towards the root it always ends, and shows the view. */
  lemma ViewFoundOnRooted(t: Thread, b: BranchId)
    requires Rooted(t.branches)
    ensures WalkEnds(t.branches, BranchOrRoot(t, b)) && ViewFound(t, b) == View(t, b)
  {
    FoundOnRooted(t.branches, BranchOrRoot(t, b));
  }

  method EventsInWindows(windows: map<BranchId, Window>, events: seq<Event>) returns (out: seq<Event>)
    ensures out == Filter(Visible(windows), events)
  {
    out := [];
    for i := 0 to |events|
      invariant out == Filter(Visible(windows), events[..i])
    {
      PrefixStep(events, i);
      var e := events[i];
      if e.branch !in windows {
        continue;
      }
      var window := windows[e.branch];
      if e.seqNo <= window.after || (window.until > 0 && e.seqNo > window.until) {
        continue;
      }
      out := out + [e];
    }
    assert events[..|events|] == events;
  }

  method EventsForBranch(t: Thread, branch: BranchId) returns (r: Result<seq<Event>>)
    requires WalkEnds(t.branches, BranchOrRoot(t, branch))
    ensures r == ViewFound(t, branch)
    ensures Rooted(t.branches) ==> r == View(t, branch)
  {
    var windows := BranchWindows(t.branches, BranchOrRoot(t, branch));
    if windows.Err? {
      r := Err;
    } else {
      var out := EventsInWindows(windows.value, t.events);
      r := Ok(out);
    }
    if Rooted(t.branches) { ViewFoundOnRooted(t, branch); }
  }

  // ---------------------------------------------------------------- writing

  /** What every reachable thread satisfies. */
  ghost predicate ThreadOk(t: Thread) {
    && t.id != "" && t.root != "" && t.root in t.branches && "" !in t.branches
    && Rooted(t.branches)
    && t.nextSeq == |t.events| + 1
    && (forall i | 0 <= i < |t.events| :: t.events[i].seqNo == i + 1)
    && (forall b | b in t.branches ::
          && t.branches[b].forkSeq + 1 < t.nextSeq
          && (if t.branches[b].parent == "" then t.branches[b].forkSeq == 0
              else t.branches[b].parent in t.branches && t.branches[b].forkSeq > 0))
  }

  type LiveThread = t: Thread | ThreadOk(t) ghost witness Created("thread", "", map[], "")

  function Created(id: ThreadId, branch: BranchId, metadata: map<string, string>, session: string): (t: Thread)
    ensures id != "" ==> ThreadOk(t)
  {
    var b := if branch == "" then MainBranch else branch;
    Thread(id, b, map[b := Branch(b, "", 0)], metadata, false, 2,
           [Event(id, b, 1, "", "", session, ThreadCreated(metadata))])
  }

  function Stamped(t: Thread, live: BranchId, e: Event): Event {
    e.(thread := t.id,
       branch := if e.branch != "" then e.branch else if live != "" then live else t.root,
       seqNo := t.nextSeq)
  }

  function AppendOne(t: Thread, live: BranchId, e: Event): (r: Thread)
    ensures ThreadOk(t) ==> ThreadOk(r)
  {
    t.(events := t.events + [Stamped(t, live, e)], nextSeq := t.nextSeq + 1)
  }

  function AppendAll(t: Thread, live: BranchId, events: seq<Event>): (r: Thread)
    ensures r.nextSeq == t.nextSeq + |events|
    ensures ThreadOk(t) ==> ThreadOk(r)
  {
    if events == [] then t else AppendOne(AppendAll(t, live, events[..|events| - 1]), live, events[|events| - 1])
  }

  /** `memoryLive.Append`: all events or none. */
  function Appended(t: Thread, live: BranchId, events: seq<Event>): Thread {
    if forall e | e in events :: HasKind(e) then AppendAll(t, live, events) else t
  }

  function Lifecycle(session: string, body: Body): Event {
    Event("", "", 0, "", "", session, body)
  }

  predicate CanFork(t: Thread, from: BranchId, to: BranchId) {
    BranchOrRoot(t, from) in t.branches && to !in t.branches
  }

  function Registered(t: Thread, from: BranchId, to: BranchId): Thread
    requires t.nextSeq > 0
  {
    t.(branches := t.branches[to := Branch(to, BranchOrRoot(t, from), t.nextSeq - 1)])
  }

  /** `Fork`: registers the branch at the current end of the log and records its creation on it. */
  function Forked(t: Thread, from: BranchId, to: BranchId, session: string): (r: Thread)
    requires t.nextSeq > 0
    ensures ThreadOk(t) && CanFork(t, from, to) && to != "" ==> ThreadOk(r)
  {
    AppendOne(Registered(t, from, to), to, Lifecycle(session, BranchCreated(BranchOrRoot(t, from), to, t.nextSeq - 1)))
  }

  function ArchivedAs(t: Thread, archived: bool): (r: Thread)
    ensures ThreadOk(t) ==> ThreadOk(r)
  {
    AppendOne(t.(archived := archived), t.root, Lifecycle("", if archived then ThreadArchived else ThreadUnarchived))
  }
}
