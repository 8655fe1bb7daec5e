/**
 Renders of one thread, each in the three steps the source takes apart: prepare on a copy of the records, append the
 render's events to the log, commit under the version check (runtime/thread_runtime.go, `renderAndCommitContext`, and
 runner/runner.go, `commitPreparedRequest`). Renders interleave in any way, and the records may be restored from the log
 at any point.
 */
module ContextLog {
  import opened Sequences
  import opened ContextPrepare
  import opened ContextReplay

  datatype Phase = Open | Logged | Committed | RolledBack

  /** A prepared render: the version and records it was made on, and what it makes of them. */
  datatype Ticket = Ticket(version: nat, base: Records, result: BuildResult, next: Records, phase: Phase)

  /**
   The manager and the log; then, for the statements only, the render the records in memory come from, the last render
   whose events were appended, and whether the records were restored since.
   */
  datatype World = World(
    records: Records,
    version: nat,
    log: seq<RenderEvent>,
    tickets: seq<Ticket>,
    held: Option<nat>,
    last: Option<nat>,
    restored: bool
  )

  datatype Step =
    | Begin(result: BuildResult)
    | Append(ticket: nat, ok: bool)
    | Commit(ticket: nat)
    | Rollback(ticket: nat)
    | Restore

  /** A thread resumed from its log; nothing to restore leaves the records empty. */
  ghost function Start(hash: string -> string, log: seq<RenderEvent>): World {
    World(RestoredFrom(hash, log, map[]), 0, log, [], None, None, true)
  }

  ghost function RestoredFrom(hash: string -> string, log: seq<RenderEvent>, records: Records): Records {
    match Replayed(hash, log)
    case Some(restored) => restored
    case None => records
  }

  predicate InPhase(w: World, i: nat, phase: Phase) {
    i < |w.tickets| && w.tickets[i].phase == phase
  }

  function Move(tickets: seq<Ticket>, i: nat, phase: Phase): seq<Ticket>
    requires i < |tickets|
  {
    tickets[i := tickets[i].(phase := phase)]
  }

  predicate CanCommit(w: World, i: nat) {
    InPhase(w, i, Logged) && w.tickets[i].version == w.version
  }

  ghost function Next(hash: string -> string, w: World, step: Step): World {
    match step
    case Begin(result) =>
      w.(tickets := w.tickets + [Ticket(w.version, w.records, result, NextRecords(w.records, result.providers), Open)])
    case Append(i, ok) =>
      if !InPhase(w, i, Open) then w
      else if !ok then w.(tickets := Move(w.tickets, i, RolledBack))
      else
        var t := w.tickets[i];
        w.(log := w.log + EventsOf(t.result, t.next), tickets := Move(w.tickets, i, Logged), last := Some(i),
           restored := false)
    case Commit(i) =>
      if !CanCommit(w, i) then w
      else w.(records := w.tickets[i].next, version := w.version + 1, tickets := Move(w.tickets, i, Committed),
              held := Some(i))
    case Rollback(i) =>
      if InPhase(w, i, Open) || InPhase(w, i, Logged) then w.(tickets := Move(w.tickets, i, RolledBack)) else w
    case Restore =>
      w.(records := RestoredFrom(hash, w.log, w.records), version := w.version + 1, held := w.last, restored := true)
  }

  ghost function Run(hash: string -> string, log: seq<RenderEvent>, steps: seq<Step>): World {
    if steps == [] then Start(hash, log)
    else Next(hash, Run(hash, log, steps[..|steps| - 1]), steps[|steps| - 1])
  }

  // ---------------------------------------------------------------- what every step keeps

  predicate WasLogged(t: Ticket, log: seq<RenderEvent>) {
    RenderCommitted(t.next) in log
  }

  /** The records are what the thread was resumed with, or those of a render in the log. */
  ghost predicate Backed(start: World, w: World) {
    match w.held
    case None => w.records == start.records
    case Some(i) =>
      i < |w.tickets| && w.tickets[i].phase != Open && w.records == w.tickets[i].next && WasLogged(w.tickets[i], w.log)
  }

  /** The last snapshot in the log is that of the last render appended. */
  ghost predicate LastIs(start: World, w: World) {
    match w.last
    case None => w.log == start.log && w.held == None
    case Some(i) =>
      && i < |w.tickets| && w.tickets[i].phase != Open
      && LastCommitted(w.log) == Some(w.tickets[i].next) && WasLogged(w.tickets[i], w.log)
  }

  ghost predicate TicketOk(w: World, t: Ticket) {
    t.version <= w.version && (t.phase.Logged? ==> WasLogged(t, w.log))
  }

  /** The last render appended was committed, or the records were restored after it. */
  predicate Settled(w: World) {
    w.restored || (w.last.Some? && InPhase(w, w.last.value, Committed))
  }

  /** No logged render can be committed any more. */
  predicate AllStale(w: World) {
    forall i | 0 <= i < |w.tickets| && w.tickets[i].phase.Logged? :: w.tickets[i].version < w.version
  }

  ghost predicate Inv(start: World, w: World) {
    && Backed(start, w) && LastIs(start, w)
    && (forall i | 0 <= i < |w.tickets| :: TicketOk(w, w.tickets[i]))
    && (Settled(w) ==> AllStale(w))
    && (w.held == w.last <==> Settled(w))
  }

  lemma BeginKeeps(hash: string -> string, start: World, w: World, result: BuildResult)
    requires Inv(start, w)
    ensures Inv(start, Next(hash, w, Begin(result)))
  {
    var w' := Next(hash, w, Begin(result));
    assert forall i | 0 <= i < |w.tickets| :: w'.tickets[i] == w.tickets[i] && TicketOk(w, w.tickets[i]);
  }

  lemma FailKeeps(start: World, w: World, i: nat)
    requires Inv(start, w) && i < |w.tickets| && (w.tickets[i].phase.Open? || w.tickets[i].phase.Logged?)
    ensures Inv(start, w.(tickets := Move(w.tickets, i, RolledBack)))
  {
    var w' := w.(tickets := Move(w.tickets, i, RolledBack));
    assert forall k | 0 <= k < |w.tickets| && k != i :: w'.tickets[k] == w.tickets[k] && TicketOk(w, w.tickets[k]);
    assert TicketOk(w, w.tickets[i]);
  }

  lemma AppendKeeps(hash: string -> string, start: World, w: World, i: nat)
    requires Inv(start, w) && InPhase(w, i, Open)
    ensures Inv(start, Next(hash, w, Append(i, true)))
  {
    var w', t := Next(hash, w, Append(i, true)), w.tickets[i];
    LastCommittedOf(w.log, t.result, t.next);
    assert forall k | 0 <= k < |w.tickets| && k != i :: w'.tickets[k] == w.tickets[k] && TicketOk(w, w.tickets[k]);
    assert TicketOk(w, t);
  }

  lemma CommitKeeps(hash: string -> string, start: World, w: World, i: nat)
    requires Inv(start, w) && CanCommit(w, i)
    ensures Inv(start, Next(hash, w, Commit(i)))
  {
    var w' := Next(hash, w, Commit(i));
    assert !AllStale(w);
    assert forall k | 0 <= k < |w.tickets| && k != i :: w'.tickets[k] == w.tickets[k] && TicketOk(w, w.tickets[k]);
    assert TicketOk(w, w.tickets[i]);
  }

  lemma RestoreKeeps(hash: string -> string, start: World, w: World)
    requires Inv(start, w) && start.records == RestoredFrom(hash, start.log, map[])
    ensures Inv(start, Next(hash, w, Restore))
  {
    var w' := Next(hash, w, Restore);
    assert forall k | 0 <= k < |w.tickets| :: TicketOk(w, w.tickets[k]);
  }

  lemma InvStep(hash: string -> string, start: World, w: World, step: Step)
    requires Inv(start, w) && start.records == RestoredFrom(hash, start.log, map[])
    ensures Inv(start, Next(hash, w, step))
  {
    match step
    case Begin(result) => BeginKeeps(hash, start, w, result);
    case Append(i, ok) =>
      if InPhase(w, i, Open) {
        if ok { AppendKeeps(hash, start, w, i); } else { FailKeeps(start, w, i); }
      }
    case Commit(i) => if CanCommit(w, i) { CommitKeeps(hash, start, w, i); }
    case Rollback(i) => if InPhase(w, i, Open) || InPhase(w, i, Logged) { FailKeeps(start, w, i); }
    case Restore => RestoreKeeps(hash, start, w);
  }

  lemma {:induction false} InvRun(hash: string -> string, log: seq<RenderEvent>, steps: seq<Step>)
    ensures Inv(Start(hash, log), Run(hash, log, steps))
  {
    if steps != [] {
      InvRun(hash, log, steps[..|steps| - 1]);
      InvStep(hash, Start(hash, log), Run(hash, log, steps[..|steps| - 1]), steps[|steps| - 1]);
    }
  }

  // ---------------------------------------------------------------- the results

  /** In every interleaving the records in memory are those the thread was resumed with, or a snapshot the log holds. */
  lemma MemoryIsLogged(hash: string -> string, log: seq<RenderEvent>, steps: seq<Step>)
    ensures var w := Run(hash, log, steps);
            w.records == Start(hash, log).records || RenderCommitted(w.records) in w.log
  {
    InvRun(hash, log, steps);
  }

  /** Resuming restores the last render appended, whether it was committed, is still open, or failed to commit. */
  lemma ResumeRestoresLast(hash: string -> string, log: seq<RenderEvent>, steps: seq<Step>)
    ensures var w := Run(hash, log, steps);
            RestoredFrom(hash, w.log, map[]) ==
            match w.last
            case None => Start(hash, log).records
            case Some(i) => if i < |w.tickets| then w.tickets[i].next else map[]
  {
    InvRun(hash, log, steps);
  }

  /**
   Memory and log agree on which render is current exactly when the last render appended was committed, or the records
   were restored after it was appended; then resuming restores the records in memory. Otherwise it restores the
   appended render, which changes what the model is shown unless that render made the very same records.
   */
  lemma InStepExactlyWhen(hash: string -> string, log: seq<RenderEvent>, steps: seq<Step>)
    ensures var w := Run(hash, log, steps);
            && (w.held == w.last <==> Settled(w))
            && (RestoredFrom(hash, w.log, map[]) == w.records <==>
                Settled(w) || (w.last.Some? && w.last.value < |w.tickets| && w.tickets[w.last.value].next == w.records))
  {
    InvRun(hash, log, steps);
  }

  ghost function RunFrom(hash: string -> string, w: World, steps: seq<Step>): World {
    if steps == [] then w else Next(hash, RunFrom(hash, w, steps[..|steps| - 1]), steps[|steps| - 1])
  }

  predicate Lost(w: World, i: nat) {
    w.last == Some(i) && !w.restored && i < |w.tickets| && w.tickets[i].version < w.version
    && !w.tickets[i].phase.Open? && !w.tickets[i].phase.Committed?
  }

  /** A render appended after the records moved on is never committed: it stays the one a resume would restore. */
  lemma {:induction false} LostUntilNextAppend(hash: string -> string, w: World, i: nat, more: seq<Step>)
    requires Lost(w, i) && forall step | step in more :: !step.Append? && !step.Restore?
    ensures Lost(RunFrom(hash, w, more), i) && !Settled(RunFrom(hash, w, more))
  {
    if more != [] {
      assert more[|more| - 1] in more;
      LostUntilNextAppend(hash, w, i, more[..|more| - 1]);
    }
  }

  lemma RunSnoc(hash: string -> string, log: seq<RenderEvent>, steps: seq<Step>, step: Step)
    ensures Run(hash, log, steps + [step]) == Next(hash, Run(hash, log, steps), step)
  {
    SnocInit(steps, step);
  }

  /** Two renders prepared on the same records, both appended. */
  lemma {:induction false} BothAppended(hash: string -> string, a: BuildResult, b: BuildResult)
    ensures var w := Run(hash, [], [Begin(a), Begin(b), Append(0, true), Append(1, true)]);
            && w.version == 0 && w.last == Some(1) && !w.restored
            && w.tickets == [Ticket(0, map[], a, NextRecords(map[], a.providers), Logged),
                             Ticket(0, map[], b, NextRecords(map[], b.providers), Logged)]
  {
    var s1, s2 := [Begin(a)], [Begin(a), Begin(b)];
    RunSnoc(hash, [], [], Begin(a));
    RunSnoc(hash, [], s1, Begin(b));
    RunSnoc(hash, [], s2, Append(0, true));
    RunSnoc(hash, [], s2 + [Append(0, true)], Append(1, true));
    assert [] + [Begin(a)] == s1 && s1 + [Begin(b)] == s2;
    assert s2 + [Append(0, true)] + [Append(1, true)] == [Begin(a), Begin(b), Append(0, true), Append(1, true)];
  }

  /** Then the first is committed and the second refused: memory has the first, and resuming restores the second. */
  lemma RefusedCommitIsRestored(hash: string -> string, a: BuildResult, b: BuildResult)
    ensures var w := Run(hash, [], [Begin(a), Begin(b), Append(0, true), Append(1, true), Commit(0), Commit(1)]);
            && w.records == NextRecords(map[], a.providers)
            && RestoredFrom(hash, w.log, map[]) == NextRecords(map[], b.providers)
            && Lost(w, 1)
  {
    var s4 := [Begin(a), Begin(b), Append(0, true), Append(1, true)];
    BothAppended(hash, a, b);
    RunSnoc(hash, [], s4, Commit(0));
    RunSnoc(hash, [], s4 + [Commit(0)], Commit(1));
    var all := s4 + [Commit(0)] + [Commit(1)];
    assert all == [Begin(a), Begin(b), Append(0, true), Append(1, true), Commit(0), Commit(1)];
    ResumeRestoresLast(hash, [], all);
  }
}
