/**
 Any number of renders prepared, committed and abandoned in any order, with records set from outside in between:
 the version check means no committed render overwrites a state it was not rendered on.
 */
module ContextCommits {
  import opened ContextPrepare

  /** A prepared render: when it copied the records, what they were, and what it would make of them. */
  datatype Ticket = Ticket(version: nat, base: Records, next: Records, done: bool)

  /** One change of the records. */
  datatype Change = ByCommit(ticket: nat, before: Records, after: Records) | BySet(before: Records, after: Records)

  datatype World = World(records: Records, version: nat, tickets: seq<Ticket>, changes: seq<Change>)

  datatype Step = Begin(next: Records) | Commit(ticket: nat) | Rollback(ticket: nat) | SetRecords(next: Records)

  function Start(records: Records): World {
    World(records, 0, [], [])
  }

  predicate CanCommit(w: World, i: nat) {
    i < |w.tickets| && !w.tickets[i].done && w.tickets[i].version == w.version
  }

  function Closed(w: World, i: nat): World {
    if i < |w.tickets| then w.(tickets := w.tickets[i := w.tickets[i].(done := true)]) else w
  }

  function Next(w: World, step: Step): World {
    match step
    case Begin(next) => w.(tickets := w.tickets + [Ticket(w.version, w.records, next, false)])
    case Commit(i) =>
      if CanCommit(w, i)
      then World(w.tickets[i].next, w.version + 1, Closed(w, i).tickets,
                 w.changes + [ByCommit(i, w.records, w.tickets[i].next)])
      else w
    case Rollback(i) => Closed(w, i)
    case SetRecords(next) => World(next, w.version + 1, w.tickets, w.changes + [BySet(w.records, next)])
  }

  function Run(start: Records, steps: seq<Step>): World {
    if steps == [] then Start(start) else Next(Run(start, steps[..|steps| - 1]), steps[|steps| - 1])
  }

  /** The records after the first `v` changes. */
  function StateAt(start: Records, changes: seq<Change>, v: nat): Records
    requires v <= |changes|
  {
    if v == 0 then start else changes[v - 1].after
  }

  /** Each change starts from what the one before it left. */
  ghost predicate Chained(start: Records, changes: seq<Change>) {
    forall v: nat | v < |changes| :: changes[v].before == StateAt(start, changes, v)
  }

  ghost predicate TicketOk(start: Records, changes: seq<Change>, t: Ticket) {
    t.version <= |changes| && t.base == StateAt(start, changes, t.version)
  }

  predicate CommitOk(tickets: seq<Ticket>, changes: seq<Change>, v: nat)
    requires v < |changes| && changes[v].ByCommit?
  {
    var i := changes[v].ticket;
    i < |tickets| && tickets[i].done && tickets[i].version == v && tickets[i].next == changes[v].after
  }

  ghost predicate Inv(start: Records, w: World) {
    && w.version == |w.changes| && w.records == StateAt(start, w.changes, w.version)
    && Chained(start, w.changes)
    && (forall i | 0 <= i < |w.tickets| :: TicketOk(start, w.changes, w.tickets[i]))
    && (forall v: nat | v < |w.changes| && w.changes[v].ByCommit? :: CommitOk(w.tickets, w.changes, v))
  }

  lemma StateKept(start: Records, changes: seq<Change>, c: Change, v: nat)
    requires v <= |changes|
    ensures StateAt(start, changes + [c], v) == StateAt(start, changes, v)
  {}

  lemma ChainedSnoc(start: Records, changes: seq<Change>, c: Change)
    requires Chained(start, changes) && c.before == StateAt(start, changes, |changes|)
    ensures Chained(start, changes + [c])
  {
    forall v: nat | v <= |changes| ensures (changes + [c])[v].before == StateAt(start, changes + [c], v) {
      StateKept(start, changes, c, v);
    }
  }

  lemma ClosedKeeps(start: Records, w: World, i: nat)
    requires Inv(start, w)
    ensures Inv(start, Closed(w, i))
  {
    if i < |w.tickets| {
      var tickets := Closed(w, i).tickets;
      forall v: nat | v < |w.changes| && w.changes[v].ByCommit? ensures CommitOk(tickets, w.changes, v) {
        assert CommitOk(w.tickets, w.changes, v);
      }
    }
  }

  /** A change on top of the current records, by a render just closed or from outside. */
  lemma ChangeKeeps(start: Records, w: World, c: Change)
    requires Inv(start, w) && c.before == w.records
    requires c.ByCommit? ==>
             c.ticket < |w.tickets| && w.tickets[c.ticket] == Ticket(w.version, w.records, c.after, true)
    ensures Inv(start, World(c.after, w.version + 1, w.tickets, w.changes + [c]))
  {
    var changes := w.changes + [c];
    ChainedSnoc(start, w.changes, c);
    forall i | 0 <= i < |w.tickets| ensures TicketOk(start, changes, w.tickets[i]) {
      assert TicketOk(start, w.changes, w.tickets[i]);
      StateKept(start, w.changes, c, w.tickets[i].version);
    }
    forall v: nat | v < |changes| && changes[v].ByCommit? ensures CommitOk(w.tickets, changes, v) {
      if v < |w.changes| { assert CommitOk(w.tickets, w.changes, v); }
    }
  }

  lemma BeginKeeps(start: Records, w: World, next: Records)
    requires Inv(start, w)
    ensures Inv(start, Next(w, Begin(next)))
  {
    var tickets := Next(w, Begin(next)).tickets;
    forall v: nat | v < |w.changes| && w.changes[v].ByCommit? ensures CommitOk(tickets, w.changes, v) {
      assert CommitOk(w.tickets, w.changes, v);
    }
  }

  lemma InvStep(start: Records, w: World, step: Step)
    requires Inv(start, w)
    ensures Inv(start, Next(w, step))
  {
    match step
    case Begin(next) => BeginKeeps(start, w, next);
    case Commit(i) =>
      if CanCommit(w, i) {
        assert TicketOk(start, w.changes, w.tickets[i]);
        ClosedKeeps(start, w, i);
        ChangeKeeps(start, Closed(w, i), ByCommit(i, w.records, w.tickets[i].next));
      }
    case Rollback(i) => ClosedKeeps(start, w, i);
    case SetRecords(next) => ChangeKeeps(start, w, BySet(w.records, next));
  }

  lemma {:induction false} InvRun(start: Records, steps: seq<Step>)
    ensures Inv(start, Run(start, steps))
  {
    if steps != [] {
      InvRun(start, steps[..|steps| - 1]);
      InvStep(start, Run(start, steps[..|steps| - 1]), steps[|steps| - 1]);
    }
  }

  /**
   No lost update: in every interleaving the changes form one chain from the initial records to the current ones,
   every committed render replaced exactly the records it was rendered on, and no render committed twice.
   */
  lemma NoLostUpdate(start: Records, steps: seq<Step>)
    ensures var w := Run(start, steps);
            && w.records == StateAt(start, w.changes, |w.changes|)
            && (forall v: nat | v < |w.changes| :: w.changes[v].before == StateAt(start, w.changes, v))
            && (forall v: nat | v < |w.changes| && w.changes[v].ByCommit? ::
                  var t := w.changes[v].ticket;
                  t < |w.tickets| && w.changes[v].before == w.tickets[t].base &&
                    w.changes[v].after == w.tickets[t].next)
            && (forall u: nat, v: nat | u < v < |w.changes| && w.changes[u].ByCommit? && w.changes[v].ByCommit? ::
                  w.changes[u].ticket != w.changes[v].ticket)
  {
    InvRun(start, steps);
    var w := Run(start, steps);
    assert forall v: nat | v < |w.changes| && w.changes[v].ByCommit? ::
        CommitOk(w.tickets, w.changes, v) && TicketOk(start, w.changes, w.tickets[w.changes[v].ticket]);
  }

  predicate Stale(w: World, i: nat) {
    i < |w.tickets| && (w.tickets[i].done || w.tickets[i].version < w.version)
  }

  lemma {:induction false} StaleForever(w: World, steps: seq<Step>, i: nat)
    requires Stale(w, i)
    ensures Stale(RunFrom(w, steps), i) && !CanCommit(RunFrom(w, steps), i)
  {
    if steps != [] { StaleForever(w, steps[..|steps| - 1], i); }
  }

  function RunFrom(w: World, steps: seq<Step>): World {
    if steps == [] then w else Next(RunFrom(w, steps[..|steps| - 1]), steps[|steps| - 1])
  }

  /**
   A render can be committed exactly as long as it is open and nothing has changed since it began; otherwise never
   again.
   */
  lemma CommitExactlyWhen(start: Records, steps: seq<Step>, i: nat)
    requires i < |Run(start, steps).tickets|
    ensures var w := Run(start, steps);
            && (CanCommit(w, i) <==> !Stale(w, i))
            && (CanCommit(w, i) ==> w.records == w.tickets[i].base)
            && (!CanCommit(w, i) ==> forall more :: !CanCommit(RunFrom(w, more), i))
  {
    InvRun(start, steps);
    var w := Run(start, steps);
    if Stale(w, i) {
      forall more ensures !CanCommit(RunFrom(w, more), i) {
        StaleForever(w, more, i);
      }
    }
  }
}
