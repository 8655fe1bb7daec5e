/** The store object of thread/memorystore.go and the live handles it gives out. */
module MemoryStore {
  import opened Sequences
  import opened Items
  import opened ThreadStore
  import opened ThreadImport

  class Store {
    var threads: Threads

    /** The event registry, consulted for every event a caller appends or imports. */
    const accepts: Event -> bool

    constructor (accepts: Event -> bool)
      ensures threads == map[] && this.accepts == accepts
    {
      threads := map[];
      this.accepts := accepts;
    }

    method Create(id: ThreadId, branch: BranchId, metadata: map<string, string>, session: string) returns (ok: bool)
      requires id != ""
      modifies this
      ensures ok <==> id !in old(threads)
      ensures threads == if ok then old(threads)[id := Created(id, branch, metadata, session)] else old(threads)
    {
      if id in threads {
        return false;
      }
      threads := threads[id := Created(id, branch, metadata, session)];
      ok := true;
    }

    method Fork(id: ThreadId, from: BranchId, to: BranchId, session: string) returns (ok: bool)
      requires to != "" && (id in threads ==> threads[id].nextSeq > 0)
      modifies this
      ensures ok <==> id in old(threads) && CanFork(old(threads)[id], from, to)
      ensures threads == if ok then old(threads)[id := Forked(old(threads)[id], from, to, session)] else old(threads)
    {
      if id !in threads || !CanFork(threads[id], from, to) {
        return false;
      }
      threads := threads[id := Forked(threads[id], from, to, session)];
      ok := true;
    }

    method SetArchived(id: ThreadId, archived: bool) returns (ok: bool)
      modifies this
      ensures ok <==> id in old(threads)
      ensures threads == if ok then old(threads)[id := ArchivedAs(old(threads)[id], archived)] else old(threads)
    {
      if id !in threads {
        return false;
      }
      threads := threads[id := ArchivedAs(threads[id], archived)];
      ok := true;
    }

    /** Stops at the first refused event; what came before stays imported. */
    method Import(events: seq<Event>) returns (ok: bool)
      modifies this
      ensures ok <==> forall e | e in events :: Importable(e) && accepts(e)
      ensures exists n :: 0 <= n <= |events| && threads == Imported(old(threads), events[..n])
                          && (if ok then n == |events|
                              else n < |events| && !(Importable(events[n]) && accepts(events[n])))
    {
      for i := 0 to |events|
        invariant threads == Imported(old(threads), events[..i])
        invariant forall e | e in events[..i] :: Importable(e) && accepts(e)
      {
        PrefixStep(events, i);
        var e := events[i];
        assert e in events;
        if e.thread == "" || !HasKind(e) || !accepts(e) {
          return false;
        }
        ImportedSnoc(old(threads), events[..i], e);
        threads := threads[e.thread := ImportInto(ImportTarget(threads, e), e)];
      }
      assert events[..|events|] == events;
      ok := true;
    }
  }

  /** Every event has a kind and is accepted. */
  predicate AllAccepted(accepts: Event -> bool, events: seq<Event>) {
    events == [] ||
    (AllAccepted(accepts, events[..|events| - 1]) && HasKind(events[|events| - 1]) && accepts(events[|events| - 1]))
  }

  lemma {:induction false} RefusedStays(accepts: Event -> bool, events: seq<Event>, i: nat)
    requires i <= |events| && !AllAccepted(accepts, events[..i])
    ensures !AllAccepted(accepts, events)
    decreases |events|
  {
    if i == |events| {
      assert events[..i] == events;
    } else {
      assert events[..|events| - 1][..i] == events[..i];
      RefusedStays(accepts, events[..|events| - 1], i);
    }
  }

  // ---------------------------------------------------------------- what an append stores

  /**
   What the caller gave, numbered; on its own branch, else the handle's, else the root; from its own session, else the
   handle's.
   */
  ghost predicate StoredAs(stored: Event, given: Event, t: Thread, live: BranchId, session: string, seqNo: nat) {
    && stored.node == given.node && stored.parent == given.parent && stored.body == given.body
    && stored.thread == t.id && stored.seqNo == seqNo
    && stored.session == (if given.session != "" then given.session else session)
    && stored.branch == (if given.branch != "" then given.branch else if live != "" then live else t.root)
  }

  /** The log goes on with the given events, one by one and in order. */
  ghost predicate LogContinues(t: Thread, live: BranchId, session: string, given: seq<Event>, log: seq<Event>) {
    && |log| == |t.events| + |given| && t.events <= log
    && forall k | 0 <= k < |given| :: StoredAs(log[|t.events| + k], given[k], t, live, session, t.nextSeq + k)
  }

  lemma LogContinuesNext(t: Thread, live: BranchId, session: string, given: seq<Event>, log: seq<Event>, e: Event,
                         stored: Event)
    requires LogContinues(t, live, session, given, log)
    requires StoredAs(stored, e, t, live, session, t.nextSeq + |given|)
    ensures LogContinues(t, live, session, given + [e], log + [stored])
  {
    var given', log' := given + [e], log + [stored];
    forall k | 0 <= k < |given'|
      ensures StoredAs(log'[|t.events| + k], given'[k], t, live, session, t.nextSeq + k)
    {
      if k < |given| {
        assert log'[|t.events| + k] == log[|t.events| + k] && given'[k] == given[k];
      }
    }
  }

  lemma {:induction false} IdsKept(t: Thread, live: BranchId, events: seq<Event>)
    ensures AppendAll(t, live, events).id == t.id && AppendAll(t, live, events).root == t.root
  {
    if events != [] { IdsKept(t, live, events[..|events| - 1]); }
  }

  lemma {:induction false} AppendStores(t: Thread, live: BranchId, events: seq<Event>)
    ensures LogContinues(t, live, "", events, AppendAll(t, live, events).events)
  {
    if events != [] {
      var init, e := events[..|events| - 1], events[|events| - 1];
      Unsnoc(events);
      AppendStores(t, live, init);
      IdsKept(t, live, init);
      var before := AppendAll(t, live, init);
      LogContinuesNext(t, live, "", init, before.events, e, Stamped(before, live, e));
    }
  }

  /** A handle for appending to one branch of one thread. */
  class Live {
    const store: Store
    const threadId: ThreadId
    const branchId: BranchId
    const session: string
    var closed: bool

    constructor (store: Store, threadId: ThreadId, branchId: BranchId, session: string)
      ensures this.store == store && this.threadId == threadId && this.branchId == branchId &&
              this.session == session && !closed
    {
      this.store, this.threadId, this.branchId, this.session, closed := store, threadId, branchId, session, false;
    }

    function Attributed(e: Event): Event {
      e.(thread := threadId, branch := if e.branch == "" then branchId else e.branch,
         session := if e.session == "" then session else e.session)
    }

    /** What is stored of an attributed event is what is to be stored of the event. */
    lemma AttributedStores(t: Thread, events: seq<Event>, log: seq<Event>)
      requires LogContinues(t, branchId, "", Map(Attributed, events), log)
      ensures LogContinues(t, branchId, session, events, log)
    {
      forall k | 0 <= k < |events|
        ensures StoredAs(log[|t.events| + k], events[k], t, branchId, session, t.nextSeq + k)
      {
        assert StoredAs(log[|t.events| + k], Attributed(events[k]), t, branchId, "", t.nextSeq + k);
      }
    }

    /**
     Whether an append succeeds: the caller is not cancelled, the handle is open, the thread exists, and every event is
     accepted.
     */
    ghost predicate CanAppend(cancelled: bool, events: seq<Event>)
      reads this, store
    {
      && !cancelled
      && (events == [] || (!closed && threadId in store.threads && AllAccepted(store.accepts, events)))
    }

    /** All of the batch, in order, or none of it. */
    method Append(cancelled: bool, events: seq<Event>) returns (ok: bool)
      modifies store
      ensures ok <==> old(CanAppend(cancelled, events))
      ensures !ok || events == [] ==> store.threads == old(store.threads)
      ensures ok && events != [] ==>
                threadId in old(store.threads) &&
                store.threads == old(store.threads)[threadId :=
                                                    AppendAll(old(store.threads)[threadId], branchId,
                                                              Map(Attributed, events))]
      ensures ok && events != [] ==>
                LogContinues(old(store.threads)[threadId], branchId, session, events, store.threads[threadId].events)
    {
      if cancelled {
        return false;
      }
      if |events| == 0 {
        return true;
      }
      if closed || threadId !in store.threads {
        return false;
      }
      var batch: seq<Event> := [];
      for i := 0 to |events|
        invariant batch == Map(Attributed, events[..i])
        invariant store.threads == old(store.threads) && closed == old(closed)
        invariant AllAccepted(store.accepts, events[..i])
      {
        PrefixStep(events, i);
        if !HasKind(events[i]) || !store.accepts(events[i]) {
          RefusedStays(store.accepts, events, i + 1);
          return false;
        }
        batch := batch + [Attributed(events[i])];
      }
      assert events[..|events|] == events;
      var t := AppendLocked(store.threads[threadId], branchId, batch);
      AttributedStores(store.threads[threadId], events, t.events);
      store.threads := store.threads[threadId := t];
      ok := true;
    }

    method Shutdown()
      modifies this
      ensures closed
    {
      closed := true;
    }

    method Discard()
      modifies this, store
      ensures closed && store.threads == old(store.threads) - {threadId}
    {
      store.threads := store.threads - {threadId};
      closed := true;
    }
  }

  method AppendLocked(t: Thread, branch: BranchId, events: seq<Event>) returns (r: Thread)
    ensures r == AppendAll(t, branch, events) && LogContinues(t, branch, "", events, r.events)
  {
    r := t;
    AppendStores(t, branch, events);
    for i := 0 to |events|
      invariant r == AppendAll(t, branch, events[..i])
    {
      PrefixStep(events, i);
      r := AppendOne(r, branch, events[i]);
    }
    assert events[..|events|] == events;
  }
}
