/** Rendering through a thread (runtime/thread_runtime.go): events reach the log before the manager's records change. */
module ContextRuntime {
  import opened Sequences
  import opened ContextPrepare
  import opened ContextReplay
  import opened ContextManager

  /** Records are none, or what resuming from some prefix of the log restores. */
  ghost predicate Restorable(hash: string -> string, log: seq<RenderEvent>, records: Records) {
    records == map[] || exists n: nat :: n <= |log| && Replayed(hash, log[..n]) == Some(records)
  }

  lemma RestorableLater(hash: string -> string, log: seq<RenderEvent>, more: seq<RenderEvent>, records: Records)
    requires Restorable(hash, log, records)
    ensures Restorable(hash, log + more, records)
  {
    if records != map[] {
      var n: nat :| n <= |log| && Replayed(hash, log[..n]) == Some(records);
      assert (log + more)[..n] == log[..n];
    }
  }

  lemma RestorableWhole(hash: string -> string, log: seq<RenderEvent>)
    ensures Replayed(hash, log).Some? ==> Restorable(hash, log, Replayed(hash, log).value)
  {
    assert log[..|log|] == log;
  }

  /** What renders logged and committed one after another leave. */
  function RecordsThrough(records: Records, renders: seq<BuildResult>): Records {
    if renders == [] then records
    else NextRecords(RecordsThrough(records, renders[..|renders| - 1]), renders[|renders| - 1].providers)
  }

  function LogThrough(records: Records, renders: seq<BuildResult>): seq<RenderEvent> {
    if renders == [] then []
    else
      LogThrough(records, renders[..|renders| - 1]) +
      EventsOf(renders[|renders| - 1], RecordsThrough(records, renders))
  }

  lemma LogThroughLast(log: seq<RenderEvent>, records: Records, renders: seq<BuildResult>)
    requires renders != []
    ensures LastCommitted(log + LogThrough(records, renders)) == Some(RecordsThrough(records, renders))
  {
    var init, last := renders[..|renders| - 1], renders[|renders| - 1];
    Assoc(log, LogThrough(records, init), EventsOf(last, RecordsThrough(records, renders)));
    LastCommittedOf(log + LogThrough(records, init), last, RecordsThrough(records, renders));
  }

  lemma LastSnapshot(log: seq<RenderEvent>, b: BuildResult, next: Records, there: Records, after: seq<BuildResult>)
    ensures LastCommitted(log + EventsOf(b, next) + LogThrough(there, after)) ==
            Some(if after == [] then next else RecordsThrough(there, after))
  {
    LastCommittedOf(log, b, next);
    if after == [] {
      assert log + EventsOf(b, next) + [] == log + EventsOf(b, next);
    } else {
      LogThroughLast(log + EventsOf(b, next), there, after);
    }
  }

  class ThreadContexts {
    const hash: string -> string
    const manager: Manager
    var log: seq<RenderEvent>

    /** A runtime over a fresh manager, before its log is replayed. */
    constructor (hash: string -> string, manager: Manager, log: seq<RenderEvent>)
      requires manager.Valid() && manager.records == map[]
      ensures this.hash == hash && this.manager == manager && this.log == log && LogHolds()
    {
      this.hash, this.manager, this.log := hash, manager, log;
    }

    /** The records in memory are none, or some prefix of the log restores them. */
    ghost predicate LogHolds()
      reads this, manager
    {
      manager.Valid() && Restorable(hash, log, manager.records)
    }

    /** Restoring from any log. */
    method Replay()
      requires LogHolds()
      modifies manager
      ensures LogHolds() && manager.providers == old(manager.providers)
      ensures manager.records == match Replayed(hash, log)
                                 case Some(restored) => restored
                                 case None => old(manager.records)
    {
      var r := ReplayContextRenders(hash, log);
      if r.Some? {
        RestorableWhole(hash, log);
        manager.SetRecords(r.value);
      }
    }

    /** One render logged, then committed with nothing in between. */
    method LogAndCommit(result: BuildResult)
      requires LogHolds()
      modifies this`log, manager
      ensures LogHolds() && manager.providers == old(manager.providers)
      ensures manager.records == NextRecords(old(manager.records), result.providers)
      ensures log == old(log) + EventsOf(result, manager.records)
      ensures manager.history == old(manager.history) + [manager.records]
    {
      var s := manager.TakeSnapshot();
      var render := new PreparedRender(manager, s, result, NextRecords(s.records, result.providers));
      var events := ContextRenderEvents(result, render.records);
      LastCommittedOf(log, result, render.records);
      log := log + events;
      var ok := render.Commit();
      RestorableWhole(hash, log);
    }

    /** Other turns of the same thread, rendering one after another. */
    method OthersRender(others: seq<BuildResult>)
      requires LogHolds()
      modifies this`log, manager
      ensures LogHolds() && manager.providers == old(manager.providers)
      ensures manager.records == RecordsThrough(old(manager.records), others)
      ensures log == old(log) + LogThrough(old(manager.records), others)
      ensures old(manager.history) <= manager.history && manager.version == old(manager.version) + |others|
    {
      assert log + [] == log;
      for i := 0 to |others|
        invariant LogHolds() && manager.providers == old(manager.providers)
        invariant manager.records == RecordsThrough(old(manager.records), others[..i])
        invariant log == old(log) + LogThrough(old(manager.records), others[..i])
        invariant old(manager.history) <= manager.history && manager.version == old(manager.version) + i
      {
        PrefixStep(others, i);
        ghost var before := LogThrough(old(manager.records), others[..i]);
        LogAndCommit(others[i]);
        Assoc(old(log), before, EventsOf(others[i], manager.records));
      }
      assert others[..|others|] == others;
    }

    /**
     `renderAndCommitContext`, with what other turns render before its events are appended and before it commits.
     It fails when preparing or appending does, and then leaves nothing behind; it also fails when another turn
     committed meanwhile, and then its events stay in the log.
     */
    method RenderAndCommit(answers: seq<Answer>, appendFails: bool, before: seq<BuildResult>, after: seq<BuildResult>)
      returns (r: Result<BuildResult>, ghost rendered: BuildResult)
      requires LogHolds() && |answers| == |manager.providers|
      modifies this`log, manager
      ensures LogHolds()
      ensures var fails := SomeFail(old(manager.providers), old(manager.records), answers, |answers|);
              && (r.Ok? <==> !fails && !appendFails && before == [] && after == [])
              && (fails ==> log == old(log) && manager.records == old(manager.records))
              && (!fails && appendFails ==>
                    && log == old(log) + LogThrough(old(manager.records), before)
                    && manager.records == RecordsThrough(old(manager.records), before))
              && (!fails && !appendFails ==>
                    Appended(old(manager.providers), old(log), old(manager.records), answers, before, after, rendered))
      ensures r.Ok? ==> r.value == rendered
    {
      var s := manager.TakeSnapshot();
      ghost var start := manager.history;
      var render := PrepareRender(hash, manager, s, answers);
      if render == null {
        r, rendered := Err, BuildResult([], [], [], [], []);
        return;
      }
      OthersRender(before);
      rendered := render.result;
      if appendFails {
        render.Rollback();
        r := Err;
        return;
      }
      ghost var logged := log;
      var events := ContextRenderEvents(render.result, render.records);
      RestorableLater(hash, log, events, manager.records);
      log := log + events;
      OthersRender(after);
      LastSnapshot(logged, render.result, render.records, RecordsThrough(s.records, before), after);
      var ok := render.Commit();
      RestorableWhole(hash, log);
      r := if ok then Ok(render.result) else Err;
    }

    /** The log and the records when the events of a render were appended. */
    ghost predicate Appended(providers: seq<Provider>, log0: seq<RenderEvent>, records0: Records, answers: seq<Answer>,
                             before: seq<BuildResult>, after: seq<BuildResult>, rendered: BuildResult)
      requires |answers| == |providers|
      reads this, manager
    {
      var next, there := NextRecords(records0, rendered.providers), RecordsThrough(records0, before);
      && IsRender(hash, providers, records0, answers, rendered)
      && log == log0 + LogThrough(records0, before) + EventsOf(rendered, next) + LogThrough(there, after)
      && manager.records == (if before == [] && after == [] then next else RecordsThrough(there, after))
      && LastCommitted(log) == Some(if after == [] then next else RecordsThrough(there, after))
    }
  }
}
