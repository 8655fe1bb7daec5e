/**
 What replaying fragment events (runtime/thread_runtime.go) brings back of a render: not only which fragments are
 shown, but every changed fragment with its text, and the mark of every removed one.
 */
module ContextContents {
  import opened Sequences
  import opened ContextRecords
  import opened ContextPrepare
  import opened ContextReplay
  import opened ContextAttribution

  /** Provider `p` holds exactly this under key `k`. */
  predicate Holds(records: Records, p: ProviderKey, k: FragmentKey, r: Rendered) {
    k in FragmentsOf(records, p) && FragmentsOf(records, p)[k] == r
  }

  /** What an event leaves under its key. */
  ghost predicate Leaves(hash: string -> string, e: RenderEvent, r: Rendered) {
    match e
    case FragmentRecorded(_, f) => r.Active? && KeptAs(hash, f, r.fragment)
    case FragmentRemoved(_, x) => r == Tombstone(x.last)
    case _ => false
  }

  lemma PutHolds(hash: string -> string, records: Records, q: ProviderKey, j: FragmentKey, v: Rendered, p: ProviderKey,
                 k: FragmentKey, r: Rendered)
    ensures Holds(Put(hash, records, q, j, v), p, k, r) <==>
            if q == p && j == k then r == v else Holds(records, p, k, r)
  {}

  lemma ApplyHolds(hash: string -> string, records: Records, e: RenderEvent, p: ProviderKey, k: FragmentKey,
                   r: Rendered)
    ensures Writes(e, p, k) && Leaves(hash, e, r) ==> Holds(Apply(hash, records, e), p, k, r)
    ensures !Writes(e, p, k) ==> (Holds(Apply(hash, records, e), p, k, r) <==> Holds(records, p, k, r))
  {
    match e
    case FragmentRecorded(q, f) =>
      PutHolds(hash, records, q, f.key, Active(Stamp(hash, f)), p, k, r);
      if r.Active? { StampKeeps(hash, f, r.fragment); }
    case FragmentRemoved(q, x) => PutHolds(hash, records, q, x.key, Tombstone(x.last), p, k, r);
    case _ =>
  }

  /** If all events for a key leave the same, one is enough. */
  lemma {:induction false} FoldHolds(hash: string -> string, records: Records, events: seq<RenderEvent>,
                                     p: ProviderKey, k: FragmentKey, r: Rendered)
    requires forall e | e in events && Writes(e, p, k) :: Leaves(hash, e, r)
    requires exists e :: e in events && Writes(e, p, k)
    ensures Holds(Fold(hash, records, events), p, k, r)
  {
    var init, last := events[..|events| - 1], events[|events| - 1];
    assert last in events && forall e | e in init :: e in events;
    ApplyHolds(hash, Fold(hash, records, init), last, p, k, r);
    if !Writes(last, p, k) {
      assert forall e | e in events :: e in init || e == last;
      FoldHolds(hash, records, init, p, k, r);
    }
  }

  /** One provider changes at most one fragment under a key, and keeps it as changed. */
  lemma ChangedOnce(hash: string -> string, p: Provider, records: Records, a: Answer, r: ProviderResult, f: Fragment,
                    g: Fragment)
    requires IsResult(hash, p, records, a, r) && ChangedIn(r, f) && ChangedIn(r, g) && f.key == g.key
    ensures f == g && KeptAs(hash, f, f)
  {
    var x := ChangedSource(hash, p, records, a, r, f);
    var y := ChangedSource(hash, p, records, a, r, g);
    StampKeeps(hash, f, Stamp(hash, f));
  }

  lemma ResultAt(hash: string -> string, records: Records, r: Render, i: nat)
    requires RendersOn(hash, records, r) && i < |r.providers|
    ensures |r.result.providers| == |r.answers| == |r.providers| &&
            IsResult(hash, r.providers[i], records, r.answers[i], r.result.providers[i])
  {}

  /** A correctly attributed event about a changed fragment comes from the provider it names. */
  lemma RecordedBy(b: BuildResult, i: nat, e: RenderEvent)
    requires Gathers(b) && DistinctProviders(b.providers) && Attributed(b) && i < |b.providers|
    requires e in FragmentEvents(b) && e.FragmentRecorded? && e.provider == b.providers[i].key
    ensures ChangedIn(b.providers[i], e.fragment)
  {
    EventsHave(b, e);
    var j: nat :| j < |b.providers| && ChangedBy(b.providers, j, e.fragment);
    assert e.fragment in b.providers[j].diff.added + b.providers[j].diff.updated;
    assert b.providers[j].key == b.providers[i].key;
  }

  lemma RemovedByIt(b: BuildResult, i: nat, e: RenderEvent)
    requires Gathers(b) && DistinctProviders(b.providers) && i < |b.providers|
    requires e in FragmentEvents(b) && e.FragmentRemoved? && e.provider == b.providers[i].key
    ensures e.removed in b.providers[i].diff.removed
  {
    EventsHave(b, e);
    var j: nat :| j < |b.providers| && RemovedBy(b.providers, j, e.provider, e.removed);
    assert b.providers[j].key == b.providers[i].key;
  }

  lemma WritesChanged(hash: string -> string, records: Records, r: Render, i: nat, f: Fragment, e: RenderEvent)
    requires RendersOn(hash, records, r) && Attributed(r.result) && i < |r.providers|
    requires ChangedIn(r.result.providers[i], f) && e in FragmentEvents(r.result)
    requires Writes(e, r.result.providers[i].key, f.key)
    ensures Leaves(hash, e, Active(f))
  {
    var result := r.result.providers[i];
    ResultAt(hash, records, r, i);
    if e.FragmentRecorded? {
      RecordedBy(r.result, i, e);
      ChangedOnce(hash, r.providers[i], records, r.answers[i], result, f, e.fragment);
    } else {
      RemovedByIt(r.result, i, e);
      ChangedShows(hash, r.providers[i], records, r.answers[i], result, f);
    }
  }

  /** Every fragment a render adds or updates comes back from its events with its text and fingerprint. */
  lemma ChangedComesBack(hash: string -> string, records: Records, r: Render, replayed: Records, i: nat, f: Fragment)
    requires RendersOn(hash, records, r) && Attributed(r.result) && i < |r.providers|
    requires ChangedIn(r.result.providers[i], f)
    ensures Holds(Fold(hash, replayed, FragmentEvents(r.result)), r.result.providers[i].key, f.key, Active(f))
  {
    var results, events := r.result.providers, FragmentEvents(r.result);
    var p := results[i].key;
    forall e | e in events && Writes(e, p, f.key) ensures Leaves(hash, e, Active(f)) {
      WritesChanged(hash, records, r, i, f, e);
    }
    assert f in results[i].diff.added + results[i].diff.updated;
    var e := FragmentRecorded(p, f);
    assert ChangedBy(results, i, f);
    EventsHave(r.result, e);
    FoldHolds(hash, replayed, events, p, f.key, Active(f));
  }

  /** A provider removes a key at most once, and changes nothing under it. */
  lemma RemovedOnce(hash: string -> string, p: Provider, records: Records, a: Answer, r: ProviderResult,
                    x: RemovedFragment, y: RemovedFragment)
    requires IsResult(hash, p, records, a, r) && x in r.diff.removed && y in r.diff.removed && x.key == y.key
    ensures x == y && forall f | ChangedIn(r, f) :: f.key != x.key
  {
    forall f | ChangedIn(r, f) ensures f.key != x.key {
      ChangedShows(hash, p, records, a, r, f);
    }
  }

  lemma WritesRemoved(hash: string -> string, records: Records, r: Render, i: nat, x: RemovedFragment, e: RenderEvent)
    requires RendersOn(hash, records, r) && Attributed(r.result) && i < |r.providers|
    requires x in r.result.providers[i].diff.removed && e in FragmentEvents(r.result)
    requires Writes(e, r.result.providers[i].key, x.key)
    ensures Leaves(hash, e, Tombstone(x.last))
  {
    var result := r.result.providers[i];
    ResultAt(hash, records, r, i);
    if e.FragmentRecorded? {
      RecordedBy(r.result, i, e);
      RemovedOnce(hash, r.providers[i], records, r.answers[i], result, x, x);
    } else {
      RemovedByIt(r.result, i, e);
      RemovedOnce(hash, r.providers[i], records, r.answers[i], result, x, e.removed);
    }
  }

  /** Every removal comes back as the mark of what was last shown. */
  lemma RemovedComesBack(hash: string -> string, records: Records, r: Render, replayed: Records, i: nat,
                         x: RemovedFragment)
    requires RendersOn(hash, records, r) && Attributed(r.result) && i < |r.providers|
    requires x in r.result.providers[i].diff.removed
    ensures Holds(Fold(hash, replayed, FragmentEvents(r.result)), r.result.providers[i].key, x.key, Tombstone(x.last))
  {
    var results, events := r.result.providers, FragmentEvents(r.result);
    var p := results[i].key;
    forall e | e in events && Writes(e, p, x.key) ensures Leaves(hash, e, Tombstone(x.last)) {
      WritesRemoved(hash, records, r, i, x, e);
    }
    var e := FragmentRemoved(p, x);
    assert RemovedBy(results, i, p, x);
    EventsHave(r.result, e);
    FoldHolds(hash, replayed, events, p, x.key, Tombstone(x.last));
  }

  /** What a render does not write stays as it was. */
  lemma {:induction false} UnwrittenHolds(hash: string -> string, records: Records, events: seq<RenderEvent>,
                                          p: ProviderKey, k: FragmentKey, r: Rendered)
    requires forall e | e in events :: !Writes(e, p, k)
    ensures Holds(Fold(hash, records, events), p, k, r) <==> Holds(records, p, k, r)
  {
    if events != [] {
      UnwrittenHolds(hash, records, events[..|events| - 1], p, k, r);
      ApplyHolds(hash, Fold(hash, records, events[..|events| - 1]), events[|events| - 1], p, k, r);
    }
  }
}
