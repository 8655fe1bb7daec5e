/** When replaying fragment events is exact, render by render and over whole runs. */
module ContextAttribution {
  import opened Sequences
  import opened ContextRecords
  import opened ContextPrepare
  import opened ContextReplay

  // ---------------------------------------------------------------- one provider

  predicate ChangedIn(r: ProviderResult, f: Fragment) {
    f in r.diff.added || f in r.diff.updated
  }

  lemma ShownStamped(hash: string -> string, before: RenderedMap, shown: Fragments, g: Fragment)
    requires g.key in shown && shown[g.key] == g
    ensures g.key in NextFragments(hash, before, shown)
    ensures LiveIn(NextFragments(hash, before, shown), g.key) == Some(FragmentPrint(hash, g))
    ensures ChangeOf(hash, before, g) != Unchanged <==> LiveIn(before, g.key) != Some(FragmentPrint(hash, g))
  {}

  lemma ChangedSource(hash: string -> string, p: Provider, records: Records, a: Answer, r: ProviderResult, f: Fragment)
    returns (g: Fragment)
    requires IsResult(hash, p, records, a, r) && ChangedIn(r, f)
    ensures a.rendering.Ok? && !r.skipped && f == Stamp(hash, g)
    ensures g.key in ByKey(a.rendering.value.fragments) && ByKey(a.rendering.value.fragments)[g.key] == g
    ensures ChangeOf(hash, FragmentsOf(records, p.key), g) != Unchanged
  {
    var before, shown := FragmentsOf(records, p.key), ByKey(a.rendering.value.fragments);
    var change := if f in r.diff.added then Added else Updated;
    ChangedHas(hash, before, InOrder(shown), change, f);
    g :| g in InOrder(shown) && ChangeOf(hash, before, g) == change && f == Stamp(hash, g);
    InOrderHas(shown, g);
  }

  /** A changed fragment is shown with a new fingerprint. */
  lemma ChangedShows(hash: string -> string, p: Provider, records: Records, a: Answer, r: ProviderResult, f: Fragment)
    requires IsResult(hash, p, records, a, r) && ChangedIn(r, f)
    ensures LiveIn(r.record.fragments, f.key) == Some(f.fingerprint) && f.fingerprint == FragmentPrint(hash, f)
    ensures Live(records, p.key, f.key) != Some(f.fingerprint)
    ensures f.key in r.record.fragments && forall x | x in r.diff.removed :: x.key != f.key
  {
    var g := ChangedSource(hash, p, records, a, r, f);
    ShownStamped(hash, FragmentsOf(records, p.key), ByKey(a.rendering.value.fragments), g);
  }

  lemma RemovedHides(hash: string -> string, p: Provider, records: Records, a: Answer, r: ProviderResult,
                     x: RemovedFragment)
    requires IsResult(hash, p, records, a, r) && x in r.diff.removed
    ensures LiveIn(r.record.fragments, x.key) == None
  {}

  /** Whatever a render changes of a provider is in its diff. */
  lemma ChangeIsListed(hash: string -> string, p: Provider, records: Records, a: Answer, r: ProviderResult,
                       k: FragmentKey)
    requires IsResult(hash, p, records, a, r) && LiveIn(r.record.fragments, k) != Live(records, p.key, k)
    ensures (exists f :: ChangedIn(r, f) && f.key == k) || (exists x :: x in r.diff.removed && x.key == k)
  {
    var before, shown := FragmentsOf(records, p.key), ByKey(a.rendering.value.fragments);
    if k in shown {
      var g := shown[k];
      InOrderHas(shown, g);
      var change := ChangeOf(hash, before, g);
      ChangedHas(hash, before, InOrder(shown), change, Stamp(hash, g));
      assert ChangedIn(r, Stamp(hash, g)) && Stamp(hash, g).key == k;
    } else {
      assert RemovedFragment(k, before[k].Fingerprint()) in r.diff.removed;
    }
  }

  // ---------------------------------------------------------------- one render

  predicate DistinctProviders(results: seq<ProviderResult>) {
    forall i, j | 0 <= i < j < |results| :: results[i].key != results[j].key
  }

  lemma {:induction false} AllAddedHas(results: seq<ProviderResult>, f: Fragment)
    ensures f in AllAdded(results) <==> exists i :: 0 <= i < |results| && f in results[i].diff.added
  {
    if results != [] {
      var init, last := results[..|results| - 1], results[|results| - 1];
      AllAddedHas(init, f);
      assert forall i | 0 <= i < |init| :: init[i] == results[i];
      assert results[|results| - 1] == last;
    }
  }

  lemma {:induction false} AllUpdatedHas(results: seq<ProviderResult>, f: Fragment)
    ensures f in AllUpdated(results) <==> exists i :: 0 <= i < |results| && f in results[i].diff.updated
  {
    if results != [] {
      var init, last := results[..|results| - 1], results[|results| - 1];
      AllUpdatedHas(init, f);
      assert forall i | 0 <= i < |init| :: init[i] == results[i];
      assert results[|results| - 1] == last;
    }
  }

  lemma RemovalsHave(r: ProviderResult, x: Removal)
    ensures x in RemovalsOf(r) <==> x.provider == r.key && x.fragment in r.diff.removed
  {
    var s := RemovalsOf(r);
    if x.provider == r.key && x.fragment in r.diff.removed {
      var i :| 0 <= i < |r.diff.removed| && r.diff.removed[i] == x.fragment;
      assert s[i] == x;
    }
  }

  lemma {:induction false} AllRemovedHas(results: seq<ProviderResult>, x: Removal)
    ensures x in AllRemoved(results) <==>
            exists i :: 0 <= i < |results| && x.provider == results[i].key && x.fragment in results[i].diff.removed
  {
    if results != [] {
      var init, last := results[..|results| - 1], results[|results| - 1];
      AllRemovedHas(init, x);
      RemovalsHave(last, x);
      assert forall i | 0 <= i < |init| :: init[i] == results[i];
      assert results[|results| - 1] == last;
    }
  }

  lemma {:induction false} RecordedHas(results: seq<ProviderResult>, fs: seq<Fragment>, e: RenderEvent)
    ensures e in Recorded(results, fs) <==>
            e.FragmentRecorded? && e.fragment in fs && e.provider == Holder(results, e.fragment.key)
  {
    if fs != [] {
      RecordedHas(results, fs[..|fs| - 1], e);
      assert fs == fs[..|fs| - 1] + [fs[|fs| - 1]];
    }
  }

  lemma {:induction false} RemovedHas(removals: seq<Removal>, e: RenderEvent)
    ensures e in Removed(removals) <==> e.FragmentRemoved? && Removal(e.provider, e.removed) in removals
  {
    if removals != [] {
      RemovedHas(removals[..|removals| - 1], e);
      assert removals == removals[..|removals| - 1] + [removals[|removals| - 1]];
    }
  }

  predicate ChangedBy(results: seq<ProviderResult>, i: nat, f: Fragment)
    requires i < |results|
  {
    ChangedIn(results[i], f)
  }

  predicate RemovedBy(results: seq<ProviderResult>, i: nat, p: ProviderKey, x: RemovedFragment)
    requires i < |results|
  {
    results[i].key == p && x in results[i].diff.removed
  }

  /** Where each fragment event comes from. */
  lemma EventsHave(b: BuildResult, e: RenderEvent)
    requires Gathers(b)
    ensures e in FragmentEvents(b) <==>
            (|| (e.FragmentRecorded? && e.provider == Holder(b.providers, e.fragment.key)
                 && exists i: nat :: i < |b.providers| && ChangedBy(b.providers, i, e.fragment))
             || (e.FragmentRemoved? && exists i: nat ::
                 i < |b.providers| && RemovedBy(b.providers, i, e.provider, e.removed)))
  {
    RecordedHas(b.providers, b.added + b.updated, e);
    RemovedHas(b.removed, e);
    if e.FragmentRecorded? {
      AllAddedHas(b.providers, e.fragment);
      AllUpdatedHas(b.providers, e.fragment);
      assert forall i: nat | i < |b.providers| ::
          ChangedBy(b.providers, i, e.fragment) <==>
            e.fragment in b.providers[i].diff.added || e.fragment in b.providers[i].diff.updated;
    }
    if e.FragmentRemoved? {
      AllRemovedHas(b.providers, Removal(e.provider, e.removed));
      assert forall i: nat | i < |b.providers| ::
          RemovedBy(b.providers, i, e.provider, e.removed) <==>
            e.provider == b.providers[i].key && e.removed in b.providers[i].diff.removed;
    }
  }

  /** Every changed fragment is logged under the provider that rendered it. */
  predicate Attributed(b: BuildResult) {
    forall i: nat, f | i < |b.providers| && f in b.providers[i].diff.added + b.providers[i].diff.updated ::
      Holder(b.providers, f.key) == b.providers[i].key
  }

  lemma {:induction false} NextRecordsAt(records: Records, results: seq<ProviderResult>, i: nat)
    requires DistinctProviders(results) && i < |results|
    requires results[i].skipped ==> results[i].key in records && records[results[i].key] == results[i].record
    ensures results[i].key in NextRecords(records, results) &&
            NextRecords(records, results)[results[i].key] == results[i].record
  {
    var init, last := results[..|results| - 1], results[|results| - 1];
    if i < |results| - 1 {
      NextRecordsAt(records, init, i);
    } else if last.skipped {
      NextRecordsElse(records, init, last.key);
    }
  }

  lemma {:induction false} NextRecordsElse(records: Records, results: seq<ProviderResult>, p: ProviderKey)
    requires forall i | 0 <= i < |results| :: results[i].key != p
    ensures p in NextRecords(records, results) <==> p in records
    ensures p in records ==> NextRecords(records, results)[p] == records[p]
  {
    if results != [] { NextRecordsElse(records, results[..|results| - 1], p); }
  }

  /** One render: who was asked, what they answered, and what came of it. */
  datatype Render = Render(providers: seq<Provider>, answers: seq<Answer>, result: BuildResult)

  ghost predicate RendersOn(hash: string -> string, records: Records, r: Render) {
    && |r.providers| == |r.answers| && IsRender(hash, r.providers, records, r.answers, r.result)
    && DistinctProviders(r.result.providers)
  }

  function After(records: Records, r: Render): Records {
    NextRecords(records, r.result.providers)
  }

  lemma LiveAfter(hash: string -> string, records: Records, r: Render, i: nat, k: FragmentKey)
    requires RendersOn(hash, records, r) && i < |r.providers|
    ensures IsResult(hash, r.providers[i], records, r.answers[i], r.result.providers[i])
    ensures Live(After(records, r), r.providers[i].key, k) == LiveIn(r.result.providers[i].record.fragments, k)
  {
    assert IsResult(hash, r.providers[i], records, r.answers[i], r.result.providers[i]);
    NextRecordsAt(records, r.result.providers, i);
  }

  /** A correctly attributed event writes what the provider now shows. */
  lemma WritesAgree(hash: string -> string, records: Records, r: Render, e: RenderEvent, p: ProviderKey, k: FragmentKey)
    requires RendersOn(hash, records, r) && Attributed(r.result) && e in FragmentEvents(r.result) && Writes(e, p, k)
    ensures Written(hash, e) == Live(After(records, r), p, k)
  {
    var results := r.result.providers;
    EventsHave(r.result, e);
    if e.FragmentRecorded? {
      var i: nat :| i < |results| && ChangedBy(results, i, e.fragment);
      assert e.fragment in results[i].diff.added + results[i].diff.updated;
      LiveAfter(hash, records, r, i, k);
      ChangedShows(hash, r.providers[i], records, r.answers[i], results[i], e.fragment);
    } else {
      var i: nat :| i < |results| && RemovedBy(results, i, e.provider, e.removed);
      LiveAfter(hash, records, r, i, k);
      RemovedHides(hash, r.providers[i], records, r.answers[i], results[i], e.removed);
    }
  }

  lemma IndexOfProvider(results: seq<ProviderResult>, p: ProviderKey) returns (i: nat)
    ensures i <= |results|
    ensures if i < |results| then results[i].key == p else forall j | 0 <= j < |results| :: results[j].key != p
  {
    i := 0;
    while i < |results| && results[i].key != p
      invariant i <= |results| && forall j | 0 <= j < i :: results[j].key != p
    {
      i := i + 1;
    }
  }

  /**
   Whatever any render changes is written with its new state: a removal under its provider, a change under the
   first provider that mentions the key.
   */
  lemma ChangesWritten(hash: string -> string, records: Records, r: Render, p: ProviderKey, k: FragmentKey)
    returns (e: RenderEvent)
    requires RendersOn(hash, records, r) && Live(After(records, r), p, k) != Live(records, p, k)
    ensures e in FragmentEvents(r.result) && Written(hash, e) == Live(After(records, r), p, k)
    ensures Writes(e, if Live(After(records, r), p, k).Some? then Holder(r.result.providers, k) else p, k)
    ensures Attributed(r.result) ==> Writes(e, p, k)
  {
    var results := r.result.providers;
    var i := IndexOfProvider(results, p);
    if i == |results| {
      NextRecordsElse(records, results, p);
      assert false;
    }
    LiveAfter(hash, records, r, i, k);
    ChangeIsListed(hash, r.providers[i], records, r.answers[i], results[i], k);
    if f :| ChangedIn(results[i], f) && f.key == k {
      ChangedShows(hash, r.providers[i], records, r.answers[i], results[i], f);
      assert f in results[i].diff.added + results[i].diff.updated;
      e := FragmentRecorded(Holder(results, k), f);
      assert ChangedBy(results, i, f);
      EventsHave(r.result, e);
    } else {
      var x :| x in results[i].diff.removed && x.key == k;
      RemovedHides(hash, r.providers[i], records, r.answers[i], results[i], x);
      e := FragmentRemoved(p, x);
      assert RemovedBy(results, i, p, x);
      EventsHave(r.result, e);
    }
  }

  /** A fragment logged under another provider is never written for its own. */
  lemma MisattributedUnwritten(hash: string -> string, records: Records, r: Render, i: nat, f: Fragment, e: RenderEvent)
    requires RendersOn(hash, records, r) && i < |r.providers| && ChangedIn(r.result.providers[i], f)
    requires Holder(r.result.providers, f.key) != r.result.providers[i].key && e in FragmentEvents(r.result)
    ensures !Writes(e, r.result.providers[i].key, f.key)
  {
    var results := r.result.providers;
    EventsHave(r.result, e);
    if e.FragmentRemoved? && e.provider == results[i].key {
      var j: nat :| j < |results| && RemovedBy(results, j, e.provider, e.removed);
      assert j == i;
      LiveAfter(hash, records, r, i, f.key);
      ChangedShows(hash, r.providers[i], records, r.answers[i], results[i], f);
    }
  }

  /**
   Replaying the fragment events of a render on top of a state that shows what the manager showed before it gives
   what the manager shows after it exactly when every changed fragment is attributed to its own provider.
   */
  lemma ReplayExactlyWhen(hash: string -> string, records: Records, r: Render, replayed: Records)
    requires RendersOn(hash, records, r) && SameLive(replayed, records)
    ensures SameLive(Fold(hash, replayed, FragmentEvents(r.result)), After(records, r)) <==> Attributed(r.result)
  {
    var events, next, results := FragmentEvents(r.result), After(records, r), r.result.providers;
    if Attributed(r.result) {
      forall p, k ensures Live(Fold(hash, replayed, events), p, k) == Live(next, p, k) {
        forall e | e in events && Writes(e, p, k) ensures Written(hash, e) == Live(next, p, k) {
          WritesAgree(hash, records, r, e, p, k);
        }
        if Live(next, p, k) != Live(records, p, k) { var e := ChangesWritten(hash, records, r, p, k); }
        WrittenAlike(hash, replayed, events, p, k, Live(next, p, k));
      }
    } else {
      var i: nat, f :| i < |results| && f in results[i].diff.added + results[i].diff.updated &&
        Holder(results, f.key) != results[i].key;
      var p, k := results[i].key, f.key;
      forall e | e in events ensures !Writes(e, p, k) {
        MisattributedUnwritten(hash, records, r, i, f, e);
      }
      Unwritten(hash, replayed, events, p, k);
      LiveAfter(hash, records, r, i, k);
      ChangedShows(hash, r.providers[i], records, r.answers[i], results[i], f);
    }
  }
}
