/**
 The fingerprint fast path of a whole manager (agentcontext/manager.go, `Prepare`): against a manager that renders every
 provider every time, it shows the same fragments and reports the same changes throughout a run, exactly as long as
 every skipped provider would have shown what is recorded for it.
 */
module ContextFastPath {
  import opened Sequences
  import opened ContextRecords
  import opened ContextPrepare
  import opened ContextReplay
  import opened ContextAttribution
  import opened ContextShortcut
  import opened ContextRuns

  function Slowed(p: Provider): Provider { p.(fast := false) }

  /** The same request, answered the same way, with and without the fast path. */
  ghost predicate Twins(fast: Render, slow: Render) {
    slow.providers == Map(Slowed, fast.providers) && slow.answers == fast.answers
  }

  /** If the provider is skipped, it would have shown what is recorded. */
  ghost predicate HonestSkip(hash: string -> string, p: Provider, records: Records, a: Answer) {
    Skips(p, records, a) && a.rendering.Ok? ==>
      ShowsSame(hash, records[p.key], ByKey(a.rendering.value.fragments))
  }

  ghost predicate Honest(hash: string -> string, records: Records, r: Render) {
    |r.providers| == |r.answers| &&
    forall i | 0 <= i < |r.providers| :: HonestSkip(hash, r.providers[i], records, r.answers[i])
  }

  // ---------------------------------------------------------------- one provider

  ghost predicate SameShown(a: RenderedMap, b: RenderedMap) {
    forall k :: LiveIn(a, k) == LiveIn(b, k)
  }

  ghost predicate SameElements<T(!new)>(a: seq<T>, b: seq<T>) {
    forall x :: x in a <==> x in b
  }

  /** The same changes; fragments that go are listed in no particular order. */
  ghost predicate SameDiff(a: Diff, b: Diff) {
    a.added == b.added && a.updated == b.updated && SameElements(a.removed, b.removed)
  }

  lemma {:induction false} ChangedSame(hash: string -> string, a: RenderedMap, b: RenderedMap, fs: seq<Fragment>,
                                       change: Change)
    requires SameShown(a, b)
    ensures Changed(hash, a, fs, change) == Changed(hash, b, fs, change)
  {
    if fs != [] {
      ChangedSame(hash, a, b, fs[..|fs| - 1], change);
      assert LiveIn(a, fs[|fs| - 1].key) == LiveIn(b, fs[|fs| - 1].key);
    }
  }

  lemma RemovedIn(a: RenderedMap, shown: Fragments, removed: seq<RemovedFragment>, x: RemovedFragment)
    requires RemovedFrom(a, shown, removed)
    ensures x in removed <==> LiveIn(a, x.key) == Some(x.last) && x.key !in shown
  {
  }

  lemma DiffSame(hash: string -> string, a: RenderedMap, b: RenderedMap, shown: Fragments, x: Diff, y: Diff)
    requires SameShown(a, b) && IsDiff(hash, a, shown, x) && IsDiff(hash, b, shown, y)
    ensures SameDiff(x, y)
  {
    ChangedSame(hash, a, b, InOrder(shown), Added);
    ChangedSame(hash, a, b, InOrder(shown), Updated);
    forall r ensures r in x.removed <==> r in y.removed {
      RemovedIn(a, shown, x.removed, r);
      RemovedIn(b, shown, y.removed, r);
      assert LiveIn(a, r.key) == LiveIn(b, r.key);
    }
  }

  lemma SameFragments(f: Records, s: Records, p: ProviderKey)
    requires SameLive(f, s)
    ensures SameShown(FragmentsOf(f, p), FragmentsOf(s, p))
  {
    forall k ensures LiveIn(FragmentsOf(f, p), k) == LiveIn(FragmentsOf(s, p), k) {
      assert Live(f, p, k) == Live(s, p, k);
    }
  }

  /** A provider that is rendered either way. */
  lemma TwinRendered(hash: string -> string, f: Records, s: Records, p: Provider, a: Answer, rf: ProviderResult,
                     rs: ProviderResult)
    requires SameLive(f, s) && IsResult(hash, p, f, a, rf) && IsResult(hash, Slowed(p), s, a, rs) && !rf.skipped
    ensures SameDiff(rf.diff, rs.diff) && SameShown(rf.record.fragments, rs.record.fragments)
  {
    SameFragments(f, s, p.key);
    DiffSame(hash, FragmentsOf(f, p.key), FragmentsOf(s, p.key), ByKey(a.rendering.value.fragments), rf.diff, rs.diff);
    forall k ensures LiveIn(rf.record.fragments, k) == LiveIn(rs.record.fragments, k) {
      RecordShows(hash, FragmentsOf(f, p.key), a.rendering.value, k);
      RecordShows(hash, FragmentsOf(s, p.key), a.rendering.value, k);
    }
  }

  /**
   A provider that is skipped: rendering it shows the same exactly when the skip is honest, and then changes nothing.
   */
  lemma TwinSkipped(hash: string -> string, f: Records, s: Records, p: Provider, a: Answer, rf: ProviderResult,
                    rs: ProviderResult)
    requires SameLive(f, s) && IsResult(hash, p, f, a, rf) && IsResult(hash, Slowed(p), s, a, rs) && rf.skipped
    ensures SameShown(rf.record.fragments, rs.record.fragments) <==> HonestSkip(hash, p, f, a)
    ensures HonestSkip(hash, p, f, a) ==> SameDiff(rf.diff, rs.diff)
  {
    var shown, before := ByKey(a.rendering.value.fragments), Record("", FragmentsOf(s, p.key));
    SameFragments(f, s, p.key);
    forall k ensures LiveIn(rs.record.fragments, k) == PrintIn(hash, shown, k) {
      RecordShows(hash, FragmentsOf(s, p.key), a.rendering.value, k);
    }
    SkipExactlyWhen(hash, before, a.rendering.value, rs.diff);
    if HonestSkip(hash, p, f, a) {
      forall k ensures PrintIn(hash, shown, k) == LiveIn(before.fragments, k) {
        assert PrintIn(hash, shown, k) == LiveIn(f[p.key].fragments, k);
      }
    }
  }

  lemma TwinResult(hash: string -> string, f: Records, s: Records, p: Provider, a: Answer, rf: ProviderResult,
                   rs: ProviderResult)
    requires SameLive(f, s) && IsResult(hash, p, f, a, rf) && IsResult(hash, Slowed(p), s, a, rs)
    ensures SameShown(rf.record.fragments, rs.record.fragments) <==> HonestSkip(hash, p, f, a)
    ensures HonestSkip(hash, p, f, a) ==> SameDiff(rf.diff, rs.diff)
  {
    if rf.skipped {
      TwinSkipped(hash, f, s, p, a, rf, rs);
    } else {
      TwinRendered(hash, f, s, p, a, rf, rs);
    }
  }

  // ---------------------------------------------------------------- one render

  /** The same fragments added and updated, in the same order, and the same ones removed. */
  ghost predicate SameReport(a: BuildResult, b: BuildResult) {
    a.added == b.added && a.updated == b.updated && SameElements(a.removed, b.removed)
  }

  ghost predicate SameResults(rf: seq<ProviderResult>, rs: seq<ProviderResult>) {
    |rf| == |rs| && forall i | 0 <= i < |rf| :: rf[i].key == rs[i].key && SameDiff(rf[i].diff, rs[i].diff)
  }

  lemma {:induction false} AllSame(rf: seq<ProviderResult>, rs: seq<ProviderResult>)
    requires SameResults(rf, rs)
    ensures AllAdded(rf) == AllAdded(rs) && AllUpdated(rf) == AllUpdated(rs)
  {
    if rf != [] { AllSame(rf[..|rf| - 1], rs[..|rs| - 1]); }
  }

  lemma RemovedSame(rf: seq<ProviderResult>, rs: seq<ProviderResult>, x: Removal)
    requires SameResults(rf, rs) && x in AllRemoved(rf)
    ensures x in AllRemoved(rs)
  {
    AllRemovedHas(rf, x);
    AllRemovedHas(rs, x);
    var i :| 0 <= i < |rf| && x.provider == rf[i].key && x.fragment in rf[i].diff.removed;
    assert x.fragment in rs[i].diff.removed;
  }

  lemma SameResultsReport(a: BuildResult, b: BuildResult)
    requires Gathers(a) && Gathers(b) && SameResults(a.providers, b.providers)
    ensures SameReport(a, b)
  {
    AllSame(a.providers, b.providers);
    forall x ensures x in a.removed <==> x in b.removed {
      if x in a.removed { RemovedSame(a.providers, b.providers, x); }
      if x in b.removed { RemovedSame(b.providers, a.providers, x); }
    }
  }

  lemma TwinAt(hash: string -> string, f: Records, fast: Render, s: Records, slow: Render, i: nat)
    requires SameLive(f, s) && RendersOn(hash, f, fast) && RendersOn(hash, s, slow) && Twins(fast, slow)
    requires i < |fast.providers|
    ensures i < |fast.result.providers| == |slow.result.providers|
    ensures var rf, rs := fast.result.providers[i], slow.result.providers[i];
            && rf.key == rs.key == fast.providers[i].key
            && (SameShown(rf.record.fragments, rs.record.fragments) <==>
                HonestSkip(hash, fast.providers[i], f, fast.answers[i]))
            && (HonestSkip(hash, fast.providers[i], f, fast.answers[i]) ==> SameDiff(rf.diff, rs.diff))
  {
    assert slow.providers[i] == Slowed(fast.providers[i]);
    TwinResult(hash, f, s, fast.providers[i], fast.answers[i], fast.result.providers[i], slow.result.providers[i]);
  }

  lemma LiveSame(hash: string -> string, f: Records, fast: Render, s: Records, slow: Render, p: ProviderKey,
                 k: FragmentKey)
    requires SameLive(f, s) && RendersOn(hash, f, fast) && RendersOn(hash, s, slow) && Twins(fast, slow)
    requires Honest(hash, f, fast)
    ensures Live(After(f, fast), p, k) == Live(After(s, slow), p, k)
  {
    var i := IndexOfProvider(fast.result.providers, p);
    if i < |fast.result.providers| {
      TwinAt(hash, f, fast, s, slow, i);
      LiveAfter(hash, f, fast, i, k);
      LiveAfter(hash, s, slow, i, k);
      assert HonestSkip(hash, fast.providers[i], f, fast.answers[i]);
    } else {
      forall j | 0 <= j < |slow.result.providers| ensures slow.result.providers[j].key != p {
        TwinAt(hash, f, fast, s, slow, j);
      }
      NextRecordsElse(f, fast.result.providers, p);
      NextRecordsElse(s, slow.result.providers, p);
      assert Live(f, p, k) == Live(s, p, k);
    }
  }

  lemma HonestFrom(hash: string -> string, f: Records, fast: Render, s: Records, slow: Render, i: nat)
    requires SameLive(f, s) && RendersOn(hash, f, fast) && RendersOn(hash, s, slow) && Twins(fast, slow)
    requires SameLive(After(f, fast), After(s, slow)) && i < |fast.providers|
    ensures HonestSkip(hash, fast.providers[i], f, fast.answers[i])
  {
    TwinAt(hash, f, fast, s, slow, i);
    forall k
      ensures LiveIn(fast.result.providers[i].record.fragments, k) ==
      LiveIn(slow.result.providers[i].record.fragments, k)
    {
      LiveAfter(hash, f, fast, i, k);
      LiveAfter(hash, s, slow, i, k);
      assert Live(After(f, fast), fast.providers[i].key, k) == Live(After(s, slow), fast.providers[i].key, k);
    }
  }

  /** One render from records that show the same: they do so afterwards exactly when every skip was honest. */
  lemma TwinStep(hash: string -> string, f: Records, fast: Render, s: Records, slow: Render)
    requires SameLive(f, s) && RendersOn(hash, f, fast) && RendersOn(hash, s, slow) && Twins(fast, slow)
    ensures SameLive(After(f, fast), After(s, slow)) <==> Honest(hash, f, fast)
    ensures Honest(hash, f, fast) ==> SameReport(fast.result, slow.result)
  {
    if SameLive(After(f, fast), After(s, slow)) {
      forall i | 0 <= i < |fast.providers| ensures HonestSkip(hash, fast.providers[i], f, fast.answers[i]) {
        HonestFrom(hash, f, fast, s, slow, i);
      }
    }
    if Honest(hash, f, fast) {
      forall p, k ensures Live(After(f, fast), p, k) == Live(After(s, slow), p, k) {
        LiveSame(hash, f, fast, s, slow, p, k);
      }
      forall i | 0 <= i < |fast.result.providers|
        ensures i < |slow.result.providers| && fast.result.providers[i].key == slow.result.providers[i].key
                && SameDiff(fast.result.providers[i].diff, slow.result.providers[i].diff)
      {
        TwinAt(hash, f, fast, s, slow, i);
        assert HonestSkip(hash, fast.providers[i], f, fast.answers[i]);
      }
      SameResultsReport(fast.result, slow.result);
    }
  }

  // ---------------------------------------------------------------- whole runs

  /** The same requests, one manager with the fast path and one without. */
  ghost predicate TwinRuns(hash: string -> string, fast: seq<Render>, slow: seq<Render>) {
    |fast| == |slow| && RunOn(hash, map[], fast) && RunOn(hash, map[], slow)
    && forall i | 0 <= i < |fast| :: Twins(fast[i], slow[i])
  }

  lemma TwinRunsInit(hash: string -> string, fast: seq<Render>, slow: seq<Render>)
    requires TwinRuns(hash, fast, slow) && fast != []
    ensures TwinRuns(hash, fast[..|fast| - 1], slow[..|slow| - 1])
  {}

  /** After every render both managers show the same fragments. */
  ghost predicate ShowAlikeThroughout(fast: seq<Render>, slow: seq<Render>)
    requires |fast| == |slow|
  {
    fast == [] ||
    (ShowAlikeThroughout(fast[..|fast| - 1], slow[..|slow| - 1]) &&
     SameLive(RecordsAfter(map[], fast), RecordsAfter(map[], slow)))
  }

  /** Every render reported the same changes. */
  ghost predicate ReportAlikeThroughout(fast: seq<Render>, slow: seq<Render>)
    requires |fast| == |slow|
  {
    fast == [] ||
    (ReportAlikeThroughout(fast[..|fast| - 1], slow[..|slow| - 1]) &&
     SameReport(fast[|fast| - 1].result, slow[|slow| - 1].result))
  }

  ghost predicate AllHonest(hash: string -> string, fast: seq<Render>) {
    fast == [] ||
    (AllHonest(hash, fast[..|fast| - 1]) &&
     Honest(hash, RecordsAfter(map[], fast[..|fast| - 1]), fast[|fast| - 1]))
  }

  /**
   A manager with the fast path and one without show the same fragments after every render of a run exactly when every
   skip was honest, and then every render reports the same fragments added, updated and removed.
   */
  lemma {:induction false} FastPathExactlyWhen(hash: string -> string, fast: seq<Render>, slow: seq<Render>)
    requires TwinRuns(hash, fast, slow)
    ensures ShowAlikeThroughout(fast, slow) <==> AllHonest(hash, fast)
    ensures AllHonest(hash, fast) ==> ReportAlikeThroughout(fast, slow)
  {
    if fast != [] {
      var f, s := fast[..|fast| - 1], slow[..|slow| - 1];
      TwinRunsInit(hash, fast, slow);
      FastPathExactlyWhen(hash, f, s);
      if ShowAlikeThroughout(f, s) {
        TwinStep(hash, RecordsAfter(map[], f), fast[|fast| - 1], RecordsAfter(map[], s), slow[|slow| - 1]);
      }
    }
  }
}
