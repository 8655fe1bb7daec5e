/** Whole runs of committed renders, and what resuming makes of their log. */
module ContextRuns {
  import opened Sequences
  import opened KeyOrder
  import opened ContextRecords
  import opened ContextPrepare
  import opened ContextReplay
  import opened ContextAttribution

  function RecordsAfter(start: Records, renders: seq<Render>): Records {
    if renders == [] then start else After(RecordsAfter(start, renders[..|renders| - 1]), renders[|renders| - 1])
  }

  /** Each render was prepared on the records the one before it left. */
  ghost predicate RunOn(hash: string -> string, start: Records, renders: seq<Render>) {
    renders == [] ||
    (var init, last := renders[..|renders| - 1], renders[|renders| - 1];
     RunOn(hash, start, init) && RendersOn(hash, RecordsAfter(start, init), last))
  }

  function Log(start: Records, renders: seq<Render>): seq<RenderEvent> {
    if renders == [] then []
    else Log(start, renders[..|renders| - 1]) + EventsOf(renders[|renders| - 1].result, RecordsAfter(start, renders))
  }

  lemma {:induction false} FoldConcat(hash: string -> string, records: Records, a: seq<RenderEvent>,
                                      b: seq<RenderEvent>)
    ensures Fold(hash, records, a + b) == Fold(hash, Fold(hash, records, a), b)
  {
    if b == [] {
      assert a + b == a;
    } else {
      FoldConcat(hash, records, a, b[..|b| - 1]);
      assert (a + b)[..|a + b| - 1] == a + b[..|b| - 1];
    }
  }

  lemma FoldSilent(hash: string -> string, records: Records, next: Records)
    ensures Fold(hash, records, [SnapshotRecorded, RenderCommitted(next)]) == records
  {
    var s := [SnapshotRecorded, RenderCommitted(next)];
    assert s[..1] == [SnapshotRecorded];
    assert Fold(hash, records, [SnapshotRecorded]) == records;
  }

  /** The fold over the fragment events alone, never looking at a snapshot. */
  ghost function Folded(hash: string -> string, renders: seq<Render>): Records {
    Fold(hash, map[], Log(map[], renders))
  }

  lemma FoldedSnoc(hash: string -> string, renders: seq<Render>)
    requires renders != []
    ensures Folded(hash, renders) ==
            Fold(hash, Folded(hash, renders[..|renders| - 1]), FragmentEvents(renders[|renders| - 1].result))
  {
    var init, last, next := renders[..|renders| - 1], renders[|renders| - 1], RecordsAfter(map[], renders);
    FoldConcat(hash, map[], Log(map[], init), EventsOf(last.result, next));
    FoldConcat(hash, Folded(hash, init), FragmentEvents(last.result), [SnapshotRecorded, RenderCommitted(next)]);
    FoldSilent(hash, Fold(hash, Folded(hash, init), FragmentEvents(last.result)), next);
  }

  /** After every render so far, the fold shows what the manager shows. */
  ghost predicate InStepThroughout(hash: string -> string, renders: seq<Render>) {
    renders == [] ||
    (InStepThroughout(hash, renders[..|renders| - 1]) && SameLive(Folded(hash, renders), RecordsAfter(map[], renders)))
  }

  predicate AllAttributed(renders: seq<Render>) {
    renders == [] || (AllAttributed(renders[..|renders| - 1]) && Attributed(renders[|renders| - 1].result))
  }

  /**
   Fragment events alone reproduce the manager's state at every point of a run exactly when every render is correctly
   attributed.
   */
  lemma {:induction false} FoldExactlyWhen(hash: string -> string, renders: seq<Render>)
    requires RunOn(hash, map[], renders)
    ensures InStepThroughout(hash, renders) <==> AllAttributed(renders)
  {
    if renders != [] {
      var init := renders[..|renders| - 1];
      FoldExactlyWhen(hash, init);
      FoldedSnoc(hash, renders);
      if InStepThroughout(hash, init) {
        ReplayExactlyWhen(hash, RecordsAfter(map[], init), renders[|renders| - 1], Folded(hash, init));
      }
    }
  }

  // ---------------------------------------------------------------- a sufficient condition, and a key that moves

  /** No two providers mention the same key. */
  predicate OwnKeys(results: seq<ProviderResult>) {
    forall i, j, k | 0 <= i < j < |results| && k in results[i].record.fragments :: k !in results[j].record.fragments
  }

  lemma {:induction false} HolderIs(results: seq<ProviderResult>, k: FragmentKey, i: nat)
    requires OwnKeys(results) && i < |results| && k in results[i].record.fragments
    ensures Holder(results, k) == results[i].key
  {
    if i != 0 {
      assert k !in results[0].record.fragments;
      assert forall j | 0 <= j < |results| - 1 :: results[1..][j] == results[j + 1];
      HolderIs(results[1..], k, i - 1);
    }
  }

  lemma OwnKeysAttributed(hash: string -> string, records: Records, r: Render)
    requires RendersOn(hash, records, r) && OwnKeys(r.result.providers)
    ensures Attributed(r.result)
  {
    forall i: nat, f | i < |r.providers| && f in r.result.providers[i].diff.added + r.result.providers[i].diff.updated
      ensures Holder(r.result.providers, f.key) == r.result.providers[i].key
    {
      LiveAfter(hash, records, r, i, f.key);
      ChangedShows(hash, r.providers[i], records, r.answers[i], r.result.providers[i], f);
      HolderIs(r.result.providers, f.key, i);
    }
  }

  /** If in every render each key belongs to one provider, fragment events alone always reproduce the state. */
  lemma {:induction false} OwnKeysFold(hash: string -> string, renders: seq<Render>)
    requires RunOn(hash, map[], renders) && forall r | r in renders :: OwnKeys(r.result.providers)
    ensures AllAttributed(renders) && InStepThroughout(hash, renders)
  {
    if renders != [] {
      var init, last := renders[..|renders| - 1], renders[|renders| - 1];
      assert last in renders && forall r | r in init :: r in renders;
      OwnKeysFold(hash, init);
      OwnKeysAttributed(hash, RecordsAfter(map[], init), last);
    }
    FoldExactlyWhen(hash, renders);
  }

  lemma OneInOrder(f: Fragment)
    ensures ByKey([f]) == map[f.key := f] && InOrder(map[f.key := f]) == [f] && InOrder(map[]) == []
  {
    assert ByKey([f]) == ByKey([])[f.key := f];
    assert map[f.key := f].Keys == {f.key};
    AscendingUnique(Sorted({f.key}), [f.key]);
  }

  const Moving := Fragment("k", "text", "1")

  /** A provider that shows nothing, then or now. */
  lemma Silent(hash: string -> string, key: ProviderKey, records: Records) returns (r: ProviderResult)
    requires key !in records
    ensures IsResult(hash, Provider(key, false), records, Answer(Ok(None), Ok(Rendering([], "none"))), r)
    ensures r.record == Record("none", map[]) && r.diff == NoDiff && !r.skipped
  {
    OneInOrder(Moving);
    r := ProviderResult(key, false, NoDiff, NextRecord(hash, map[], Rendering([], "none")));
  }

  lemma ChangedOne(hash: string -> string, before: RenderedMap, f: Fragment, change: Change)
    ensures Changed(hash, before, [f], change) == if ChangeOf(hash, before, f) == change then [Stamp(hash, f)] else []
  {
    assert [f][..0] == [];
  }

  /** A provider that shows the fragment for the first time. */
  lemma Appears(hash: string -> string, key: ProviderKey, records: Records) returns (r: ProviderResult)
    requires FragmentsOf(records, key) == map[]
    ensures IsResult(hash, Provider(key, false), records, Answer(Ok(None), Ok(Rendering([Moving], "one"))), r)
    ensures r.record == Record("one", map["k" := Active(Moving)]) && r.diff == Diff([Moving], [], [], []) &&
            r.key == key && !r.skipped
  {
    OneInOrder(Moving);
    ChangedOne(hash, map[], Moving, Added);
    ChangedOne(hash, map[], Moving, Updated);
    ChangedOne(hash, map[], Moving, Unchanged);
    r := ProviderResult(key, false, Diff([Moving], [], [], []), NextRecord(hash, map[], Rendering([Moving], "one")));
  }

  /** A provider that no longer shows it. */
  lemma Disappears(hash: string -> string, key: ProviderKey, records: Records) returns (r: ProviderResult)
    requires FragmentsOf(records, key) == map["k" := Active(Moving)]
    ensures IsResult(hash, Provider(key, false), records, Answer(Ok(None), Ok(Rendering([], "none"))), r)
    ensures r.record == Record("none", map["k" := Tombstone("1")]) && r.diff.added == r.diff.updated == [] &&
            r.key == key && !r.skipped
  {
    OneInOrder(Moving);
    r := ProviderResult(key, false, Diff([], [], [], [RemovedFragment("k", "1")]),
                        NextRecord(hash, map["k" := Active(Moving)], Rendering([], "none")));
  }

  /** Both providers render. */
  ghost function Both(a: Answer, b: Answer, ra: ProviderResult, rb: ProviderResult): (r: Render)
    ensures r.providers == [Provider("a", false), Provider("b", false)] && r.answers == [a, b] &&
            r.result.providers == [ra, rb]
    ensures Gathers(r.result)
  {
    var s := [ra, rb];
    Render([Provider("a", false), Provider("b", false)], [a, b],
           BuildResult(s, AllAdded(s), AllUpdated(s), AllRemoved(s), AllActive(s)))
  }

  const Shows := Answer(Ok(None), Ok(Rendering([Moving], "one")))
  const Hides := Answer(Ok(None), Ok(Rendering([], "none")))

  lemma BothRender(hash: string -> string, records: Records, a: Answer, b: Answer, ra: ProviderResult,
                   rb: ProviderResult)
    requires IsResult(hash, Provider("a", false), records, a, ra) &&
             IsResult(hash, Provider("b", false), records, b, rb)
    ensures RendersOn(hash, records, Both(a, b, ra, rb))
  {
    var r := Both(a, b, ra, rb);
    assert RendersFirst(hash, r.providers, records, r.answers, r.result, 2);
  }

  lemma BothAfter(a: Answer, b: Answer, ra: ProviderResult, rb: ProviderResult)
    requires ra.key == "a" && rb.key == "b" && !ra.skipped && !rb.skipped
    ensures FragmentsOf(After(map[], Both(a, b, ra, rb)), "a") == ra.record.fragments
    ensures FragmentsOf(After(map[], Both(a, b, ra, rb)), "b") == rb.record.fragments
  {
    NextRecordsAt(map[], [ra, rb], 0);
    NextRecordsAt(map[], [ra, rb], 1);
  }

  lemma FirstRender(hash: string -> string) returns (r: Render)
    ensures RendersOn(hash, map[], r)
    ensures FragmentsOf(After(map[], r), "a") == map["k" := Active(Moving)] &&
            FragmentsOf(After(map[], r), "b") == map[]
  {
    var a := Appears(hash, "a", map[]);
    var b := Silent(hash, "b", map[]);
    r := Both(Shows, Hides, a, b);
    BothRender(hash, map[], Shows, Hides, a, b);
    BothAfter(Shows, Hides, a, b);
  }

  lemma SecondRender(hash: string -> string, records: Records) returns (r: Render)
    requires FragmentsOf(records, "a") == map["k" := Active(Moving)] && FragmentsOf(records, "b") == map[]
    ensures RendersOn(hash, records, r) && !Attributed(r.result)
  {
    var a := Disappears(hash, "a", records);
    var b := Appears(hash, "b", records);
    r := Both(Hides, Shows, a, b);
    BothRender(hash, records, Hides, Shows, a, b);
    LoggedUnderFirst(r.result, a, b);
  }

  lemma LoggedUnderFirst(r: BuildResult, a: ProviderResult, b: ProviderResult)
    requires r.providers == [a, b] && a.key == "a" && b.key == "b" && "k" in a.record.fragments &&
             Moving in b.diff.added
    ensures !Attributed(r)
  {
    assert Moving in r.providers[1].diff.added + r.providers[1].diff.updated && Holder(r.providers, "k") == "a";
  }

  lemma RunOfTwo(hash: string -> string, first: Render, second: Render)
    requires RendersOn(hash, map[], first) && RendersOn(hash, After(map[], first), second)
    ensures RunOn(hash, map[], [first, second])
  {
    assert [first, second][..1] == [first] && [first][..0] == [];
    assert RecordsAfter(map[], [first]) == After(map[], first);
    assert RunOn(hash, map[], [first]);
  }

  /**
   Provider "a" shows a fragment, then "b" shows it instead: the second render logs it under "a", and the fold never
   shows it under "b".
   */
  lemma MovedKeyIsLost(hash: string -> string) returns (renders: seq<Render>)
    ensures RunOn(hash, map[], renders) && !AllAttributed(renders) && !InStepThroughout(hash, renders)
  {
    var first := FirstRender(hash);
    var second := SecondRender(hash, After(map[], first));
    RunOfTwo(hash, first, second);
    renders := [first, second];
    FoldExactlyWhen(hash, renders);
  }
}
