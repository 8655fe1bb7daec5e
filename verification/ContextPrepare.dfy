/** One render over all providers (agentcontext/manager.go, `Prepare`), and when the fingerprint shortcut is exact. */
module ContextPrepare {
  import opened Sequences
  import opened ContextRecords

  /** `fast` says whether the provider can report a fingerprint without rendering. */
  datatype Provider = Provider(key: ProviderKey, fast: bool)

  /** What a provider would answer to this request: its state fingerprint if it is sure of one, and its rendering. */
  datatype Answer = Answer(state: Result<Option<string>>, rendering: Result<Rendering>)

  type Records = map<ProviderKey, Record>

  datatype ProviderResult = ProviderResult(key: ProviderKey, skipped: bool, diff: Diff, record: Record)

  datatype Removal = Removal(provider: ProviderKey, fragment: RemovedFragment)

  datatype BuildResult = BuildResult(providers: seq<ProviderResult>, added: seq<Fragment>, updated: seq<Fragment>,
                                     removed: seq<Removal>, active: seq<Fragment>)

  const NoDiff := Diff([], [], [], [])

  function FragmentsOf(records: Records, p: ProviderKey): RenderedMap {
    if p in records then records[p].fragments else map[]
  }

  /** The shortcut: a sure, non-empty state fingerprint equal to the one recorded. */
  predicate Skips(p: Provider, records: Records, a: Answer) {
    && p.fast && p.key in records
    && a.state.Ok? && a.state.value.Some? && a.state.value.value != "" &&
       a.state.value.value == records[p.key].fingerprint
  }

  predicate Fails(p: Provider, records: Records, a: Answer) {
    || (p.fast && p.key in records && a.state.Err?)
    || (!Skips(p, records, a) && (a.rendering.Err? || !WellKeyed(a.rendering.value.fragments)))
  }

  /** What rendering provider `p` on top of `records` yields. */
  ghost predicate IsResult(hash: string -> string, p: Provider, records: Records, a: Answer, r: ProviderResult) {
    && !Fails(p, records, a) && r.key == p.key && r.skipped == Skips(p, records, a)
    && (if r.skipped then r.record == records[p.key] && r.diff == NoDiff
        else
          && r.record == NextRecord(hash, FragmentsOf(records, p.key), a.rendering.value)
          && IsDiff(hash, FragmentsOf(records, p.key), ByKey(a.rendering.value.fragments), r.diff))
  }

  function NextRecords(records: Records, results: seq<ProviderResult>): Records {
    if results == [] then records
    else
      var last := results[|results| - 1];
      var rest := NextRecords(records, results[..|results| - 1]);
      if last.skipped then rest else rest[last.key := last.record]
  }

  function AllAdded(results: seq<ProviderResult>): seq<Fragment> {
    if results == [] then [] else AllAdded(results[..|results| - 1]) + results[|results| - 1].diff.added
  }

  function AllUpdated(results: seq<ProviderResult>): seq<Fragment> {
    if results == [] then [] else AllUpdated(results[..|results| - 1]) + results[|results| - 1].diff.updated
  }

  function RemovalsOf(r: ProviderResult): seq<Removal> {
    Map((x: RemovedFragment) => Removal(r.key, x), r.diff.removed)
  }

  function AllRemoved(results: seq<ProviderResult>): seq<Removal> {
    if results == [] then [] else AllRemoved(results[..|results| - 1]) + RemovalsOf(results[|results| - 1])
  }

  ghost function AllActive(results: seq<ProviderResult>): seq<Fragment> {
    if results == [] then []
    else AllActive(results[..|results| - 1]) + InOrder(ActiveOf(results[|results| - 1].record.fragments))
  }

  /** The aggregate of per-provider results. */
  ghost predicate Gathers(b: BuildResult) {
    && b.added == AllAdded(b.providers) && b.updated == AllUpdated(b.providers)
    && b.removed == AllRemoved(b.providers) && b.active == AllActive(b.providers)
  }

  predicate SomeFail(providers: seq<Provider>, records: Records, answers: seq<Answer>, n: nat)
    requires n <= |providers| == |answers|
  {
    exists i: nat | i < n :: Fails(providers[i], records, answers[i])
  }

  /** `b` renders the first `n` providers on top of `records`. */
  ghost predicate RendersFirst(hash: string -> string, providers: seq<Provider>, records: Records, answers: seq<Answer>,
                               b: BuildResult, n: nat)
    requires n <= |providers| == |answers|
  {
    && |b.providers| == n && Gathers(b)
    && forall i | 0 <= i < n :: IsResult(hash, providers[i], records, answers[i], b.providers[i])
  }

  ghost predicate IsRender(hash: string -> string, providers: seq<Provider>, records: Records, answers: seq<Answer>,
                           b: BuildResult)
    requires |providers| == |answers|
  {
    RendersFirst(hash, providers, records, answers, b, |providers|)
  }

  method PrepareOne(hash: string -> string, p: Provider, records: Records, a: Answer)
    returns (r: Result<ProviderResult>)
    ensures r.Err? <==> Fails(p, records, a)
    ensures r.Ok? ==> IsResult(hash, p, records, a, r.value)
  {
    if p.fast && p.key in records {
      if a.state.Err? {
        return Err;
      }
      if a.state.value.Some? && a.state.value.value != "" && a.state.value.value == records[p.key].fingerprint {
        return Ok(ProviderResult(p.key, true, NoDiff, records[p.key]));
      }
    }
    if a.rendering.Err? {
      return Err;
    }
    var built := BuildProviderRecord(hash, FragmentsOf(records, p.key), a.rendering.value);
    if built.Err? {
      return Err;
    }
    return Ok(ProviderResult(p.key, false, built.value.1, built.value.0));
  }

  function With(b: BuildResult, r: ProviderResult, active: seq<Fragment>): BuildResult {
    BuildResult(b.providers + [r], b.added + r.diff.added, b.updated + r.diff.updated, b.removed + RemovalsOf(r),
                b.active + active)
  }

  lemma RendersNext(hash: string -> string, providers: seq<Provider>, records: Records, answers: seq<Answer>,
                    b: BuildResult, n: nat,
                    r: ProviderResult)
    requires n < |providers| == |answers| && RendersFirst(hash, providers, records, answers, b, n)
    requires IsResult(hash, providers[n], records, answers[n], r)
    ensures RendersFirst(hash, providers, records, answers, With(b, r, InOrder(ActiveOf(r.record.fragments))), n + 1)
  {
    GathersNext(b, r);
    var all := With(b, r, InOrder(ActiveOf(r.record.fragments))).providers;
    forall i | 0 <= i < n + 1 ensures IsResult(hash, providers[i], records, answers[i], all[i]) {
      SnocAt(b.providers, r, i);
    }
  }

  lemma SnocAt(results: seq<ProviderResult>, r: ProviderResult, i: nat)
    requires i <= |results|
    ensures (results + [r])[i] == if i < |results| then results[i] else r
  {}

  lemma GathersNext(b: BuildResult, r: ProviderResult)
    requires Gathers(b)
    ensures Gathers(With(b, r, InOrder(ActiveOf(r.record.fragments))))
  {
    SnocInit(b.providers, r);
  }

  lemma NextRecordsSnoc(records: Records, results: seq<ProviderResult>, r: ProviderResult)
    ensures NextRecords(records, results + [r])
         == if r.skipped then NextRecords(records, results) else NextRecords(records, results)[r.key := r.record]
  {
    assert (results + [r])[..|results|] == results;
  }

  /** `Prepare` after the snapshot is taken: nothing is written, the first failure ends it. */
  method Prepare(hash: string -> string, providers: seq<Provider>, records: Records, answers: seq<Answer>)
    returns (r: Result<(BuildResult, Records)>)
    requires |providers| == |answers|
    ensures r.Err? <==> SomeFail(providers, records, answers, |providers|)
    ensures r.Ok? ==> IsRender(hash, providers, records, answers, r.value.0)
    ensures r.Ok? ==> r.value.1 == NextRecords(records, r.value.0.providers)
  {
    var b := BuildResult([], [], [], [], []);
    var next := records;
    for i := 0 to |providers|
      invariant RendersFirst(hash, providers, records, answers, b, i)
      invariant next == NextRecords(records, b.providers)
      invariant !SomeFail(providers, records, answers, i)
    {
      var one := PrepareOne(hash, providers[i], records, answers[i]);
      if one.Err? {
        return Err;
      }
      var result := one.value;
      RendersNext(hash, providers, records, answers, b, i, result);
      NextRecordsSnoc(records, b.providers, result);
      var active := ActiveFragments(result.record.fragments);
      if !result.skipped {
        next := next[result.key := result.record];
      }
      b := With(b, result, active);
    }
    return Ok((b, next));
  }
}
