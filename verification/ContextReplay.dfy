/**
 The events a render is logged as (runtime/thread_runtime.go, `contextRenderEvents`) and their replay on resume.
 Replaying single fragment events reproduces the committed state exactly as long as every changed fragment is
 attributed to the provider that rendered it.
 */
module ContextReplay {
  import opened Sequences
  import opened ContextRecords
  import opened ContextPrepare

  datatype RenderEvent =
    | FragmentRecorded(provider: ProviderKey, fragment: Fragment)
    | FragmentRemoved(provider: ProviderKey, removed: RemovedFragment)
    | SnapshotRecorded
    | RenderCommitted(records: Records)

  // ---------------------------------------------------------------- writing

  /** `providerKeyForFragment`: the first provider whose record mentions the key, tombstones included. */
  function Holder(results: seq<ProviderResult>, k: FragmentKey): ProviderKey {
    if results == [] then ""
    else if k in results[0].record.fragments then results[0].key
    else Holder(results[1..], k)
  }

  method FindHolder(results: seq<ProviderResult>, k: FragmentKey) returns (p: ProviderKey)
    ensures p == Holder(results, k)
  {
    for i := 0 to |results|
      invariant Holder(results, k) == Holder(results[i..], k)
    {
      assert results[i..][1..] == results[i + 1..];
      if k in results[i].record.fragments {
        return results[i].key;
      }
    }
    return "";
  }

  function Recorded(results: seq<ProviderResult>, fs: seq<Fragment>): seq<RenderEvent> {
    if fs == [] then []
    else
      var f := fs[|fs| - 1];
      Recorded(results, fs[..|fs| - 1]) + [FragmentRecorded(Holder(results, f.key), f)]
  }

  function Removed(removals: seq<Removal>): seq<RenderEvent> {
    if removals == [] then []
    else
      var r := removals[|removals| - 1];
      Removed(removals[..|removals| - 1]) + [FragmentRemoved(r.provider, r.fragment)]
  }

  /** The fragment events of a render. */
  function FragmentEvents(b: BuildResult): seq<RenderEvent> {
    Recorded(b.providers, b.added + b.updated) + Removed(b.removed)
  }

  function EventsOf(b: BuildResult, next: Records): seq<RenderEvent> {
    FragmentEvents(b) + [SnapshotRecorded, RenderCommitted(next)]
  }

  method ContextRenderEvents(b: BuildResult, next: Records) returns (events: seq<RenderEvent>)
    ensures events == EventsOf(b, next)
  {
    var changed := b.added + b.updated;
    var recorded: seq<RenderEvent> := [];
    for i := 0 to |changed|
      invariant recorded == Recorded(b.providers, changed[..i])
    {
      PrefixStep(changed, i);
      var p := FindHolder(b.providers, changed[i].key);
      recorded := recorded + [FragmentRecorded(p, changed[i])];
    }
    assert changed[..|changed|] == changed;
    var removed: seq<RenderEvent> := [];
    for i := 0 to |b.removed|
      invariant removed == Removed(b.removed[..i])
    {
      PrefixStep(b.removed, i);
      removed := removed + [FragmentRemoved(b.removed[i].provider, b.removed[i].fragment)];
    }
    assert b.removed[..|b.removed|] == b.removed;
    events := recorded + removed + [SnapshotRecorded, RenderCommitted(next)];
  }

  // ---------------------------------------------------------------- replaying

  ghost function Put(hash: string -> string, records: Records, p: ProviderKey, k: FragmentKey, r: Rendered): Records {
    var fragments := FragmentsOf(records, p)[k := r];
    records[p := Record(ProviderPrint(hash, InOrder(ActiveOf(fragments))), fragments)]
  }

  ghost function Apply(hash: string -> string, records: Records, e: RenderEvent): Records {
    match e
    case FragmentRecorded(p, f) => Put(hash, records, p, f.key, Active(Stamp(hash, f)))
    case FragmentRemoved(p, r) => Put(hash, records, p, r.key, Tombstone(r.last))
    case _ => records
  }

  ghost function Fold(hash: string -> string, records: Records, events: seq<RenderEvent>): Records {
    if events == [] then records else Apply(hash, Fold(hash, records, events[..|events| - 1]), events[|events| - 1])
  }

  function LastCommitted(events: seq<RenderEvent>): Option<Records> {
    if events == [] then None
    else if events[|events| - 1].RenderCommitted? then Some(events[|events| - 1].records)
    else LastCommitted(events[..|events| - 1])
  }

  lemma LastCommittedOf(events: seq<RenderEvent>, b: BuildResult, next: Records)
    ensures LastCommitted(events + EventsOf(b, next)) == Some(next) &&
            RenderCommitted(next) in events + EventsOf(b, next)
  {
    var all := events + EventsOf(b, next);
    assert all[|all| - 1] == RenderCommitted(next);
  }

  /** What resuming sets the records to, if anything. */
  ghost function Replayed(hash: string -> string, events: seq<RenderEvent>): Option<Records> {
    if LastCommitted(events).Some? then LastCommitted(events)
    else if Fold(hash, map[], events) != map[] then Some(Fold(hash, map[], events))
    else None
  }

  method ApplyPut(hash: string -> string, records: Records, p: ProviderKey, k: FragmentKey, r: Rendered)
    returns (out: Records)
    ensures out == Put(hash, records, p, k, r)
  {
    var fragments := FragmentsOf(records, p)[k := r];
    var active := ActiveFragments(fragments);
    var fingerprint := ComputeProviderPrint(hash, active);
    out := records[p := Record(fingerprint, fragments)];
  }

  method ReplayContextRenders(hash: string -> string, events: seq<RenderEvent>) returns (r: Option<Records>)
    ensures r == Replayed(hash, events)
  {
    var latest: Option<Records> := None;
    var records: Records := map[];
    for i := 0 to |events|
      invariant latest == LastCommitted(events[..i]) && records == Fold(hash, map[], events[..i])
    {
      PrefixStep(events, i);
      match events[i]
      case FragmentRecorded(p, f) => records := ApplyPut(hash, records, p, f.key, Active(Stamp(hash, f)));
      case FragmentRemoved(p, x) => records := ApplyPut(hash, records, p, x.key, Tombstone(x.last));
      case RenderCommitted(committed) => latest := Some(committed);
      case SnapshotRecorded =>
    }
    assert events[..|events|] == events;
    if latest.Some? {
      return latest;
    }
    return if |records| > 0 then Some(records) else None;
  }

  // ---------------------------------------------------------------- what a replay shows

  function LiveIn(fragments: RenderedMap, k: FragmentKey): Option<string> {
    if k in fragments && fragments[k].Active? then Some(fragments[k].fragment.fingerprint) else None
  }

  /** The fingerprint under which provider `p` shows fragment `k`, if it does. */
  function Live(records: Records, p: ProviderKey, k: FragmentKey): Option<string> {
    LiveIn(FragmentsOf(records, p), k)
  }

  ghost predicate SameLive(a: Records, b: Records) {
    forall p, k :: Live(a, p, k) == Live(b, p, k)
  }

  predicate Writes(e: RenderEvent, p: ProviderKey, k: FragmentKey) {
    || (e.FragmentRecorded? && e.provider == p && e.fragment.key == k)
    || (e.FragmentRemoved? && e.provider == p && e.removed.key == k)
  }

  function Written(hash: string -> string, e: RenderEvent): Option<string> {
    if e.FragmentRecorded? then Some(FragmentPrint(hash, e.fragment)) else None
  }

  lemma ApplyLive(hash: string -> string, records: Records, e: RenderEvent, p: ProviderKey, k: FragmentKey)
    ensures Live(Apply(hash, records, e), p, k) == if Writes(e, p, k) then Written(hash, e) else Live(records, p, k)
  {}

  lemma {:induction false} Unwritten(hash: string -> string, records: Records, events: seq<RenderEvent>, p: ProviderKey,
                                     k: FragmentKey)
    requires forall e | e in events :: !Writes(e, p, k)
    ensures Live(Fold(hash, records, events), p, k) == Live(records, p, k)
  {
    if events != [] {
      Unwritten(hash, records, events[..|events| - 1], p, k);
      ApplyLive(hash, Fold(hash, records, events[..|events| - 1]), events[|events| - 1], p, k);
    }
  }

  /** If all writes agree, one is enough. */
  lemma {:induction false} WrittenAlike(hash: string -> string, records: Records, events: seq<RenderEvent>,
                                        p: ProviderKey, k: FragmentKey,
                                        v: Option<string>)
    requires forall e | e in events && Writes(e, p, k) :: Written(hash, e) == v
    requires Live(records, p, k) == v || exists e :: e in events && Writes(e, p, k)
    ensures Live(Fold(hash, records, events), p, k) == v
  {
    if events != [] {
      var init, last := events[..|events| - 1], events[|events| - 1];
      ApplyLive(hash, Fold(hash, records, init), last, p, k);
      assert last in events;
      if !Writes(last, p, k) {
        assert forall e | e in events :: e in init || e == last;
        WrittenAlike(hash, records, init, p, k, v);
      }
    }
  }
}
