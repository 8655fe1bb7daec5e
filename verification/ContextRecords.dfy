/**
 What the context manager remembers of a provider's last render and how it compares the next one with it
 (agentcontext/manager.go, record.go, fingerprint.go).
 */
module ContextRecords {
  import opened Sequences
  import opened KeyOrder

  type ProviderKey = string
  type FragmentKey = string

  /** The text stands for role, markers, content, authority and cache policy, which travel together. */
  datatype Fragment = Fragment(key: FragmentKey, text: string, fingerprint: string)

  type Fragments = map<FragmentKey, Fragment>

  /** A fragment as last rendered, or the mark left where one was. */
  datatype Rendered = Active(fragment: Fragment) | Tombstone(last: string) {
    function Fingerprint(): string {
      if Active? then fragment.fingerprint else last
    }
  }

  type RenderedMap = map<FragmentKey, Rendered>

  datatype Record = Record(fingerprint: string, fragments: RenderedMap)

  /** A provider's answer: all its fragments, and its own fingerprint if it has one. */
  datatype Rendering = Rendering(fragments: seq<Fragment>, fingerprint: string)

  datatype RemovedFragment = RemovedFragment(key: FragmentKey, last: string)

  datatype Diff = Diff(added: seq<Fragment>, updated: seq<Fragment>, same: seq<Fragment>, removed: seq<RemovedFragment>)

  // ---------------------------------------------------------------- fingerprints

  const Nul: string := [0 as char]

  /** SHA-256 in hexadecimal is the parameter `hash`. */
  function FragmentPrint(hash: string -> string, f: Fragment): (r: string)
    ensures r != ""
  {
    if f.fingerprint != "" then f.fingerprint else "sha256:" + hash(f.key + Nul + f.text)
  }

  function Stamp(hash: string -> string, f: Fragment): Fragment {
    f.(fingerprint := FragmentPrint(hash, f))
  }

  function Listing(hash: string -> string, fs: seq<Fragment>): string {
    if fs == [] then ""
    else Listing(hash, fs[..|fs| - 1]) + fs[|fs| - 1].key + Nul + FragmentPrint(hash, fs[|fs| - 1]) + Nul
  }

  function ProviderPrint(hash: string -> string, fs: seq<Fragment>): string {
    "sha256:" + hash(Listing(hash, fs))
  }

  method ComputeProviderPrint(hash: string -> string, fs: seq<Fragment>) returns (r: string)
    ensures r == ProviderPrint(hash, fs)
  {
    var b := "";
    for i := 0 to |fs|
      invariant b == Listing(hash, fs[..i])
    {
      PrefixStep(fs, i);
      b := b + fs[i].key + Nul + FragmentPrint(hash, fs[i]) + Nul;
    }
    assert fs[..|fs|] == fs;
    r := "sha256:" + hash(b);
  }

  // ---------------------------------------------------------------- fragments by key

  predicate WellKeyed(fs: seq<Fragment>) {
    && (forall i | 0 <= i < |fs| :: fs[i].key != "")
    && (forall i, j | 0 <= i < j < |fs| :: fs[i].key != fs[j].key)
  }

  function ByKey(fs: seq<Fragment>): (m: Fragments)
    ensures forall k | k in m :: m[k].key == k
  {
    if fs == [] then map[] else ByKey(fs[..|fs| - 1])[fs[|fs| - 1].key := fs[|fs| - 1]]
  }

  lemma {:induction false} ByKeyIndex(fs: seq<Fragment>, k: FragmentKey) returns (i: nat)
    requires k in ByKey(fs)
    ensures i < |fs| && fs[i].key == k && ByKey(fs)[k] == fs[i]
  {
    if fs[|fs| - 1].key == k { i := |fs| - 1; } else { i := ByKeyIndex(fs[..|fs| - 1], k); }
  }

  lemma {:induction false} ByKeyHas(fs: seq<Fragment>, i: nat)
    requires i < |fs|
    ensures fs[i].key in ByKey(fs)
  {
    if i < |fs| - 1 { ByKeyHas(fs[..|fs| - 1], i); }
  }

  function Pick(m: Fragments, keys: seq<FragmentKey>): (r: seq<Fragment>)
    requires forall k | k in keys :: k in m
    ensures |r| == |keys| && forall i | 0 <= i < |r| :: r[i] == m[keys[i]]
  {
    if keys == [] then [] else Pick(m, keys[..|keys| - 1]) + [m[keys[|keys| - 1]]]
  }

  /** The fragments of a map, ordered by key. */
  ghost function InOrder(m: Fragments): seq<Fragment> {
    Pick(m, Sorted(m.Keys))
  }

  lemma InOrderHas(m: Fragments, f: Fragment)
    requires forall k | k in m :: m[k].key == k
    ensures f in InOrder(m) <==> f.key in m && m[f.key] == f
  {
    var keys := Sorted(m.Keys);
    if f.key in m {
      var i :| 0 <= i < |keys| && keys[i] == f.key;
      assert InOrder(m)[i] == m[f.key];
    }
  }

  method ListInOrder(m: Fragments) returns (r: seq<Fragment>)
    ensures r == InOrder(m)
  {
    var keys := SortKeys(m.Keys);
    r := [];
    for i := 0 to |keys|
      invariant r == Pick(m, keys[..i])
    {
      PrefixStep(keys, i);
      assert keys[i] in keys;
      r := r + [m[keys[i]]];
    }
    assert keys[..|keys|] == keys;
  }

  /** `normalizeFragments`: refuses empty and repeated keys, then sorts by key. */
  method NormalizeFragments(fs: seq<Fragment>) returns (r: Result<seq<Fragment>>)
    ensures r.Ok? <==> WellKeyed(fs)
    ensures r.Ok? ==> r.value == InOrder(ByKey(fs))
  {
    var seen: Fragments := map[];
    for i := 0 to |fs|
      invariant WellKeyed(fs[..i]) && seen == ByKey(fs[..i])
    {
      PrefixStep(fs, i);
      KeyAllowed(fs, i);
      if fs[i].key == "" || fs[i].key in seen {
        return Err;
      }
      seen := seen[fs[i].key := fs[i]];
    }
    assert fs[..|fs|] == fs;
    var out := ListInOrder(seen);
    return Ok(out);
  }

  lemma WellKeyedPrefix(fs: seq<Fragment>, i: nat)
    requires i <= |fs| && WellKeyed(fs)
    ensures WellKeyed(fs[..i])
  {}

  lemma KeyAllowed(fs: seq<Fragment>, i: nat)
    requires i < |fs| && WellKeyed(fs[..i])
    ensures WellKeyed(fs[..i + 1]) <==> fs[i].key != "" && fs[i].key !in ByKey(fs[..i])
    ensures WellKeyed(fs) ==> WellKeyed(fs[..i + 1])
  {
    if fs[i].key in ByKey(fs[..i]) {
      var j := ByKeyIndex(fs[..i], fs[i].key);
      assert fs[..i + 1][j].key == fs[..i + 1][i].key;
    } else {
      forall j | 0 <= j < i ensures fs[j].key != fs[i].key {
        ByKeyHas(fs[..i], j);
      }
    }
    if WellKeyed(fs) { WellKeyedPrefix(fs, i + 1); }
  }

  // ---------------------------------------------------------------- the next record

  function ActiveOf(fragments: RenderedMap): Fragments {
    map k | k in fragments && fragments[k].Active? :: fragments[k].fragment
  }

  method ActiveFragments(fragments: RenderedMap) returns (r: seq<Fragment>)
    ensures r == InOrder(ActiveOf(fragments))
  {
    r := ListInOrder(ActiveOf(fragments));
  }

  predicate IsAdded(before: RenderedMap, k: FragmentKey) {
    k !in before || before[k].Tombstone?
  }

  predicate IsRemoved(before: RenderedMap, shown: Fragments, k: FragmentKey) {
    k in before && before[k].Active? && k !in shown
  }

  /** The record's fragments once the keys `done` of the last record have been looked at. */
  function NextOver(hash: string -> string, before: RenderedMap, shown: Fragments, done: set<FragmentKey>): RenderedMap
  {
    map k | k in done + shown.Keys && (k in shown || IsRemoved(before, shown, k)) ::
      if k in shown then Active(Stamp(hash, shown[k])) else Tombstone(before[k].Fingerprint())
  }

  /** What was shown before and is not shown now leaves a tombstone; older tombstones go. */
  function NextFragments(hash: string -> string, before: RenderedMap, shown: Fragments): RenderedMap {
    NextOver(hash, before, shown, before.Keys)
  }

  ghost function NextRecord(hash: string -> string, before: RenderedMap, rendering: Rendering): Record {
    var shown := ByKey(rendering.fragments);
    Record(if rendering.fingerprint != "" then rendering.fingerprint else ProviderPrint(hash, InOrder(shown)),
           NextFragments(hash, before, shown))
  }

  datatype Change = Added | Updated | Unchanged

  function ChangeOf(hash: string -> string, before: RenderedMap, f: Fragment): Change {
    if IsAdded(before, f.key) then Added
    else if before[f.key].Fingerprint() != FragmentPrint(hash, f) then Updated
    else Unchanged
  }

  /** The stamped fragments of one kind of change, in order. */
  function Changed(hash: string -> string, before: RenderedMap, fs: seq<Fragment>, change: Change): seq<Fragment> {
    if fs == [] then []
    else
      var last := fs[|fs| - 1];
      var rest := Changed(hash, before, fs[..|fs| - 1], change);
      if ChangeOf(hash, before, last) == change then rest + [Stamp(hash, last)] else rest
  }

  lemma {:induction false} ChangedHas(hash: string -> string, before: RenderedMap, fs: seq<Fragment>, change: Change,
                                      x: Fragment)
    ensures x in Changed(hash, before, fs, change) <==>
            exists f :: f in fs && ChangeOf(hash, before, f) == change && x == Stamp(hash, f)
  {
    if fs != [] {
      var init, last := fs[..|fs| - 1], fs[|fs| - 1];
      ChangedHas(hash, before, init, change, x);
      assert fs == init + [last];
    }
  }

  /** The removals among the keys `done`, in no particular order. */
  predicate RemovedOver(before: RenderedMap, shown: Fragments, done: set<FragmentKey>, removed: seq<RemovedFragment>) {
    && NoDuplicates(removed)
    && (forall r | r in removed ::
        r.key in done && IsRemoved(before, shown, r.key) && r.last == before[r.key].Fingerprint())
    && (forall k | k in done && IsRemoved(before, shown, k) :: RemovedFragment(k, before[k].Fingerprint()) in removed)
  }

  predicate RemovedFrom(before: RenderedMap, shown: Fragments, removed: seq<RemovedFragment>) {
    RemovedOver(before, shown, before.Keys, removed)
  }

  ghost predicate IsDiff(hash: string -> string, before: RenderedMap, shown: Fragments, diff: Diff) {
    && diff.added == Changed(hash, before, InOrder(shown), Added)
    && diff.updated == Changed(hash, before, InOrder(shown), Updated)
    && diff.same == Changed(hash, before, InOrder(shown), Unchanged)
    && RemovedFrom(before, shown, diff.removed)
  }

  // ---------------------------------------------------------------- the record, told from what was rendered

  /** The fragment as it is kept: as rendered, under its own fingerprint or else the hash of key and text. */
  ghost predicate KeptAs(hash: string -> string, f: Fragment, kept: Fragment) {
    && kept.key == f.key && kept.text == f.text
    && kept.fingerprint == if f.fingerprint != "" then f.fingerprint else "sha256:" + hash(f.key + Nul + f.text)
  }

  ghost predicate ShownBefore(before: RenderedMap, k: FragmentKey, fingerprint: string) {
    k in before && before[k].Active? && before[k].fragment.fingerprint == fingerprint
  }

  /** How a kept fragment compares with what was shown under its key before. */
  ghost predicate ComparesAs(before: RenderedMap, kept: Fragment, change: Change) {
    match change
    case Added => !(kept.key in before && before[kept.key].Active?)
    case Updated => kept.key in before && before[kept.key].Active? && !ShownBefore(before, kept.key, kept.fingerprint)
    case Unchanged => ShownBefore(before, kept.key, kept.fingerprint)
  }

  ghost predicate ListTold(hash: string -> string, before: RenderedMap, fs: seq<Fragment>, list: seq<Fragment>,
                           change: Change)
  {
    forall x :: x in list <==> ComparesAs(before, x, change) && exists f :: f in fs && KeptAs(hash, f, x)
  }

  predicate RendersKey(fs: seq<Fragment>, k: FragmentKey) {
    exists f :: f in fs && f.key == k
  }

  /**
   Every rendered fragment is kept as it is; of the others, what was shown before leaves its last fingerprint. The
   comparison lists the kept fragments by how they compare, and as removed exactly what left a mark.
   */
  ghost predicate RecordTold(hash: string -> string, before: RenderedMap, fs: seq<Fragment>, next: RenderedMap,
                             diff: Diff)
  {
    && (forall f | f in fs :: f.key in next && next[f.key].Active? && KeptAs(hash, f, next[f.key].fragment))
    && (forall k | !RendersKey(fs, k) :: k in next <==> k in before && before[k].Active?)
    && (forall k | k in next && !RendersKey(fs, k) ::
          k in before && before[k].Active? && next[k] == Tombstone(before[k].fragment.fingerprint))
    && ListTold(hash, before, fs, diff.added, Added)
    && ListTold(hash, before, fs, diff.updated, Updated)
    && ListTold(hash, before, fs, diff.same, Unchanged)
    && (forall x :: x in diff.removed <==> !RendersKey(fs, x.key) && ShownBefore(before, x.key, x.last))
  }

  lemma StampKeeps(hash: string -> string, f: Fragment, x: Fragment)
    ensures KeptAs(hash, f, x) <==> x == Stamp(hash, f)
  {}

  lemma {:induction false} ByKeyExactly(fs: seq<Fragment>, f: Fragment)
    requires WellKeyed(fs)
    ensures f in fs <==> f.key in ByKey(fs) && ByKey(fs)[f.key] == f
  {
    if f in fs {
      var i :| 0 <= i < |fs| && fs[i] == f;
      ByKeyHas(fs, i);
      var j := ByKeyIndex(fs, f.key);
      assert fs[j].key == fs[i].key;
    } else if f.key in ByKey(fs) {
      var j := ByKeyIndex(fs, f.key);
    }
  }

  lemma {:induction false} KeysExactly(fs: seq<Fragment>, k: FragmentKey)
    ensures RendersKey(fs, k) <==> k in ByKey(fs)
  {
    if RendersKey(fs, k) {
      var f :| f in fs && f.key == k;
      var i :| 0 <= i < |fs| && fs[i] == f;
      ByKeyHas(fs, i);
    }
    if k in ByKey(fs) {
      var j := ByKeyIndex(fs, k);
      assert fs[j] in fs;
    }
  }

  lemma ComparesExactly(hash: string -> string, before: RenderedMap, f: Fragment, change: Change)
    ensures ChangeOf(hash, before, f) == change <==> ComparesAs(before, Stamp(hash, f), change)
  {}

  lemma {:induction false} ListExactly(hash: string -> string, before: RenderedMap, fs: seq<Fragment>, change: Change)
    requires WellKeyed(fs)
    ensures ListTold(hash, before, fs, Changed(hash, before, InOrder(ByKey(fs)), change), change)
  {
    var listed := InOrder(ByKey(fs));
    forall f ensures f in listed <==> f in fs {
      InOrderHas(ByKey(fs), f);
      ByKeyExactly(fs, f);
    }
    forall x ensures x in Changed(hash, before, listed, change) <==>
                     ComparesAs(before, x, change) && exists f :: f in fs && KeptAs(hash, f, x)
    {
      ChangedHas(hash, before, listed, change, x);
      forall f ensures (f in listed && ChangeOf(hash, before, f) == change && x == Stamp(hash, f)) <==>
                       (f in fs && KeptAs(hash, f, x) && ComparesAs(before, x, change))
      {
        StampKeeps(hash, f, x);
        ComparesExactly(hash, before, f, change);
      }
    }
  }

  lemma FragmentsExactly(hash: string -> string, before: RenderedMap, fs: seq<Fragment>)
    requires WellKeyed(fs)
    ensures var next := NextFragments(hash, before, ByKey(fs));
            && (forall f | f in fs :: f.key in next && next[f.key].Active? && KeptAs(hash, f, next[f.key].fragment))
            && (forall k | !RendersKey(fs, k) :: k in next <==> k in before && before[k].Active?)
            && (forall k | k in next && !RendersKey(fs, k) ::
                  k in before && before[k].Active? && next[k] == Tombstone(before[k].fragment.fingerprint))
  {
    var next := NextFragments(hash, before, ByKey(fs));
    forall f | f in fs
      ensures f.key in next && next[f.key].Active? && KeptAs(hash, f, next[f.key].fragment)
    {
      ByKeyExactly(fs, f);
      StampKeeps(hash, f, Stamp(hash, f));
    }
    forall k ensures RendersKey(fs, k) <==> k in ByKey(fs) { KeysExactly(fs, k); }
  }

  lemma RemovedExactly(before: RenderedMap, fs: seq<Fragment>, removed: seq<RemovedFragment>, x: RemovedFragment)
    requires RemovedFrom(before, ByKey(fs), removed)
    ensures x in removed <==> !RendersKey(fs, x.key) && ShownBefore(before, x.key, x.last)
  {
    KeysExactly(fs, x.key);
  }

  lemma RecordExactly(hash: string -> string, before: RenderedMap, fs: seq<Fragment>, diff: Diff)
    requires WellKeyed(fs) && IsDiff(hash, before, ByKey(fs), diff)
    ensures RecordTold(hash, before, fs, NextFragments(hash, before, ByKey(fs)), diff)
  {
    FragmentsExactly(hash, before, fs);
    ListExactly(hash, before, fs, Added);
    ListExactly(hash, before, fs, Updated);
    ListExactly(hash, before, fs, Unchanged);
    forall x ensures x in diff.removed <==> !RendersKey(fs, x.key) && ShownBefore(before, x.key, x.last) {
      RemovedExactly(before, fs, diff.removed, x);
    }
  }

  // ---------------------------------------------------------------- building a record

  function RenderedOf(hash: string -> string, fs: seq<Fragment>): RenderedMap {
    if fs == [] then map[] else RenderedOf(hash, fs[..|fs| - 1])[fs[|fs| - 1].key := Active(Stamp(hash, fs[|fs| - 1]))]
  }

  lemma {:induction false} RenderedOfPicked(hash: string -> string, m: Fragments, keys: seq<FragmentKey>)
    requires (forall k | k in keys :: k in m) && forall k | k in m :: m[k].key == k
    ensures RenderedOf(hash, Pick(m, keys)) == map k | k in keys :: Active(Stamp(hash, m[k]))
  {
    if keys != [] {
      var init, last := keys[..|keys| - 1], keys[|keys| - 1];
      RenderedOfPicked(hash, m, init);
      assert Pick(m, keys)[..|keys| - 1] == Pick(m, init);
      assert last in keys && forall k :: k in keys <==> k in init || k == last;
    }
  }

  lemma RenderedInOrder(hash: string -> string, before: RenderedMap, shown: Fragments)
    requires forall k | k in shown :: shown[k].key == k
    ensures RenderedOf(hash, InOrder(shown)) == NextOver(hash, before, shown, {})
  {
    RenderedOfPicked(hash, shown, Sorted(shown.Keys));
  }

  lemma {:induction false} ChangedStep(hash: string -> string, before: RenderedMap, fs: seq<Fragment>, i: nat)
    requires i < |fs|
    ensures forall change :: Changed(hash, before, fs[..i + 1], change) ==
              Changed(hash, before, fs[..i], change) +
              if ChangeOf(hash, before, fs[i]) == change then [Stamp(hash, fs[i])] else []
    ensures RenderedOf(hash, fs[..i + 1]) == RenderedOf(hash, fs[..i])[fs[i].key := Active(Stamp(hash, fs[i]))]
  {
    PrefixStep(fs, i);
  }

  method RenderAll(hash: string -> string, before: RenderedMap, fs: seq<Fragment>)
    returns (next: RenderedMap, diff: Diff)
    ensures next == RenderedOf(hash, fs)
    ensures diff == Diff(Changed(hash, before, fs, Added), Changed(hash, before, fs, Updated),
                         Changed(hash, before, fs, Unchanged), [])
  {
    next := map[];
    var added: seq<Fragment>, updated: seq<Fragment>, same: seq<Fragment> := [], [], [];
    for i := 0 to |fs|
      invariant next == RenderedOf(hash, fs[..i])
      invariant added == Changed(hash, before, fs[..i], Added)
      invariant updated == Changed(hash, before, fs[..i], Updated)
      invariant same == Changed(hash, before, fs[..i], Unchanged)
    {
      ChangedStep(hash, before, fs, i);
      var f := Stamp(hash, fs[i]);
      next := next[f.key := Active(f)];
      if f.key !in before || before[f.key].Tombstone? {
        added := added + [f];
      } else if before[f.key].Fingerprint() != f.fingerprint {
        updated := updated + [f];
      } else {
        same := same + [f];
      }
    }
    assert fs[..|fs|] == fs;
    diff := Diff(added, updated, same, []);
  }

  /** One more key of the last record. */
  lemma MarkOne(hash: string -> string, before: RenderedMap, shown: Fragments, done: set<FragmentKey>, k: FragmentKey)
    requires k in before && k !in done
    ensures var next := NextOver(hash, before, shown, done);
            && (k in next <==> k in shown)
            && NextOver(hash, before, shown, done + {k}) == if IsRemoved(before, shown, k)
                                                            then next[k := Tombstone(before[k].Fingerprint())] else next
  {}

  lemma RemoveOne(before: RenderedMap, shown: Fragments, done: set<FragmentKey>, k: FragmentKey,
                  removed: seq<RemovedFragment>)
    requires k in before && k !in done && RemovedOver(before, shown, done, removed)
    ensures RemovedOver(before, shown, done + {k},
                        if IsRemoved(before, shown, k) then removed + [RemovedFragment(k, before[k].Fingerprint())]
                        else removed)
  {}

  method MarkRemoved(hash: string -> string, before: RenderedMap, ghost shown: Fragments, rendered: RenderedMap)
    returns (next: RenderedMap, removed: seq<RemovedFragment>)
    requires rendered == NextOver(hash, before, shown, {})
    ensures next == NextFragments(hash, before, shown) && RemovedFrom(before, shown, removed)
  {
    next, removed := rendered, [];
    var rest := before.Keys;
    while rest != {}
      invariant rest <= before.Keys
      invariant next == NextOver(hash, before, shown, before.Keys - rest)
      invariant RemovedOver(before, shown, before.Keys - rest, removed)
    {
      var k :| k in rest;
      MarkOne(hash, before, shown, before.Keys - rest, k);
      RemoveOne(before, shown, before.Keys - rest, k, removed);
      assert before.Keys - (rest - {k}) == (before.Keys - rest) + {k};
      if before[k].Active? && k !in next {
        removed := removed + [RemovedFragment(k, before[k].Fingerprint())];
        next := next[k := Tombstone(before[k].Fingerprint())];
      }
      rest := rest - {k};
    }
    assert before.Keys - {} == before.Keys;
  }

  /** `buildProviderRecord`. */
  method BuildProviderRecord(hash: string -> string, before: RenderedMap, rendering: Rendering)
    returns (r: Result<(Record, Diff)>)
    ensures r.Ok? <==> WellKeyed(rendering.fragments)
    ensures r.Ok? ==> r.value.0 == NextRecord(hash, before, rendering)
    ensures r.Ok? ==> IsDiff(hash, before, ByKey(rendering.fragments), r.value.1)
    ensures r.Ok? ==> RecordTold(hash, before, rendering.fragments, r.value.0.fragments, r.value.1)
  {
    var normalized := NormalizeFragments(rendering.fragments);
    if normalized.Err? {
      return Err;
    }
    ghost var shown := ByKey(rendering.fragments);
    var rendered, diff := RenderAll(hash, before, normalized.value);
    RenderedInOrder(hash, before, shown);
    var next, removed := MarkRemoved(hash, before, shown, rendered);
    var fingerprint := rendering.fingerprint;
    if fingerprint == "" {
      fingerprint := ComputeProviderPrint(hash, normalized.value);
    }
    diff := diff.(removed := removed);
    RecordExactly(hash, before, rendering.fragments, diff);
    return Ok((Record(fingerprint, next), diff));
  }
}
