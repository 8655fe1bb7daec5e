/** Resource identities, references and the index by name (resource/identity.go, resource/index.go). */
module ResourceIndex {
  import opened Sequences

  datatype ResourceId = ResourceId(kind: string, origin: string, namespace: seq<string>, name: string)

  // ---------------------------------------------------------------- splitting references

  predicate ColonFree(s: string) {
    forall i | 0 <= i < |s| :: s[i] != ':'
  }

  /** The text between colons; never empty. */
  function Split(s: string): (parts: seq<string>)
    ensures |parts| > 0
  {
    if s == "" then [""]
    else
      var before, c := Split(s[..|s| - 1]), s[|s| - 1];
      if c == ':' then before + [""] else before[..|before| - 1] + [before[|before| - 1] + [c]]
  }

  /** What follows the last colon, or everything. */
  function LastPart(ref: string): string {
    if ref == "" || ref[|ref| - 1] == ':' then "" else LastPart(ref[..|ref| - 1]) + [ref[|ref| - 1]]
  }

  lemma {:induction false} LastOfSplit(ref: string)
    ensures Split(ref)[|Split(ref)| - 1] == LastPart(ref)
  {
    if ref != "" { LastOfSplit(ref[..|ref| - 1]); }
  }

  lemma {:induction false} SplitPlain(s: string)
    requires ColonFree(s)
    ensures Split(s) == [s]
  {
    if s != "" {
      SplitPlain(s[..|s| - 1]);
      assert s == s[..|s| - 1] + [s[|s| - 1]];
    }
  }

  lemma {:induction false} SplitAppend(a: string, b: string)
    requires ColonFree(b)
    ensures Split(a + ":" + b) == Split(a) + [b]
  {
    var s := a + ":" + b;
    if b == "" {
      assert s[..|s| - 1] == a;
    } else {
      var init := b[..|b| - 1];
      SplitAppend(a, init);
      assert s[..|s| - 1] == a + ":" + init && s[|s| - 1] == b[|b| - 1];
      assert b == init + [b[|b| - 1]];
    }
  }

  method FindLastPart(ref: string) returns (r: string)
    ensures r == LastPart(ref)
  {
    var i := |ref|;
    assert ref[..i] == ref && ref[i..] == "";
    while i > 0 && ref[i - 1] != ':'
      invariant 0 <= i <= |ref| && LastPart(ref) == LastPart(ref[..i]) + ref[i..]
    {
      assert ref[..i][..i - 1] == ref[..i - 1] && ref[i - 1..] == [ref[i - 1]] + ref[i..];
      i := i - 1;
    }
    assert LastPart(ref[..i]) == "";
    r := ref[i..];
  }

  // ---------------------------------------------------------------- addresses and matching

  function Joined(segments: seq<string>): string {
    if segments == [] then ""
    else if |segments| == 1 then segments[0]
    else Joined(segments[..|segments| - 1]) + "/" + segments[|segments| - 1]
  }

  function Address(id: ResourceId): string {
    var ns := Joined(id.namespace);
    if ns == "" then id.origin + ":" + id.name else id.origin + ":" + ns + ":" + id.name
  }

  predicate EndsWith(full: seq<string>, suffix: seq<string>) {
    |suffix| <= |full| && full[|full| - |suffix|..] == suffix
  }

  method MatchSuffix(full: seq<string>, suffix: seq<string>) returns (r: bool)
    ensures r <==> EndsWith(full, suffix)
  {
    if |suffix| > |full| {
      return false;
    }
    var offset := |full| - |suffix|;
    for i := 0 to |suffix|
      invariant forall k | 0 <= k < i :: full[offset + k] == suffix[k]
    {
      if full[offset + i] != suffix[i] {
        assert full[offset..][i] == full[offset + i];
        return false;
      }
    }
    r := true;
  }

  /** `qualifier` names `id` through the end of origin and namespace, or by origin and the end of the namespace. */
  predicate Qualifies(id: ResourceId, qualifier: seq<string>) {
    || qualifier == []
    || EndsWith([id.origin] + id.namespace, qualifier)
    || (qualifier[0] == id.origin && EndsWith(id.namespace, qualifier[1..]))
  }

  predicate MatchesRef(id: ResourceId, ref: string) {
    var parts := Split(ref);
    parts[|parts| - 1] == id.name && Qualifies(id, parts[..|parts| - 1])
  }

  method MatchRef(id: ResourceId, ref: string) returns (r: bool)
    ensures r <==> MatchesRef(id, ref)
  {
    var parts := Split(ref);
    if parts[|parts| - 1] != id.name {
      return false;
    }
    var qualifier := parts[..|parts| - 1];
    if |qualifier| == 0 {
      return true;
    }
    var suffix := MatchSuffix([id.origin] + id.namespace, qualifier);
    if suffix {
      return true;
    }
    if qualifier[0] == id.origin {
      var rest := qualifier[1..];
      if |rest| == 0 {
        return true;
      }
      r := MatchSuffix(id.namespace, rest);
      return;
    }
    r := false;
  }

  predicate Hit(kind: string, ref: string, id: ResourceId) {
    (kind == "" || id.kind == kind) && MatchesRef(id, ref)
  }

  function Hits(kind: string, ref: string): ResourceId -> bool {
    (id: ResourceId) => Hit(kind, ref, id)
  }

  function Named(name: string): ResourceId -> bool {
    (id: ResourceId) => id.name == name
  }

  /** The reference: scan everything that was added. */
  function Scan(all: seq<ResourceId>, kind: string, ref: string): seq<ResourceId> {
    Filter(Hits(kind, ref), all)
  }

  /** A reference only hits resources of its last part's name. */
  lemma {:induction false} ScanByName(all: seq<ResourceId>, kind: string, ref: string)
    ensures Scan(all, kind, ref) == Scan(Filter(Named(LastPart(ref)), all), kind, ref)
  {
    if all != [] {
      var init, last := all[..|all| - 1], all[|all| - 1];
      ScanByName(init, kind, ref);
      LastOfSplit(ref);
      if last.name == LastPart(ref) {
        FilterAppend(Hits(kind, ref), Filter(Named(LastPart(ref)), init), [last]);
        assert Filter(Hits(kind, ref), [last]) == if Hit(kind, ref, last) then [last] else []
               by { assert [last][..0] == []; }
      }
    }
  }

  lemma NamedSnoc(all: seq<ResourceId>, id: ResourceId, name: string)
    ensures Filter(Named(name), all + [id]) == Filter(Named(name), all) + if id.name == name then [id] else []
  {
    assert (all + [id])[..|all|] == all;
  }

  method Contains(ids: seq<ResourceId>, id: ResourceId) returns (r: bool)
    ensures r <==> id in ids
  {
    for i := 0 to |ids|
      invariant forall k | 0 <= k < i :: ids[k] != id
    {
      if ids[i] == id {
        return true;
      }
    }
    r := false;
  }

  function Bucket(byName: map<string, seq<ResourceId>>, name: string): seq<ResourceId> {
    if name in byName then byName[name] else []
  }

  /** Each bucket holds the resources of its name, in the order they were added. */
  ghost predicate Indexed(byName: map<string, seq<ResourceId>>, all: seq<ResourceId>) {
    forall name :: Bucket(byName, name) == Filter(Named(name), all)
  }

  lemma IndexedAdd(byName: map<string, seq<ResourceId>>, all: seq<ResourceId>, id: ResourceId)
    requires Indexed(byName, all)
    ensures id in Bucket(byName, id.name) <==> id in all
    ensures Indexed(byName[id.name := Bucket(byName, id.name) + [id]], all + [id])
  {
    assert Bucket(byName, id.name) == Filter(Named(id.name), all);
    var next := byName[id.name := Bucket(byName, id.name) + [id]];
    forall name ensures Bucket(next, name) == Filter(Named(name), all + [id]) {
      NamedSnoc(all, id, name);
      assert Bucket(byName, name) == Filter(Named(name), all);
    }
  }

  class Index {
    var byName: map<string, seq<ResourceId>>

    /** Everything added, in order, once. */
    ghost var all: seq<ResourceId>

    ghost predicate Valid()
      reads this
    {
      NoDuplicates(all) && Indexed(byName, all)
    }

    constructor ()
      ensures Valid() && all == []
    {
      byName := map[];
      all := [];
    }

    method Add(id: ResourceId)
      requires Valid()
      modifies this
      ensures Valid() && all == if id in old(all) then old(all) else old(all) + [id]
    {
      var existing := Bucket(byName, id.name);
      IndexedAdd(byName, all, id);
      var known := Contains(existing, id);
      if known {
        return;
      }
      byName := byName[id.name := existing + [id]];
      all := all + [id];
    }

    /** The lookup by name finds what a scan of everything would, in the same order. */
    method LookupRef(kind: string, ref: string) returns (out: seq<ResourceId>)
      requires Valid()
      ensures out == Scan(all, kind, ref)
    {
      var name := FindLastPart(ref);
      var candidates := Bucket(byName, name);
      ScanByName(all, kind, ref);
      out := [];
      for i := 0 to |candidates|
        invariant out == Scan(candidates[..i], kind, ref)
      {
        PrefixStep(candidates, i);
        if kind != "" && candidates[i].kind != kind {
          continue;
        }
        var matches := MatchRef(candidates[i], ref);
        if matches {
          out := out + [candidates[i]];
        }
      }
      assert candidates[..|candidates|] == candidates;
    }
  }

  // ---------------------------------------------------------------- a resource's own address

  predicate Plain(id: ResourceId) {
    ColonFree(id.origin) && ColonFree(id.name) && |id.namespace| <= 1 && forall s | s in id.namespace :: ColonFree(s)
  }

  /** An identity with at most one namespace segment is found under its own address. */
  lemma OwnAddress(id: ResourceId)
    requires Plain(id)
    ensures MatchesRef(id, Address(id))
  {
    SplitPlain(id.origin);
    if |id.namespace| == 0 || id.namespace[0] == "" {
      SplitAppend(id.origin, id.name);
      var parts := Split(Address(id));
      assert parts[..1] == [id.origin] && [id.origin][1..] == [];
      assert EndsWith(id.namespace, []);
    } else {
      var s := id.namespace[0];
      assert s in id.namespace && id.namespace == [s];
      SplitAppend(id.origin, s);
      SplitAppend(id.origin + ":" + s, id.name);
      var parts := Split(Address(id));
      assert parts[..2] == [id.origin] + id.namespace;
      assert EndsWith([id.origin] + id.namespace, [id.origin] + id.namespace);
    }
  }
}
