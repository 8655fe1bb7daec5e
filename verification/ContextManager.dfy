/**
 The context manager object (agentcontext/manager.go): providers, the records of the last committed render, and the
 version that guards commits. Every method body runs under the manager's lock, so a method is one atomic step; a
 render runs between two of them, on a copy.
 */
module ContextManager {
  import opened Sequences
  import opened KeyOrder
  import opened ContextRecords
  import opened ContextPrepare

  /** What `Prepare` copies under the lock before it asks the providers. */
  datatype Snapshot = Snapshot(providers: seq<Provider>, records: Records, version: nat)

  function KeysOf(providers: seq<Provider>): seq<string> {
    Map((p: Provider) => p.key, providers)
  }

  predicate Distinct(providers: seq<Provider>) {
    && (forall i | 0 <= i < |providers| :: providers[i].key != "")
    && (forall i, j | 0 <= i < j < |providers| :: providers[i].key != providers[j].key)
  }

  /** The providers ordered by key, for distinct keys. */
  ghost predicate SortedFrom(providers: seq<Provider>, out: seq<Provider>) {
    Ascending(KeysOf(out)) && |out| == |providers| && forall p :: p in out <==> p in providers
  }

  class Manager {
    var providers: seq<Provider>
    var records: Records
    var version: nat

    /** The records after each change of version. */
    ghost var history: seq<Records>

    ghost predicate Valid()
      reads this
    {
      Distinct(providers) && |history| == version + 1 && history[version] == records
    }

    /** A copy taken earlier, possibly many changes ago. */
    ghost predicate Taken(s: Snapshot)
      reads this
    {
      s.version < |history| && history[s.version] == s.records && Distinct(s.providers)
    }

    constructor ()
      ensures Valid() && providers == [] && records == map[] && version == 0
    {
      providers, records, version := [], map[], 0;
      history := [map[]];
    }

    method TakeSnapshot() returns (s: Snapshot)
      requires Valid()
      ensures Taken(s) && s == Snapshot(providers, records, version)
    {
      s := Snapshot(providers, records, version);
    }

    method SetRecords(next: Records)
      requires Valid()
      modifies this
      ensures Valid() && records == next && history == old(history) + [next] && providers == old(providers)
    {
      records := next;
      version := version + 1;
      history := history + [next];
    }

    /** Registers all of them, or those before the first that is unnamed or already there. */
    method Register(added: seq<Provider>) returns (ok: bool)
      requires Valid()
      modifies this`providers
      ensures Valid()
      ensures ok <==> Distinct(old(providers) + added)
      ensures ok ==> SortedFrom(old(providers) + added, providers)
      ensures !ok ==> exists n ::
              0 <= n < |added| && providers == old(providers) + added[..n] && !Distinct(old(providers) + added[..n + 1])
    {
      for i := 0 to |added|
        invariant providers == old(providers) + added[..i] && Distinct(providers)
      {
        AddOne(old(providers), added, i);
        var taken := HasKey(providers, added[i].key);
        if added[i].key == "" || taken {
          return false;
        }
        providers := providers + [added[i]];
      }
      assert added[..|added|] == added;
      providers := SortProviders(providers);
      ok := true;
    }
  }

  lemma AddOne(before: seq<Provider>, added: seq<Provider>, i: nat)
    requires i < |added| && Distinct(before + added[..i])
    ensures before + added[..i + 1] == (before + added[..i]) + [added[i]]
    ensures Distinct(before + added[..i + 1]) <==>
            added[i].key != "" && forall j | 0 <= j < |before + added[..i]| ::
              (before + added[..i])[j].key != added[i].key
    ensures Distinct(before + added) ==> Distinct(before + added[..i + 1])
  {
    var so, next, all := before + added[..i], before + added[..i + 1], before + added;
    assert next == so + [added[i]];
    assert forall j | 0 <= j < |next| :: next[j] == all[j];
    assert forall j | 0 <= j < |so| :: next[j] == so[j];
    assert next[|so|] == added[i];
  }

  method HasKey(providers: seq<Provider>, key: ProviderKey) returns (r: bool)
    ensures r <==> exists j :: 0 <= j < |providers| && providers[j].key == key
  {
    for i := 0 to |providers|
      invariant forall j | 0 <= j < i :: providers[j].key != key
    {
      if providers[i].key == key {
        return true;
      }
    }
    r := false;
  }

  /** Inserts each provider before the first with a larger key. */
  method SortProviders(providers: seq<Provider>) returns (out: seq<Provider>)
    requires Distinct(providers)
    ensures SortedFrom(providers, out) && Distinct(out)
  {
    out := [];
    for i := 0 to |providers|
      invariant SortedFrom(providers[..i], out)
    {
      PrefixStep(providers, i);
      out := InsertProvider(providers[i], out, providers[..i]);
    }
    assert providers[..|providers|] == providers;
    AscendingDistinct(providers, out);
  }

  lemma AscendingDistinct(providers: seq<Provider>, out: seq<Provider>)
    requires Distinct(providers) && SortedFrom(providers, out)
    ensures Distinct(out)
  {
    var keys := KeysOf(out);
    forall i, j | 0 <= i < j < |out| ensures out[i].key != out[j].key {
      assert Below(keys[i], keys[j]);
      BelowIrreflexive(keys[i]);
    }
    assert forall i | 0 <= i < |out| :: out[i] in out;
  }

  method InsertProvider(p: Provider, sorted: seq<Provider>, ghost from: seq<Provider>) returns (out: seq<Provider>)
    requires SortedFrom(from, sorted) && forall q | q in from :: q.key != p.key
    ensures SortedFrom(from + [p], out)
  {
    var i := 0;
    while i < |sorted| && Below(sorted[i].key, p.key)
      invariant i <= |sorted| && forall j | 0 <= j < i :: Below(sorted[j].key, p.key)
    {
      i := i + 1;
    }
    out := sorted[..i] + [p] + sorted[i..];
    InsertedAscending(p, sorted, i);
    assert forall q :: q in sorted <==> q in sorted[..i] || q in sorted[i..]
           by { assert sorted == sorted[..i] + sorted[i..]; }
  }

  lemma InsertedAscending(p: Provider, sorted: seq<Provider>, i: nat)
    requires Ascending(KeysOf(sorted)) && i <= |sorted| && forall q | q in sorted :: q.key != p.key
    requires forall j | 0 <= j < i :: Below(sorted[j].key, p.key)
    requires i < |sorted| ==> !Below(sorted[i].key, p.key)
    ensures Ascending(KeysOf(sorted[..i] + [p] + sorted[i..]))
  {
    var keys := KeysOf(sorted);
    forall j | i <= j < |sorted| ensures Below(p.key, sorted[j].key) {
      assert sorted[i] in sorted;
      BelowTotal(p.key, sorted[i].key);
      if j != i {
        assert Below(keys[i], keys[j]);
        BelowTransitive(p.key, sorted[i].key, sorted[j].key);
      }
    }
    var out := sorted[..i] + [p] + sorted[i..];
    forall a, b | 0 <= a < b < |out| ensures Below(out[a].key, out[b].key) {
      if a != i && b != i {
        assert Below(keys[if a < i then a else a - 1], keys[if b < i then b else b - 1]);
      }
    }
  }

  /** A render in progress or finished, with the copy it was made from. */
  class PreparedRender {
    const manager: Manager
    const snapshot: Snapshot
    const result: BuildResult
    const records: Records
    var done: bool

    ghost predicate Valid()
      reads this, manager
    {
      manager.Valid() && manager.Taken(snapshot) && records == NextRecords(snapshot.records, result.providers)
    }

    constructor (manager: Manager, snapshot: Snapshot, result: BuildResult, records: Records)
      requires manager.Valid() && manager.Taken(snapshot) && records == NextRecords(snapshot.records, result.providers)
      ensures Valid() && !done && this.manager == manager && this.snapshot == snapshot && this.result == result &&
              this.records == records
    {
      this.manager, this.snapshot, this.result, this.records, done := manager, snapshot, result, records, false;
    }

    /**
     Succeeds once, and only while nothing else has changed the records: the state replaced is the one rendered on.
     */
    method Commit() returns (ok: bool)
      requires Valid()
      modifies this, manager
      ensures Valid() && manager.providers == old(manager.providers)
      ensures ok <==> !old(done) && old(manager.version) == snapshot.version
      ensures ok ==> old(manager.records) == snapshot.records && manager.records == records && done
      ensures ok ==> manager.history == old(manager.history) + [records]
      ensures !ok ==> unchanged(this) && unchanged(manager)
    {
      if done || manager.version != snapshot.version {
        return false;
      }
      manager.records := records;
      manager.version := manager.version + 1;
      manager.history := manager.history + [records];
      done := true;
      ok := true;
    }

    method Rollback()
      requires Valid()
      modifies this
      ensures Valid() && done
    {
      done := true;
    }
  }

  /** The part of `Prepare` that runs without the lock. */
  method PrepareRender(hash: string -> string, manager: Manager, s: Snapshot, answers: seq<Answer>)
    returns (r: PreparedRender?)
    requires manager.Valid() && manager.Taken(s) && |answers| == |s.providers|
    ensures r == null <==> SomeFail(s.providers, s.records, answers, |s.providers|)
    ensures r != null ==>
              && fresh(r) && r.Valid() && !r.done && r.manager == manager && r.snapshot == s
              && IsRender(hash, s.providers, s.records, answers, r.result)
  {
    var prepared := Prepare(hash, s.providers, s.records, answers);
    if prepared.Err? {
      return null;
    }
    r := new PreparedRender(manager, s, prepared.value.0, prepared.value.1);
  }
}
