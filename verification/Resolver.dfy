/** Resolution of references with aliases, a policy for ambiguity and a cache of decisions (resource/resolver.go). */
module Resolver {
  import opened Sequences
  import opened ResourceIndex

  // ---------------------------------------------------------------- precedence

  const DefaultOrder := ["explicit", "local", "user", "embedded"]

  /** The position of an origin, its last one if it is listed twice; unlisted origins come after all others. */
  function RankIn(order: seq<string>, origin: string, unlisted: nat): nat {
    if order == [] then unlisted
    else if order[|order| - 1] == origin then |order| - 1
    else RankIn(order[..|order| - 1], origin, unlisted)
  }

  function Rank(order: seq<string>, id: ResourceId): nat {
    RankIn(order, id.origin, |order|)
  }

  lemma {:induction false} RankBound(order: seq<string>, origin: string, unlisted: nat)
    ensures RankIn(order, origin, unlisted) <= if |order| > unlisted then |order| else unlisted
  {
    if order != [] { RankBound(order[..|order| - 1], origin, unlisted); }
  }

  /** One candidate outranks all the others. */
  predicate Outranks(order: seq<string>, candidates: seq<ResourceId>, i: nat) {
    i < |candidates| && forall j | 0 <= j < |candidates| && j != i ::
      Rank(order, candidates[i]) < Rank(order, candidates[j])
  }

  function Ranks(order: seq<string>): map<string, nat> {
    if order == [] then map[] else Ranks(order[..|order| - 1])[order[|order| - 1] := |order| - 1]
  }

  lemma {:induction false} RanksAre(order: seq<string>, origin: string, unlisted: nat)
    ensures RankIn(order, origin, unlisted) == if origin in Ranks(order) then Ranks(order)[origin] else unlisted
  {
    if order != [] { RanksAre(order[..|order| - 1], origin, unlisted); }
  }

  /** `PrecedencePolicy.Resolve`: the one candidate that outranks all others, or an error. */
  method ByPrecedence(listed: seq<string>, candidates: seq<ResourceId>) returns (r: Result<ResourceId>)
    ensures var order := if listed == [] then DefaultOrder else listed;
            && (forall i: nat | Outranks(order, candidates, i) :: r == Ok(candidates[i]))
            && (r.Ok? ==> exists i: nat :: Outranks(order, candidates, i))
  {
    var order := if listed == [] then DefaultOrder else listed;
    var rank: map<string, nat> := map[];
    for i := 0 to |order|
      invariant rank == Ranks(order[..i])
    {
      PrefixStep(order, i);
      rank := rank[order[i] := i];
    }
    assert order[..|order|] == order;
    var best, bestRank, tied := -1, |order| + 1, false;
    for i := 0 to |candidates|
      invariant -1 <= best < i && (best < 0 <==> i == 0)
      invariant best < 0 ==> bestRank == |order| + 1 && !tied
      invariant best >= 0 ==> bestRank == Rank(order, candidates[best])
      invariant forall j | 0 <= j < i :: bestRank <= Rank(order, candidates[j])
      invariant tied ==> exists j :: 0 <= j < i && j != best && Rank(order, candidates[j]) == bestRank
      invariant !tied ==> forall j | 0 <= j < i && j != best :: bestRank < Rank(order, candidates[j])
    {
      RanksAre(order, candidates[i].origin, |order|);
      RankBound(order, candidates[i].origin, |order|);
      var k := if candidates[i].origin in rank then rank[candidates[i].origin] else |order|;
      if k < bestRank {
        best, bestRank, tied := i, k, false;
      } else if k == bestRank {
        tied := true;
      }
    }
    if best < 0 || tied {
      return Err;
    }
    assert Outranks(order, candidates, best);
    return Ok(candidates[best]);
  }

  // ---------------------------------------------------------------- resolving

  type Policy = (string, string, seq<ResourceId>) -> Result<ResourceId>

  /** Resolution without a cache. */
  function Fresh(all: seq<ResourceId>, policy: Policy, kind: string, ref: string): Result<ResourceId> {
    var candidates := Scan(all, kind, ref);
    if candidates == [] then Err
    else if |candidates| == 1 then Ok(candidates[0])
    else policy(kind, ref, candidates)
  }

  function Rewritten(aliases: map<string, string>, ref: string): string {
    if ref in aliases then aliases[ref] else ref
  }

  function CacheKey(kind: string, ref: string): string {
    kind + ":" + ref
  }

  /** A cached decision counts if its address still names exactly one resource. */
  function Cached(all: seq<ResourceId>, resolved: map<string, string>, kind: string, ref: string): Option<ResourceId> {
    if CacheKey(kind, ref) in resolved && |Scan(all, kind, resolved[CacheKey(kind, ref)])| == 1
    then Some(Scan(all, kind, resolved[CacheKey(kind, ref)])[0]) else None
  }

  /** Resolution through the cache, of a reference already rewritten. */
  function Answer(all: seq<ResourceId>, policy: Policy, resolved: map<string, string>, kind: string,
                  ref: string): Result<ResourceId>
  {
    if Cached(all, resolved, kind, ref).Some? then Ok(Cached(all, resolved, kind, ref).value)
    else Fresh(all, policy, kind, ref)
  }

  function CacheAfter(all: seq<ResourceId>, policy: Policy, resolved: map<string, string>, kind: string,
                      ref: string): map<string, string>
  {
    if Cached(all, resolved, kind, ref).None? && Fresh(all, policy, kind, ref).Ok?
    then resolved[CacheKey(kind, ref) := Address(Fresh(all, policy, kind, ref).value)] else resolved
  }

  class Resolver {
    const index: Index
    const policy: Policy
    var aliases: map<string, string>
    var resolved: map<string, string>

    constructor (index: Index, policy: Policy, aliases: map<string, string>)
      ensures this.index == index && this.policy == policy && this.aliases == aliases && resolved == map[]
    {
      this.index, this.policy, this.aliases, resolved := index, policy, aliases, map[];
    }

    method Resolve(kind: string, ref: string) returns (r: Result<ResourceId>)
      requires index.Valid()
      modifies this`resolved
      ensures r == Answer(index.all, policy, old(resolved), kind, Rewritten(aliases, ref))
      ensures resolved == CacheAfter(index.all, policy, old(resolved), kind, Rewritten(aliases, ref))
    {
      var target := if ref in aliases then aliases[ref] else ref;
      var key := kind + ":" + target;
      if key in resolved {
        var found := index.LookupRef(kind, resolved[key]);
        if |found| == 1 {
          return Ok(found[0]);
        }
      }
      r := ResolveFresh(kind, target, key);
    }

    /** Steps 3 to 5: look up, decide, remember the decision. */
    method ResolveFresh(kind: string, target: string, key: string) returns (r: Result<ResourceId>)
      requires index.Valid()
      modifies this`resolved
      ensures r == Fresh(index.all, policy, kind, target)
      ensures resolved == if r.Ok? then old(resolved)[key := Address(r.value)] else old(resolved)
    {
      var candidates := index.LookupRef(kind, target);
      if |candidates| == 0 {
        return Err;
      }
      if |candidates| == 1 {
        resolved := resolved[key := Address(candidates[0])];
        return Ok(candidates[0]);
      }
      r := policy(kind, target, candidates);
      if r.Ok? {
        resolved := resolved[key := Address(r.value)];
      }
    }

    method SetAlias(name: string, target: string)
      modifies this`aliases
      ensures aliases == old(aliases)[name := target]
    {
      aliases := aliases[name := target];
    }
  }

  // ---------------------------------------------------------------- transparency of the cache

  datatype Op = Resolve(kind: string, ref: string) | SetAlias(name: string, target: string)

  datatype State = State(aliases: map<string, string>, resolved: map<string, string>)

  function Next(all: seq<ResourceId>, policy: Policy, s: State, op: Op): State {
    match op
    case Resolve(kind, ref) => s.(resolved := CacheAfter(all, policy, s.resolved, kind, Rewritten(s.aliases, ref)))
    case SetAlias(name, target) => s.(aliases := s.aliases[name := target])
  }

  function Run(all: seq<ResourceId>, policy: Policy, aliases: map<string, string>, ops: seq<Op>): State {
    if ops == [] then State(aliases, map[])
    else Next(all, policy, Run(all, policy, aliases, ops[..|ops| - 1]), ops[|ops| - 1])
  }

  ghost predicate TransparentAt(all: seq<ResourceId>, policy: Policy, s: State, kind: string, ref: string) {
    Answer(all, policy, s.resolved, kind, Rewritten(s.aliases, ref)) ==
      Fresh(all, policy, kind, Rewritten(s.aliases, ref))
  }

  /** The cache never changes an answer, whatever was resolved and renamed before. */
  ghost predicate Transparent(all: seq<ResourceId>, policy: Policy) {
    forall aliases, ops, kind, ref :: TransparentAt(all, policy, Run(all, policy, aliases, ops), kind, ref)
  }

  /** A decision for one query, found under the key of another, is what the other resolves to by itself. */
  ghost predicate Agree(all: seq<ResourceId>, policy: Policy, kind: string, ref: string, kind': string, ref': string) {
    CacheKey(kind, ref) == CacheKey(kind', ref') && Fresh(all, policy, kind, ref).Ok? ==>
      var found := Scan(all, kind', Address(Fresh(all, policy, kind, ref).value));
      |found| == 1 ==> Fresh(all, policy, kind', ref') == Ok(found[0])
  }

  ghost predicate AllAgree(all: seq<ResourceId>, policy: Policy) {
    forall kind, ref, kind', ref' :: Agree(all, policy, kind, ref, kind', ref')
  }

  /** The query a cached address was decided for. */
  ghost predicate DecidedFor(all: seq<ResourceId>, policy: Policy, key: string, address: string, kind: string,
                             ref: string)
  {
    && CacheKey(kind, ref) == key && Fresh(all, policy, kind, ref).Ok?
    && address == Address(Fresh(all, policy, kind, ref).value)
  }

  ghost predicate Decided(all: seq<ResourceId>, policy: Policy, resolved: map<string, string>) {
    forall key | key in resolved :: exists kind, ref :: DecidedFor(all, policy, key, resolved[key], kind, ref)
  }

  lemma DecidedNext(all: seq<ResourceId>, policy: Policy, resolved: map<string, string>, kind: string, ref: string)
    requires Decided(all, policy, resolved)
    ensures Decided(all, policy, CacheAfter(all, policy, resolved, kind, ref))
  {
    var after := CacheAfter(all, policy, resolved, kind, ref);
    forall key | key in after ensures exists k, x :: DecidedFor(all, policy, key, after[key], k, x) {
      if key in resolved && after[key] == resolved[key] {
        assert exists k, x :: DecidedFor(all, policy, key, resolved[key], k, x);
      } else {
        assert DecidedFor(all, policy, key, after[key], kind, ref);
      }
    }
  }

  lemma {:induction false} AlwaysDecided(all: seq<ResourceId>, policy: Policy, aliases: map<string, string>,
                                         ops: seq<Op>)
    ensures Decided(all, policy, Run(all, policy, aliases, ops).resolved)
  {
    if ops != [] {
      var s, last := Run(all, policy, aliases, ops[..|ops| - 1]), ops[|ops| - 1];
      AlwaysDecided(all, policy, aliases, ops[..|ops| - 1]);
      if last.Resolve? { DecidedNext(all, policy, s.resolved, last.kind, Rewritten(s.aliases, last.ref)); }
    }
  }

  lemma AgreeingIsTransparent(all: seq<ResourceId>, policy: Policy, s: State, kind: string, ref: string)
    requires AllAgree(all, policy) && Decided(all, policy, s.resolved)
    ensures TransparentAt(all, policy, s, kind, ref)
  {
    var target := Rewritten(s.aliases, ref);
    var key := CacheKey(kind, target);
    if key in s.resolved {
      var k, x :| DecidedFor(all, policy, key, s.resolved[key], k, x);
      assert Agree(all, policy, k, x, kind, target);
    }
  }

  lemma OneResolution(all: seq<ResourceId>, policy: Policy, kind: string, ref: string)
    requires Fresh(all, policy, kind, ref).Ok?
    ensures Run(all, policy, map[], [Resolve(kind, ref)]) ==
            State(map[], map[CacheKey(kind, ref) := Address(Fresh(all, policy, kind, ref).value)])
  {
    var ops := [Resolve(kind, ref)];
    assert ops[..0] == [] && Run(all, policy, map[], ops[..0]) == State(map[], map[]);
    assert Run(all, policy, map[], ops) == Next(all, policy, State(map[], map[]), ops[0]);
  }

  /** Asking one query and then the other shows that they do not agree. */
  lemma DisagreementShows(all: seq<ResourceId>, policy: Policy, kind: string, ref: string, kind': string, ref': string)
    requires !Agree(all, policy, kind, ref, kind', ref')
    ensures !Transparent(all, policy)
  {
    OneResolution(all, policy, kind, ref);
    assert !TransparentAt(all, policy, Run(all, policy, map[], [Resolve(kind, ref)]), kind', ref');
  }

  /** The cache never changes an answer, for any kinds, references and alias changes, exactly when all queries agree. */
  lemma TransparentExactlyWhen(all: seq<ResourceId>, policy: Policy)
    ensures Transparent(all, policy) <==> AllAgree(all, policy)
  {
    if AllAgree(all, policy) {
      forall aliases, ops, kind, ref ensures TransparentAt(all, policy, Run(all, policy, aliases, ops), kind, ref) {
        AlwaysDecided(all, policy, aliases, ops);
        AgreeingIsTransparent(all, policy, Run(all, policy, aliases, ops), kind, ref);
      }
    } else {
      var kind, ref, kind', ref' :| !Agree(all, policy, kind, ref, kind', ref');
      DisagreementShows(all, policy, kind, ref, kind', ref');
    }
  }

  // ---------------------------------------------------------------- kinds without a colon

  /** Kinds are plain words. */
  predicate PlainKinds(ops: seq<Op>) {
    forall op | op in ops :: op.Resolve? ==> ColonFree(op.kind)
  }

  /** Some other resource, alone, answers to the address of `id`. */
  predicate Impostor(all: seq<ResourceId>, kind: string, id: ResourceId) {
    var found := Scan(all, kind, Address(id));
    |found| == 1 && found[0] != id
  }

  ghost predicate NoImpostor(all: seq<ResourceId>, policy: Policy) {
    forall kind, ref | ColonFree(kind) && Fresh(all, policy, kind, ref).Ok? ::
      !Impostor(all, kind, Fresh(all, policy, kind, ref).value)
  }

  ghost predicate TransparentOnWords(all: seq<ResourceId>, policy: Policy) {
    forall aliases, ops, kind, ref | PlainKinds(ops) && ColonFree(kind) ::
      TransparentAt(all, policy, Run(all, policy, aliases, ops), kind, ref)
  }

  function KindOf(key: string): string {
    if key == "" || key[0] == ':' then "" else [key[0]] + KindOf(key[1..])
  }

  function RefOf(key: string): string {
    if key == "" then "" else if key[0] == ':' then key[1..] else RefOf(key[1..])
  }

  lemma {:induction false} KeyParts(kind: string, ref: string)
    requires ColonFree(kind)
    ensures KindOf(CacheKey(kind, ref)) == kind && RefOf(CacheKey(kind, ref)) == ref
  {
    var key := CacheKey(kind, ref);
    if kind == "" {
      assert key == ":" + ref && key[1..] == ref;
    } else {
      KeyParts(kind[1..], ref);
      assert key[1..] == CacheKey(kind[1..], ref);
      assert kind == [kind[0]] + kind[1..];
    }
  }

  /** Every cached address is that of the fresh answer to its key. */
  ghost predicate CacheOk(all: seq<ResourceId>, policy: Policy, resolved: map<string, string>) {
    forall key | key in resolved ::
      && ColonFree(KindOf(key)) && Fresh(all, policy, KindOf(key), RefOf(key)).Ok?
      && resolved[key] == Address(Fresh(all, policy, KindOf(key), RefOf(key)).value)
  }

  lemma {:induction false} CacheStaysOk(all: seq<ResourceId>, policy: Policy, aliases: map<string, string>,
                                        ops: seq<Op>)
    requires PlainKinds(ops)
    ensures CacheOk(all, policy, Run(all, policy, aliases, ops).resolved)
  {
    if ops != [] {
      var init, last := ops[..|ops| - 1], ops[|ops| - 1];
      CacheStaysOk(all, policy, aliases, init);
      assert last in ops;
      if last.Resolve? {
        KeyParts(last.kind, Rewritten(Run(all, policy, aliases, init).aliases, last.ref));
      }
    }
  }

  lemma NoImpostorTransparent(all: seq<ResourceId>, policy: Policy, s: State, kind: string, ref: string)
    requires NoImpostor(all, policy) && CacheOk(all, policy, s.resolved) && ColonFree(kind)
    ensures TransparentAt(all, policy, s, kind, ref)
  {
    var target := Rewritten(s.aliases, ref);
    KeyParts(kind, target);
    if CacheKey(kind, target) in s.resolved {
      assert !Impostor(all, kind, Fresh(all, policy, kind, target).value);
    }
  }

  /** Asking twice shows an impostor. */
  lemma ImpostorShows(all: seq<ResourceId>, policy: Policy, kind: string, ref: string)
    requires ColonFree(kind) && Fresh(all, policy, kind, ref).Ok? &&
             Impostor(all, kind, Fresh(all, policy, kind, ref).value)
    ensures !TransparentOnWords(all, policy)
  {
    var ops := [Resolve(kind, ref)];
    var none: map<string, string> := map[];
    assert ops[..0] == [] && Run(all, policy, none, ops[..0]) == State(none, map[]);
    var s := Run(all, policy, none, ops);
    assert s == Next(all, policy, State(none, map[]), ops[0]);
    assert PlainKinds(ops) && !TransparentAt(all, policy, s, kind, ref);
  }

  /** For kinds without a colon keys do not collide, and it comes down to resources shadowed by an impostor. */
  lemma WordsTransparentExactlyWhen(all: seq<ResourceId>, policy: Policy)
    ensures TransparentOnWords(all, policy) <==> NoImpostor(all, policy)
  {
    if NoImpostor(all, policy) {
      forall aliases, ops, kind, ref | PlainKinds(ops) && ColonFree(kind)
        ensures TransparentAt(all, policy, Run(all, policy, aliases, ops), kind, ref)
      {
        CacheStaysOk(all, policy, aliases, ops);
        NoImpostorTransparent(all, policy, Run(all, policy, aliases, ops), kind, ref);
      }
    } else {
      var kind, ref :| ColonFree(kind) && Fresh(all, policy, kind, ref).Ok? &&
        Impostor(all, kind, Fresh(all, policy, kind, ref).value);
      ImpostorShows(all, policy, kind, ref);
    }
  }

  /** A policy that picks one of its candidates. */
  ghost predicate Picks(policy: Policy) {
    forall kind, ref, candidates :: policy(kind, ref, candidates).Ok? ==>
      policy(kind, ref, candidates).value in candidates
  }

  lemma PlainIsOwn(all: seq<ResourceId>, kind: string, id: ResourceId)
    requires id in all && (kind == "" || id.kind == kind) && Plain(id)
    ensures !Impostor(all, kind, id)
  {
    OwnAddress(id);
    OnlyOne(Scan(all, kind, Address(id)), id);
  }

  lemma OnlyOne(found: seq<ResourceId>, id: ResourceId)
    requires id in found
    ensures |found| == 1 ==> found[0] == id
  {}

  /** With at most one namespace segment and no colons in names there are no impostors. */
  lemma PlainResourcesTransparent(all: seq<ResourceId>, policy: Policy)
    requires Picks(policy) && forall id | id in all :: Plain(id)
    ensures TransparentOnWords(all, policy)
  {
    forall kind, ref | ColonFree(kind) && Fresh(all, policy, kind, ref).Ok?
      ensures !Impostor(all, kind, Fresh(all, policy, kind, ref).value)
    {
      var id := Fresh(all, policy, kind, ref).value;
      assert id in Scan(all, kind, ref);
      PlainIsOwn(all, kind, id);
    }
    WordsTransparentExactlyWhen(all, policy);
  }

  /** Two neighbours: one in namespace a, b and one in namespace a/b. */
  function Nested(kind: string, o: string, a: string, b: string, n: string): ResourceId {
    ResourceId(kind, o, [a, b], n)
  }

  function Slashed(kind: string, o: string, a: string, b: string, n: string): ResourceId {
    ResourceId(kind, o, [a + "/" + b], n)
  }

  predicate Words(o: string, a: string, b: string, n: string) {
    ColonFree(o) && ColonFree(a) && ColonFree(b) && ColonFree(n) && b != o
  }

  lemma NestedAddress(kind: string, o: string, a: string, b: string, n: string)
    requires Words(o, a, b, n)
    ensures Split(Address(Nested(kind, o, a, b, n))) == [o, a + "/" + b, n]
  {
    var ns := a + "/" + b;
    assert [a, b][..1] == [a];
    assert Joined([a, b]) == ns;
    SplitPlain(o);
    SplitAppend(o, ns);
    SplitAppend(o + ":" + ns, n);
  }

  lemma NestedRef(b: string, n: string)
    requires ColonFree(b) && ColonFree(n)
    ensures Split(b + ":" + n) == [b, n]
  {
    SplitPlain(b);
    SplitAppend(b, n);
  }

  lemma EndsWithLast(full: seq<string>, x: string, y: string)
    ensures EndsWith(full + [x], [y]) <==> x == y
  {
    assert (full + [x])[|full|..] == [x];
  }

  lemma EndsWithTwo(full: seq<string>, x: string, u: string, y: string)
    ensures EndsWith(full + [x], [u, y]) ==> x == y
  {
    if EndsWith(full + [x], [u, y]) {
      assert (full + [x])[|full| - 1..][1] == x;
    }
  }

  lemma ShortQualifier(kind: string, o: string, a: string, b: string, n: string)
    requires Words(o, a, b, n)
    ensures Qualifies(Nested(kind, o, a, b, n), [b]) && !Qualifies(Slashed(kind, o, a, b, n), [b])
  {
    var ns := a + "/" + b;
    assert |ns| > |b|;
    assert [o] + [a, b] == [o, a] + [b];
    EndsWithLast([o, a], b, b);
    EndsWithLast([o], ns, b);
  }

  lemma LongQualifier(kind: string, o: string, a: string, b: string, n: string)
    requires Words(o, a, b, n)
    ensures !Qualifies(Nested(kind, o, a, b, n), [o, a + "/" + b]) &&
            Qualifies(Slashed(kind, o, a, b, n), [o, a + "/" + b])
  {
    var ns := a + "/" + b;
    assert |ns| > |b|;
    assert [o] + [a, b] == [o, a] + [b] && [a, b] == [a] + [b] && [o, ns][1..] == [ns];
    EndsWithTwo([o, a], b, o, ns);
    EndsWithLast([a], b, ns);
    assert EndsWith([o] + [ns], [o, ns]);
  }

  lemma MatchesWith(id: ResourceId, ref: string, qualifier: seq<string>, name: string)
    requires Split(ref) == qualifier + [name] && id.name == name
    ensures MatchesRef(id, ref) <==> Qualifies(id, qualifier)
  {
    assert (qualifier + [name])[..|qualifier|] == qualifier;
  }

  /** The short reference names the nested resource only. */
  lemma ShortMatches(kind: string, o: string, a: string, b: string, n: string)
    requires Words(o, a, b, n)
    ensures MatchesRef(Nested(kind, o, a, b, n), b + ":" + n) && !MatchesRef(Slashed(kind, o, a, b, n), b + ":" + n)
  {
    NestedRef(b, n);
    ShortQualifier(kind, o, a, b, n);
    assert [b, n] == [b] + [n];
    MatchesWith(Nested(kind, o, a, b, n), b + ":" + n, [b], n);
    MatchesWith(Slashed(kind, o, a, b, n), b + ":" + n, [b], n);
  }

  /** The nested resource's own address names the other only. */
  lemma LongMatches(kind: string, o: string, a: string, b: string, n: string)
    requires Words(o, a, b, n)
    ensures !MatchesRef(Nested(kind, o, a, b, n), Address(Nested(kind, o, a, b, n)))
    ensures MatchesRef(Slashed(kind, o, a, b, n), Address(Nested(kind, o, a, b, n)))
  {
    var address := Address(Nested(kind, o, a, b, n));
    NestedAddress(kind, o, a, b, n);
    LongQualifier(kind, o, a, b, n);
    assert [o, a + "/" + b, n] == [o, a + "/" + b] + [n];
    MatchesWith(Nested(kind, o, a, b, n), address, [o, a + "/" + b], n);
    MatchesWith(Slashed(kind, o, a, b, n), address, [o, a + "/" + b], n);
  }

  lemma ScanTwo(x: ResourceId, y: ResourceId, kind: string, ref: string)
    ensures Scan([x, y], kind, ref) == (if Hit(kind, ref, x) then [x] else []) + (if Hit(kind, ref, y) then [y] else [])
  {
    assert [x, y][..1] == [x] && [x][..0] == [];
    assert Filter(Hits(kind, ref), [x]) == if Hit(kind, ref, x) then [x] else [];
  }

  /** The nested resource answers the first query; its neighbour answers the second. */
  lemma SlashShadows(kind: string, o: string, a: string, b: string, n: string, policy: Policy)
    requires Words(o, a, b, n) && ColonFree(kind)
    ensures var all := [Nested(kind, o, a, b, n), Slashed(kind, o, a, b, n)];
            Fresh(all, policy, kind, b + ":" + n) == Ok(all[0]) && !TransparentOnWords(all, policy)
  {
    var x, y := Nested(kind, o, a, b, n), Slashed(kind, o, a, b, n);
    ShortMatches(kind, o, a, b, n);
    LongMatches(kind, o, a, b, n);
    ScanTwo(x, y, kind, b + ":" + n);
    ScanTwo(x, y, kind, Address(x));
    ImpostorShows([x, y], policy, kind, b + ":" + n);
  }
}
