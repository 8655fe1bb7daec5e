/**
 Which references name a resource, spelled out (resource/identity.go), and what a reference resolves to, told from the
 resources that answer to it (resource/resolver.go).
 */
module References {
  import opened Sequences
  import opened ResourceIndex
  import opened Resolver

  // ---------------------------------------------------------------- spelling

  /** The parts with colons between them. */
  function Spell(parts: seq<string>): string
    requires parts != []
  {
    if |parts| == 1 then parts[0] else Spell(parts[..|parts| - 1]) + ":" + parts[|parts| - 1]
  }

  predicate AllColonFree(parts: seq<string>) {
    forall p | p in parts :: ColonFree(p)
  }

  lemma {:induction false} SplitSpelled(parts: seq<string>)
    requires parts != [] && AllColonFree(parts)
    ensures Split(Spell(parts)) == parts
  {
    assert parts[|parts| - 1] in parts;
    if |parts| == 1 {
      SplitPlain(parts[0]);
    } else {
      SplitSpelled(parts[..|parts| - 1]);
      SplitAppend(Spell(parts[..|parts| - 1]), parts[|parts| - 1]);
      Unsnoc(parts);
    }
  }

  lemma SpellSnoc(parts: seq<string>, part: string)
    requires parts != []
    ensures Spell(parts + [part]) == Spell(parts) + ":" + part
  {
    SnocInit(parts, part);
  }

  lemma {:induction false} SpellLonger(init: seq<string>, last: string, c: char)
    ensures Spell(init + [last + [c]]) == Spell(init + [last]) + [c]
  {
    if init == [] {
      assert init + [last + [c]] == [last + [c]] && init + [last] == [last];
    } else {
      SpellSnoc(init, last + [c]);
      SpellSnoc(init, last);
      Assoc(Spell(init) + ":", last, [c]);
    }
  }

  lemma {:induction false} SpelledSplit(ref: string)
    ensures Spell(Split(ref)) == ref
  {
    if ref != "" {
      var init, c := ref[..|ref| - 1], ref[|ref| - 1];
      SpelledSplit(init);
      assert ref == init + [c];
      if c == ':' {
        SpellSnoc(Split(init), "");
        assert init + ":" + "" == ref;
      } else {
        var parts := Split(init);
        Unsnoc(parts);
        SpellLonger(parts[..|parts| - 1], parts[|parts| - 1], c);
      }
    }
  }

  // ---------------------------------------------------------------- the names of a resource

  /** From `k` on, the namespace and the name; in front of it, if wanted, the origin. */
  function NameFrom(id: ResourceId, origin: bool, k: nat): seq<string>
    requires k <= |id.namespace|
  {
    (if origin then [id.origin] else []) + id.namespace[k..] + [id.name]
  }

  ghost predicate Spelled(id: ResourceId, ref: string) {
    exists origin: bool, k: nat :: k <= |id.namespace| && ref == Spell(NameFrom(id, origin, k))
  }

  /** An end of the namespace, with the origin in front or not. */
  ghost predicate EndOf(id: ResourceId, qualifier: seq<string>, k: nat) {
    k <= |id.namespace| && (qualifier == id.namespace[k..] || qualifier == [id.origin] + id.namespace[k..])
  }

  lemma {:induction false} QualifierEnds(id: ResourceId, qualifier: seq<string>) returns (k: nat)
    requires Qualifies(id, qualifier)
    ensures EndOf(id, qualifier, k)
  {
    var ns, full := id.namespace, [id.origin] + id.namespace;
    if qualifier == [] {
      k := |ns|;
      assert ns[k..] == [];
    } else if EndsWith(full, qualifier) {
      k := |full| - |qualifier|;
      if k == 0 {
        assert full[0..] == full && ns[0..] == ns;
      } else {
        assert full[k..] == ns[k - 1..];
        k := k - 1;
      }
    } else {
      k := |ns| - |qualifier[1..]|;
      assert qualifier == [qualifier[0]] + qualifier[1..];
    }
  }

  lemma {:induction false} EndQualifies(id: ResourceId, qualifier: seq<string>, k: nat)
    requires EndOf(id, qualifier, k)
    ensures Qualifies(id, qualifier)
  {
    var ns, full := id.namespace, [id.origin] + id.namespace;
    if qualifier == ns[k..] {
      assert |full| - |qualifier| == k + 1 && full[k + 1..] == ns[k..];
    } else {
      assert qualifier[1..] == ns[k..] && |ns| - |qualifier[1..]| == k;
    }
  }

  lemma MatchSpells(id: ResourceId, ref: string)
    requires MatchesRef(id, ref)
    ensures Spelled(id, ref)
  {
    var parts := Split(ref);
    var qualifier := parts[..|parts| - 1];
    SpelledSplit(ref);
    Unsnoc(parts);
    var k := QualifierEnds(id, qualifier);
    if qualifier == id.namespace[k..] {
      assert [] + id.namespace[k..] == id.namespace[k..];
      assert parts == NameFrom(id, false, k);
    } else {
      assert parts == NameFrom(id, true, k);
    }
  }

  lemma SpellingMatches(id: ResourceId, origin: bool, k: nat)
    requires ColonFree(id.origin) && AllColonFree(id.namespace) && ColonFree(id.name) && k <= |id.namespace|
    ensures MatchesRef(id, Spell(NameFrom(id, origin, k)))
  {
    var parts, qualifier := NameFrom(id, origin, k), (if origin then [id.origin] else []) + id.namespace[k..];
    SplitSpelled(parts);
    assert parts[..|parts| - 1] == qualifier;
    assert !origin ==> qualifier == id.namespace[k..];
    EndQualifies(id, qualifier, k);
  }

  /** A reference names a resource exactly when it spells an end of its namespace and its name, origin first or not. */
  lemma MatchesExactly(id: ResourceId, ref: string)
    requires ColonFree(id.origin) && AllColonFree(id.namespace) && ColonFree(id.name)
    ensures MatchesRef(id, ref) <==> Spelled(id, ref)
  {
    if MatchesRef(id, ref) {
      MatchSpells(id, ref);
    }
    if origin: bool, k: nat :| k <= |id.namespace| && ref == Spell(NameFrom(id, origin, k)) {
      SpellingMatches(id, origin, k);
    }
  }

  // ---------------------------------------------------------------- what a reference resolves to

  /** The resource is of the kind asked for, if any, and the reference names it. */
  predicate AnswersTo(id: ResourceId, kind: string, ref: string) {
    (kind == "" || id.kind == kind) && MatchesRef(id, ref)
  }

  lemma {:induction false} FilterSnoc<T>(keep: T -> bool, s: seq<T>, x: T)
    ensures Filter(keep, s + [x]) == Filter(keep, s) + if keep(x) then [x] else []
  {
    SnocInit(s, x);
  }

  lemma {:induction false} FilterSplit<T>(keep: T -> bool, s: seq<T>, i: nat)
    requires i < |s|
    ensures Filter(keep, s) == Filter(keep, s[..i]) + (if keep(s[i]) then [s[i]] else []) + Filter(keep, s[i + 1..])
  {
    assert s == (s[..i] + [s[i]]) + s[i + 1..];
    FilterAppend(keep, s[..i] + [s[i]], s[i + 1..]);
    FilterSnoc(keep, s[..i], s[i]);
  }

  lemma OnlyOne(all: seq<ResourceId>, kind: string, ref: string, i: nat)
    requires i < |all| && AnswersTo(all[i], kind, ref)
    requires forall j | 0 <= j < |all| && j != i :: !AnswersTo(all[j], kind, ref)
    ensures Scan(all, kind, ref) == [all[i]]
  {
    FilterSplit(Hits(kind, ref), all, i);
    forall x | x in all[..i] ensures !Hits(kind, ref)(x) { assert !AnswersTo(x, kind, ref); }
    forall x | x in all[i + 1..] ensures !Hits(kind, ref)(x) { assert !AnswersTo(x, kind, ref); }
    NoneKept(Hits(kind, ref), all[..i]);
    NoneKept(Hits(kind, ref), all[i + 1..]);
  }

  lemma Several(all: seq<ResourceId>, kind: string, ref: string, i: nat, j: nat)
    requires i < j < |all| && AnswersTo(all[i], kind, ref) && AnswersTo(all[j], kind, ref)
    ensures |Scan(all, kind, ref)| > 1
  {
    FilterSplit(Hits(kind, ref), all, i);
    assert all[i + 1..][j - i - 1] == all[j];
    assert all[j] in all[i + 1..] && Hits(kind, ref)(all[j]);
  }

  /** Nothing that answers: an error. One: that resource. Several: the policy decides between them, in their order. */
  lemma ResolvesExactly(all: seq<ResourceId>, policy: Policy, kind: string, ref: string)
    ensures (forall id | id in all :: !AnswersTo(id, kind, ref)) ==> Fresh(all, policy, kind, ref) == Err
    ensures forall i: nat | i < |all| && AnswersTo(all[i], kind, ref) &&
                            (forall j | 0 <= j < |all| && j != i :: !AnswersTo(all[j], kind, ref)) ::
              Fresh(all, policy, kind, ref) == Ok(all[i])
    ensures forall i: nat, j: nat | i < j < |all| && AnswersTo(all[i], kind, ref) && AnswersTo(all[j], kind, ref) ::
              Fresh(all, policy, kind, ref) ==
              policy(kind, ref, Filter((id: ResourceId) => AnswersTo(id, kind, ref), all))
  {
    if forall id | id in all :: !AnswersTo(id, kind, ref) {
      NoneKept(Hits(kind, ref), all);
    }
    forall i: nat | i < |all| && AnswersTo(all[i], kind, ref) &&
                    (forall j | 0 <= j < |all| && j != i :: !AnswersTo(all[j], kind, ref))
      ensures Fresh(all, policy, kind, ref) == Ok(all[i])
    {
      OnlyOne(all, kind, ref, i);
    }
    FilterSame(Hits(kind, ref), (id: ResourceId) => AnswersTo(id, kind, ref), all);
    forall i: nat, j: nat | i < j < |all| && AnswersTo(all[i], kind, ref) && AnswersTo(all[j], kind, ref)
      ensures |Scan(all, kind, ref)| > 1
    {
      Several(all, kind, ref, i, j);
    }
  }

  /** An alias stands for its target from then on, and for nothing else. */
  lemma AliasExactly(all: seq<ResourceId>, policy: Policy, s: State, name: string, target: string, ref: string)
    ensures var s' := Next(all, policy, s, SetAlias(name, target));
            && s'.resolved == s.resolved
            && Rewritten(s'.aliases, name) == target
            && (ref != name ==> Rewritten(s'.aliases, ref) == Rewritten(s.aliases, ref))
            && Rewritten(map[], ref) == ref
  {}
}
